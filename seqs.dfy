/**
 * The two array primitives the marketplace cache is built from:
 * `Array.prototype.filter` and `Array.prototype.findIndex`, over sequences.
 */
module Seqs {

  /**
   * The elements of `s` that satisfy `p`, in their order in `s`. The contract below states
   * membership only; order and multiplicity are fixed by `FilterSelects`, and concatenation
   * by `FilterAppend`.
   */
  function Filter<T>(s: seq<T>, p: T -> bool): (r: seq<T>)
    ensures |r| <= |s|
    ensures forall k :: 0 <= k < |r| ==> r[k] in s && p(r[k])
    ensures forall i :: 0 <= i < |s| && p(s[i]) ==> s[i] in r
  {
    if s == [] then []
    else
      assert s == [s[0]] + s[1..];
      (if p(s[0]) then [s[0]] else []) + Filter(s[1..], p)
  }

  /** Position of the first element of `s` that satisfies `p`, or -1 when there is none. */
  function FindIndex<T>(s: seq<T>, p: T -> bool): (r: int)
    ensures -1 <= r < |s|
    ensures r == -1 <==> forall i :: 0 <= i < |s| ==> !p(s[i])
    ensures 0 <= r ==> p(s[r]) && forall j :: 0 <= j < r ==> !p(s[j])
  {
    if s == [] then -1
    else if p(s[0]) then 0
    else
      var k := FindIndex(s[1..], p);
      if k == -1 then -1 else k + 1
  }

  /** Reference definition of filtering: the indices of `s` whose element satisfies `p`, ascending. */
  function KeptIndices<T>(s: seq<T>, p: T -> bool): seq<nat>
  {
    if s == [] then []
    else KeptIndices(s[..|s| - 1], p) + (if p(s[|s| - 1]) then [|s| - 1] else [])
  }

  /**
   * `r` consists of the elements of `s` at the strictly increasing positions `idx`,
   * and `idx` holds exactly the positions whose element satisfies `p`.
   */
  ghost predicate Selects<T>(r: seq<T>, s: seq<T>, idx: seq<nat>, p: T -> bool)
  {
    && |r| == |idx|
    && (forall k :: 0 <= k < |idx| ==> idx[k] < |s| && r[k] == s[idx[k]])
    && (forall k, l :: 0 <= k < l < |idx| ==> idx[k] < idx[l])
    && (forall i :: 0 <= i < |s| ==> (p(s[i]) <==> i in idx))
  }

  /** Filtering a concatenation filters each part: the kept elements keep their order. */
  lemma {:induction false} FilterAppend<T>(a: seq<T>, b: seq<T>, p: T -> bool)
    ensures Filter(a + b, p) == Filter(a, p) + Filter(b, p)
  {
    if a == [] {
      assert a + b == b;
    } else {
      assert (a + b)[1..] == a[1..] + b;
      FilterAppend(a[1..], b, p);
    }
  }

  /** Filter keeps the elements at exactly the positions that satisfy `p`, in ascending order. */
  lemma {:induction false} FilterSelects<T>(s: seq<T>, p: T -> bool)
    ensures Selects(Filter(s, p), s, KeptIndices(s, p), p)
  {
    if s != [] {
      var n := |s| - 1;
      var front, x := s[..n], s[n];
      assert s == front + [x];
      FilterAppend(front, [x], p);
      FilterSelects(front, p);
      assert [x][1..] == [];
      assert Filter([x], p) == if p(x) then [x] else [];
      var idx := KeptIndices(s, p);
      var idx0 := KeptIndices(front, p);
      assert idx == idx0 + (if p(x) then [n] else []);
      forall i | 0 <= i < |s|
        ensures p(s[i]) <==> i in idx
      {
        if i < n {
          assert s[i] == front[i];
          assert i in idx0 <==> i in idx by {
            forall k | 0 <= k < |idx0| ensures idx0[k] < n { }
          }
        }
      }
    }
  }

  /** Filtering twice with the same predicate is filtering once. */
  lemma {:induction false} FilterIdempotent<T>(s: seq<T>, p: T -> bool)
    ensures Filter(Filter(s, p), p) == Filter(s, p)
  {
    if s != [] {
      FilterIdempotent(s[1..], p);
      var head := if p(s[0]) then [s[0]] else [];
      FilterAppend(head, Filter(s[1..], p), p);
      assert Filter(head, p) == head by {
        if p(s[0]) { assert head[1..] == []; }
      }
    }
  }

  /** When every element satisfies `p`, filtering changes nothing. */
  lemma {:induction false} FilterKeepsAll<T>(s: seq<T>, p: T -> bool)
    requires forall i :: 0 <= i < |s| ==> p(s[i])
    ensures Filter(s, p) == s
  {
    if s != [] {
      FilterKeepsAll(s[1..], p);
      assert s == [s[0]] + s[1..];
    }
  }
}
