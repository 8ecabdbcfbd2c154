/**
 * The cached list of open offers and the three reducer edits applied to it:
 * ADDOFFER (append unless present), UPDATEOFFER (drop by offer id) and
 * UPDATEPRICE (rewrite the price of matching offers).
 */
module Offers {
  import opened Seqs

  /** An account as the ledger reports it: a hex string such as "0x5B38...". */
  type Address = string

  /** One fixed-price listing as the ledger's `offers(i)` getter returns it. */
  datatype Offer = Offer(offerId: nat, id: nat, user: Address, price: nat, fulfilled: bool, cancelled: bool)

  /** The payload of an ADDOFFER action: the fields of a freshly emitted offer event. */
  datatype OfferEvent = OfferEvent(offerId: nat, id: nat, user: Address, price: nat)

  predicate IsOpen(o: Offer) {
    !o.fulfilled && !o.cancelled
  }

  predicate AllOpen(offers: seq<Offer>) {
    forall k :: 0 <= k < |offers| ==> IsOpen(offers[k])
  }

  predicate HasOfferId(offers: seq<Offer>, offerId: nat) {
    exists k :: 0 <= k < |offers| && offers[k].offerId == offerId
  }

  /** No two cached offers share an offer id. */
  predicate UniqueOfferIds(offers: seq<Offer>) {
    forall i, j :: 0 <= i < j < |offers| ==> offers[i].offerId != offers[j].offerId
  }

  /** The invariant of the front end's offer cache: open offers, one per offer id. */
  predicate CacheWellFormed(offers: seq<Offer>) {
    UniqueOfferIds(offers) && AllOpen(offers)
  }

  /** The record ADDOFFER builds from its payload: a new offer is neither fulfilled nor cancelled. */
  function Listed(e: OfferEvent): (o: Offer)
    ensures IsOpen(o)
    ensures o.offerId == e.offerId && o.id == e.id && o.user == e.user && o.price == e.price
  {
    Offer(e.offerId, e.id, e.user, e.price, false, false)
  }

  function IndexOfOfferId(offers: seq<Offer>, offerId: nat): int {
    FindIndex(offers, (o: Offer) => o.offerId == offerId)
  }

  /** ADDOFFER: append the event's offer unless one with the same offer id is cached. */
  function AppendIfAbsent(offers: seq<Offer>, e: OfferEvent): (r: seq<Offer>)
    ensures !HasOfferId(offers, e.offerId) ==> r == offers + [Listed(e)]
    ensures HasOfferId(offers, e.offerId) ==> r == offers
    ensures HasOfferId(r, e.offerId)
  {
    if IndexOfOfferId(offers, e.offerId) == -1 then
      var r := offers + [Listed(e)];
      assert r[|offers|] == Listed(e);
      r
    else offers
  }

  /** UPDATEOFFER: keep the offers whose offer id differs from `offerId`. */
  function RemoveOffer(offers: seq<Offer>, offerId: nat): (r: seq<Offer>)
    ensures !HasOfferId(r, offerId)
    ensures forall k :: 0 <= k < |r| ==> r[k] in offers
    ensures forall i :: 0 <= i < |offers| && offers[i].offerId != offerId ==> offers[i] in r
  {
    Filter(offers, (o: Offer) => o.offerId != offerId)
  }

  /** UPDATEPRICE: set `price` on every offer with offer id `offerId`. */
  function Reprice(offers: seq<Offer>, offerId: nat, price: nat): (r: seq<Offer>)
    ensures |r| == |offers|
    ensures forall i :: 0 <= i < |r| ==> r[i].(price := offers[i].price) == offers[i]
    ensures forall i :: 0 <= i < |r| && offers[i].offerId == offerId ==> r[i].price == price
    ensures forall i :: 0 <= i < |r| && offers[i].offerId != offerId ==> r[i] == offers[i]
  {
    seq(|offers|, i requires 0 <= i < |offers| =>
      if offers[i].offerId == offerId then offers[i].(price := price) else offers[i])
  }

  /** The filter of the offer loader: drop fulfilled and cancelled offers. */
  function OpenOffers(offers: seq<Offer>): (r: seq<Offer>)
    ensures AllOpen(r)
    ensures forall i :: 0 <= i < |offers| && IsOpen(offers[i]) ==> offers[i] in r
  {
    Filter(offers, IsOpen)
  }

  /**
   * The side-effecting `map` of UPDATEPRICE, which assigns `price` on each matching
   * offer where it stands.
   */
  method RepriceInPlace(offers: array<Offer>, offerId: nat, price: nat)
    modifies offers
    ensures offers[..] == Reprice(old(offers[..]), offerId, price)
  {
    ghost var before := offers[..];
    for k := 0 to offers.Length
      invariant forall j :: 0 <= j < k ==> offers[j] == Reprice(before, offerId, price)[j]
      invariant forall j :: k <= j < offers.Length ==> offers[j] == before[j]
    {
      if offers[k].offerId == offerId {
        offers[k] := offers[k].(price := price);
      }
    }
  }

  // ---- ADDOFFER ----

  /** Adding the same offer twice caches it once. */
  lemma AppendIfAbsentIdempotent(offers: seq<Offer>, e: OfferEvent)
    ensures AppendIfAbsent(AppendIfAbsent(offers, e), e) == AppendIfAbsent(offers, e)
  {
  }

  /** ADDOFFER never introduces a second offer with an existing offer id. */
  lemma AppendIfAbsentKeepsUniqueIds(offers: seq<Offer>, e: OfferEvent)
    requires UniqueOfferIds(offers)
    ensures UniqueOfferIds(AppendIfAbsent(offers, e))
  {
    if !HasOfferId(offers, e.offerId) {
      var r := offers + [Listed(e)];
      forall i, j | 0 <= i < j < |r| ensures r[i].offerId != r[j].offerId {
        if j == |offers| {
          assert r[i] == offers[i];
        }
      }
    }
  }

  /** ADDOFFER keeps the cache invariant: the added offer is open and its id is new. */
  lemma AppendIfAbsentKeepsCache(offers: seq<Offer>, e: OfferEvent)
    requires CacheWellFormed(offers)
    ensures CacheWellFormed(AppendIfAbsent(offers, e))
  {
    AppendIfAbsentKeepsUniqueIds(offers, e);
  }

  // ---- UPDATEOFFER ----

  /** Dropping an offer id twice is dropping it once. */
  lemma RemoveOfferIdempotent(offers: seq<Offer>, offerId: nat)
    ensures RemoveOffer(RemoveOffer(offers, offerId), offerId) == RemoveOffer(offers, offerId)
  {
    FilterIdempotent(offers, (o: Offer) => o.offerId != offerId);
  }

  /**
   * UPDATEOFFER keeps exactly the offers whose id differs, at increasing positions
   * of the old list: their order is the old order.
   */
  lemma RemoveOfferSelects(offers: seq<Offer>, offerId: nat)
    ensures Selects(RemoveOffer(offers, offerId), offers,
                    KeptIndices(offers, (o: Offer) => o.offerId != offerId),
                    (o: Offer) => o.offerId != offerId)
  {
    FilterSelects(offers, (o: Offer) => o.offerId != offerId);
  }

  /** An id that is not cached leaves the cache as it was. */
  lemma RemoveAbsentOffer(offers: seq<Offer>, offerId: nat)
    requires !HasOfferId(offers, offerId)
    ensures RemoveOffer(offers, offerId) == offers
  {
    FilterKeepsAll(offers, (o: Offer) => o.offerId != offerId);
  }

  /** With unique offer ids, dropping a cached id removes exactly one offer. */
  lemma {:induction false} RemoveOfferShrinksByOne(offers: seq<Offer>, offerId: nat)
    requires UniqueOfferIds(offers)
    requires HasOfferId(offers, offerId)
    ensures |RemoveOffer(offers, offerId)| == |offers| - 1
  {
    var p := (o: Offer) => o.offerId != offerId;
    assert offers == [offers[0]] + offers[1..];
    if offers[0].offerId == offerId {
      assert !HasOfferId(offers[1..], offerId) by {
        forall k | 0 <= k < |offers[1..]| ensures offers[1..][k].offerId != offerId {
          assert offers[1..][k] == offers[k + 1];
        }
      }
      RemoveAbsentOffer(offers[1..], offerId);
    } else {
      var k :| 0 <= k < |offers| && offers[k].offerId == offerId;
      assert offers[1..][k - 1] == offers[k];
      RemoveOfferShrinksByOne(offers[1..], offerId);
    }
  }

  /** Removing a just-added offer gives what removing it from the old list gives. */
  lemma RemoveAfterAppend(offers: seq<Offer>, e: OfferEvent)
    ensures RemoveOffer(AppendIfAbsent(offers, e), e.offerId) == RemoveOffer(offers, e.offerId)
  {
    var p := (o: Offer) => o.offerId != e.offerId;
    if !HasOfferId(offers, e.offerId) {
      FilterAppend(offers, [Listed(e)], p);
      assert [Listed(e)][1..] == [];
    }
  }

  /** A sub-list of a well-formed cache is well formed, so UPDATEOFFER keeps the invariant. */
  lemma FilterKeepsCache(offers: seq<Offer>, p: Offer -> bool)
    requires CacheWellFormed(offers)
    ensures CacheWellFormed(Filter(offers, p))
  {
    FilterSelects(offers, p);
    var r, idx := Filter(offers, p), KeptIndices(offers, p);
    forall i, j | 0 <= i < j < |r| ensures r[i].offerId != r[j].offerId {
      assert idx[i] < idx[j];
    }
  }

  // ---- UPDATEPRICE ----

  /** Setting the same price twice is setting it once. */
  lemma RepriceIdempotent(offers: seq<Offer>, offerId: nat, price: nat)
    ensures Reprice(Reprice(offers, offerId, price), offerId, price) == Reprice(offers, offerId, price)
  {
  }

  /** UPDATEPRICE touches neither offer ids nor status flags, so the invariant survives. */
  lemma RepriceKeepsCache(offers: seq<Offer>, offerId: nat, price: nat)
    requires CacheWellFormed(offers)
    ensures CacheWellFormed(Reprice(offers, offerId, price))
  {
  }

  // ---- offer loading ----

  /** The loader keeps exactly the open offers, at increasing positions of the fetched list. */
  lemma OpenOffersSelects(offers: seq<Offer>)
    ensures Selects(OpenOffers(offers), offers, KeptIndices(offers, IsOpen), IsOpen)
  {
    FilterSelects(offers, IsOpen);
  }
}
