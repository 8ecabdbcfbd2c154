/**
 * The rules inside the NFT collection view: the value sent when buying, the card each
 * NFT gets from the offer cache, and the per-card input refs kept in step with the
 * collection's length.
 */
module Collection {
  import opened Wrappers
  import opened Seqs
  import opened Offers

  /** One minted NFT of the collection. */
  datatype Nft = Nft(id: nat, title: string, img: string, owner: Address)

  /** JavaScript turns a `null` fund balance into 0 in both `<` and `-=`. */
  function FundsAsNumber(userFunds: Option<nat>): (n: nat)
    ensures userFunds.None? ==> n == 0
    ensures userFunds.Some? ==> n == userFunds.value
  {
    match userFunds
    case None => 0
    case Some(f) => f
  }

  function Min(a: nat, b: nat): nat {
    if a <= b then a else b
  }

  /**
   * `buyHandler`: the offer to fill and the value sent with it. The user's withdrawable
   * funds cover as much of the price as they can; the rest is sent.
   */
  method BuyHandler(offers: seq<Offer>, buyIndex: nat, userFunds: Option<nat>) returns (offerId: nat, value: nat)
    requires buyIndex < |offers|
    ensures offerId == offers[buyIndex].offerId
    ensures value + Min(offers[buyIndex].price, FundsAsNumber(userFunds)) == offers[buyIndex].price
    ensures value + FundsAsNumber(userFunds) >= offers[buyIndex].price
    ensures value == 0 <==> offers[buyIndex].price <= FundsAsNumber(userFunds)
  {
    var price: int := offers[buyIndex].price;
    var funds := FundsAsNumber(userFunds);
    if price < funds {
      price := 0;
    } else {
      price := price - funds;
    }
    offerId, value := offers[buyIndex].offerId, price;
  }

  /** The buttons and forms a card shows below the image. */
  datatype Controls =
    | BuyButton(buyIndex: nat)                   // listed by someone else
    | SellerControls(cancelIndex: nat, offerId: nat) // listed by the viewer: cancel, update price
    | ListingForms(nftId: nat)                   // unlisted and owned by the viewer: offer, auction
    | NoControls                                 // unlisted and owned by someone else

  /** What the render map derives for one NFT: the offer index, shown owner, raw price, controls. */
  datatype Card = Card(index: int, owner: Address, price: Option<nat>, controls: Controls)

  /** The card of `nft` for the viewer `account`, looked up in the offer cache by asset id. */
  function CardFor(nft: Nft, offers: seq<Offer>, account: Address): (c: Card)
    ensures c.index == -1 <==> forall k :: 0 <= k < |offers| ==> offers[k].id != nft.id
    ensures c.index != -1 ==>
      && 0 <= c.index < |offers|
      && offers[c.index].id == nft.id
      && forall k :: 0 <= k < c.index ==> offers[k].id != nft.id
    ensures c.index == -1 ==> c.owner == nft.owner && c.price == None
    ensures c.index != -1 ==> c.owner == offers[c.index].user && c.price == Some(offers[c.index].price)
    ensures c.controls.BuyButton? ==>
      c.controls.buyIndex == c.index && offers[c.controls.buyIndex].user != account
    ensures c.controls.SellerControls? ==>
      c.controls.cancelIndex == c.index && offers[c.controls.cancelIndex].user == account
      && c.controls.offerId == offers[c.index].offerId
    ensures c.controls.ListingForms? ==> c.index == -1 && nft.owner == account && c.controls.nftId == nft.id
    ensures c.controls.NoControls? ==> c.index == -1 && nft.owner != account
  {
    var index := FindIndex(offers, (o: Offer) => o.id == nft.id);
    var owner := if index == -1 then nft.owner else offers[index].user;
    var price := if index != -1 then Some(offers[index].price) else None;
    var controls :=
      if index != -1 then
        (if owner != account then BuyButton(index) else SellerControls(index, offers[index].offerId))
      else
        (if owner == account then ListingForms(nft.id) else NoControls);
    Card(index, owner, price, controls)
  }

  /**
   * Clicking BUY on a card fills that card's offer: the handler is called with a valid
   * index, fills the first offer for the card's NFT, and sends at most its price.
   */
  method BuyFromCard(nft: Nft, offers: seq<Offer>, account: Address, userFunds: Option<nat>)
    returns (offerId: nat, value: nat)
    requires CardFor(nft, offers, account).controls.BuyButton?
    ensures exists k :: 0 <= k < |offers| && offers[k].id == nft.id && offers[k].offerId == offerId &&
                        offers[k].user != account && value <= offers[k].price
  {
    var c := CardFor(nft, offers, account);
    offerId, value := BuyHandler(offers, c.controls.buyIndex, userFunds);
  }

  /** An opaque React ref; each `createRef()` allocates a new one. */
  class Ref {
    constructor () {}
  }

  /** A `useRef([])` box holding one input ref per card. */
  class RefList {
    var current: seq<Ref>

    constructor ()
      ensures current == []
    {
      current := [];
    }

    /**
     * Resize to `n` refs when the length differs: positions that existed keep their
     * ref, new positions get fresh, distinct refs, and extra refs are dropped.
     */
    method Sync(n: nat)
      modifies this
      ensures |current| == n
      ensures forall i :: 0 <= i < n && i < |old(current)| ==> current[i] == old(current)[i]
      ensures forall i :: |old(current)| <= i < n ==> fresh(current[i])
      ensures forall i, j :: |old(current)| <= i < j < n ==> current[i] != current[j]
    {
      if |current| != n {
        var previous, refs: seq<Ref> := current, [];
        for i := 0 to n
          invariant |refs| == i
          invariant forall k :: 0 <= k < i && k < |previous| ==> refs[k] == previous[k]
          invariant forall k :: |previous| <= k < i ==> fresh(refs[k])
          invariant forall k, l :: |previous| <= k < l < i ==> refs[k] != refs[l]
        {
          var r;
          if i < |previous| {
            r := previous[i];
          } else {
            r := new Ref();
          }
          refs := refs + [r];
        }
        current := refs;
      }
    }
  }

  /** Lines 17-23 of the view: both ref lists follow the collection's length. */
  method SyncRefs(priceRefs: RefList, periodRefs: RefList, collection: seq<Nft>)
    requires priceRefs != periodRefs
    modifies priceRefs, periodRefs
    ensures |priceRefs.current| == |collection| && |periodRefs.current| == |collection|
    ensures forall i :: 0 <= i < |collection| && i < |old(priceRefs.current)| ==>
      priceRefs.current[i] == old(priceRefs.current)[i]
    ensures forall i :: 0 <= i < |collection| && i < |old(periodRefs.current)| ==>
      periodRefs.current[i] == old(periodRefs.current)[i]
    ensures forall i :: |old(priceRefs.current)| <= i < |collection| ==> fresh(priceRefs.current[i])
    ensures forall i :: |old(periodRefs.current)| <= i < |collection| ==> fresh(periodRefs.current[i])
    ensures forall i, j :: |old(priceRefs.current)| <= i < |collection| && |old(periodRefs.current)| <= j < |collection| ==>
      priceRefs.current[i] != periodRefs.current[j]
  {
    priceRefs.Sync(|collection|);
    periodRefs.Sync(|collection|);
  }
}
