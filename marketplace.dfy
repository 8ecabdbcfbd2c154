/**
 * The front end's local cache of marketplace state: the record the reducer keeps,
 * the actions it is driven by, and the two loaders that turn ledger reads into
 * LOADOFFERS and LOADAUCTIONS actions.
 */
module Marketplace {
  import opened Wrappers
  import opened Seqs
  import opened Offers

  /** What the CONTRACT action stores: a contract handle, or "" when no deployment was found. */
  datatype ContractRef = NotDeployed | Deployed(address: Address)

  /**
   * One entry of the first array returned by the ledger's `getAuctions()`: the seller
   * field the loader inspects, and the struct's other fields, copied unread.
   */
  datatype AuctionRecord = AuctionRecord(nftSender: Address, fields: map<string, string>)

  /** An auction record spread together with its id from the second array. */
  datatype ListedAuction = ListedAuction(auction: AuctionRecord, id: nat)

  datatype State = State(
    contract: Option<ContractRef>,
    offerCount: Option<nat>,
    offers: seq<Offer>,
    auctions: seq<ListedAuction>,
    userFunds: Option<nat>,
    mktIsLoading: bool)

  /** The state before anything is loaded, and the state an unrecognised action resets to. */
  const DefaultState: State := State(None, None, [], [], None, true)

  /** The default state holds nothing loaded, is loading, and satisfies the cache invariant. */
  lemma DefaultStateIsEmpty()
    ensures DefaultState.contract.None? && DefaultState.offerCount.None? && DefaultState.userFunds.None?
    ensures DefaultState.offers == [] && DefaultState.auctions == [] && DefaultState.mktIsLoading
    ensures CacheWellFormed(DefaultState.offers)
  {
  }

  /** One constructor per action `type` string the reducer tests; `Unrecognised` is every other string. */
  datatype Action =
    | Contract(contract: ContractRef)       // "CONTRACT"
    | LoadOfferCount(offerCount: nat)       // "LOADOFFERCOUNT"
    | LoadOffers(offers: seq<Offer>)        // "LOADOFFERS"
    | LoadAuctions(auctions: seq<ListedAuction>) // "LOADAUCTIONS"
    | UpdateOffer(offerId: nat)             // "UPDATEOFFER"
    | UpdatePrice(offerId: nat, price: nat) // "UPDATEPRICE"
    | AddOffer(offer: OfferEvent)           // "ADDOFFER"
    | LoadFunds(userFunds: nat)             // "LOADFUNDS"
    | Loading(loading: bool)                // "LOADING"
    | Unrecognised

  datatype Field = ContractField | OfferCountField | OffersField | AuctionsField | UserFundsField | LoadingField

  /** The one field a recognised action may change. */
  function Target(a: Action): Field
    requires !a.Unrecognised?
  {
    match a
    case Contract(_) => ContractField
    case LoadOfferCount(_) => OfferCountField
    case LoadOffers(_) => OffersField
    case LoadAuctions(_) => AuctionsField
    case UpdateOffer(_) => OffersField
    case UpdatePrice(_, _) => OffersField
    case AddOffer(_) => OffersField
    case LoadFunds(_) => UserFundsField
    case Loading(_) => LoadingField
  }

  /** `s` and `t` agree on every field except possibly `f`. */
  predicate AgreeExcept(s: State, t: State, f: Field) {
    && (f != ContractField ==> t.contract == s.contract)
    && (f != OfferCountField ==> t.offerCount == s.offerCount)
    && (f != OffersField ==> t.offers == s.offers)
    && (f != AuctionsField ==> t.auctions == s.auctions)
    && (f != UserFundsField ==> t.userFunds == s.userFunds)
    && (f != LoadingField ==> t.mktIsLoading == s.mktIsLoading)
  }

  /** The reducer: the next cached state after `a`. */
  function Reduce(s: State, a: Action): (r: State)
    ensures a.Unrecognised? ==> r == DefaultState
    ensures !a.Unrecognised? ==> AgreeExcept(s, r, Target(a))
    ensures a.AddOffer? ==> HasOfferId(r.offers, a.offer.offerId)
    ensures a.UpdateOffer? ==> !HasOfferId(r.offers, a.offerId)
    ensures a.UpdatePrice? ==> |r.offers| == |s.offers|
  {
    match a
    case Contract(c) => s.(contract := Some(c))
    case LoadOfferCount(n) => s.(offerCount := Some(n))
    case LoadOffers(offers) => s.(offers := offers)
    case LoadAuctions(auctions) => s.(auctions := auctions)
    case UpdateOffer(offerId) => s.(offers := RemoveOffer(s.offers, offerId))
    case UpdatePrice(offerId, price) => s.(offers := Reprice(s.offers, offerId, price))
    case AddOffer(e) => s.(offers := AppendIfAbsent(s.offers, e))
    case LoadFunds(funds) => s.(userFunds := Some(funds))
    case Loading(loading) => s.(mktIsLoading := loading)
    case Unrecognised => DefaultState
  }

  /** Each of the six load actions stores its payload in its field. */
  lemma LoadActionsStorePayload(s: State, a: Action)
    ensures a.Contract? ==> Reduce(s, a).contract == Some(a.contract)
    ensures a.LoadOfferCount? ==> Reduce(s, a).offerCount == Some(a.offerCount)
    ensures a.LoadOffers? ==> Reduce(s, a).offers == a.offers
    ensures a.LoadAuctions? ==> Reduce(s, a).auctions == a.auctions
    ensures a.LoadFunds? ==> Reduce(s, a).userFunds == Some(a.userFunds)
    ensures a.Loading? ==> Reduce(s, a).mktIsLoading == a.loading
  {
  }

  /** Every action is idempotent: dispatching it twice in a row is dispatching it once. */
  lemma ReduceIdempotent(s: State, a: Action)
    ensures Reduce(Reduce(s, a), a) == Reduce(s, a)
  {
    match a
    case UpdateOffer(offerId) => RemoveOfferIdempotent(s.offers, offerId);
    case UpdatePrice(offerId, price) => RepriceIdempotent(s.offers, offerId, price);
    case AddOffer(e) => AppendIfAbsentIdempotent(s.offers, e);
    case _ =>
  }

  /**
   * The cache invariant (open offers, unique offer ids) holds after every action,
   * given that a LOADOFFERS payload satisfies it.
   */
  lemma ReduceKeepsCache(s: State, a: Action)
    requires CacheWellFormed(s.offers)
    requires a.LoadOffers? ==> CacheWellFormed(a.offers)
    ensures CacheWellFormed(Reduce(s, a).offers)
  {
    match a
    case UpdateOffer(offerId) => FilterKeepsCache(s.offers, (o: Offer) => o.offerId != offerId);
    case UpdatePrice(offerId, price) => RepriceKeepsCache(s.offers, offerId, price);
    case AddOffer(e) => AppendIfAbsentKeepsCache(s.offers, e);
    case _ =>
  }

  /** UPDATEOFFER right after ADDOFFER of an offer gives what UPDATEOFFER alone gives. */
  lemma UpdateOfferUndoesAddOffer(s: State, e: OfferEvent)
    ensures Reduce(Reduce(s, AddOffer(e)), UpdateOffer(e.offerId)) == Reduce(s, UpdateOffer(e.offerId))
  {
    RemoveAfterAppend(s.offers, e);
  }

  /** When the offer id was not cached, UPDATEOFFER right after ADDOFFER restores the state. */
  lemma AddThenUpdateRestores(s: State, e: OfferEvent)
    requires !HasOfferId(s.offers, e.offerId)
    ensures Reduce(Reduce(s, AddOffer(e)), UpdateOffer(e.offerId)) == s
  {
    UpdateOfferUndoesAddOffer(s, e);
    RemoveAbsentOffer(s.offers, e.offerId);
  }

  // ---- loaders ----

  /** The offers the loader fetches: `offers(1)` .. `offers(offerCount)` in that order. */
  function Fetched(offerAt: nat -> Offer, offerCount: nat): (r: seq<Offer>)
    ensures |r| == offerCount
    ensures forall i :: 0 <= i < offerCount ==> r[i] == offerAt(i + 1)
  {
    seq(offerCount, (i: nat) => offerAt(i + 1))
  }

  /**
   * `loadOffersHandler`: fetch offers 1..offerCount one by one, then keep the open ones.
   * The ledger's getter is the parameter `offerAt`; the result is the dispatched action.
   */
  method LoadOffersHandler(offerAt: nat -> Offer, offerCount: nat) returns (action: Action)
    ensures action == LoadOffers(OpenOffers(Fetched(offerAt, offerCount)))
    ensures AllOpen(action.offers)
  {
    var offers: seq<Offer> := [];
    for i := 0 to offerCount
      invariant offers == Fetched(offerAt, i)
    {
      offers := offers + [offerAt(i + 1)];
    }
    action := LoadOffers(OpenOffers(offers));
  }

  /** When the ledger's `offers(i)` carries offer id `i`, the loaded cache is well formed. */
  lemma LoadedOffersWellFormed(offerAt: nat -> Offer, offerCount: nat)
    requires forall i: nat :: 1 <= i <= offerCount ==> offerAt(i).offerId == i
    ensures CacheWellFormed(OpenOffers(Fetched(offerAt, offerCount)))
  {
    var fetched := Fetched(offerAt, offerCount);
    assert UniqueOfferIds(fetched) by {
      forall i, j | 0 <= i < j < |fetched| ensures fetched[i].offerId != fetched[j].offerId {
        assert fetched[i] == offerAt(i + 1) && fetched[j] == offerAt(j + 1);
        assert fetched[i].offerId == i + 1;
      }
    }
    FilterSelects(fetched, IsOpen);
    var r, idx := OpenOffers(fetched), KeptIndices(fetched, IsOpen);
    forall i, j | 0 <= i < j < |r| ensures r[i].offerId != r[j].offerId {
      assert idx[i] < idx[j];
    }
  }

  const ZeroAddress: Address := "0x0000000000000000000000000000000000000000"

  predicate IsLive(e: ListedAuction) {
    e.auction.nftSender != ZeroAddress
  }

  /** Auction record `i` paired with id `i`. */
  function Paired(records: seq<AuctionRecord>, ids: seq<nat>): (r: seq<ListedAuction>)
    requires |records| <= |ids|
    ensures |r| == |records|
    ensures forall i :: 0 <= i < |records| ==> r[i].auction == records[i] && r[i].id == ids[i]
  {
    seq(|records|, i requires 0 <= i < |records| => ListedAuction(records[i], ids[i]))
  }

  /** The live auctions: paired entries whose seller is not the zero address. */
  function LiveAuctions(records: seq<AuctionRecord>, ids: seq<nat>): (r: seq<ListedAuction>)
    requires |records| <= |ids|
    ensures |r| <= |records|
    ensures forall k :: 0 <= k < |r| ==> IsLive(r[k])
    ensures forall i :: 0 <= i < |records| && records[i].nftSender != ZeroAddress ==>
      ListedAuction(records[i], ids[i]) in r
  {
    Filter(Paired(records, ids), IsLive)
  }

  /**
   * `loadAuctionsHandler`: walk the records of `getAuctions()` and push each one whose
   * `nftSender` is not the zero address, together with its id.
   */
  method LoadAuctionsHandler(records: seq<AuctionRecord>, ids: seq<nat>) returns (action: Action)
    requires |records| <= |ids|
    ensures action == LoadAuctions(LiveAuctions(records, ids))
    ensures |action.auctions| <= |records|
    ensures forall k :: 0 <= k < |action.auctions| ==> action.auctions[k].auction.nftSender != ZeroAddress
  {
    var auctions: seq<ListedAuction> := [];
    var i := 0;
    while i < |records|
      invariant 0 <= i <= |records|
      invariant auctions == LiveAuctions(records[..i], ids[..i])
    {
      var entry := ListedAuction(records[i], ids[i]);
      assert Paired(records[..i + 1], ids[..i + 1]) == Paired(records[..i], ids[..i]) + [entry];
      FilterAppend(Paired(records[..i], ids[..i]), [entry], IsLive);
      assert [entry][1..] == [];
      if records[i].nftSender != ZeroAddress {
        auctions := auctions + [entry];
      }
      i := i + 1;
    }
    assert records[..i] == records;
    assert Paired(records, ids[..i]) == Paired(records, ids);
    action := LoadAuctions(auctions);
  }

  /**
   * Entry `i` of the auction list is kept, paired with `ids[i]`, exactly when its seller is
   * not the zero address, and the kept entries appear in their original order.
   */
  lemma LiveAuctionsSelects(records: seq<AuctionRecord>, ids: seq<nat>)
    requires |records| <= |ids|
    ensures var idx := KeptIndices(Paired(records, ids), IsLive);
      var r := LiveAuctions(records, ids);
      && |r| == |idx|
      && (forall k :: 0 <= k < |idx| ==> idx[k] < |records| && r[k] == ListedAuction(records[idx[k]], ids[idx[k]]))
      && (forall k, l :: 0 <= k < l < |idx| ==> idx[k] < idx[l])
      && (forall i :: 0 <= i < |records| ==> (records[i].nftSender != ZeroAddress <==> i in idx))
  {
    var paired := Paired(records, ids);
    FilterSelects(paired, IsLive);
    var idx := KeptIndices(paired, IsLive);
    forall i | 0 <= i < |records|
      ensures records[i].nftSender != ZeroAddress <==> i in idx
    {
      assert paired[i] == ListedAuction(records[i], ids[i]);
    }
  }
}
