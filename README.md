# NFT marketplace front end: the local marketplace cache

This project models the part of the NFT marketplace front end that has logic of its own.
That part is the local cache of marketplace state and the rules that feed it and read it:

- **The marketplace reducer** (`marketplaceReducer`). The cached state has six fields:
  `contract`, `offerCount`, `offers`, `auctions`, `userFunds`, `mktIsLoading`. Nine action
  kinds drive it. Six of them replace one field. `ADDOFFER` appends an offer unless its
  offer id is already cached. `UPDATEOFFER` drops every offer with the given offer id.
  `UPDATEPRICE` rewrites the price of the matching offers. Any other action resets the state
  to the default state.
- **The two loaders.** `loadOffersHandler` fetches offers `1..offerCount` and keeps the ones
  that are neither fulfilled nor cancelled. `loadAuctionsHandler` pairs each auction record
  with its id and drops records whose seller is the zero address.
- **The NFT collection view.** `buyHandler` computes the value sent with `fillOffer`: the
  offer's price less the user's withdrawable funds, never below zero. Each NFT card looks up
  its offer by asset id and derives the shown owner, the price and the buttons. Two ref
  lists are kept at the collection's length.

Modules: `Wrappers` (Option), `Seqs` (filter and find-index over sequences, with a reference
characterisation of filtering by kept indices), `Offers` (the offer-list edits),
`Marketplace` (state, actions, reducer, loaders) and `Collection` (the view's rules).

The reducer is a function. Its contract says that an unrecognised action yields the default
state, and that every other action changes at most the one field it targets. Lemmas add the
rest. Every action is idempotent. The cache invariant (open offers only, with
pairwise distinct offer ids) is kept, given a well-formed LOADOFFERS payload; the loader's
payload is well formed when the ledger numbers offers by position. `UPDATEOFFER` right after
`ADDOFFER` of the same offer gives the same state as `UPDATEOFFER` alone, and restores the
state when the offer id was not cached.
The side-effecting `map` of `UPDATEPRICE` is also modelled as an in-place update of an
array of offers, proved equal to the pure `Reprice`.

The ledger is a separate Solidity contract that the front end calls through web3. This
model covers the JavaScript front end only, so the ledger's offer, auction, escrow and
refund rules are not modelled. This model follows the front-end code.

## Model

| member | source | states |
|---|---|---|
| `Seqs.Filter` | src/store/MarketplaceProvider.js:183-185 | the result is no longer than the input; it holds only input elements that satisfy the predicate, and every such input element |
| `Seqs.FindIndex` | src/store/MarketplaceProvider.js:91-93 | -1 exactly when no element satisfies the predicate; otherwise a valid index whose element satisfies it, with no earlier element satisfying it |
| `Seqs.FilterSelects` | src/store/MarketplaceProvider.js:60-62 | filtering keeps the elements at exactly the positions that satisfy the predicate, in strictly increasing position order |
| `Seqs.FilterAppend` | src/store/MarketplaceProvider.js:60-62 | filtering a concatenation is the concatenation of the filtered parts (order is kept) |
| `Seqs.FilterIdempotent` | src/store/MarketplaceProvider.js:60-62 | filtering twice with one predicate equals filtering once |
| `Seqs.FilterKeepsAll` | src/store/MarketplaceProvider.js:60-62 | when every element satisfies the predicate, filtering returns the input unchanged |
| `Offers.Listed` | src/store/MarketplaceProvider.js:99-106 | the offer ADDOFFER builds carries the event's offer id, asset id, seller and price, and is neither fulfilled nor cancelled |
| `Offers.AppendIfAbsent` | src/store/MarketplaceProvider.js:90-110 | when no cached offer has the event's offer id, the result is the old list plus an open offer built from the event; otherwise the list is unchanged; either way the id is present afterwards |
| `Offers.AppendIfAbsentIdempotent` | src/store/MarketplaceProvider.js:91-110 | adding the same offer event twice equals adding it once |
| `Offers.AppendIfAbsentKeepsUniqueIds` | src/store/MarketplaceProvider.js:91-110 | if the cached offer ids are pairwise distinct, they still are after ADDOFFER |
| `Offers.AppendIfAbsentKeepsCache` | src/store/MarketplaceProvider.js:91-110 | if the cached offers are open and have distinct offer ids, they still are after ADDOFFER |
| `Offers.RemoveOffer` | src/store/MarketplaceProvider.js:59-72 | afterwards no offer has the given id; every kept offer was cached before, and every old offer with a different id is kept |
| `Offers.RemoveOfferIdempotent` | src/store/MarketplaceProvider.js:60-62 | UPDATEOFFER applied twice equals UPDATEOFFER applied once |
| `Offers.RemoveOfferSelects` | src/store/MarketplaceProvider.js:60-62 | UPDATEOFFER yields exactly the old offers whose id differs, at strictly increasing old positions (original order) |
| `Offers.RemoveAbsentOffer` | src/store/MarketplaceProvider.js:60-62 | dropping an id that is not cached leaves the list unchanged |
| `Offers.RemoveOfferShrinksByOne` | src/store/MarketplaceProvider.js:60-62 | with distinct offer ids, dropping a cached id removes exactly one offer |
| `Offers.RemoveAfterAppend` | src/store/MarketplaceProvider.js:59-110 | dropping an offer id right after adding that offer gives the same list as dropping it from the old list |
| `Offers.FilterKeepsCache` | src/store/MarketplaceProvider.js:60-62 | any filter of a cache with open offers and distinct ids again has open offers and distinct ids |
| `Offers.Reprice` | src/store/MarketplaceProvider.js:74-88 | length and order are kept; matching offers get the new price; no other field of any offer changes; non-matching offers are unchanged |
| `Offers.RepriceInPlace` | src/store/MarketplaceProvider.js:75-79 | updating the offers where they stand leaves the array equal to `Reprice` of its old contents |
| `Offers.RepriceIdempotent` | src/store/MarketplaceProvider.js:75-79 | setting the same price twice equals setting it once |
| `Offers.RepriceKeepsCache` | src/store/MarketplaceProvider.js:75-79 | UPDATEPRICE keeps the offers open and their ids distinct |
| `Offers.OpenOffers` | src/store/MarketplaceProvider.js:183-185 | every kept offer is neither fulfilled nor cancelled, and every such fetched offer is kept |
| `Offers.OpenOffersSelects` | src/store/MarketplaceProvider.js:176-185 | the loader keeps exactly the open offers, in fetch order |
| `Marketplace.DefaultStateIsEmpty` | src/store/MarketplaceProvider.js:5-12 | the default state has null contract, offer count and funds, empty offer and auction lists, is loading, and satisfies the cache invariant |
| `Marketplace.Reduce` | src/store/MarketplaceProvider.js:14-145 | an unrecognised action yields the default state (null contract, count and funds, empty lists, loading); every other action changes at most its target field; after ADDOFFER the offer id is cached; after UPDATEOFFER it is not; UPDATEPRICE keeps the number of offers |
| `Marketplace.LoadActionsStorePayload` | src/store/MarketplaceProvider.js:15-142 | each of CONTRACT, LOADOFFERCOUNT, LOADOFFERS, LOADAUCTIONS, LOADFUNDS and LOADING stores its payload in its field |
| `Marketplace.ReduceIdempotent` | src/store/MarketplaceProvider.js:14-145 | dispatching any action twice in a row equals dispatching it once |
| `Marketplace.ReduceKeepsCache` | src/store/MarketplaceProvider.js:14-145 | every action keeps the cached offers open with distinct offer ids, given a well-formed LOADOFFERS payload |
| `Marketplace.UpdateOfferUndoesAddOffer` | src/store/MarketplaceProvider.js:59-120 | UPDATEOFFER of an offer id right after ADDOFFER of that offer gives the same state as UPDATEOFFER alone |
| `Marketplace.AddThenUpdateRestores` | src/store/MarketplaceProvider.js:59-120 | when the offer id was not cached, UPDATEOFFER right after ADDOFFER of that offer gives back the original state |
| `Marketplace.Fetched` | src/store/MarketplaceProvider.js:171-175 | the fetched list has `offerCount` entries, entry `i` being the ledger's `offers(i + 1)` |
| `Marketplace.LoadOffersHandler` | src/store/MarketplaceProvider.js:170-188 | dispatches LOADOFFERS with the open offers among `offers(1)`..`offers(offerCount)`, in that order, all of them open |
| `Marketplace.LoadedOffersWellFormed` | src/store/MarketplaceProvider.js:170-185 | when the ledger's `offers(i)` carries offer id `i` for each fetched `i` in 1..offerCount, the loaded list has open offers with distinct ids |
| `Marketplace.Paired` | src/store/MarketplaceProvider.js:194-198 | entry `i` is auction record `i` spread together with id `ids[i]`, one entry per record |
| `Marketplace.LiveAuctions` | src/store/MarketplaceProvider.js:193-199 | never longer than the records; every kept entry has a seller other than the zero address; every such record is kept with its id |
| `Marketplace.LoadAuctionsHandler` | src/store/MarketplaceProvider.js:190-202 | dispatches LOADAUCTIONS with the paired live auctions; never longer than the input; no kept entry has the zero-address seller |
| `Marketplace.LiveAuctionsSelects` | src/store/MarketplaceProvider.js:193-199 | record `i` is kept, paired with id `ids[i]`, exactly when its seller is not the zero address, and kept entries keep their order |
| `Collection.FundsAsNumber` | src/components/Content/NFTCollection/NFTCollection.js:61-62 | a `null` fund balance counts as 0 in the comparison and the subtraction; a loaded balance counts as itself |
| `Collection.BuyHandler` | src/components/Content/NFTCollection/NFTCollection.js:58-64 | fills the clicked offer's id; value plus min(price, funds) equals the price, so the value is max(0, price - funds); value plus funds covers the price; the value is 0 exactly when the funds reach the price |
| `Collection.CardFor` | src/components/Content/NFTCollection/NFTCollection.js:88-173 | the index is the first offer for the NFT's asset id, or -1 when there is none; the owner is that offer's seller, else the NFT's owner; a price only when listed; BUY only for another seller's offer, seller controls only for the viewer's own, listing forms only for an unlisted NFT the viewer owns |
| `Collection.BuyFromCard` | src/components/Content/NFTCollection/NFTCollection.js:58-104 | a card's BUY button fills an offer for that card's NFT, made by someone other than the viewer, and sends at most its price |
| `Collection.RefList.constructor` | src/components/Content/NFTCollection/NFTCollection.js:15-16 | a new ref list is empty |
| `Collection.RefList.Sync` | src/components/Content/NFTCollection/NFTCollection.js:17-23 | afterwards the list has the requested length; surviving positions keep their ref; new positions get fresh, pairwise distinct refs |
| `Collection.SyncRefs` | src/components/Content/NFTCollection/NFTCollection.js:15-23 | both ref lists take the collection's length and keep the refs of surviving positions; only new positions get fresh refs, and the new refs of the two lists differ |

## Left out

- The ledger contract (offer numbering, fill and cancel rules, fund crediting, bidding, refunds): it is a separate Solidity contract that the front end calls through web3, and this model covers the JavaScript front end only.
- The web3 calls, their `transactionHash`, `receipt` and `error` callbacks, `window.alert` and `console.log`: they are I/O. The ledger's answers become inputs (`offerAt`, `records`, `ids`, `userFunds`).
- `loadContractHandler`, `loadOfferCountHandler`, `loadUserFundsHandler`, `updateOfferHandler`, `updatePriceHandler`, `addOfferHandler` and `setMktIsLoadingHandler` in the provider: each only dispatches one action, and the actions are modelled. `loadOfferCountHandler` and `loadUserFundsHandler` first read one value from the ledger. `loadContractHandler` first builds a contract object locally, or "" when no deployment is found (`ContractRef`).
- `makeOfferHandler`, `updateOfferHandler` and `cancelHandler` in the view: they only send transactions and dispatch LOADING through `setMktIsLoading`. `makeOfferHandler` sends `approve` first and `makeOffer` once its receipt arrives.
- JSX rendering, `useReducer`, `useContext` and `useRef`; refs are opaque objects.
- `formatPrice` and `.toFixed(2)`: they use floating point. `CardFor` keeps the raw price in wei.
- The shortened owner text (`substr`) on each card: display only.
- `parseInt` on ids and prices, and numeric strings from the ledger: ids, prices and funds are naturals.
- Collection.BuyHandler: JavaScript numbers lose precision above 2^53, and wei prices exceed that; the model computes with exact naturals.
- Offers.RepriceInPlace: the source mutates the offer objects that the previous state also holds. After UPDATEPRICE the old state shows the new prices too. The model treats offers as values, so that aliasing is not captured.
- Marketplace.LoadAuctionsHandler: requires at least as many ids as records. The loader assumes the ledger returns the two arrays paired (it reads `results[1][i]` for each record); with fewer ids the source would store an undefined id.
- Marketplace.Paired: requires at least as many ids as records, for the same reason.
- Marketplace.LiveAuctions: requires at least as many ids as records, for the same reason.
- Marketplace.LiveAuctionsSelects: requires at least as many ids as records, for the same reason.
- Collection.CardFor: the `offers ?` guard at line 89 is not modelled. The cached offers are always a list here, so the guard is always true.
