# Order book and index verification

A Dafny model of the indexing service for a chain's central limit order book. The service
consumes blocks of decoded events and keeps, side by side, an aggregated book per spot market
with a stream of deltas to its clients, and an index of markets and orders. It also hands
transaction receipts back to the submitters waiting for them. The project models that logic and
proves what the structures owe each other, the chain and the clients.

`dafny verify dfyconfig.toml` checks everything.

## How it is organised

Code that changes state in place is a class whose methods are proved against functions over an
immutable state (`BookState`, `IndexState`, `Wires`, `Indexer`); the properties are then proved
about those functions, over every run.

| file | content |
|---|---|
| `Machine`, `Text`, `Sums` | saturating 64-bit arithmetic; Rust's string trimming and suffixes; sums over maps |
| `Decimal` | the two number formatters and a reader that undoes them |
| `Slug` | canonical slugs and the search for a free one |
| `SpotBook`, `BookStore` | one book, its history, deltas, views and quotes; the store of all books |
| `Replication`, `WireBook`, `WireSystem` | subscriber protocol with gaps, lag and resync; the client keyed by strings; that client in the protocol |
| `SpotMarket`, `IndexStore`, `IndexRuns` | key normalisation; the index maps; what every run of index steps keeps |
| `SubmitWait`, `SubmitQueue`, `SubmitProgress` | the waiter registry; the submit protocol as a step relation; its progress, and what blocks do to it |
| `Ledger` | the chain's ledger of limit orders, the book as a refinement of it, and how long a wrong level stays wrong |
| `Processor`, `ProcessBlock`, `OrderRoutes` | block processing as functions and as methods; the HTTP handlers that write the stores |
| `Hydration`, `Records`, `Blocks` | what chain replies do to the books, what events leave in the index, and which transactions of a block act, said without those functions |
| `Redelivery` | block processing as runs of the index; events delivered again |
| `Filing`, `LedgerEvents`, `Agreement`, `TradePrices` | how an index files a ledger's orders; block events as ledger events; book, index and ledger together; their last trade prices |
| `OrderPaths` | one order on its way into the stores over several blocks and requests at once |
| `FirstContact` | events about a book that is hydrated only when they arrive |
| `MarketQuery`, `MarketRequest` | query parameters, filtering, sorting and paging; the listing from request to answer |

## Results

- **The book refines the ledger.** Over every well-formed run from a store with a history, each level
  holds the sum of the remaining amounts of the live orders there and is absent exactly when that sum
  is 0. With replies that are early or late, each level stays wrong by exactly what the last reply for
  its spot was wrong by.
- **Book and index agree**, although nothing in the service compares them: both mirror the same
  ledger after every run of block events, so each level is the sum of size minus filled over the open
  orders of the index, and the last trade prices are the same. Cancellations reported over HTTP may
  come between: then the level is that sum plus what the orders so marked still have on the chain.
- **Gap-free means exact**: under any interleaving of changes, silent hydrations, lags and resyncs a
  client holds the server's book as it was at the client's sequence number, and a change it missed
  shows as a gap. Without hydrations a lag heals itself. A client that only sees strings, run in
  the same protocol, shows exactly that book.
- **The submit protocol** answers each job exactly once: never twice, never with another job's
  receipt, a job can always move on by itself, and every run extends to one that stops with every job answered.
  It leaves no registry entry behind.
- **Orders that arrive over several paths**, blocks and requests interleaved section by section,
  enter their level once per path that checked before the first insertion.
- **The index** stays consistent over every interleaving of handlers and blocks: slugs and markets
  are inverse, keys and orders are in bijection, nothing refers to a missing market.
- **What events and replies say is what the stores hold**: each handler is also stated in terms of the
  event, the chain's reply or the request alone, field by field, with the cases in which it does
  nothing; of a block exactly the successful transactions act, in order.
- **Slugs, formatters, paging** do what they are for, on all inputs.

### Where the code falls short, and exactly when

Each of these is a lemma that gives the condition for all inputs, or a family that fails.

| expected | holds exactly when | member |
|---|---|---|
| a price is read back from its wire form, and distinct prices have distinct keys | its hundredfold fits 64 bits; all larger prices share one key | `PriceRoundTrip`, `PriceKeyCollision` |
| a level follows the ledger through an event | the new sum fits 64 bits | `LevelExact` |
| a book that a handler hydrates when an event arrives, and then changes by the event, agrees at the event's level | the reply showed the sum from before the event, save for the bounds of the arithmetic; a reply that shows the event already moves the level twice | `FirstContactExact`, `HydrateThenApplyExact`, `LateReplyCountsTwice` |
| a fill leaves the status the amounts imply | something is filled afterwards, or the order has size 0 | `FillMirrors` |
| the open orders of the index add up to the level of the book | no order that a client reported cancelled still rests there on the chain | `BookMatchesIndex`, `HiddenExactly`, `MarkSetsApart` |
| a hydration shows the last trade price the index knows | the price it read is still the index's when it writes; a fill can come between, and the book then shows the older price | `WriteKeepsTrades`, `WriteAgreesAt`, `HydrationCanGoStale` |
| an order delivered again is recognised | it, or its spot, was known before | `IndexedIffSpotKnown`, `UnknownSpotCountsAgain` |
| a market delivered again stays as it is | no slug is left; otherwise it moves to another slug and its old one finds nothing | `RecreationRenames` |
| an order that arrives over several paths counts once | exactly one path checked before the first insertion, did not skip the book and did not fail to hydrate it (or the level is full); a post and any other path can both add it | `CountedOnce`, `BookedExactly`, `BothCanCount` |
| a subscriber is linked without a gap after its snapshot | no change falls between snapshot and subscription; one can, and is then missed | `HandshakeLinks`, `HandshakeCanMiss` |
| a receipt that `complete` handed over reaches its submitter | it did not fall between the last poll of the timeout and the drop of the receiver (treating a poll as one step closes that window); one can | `NoLostReceipt`, `ReceiptCanBeLost` |
| the suffix scan names the only spot of an order id | every stored order whose key ends in a colon and this id has this id, as it does when ids hold no colon; or there is nothing to name either way | `SuffixScanRight`, `SuffixScanExact`, `SuffixScanColon` |
| the cancel context rebuilds an order's key after its market was created again | the spot of its outcome stayed the same | `RebuildsAfterUpsert` |
| the slug search ends before its 32-bit suffix overflows | not all of the first 2^31 - 2 candidates are taken | `AllocateUniqueSlug` |

### What is assumed

- Ledger runs: an event names its order's own side and price, a fill takes at most what remains,
  an amendment's remaining amount is the new amount minus what was filled, a cancellation's amount
  is what remains (`WellFormed`). Orders are limit orders at a positive price. Level sums fit 64 bits.
  Runs start from books that agree with the ledger (`ErrorLasts` says what happens otherwise).
- For the index side: fills are positive, order ids hold no colon (how the SDK prints them is not
  visible; without it see `SuffixScanRight`), the spots are indexed and their books hydrated. The runs
  of `Agreement` hold block events and cancellations reported over HTTP; no hydration and no
  `index_from_event` request falls into them (what those do is in `FirstContact`, `TradePrices` and
  `OrderPaths`).
- A book makes fewer than 2^64 changes, so that sequence numbers do not saturate.
- `TOKEN_SCALE` is 10^6, as the width in `{frac:06}` requires.
- The SDK parsers are parameters (`Sdk`): a contract address prints without margins and parses back,
  and an address is at least as long as a contract address. From these laws idempotence of the key
  normalisation is proved.
- Version 5 UUIDs (section 5.5 of RFC 9562) are a free constructor, so distinct names have distinct
  identifiers.
- The Unicode lower-case table is a parameter that fixes slug characters and whitespace and yields
  no ASCII capital.
- Chain replies, mempool answers, timer firings and the iteration order of hash maps are arbitrary. The
  mempool call of a job returns at some time; the service sets no limit on it, and a job whose call
  never returns gets no response.
- Each section under a lock is one atomic step. HTTP handlers read and write in separate sections;
  `IndexRuns` lets any other step fall between a lookup and the write that uses it, `OrderPaths`
  between any two sections that an order's arrival goes through, `TradePrices` between the read of a
  trade price and the hydration that carries it.

## Model

| member | source | states |
|---|---|---|
| Decimal.DigitsRoundTrip | src/chain/mod.rs:121-126 | the printed numeral of any number consists of digits and denotes that number |
| Decimal.DigitsShortest | src/chain/mod.rs:121-126 | a numeral of several digits does not start with 0 |
| Decimal.TokenRoundTrip | src/chain/mod.rs:119-127 | every u64 amount is read back from its wire form |
| Decimal.TokenInjective | src/chain/mod.rs:119-127 | two amounts have the same wire form exactly when they are equal |
| Decimal.ZeroSize | src/chain/mod.rs:119-127 | only amount 0 prints as "0", the size that marks a removed level |
| Decimal.TokenForm | src/chain/mod.rs:119-127 | whole amounts print without a point, all others with exactly six places |
| Decimal.TrimmedDenotes | src/chain/mod.rs:132-139 | dropping trailing zeros after the point loses nothing |
| Decimal.PriceRoundTrip | src/chain/mod.rs:129-140 | a price is read back exactly when its hundredfold does not saturate |
| Decimal.PriceForm | src/chain/mod.rs:129-140 | a price that prints with a point does not end in it or in a zero |
| Decimal.PriceKeyCollision | src/chain/mod.rs:129-140 | two prices share a wire key exactly when they are equal or both saturate |
| Slugs.SlugFromQuestion | src/slug.rs:1-20 | the flag loop returns the maximal alphanumeric runs of the lower-cased question joined by single hyphens, or "event" |
| Slugs.TrimIrrelevant | src/slug.rs:5 | the initial trim never changes the slug |
| Slugs.SlugForm | src/slug.rs:1-20 | every slug is non-empty with no leading, trailing or doubled hyphen, and the texts that are their own slug are exactly those |
| Slugs.SlugIdempotent | src/slug.rs:1-20 | the slug of a slug is itself |
| Slugs.SlugKeepsLetters | src/slug.rs:1-20 | the slug keeps every letter and digit of the lower-cased question in order and adds none; without any it is "event" |
| Slugs.CandidateShape | src/slug.rs:24-30 | the candidates are the base and then the base with a hyphen and the numbers from 2 on |
| Slugs.CandidateInjective | src/slug.rs:28-29 | the candidates of the search are pairwise distinct |
| Slugs.TakenBound | src/slug.rs:27-30 | a list cannot hold more distinct candidates than it has entries, so the search tries at most one more |
| Slugs.AllocateUniqueSlug | src/slug.rs:22-33 | the search ends, returns a free slug, every earlier candidate was taken; it fails only if all 2^31 - 2 suffixes are |
| SpotBooks.ReplayPositive | src/indexer/book_store.rs:107-116 | no reachable book holds a level of size 0 |
| SpotBooks.LoadedSize | src/indexer/book_store.rs:109-118 | a chain reply loads exactly the prices with a non-empty entry, each with the size of its last one |
| SpotBooks.PricesAreBest | src/indexer/book_store.rs:372-390 | a depth-d view takes min(d, n) prices, strictly best first, every other price of the book is worse than all of them |
| SpotBooks.ViewsFaithful | src/indexer/book_store.rs:335-395 | in every reachable book no shown size is "0", deeper views extend shallower ones, quote and snapshot have the same sequence and the quote is the heads of the views |
| SpotBooks.ViewsExtend | src/indexer/book_store.rs:369-395 | a view is a prefix of every deeper view |
| SpotBooks.QuoteHeads | src/indexer/book_store.rs:335-345 | best bid and ask are the first levels of the two views |
| SpotBooks.QuoteCarries | src/indexer/book_store.rs:326-367 | quote and snapshot carry the book's own sequence and last trade price; the quote names its spot and the block of its change |
| BookStores.ExplainsNext | src/indexer/book_store.rs:94-124 | if every book is the replay of its history and every channel its last messages, this holds after the next change or hydration |
| BookStores.BookStore.constructor | src/indexer/book_store.rs:38-42 | an empty store, explained by empty histories |
| BookStores.BookStore.Subscribe | src/indexer/book_store.rs:48-56 | opens an empty delta channel only if there is none; the histories still explain the store |
| BookStores.BookStore.SubscribeQuote | src/indexer/book_store.rs:58-66 | the same for quotes |
| BookStores.BookStore.Snapshot | src/indexer/book_store.rs:68-80 | the view of the book at that depth, nothing for an unknown spot |
| BookStores.BookStore.CollectLevels | src/indexer/book_store.rs:109-118 | skips empty levels, keeps the last size of a repeated price |
| BookStores.BookStore.HydrateFromChain | src/indexer/book_store.rs:94-124 | replaces the levels, bumps the sequence, marks the spot hydrated, publishes nothing |
| BookStores.BookStore.ApplyLevelChange | src/indexer/book_store.rs:253-314 | moves one level with saturation, removes it at 0, bumps the sequence, and returns the delta with the level's new absolute size |
| BookStores.BookStore.PublishDelta | src/indexer/book_store.rs:316-333 | sends the encoded delta and the new best quote on the open channels of that spot only |
| BookStores.BookStore.ChangeAndPublish | src/indexer/book_store.rs:139-149 | a change and its two messages together extend the history that explains the store |
| BookStores.BookStore.ApplyCreated | src/indexer/book_store.rs:126-150 | adds the amount at a positive price, ignores zero prices and amounts |
| BookStores.BookStore.ApplyCancelled | src/indexer/book_store.rs:152-176 | takes the amount away, with the same exceptions |
| BookStores.BookStore.ApplyUpdated | src/indexer/book_store.rs:178-224 | moves the level by the difference of the remaining amounts, the old one recovered from the event |
| BookStores.BookStore.ApplyFilled | src/indexer/book_store.rs:226-251 | takes the fill away and records the trade price |
| Replication.SequenceCounts | src/indexer/book_store.rs:119 | the sequence number counts the changes and hydrations of a book |
| Replication.DeltaAdvances | src/indexer/book_store.rs:279-313 | the published delta takes the book before a change to the book after it |
| Replication.ReceiveExact | src/ws/process/session.rs:41-67 | a delta is a gap exactly when a change lies between replica and delta; an accepted one gives the server's book there |
| Replication.ReplicaExactFromStart | src/ws/process/orderbook.rs:10-49 | under every interleaving from the start the replica is the server's book at its own sequence, and missed changes show as a gap at the next delta |
| Replication.ReplicaExact | src/ws/process/session.rs:41-67 | the same from any exact state |
| Replication.LinkedStep | src/ws/process/session.rs:41-67 | a step of an established subscription without hydration keeps it linked and delivers no gap |
| Replication.LagHeals | src/ws/process/session.rs:51-66 | without hydrations a lagged client never meets a gap and ends with the server's current book |
| Replication.HandshakeLinks | src/ws/process/orderbook.rs:32-45 | snapshot then subscription link the client exactly when no change fell between them |
| Replication.HandshakeCanMiss | src/ws/process/orderbook.rs:17-45 | a run in which, after a successful rehydration, a change between snapshot and subscription never reaches the client and the next one is a gap |
| Replication.OverlapReplay | src/ws/process/session.rs:51-66 | replaying any hydration-free stretch of deltas over a snapshot taken inside it gives the book at its end |
| WireBooks.SetLevelRenders | src/indexer/book_store.rs:279-291 | writing one level in the string map is writing it in the book |
| WireBooks.MergeRenders | src/indexer/book_store.rs:298-313 | an encoded delta acts on the strings as the delta acts on the numbers |
| WireBooks.SnapshotRenders | src/indexer/book_store.rs:369-407 | a snapshot at least as deep as the book shows all of it |
| WireBooks.RenderingDetermines | src/chain/mod.rs:119-140 | what a string client holds determines the server's levels |
| WireBooks.WireReceiveShows | src/ws/process/session.rs:44-66 | a message has the same outcome for the string client as for the numeric replica, and the one shows the other |
| WireBooks.WireClientShowsReplica | src/ws/process/session.rs:41-67 | over any stream of full-depth snapshots and deltas, from wherever it comes, the string client shows the replica |
| WireSystem.ClientShows | src/ws/process/session.rs:41-67 | over every run of the subscriber protocol the string client in it shows the replica |
| WireSystem.ClientExactFromStart | src/ws/process/orderbook.rs:10-49 | from the start the string client shows the server's book as it was at the client's own sequence |
| WireBooks.WireOverlapReplay | src/ws/process/session.rs:51-66 | the overlap replay on strings |
| SpotMarkets.NormalizeIdempotent | src/spot_market.rs:5-19 | a normalised key is normal |
| SpotMarkets.KeyNames | src/spot_market.rs:5-19 | texts that name a contract, as such or as an address that starts with it, share a key exactly if they name the same one; any other text is its own key up to its margins |
| SpotMarkets.KeyInjective | src/spot_market.rs:21-27 | with colon-free order ids a key names one normalised spot and one order id |
| IndexStores.IndexStore.constructor | src/indexer/store.rs:62-66 | an empty index |
| IndexStores.IndexStore.UpsertMarket | src/indexer/store.rs:181-232 | inherits icon and slug, drops the market's other slugs, maps slug and both normalised spots |
| IndexStores.IndexStore.UpdateMarketState | src/indexer/store.rs:234-241 | sets the state of every market at that address and nothing else |
| IndexStores.IndexStore.RecordLastTradePrice | src/indexer/store.rs:257-264 | files the price under the normalised spot |
| IndexStores.IndexStore.InsertOrder | src/indexer/store.rs:347-367 | files the record under its id and the id under its chain key |
| IndexStores.IndexStore.UpdateOrderCancelled | src/indexer/store.rs:456-465 | marks the record of the key cancelled, if there is one |
| IndexStores.IndexStore.UpdateOrderAmount | src/indexer/store.rs:467-492 | sets size and derived status of that record |
| IndexStores.IndexStore.UpdateOrderFill | src/indexer/store.rs:494-517 | adds the fill with saturation and sets the status |
| IndexRuns.StartConsistent | src/indexer/store.rs:181-241 | over every run from the empty index slugs and markets are inverse, keys and orders in bijection, references exist |
| IndexRuns.RunsConsistent | src/indexer/store.rs:347-367 | the same from any consistent index, and no order is ever lost |
| IndexRuns.ConsistentStep | src/indexer/store.rs:185-517 | each kind of step keeps the index consistent |
| IndexRuns.SlugFindsMarket | src/indexer/store.rs:144-150 | a market is found under its slug, and no two markets share one |
| IndexStores.CaseIgnored | src/indexer/store.rs:305 | owners are compared letter by letter, ignoring ASCII case |
| IndexRuns.SuffixScanExact | src/indexer/store.rs:281-296 | for colon-free ids the scan returns a spot exactly when it is the only one holding that order id |
| IndexRuns.SuffixMatchesExact | src/indexer/store.rs:281-290 | for ids of any shape, what the scan collects are the spots holding the id exactly when every order whose key ends in the suffix has that id |
| IndexRuns.SuffixScanRight | src/indexer/store.rs:281-296 | for ids of any shape, the scan's answer is right exactly under that condition, or when there is neither one match nor one such spot |
| IndexRuns.SuffixScanColon | src/indexer/store.rs:281-296 | an instance of the failure: with a colon in an order id the scan names a spot that holds no such order |
| IndexRuns.RunsTrue | src/indexer/store.rs:298-345 | while re-created markets keep their spots, every order's market names the spot it is filed under |
| IndexRuns.MarkCancelledHitsOne | src/http/routes/orders.rs:162-181 | a context read at any earlier point of the run cancels exactly the order it was read for when the write comes |
| IndexRuns.RebuildsAfterUpsert | src/indexer/store.rs:185-232 | re-creating a market keeps an order's context right exactly when the spot of its outcome stays |
| SubmitWait.SubmitWaitRegistry.Register | src/submit_wait.rs:25-29 | the new channel replaces an earlier one under the digest, whose waiter sees its sender dropped |
| SubmitWait.SubmitWaitRegistry.Cancel | src/submit_wait.rs:31-33 | removes the entry of the digest, whoever registered it |
| SubmitWait.SubmitWaitRegistry.Complete | src/submit_wait.rs:35-40 | removes the entry and is true exactly when the receipt reached a waiter that is still there |
| SubmitWait.RegistryExact | src/submit_wait.rs:25-40 | what each operation does to entry and channels: taking over and cancelling drop an earlier waiter, completing removes the entry in any case and hands the receipt over exactly if a waiter is still there; other digests are untouched |
| SubmitQueue.FitsStep | src/submit_queue.rs:36-74 | every step of dispatcher, job, timer or block keeps the protocol invariant |
| SubmitQueue.SubmitProtocol | src/submit_queue.rs:36-163 | the safety half: in every interleaving no job is answered twice, a stopped dispatcher has answered all, a delivered receipt was completed under the job's own digest, entries belong to jobs in progress |
| SubmitProgress.JobCanMove | src/submit_queue.rs:97-163 | a job without a response can always take a step of its own, given that its mempool call returns |
| SubmitProgress.RankFalls | src/submit_queue.rs:97-163 | each step of a job brings it closer to its response and no other step takes it back, so it takes at most five |
| SubmitProgress.JobIsAnswered | src/submit_queue.rs:36-163 | from every state of the protocol a received job can be answered without any other job moving |
| SubmitProgress.OneResponse | src/submit_queue.rs:62-68 | in every reachable state a job has one response if it is answered, none otherwise, and then it can move |
| SubmitProgress.OutcomeExact | src/submit_queue.rs:97-163 | in every run the outcome of a job names the step that ended it: refused by the mempool, receipt polled, waiter dropped or timed out, each exactly if that step happened |
| SubmitProgress.EveryRunCanFinish | src/submit_queue.rs:36-74 | every run extends to one that stops, with every job sent before answered exactly once |
| SubmitProgress.ReceiptCanBeLost | src/submit_queue.rs:121-162 | a run in which a completed receipt is lost to a job that times out |
| SubmitProgress.FitsSeparate | src/submit_wait.rs:25-29 | no two digests of the registry share a channel in any reachable state |
| SubmitProgress.BlockReachesJob | src/indexer/processor.rs:64-74 | a block puts its first receipt under a waiting job's digest into that job's channel, and leaves it empty if there is none |
| SubmitQueue.NoLostReceipt | src/submit_queue.rs:106-163 | a receipt handed over to an accepted job is its result exactly when it did not fall after the last poll |
| SubmitQueue.NoWaiterDropped | src/submit_queue.rs:138-149 | while digests in progress are distinct no waiter is dropped |
| Ledgers.OldRemainingRecovered | src/indexer/book_store.rs:188-197 | the amounts an amendment carries determine what remained before it |
| Ledgers.OldRemainingBounds | src/indexer/book_store.rs:192-196 | for amounts that do not fit together too: what is taken for the old remaining amount |
| Ledgers.EffectMoves | src/indexer/book_store.rs:126-251 | an event moves its own level from the order's old to its new remaining amount and touches no other level of any book |
| Ledgers.EffectPublishes | src/indexer/book_store.rs:316-362 | an event that moves its order's remaining amount is published once, as a delta with the level's new absolute size and as a quote, to the subscribers of its spot alone; any other leaves the store as it is |
| Ledgers.SumMoves | src/indexer/processor.rs:130-383 | the ledger's sums move by the same amounts |
| Ledgers.LevelExact | src/indexer/book_store.rs:272-277 | an agreeing level agrees after an event exactly when the new sum fits 64 bits |
| Ledgers.BookRefinesLedger | src/indexer/book_store.rs:126-314 | over every well-formed run, hydrations with matching replies included, every level is the ledger's sum |
| Ledgers.AbsentWhenEmpty | src/indexer/book_store.rs:279-291 | in a book with a history, an agreeing level is absent exactly when its sum is 0 |
| Ledgers.RunExplained | src/indexer/book_store.rs:126-314 | every state a run reaches from a store with a history has one |
| Ledgers.RunLevelsExact | src/indexer/book_store.rs:126-314 | both halves over every well-formed run: each level is the ledger's sum and is absent exactly when that is 0 |
| Ledgers.ErrorStays | src/indexer/book_store.rs:272-277 | an event leaves the distance between a level and the ledger's sum as it is, everywhere, exactly unless it hits a bound of the arithmetic at its own level |
| Ledgers.ErrorLasts | src/book_hydrate.rs:23-56 | over every run that hits no bound, with hydrations from any replies, each level is wrong by what the last reply for its spot was wrong by when written |
| Ledgers.HydrationAgrees | src/indexer/book_store.rs:94-124 | after a hydration the books agree exactly when the reply does and the other books did |
| Ledgers.HydrateThenApply | src/book_hydrate.rs:58-70 | a level hydrated from any reply and then changed by an event is the shown size moved by the event's difference |
| Ledgers.HydrateThenApplyExact | src/book_hydrate.rs:58-70 | it is the ledger's new sum exactly when the reply showed the old one, or a bound of the arithmetic absorbs the difference |
| Ledgers.LateReplyCountsTwice | src/book_hydrate.rs:58-70 | a reply that shows the event already makes its difference count twice; that is right only if there is none or at a bound |
| FirstContact.ContactHandled | src/indexer/processor.rs:157-182 | a creation, amendment or fill that finds its book not hydrated hydrates it from the reply and applies the event on top, or leaves the books alone if the reply fails |
| FirstContact.FirstContactExact | src/indexer/processor.rs:130-383 | through the handlers, for any reply of the chain: the event's level is right exactly under the condition above, every other level is what the reply itself shows, and without a usable reply the books are as before |
| Hydrations.HydrationExact | src/book_hydrate.rs:23-56 | a hydration succeeds exactly if the spot parses, the chain knows its book and a trade price can be had; then the bids and asks are those of the reply, the trade price is the indexed one or else the chain's, and nothing else changes |
| Hydrations.EnsuringExact | src/book_hydrate.rs:58-70 | the same for a book that may be hydrated already, which is left alone |
| Hydrations.HydrationsExact | src/book_hydrate.rs:88-149 | of several spots in turn each book shows its last usable reply, whatever fails on the way; channels and index stay |
| Records.UpsertExact | src/indexer/store.rs:184-231 | the record is the given market with icon and slug inherited where missing; it has one slug, each spot leads to it with its own outcome, everything else stays |
| Records.MarketExact | src/indexer/processor.rs:703-748 | a created market is recorded with the event's data under the allocated slug, each spot on its own side, and both books show their replies; without a free slug nothing is recorded and indexing ends |
| Records.StateSetExact | src/indexer/store.rs:234-241 | exactly the markets at that address get the state, and nothing else changes |
| Records.ResolutionExact | src/indexer/processor.rs:116-129 | a resolution sets exactly those markets to "Resolved" |
| Records.OrderExact | src/indexer/processor.rs:750-823 | the record stored for an order of a known spot holds the event's data, its market's slug and question, its outcome, and the price its type calls for; the returned order is that record's; an unknown spot leaves no trace |
| Records.OtherTypesKeepBooks | src/indexer/processor.rs:130-194 | an order of another type than Limit is stored alike and at most hydrates its book |
| Records.UpdatesExact | src/indexer/store.rs:456-517 | cancellation, amendment and fill change only their own record, each only its own fields, with the status that follows |
| Records.ResolvedExact | src/indexer/processor.rs:35-44 | an event is about the contract it names, or about the only spot that holds its order id |
| Records.SpotKeysStay | src/indexer/store.rs:203-231 | in every run all indexed spots are normal |
| Records.UnresolvedRefreshes | src/indexer/processor.rs:223-243 | a cancellation or amendment without a spot refreshes every indexed spot whose reply can be used, and changes nothing else |
| ProcessBlock.ReceiptsReachWaiters | src/indexer/processor.rs:64-74 | a block hands each waiter the first receipt under its digest, of failed transactions too, and leaves the others waiting |
| ProcessBlock.AllocateMarketSlug | src/indexer/store.rs:152-156 | the slug is the first free candidate among the keys of the slug map |
| ProcessBlock.Tasks.HydrateSpot | src/book_hydrate.rs:23-56 | succeeds exactly if spot, book and trade price can be had; then the book rests the reply's bids and asks, each on its own side, with the indexed trade price if there is one, the chain's otherwise; else nothing changes |
| ProcessBlock.Tasks.EnsureHydrated | src/book_hydrate.rs:58-70 | hydrates only a book that is not hydrated and says whether it is |
| ProcessBlock.Tasks.HydrateSpots | src/book_hydrate.rs:102-119 | hydrates each spot in turn, going on after failures: each book shows its last usable reply |
| ProcessBlock.Tasks.IndexMarketCreated | src/indexer/processor.rs:703-748 | the event's market under the first free slug, its yes and no spots leading to it as "yes" and "no", both books showing their replies |
| ProcessBlock.Tasks.IndexOrderCreated | src/indexer/processor.rs:750-823 | stores and returns the record of the event, field by field, with slug and question of the market its spot belongs to; an unknown spot changes nothing |
| ProcessBlock.Tasks.HandleCreated | src/indexer/processor.rs:130-194 | skips an indexed order; else hydrates, adds a limit order to the book, indexes it |
| ProcessBlock.Tasks.HandleCancelled | src/indexer/processor.rs:195-246 | updates book and index at the resolved spot, rehydrates all spots if there is none |
| ProcessBlock.Tasks.HandleUpdated | src/indexer/processor.rs:247-322 | the same for an amendment, the book only if hydrated |
| ProcessBlock.Tasks.HandleFilled | src/indexer/processor.rs:323-383 | records the trade price, then book if hydrated and index |
| ProcessBlock.Tasks.DeliverReceipts | src/indexer/processor.rs:64-74 | completes each receipt of the block in order, of failed transactions too |
| ProcessBlock.Tasks.Process | src/indexer/processor.rs:55-388 | receipts of all transactions first, then what `TransactionActs` says of a block: the events of the successful transactions in order, those of failed ones not at all |
| Blocks.TransactionActs | src/indexer/processor.rs:79-86 | wherever it stands in a block, a failed transaction might as well be missing; the events of one that succeeded act after what comes before it and before what comes after |
| Blocks.EventActs | src/indexer/processor.rs:86-386 | the events of a transaction act one after the other |
| Blocks.HaltedStays | src/indexer/processor.rs:711 | once the slug search has ended the indexing task, no event changes anything |
| Blocks.WholeBlockAgrees | src/indexer/processor.rs:79-388 | a block whose successful transactions hold regular events keeps books and index agreeing with the ledger, whatever its failed ones say |
| OrderRoutes.MarkCancelled | src/http/routes/orders.rs:157-183 | not found, not cancellable, or cancelled, with the state each leaves |
| OrderRoutes.MarkCancelledExact | src/http/routes/orders.rs:157-183 | without interruption, in every reached index: done exactly for the client's own orders that are open or cancelled already, and then this order, and no other, is cancelled afterwards |
| OrderRoutes.MarkCancelledLate | src/http/routes/orders.rs:157-183 | with any steps between its two sections, the read decides and the write cancels exactly that order in the state it finds |
| OrderRoutes.CancelContextExact | src/indexer/store.rs:298-322 | in every reached index a client gets a context exactly for its own open orders, and it leads back to the key the order is filed under |
| OrderRoutes.IndexFromEvent | src/http/routes/orders.rs:185-239 | book only for a new order that is not skipped; the record of the event, with the given status and fill, in any case |
| OrderRoutes.FromEventKeepsIndex | src/http/routes/orders.rs:202-226 | the handler keeps the index consistent |
| OrderRoutes.FromEventTwice | src/http/routes/orders.rs:202-226 | for a known spot posting an event twice, one request after the other, is posting it once; concurrent posts are in OrderPaths |
| OrderRoutes.CountedByFirstPath | src/http/routes/orders.rs:205-218 | the sequential case: an order posted first and delivered once the request has ended enters its level exactly when the request did not skip the book |
| OrderPaths.BlockAlone | src/indexer/processor.rs:130-194 | the sections of a block's path, uninterrupted, do what the block handler does |
| OrderPaths.HttpAlone | src/http/routes/orders.rs:202-226 | the sections of a request, uninterrupted, do what its handler does |
| OrderPaths.BookedExactly | src/http/routes/orders.rs:202-226 | in every interleaving a finished path has added the order exactly if it checked before the first insertion, did not skip the book and did not fail to hydrate it |
| OrderPaths.BookAdds | src/indexer/book_store.rs:126-150 | the section that adds the order adds it to its level, on top of whatever is there |
| OrderPaths.CountedOnce | src/http/routes/orders.rs:202-226 | with no hydration and nobody else at the level, it grows once per such path, so the order counts once exactly if there is one such path or the level is full |
| OrderPaths.LevelSince | src/indexer/processor.rs:157-182 | with hydrations among the sections the level is what the last reply showed plus the amount once per addition after it |
| OrderPaths.BothCanCount | src/http/routes/orders.rs:202-226 | a request and any other path, neither skipping the book, can both add a new order |
| Redelivery.IndexingIsRun | src/indexer/processor.rs:750-823 | indexing an order, from a block or over HTTP, is a lookup followed by an insertion |
| Redelivery.HandledIsRun | src/indexer/processor.rs:86-386 | what an event does to the index is a run of index steps |
| Redelivery.BlocksKeepIndex | src/indexer/processor.rs:55-388 | whatever the blocks contain, the index stays consistent |
| Redelivery.BlockIsDelivered | src/indexer/processor.rs:86-386 | the events of one block are deliveries with its number |
| Redelivery.IndexedIffSpotKnown | src/indexer/processor.rs:750-762 | an order is known after a delivery exactly when it or its spot was known before |
| Redelivery.RedeliveryCountsOnce | src/indexer/processor.rs:137-191 | for a known spot a second delivery, after any further events of any blocks, changes nothing at all |
| Redelivery.UnknownSpotCountsAgain | src/indexer/processor.rs:137-191 | for an unknown spot each delivery adds the order to its level again |
| Redelivery.RecreationRenames | src/indexer/processor.rs:703-738 | a market delivered again leaves the index as it is exactly when no slug is left; otherwise it moves to a new slug and its old slug finds nothing |
| Filings.FilingKeeps | src/indexer/store.rs:347-367 | filing a fitting record under its key keeps the index holding the ledger's orders and no others, for any notion of fitting |
| Filings.RecordFiled | src/indexer/store.rs:456-465 | the lookup of the update methods finds the record of the order, and their write files it again |
| Agreement.CancelMirrors | src/indexer/store.rs:456-465 | cancelling keeps a record mirroring its order, or marks it |
| Agreement.AmendMirrors | src/indexer/store.rs:467-492 | amending keeps size, its text and the status mirroring, and undoes a mark |
| Agreement.FillMirrors | src/indexer/store.rs:494-517 | filling does exactly when something is filled afterwards or the order has size 0 |
| Agreement.AgreementStep | src/indexer/processor.rs:130-383 | one event of a regular run, redeliveries included, keeps books and index both agreeing with the ledger |
| Agreement.StoresAgree | src/indexer/processor.rs:130-383 | the same over every regular run, cancellations reported over HTTP included |
| Agreement.BlockAgrees | src/indexer/processor.rs:79-388 | one block of regular events, as the block loop processes it, keeps the agreement |
| Agreement.MarkIsHandled | src/http/routes/orders.rs:157-183 | what the handler writes with a context read at any earlier point is such a mark |
| Agreement.IndexSums | src/indexer/store.rs:456-517 | summing size minus filled over the open orders of the index at a level gives the ledger's sum less what the marked orders still have |
| Agreement.BookMatchesIndex | src/indexer/processor.rs:247-367 | after every regular run each record has the ledger's amounts, its status too unless marked, and each level is the sum over the index's open orders plus what the marked orders still have |
| Agreement.BlocksMatchIndex | src/indexer/processor.rs:247-367 | with block events alone each level is the sum over the index's open orders and each status is the ledger's |
| Agreement.HiddenExactly | src/http/routes/orders.rs:177-181 | the two differ at a level exactly if some marked order still rests there |
| Agreement.MarkSetsApart | src/http/routes/orders.rs:177-181 | one mark on a resting order makes the index's sum smaller than the level |
| TradePrices.TradeFollows | src/indexer/processor.rs:323-358 | a fill makes its spot's two trade prices equal, whatever they were; no other event changes whether they are |
| TradePrices.TradePricesAgree | src/indexer/processor.rs:323-358 | over every regular run the book's last trade price is the one the index recorded |
| TradePrices.HydrationKeepsTrades | src/book_hydrate.rs:37-45 | a hydration that nothing comes between keeps that agreement and restores it for its own book |
| TradePrices.WriteAgreesAt | src/book_hydrate.rs:37-45 | with the read apart from the write, the spot agrees afterwards exactly if the price that was read is still the index's |
| TradePrices.WriteKeepsTrades | src/book_hydrate.rs:37-45 | from an agreeing state the write keeps the agreement exactly if the price it carries is not stale |
| TradePrices.HydrationCanGoStale | src/book_hydrate.rs:37-45 | a fill between read and write leaves the book with the older price |
| MarketQueries.CsvRoundTrip | src/http/process/markets.rs:23-34 | items joined by commas are read back |
| MarketQueries.CsvItems | src/http/process/markets.rs:23-34 | what is read are trimmed, non-empty, comma-free items, whatever the parameter |
| MarketQueries.QueryAccepted | src/http/process/markets.rs:36-91 | refused exactly for an oversized list or a malformed id; an accepted query has a limit from 1 to 100 and the listed items (its other fields are in `AnswerExact`) |
| MarketQueries.QueryMarkets | src/indexer/store.rs:72-138 | the filters one after the other, the sort and the window give the page of the matches, and their number |
| MarketQueries.SortedPermutation | src/indexer/store.rs:105-127 | the sort orders a rearrangement of its input |
| MarketQueries.SortedStable | src/indexer/store.rs:105-127 | markets with equal keys keep the order they came in |
| MarketQueries.MatchesExactly | src/indexer/store.rs:72-127 | the answer is sorted and holds each market that passes all filters as often as it is listed, and no other |
| MarketQueries.PagesPartition | src/indexer/store.rs:129-137 | the first n pages are the first n times limit matches |
| MarketQueries.PagesComplete | src/indexer/store.rs:129-137 | enough pages give every match once |
| MarketQueries.PagesListIndex | src/indexer/store.rs:72-138 | paging an unchanged index gives each market that passes exactly once |
| MarketQueries.OrderIndependent | src/indexer/store.rs:113-119 | ordered by slug, the answer does not depend on the iteration order of the map |
| MarketRequests.AnswerRequest | src/http/routes/markets.rs:20-35 | the page and the total of the query that the request is read as, or the refusal |
| MarketRequests.AnswerExact | src/http/process/markets.rs:53-91 | in terms of the request alone: refused exactly if malformed; otherwise the part that its offset and limit cut from one sorted list, which holds each market that meets its conditions as often as it is listed, and no other |
| MarketRequests.CollectsAll | src/indexer/store.rs:129-137 | requests with offsets 0, limit, twice the limit and so on collect that whole list in order |
| MarketRequests.LexLeMeans | src/indexer/store.rs:113-126 | texts are ordered by where they first differ, a prefix first |

## Left out

- Network and process plumbing: chain RPC, mempool client, WebSocket and HTTP servers, JSON, configuration, health checks. Their answers are arbitrary inputs.
- Logging, statistics and the price mismatch warning; they do not touch the stores.
- Decoding of event bytes and transaction digests; events arrive decoded, digests are strings.
- The user event hub, its filtering, the subscription table of a session and quote forwarding; they add no invariant.
- `find_open_order_match`, `list_orders` and the other read-only listings; they return what the maps hold.
- Locks: each locked section is one step. `OrderRoutes` runs a handler without interruption; `IndexRuns` covers interruptions between its sections for the index, `OrderPaths` those of an order's arrival for book and index. Other handlers are not split for the book.
- Concurrent tasks as threads: dispatcher, forwarding loop and jobs are step relations (`SubmitQueue`, `Replication`) rather than loops.
- Snapshots cut at a depth below the size of the book: levels beyond the depth are unknown to the client. Exactness is for snapshots that show the whole book; the service clamps hydration to 50 levels and lets clients choose the depth.
- The capacity 4096 of the broadcast channels: a lag may happen at any time and skip any number of messages.
- Terminal statuses: the index overwrites whatever status a record had, and nothing is claimed about them being final.
- Two jobs with the same digest in progress: the second registration drops the first waiter, and nothing is claimed beyond that.
- Order types other than Limit in ledger runs: the handlers for cancellations, amendments and fills do not look at the type, so a market order's events would move levels it never entered.
- AllocateUniqueSlug: the overflow of the 32-bit suffix ends the search, as checked arithmetic does; a build that wraps instead would go on with negative suffixes.
- QueryMarkets: the values of the market map come as a sequence in arbitrary order, and the standard library's stable sort is an insertion sort.
- The method that updates all markets of an address visits them in arbitrary order, as the hash map does.
