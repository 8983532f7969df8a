/** Block processing seen from the index: it is a run of index steps, and a redelivered
    order_created changes nothing once the order is indexed. */
module Redelivery {
  import opened Machine
  import opened Slugs
  import opened SpotMarkets
  import opened SpotBooks
  import opened BookStores
  import opened IndexStores
  import opened IndexRuns
  import opened Processor

  // ---------------------------------------------------------------- processing is an index run

  lemma HydrationKeepsIndex(sdk: Sdk, s: Indexer, spot: string, reply: ChainReply)
    ensures SpotHydrated(sdk, s, spot, reply).index == s.index
    ensures Ensured(sdk, s, spot, reply).0.index == s.index
    ensures SpotHydrated(sdk, s, spot, reply).halted == s.halted
  {
    hide Normalize;
  }

  lemma {:induction false} HydrationsKeepIndex(sdk: Sdk, s: Indexer, spots: seq<string>, replies: string -> ChainReply)
    ensures SpotsHydrated(sdk, s, spots, replies).index == s.index
    decreases |spots|
  {
    hide SpotHydrated;
    if spots != [] {
      HydrationKeepsIndex(sdk, s, spots[0], replies(spots[0]));
      HydrationsKeepIndex(sdk, SpotHydrated(sdk, s, spots[0], replies(spots[0])), spots[1..], replies);
    }
  }

  /** The lookup and the insertion of one order handler. */
  function IndexingActions(sdk: Sdk, index: IndexState, e: OrderCreatedEvent, spot: string,
                           status: string, filledRaw: u64): seq<Action> {
    match LookupSpotMarket(sdk, index, spot)
    case None => []
    case Some(found) =>
      [LookUp(spot), Insert(NewOrder(sdk, index, found, e, spot, status), e.creator, spot,
                            e.orderId, e.amount, filledRaw)]
  }

  ghost function Actions(sdk: Sdk, lower: char -> string, s: Indexer, e: TxEvent): seq<Action> {
    if s.halted then []
    else
      match e
      case MarketCreated(details) =>
        (match AllocatedSlug(s.index.slugToMarketId.Keys, SlugOf(lower, details.question))
         case None => []
         case Some(slug) => [CreateMarket(NewMarket(details, slug))])
      case MarketResolved(address) => [Resolve(address, "Resolved")]
      case OrderCreated(created) =>
        var spot := Normalize(sdk, created.market);
        if HasChainOrder(sdk, s.index, spot, created.orderId) then []
        else IndexingActions(sdk, s.index, created, spot, "open", 0)
      case OrderCancelled(contract, orderId, _, _, _) =>
        (match ResolvedSpot(sdk, s.index, contract, orderId)
         case None => []
         case Some(spot) => [Cancel(spot, orderId)])
      case OrderUpdated(contract, orderId, _, _, _, newAmount, remainingAmount) =>
        (match ResolvedSpot(sdk, s.index, contract, orderId)
         case None => []
         case Some(spot) => [Amend(spot, orderId, newAmount, remainingAmount)])
      case OrderFilled(market, orderId, _, price, fillAmount, remainingAmount, isFullyFilled) =>
        var spot := Normalize(sdk, market);
        [RecordTrade(spot, price), Fill(spot, orderId, fillAmount, remainingAmount, isFullyFilled)]
      case Other => []
  }

  function After(sdk: Sdk, r: RunState, actions: seq<Action>): RunState
    decreases |actions|
  {
    if actions == [] then r else After(sdk, Next(sdk, r, actions[0]), actions[1..])
  }

  lemma RunOne(sdk: Sdk, r: RunState, a: Action)
    requires Enabled(sdk, r, a)
    ensures Runs(sdk, r, [a], Next(sdk, r, a))
  {
    hide Next, Enabled;
  }

  lemma RunTwo(sdk: Sdk, r: RunState, a: Action, b: Action)
    requires Enabled(sdk, r, a) && Enabled(sdk, Next(sdk, r, a), b)
    ensures Runs(sdk, r, [a, b], Next(sdk, Next(sdk, r, a), b))
  {
  }

  lemma {:induction false} SlugIsFresh(slugs: set<string>, lower: char -> string, question: string)
    requires LowercaseTable(lower)
    ensures var slug := AllocatedSlug(slugs, SlugOf(lower, question));
            slug.Some? ==> slug.value != "" && slug.value !in slugs
  {
    SlugForm(lower, question);
    hide SlugOf, LowercaseTable;
  }

  /** Indexing an order, from a block or over HTTP, is a lookup followed by an insertion. */
  lemma IndexingIsRun(sdk: Sdk, r: RunState, e: OrderCreatedEvent, spot: string, status: string, filledRaw: u64)
    returns (t: RunState)
    requires Normalize(sdk, spot) == spot
    ensures Runs(sdk, r, IndexingActions(sdk, r.index, e, spot, status, filledRaw), t)
    ensures t.index == OrderIndexed(sdk, r.index, e, spot, status, filledRaw)
  {
    hide Normalize, ChainOrderKey;
    t := r;
    var found := LookupSpotMarket(sdk, r.index, spot);
    if found.Some? {
      var order := NewOrder(sdk, r.index, found.value, e, spot, status);
      var insert := Insert(order, e.creator, spot, e.orderId, e.amount, filledRaw);
      RunTwo(sdk, r, LookUp(spot), insert);
      t := Next(sdk, Next(sdk, r, LookUp(spot)), insert);
    }
  }

  lemma HandledIsRun(sdk: Sdk, lower: char -> string, r: RunState, s: Indexer, env: Env, e: TxEvent, blockNum: u64)
    returns (t: RunState)
    requires LowercaseTable(lower) && r.index == s.index
    ensures Runs(sdk, r, Actions(sdk, lower, s, e), t)
    ensures t.index == Handled(sdk, lower, s, env, e, blockNum).index
  {
    hide LowercaseTable, Ensured, SpotsHydrated, Runs, IndexingActions, ResolvedSpot, MarketUpserted, MarketStateSet,
         TradeRecorded, OrderIndexed, IndexStores.OrderCancelled, OrderAmended, IndexStores.OrderFilled, AllocatedSlug,
         Normalize, ChainOrderKey, BookStores.Cancelled, Updated, Filled, OrderToBook;
    t := r;
    RunNone(sdk, r);
    if !s.halted {
      match e
      case MarketCreated(details) =>
        SlugIsFresh(s.index.slugToMarketId.Keys, lower, details.question);
        var slug := AllocatedSlug(s.index.slugToMarketId.Keys, SlugOf(lower, details.question));
        if slug.Some? {
          var create := CreateMarket(NewMarket(details, slug.value));
          RunOne(sdk, r, create);
          t := Next(sdk, r, create);
          HydrationsKeepIndex(sdk, s.(index := t.index), [details.yesSpotMarket, details.noSpotMarket], env.replies);
        }
      case MarketResolved(address) =>
        RunOne(sdk, r, Resolve(address, "Resolved"));
        t := Next(sdk, r, Resolve(address, "Resolved"));
      case OrderCreated(created) =>
        var spot := Normalize(sdk, created.market);
        NormalizeIdempotent(sdk, created.market);
        HydrationKeepsIndex(sdk, s, spot, env.replies(spot));
        if !HasChainOrder(sdk, s.index, spot, created.orderId) {
          t := IndexingIsRun(sdk, r, created, spot, "open", 0);
        }
      case OrderCancelled(contract, orderId, _, _, _) =>
        HydrationsKeepIndex(sdk, s, env.spotOrder, env.replies);
        var spot := ResolvedSpot(sdk, s.index, contract, orderId);
        if spot.Some? {
          RunOne(sdk, r, Cancel(spot.value, orderId));
          t := Next(sdk, r, Cancel(spot.value, orderId));
        }
      case OrderUpdated(contract, orderId, _, _, _, newAmount, remainingAmount) =>
        HydrationsKeepIndex(sdk, s, env.spotOrder, env.replies);
        var spot := ResolvedSpot(sdk, s.index, contract, orderId);
        if spot.Some? {
          HydrationKeepsIndex(sdk, s, spot.value, env.replies(spot.value));
          var amend := Amend(spot.value, orderId, newAmount, remainingAmount);
          RunOne(sdk, r, amend);
          t := Next(sdk, r, amend);
        }
      case OrderFilled(market, orderId, _, price, fillAmount, remainingAmount, isFullyFilled) =>
        var spot := Normalize(sdk, market);
        HydrationKeepsIndex(sdk, s.(index := TradeRecorded(sdk, s.index, spot, price)), spot, env.replies(spot));
        var fill := Fill(spot, orderId, fillAmount, remainingAmount, isFullyFilled);
        RunTwo(sdk, r, RecordTrade(spot, price), fill);
        t := Next(sdk, Next(sdk, r, RecordTrade(spot, price)), fill);
      case Other =>
    }
  }

  lemma RunNone(sdk: Sdk, r: RunState)
    ensures Runs(sdk, r, [], r)
  {
  }

  /** Whatever the blocks contain, the index stays consistent. */
  lemma {:induction false} BlocksKeepIndex(sdk: Sdk, lower: char -> string, s: Indexer, run: seq<Delivery>)
    requires LowercaseTable(lower) && Consistent(RunState(s.index, {}))
    ensures Consistent(RunState(Delivered(sdk, lower, s, run).index, {}))
    decreases |run|
  {
    hide LowercaseTable, Consistent, Handled, Runs;
    if run != [] {
      var Delivery(e, env, blockNum) := run[0];
      var r := RunState(s.index, {});
      var t := HandledIsRun(sdk, lower, r, s, env, e, blockNum);
      RunsConsistent(sdk, r, Actions(sdk, lower, s, e), t);
      Unseen(t);
      BlocksKeepIndex(sdk, lower, Handled(sdk, lower, s, env, e, blockNum), run[1..]);
    }
  }

  /** The events of one block are deliveries with its number. */
  function InBlock(events: seq<(TxEvent, Env)>, blockNum: u64): seq<Delivery> {
    if events == [] then [] else [Delivery(events[0].0, events[0].1, blockNum)] + InBlock(events[1..], blockNum)
  }

  lemma {:induction false} BlockIsDelivered(sdk: Sdk, lower: char -> string, s: Indexer, events: seq<(TxEvent, Env)>,
                                            blockNum: u64)
    ensures AllHandled(sdk, lower, s, events, blockNum) == Delivered(sdk, lower, s, InBlock(events, blockNum))
    decreases |events|
  {
    hide Handled;
    if events != [] {
      var run := InBlock(events, blockNum);
      assert run[1..] == InBlock(events[1..], blockNum);
      BlockIsDelivered(sdk, lower, Handled(sdk, lower, s, events[0].1, events[0].0, blockNum), events[1..], blockNum);
    }
  }

  lemma Unseen(t: RunState)
    requires Consistent(t)
    ensures Consistent(RunState(t.index, {}))
  {
    hide SlugsInverse, OrdersBijective;
  }

  // ---------------------------------------------------------------- redelivery

  lemma KeysStay(sdk: Sdk, r: RunState, a: Action)
    ensures r.index.chainOrderIndex.Keys <= Next(sdk, r, a).index.chainOrderIndex.Keys
  {
    hide Normalize, ChainOrderKey;
  }

  lemma {:induction false} RunKeysStay(sdk: Sdk, r: RunState, actions: seq<Action>, t: RunState)
    requires Runs(sdk, r, actions, t)
    ensures r.index.chainOrderIndex.Keys <= t.index.chainOrderIndex.Keys
    decreases |actions|
  {
    hide Enabled, Next;
    if actions != [] {
      KeysStay(sdk, r, actions[0]);
      RunKeysStay(sdk, Next(sdk, r, actions[0]), actions[1..], t);
    }
  }

  lemma {:induction false} BlockKeysStay(sdk: Sdk, lower: char -> string, s: Indexer, run: seq<Delivery>)
    requires LowercaseTable(lower)
    ensures s.index.chainOrderIndex.Keys <= Delivered(sdk, lower, s, run).index.chainOrderIndex.Keys
    decreases |run|
  {
    hide LowercaseTable, Handled, Runs;
    if run != [] {
      var Delivery(e, env, blockNum) := run[0];
      var r := RunState(s.index, {});
      var t := HandledIsRun(sdk, lower, r, s, env, e, blockNum);
      RunKeysStay(sdk, r, Actions(sdk, lower, s, e), t);
      BlockKeysStay(sdk, lower, Handled(sdk, lower, s, env, e, blockNum), run[1..]);
    }
  }

  predicate IsIndexed(sdk: Sdk, s: Indexer, e: OrderCreatedEvent) {
    HasChainOrder(sdk, s.index, Normalize(sdk, e.market), e.orderId)
  }

  /** An order is known after its first delivery exactly when it or its spot was known before. */
  lemma IndexedIffSpotKnown(sdk: Sdk, s: Indexer, env: Env, e: OrderCreatedEvent, blockNum: u64)
    ensures IsIndexed(sdk, CreatedHandled(sdk, s, env, e, blockNum), e)
       <==> IsIndexed(sdk, s, e) || LookupSpotMarket(sdk, s.index, Normalize(sdk, e.market)).Some?
  {
    var spot := Normalize(sdk, e.market);
    HydrationKeepsIndex(sdk, s, spot, env.replies(spot));
    hide Normalize, ChainOrderKey, Ensured, OrderToBook, NewOrder;
  }

  /** Once an order of a known spot has been delivered, delivering it again, after any further
      events of this and later blocks, leaves books, sequences, channels and index exactly as
      they are. */
  lemma RedeliveryCountsOnce(sdk: Sdk, lower: char -> string, s: Indexer, first: Env,
                             e: OrderCreatedEvent, blockNum: u64, between: seq<Delivery>, again: Env,
                             e': OrderCreatedEvent, later: u64)
    requires LowercaseTable(lower) && !s.halted
    requires LookupSpotMarket(sdk, s.index, Normalize(sdk, e.market)).Some?
    requires e'.market == e.market && e'.orderId == e.orderId
    ensures var t := Delivered(sdk, lower, Handled(sdk, lower, s, first, OrderCreated(e), blockNum), between);
            Handled(sdk, lower, t, again, OrderCreated(e'), later) == t
  {
    hide LowercaseTable, Normalize, ChainOrderKey, Handled, CreatedHandled;
    IndexedIffSpotKnown(sdk, s, first, e, blockNum);
    HandlesCreated(sdk, lower, s, first, e, blockNum);
    var s1 := CreatedHandled(sdk, s, first, e, blockNum);
    BlockKeysStay(sdk, lower, s1, between);
    KnownIsSkipped(sdk, lower, Delivered(sdk, lower, s1, between), again, e', later);
  }

  lemma HandlesCreated(sdk: Sdk, lower: char -> string, s: Indexer, env: Env, e: OrderCreatedEvent, blockNum: u64)
    requires !s.halted
    ensures Handled(sdk, lower, s, env, OrderCreated(e), blockNum) == CreatedHandled(sdk, s, env, e, blockNum)
  {
    hide CreatedHandled;
  }

  lemma KnownIsSkipped(sdk: Sdk, lower: char -> string, t: Indexer, env: Env, e: OrderCreatedEvent, blockNum: u64)
    requires IsIndexed(sdk, t, e)
    ensures Handled(sdk, lower, t, env, OrderCreated(e), blockNum) == t
  {
    hide Normalize, ChainOrderKey, Ensured, OrderToBook, OrderIndexed;
  }

  /** For a spot the index does not know, each delivery adds the order to its level again. */
  lemma UnknownSpotCountsAgain(sdk: Sdk, lower: char -> string, s: Indexer, env: Env,
                               e: OrderCreatedEvent, blockNum: u64)
    requires !s.halted && !IsIndexed(sdk, s, e) && LookupSpotMarket(sdk, s.index, Normalize(sdk, e.market)).None?
    requires Normalize(sdk, e.market) in s.books.hydrated
    requires e.orderType.Limit? && e.orderType.price > 0 && e.amount > 0
    ensures var spot, price := Normalize(sdk, e.market), e.orderType.price;
            var t := Handled(sdk, lower, s, env, OrderCreated(e), blockNum);
            && BookAt(t.books, spot).Size(e.side, price) == SatAdd(BookAt(s.books, spot).Size(e.side, price), e.amount)
            && !IsIndexed(sdk, t, e) && t.index == s.index && spot in t.books.hydrated
  {
    NormalizeIdempotent(sdk, e.market);
    hide Normalize, ChainOrderKey, Encode, QuoteFromBook;
  }

  // ---------------------------------------------------------------- a market created again

  lemma UpsertRenames(sdk: Sdk, st: IndexState, market: Market)
    requires SlugsInverse(st) && market.id in st.markets
    requires market.slug != "" && market.slug !in st.slugToMarketId
    ensures var was, st' := st.markets[market.id].slug, MarketUpserted(sdk, st, market);
            && GetEventBySlug(st', was) == None
            && market.id in st'.markets && st'.markets[market.id].slug == market.slug != was
            && GetEventBySlug(st', market.slug) == Some(st'.markets[market.id])
  {
    hide Normalize;
  }

  /** Unlike orders, markets are not recognised: a market_created delivered again moves its
      market to a new slug, and the old one finds nothing any more. */
  lemma RecreationRenames(sdk: Sdk, lower: char -> string, s: Indexer, env: Env, e: MarketCreatedEvent, blockNum: u64)
    requires LowercaseTable(lower) && Consistent(RunState(s.index, {})) && !s.halted
    requires V5(e.marketAddress) in s.index.markets
    ensures var id, slugs := V5(e.marketAddress), s.index.slugToMarketId.Keys;
            var was, t := s.index.markets[id].slug, Handled(sdk, lower, s, env, MarketCreated(e), blockNum);
            && (t.index == s.index <==> AllocatedSlug(slugs, SlugOf(lower, e.question)).None?)
            && (t.index != s.index ==>
                 && GetEventBySlug(t.index, was) == None
                 && id in t.index.markets && t.index.markets[id].slug != was
                 && GetEventBySlug(t.index, t.index.markets[id].slug) == Some(t.index.markets[id]))
    ensures |s.index.slugToMarketId| < I32_MAX - 1 ==>
              Handled(sdk, lower, s, env, MarketCreated(e), blockNum).index != s.index
  {
    hide LowercaseTable, MarketUpserted, AllocatedSlug, SlugOf, SpotsHydrated, SlugsInverse;
    var slugs := s.index.slugToMarketId.Keys;
    SlugIsFresh(slugs, lower, e.question);
    var slug := AllocatedSlug(slugs, SlugOf(lower, e.question));
    if slug.Some? {
      var created := s.(index := MarketUpserted(sdk, s.index, NewMarket(e, slug.value)));
      UpsertRenames(sdk, s.index, NewMarket(e, slug.value));
      HydrationsKeepIndex(sdk, created, [e.yesSpotMarket, e.noSpotMarket], env.replies);
    } else {
      AllocationFails(slugs, SlugOf(lower, e.question));
    }
  }

  /** The slug search only fails when 2^31 - 2 slugs are taken. */
  lemma AllocationFails(slugs: set<string>, base: string)
    requires AllocatedSlug(slugs, base).None?
    ensures |slugs| >= I32_MAX - 1
  {
    if exists n: nat :: n < I32_MAX - 1 && Candidate(base, n) !in slugs {
      var n: nat :| n < I32_MAX - 1 && Candidate(base, n) !in slugs;
      LeastFree(slugs, base, n);
    } else {
      CandidatesCount(base, I32_MAX - 1);
      SubsetSize(FirstCandidates(base, I32_MAX - 1), slugs);
    }
  }

  lemma {:induction false} LeastFree(slugs: set<string>, base: string, n: nat)
    requires Candidate(base, n) !in slugs
    ensures exists m: nat :: m <= n && FirstFree(slugs, base, m)
  {
    hide Candidate;
    if forall i :: 0 <= i < n ==> Candidate(base, i) in slugs {
      assert FirstFree(slugs, base, n);
    } else {
      var i: nat :| i < n && Candidate(base, i) !in slugs;
      LeastFree(slugs, base, i);
    }
  }
}
