/** What events leave in the index, in terms of the events themselves. */
module Records {
  import opened Machine
  import opened Text
  import opened Decimal
  import opened Slugs
  import opened SpotMarkets
  import opened SpotBooks
  import opened BookStores
  import opened IndexStores
  import opened IndexRuns
  import opened Processor
  import opened Redelivery
  import opened Hydrations

  // ---------------------------------------------------------------- markets

  /** Icon and slug are inherited where none is given; the spots are normalised. */
  predicate Upserts(sdk: Sdk, st: IndexState, given: Market, m: Market) {
    && m.id == given.id && m.question == given.question && m.marketAddress == given.marketAddress
    && m.collateralToken == given.collateralToken && m.yesToken == given.yesToken && m.noToken == given.noToken
    && m.state == given.state && m.resolutionDeadline == given.resolutionDeadline
    && m.yesSpotMarket == Normalize(sdk, given.yesSpotMarket) && m.noSpotMarket == Normalize(sdk, given.noSpotMarket)
    && m.iconUrl == (if given.iconUrl.None? && given.id in st.markets then st.markets[given.id].iconUrl
                     else given.iconUrl)
    && m.slug == (if given.slug == "" && given.id in st.markets then st.markets[given.id].slug else given.slug)
  }

  /** The market has this slug and no other; the other markets keep theirs. */
  ghost predicate SlugFiled(st: IndexState, st': IndexState, id: Uuid, slug: string) {
    if slug == "" then st'.slugToMarketId == st.slugToMarketId
    else
      && slug in st'.slugToMarketId && st'.slugToMarketId[slug] == id
      && forall x :: x != slug ==>
           && (x in st'.slugToMarketId <==> x in st.slugToMarketId && st.slugToMarketId[x] != id)
           && (x in st'.slugToMarketId ==> st'.slugToMarketId[x] == st.slugToMarketId[x])
  }

  /** Both spots lead to the market; a spot that is both counts as "no". Others are as before. */
  predicate SpotsFiled(sdk: Sdk, st: IndexState, st': IndexState, id: Uuid, yesSpot: string, noSpot: string) {
    var yes, no := Normalize(sdk, yesSpot), Normalize(sdk, noSpot);
    && no in st'.spotToMarket && st'.spotToMarket[no] == SpotMarketRef(id, "no")
    && LookupSpotMarket(sdk, st', noSpot) == Some(SpotMarketRef(id, "no"))
    && (yes != no ==> LookupSpotMarket(sdk, st', yesSpot) == Some(SpotMarketRef(id, "yes")))
    && st'.spotToMarket.Keys == st.spotToMarket.Keys + {yes, no}
    && forall key :: key in st.spotToMarket && key != yes && key != no ==>
         st'.spotToMarket[key] == st.spotToMarket[key]
  }

  /** The index with one market written: its record, its slug, its spots, and nothing else. */
  ghost predicate MarketFiled(sdk: Sdk, st: IndexState, st': IndexState, id: Uuid, yesSpot: string, noSpot: string) {
    && id in st'.markets && st'.markets == st.markets[id := st'.markets[id]]
    && SlugFiled(st, st', id, st'.markets[id].slug)
    && SpotsFiled(sdk, st, st', id, yesSpot, noSpot)
    && st'.lastTradePriceBySpot == st.lastTradePriceBySpot
    && st'.orders == st.orders && st'.chainOrderIndex == st.chainOrderIndex
  }

  lemma UpsertExact(sdk: Sdk, st: IndexState, given: Market)
    ensures var st' := MarketUpserted(sdk, st, given);
            && MarketFiled(sdk, st, st', given.id, given.yesSpotMarket, given.noSpotMarket)
            && Upserts(sdk, st, given, st'.markets[given.id])
  {
    hide Normalize, SlugFiled, SpotsFiled;
    UpsertSlugIs(sdk, st, given);
    UpsertSpotsAre(sdk, st, given);
  }

  lemma UpsertSlugIs(sdk: Sdk, st: IndexState, given: Market)
    ensures var st' := MarketUpserted(sdk, st, given);
            given.id in st'.markets && SlugFiled(st, st', given.id, st'.markets[given.id].slug)
  {
    hide Normalize;
  }

  lemma UpsertSpotsAre(sdk: Sdk, st: IndexState, given: Market)
    ensures SpotsFiled(sdk, st, MarketUpserted(sdk, st, given), given.id, given.yesSpotMarket, given.noSpotMarket)
  {
    hide Normalize, WithoutMarket;
  }

  /** The record of a created market: the event's data under the allocated slug. */
  predicate RecordsMarket(sdk: Sdk, st: IndexState, e: MarketCreatedEvent, slug: string, m: Market) {
    && m.id == V5(e.marketAddress) && m.marketAddress == e.marketAddress && m.slug == slug
    && m.question == e.question && m.state == e.state && m.resolutionDeadline == e.resolutionDeadline
    && m.collateralToken == e.collateralToken && m.yesToken == e.yesToken && m.noToken == e.noToken
    && m.yesSpotMarket == Normalize(sdk, e.yesSpotMarket) && m.noSpotMarket == Normalize(sdk, e.noSpotMarket)
    && m.iconUrl == (if V5(e.marketAddress) in st.markets then st.markets[V5(e.marketAddress)].iconUrl else None)
  }

  /** Each of the two books shows the reply for its spot if that can be used; a spot that is both
      shows the later reply. */
  ghost predicate SpotsShown(sdk: Sdk, t: Indexer, env: Env, yesSpot: string, noSpot: string) {
    && (CanHydrate(sdk, t.index, noSpot, env.replies(noSpot)) ==> Shows(sdk, t, env, noSpot))
    && (CanHydrate(sdk, t.index, yesSpot, env.replies(yesSpot)) ==>
          || (Normalize(sdk, yesSpot) == Normalize(sdk, noSpot)
              && CanHydrate(sdk, t.index, noSpot, env.replies(noSpot)))
          || Shows(sdk, t, env, yesSpot))
  }

  ghost predicate Shows(sdk: Sdk, t: Indexer, env: Env, spot: string) {
    var key := Normalize(sdk, spot);
    && key in t.books.hydrated && ShowsReply(BookAt(t.books, key), env.replies(spot))
    && ShowsKnownTrade(t.index, key, env.replies(spot).info, BookAt(t.books, key))
  }

  ghost predicate OtherBooksSame(sdk: Sdk, s: Indexer, t: Indexer, yesSpot: string, noSpot: string) {
    && t.books.publishers == s.books.publishers && t.books.quotePublishers == s.books.quotePublishers
    && forall key :: key != Normalize(sdk, yesSpot) && key != Normalize(sdk, noSpot) ==>
         BookAt(t.books, key) == BookAt(s.books, key)
         && (key in t.books.hydrated <==> key in s.books.hydrated)
  }

  /** A created market: recorded under the first free slug with both books hydrated, or, if no slug
      is left, the indexing task ends. */
  ghost predicate CreatesMarket(sdk: Sdk, lower: char -> string, s: Indexer, t: Indexer, env: Env,
                                e: MarketCreatedEvent) {
    match AllocatedSlug(s.index.slugToMarketId.Keys, SlugOf(lower, e.question))
    case None => t == s.(halted := true)
    case Some(slug) =>
      && t.halted == s.halted
      && MarketFiled(sdk, s.index, t.index, V5(e.marketAddress), e.yesSpotMarket, e.noSpotMarket)
      && RecordsMarket(sdk, s.index, e, slug, t.index.markets[V5(e.marketAddress)])
      && SpotsShown(sdk, t, env, e.yesSpotMarket, e.noSpotMarket)
      && OtherBooksSame(sdk, s, t, e.yesSpotMarket, e.noSpotMarket)
  }

  lemma PairShown(sdk: Sdk, s: Indexer, env: Env, yesSpot: string, noSpot: string)
    ensures var t := SpotsHydrated(sdk, s, [yesSpot, noSpot], env.replies);
            && t.index == s.index && t.halted == s.halted
            && SpotsShown(sdk, t, env, yesSpot, noSpot) && OtherBooksSame(sdk, s, t, yesSpot, noSpot)
  {
    hide Normalize, SpotsHydrated, CanHydrate, ShowsReply, ShowsKnownTrade;
    var spots, replies := [yesSpot, noSpot], env.replies;
    HydrationsExact(sdk, s, spots, replies, Normalize(sdk, yesSpot));
    HydrationsExact(sdk, s, spots, replies, Normalize(sdk, noSpot));
    if CanHydrate(sdk, s.index, noSpot, replies(noSpot)) {
      assert LastUsable(sdk, s.index, spots, replies, Normalize(sdk, noSpot), 1);
    }
    if Usable(sdk, s.index, yesSpot, replies, Normalize(sdk, yesSpot))
       && !Usable(sdk, s.index, noSpot, replies, Normalize(sdk, yesSpot)) {
      assert LastUsable(sdk, s.index, spots, replies, Normalize(sdk, yesSpot), 0);
    }
    forall key | key != Normalize(sdk, yesSpot) && key != Normalize(sdk, noSpot)
      ensures var t := SpotsHydrated(sdk, s, spots, replies);
              BookAt(t.books, key) == BookAt(s.books, key) && (key in t.books.hydrated <==> key in s.books.hydrated)
    {
      HydrationsExact(sdk, s, spots, replies, key);
    }
  }

  /** Whatever a market_created holds, the index afterwards holds that, each spot on its own side. */
  lemma MarketExact(sdk: Sdk, lower: char -> string, s: Indexer, env: Env, e: MarketCreatedEvent)
    requires LowercaseTable(lower)
    ensures CreatesMarket(sdk, lower, s, MarketIndexed(sdk, lower, s, env, e), env, e)
  {
    hide Normalize, MarketUpserted, SpotsHydrated, AllocatedSlug, SlugOf, SlugFiled, SpotsFiled, SpotsShown,
         OtherBooksSame, LowercaseTable, RecordsMarket, NewMarket;
    SlugIsFresh(s.index.slugToMarketId.Keys, lower, e.question);
    var slug := AllocatedSlug(s.index.slugToMarketId.Keys, SlugOf(lower, e.question));
    if slug.Some? {
      var filed := s.(index := MarketUpserted(sdk, s.index, NewMarket(e, slug.value)));
      RecordIs(sdk, s.index, e, slug.value);
      PairShown(sdk, filed, env, e.yesSpotMarket, e.noSpotMarket);
      SameFrame(sdk, s, filed, MarketIndexed(sdk, lower, s, env, e), e.yesSpotMarket, e.noSpotMarket);
    }
  }

  lemma SameFrame(sdk: Sdk, s: Indexer, s1: Indexer, t: Indexer, yesSpot: string, noSpot: string)
    requires s1.books == s.books && OtherBooksSame(sdk, s1, t, yesSpot, noSpot)
    ensures OtherBooksSame(sdk, s, t, yesSpot, noSpot)
  {
    hide Normalize;
  }

  lemma RecordIs(sdk: Sdk, st: IndexState, e: MarketCreatedEvent, slug: string)
    requires slug != ""
    ensures var st' := MarketUpserted(sdk, st, NewMarket(e, slug));
            && MarketFiled(sdk, st, st', V5(e.marketAddress), e.yesSpotMarket, e.noSpotMarket)
            && RecordsMarket(sdk, st, e, slug, st'.markets[V5(e.marketAddress)])
  {
    hide Normalize, MarketUpserted, SlugFiled, SpotsFiled;
    UpsertExact(sdk, st, NewMarket(e, slug));
  }

  /** A resolution reaches exactly the markets at that address, and changes only their state. */
  ghost predicate SetsState(st: IndexState, st': IndexState, marketAddress: string, state: string) {
    && st' == st.(markets := st'.markets) && st'.markets.Keys == st.markets.Keys
    && forall id :: id in st.markets ==>
         && st'.markets[id] == st.markets[id].(state := st'.markets[id].state)
         && st'.markets[id].state == (if st.markets[id].marketAddress == marketAddress then state
                                      else st.markets[id].state)
  }

  lemma StateSetExact(st: IndexState, marketAddress: string, state: string)
    ensures SetsState(st, MarketStateSet(st, marketAddress, state), marketAddress, state)
  {
  }

  lemma ResolutionExact(sdk: Sdk, lower: char -> string, s: Indexer, env: Env, marketAddress: string, blockNum: u64)
    requires !s.halted
    ensures var t := Handled(sdk, lower, s, env, MarketResolved(marketAddress), blockNum);
            && SetsState(s.index, t.index, marketAddress, "Resolved")
            && t.books == s.books && !t.halted
  {
    hide MarketStateSet;
    StateSetExact(s.index, marketAddress, "Resolved");
  }

  // ---------------------------------------------------------------- orders

  /** The record of a created order: the event's data, and what the index knows of its market. */
  predicate RecordsOrder(st: IndexState, found: SpotMarketRef, e: OrderCreatedEvent, status: string, filledRaw: u64,
                         id: Uuid, stored: StoredOrder) {
    var order, known := stored.order, found.marketId in st.markets;
    && stored.chainOrderId == e.orderId && stored.userAddress == e.creator
    && stored.sizeRaw == e.amount && stored.filledRaw == filledRaw
    && order.id == id && order.marketId == found.marketId && order.outcome == found.outcome
    && order.marketSlug == (if known then st.markets[found.marketId].slug else "")
    && order.question == (if known then st.markets[found.marketId].question else "")
    && order.side == (if e.side.Buy? then "buy" else "sell") && order.status == status
    && PriceRecorded(e.orderType, order.price) && order.size == FormatTokenAmount(e.amount)
  }

  /** A limit order shows its price, a trigger order its limit price, a market order 0. */
  predicate PriceRecorded(t: OrderType, price: string) {
    && (t.Limit? ==> price == FormatPricePieces(t.price))
    && (t.MarketOrder? ==> price == FormatPricePieces(0))
    && (t.Trigger? ==> price == FormatPricePieces(t.limitPrice))
  }

  /** An order of a known spot is stored under its key, and nothing else changes; one of an unknown
      spot leaves no trace. */
  ghost predicate StoresOrder(sdk: Sdk, st: IndexState, st': IndexState, e: OrderCreatedEvent, spot: string,
                              status: string, filledRaw: u64, indexed: Option<Order>) {
    var home := Normalize(sdk, spot);
    var key := home + ":" + e.orderId;
    if home !in st.spotToMarket then st' == st && indexed.None?
    else
      && V5(key) in st'.orders
      && RecordsOrder(st, st.spotToMarket[home], e, status, filledRaw, V5(key), st'.orders[V5(key)])
      && st' == st.(chainOrderIndex := st.chainOrderIndex[key := V5(key)],
                    orders := st.orders[V5(key) := st'.orders[V5(key)]])
      && indexed == Some(st'.orders[V5(key)].order)
  }

  lemma NewOrderIs(sdk: Sdk, st: IndexState, found: SpotMarketRef, e: OrderCreatedEvent, spot: string, status: string,
                   filledRaw: u64)
    ensures var order := NewOrder(sdk, st, found, e, spot, status);
            RecordsOrder(st, found, e, status, filledRaw, V5(Normalize(sdk, spot) + ":" + e.orderId),
                         StoredOrder(order, e.creator, e.orderId, filledRaw, e.amount))
  {
    hide Normalize, FormatPricePieces, FormatTokenAmount;
  }

  /** What is stored for an order_created is what the event says. */
  lemma OrderExact(sdk: Sdk, st: IndexState, e: OrderCreatedEvent, spot: string, status: string, filledRaw: u64)
    ensures StoresOrder(sdk, st, OrderIndexed(sdk, st, e, spot, status, filledRaw), e, spot, status, filledRaw,
                        IndexedOrder(sdk, st, e, spot, status))
  {
    hide Normalize, NewOrder, RecordsOrder;
    var found := LookupSpotMarket(sdk, st, spot);
    if found.Some? {
      NewOrderIs(sdk, st, found.value, e, spot, status, filledRaw);
      NewOrderId(sdk, st, found.value, e, spot, status);
    }
  }

  lemma NewOrderId(sdk: Sdk, st: IndexState, found: SpotMarketRef, e: OrderCreatedEvent, spot: string, status: string)
    ensures NewOrder(sdk, st, found, e, spot, status).id == V5(Normalize(sdk, spot) + ":" + e.orderId)
  {
    hide Normalize, FormatPricePieces, FormatTokenAmount;
  }

  /** A new order of another type than Limit is stored like any other but enters no book: its book
      is at most hydrated. */
  lemma OtherTypesKeepBooks(sdk: Sdk, s: Indexer, env: Env, e: OrderCreatedEvent, blockNum: u64)
    requires !IsIndexed(sdk, s, e) && !e.orderType.Limit?
    ensures var spot := Normalize(sdk, e.market);
            var t := CreatedHandled(sdk, s, env, e, blockNum);
            && EnsuresExactly(sdk, s, t.(index := s.index), spot, env.replies(spot), spot in t.books.hydrated)
            && StoresOrder(sdk, s.index, t.index, e, spot, "open", 0, IndexedOrder(sdk, s.index, e, spot, "open"))
  {
    hide Normalize, HasChainOrder, Ensured, OrderIndexed, IndexedOrder, EnsuresExactly, StoresOrder;
    var spot := Normalize(sdk, e.market);
    EnsuringExact(sdk, s, spot, env.replies(spot));
    HydrationKeepsIndex(sdk, s, spot, env.replies(spot));
    EnsuredIsHydrated(sdk, s, e.market, env.replies(spot));
    OrderExact(sdk, s.index, e, spot, "open", 0);
  }

  lemma EnsuredIsHydrated(sdk: Sdk, s: Indexer, market: string, reply: ChainReply)
    ensures var spot := Normalize(sdk, market);
            var (t, ready) := Ensured(sdk, s, spot, reply);
            t.halted == s.halted && (ready <==> spot in t.books.hydrated)
  {
    NormalizeIdempotent(sdk, market);
    hide Normalize;
  }

  // ---------------------------------------------------------------- updates of a record

  /** Only the record filed for this spot and order id may change, if there is one. */
  ghost predicate OnlyRecord(sdk: Sdk, st: IndexState, st': IndexState, spot: string, orderId: string) {
    var key := Normalize(sdk, spot) + ":" + orderId;
    if key in st.chainOrderIndex && st.chainOrderIndex[key] in st.orders then
      var id := st.chainOrderIndex[key];
      && id in st'.orders && st' == st.(orders := st.orders[id := st'.orders[id]])
      && OnlyAmounts(st.orders[id], st'.orders[id])
    else st' == st
  }

  /** Of the record, only amounts, the size text and the status may differ. */
  predicate OnlyAmounts(was: StoredOrder, now: StoredOrder) {
    && now == was.(order := now.order, sizeRaw := now.sizeRaw, filledRaw := now.filledRaw)
    && now.order == was.order.(size := now.order.size, status := now.order.status)
  }

  /** A cancellation changes the status alone; an amendment the size and the status that follows; a
      fill what is filled, bounded by 64 bits, and the status. */
  predicate CancelsRecord(was: StoredOrder, now: StoredOrder) {
    && now.sizeRaw == was.sizeRaw && now.filledRaw == was.filledRaw && now.order.size == was.order.size
    && now.order.status == "cancelled"
  }

  predicate AmendsRecord(was: StoredOrder, now: StoredOrder, newAmount: u64, remaining: u64) {
    && now.sizeRaw == newAmount && now.filledRaw == was.filledRaw
    && now.order.size == FormatTokenAmount(newAmount)
    && (remaining == 0 ==> now.order.status == "filled")
    && (remaining > 0 && was.filledRaw > 0 ==> now.order.status == "partial_filled")
    && (remaining > 0 && was.filledRaw == 0 ==> now.order.status == "open")
  }

  predicate FillsRecord(was: StoredOrder, now: StoredOrder, amount: u64, remaining: u64, isFullyFilled: bool) {
    && now.sizeRaw == was.sizeRaw && now.order.size == was.order.size
    && now.filledRaw == Min(was.filledRaw + amount, U64_MAX)
    && (isFullyFilled || remaining == 0 ==> now.order.status == "filled")
    && (!isFullyFilled && remaining > 0 ==> now.order.status == "partial_filled")
  }

  /** The three updates touch the record they are about and nothing else. */
  lemma UpdatesExact(sdk: Sdk, st: IndexState, spot: string, orderId: string, amount: u64, remaining: u64, full: bool)
    ensures var cancelled := IndexStores.OrderCancelled(sdk, st, spot, orderId);
            var amended := OrderAmended(sdk, st, spot, orderId, amount, remaining);
            var filled := IndexStores.OrderFilled(sdk, st, spot, orderId, amount, remaining, full);
            && OnlyRecord(sdk, st, cancelled, spot, orderId) && OnlyRecord(sdk, st, amended, spot, orderId)
            && OnlyRecord(sdk, st, filled, spot, orderId)
            && (Record(sdk, st, spot, orderId).Some? ==>
                  var id := st.chainOrderIndex[ChainOrderKey(sdk, spot, orderId)];
                  && CancelsRecord(st.orders[id], cancelled.orders[id])
                  && AmendsRecord(st.orders[id], amended.orders[id], amount, remaining)
                  && FillsRecord(st.orders[id], filled.orders[id], amount, remaining, full))
  {
    hide Normalize, FormatTokenAmount;
  }

  // ---------------------------------------------------------------- cancellations and amendments of unnamed spots

  /** An event that names its contract is about that spot. One that does not is about the only spot
      that holds its order id, if there is exactly one. */
  lemma ResolvedExact(sdk: Sdk, r: RunState, contract: Option<string>, orderId: string, spot: string)
    requires Consistent(r) && ColonFree(orderId)
    requires forall id :: id in r.index.orders ==> ColonFree(r.index.orders[id].chainOrderId)
    ensures ResolvedSpot(sdk, r.index, contract, orderId) == Some(spot) <==>
              if contract.Some? then spot == Normalize(sdk, contract.value)
              else SpotsHolding(r.index, orderId) == {spot}
  {
    hide Normalize, ColonFree, SpotsHolding, LookupSpotMarketForChainOrder, SlugsInverse, MarketsKnown, OrdersBijective;
    SuffixScanExact(r, orderId, spot);
  }

  predicate SpotKeysNormal(sdk: Sdk, st: IndexState) {
    forall key :: key in st.spotToMarket ==> Normalize(sdk, key) == key
  }

  lemma SpotKeysStep(sdk: Sdk, r: RunState, a: Action)
    requires SpotKeysNormal(sdk, r.index)
    ensures SpotKeysNormal(sdk, Next(sdk, r, a).index)
  {
    hide Normalize, ChainOrderKey, Amended, FilledBy, WithStatus;
    if a.CreateMarket? {
      NormalizeIdempotent(sdk, a.market.yesSpotMarket);
      NormalizeIdempotent(sdk, a.market.noSpotMarket);
    }
  }

  /** The index only ever holds normal spots. */
  lemma {:induction false} SpotKeysStay(sdk: Sdk, r: RunState, actions: seq<Action>, t: RunState)
    requires SpotKeysNormal(sdk, r.index) && Runs(sdk, r, actions, t)
    ensures SpotKeysNormal(sdk, t.index)
    decreases |actions|
  {
    hide SpotKeysNormal, Enabled, Next;
    if actions != [] {
      SpotKeysStep(sdk, r, actions[0]);
      SpotKeysStay(sdk, Next(sdk, r, actions[0]), actions[1..], t);
    }
  }

  /** A cancellation or amendment whose spot cannot be found refreshes every indexed spot whose
      reply can be used, and does nothing else. */
  lemma UnresolvedRefreshes(sdk: Sdk, lower: char -> string, s: Indexer, env: Env, e: TxEvent, blockNum: u64,
                            key: string)
    requires !s.halted && (e.OrderCancelled? || e.OrderUpdated?)
    requires ResolvedSpot(sdk, s.index, e.contract, e.orderId).None? && SpotKeysNormal(sdk, s.index)
    requires forall spot :: spot in env.spotOrder <==> spot in s.index.spotToMarket
    ensures var t := Handled(sdk, lower, s, env, e, blockNum);
            && t == s.(books := t.books)
            && t.books.publishers == s.books.publishers && t.books.quotePublishers == s.books.quotePublishers
            && (if key in s.index.spotToMarket && CanHydrate(sdk, s.index, key, env.replies(key))
                then key in t.books.hydrated && ShowsReply(BookAt(t.books, key), env.replies(key))
                     && ShowsKnownTrade(s.index, key, env.replies(key).info, BookAt(t.books, key))
                else BookAt(t.books, key) == BookAt(s.books, key)
                     && (key in t.books.hydrated <==> key in s.books.hydrated))
  {
    hide *;
    RefreshesAll(sdk, lower, s, env, e, blockNum);
    HydrationsExact(sdk, s, env.spotOrder, env.replies, key);
    UsableIndexed(sdk, s.index, env, key);
    RefreshedUsable(sdk, s, SpotsHydrated(sdk, s, env.spotOrder, env.replies), env, key);
  }

  lemma RefreshesAll(sdk: Sdk, lower: char -> string, s: Indexer, env: Env, e: TxEvent, blockNum: u64)
    requires !s.halted && (e.OrderCancelled? || e.OrderUpdated?)
    requires ResolvedSpot(sdk, s.index, e.contract, e.orderId).None?
    ensures Handled(sdk, lower, s, env, e, blockNum) == SpotsHydrated(sdk, s, env.spotOrder, env.replies)
  {
    hide ResolvedSpot, SpotsHydrated;
  }

  lemma UsableIndexed(sdk: Sdk, st: IndexState, env: Env, key: string)
    requires SpotKeysNormal(sdk, st)
    requires forall spot :: spot in env.spotOrder <==> spot in st.spotToMarket
    ensures key in st.spotToMarket && CanHydrate(sdk, st, key, env.replies(key)) ==>
              exists i: nat :: LastUsable(sdk, st, env.spotOrder, env.replies, key, i)
    ensures forall i: nat :: LastUsable(sdk, st, env.spotOrder, env.replies, key, i) ==>
              env.spotOrder[i] == key && key in st.spotToMarket && CanHydrate(sdk, st, key, env.replies(key))
  {
    hide Normalize, CanHydrate;
    if forall i: nat :: !LastUsable(sdk, st, env.spotOrder, env.replies, key, i) {
      NoneUsable(sdk, st, env.spotOrder, env.replies, key);
    }
  }

  lemma RefreshedUsable(sdk: Sdk, s: Indexer, t: Indexer, env: Env, key: string)
    requires BookRefreshed(sdk, s, t, env.spotOrder, env.replies, key)
    requires forall i: nat :: LastUsable(sdk, s.index, env.spotOrder, env.replies, key, i) ==> env.spotOrder[i] == key
    ensures if exists i: nat :: LastUsable(sdk, s.index, env.spotOrder, env.replies, key, i)
            then key in t.books.hydrated && ShowsReply(BookAt(t.books, key), env.replies(key))
                 && ShowsKnownTrade(s.index, key, env.replies(key).info, BookAt(t.books, key))
            else BookAt(t.books, key) == BookAt(s.books, key)
                 && (key in t.books.hydrated <==> key in s.books.hydrated)
  {
    hide Usable, ShowsReply, ShowsKnownTrade;
  }
}
