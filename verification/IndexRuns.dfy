/** What every run of index steps keeps: slugs and markets are inverse, keys and orders are
    in bijection, and an order's market still names the spot the order is indexed under. */
module IndexRuns {
  import opened Machine
  import opened Text
  import opened SpotMarkets
  import opened IndexStores

  /** `seen` collects what handlers have looked up and may still insert an order for. */
  datatype RunState = RunState(index: IndexState, seen: set<(string, SpotMarketRef)>)

  datatype Action =
    | CreateMarket(market: Market)
    | Resolve(marketAddress: string, state: string)
    | RecordTrade(spotMarket: string, price: u64)
    | LookUp(spotMarket: string)
    | Insert(order: Order, userAddress: string, spotMarket: string, chainOrderId: string, sizeRaw: u64, filledRaw: u64)
    | Cancel(spotMarket: string, chainOrderId: string)
    | Amend(spotMarket: string, chainOrderId: string, newAmount: u64, remainingAmount: u64)
    | Fill(spotMarket: string, chainOrderId: string, fillAmount: u64, remainingAmount: u64, isFullyFilled: bool)

  /** New markets come with an allocated slug; orders with the identifier of their key and
      a market that some earlier lookup of their spot returned. */
  ghost predicate Enabled(sdk: Sdk, r: RunState, a: Action) {
    match a
    case CreateMarket(market) => market.slug != "" && market.slug !in r.index.slugToMarketId
    case Insert(order, _, spotMarket, chainOrderId, _, _) =>
      && order.id == V5(ChainOrderKey(sdk, spotMarket, chainOrderId))
      && (Normalize(sdk, spotMarket), SpotMarketRef(order.marketId, order.outcome)) in r.seen
    case _ => true
  }

  function Next(sdk: Sdk, r: RunState, a: Action): RunState {
    var st := r.index;
    match a
    case CreateMarket(market) => r.(index := MarketUpserted(sdk, st, market))
    case Resolve(marketAddress, state) => r.(index := MarketStateSet(st, marketAddress, state))
    case RecordTrade(spotMarket, price) => r.(index := TradeRecorded(sdk, st, spotMarket, price))
    case LookUp(spotMarket) =>
      (match LookupSpotMarket(sdk, st, spotMarket)
       case Some(found) => r.(seen := r.seen + {(Normalize(sdk, spotMarket), found)})
       case None => r)
    case Insert(order, userAddress, spotMarket, chainOrderId, sizeRaw, filledRaw) =>
      r.(index := OrderInserted(sdk, st, order, userAddress, spotMarket, chainOrderId, sizeRaw, filledRaw))
    case Cancel(spotMarket, chainOrderId) => r.(index := OrderCancelled(sdk, st, spotMarket, chainOrderId))
    case Amend(spotMarket, chainOrderId, newAmount, remainingAmount) =>
      r.(index := OrderAmended(sdk, st, spotMarket, chainOrderId, newAmount, remainingAmount))
    case Fill(spotMarket, chainOrderId, fillAmount, remainingAmount, isFullyFilled) =>
      r.(index := OrderFilled(sdk, st, spotMarket, chainOrderId, fillAmount, remainingAmount, isFullyFilled))
  }

  ghost predicate Runs(sdk: Sdk, r: RunState, actions: seq<Action>, t: RunState)
    decreases |actions|
  {
    if actions == [] then r == t
    else Enabled(sdk, r, actions[0]) && Runs(sdk, Next(sdk, r, actions[0]), actions[1..], t)
  }

  const START := RunState(EMPTY_INDEX, {})

  // ---------------------------------------------------------------- the invariants

  ghost predicate SlugsInverse(st: IndexState) {
    && (forall id :: id in st.markets ==>
          && st.markets[id].id == id && st.markets[id].slug != ""
          && st.markets[id].slug in st.slugToMarketId && st.slugToMarketId[st.markets[id].slug] == id)
    && (forall s :: s in st.slugToMarketId ==>
          st.slugToMarketId[s] in st.markets && st.markets[st.slugToMarketId[s]].slug == s)
  }

  ghost predicate MarketsKnown(r: RunState) {
    && (forall s :: s in r.index.spotToMarket ==> r.index.spotToMarket[s].marketId in r.index.markets)
    && (forall s, found :: (s, found) in r.seen ==> found.marketId in r.index.markets)
    && (forall id :: id in r.index.orders ==> r.index.orders[id].order.marketId in r.index.markets)
  }

  /** The record carries its own id, and its key ends in its chain id. */
  ghost predicate Filed(id: Uuid, stored: StoredOrder) {
    stored.order.id == id && EndsWith(id.name, ":" + stored.chainOrderId)
  }

  ghost predicate OrdersBijective(st: IndexState) {
    && (forall k :: k in st.chainOrderIndex ==> st.chainOrderIndex[k] == V5(k) && V5(k) in st.orders)
    && (forall id :: id in st.orders ==> id.name in st.chainOrderIndex && Filed(id, st.orders[id]))
  }

  ghost predicate Consistent(r: RunState) {
    SlugsInverse(r.index) && MarketsKnown(r) && OrdersBijective(r.index)
  }

  lemma UpsertKeepsSlugs(sdk: Sdk, st: IndexState, market: Market)
    requires SlugsInverse(st) && market.slug != "" && market.slug !in st.slugToMarketId
    ensures SlugsInverse(MarketUpserted(sdk, st, market))
  {
    hide SlugsInverse;
    var id := market.id;
    UpsertSlugs(sdk, st, market);
    var m := MarketUpserted(sdk, st, market).markets[id];
    hide MarketUpserted, WithoutMarket;
    RelabelKeepsSlugs(st, MarketUpserted(sdk, st, market), id, m);
  }

  lemma UpsertSlugs(sdk: Sdk, st: IndexState, market: Market)
    requires market.slug != ""
    ensures var st', id := MarketUpserted(sdk, st, market), market.id;
            && id in st'.markets && st'.markets == st.markets[id := st'.markets[id]]
            && st'.markets[id].id == id && st'.markets[id].slug == market.slug
            && st'.slugToMarketId == WithoutMarket(st.slugToMarketId, id)[market.slug := id]
  {
    hide Normalize;
  }

  lemma RelabelKeepsSlugs(st: IndexState, st': IndexState, id: Uuid, m: Market)
    requires SlugsInverse(st) && m.id == id && m.slug != "" && m.slug !in st.slugToMarketId
    requires st'.markets == st.markets[id := m]
    requires st'.slugToMarketId == WithoutMarket(st.slugToMarketId, id)[m.slug := id]
    ensures SlugsInverse(st')
  {
  }

  lemma UpsertShape(sdk: Sdk, st: IndexState, market: Market)
    ensures var st' := MarketUpserted(sdk, st, market);
            && st'.orders == st.orders && st'.chainOrderIndex == st.chainOrderIndex
            && st'.markets.Keys == st.markets.Keys + {market.id}
            && forall s :: s in st'.spotToMarket ==>
                 st'.spotToMarket[s].marketId == market.id
                 || (s in st.spotToMarket && st'.spotToMarket[s] == st.spotToMarket[s])
  {
    hide Normalize;
  }

  lemma UpsertConsistent(sdk: Sdk, r: RunState, market: Market)
    requires Consistent(r) && market.slug != "" && market.slug !in r.index.slugToMarketId
    ensures Consistent(r.(index := MarketUpserted(sdk, r.index, market)))
  {
    hide MarketUpserted, SlugsInverse, Filed;
    UpsertKeepsSlugs(sdk, r.index, market);
    UpsertShape(sdk, r.index, market);
  }

  lemma StateSetConsistent(r: RunState, marketAddress: string, state: string)
    requires Consistent(r)
    ensures Consistent(r.(index := MarketStateSet(r.index, marketAddress, state)))
  {
    hide SlugsInverse, OrdersBijective, MarketStateSet;
    StateSetShape(r.index, marketAddress, state);
    SameSlugs(r.index, MarketStateSet(r.index, marketAddress, state));
    SameFiling(r.index, MarketStateSet(r.index, marketAddress, state));
  }

  lemma SameSlugs(st: IndexState, st': IndexState)
    requires SlugsInverse(st) && st'.slugToMarketId == st.slugToMarketId && st'.markets.Keys == st.markets.Keys
    requires forall id :: id in st.markets ==>
               st'.markets[id].id == st.markets[id].id && st'.markets[id].slug == st.markets[id].slug
    ensures SlugsInverse(st')
  {
  }

  lemma SameFiling(st: IndexState, st': IndexState)
    requires OrdersBijective(st) && st'.orders == st.orders && st'.chainOrderIndex == st.chainOrderIndex
    ensures OrdersBijective(st')
  {
    hide Filed;
  }

  lemma StateSetShape(st: IndexState, marketAddress: string, state: string)
    ensures var st' := MarketStateSet(st, marketAddress, state);
            && st' == st.(markets := st'.markets) && st'.markets.Keys == st.markets.Keys
            && forall id :: id in st.markets ==>
                 st'.markets[id].id == st.markets[id].id && st'.markets[id].slug == st.markets[id].slug
  {
  }

  ghost predicate SameIds(a: StoredOrder, b: StoredOrder) {
    a.order.id == b.order.id && a.order.marketId == b.order.marketId && a.order.outcome == b.order.outcome
    && a.chainOrderId == b.chainOrderId
  }

  lemma UpdateKeepsFiling(st: IndexState, id: Uuid, stored: StoredOrder)
    requires OrdersBijective(st) && id in st.orders && SameIds(stored, st.orders[id])
    ensures OrdersBijective(st.(orders := st.orders[id := stored]))
  {
    hide EndsWith;
  }

  /** Updates of a record that keep its ids and market leave everything consistent. */
  lemma UpdateConsistent(sdk: Sdk, r: RunState, spotMarket: string, chainOrderId: string, stored: StoredOrder)
    requires Consistent(r) && Record(sdk, r.index, spotMarket, chainOrderId).Some?
    requires SameIds(stored, Record(sdk, r.index, spotMarket, chainOrderId).value)
    ensures Consistent(r.(index := WithRecord(sdk, r.index, spotMarket, chainOrderId, stored)))
  {
    hide ChainOrderKey, OrdersBijective;
    UpdateKeepsFiling(r.index, r.index.chainOrderIndex[ChainOrderKey(sdk, spotMarket, chainOrderId)], stored);
  }

  lemma InsertFiled(sdk: Sdk, id: Uuid, stored: StoredOrder, spotMarket: string)
    requires stored.order.id == id == V5(ChainOrderKey(sdk, spotMarket, stored.chainOrderId))
    ensures Filed(id, stored)
  {
    hide Normalize;
  }

  lemma FilingKeeps(st: IndexState, key: string, stored: StoredOrder)
    requires OrdersBijective(st) && stored.order.id == V5(key) && Filed(V5(key), stored)
    ensures OrdersBijective(st.(chainOrderIndex := st.chainOrderIndex[key := stored.order.id],
                                orders := st.orders[stored.order.id := stored]))
  {
    hide Filed;
  }

  lemma InsertConsistent(sdk: Sdk, r: RunState, a: Action)
    requires Consistent(r) && a.Insert? && Enabled(sdk, r, a)
    ensures Consistent(Next(sdk, r, a))
  {
    hide Normalize, ChainOrderKey, Filed, OrdersBijective;
    var stored := StoredOrder(a.order, a.userAddress, a.chainOrderId, a.filledRaw, a.sizeRaw);
    InsertFiled(sdk, a.order.id, stored, a.spotMarket);
    FilingKeeps(r.index, ChainOrderKey(sdk, a.spotMarket, a.chainOrderId), stored);
  }

  lemma ConsistentStep(sdk: Sdk, r: RunState, a: Action)
    requires Consistent(r) && Enabled(sdk, r, a)
    ensures Consistent(Next(sdk, r, a))
  {
    var st := r.index;
    hide MarketUpserted, MarketStateSet, WithRecord, Record, Normalize, SlugsInverse, OrdersBijective;
    match a
    case CreateMarket(market) => UpsertConsistent(sdk, r, market);
    case Resolve(marketAddress, state) => StateSetConsistent(r, marketAddress, state);
    case Insert(_, _, _, _, _, _) => InsertConsistent(sdk, r, a);
    case RecordTrade(_, _) => TradeConsistent(sdk, r, a);
    case LookUp(spotMarket) =>
    case Cancel(spotMarket, chainOrderId) =>
      var stored := Record(sdk, st, spotMarket, chainOrderId);
      if stored.Some? {
        UpdateConsistent(sdk, r, spotMarket, chainOrderId, WithStatus(stored.value, "cancelled"));
      }
    case Amend(spotMarket, chainOrderId, newAmount, remainingAmount) =>
      var stored := Record(sdk, st, spotMarket, chainOrderId);
      if stored.Some? {
        UpdateConsistent(sdk, r, spotMarket, chainOrderId, Amended(stored.value, newAmount, remainingAmount));
      }
    case Fill(spotMarket, chainOrderId, fillAmount, remainingAmount, isFullyFilled) =>
      var stored := Record(sdk, st, spotMarket, chainOrderId);
      if stored.Some? {
        UpdateConsistent(sdk, r, spotMarket, chainOrderId,
                         FilledBy(stored.value, fillAmount, remainingAmount, isFullyFilled));
      }
  }

  lemma TradeConsistent(sdk: Sdk, r: RunState, a: Action)
    requires Consistent(r) && a.RecordTrade?
    ensures Consistent(Next(sdk, r, a))
  {
    hide Normalize, Filed;
  }

  /** Over every run, in any interleaving of handlers: slugs and markets stay inverse, keys
      and orders stay in bijection, every referenced market exists and no order is lost. */
  lemma {:induction false} RunsConsistent(sdk: Sdk, r: RunState, actions: seq<Action>, t: RunState)
    requires Consistent(r) && Runs(sdk, r, actions, t)
    ensures Consistent(t)
    ensures r.index.orders.Keys <= t.index.orders.Keys
    decreases |actions|
  {
    hide Enabled, Consistent;
    if actions != [] {
      ConsistentStep(sdk, r, actions[0]);
      OrdersStay(sdk, r, actions[0]);
      RunsConsistent(sdk, Next(sdk, r, actions[0]), actions[1..], t);
    }
  }

  lemma OrdersStay(sdk: Sdk, r: RunState, a: Action)
    ensures r.index.orders.Keys <= Next(sdk, r, a).index.orders.Keys
  {
    hide Normalize, ChainOrderKey;
  }

  lemma StartConsistent(sdk: Sdk, actions: seq<Action>, t: RunState)
    requires Runs(sdk, START, actions, t)
    ensures Consistent(t)
  {
    EmptyConsistent();
    hide Runs, Consistent;
    RunsConsistent(sdk, START, actions, t);
  }

  lemma EmptyConsistent()
    ensures Consistent(START)
  {
  }

  /** Any market is found again under its slug, and no two markets share one. */
  lemma SlugFindsMarket(r: RunState, id: Uuid, other: Uuid)
    requires Consistent(r) && id in r.index.markets && other in r.index.markets
    ensures GetEventBySlug(r.index, r.index.markets[id].slug) == Some(r.index.markets[id])
    ensures r.index.markets[id].slug == r.index.markets[other].slug <==> id == other
  {
  }

  // ---------------------------------------------------------------- the suffix scan

  function FiledSpot(st: IndexState, id: Uuid): string
    requires id in st.orders && Filed(id, st.orders[id])
  {
    StripSuffix(id.name, ":" + st.orders[id].chainOrderId)
  }

  /** The spots that hold an order with this chain id. */
  ghost function SpotsHolding(st: IndexState, chainOrderId: string): set<string>
    requires OrdersBijective(st)
  {
    set id | id in st.orders && st.orders[id].chainOrderId == chainOrderId :: FiledSpot(st, id)
  }

  /** The scan finds a spot exactly when it is the only one holding that order id. */
  lemma SuffixScanExact(r: RunState, chainOrderId: string, s: string)
    requires Consistent(r) && ColonFree(chainOrderId)
    requires forall id :: id in r.index.orders ==> ColonFree(r.index.orders[id].chainOrderId)
    ensures LookupSpotMarketForChainOrder(r.index, chainOrderId) == Some(s)
       <==> SpotsHolding(r.index, chainOrderId) == {s}
  {
    hide SpotsHolding, SuffixMatches, ColonFree, SlugsInverse, MarketsKnown, OrdersBijective;
    MatchesAreSpots(r.index, chainOrderId);
  }

  lemma MatchesAreSpots(st: IndexState, chainOrderId: string)
    requires OrdersBijective(st) && ColonFree(chainOrderId)
    requires forall id :: id in st.orders ==> ColonFree(st.orders[id].chainOrderId)
    ensures SuffixMatches(st, ":" + chainOrderId) == SpotsHolding(st, chainOrderId)
  {
    hide EndsWith, ColonFree;
    forall id | id in st.orders && EndsWith(id.name, ":" + chainOrderId)
      ensures st.orders[id].chainOrderId == chainOrderId
    {
      SuffixIsId(id, st.orders[id], chainOrderId);
    }
    SuffixMatchesExact(st, chainOrderId);
  }

  lemma SuffixIsId(id: Uuid, stored: StoredOrder, chainOrderId: string)
    requires Filed(id, stored) && EndsWith(id.name, ":" + chainOrderId)
    requires ColonFree(chainOrderId) && ColonFree(stored.chainOrderId)
    ensures stored.chainOrderId == chainOrderId
  {
    var a, b := StripSuffix(id.name, ":" + chainOrderId), StripSuffix(id.name, ":" + stored.chainOrderId);
    assert id.name == a + ":" + chainOrderId by { assert id.name == a + (":" + chainOrderId); }
    assert id.name == b + ":" + stored.chainOrderId by { assert id.name == b + (":" + stored.chainOrderId); }
    ColonSplit(a, chainOrderId, b, stored.chainOrderId);
  }

  /** Every order whose key ends in the suffix of this id has this id. */
  ghost predicate SuffixFaithful(st: IndexState, chainOrderId: string) {
    forall id :: id in st.orders && EndsWith(id.name, ":" + chainOrderId) ==> st.orders[id].chainOrderId == chainOrderId
  }

  /** Whatever the ids look like: the scan collects the spots that hold this order id exactly
      when every stored order whose key ends in the suffix has this id. */
  lemma SuffixMatchesExact(st: IndexState, chainOrderId: string)
    requires OrdersBijective(st)
    ensures SuffixMatches(st, ":" + chainOrderId) == SpotsHolding(st, chainOrderId)
       <==> SuffixFaithful(st, chainOrderId)
  {
    hide EndsWith, SuffixFaithful;
    HoldingMatches(st, chainOrderId);
    if SuffixFaithful(st, chainOrderId) {
      FaithfulMatches(st, chainOrderId);
    }
    if SuffixMatches(st, ":" + chainOrderId) == SpotsHolding(st, chainOrderId) {
      MatchesFaithful(st, chainOrderId);
    }
  }

  lemma FaithfulMatches(st: IndexState, chainOrderId: string)
    requires OrdersBijective(st) && SuffixFaithful(st, chainOrderId)
    ensures SuffixMatches(st, ":" + chainOrderId) <= SpotsHolding(st, chainOrderId)
  {
    hide EndsWith;
    forall k | k in st.chainOrderIndex && EndsWith(k, ":" + chainOrderId)
      ensures StripSuffix(k, ":" + chainOrderId) in SpotsHolding(st, chainOrderId)
    {
      assert st.chainOrderIndex[k] == V5(k) && FiledSpot(st, V5(k)) == StripSuffix(k, ":" + chainOrderId);
    }
  }

  lemma MatchesFaithful(st: IndexState, chainOrderId: string)
    requires OrdersBijective(st)
    requires SuffixMatches(st, ":" + chainOrderId) == SpotsHolding(st, chainOrderId)
    ensures SuffixFaithful(st, chainOrderId)
  {
    hide EndsWith;
    var suffix := ":" + chainOrderId;
    forall id | id in st.orders && EndsWith(id.name, suffix) ensures st.orders[id].chainOrderId == chainOrderId {
      assert id.name in st.chainOrderIndex && StripSuffix(id.name, suffix) in SuffixMatches(st, suffix);
      var other :| other in st.orders && st.orders[other].chainOrderId == chainOrderId
                   && FiledSpot(st, other) == StripSuffix(id.name, suffix);
      SameParts(id.name, other.name, suffix);
    }
  }

  /** The scan names a spot exactly when it is the only one that holds the id. */
  ghost predicate ScanRight(st: IndexState, chainOrderId: string)
    requires OrdersBijective(st)
  {
    forall s :: LookupSpotMarketForChainOrder(st, chainOrderId) == Some(s) <==> SpotsHolding(st, chainOrderId) == {s}
  }

  /** Neither one match nor one spot: nothing to name, and nothing named. */
  ghost predicate NothingToName(st: IndexState, chainOrderId: string)
    requires OrdersBijective(st)
  {
    forall s :: SuffixMatches(st, ":" + chainOrderId) != {s} && SpotsHolding(st, chainOrderId) != {s}
  }

  /** The exact condition for the scan to be right, for ids of any shape. */
  lemma SuffixScanRight(st: IndexState, chainOrderId: string)
    requires OrdersBijective(st)
    ensures ScanRight(st, chainOrderId) <==> SuffixFaithful(st, chainOrderId) || NothingToName(st, chainOrderId)
  {
    hide SuffixMatches, SpotsHolding, SuffixFaithful, OrdersBijective, LookupSpotMarketForChainOrder;
    SuffixMatchesExact(st, chainOrderId);
    var matches := SuffixMatches(st, ":" + chainOrderId);
    forall s ensures LookupSpotMarketForChainOrder(st, chainOrderId) == Some(s) <==> matches == {s} {
      LookUpIs(st, chainOrderId, s);
    }
  }

  lemma LookUpIs(st: IndexState, chainOrderId: string, s: string)
    ensures LookupSpotMarketForChainOrder(st, chainOrderId) == Some(s) <==> SuffixMatches(st, ":" + chainOrderId) == {s}
  {
    hide SuffixMatches;
  }

  lemma HoldingMatches(st: IndexState, chainOrderId: string)
    requires OrdersBijective(st)
    ensures SpotsHolding(st, chainOrderId) <= SuffixMatches(st, ":" + chainOrderId)
  {
    hide EndsWith;
    forall id | id in st.orders && st.orders[id].chainOrderId == chainOrderId
      ensures FiledSpot(st, id) in SuffixMatches(st, ":" + chainOrderId)
    {
      assert id.name in st.chainOrderIndex;
    }
  }

  lemma SameParts(a: string, b: string, suffix: string)
    requires EndsWith(a, suffix) && EndsWith(b, suffix) && StripSuffix(a, suffix) == StripSuffix(b, suffix)
    ensures a == b
  {
    assert a == a[..|a| - |suffix|] + suffix && b == b[..|b| - |suffix|] + suffix;
  }

  /** Without that, the scan can name a spot that does not exist: "b" is found behind "a:b". */
  lemma SuffixScanColon(stored: StoredOrder)
    requires stored.order.id == V5("s:a:b") && stored.chainOrderId == "a:b"
    ensures var st := EMPTY_INDEX.(chainOrderIndex := map["s:a:b" := V5("s:a:b")],
                                   orders := map[V5("s:a:b") := stored]);
            OrdersBijective(st) && SpotsHolding(st, "b") == {} && LookupSpotMarketForChainOrder(st, "b") == Some("s:a")
  {
    var key, suffix := "s:a:b", ":" + "b";
    var index := map[key := V5(key)];
    assert key[|key| - |suffix|..] == suffix && key[..|key| - |suffix|] == "s:a";
    assert key[|key| - |":" + "a:b"|..] == ":" + "a:b";
    var st := EMPTY_INDEX.(chainOrderIndex := index, orders := map[V5(key) := stored]);
    assert key in index && "s:a" in SuffixMatches(st, suffix);
    assert SuffixMatches(st, suffix) == {"s:a"};
  }

  // ---------------------------------------------------------------- the cancel context

  /** The spot that an order's market and outcome name. */
  function HomeSpot(st: IndexState, o: Order): string
    requires o.marketId in st.markets
  {
    SpotOf(st.markets[o.marketId], o.outcome)
  }

  /** The spot and chain id of the context name the key the order is filed under. */
  ghost predicate Rebuilds(sdk: Sdk, st: IndexState, id: Uuid) {
    && id in st.orders && st.orders[id].order.marketId in st.markets
    && ChainOrderKey(sdk, HomeSpot(st, st.orders[id].order), st.orders[id].chainOrderId) == id.name
  }

  ghost predicate NamesSpot(sdk: Sdk, st: IndexState, found: SpotMarketRef, s: string) {
    && Normalize(sdk, s) == s
    && found.marketId in st.markets && SpotOf(st.markets[found.marketId], found.outcome) == s
  }

  ghost predicate SpotsTrue(sdk: Sdk, r: RunState) {
    && (forall s :: s in r.index.spotToMarket ==> NamesSpot(sdk, r.index, r.index.spotToMarket[s], s))
    && (forall s, found :: (s, found) in r.seen ==> NamesSpot(sdk, r.index, found, s))
    && (forall id :: id in r.index.orders ==> Rebuilds(sdk, r.index, id))
  }

  /** A market that is created again comes with the spots it had. */
  ghost predicate SpotsFixed(sdk: Sdk, r: RunState, a: Action) {
    a.CreateMarket? && a.market.id in r.index.markets ==>
      && Normalize(sdk, a.market.yesSpotMarket) == r.index.markets[a.market.id].yesSpotMarket
      && Normalize(sdk, a.market.noSpotMarket) == r.index.markets[a.market.id].noSpotMarket
  }

  ghost predicate RunsFixed(sdk: Sdk, r: RunState, actions: seq<Action>, t: RunState)
    decreases |actions|
  {
    if actions == [] then r == t
    else
      && Enabled(sdk, r, actions[0]) && SpotsFixed(sdk, r, actions[0])
      && RunsFixed(sdk, Next(sdk, r, actions[0]), actions[1..], t)
  }

  lemma {:induction false} RunsTrue(sdk: Sdk, r: RunState, actions: seq<Action>, t: RunState)
    requires Consistent(r) && SpotsTrue(sdk, r) && RunsFixed(sdk, r, actions, t)
    ensures Consistent(t) && SpotsTrue(sdk, t)
    ensures r.index.orders.Keys <= t.index.orders.Keys
    decreases |actions|
  {
    hide Enabled, Consistent, SpotsTrue, SpotsFixed;
    if actions != [] {
      ConsistentStep(sdk, r, actions[0]);
      OrdersStay(sdk, r, actions[0]);
      TrueStep(sdk, r, actions[0]);
      RunsTrue(sdk, Next(sdk, r, actions[0]), actions[1..], t);
    }
  }

  lemma TrueStep(sdk: Sdk, r: RunState, a: Action)
    requires Consistent(r) && SpotsTrue(sdk, r) && Enabled(sdk, r, a) && SpotsFixed(sdk, r, a)
    ensures SpotsTrue(sdk, Next(sdk, r, a))
  {
    hide MarketUpserted, MarketStateSet, WithRecord, Record, Consistent, SpotsTrue, Normalize;
    var st := r.index;
    match a
    case CreateMarket(market) => UpsertTrue(sdk, r, market);
    case Resolve(marketAddress, state) => StateSetTrue(sdk, r, marketAddress, state);
    case RecordTrade(spotMarket, price) => TradeTrue(sdk, r, spotMarket, price);
    case LookUp(spotMarket) => LookUpTrue(sdk, r, spotMarket);
    case Insert(_, _, _, _, _, _) => InsertTrue(sdk, r, a);
    case Cancel(spotMarket, chainOrderId) =>
      var stored := Record(sdk, st, spotMarket, chainOrderId);
      if stored.Some? {
        UpdateTrue(sdk, r, spotMarket, chainOrderId, WithStatus(stored.value, "cancelled"));
      }
    case Amend(spotMarket, chainOrderId, newAmount, remainingAmount) =>
      var stored := Record(sdk, st, spotMarket, chainOrderId);
      if stored.Some? {
        UpdateTrue(sdk, r, spotMarket, chainOrderId, Amended(stored.value, newAmount, remainingAmount));
      }
    case Fill(spotMarket, chainOrderId, fillAmount, remainingAmount, isFullyFilled) =>
      var stored := Record(sdk, st, spotMarket, chainOrderId);
      if stored.Some? {
        UpdateTrue(sdk, r, spotMarket, chainOrderId,
                   FilledBy(stored.value, fillAmount, remainingAmount, isFullyFilled));
      }
  }

  /** Markets may be added or keep their spots; nothing else matters to references. */
  ghost predicate SpotsKept(st: IndexState, st': IndexState) {
    forall id :: id in st.markets ==>
      && id in st'.markets
      && st'.markets[id].yesSpotMarket == st.markets[id].yesSpotMarket
      && st'.markets[id].noSpotMarket == st.markets[id].noSpotMarket
  }

  lemma KeptRebuilds(sdk: Sdk, st: IndexState, st': IndexState, id: Uuid)
    requires Rebuilds(sdk, st, id) && SpotsKept(st, st')
    requires id in st'.orders && SameIds(st.orders[id], st'.orders[id])
    ensures Rebuilds(sdk, st', id)
  {
    hide ChainOrderKey;
  }

  lemma KeptTrue(sdk: Sdk, r: RunState, st': IndexState)
    requires SpotsTrue(sdk, r) && SpotsKept(r.index, st') && st'.orders == r.index.orders
    requires forall s :: s in st'.spotToMarket ==>
               || (s in r.index.spotToMarket && st'.spotToMarket[s] == r.index.spotToMarket[s])
               || NamesSpot(sdk, st', st'.spotToMarket[s], s)
    ensures SpotsTrue(sdk, r.(index := st'))
  {
    hide Normalize, Rebuilds;
    forall id | id in st'.orders ensures Rebuilds(sdk, st', id) {
      KeptRebuilds(sdk, r.index, st', id);
    }
  }

  lemma UpsertTrue(sdk: Sdk, r: RunState, market: Market)
    requires SpotsTrue(sdk, r) && SpotsFixed(sdk, r, CreateMarket(market))
    ensures SpotsTrue(sdk, r.(index := MarketUpserted(sdk, r.index, market)))
  {
    NormalizeIdempotent(sdk, market.yesSpotMarket);
    NormalizeIdempotent(sdk, market.noSpotMarket);
    UpsertSpots(sdk, r.index, market);
    hide Normalize, SpotsTrue, MarketUpserted;
    KeptTrue(sdk, r, MarketUpserted(sdk, r.index, market));
  }

  lemma UpsertSpots(sdk: Sdk, st: IndexState, market: Market)
    requires market.id in st.markets ==>
               && Normalize(sdk, market.yesSpotMarket) == st.markets[market.id].yesSpotMarket
               && Normalize(sdk, market.noSpotMarket) == st.markets[market.id].noSpotMarket
    requires Normalize(sdk, Normalize(sdk, market.yesSpotMarket)) == Normalize(sdk, market.yesSpotMarket)
    requires Normalize(sdk, Normalize(sdk, market.noSpotMarket)) == Normalize(sdk, market.noSpotMarket)
    ensures var st' := MarketUpserted(sdk, st, market);
            && SpotsKept(st, st') && st'.orders == st.orders
            && forall s :: s in st'.spotToMarket ==>
                 || (s in st.spotToMarket && st'.spotToMarket[s] == st.spotToMarket[s])
                 || NamesSpot(sdk, st', st'.spotToMarket[s], s)
  {
    hide Normalize;
  }

  lemma StateSetTrue(sdk: Sdk, r: RunState, marketAddress: string, state: string)
    requires SpotsTrue(sdk, r)
    ensures SpotsTrue(sdk, r.(index := MarketStateSet(r.index, marketAddress, state)))
  {
    hide SpotsTrue, Normalize;
    KeptTrue(sdk, r, MarketStateSet(r.index, marketAddress, state));
  }

  lemma TradeTrue(sdk: Sdk, r: RunState, spotMarket: string, price: u64)
    requires SpotsTrue(sdk, r)
    ensures SpotsTrue(sdk, r.(index := TradeRecorded(sdk, r.index, spotMarket, price)))
  {
  }

  lemma LookUpTrue(sdk: Sdk, r: RunState, spotMarket: string)
    requires SpotsTrue(sdk, r)
    ensures SpotsTrue(sdk, Next(sdk, r, LookUp(spotMarket)))
  {
    hide Normalize, Rebuilds;
  }

  lemma InsertTrue(sdk: Sdk, r: RunState, a: Action)
    requires SpotsTrue(sdk, r) && a.Insert? && Enabled(sdk, r, a)
    ensures SpotsTrue(sdk, Next(sdk, r, a))
  {
    hide Normalize;
    var st' := Next(sdk, r, a).index;
    forall id | id in st'.orders ensures Rebuilds(sdk, st', id) {
      if id != a.order.id {
        KeptRebuilds(sdk, r.index, st', id);
      } else {
        assert NamesSpot(sdk, r.index, SpotMarketRef(a.order.marketId, a.order.outcome), Normalize(sdk, a.spotMarket));
      }
    }
    hide Rebuilds;
  }

  lemma UpdateTrue(sdk: Sdk, r: RunState, spotMarket: string, chainOrderId: string, stored: StoredOrder)
    requires SpotsTrue(sdk, r) && Record(sdk, r.index, spotMarket, chainOrderId).Some?
    requires SameIds(Record(sdk, r.index, spotMarket, chainOrderId).value, stored)
    ensures SpotsTrue(sdk, r.(index := WithRecord(sdk, r.index, spotMarket, chainOrderId, stored)))
  {
    hide Rebuilds, Normalize, ChainOrderKey;
    var st' := WithRecord(sdk, r.index, spotMarket, chainOrderId, stored);
    forall id | id in st'.orders ensures Rebuilds(sdk, st', id) {
      KeptRebuilds(sdk, r.index, st', id);
    }
  }

  lemma EmptyTrue(sdk: Sdk)
    ensures SpotsTrue(sdk, START)
  {
  }

  /** The context a handler read at any earlier point of the run still cancels exactly the
      order it was read for, and nothing else, when the update comes. */
  lemma MarkCancelledHitsOne(sdk: Sdk, before: seq<Action>, early: RunState, between: seq<Action>,
                             late: RunState, id: Uuid)
    requires RunsFixed(sdk, START, before, early) && RunsFixed(sdk, early, between, late)
    requires id in early.index.orders
    ensures early.index.orders[id].order.marketId in early.index.markets && id in late.index.orders
    ensures OrderCancelled(sdk, late.index, HomeSpot(early.index, early.index.orders[id].order),
                           early.index.orders[id].chainOrderId)
         == late.index.(orders := late.index.orders[id := WithStatus(late.index.orders[id], "cancelled")])
  {
    hide RunsFixed, ChainOrderKey;
    EmptyConsistent();
    EmptyTrue(sdk);
    RunsTrue(sdk, START, before, early);
    RunsTrue(sdk, early, between, late);
    assert Rebuilds(sdk, early.index, id);
    assert id.name in late.index.chainOrderIndex;
  }

  /** Re-creating an order's market keeps its context right exactly when the spot of its
      outcome stays the same. */
  lemma RebuildsAfterUpsert(sdk: Sdk, st: IndexState, market: Market, id: Uuid)
    requires Rebuilds(sdk, st, id)
    ensures Rebuilds(sdk, MarketUpserted(sdk, st, market), id)
       <==> (market.id == st.orders[id].order.marketId ==>
               Normalize(sdk, SpotOf(market, st.orders[id].order.outcome))
               == Normalize(sdk, HomeSpot(st, st.orders[id].order)))
  {
    var o, tail := st.orders[id].order, ":" + st.orders[id].chainOrderId;
    var before, after := HomeSpot(st, o), SpotOf(market, o.outcome);
    HomeAfterUpsert(sdk, st, market, o);
    KeyTail(sdk, before, st.orders[id].chainOrderId);
    if market.id == o.marketId {
      NormalizeIdempotent(sdk, after);
      SameTail(Normalize(sdk, after), Normalize(sdk, before), tail);
      KeyTail(sdk, Normalize(sdk, after), st.orders[id].chainOrderId);
    }
    hide MarketUpserted, HomeSpot, SpotOf, Normalize, ChainOrderKey;
  }

  lemma HomeAfterUpsert(sdk: Sdk, st: IndexState, market: Market, o: Order)
    requires o.marketId in st.markets
    ensures var st' := MarketUpserted(sdk, st, market);
            && st'.orders == st.orders && o.marketId in st'.markets
            && HomeSpot(st', o)
               == if market.id == o.marketId then Normalize(sdk, SpotOf(market, o.outcome)) else HomeSpot(st, o)
  {
    hide Normalize;
  }

  lemma KeyTail(sdk: Sdk, spotMarket: string, chainOrderId: string)
    ensures ChainOrderKey(sdk, spotMarket, chainOrderId) == Normalize(sdk, spotMarket) + (":" + chainOrderId)
  {
    hide Normalize;
  }

  lemma SameTail(a: string, b: string, tail: string)
    ensures a + tail == b + tail <==> a == b
  {
    if a + tail == b + tail {
      assert a == (a + tail)[..|a + tail| - |tail|];
    }
  }
}
