/** The market and order index: six maps updated in place under one lock. */
module IndexStores {
  import opened Machine
  import opened Text
  import opened Decimal
  import opened SpotMarkets

  /** Name-based identifiers: distinct names have distinct identifiers. */
  datatype Uuid = V5(name: string)

  datatype Market = Market(
    id: Uuid, slug: string, question: string, iconUrl: Option<string>, marketAddress: string,
    collateralToken: string, yesToken: string, noToken: string, yesSpotMarket: string,
    noSpotMarket: string, state: string, resolutionDeadline: u64)

  datatype SpotMarketRef = SpotMarketRef(marketId: Uuid, outcome: string)

  datatype Order = Order(
    id: Uuid, marketId: Uuid, marketSlug: string, question: string, outcome: string,
    side: string, price: string, size: string, status: string)

  datatype StoredOrder = StoredOrder(
    order: Order, userAddress: string, chainOrderId: string, filledRaw: u64, sizeRaw: u64)

  datatype IndexState = IndexState(
    markets: map<Uuid, Market>,
    slugToMarketId: map<string, Uuid>,
    spotToMarket: map<string, SpotMarketRef>,
    lastTradePriceBySpot: map<string, u64>,
    orders: map<Uuid, StoredOrder>,
    chainOrderIndex: map<string, Uuid>)

  const EMPTY_INDEX := IndexState(map[], map[], map[], map[], map[], map[])

  function SpotOf(market: Market, outcome: string): string {
    if outcome == "yes" then market.yesSpotMarket else market.noSpotMarket
  }

  predicate IsOpen(status: string) {
    status == "open" || status == "partial_filled"
  }

  // ---------------------------------------------------------------- reading

  function LookupSpotMarket(sdk: Sdk, st: IndexState, spotMarket: string): Option<SpotMarketRef> {
    var key := Normalize(sdk, spotMarket);
    if key in st.spotToMarket then Some(st.spotToMarket[key]) else None
  }

  predicate HasChainOrder(sdk: Sdk, st: IndexState, spotMarket: string, chainOrderId: string) {
    ChainOrderKey(sdk, spotMarket, chainOrderId) in st.chainOrderIndex
  }

  function GetEventBySlug(st: IndexState, slug: string): Option<Market> {
    if slug in st.slugToMarketId && st.slugToMarketId[slug] in st.markets
    then Some(st.markets[st.slugToMarketId[slug]]) else None
  }

  function SuffixMatches(st: IndexState, suffix: string): set<string> {
    set k | k in st.chainOrderIndex && EndsWith(k, suffix) :: StripSuffix(k, suffix)
  }

  /** The scan over all keys: one match gives its spot, none or several give nothing. */
  function LookupSpotMarketForChainOrder(st: IndexState, chainOrderId: string): Option<string> {
    var matches := SuffixMatches(st, ":" + chainOrderId);
    if exists s :: s in matches && matches == {s} then
      var s :| s in matches && matches == {s};
      Some(s)
    else None
  }

  function AsciiLowerChar(c: char): char {
    if 'A' <= c <= 'Z' then (c as int + 32) as char else c
  }

  function AsciiLower(s: string): string {
    seq(|s|, i requires 0 <= i < |s| => AsciiLowerChar(s[i]))
  }

  predicate EqIgnoreAsciiCase(a: string, b: string) {
    AsciiLower(a) == AsciiLower(b)
  }

  /** Equal, or the same ASCII letter in the other case. */
  predicate SameLetter(c: char, d: char) {
    || c == d
    || ('A' <= c <= 'Z' && d as int == c as int + ('a' as int - 'A' as int))
    || ('A' <= d <= 'Z' && c as int == d as int + ('a' as int - 'A' as int))
  }

  lemma SameLowerChar(c: char, d: char)
    ensures AsciiLowerChar(c) == AsciiLowerChar(d) <==> SameLetter(c, d)
  {
    assert AsciiLowerChar(c) as int == AsciiLowerChar(d) as int <==> AsciiLowerChar(c) == AsciiLowerChar(d);
  }

  /** Owners and addresses are compared letter by letter. */
  lemma CaseIgnored(a: string, b: string)
    ensures EqIgnoreAsciiCase(a, b) <==> |a| == |b| && forall i :: 0 <= i < |a| ==> SameLetter(a[i], b[i])
  {
    hide SameLetter, AsciiLowerChar;
    assert |AsciiLower(a)| == |a| && |AsciiLower(b)| == |b|;
    if |a| == |b| {
      forall i | 0 <= i < |a| ensures AsciiLower(a)[i] == AsciiLower(b)[i] <==> SameLetter(a[i], b[i]) {
        SameLowerChar(a[i], b[i]);
      }
      if forall i :: 0 <= i < |a| ==> SameLetter(a[i], b[i]) {
        assert AsciiLower(a) == AsciiLower(b);
      }
    }
  }

  /** The order, its chain id and the spot its market and outcome name. */
  function StoredOrderContext(st: IndexState, orderId: Uuid, userAddress: string): Option<(Order, string, string)> {
    if orderId !in st.orders then None
    else
      var stored := st.orders[orderId];
      if !EqIgnoreAsciiCase(stored.userAddress, userAddress) || stored.order.marketId !in st.markets then None
      else Some((stored.order, stored.chainOrderId, SpotOf(st.markets[stored.order.marketId], stored.order.outcome)))
  }

  function OrderCancelContext(st: IndexState, orderId: Uuid, userAddress: string): Option<(Order, string, string)> {
    if orderId in st.orders && IsOpen(st.orders[orderId].order.status)
    then StoredOrderContext(st, orderId, userAddress) else None
  }

  // ---------------------------------------------------------------- writing

  function Inherited(st: IndexState, market: Market): Market {
    if market.id !in st.markets then market
    else
      var existing := st.markets[market.id];
      market.(iconUrl := if market.iconUrl.None? then existing.iconUrl else market.iconUrl,
              slug := if market.slug == "" then existing.slug else market.slug)
  }

  function WithoutMarket(slugs: map<string, Uuid>, id: Uuid): map<string, Uuid> {
    map s | s in slugs && slugs[s] != id :: slugs[s]
  }

  function MarketUpserted(sdk: Sdk, st: IndexState, given: Market): IndexState {
    var market := Inherited(st, given);
    var yes, no := Normalize(sdk, market.yesSpotMarket), Normalize(sdk, market.noSpotMarket);
    st.(slugToMarketId := if market.slug == "" then st.slugToMarketId
                          else WithoutMarket(st.slugToMarketId, market.id)[market.slug := market.id],
        spotToMarket := st.spotToMarket[yes := SpotMarketRef(market.id, "yes")][no := SpotMarketRef(market.id, "no")],
        markets := st.markets[market.id := market.(yesSpotMarket := yes, noSpotMarket := no)])
  }

  function MarketStateSet(st: IndexState, marketAddress: string, state: string): IndexState {
    st.(markets := map id | id in st.markets ::
          if st.markets[id].marketAddress == marketAddress then st.markets[id].(state := state) else st.markets[id])
  }

  function TradeRecorded(sdk: Sdk, st: IndexState, spotMarket: string, price: u64): IndexState {
    st.(lastTradePriceBySpot := st.lastTradePriceBySpot[Normalize(sdk, spotMarket) := price])
  }

  function OrderInserted(sdk: Sdk, st: IndexState, order: Order, userAddress: string, spotMarket: string,
                         chainOrderId: string, sizeRaw: u64, filledRaw: u64): IndexState {
    st.(chainOrderIndex := st.chainOrderIndex[ChainOrderKey(sdk, spotMarket, chainOrderId) := order.id],
        orders := st.orders[order.id := StoredOrder(order, userAddress, chainOrderId, filledRaw, sizeRaw)])
  }

  /** The record a key points to, if there is one. */
  function Record(sdk: Sdk, st: IndexState, spotMarket: string, chainOrderId: string): Option<StoredOrder> {
    var key := ChainOrderKey(sdk, spotMarket, chainOrderId);
    if key in st.chainOrderIndex && st.chainOrderIndex[key] in st.orders
    then Some(st.orders[st.chainOrderIndex[key]]) else None
  }

  function WithRecord(sdk: Sdk, st: IndexState, spotMarket: string, chainOrderId: string,
                      stored: StoredOrder): IndexState
    requires Record(sdk, st, spotMarket, chainOrderId).Some?
  {
    st.(orders := st.orders[st.chainOrderIndex[ChainOrderKey(sdk, spotMarket, chainOrderId)] := stored])
  }

  function WithStatus(stored: StoredOrder, status: string): StoredOrder {
    stored.(order := stored.order.(status := status))
  }

  function Amended(stored: StoredOrder, newAmount: u64, remainingAmount: u64): StoredOrder {
    var resized := stored.(sizeRaw := newAmount, order := stored.order.(size := FormatTokenAmount(newAmount)));
    WithStatus(resized, if remainingAmount == 0 then "filled"
                        else if stored.filledRaw > 0 then "partial_filled" else "open")
  }

  function FilledBy(stored: StoredOrder, fillAmount: u64, remainingAmount: u64, isFullyFilled: bool): StoredOrder {
    WithStatus(stored.(filledRaw := SatAdd(stored.filledRaw, fillAmount)),
               if isFullyFilled || remainingAmount == 0 then "filled" else "partial_filled")
  }

  function OrderCancelled(sdk: Sdk, st: IndexState, spotMarket: string, chainOrderId: string): IndexState {
    match Record(sdk, st, spotMarket, chainOrderId)
    case Some(stored) => WithRecord(sdk, st, spotMarket, chainOrderId, WithStatus(stored, "cancelled"))
    case None => st
  }

  function OrderAmended(sdk: Sdk, st: IndexState, spotMarket: string, chainOrderId: string, newAmount: u64,
                        remainingAmount: u64): IndexState {
    match Record(sdk, st, spotMarket, chainOrderId)
    case Some(stored) => WithRecord(sdk, st, spotMarket, chainOrderId, Amended(stored, newAmount, remainingAmount))
    case None => st
  }

  function OrderFilled(sdk: Sdk, st: IndexState, spotMarket: string, chainOrderId: string, fillAmount: u64,
                       remainingAmount: u64, isFullyFilled: bool): IndexState {
    match Record(sdk, st, spotMarket, chainOrderId)
    case Some(stored) =>
      WithRecord(sdk, st, spotMarket, chainOrderId, FilledBy(stored, fillAmount, remainingAmount, isFullyFilled))
    case None => st
  }

  class IndexStore {
    const sdk: Sdk
    var markets: map<Uuid, Market>
    var slugToMarketId: map<string, Uuid>
    var spotToMarket: map<string, SpotMarketRef>
    var lastTradePriceBySpot: map<string, u64>
    var orders: map<Uuid, StoredOrder>
    var chainOrderIndex: map<string, Uuid>

    function State(): IndexState
      reads this
    {
      IndexState(markets, slugToMarketId, spotToMarket, lastTradePriceBySpot, orders, chainOrderIndex)
    }

    constructor (sdk: Sdk)
      ensures this.sdk == sdk && State() == EMPTY_INDEX
    {
      this.sdk := sdk;
      markets, slugToMarketId, spotToMarket := map[], map[], map[];
      lastTradePriceBySpot, orders, chainOrderIndex := map[], map[], map[];
    }

    method UpsertMarket(given: Market)
      modifies this
      ensures State() == MarketUpserted(sdk, old(State()), given)
    {
      hide Normalize;
      var market := given;
      if market.id in markets {
        var existing := markets[market.id];
        if market.iconUrl.None? {
          market := market.(iconUrl := existing.iconUrl);
        }
        if market.slug == "" {
          market := market.(slug := existing.slug);
        }
      }
      if market.slug != "" {
        slugToMarketId := WithoutMarket(slugToMarketId, market.id);
        slugToMarketId := slugToMarketId[market.slug := market.id];
      }
      var yes, no := Normalize(sdk, market.yesSpotMarket), Normalize(sdk, market.noSpotMarket);
      market := market.(yesSpotMarket := yes, noSpotMarket := no);
      spotToMarket := spotToMarket[yes := SpotMarketRef(market.id, "yes")];
      spotToMarket := spotToMarket[no := SpotMarketRef(market.id, "no")];
      markets := markets[market.id := market];
    }

    method UpdateMarketState(marketAddress: string, state: string)
      modifies this`markets
      ensures State() == MarketStateSet(old(State()), marketAddress, state)
    {
      var todo := markets.Keys;
      while todo != {}
        invariant markets.Keys == old(markets).Keys && todo <= markets.Keys
        invariant forall id :: id in markets ==>
          markets[id] == (if id !in todo && old(markets)[id].marketAddress == marketAddress
                          then old(markets)[id].(state := state) else old(markets)[id])
      {
        var id :| id in todo;
        if markets[id].marketAddress == marketAddress {
          markets := markets[id := markets[id].(state := state)];
        }
        todo := todo - {id};
      }
    }

    method RecordLastTradePrice(spotMarket: string, price: u64)
      modifies this`lastTradePriceBySpot
      ensures State() == TradeRecorded(sdk, old(State()), spotMarket, price)
    {
      hide Normalize;
      lastTradePriceBySpot := lastTradePriceBySpot[Normalize(sdk, spotMarket) := price];
    }

    method InsertOrder(order: Order, userAddress: string, spotMarket: string, chainOrderId: string,
                       sizeRaw: u64, filledRaw: u64)
      modifies this`chainOrderIndex, this`orders
      ensures State() == OrderInserted(sdk, old(State()), order, userAddress, spotMarket,
                                       chainOrderId, sizeRaw, filledRaw)
    {
      hide ChainOrderKey;
      var key := ChainOrderKey(sdk, spotMarket, chainOrderId);
      chainOrderIndex := chainOrderIndex[key := order.id];
      orders := orders[order.id := StoredOrder(order, userAddress, chainOrderId, filledRaw, sizeRaw)];
    }

    method UpdateOrderCancelled(spotMarket: string, chainOrderId: string)
      modifies this`orders
      ensures State() == OrderCancelled(sdk, old(State()), spotMarket, chainOrderId)
    {
      hide Normalize;
      var key := ChainOrderKey(sdk, spotMarket, chainOrderId);
      if key !in chainOrderIndex || chainOrderIndex[key] !in orders {
        return;
      }
      var id := chainOrderIndex[key];
      orders := orders[id := WithStatus(orders[id], "cancelled")];
    }

    method UpdateOrderAmount(spotMarket: string, chainOrderId: string, newAmount: u64, remainingAmount: u64)
      modifies this`orders
      ensures State() == OrderAmended(sdk, old(State()), spotMarket, chainOrderId, newAmount, remainingAmount)
    {
      hide Normalize, FormatTokenAmount;
      var key := ChainOrderKey(sdk, spotMarket, chainOrderId);
      if key !in chainOrderIndex || chainOrderIndex[key] !in orders {
        return;
      }
      var id := chainOrderIndex[key];
      var stored := orders[id].(sizeRaw := newAmount);
      stored := stored.(order := stored.order.(size := FormatTokenAmount(newAmount)));
      if remainingAmount == 0 {
        stored := WithStatus(stored, "filled");
      } else if stored.filledRaw > 0 {
        stored := WithStatus(stored, "partial_filled");
      } else {
        stored := WithStatus(stored, "open");
      }
      orders := orders[id := stored];
    }

    method UpdateOrderFill(spotMarket: string, chainOrderId: string, fillAmount: u64, remainingAmount: u64,
                           isFullyFilled: bool)
      modifies this`orders
      ensures State() == OrderFilled(sdk, old(State()), spotMarket, chainOrderId, fillAmount,
                                     remainingAmount, isFullyFilled)
    {
      hide Normalize, SatAdd;
      var key := ChainOrderKey(sdk, spotMarket, chainOrderId);
      if key !in chainOrderIndex || chainOrderIndex[key] !in orders {
        return;
      }
      var id := chainOrderIndex[key];
      var stored := orders[id];
      stored := stored.(filledRaw := SatAdd(stored.filledRaw, fillAmount));
      if isFullyFilled || remainingAmount == 0 {
        stored := WithStatus(stored, "filled");
      } else {
        stored := WithStatus(stored, "partial_filled");
      }
      orders := orders[id := stored];
    }
  }
}
