/** Block processing: receipts go to the waiting submitters, then each event of each
    successful transaction updates the book store and the index. */
module Processor {
  import opened Machine
  import opened Decimal
  import opened Slugs
  import opened SpotMarkets
  import opened SpotBooks
  import opened BookStores
  import opened IndexStores

  datatype OrderType = Limit(price: u64) | MarketOrder | Trigger(limitPrice: u64)

  datatype OrderCreatedEvent = OrderCreatedEvent(
    orderId: string, market: string, side: Side, orderType: OrderType, amount: u64, creator: string)

  datatype MarketCreatedEvent = MarketCreatedEvent(
    marketAddress: string, question: string, collateralToken: string, yesToken: string, noToken: string,
    yesSpotMarket: string, noSpotMarket: string, state: string, resolutionDeadline: u64)

  /** Decoded events; cancellations and updates name their spot only through the contract. */
  datatype TxEvent =
    | MarketCreated(details: MarketCreatedEvent)
    | MarketResolved(marketAddress: string)
    | OrderCreated(created: OrderCreatedEvent)
    | OrderCancelled(contract: Option<string>, orderId: string, side: Side, price: u64, cancelledAmount: u64)
    | OrderUpdated(contract: Option<string>, orderId: string, side: Side, price: u64, oldAmount: u64,
                   newAmount: u64, remainingAmount: u64)
    | OrderFilled(market: string, orderId: string, side: Side, price: u64, fillAmount: u64,
                  remainingAmount: u64, isFullyFilled: bool)
    | Other

  /** The chain's answer about one spot; the market info is asked for only when needed. */
  datatype ChainReply = Unavailable | Book(bestBids: seq<ChainLevel>, bestAsks: seq<ChainLevel>,
                                           info: Option<Option<u64>>)

  /** What one event meets outside: chain answers, and the order a hash map yields its keys in. */
  datatype Env = Env(replies: string -> ChainReply, spotOrder: seq<string>)

  /** `halted` is the indexing task after a panic. */
  datatype Indexer = Indexer(books: BookState, index: IndexState, halted: bool)

  // ---------------------------------------------------------------- hydration

  function HydratePrice(sdk: Sdk, index: IndexState, spot: string, info: Option<Option<u64>>): Option<Option<u64>> {
    var key := Normalize(sdk, spot);
    if key in index.lastTradePriceBySpot then Some(Some(index.lastTradePriceBySpot[key])) else info
  }

  /** The hydration a reply allows, if it allows one. */
  function HydrateChange(sdk: Sdk, index: IndexState, spot: string, reply: ChainReply): Option<Change> {
    if sdk.parseContract(spot).None? || reply.Unavailable? then None
    else
      match HydratePrice(sdk, index, spot, reply.info)
      case Some(price) => Some(Hydrate(reply.bestBids, reply.bestAsks, price))
      case None => None
  }

  function SpotHydrated(sdk: Sdk, s: Indexer, spot: string, reply: ChainReply): Indexer {
    match HydrateChange(sdk, s.index, spot, reply)
    case Some(Hydrate(bids, asks, price)) =>
      s.(books := Hydrated(s.books, Normalize(sdk, spot), Hydrate(bids, asks, price)))
    case _ => s
  }

  function SpotsHydrated(sdk: Sdk, s: Indexer, spots: seq<string>, replies: string -> ChainReply): Indexer
    decreases |spots|
  {
    if spots == [] then s
    else SpotsHydrated(sdk, SpotHydrated(sdk, s, spots[0], replies(spots[0])), spots[1..], replies)
  }

  /** The book before an update that needs a hydrated one; the flag says whether it is. */
  function Ensured(sdk: Sdk, s: Indexer, spot: string, reply: ChainReply): (Indexer, bool) {
    if Normalize(sdk, spot) in s.books.hydrated then (s, true)
    else (SpotHydrated(sdk, s, spot, reply), HydrateChange(sdk, s.index, spot, reply).Some?)
  }

  // ---------------------------------------------------------------- creating markets and orders

  ghost predicate FirstFree(slugs: set<string>, base: string, n: nat) {
    Candidate(base, n) !in slugs && forall i :: 0 <= i < n ==> Candidate(base, i) in slugs
  }

  /** The slug the allocation returns; None if the 32-bit suffix overflows first. */
  ghost function AllocatedSlug(slugs: set<string>, base: string): Option<string> {
    if exists n: nat :: n < I32_MAX - 1 && FirstFree(slugs, base, n) then
      var n: nat :| n < I32_MAX - 1 && FirstFree(slugs, base, n);
      Some(Candidate(base, n))
    else None
  }

  function NewMarket(e: MarketCreatedEvent, slug: string): Market {
    Market(V5(e.marketAddress), slug, e.question, None, e.marketAddress, e.collateralToken, e.yesToken, e.noToken,
           e.yesSpotMarket, e.noSpotMarket, e.state, e.resolutionDeadline)
  }

  ghost function MarketIndexed(sdk: Sdk, lower: char -> string, s: Indexer, env: Env, e: MarketCreatedEvent): Indexer {
    match AllocatedSlug(s.index.slugToMarketId.Keys, SlugOf(lower, e.question))
    case None => s.(halted := true)
    case Some(slug) =>
      SpotsHydrated(sdk, s.(index := MarketUpserted(sdk, s.index, NewMarket(e, slug))),
                    [e.yesSpotMarket, e.noSpotMarket], env.replies)
  }

  function PriceOf(t: OrderType): u64 {
    match t
    case Limit(price) => price
    case MarketOrder => 0
    case Trigger(limitPrice) => limitPrice
  }

  function SideName(side: Side): string {
    if side == Buy then "buy" else "sell"
  }

  function NewOrder(sdk: Sdk, index: IndexState, found: SpotMarketRef, e: OrderCreatedEvent,
                    spot: string, status: string): Order {
    var known := found.marketId in index.markets;
    Order(V5(ChainOrderKey(sdk, spot, e.orderId)), found.marketId,
          if known then index.markets[found.marketId].slug else "",
          if known then index.markets[found.marketId].question else "",
          found.outcome, SideName(e.side), FormatPricePieces(PriceOf(e.orderType)), FormatTokenAmount(e.amount), status)
  }

  /** The order is stored if the spot is known; `index_from_event` overrides status and fill. */
  function OrderIndexed(sdk: Sdk, index: IndexState, e: OrderCreatedEvent, spot: string,
                        status: string, filledRaw: u64): IndexState {
    match LookupSpotMarket(sdk, index, spot)
    case None => index
    case Some(found) =>
      OrderInserted(sdk, index, NewOrder(sdk, index, found, e, spot, status), e.creator, spot,
                    e.orderId, e.amount, filledRaw)
  }

  function IndexedOrder(sdk: Sdk, index: IndexState, e: OrderCreatedEvent, spot: string,
                        status: string): Option<Order> {
    match LookupSpotMarket(sdk, index, spot)
    case None => None
    case Some(found) => Some(NewOrder(sdk, index, found, e, spot, status))
  }

  function OrderToBook(sdk: Sdk, books: BookState, e: OrderCreatedEvent, spot: string, blockNum: u64): BookState {
    if e.orderType.Limit? then Created(books, Normalize(sdk, spot), e.side, e.orderType.price, e.amount, blockNum)
    else books
  }

  // ---------------------------------------------------------------- one event

  function CreatedHandled(sdk: Sdk, s: Indexer, env: Env, e: OrderCreatedEvent, blockNum: u64): Indexer {
    var spot := Normalize(sdk, e.market);
    if HasChainOrder(sdk, s.index, spot, e.orderId) then s
    else
      var (s', ready) := Ensured(sdk, s, spot, env.replies(spot));
      var books := if ready then OrderToBook(sdk, s'.books, e, spot, blockNum) else s'.books;
      s'.(books := books, index := OrderIndexed(sdk, s'.index, e, spot, "open", 0))
  }

  function ResolvedSpot(sdk: Sdk, index: IndexState, contract: Option<string>, orderId: string): Option<string> {
    match contract
    case Some(c) => Some(Normalize(sdk, c))
    case None => LookupSpotMarketForChainOrder(index, orderId)
  }

  function AllHydrated(sdk: Sdk, s: Indexer, env: Env): Indexer {
    SpotsHydrated(sdk, s, env.spotOrder, env.replies)
  }

  function CancelledHandled(sdk: Sdk, s: Indexer, env: Env, e: TxEvent, blockNum: u64): Indexer
    requires e.OrderCancelled?
  {
    match ResolvedSpot(sdk, s.index, e.contract, e.orderId)
    case None => AllHydrated(sdk, s, env)
    case Some(spot) =>
      s.(books := Cancelled(s.books, Normalize(sdk, spot), e.side, e.price, e.cancelledAmount, blockNum),
         index := IndexStores.OrderCancelled(sdk, s.index, spot, e.orderId))
  }

  function UpdatedHandled(sdk: Sdk, s: Indexer, env: Env, e: TxEvent, blockNum: u64): Indexer
    requires e.OrderUpdated?
  {
    match ResolvedSpot(sdk, s.index, e.contract, e.orderId)
    case None => AllHydrated(sdk, s, env)
    case Some(spot) =>
      var (s', ready) := Ensured(sdk, s, spot, env.replies(spot));
      var books := if ready
        then Updated(s'.books, Normalize(sdk, spot), e.side, e.price, e.oldAmount, e.newAmount,
                     e.remainingAmount, blockNum)
        else s'.books;
      s'.(books := books, index := OrderAmended(sdk, s'.index, spot, e.orderId, e.newAmount, e.remainingAmount))
  }

  function FilledHandled(sdk: Sdk, s: Indexer, env: Env, e: TxEvent, blockNum: u64): Indexer
    requires e.OrderFilled?
  {
    var spot := Normalize(sdk, e.market);
    var s := s.(index := TradeRecorded(sdk, s.index, spot, e.price));
    var (s', ready) := Ensured(sdk, s, spot, env.replies(spot));
    var books := if ready
      then Filled(s'.books, Normalize(sdk, spot), e.side, e.price, e.fillAmount, blockNum, e.price)
      else s'.books;
    s'.(books := books,
        index := IndexStores.OrderFilled(sdk, s'.index, spot, e.orderId, e.fillAmount,
                                         e.remainingAmount, e.isFullyFilled))
  }

  ghost function Handled(sdk: Sdk, lower: char -> string, s: Indexer, env: Env, e: TxEvent, blockNum: u64): Indexer {
    if s.halted then s
    else
      match e
      case MarketCreated(details) => MarketIndexed(sdk, lower, s, env, details)
      case MarketResolved(address) => s.(index := MarketStateSet(s.index, address, "Resolved"))
      case OrderCreated(created) => CreatedHandled(sdk, s, env, created, blockNum)
      case OrderCancelled(_, _, _, _, _) => CancelledHandled(sdk, s, env, e, blockNum)
      case OrderUpdated(_, _, _, _, _, _, _) => UpdatedHandled(sdk, s, env, e, blockNum)
      case OrderFilled(_, _, _, _, _, _, _) => FilledHandled(sdk, s, env, e, blockNum)
      case Other => s
  }

  /** One event of some block, and what it meets outside. */
  datatype Delivery = Delivery(event: TxEvent, env: Env, blockNum: u64)

  ghost function Delivered(sdk: Sdk, lower: char -> string, s: Indexer, run: seq<Delivery>): Indexer
    decreases |run|
  {
    if run == [] then s
    else Delivered(sdk, lower, Handled(sdk, lower, s, run[0].env, run[0].event, run[0].blockNum), run[1..])
  }

  ghost function AllHandled(sdk: Sdk, lower: char -> string, s: Indexer, events: seq<(TxEvent, Env)>,
                            blockNum: u64): Indexer
    decreases |events|
  {
    if events == [] then s
    else AllHandled(sdk, lower, Handled(sdk, lower, s, events[0].1, events[0].0, blockNum), events[1..], blockNum)
  }
}
