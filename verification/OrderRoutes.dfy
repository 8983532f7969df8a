/** The HTTP handlers that write the stores: cancelling on request and indexing an event that
    a client saw before the block did. */
module OrderRoutes {
  import opened Machine
  import opened Decimal
  import opened SpotMarkets
  import opened SpotBooks
  import opened BookStores
  import opened IndexStores
  import opened IndexRuns
  import opened Processor
  import opened Records
  import opened ProcessBlock
  import opened Redelivery
  import opened Ledgers

  datatype Reply = Done | NotFound | NotCancellable

  // ---------------------------------------------------------------- mark_cancelled

  function CancelReply(st: IndexState, id: Uuid, userAddress: string): Reply {
    match StoredOrderContext(st, id, userAddress)
    case None => NotFound
    case Some((order, _, _)) => if order.status == "cancelled" || IsOpen(order.status) then Done else NotCancellable
  }

  /** The write section, with the context that the read section returned. */
  function CancelledWith(sdk: Sdk, context: Option<(Order, string, string)>, st: IndexState): IndexState {
    match context
    case None => st
    case Some((order, chainOrderId, spot)) =>
      if order.status != "cancelled" && IsOpen(order.status)
      then IndexStores.OrderCancelled(sdk, st, spot, chainOrderId) else st
  }

  function MarkedCancelled(sdk: Sdk, st: IndexState, id: Uuid, userAddress: string): IndexState {
    CancelledWith(sdk, StoredOrderContext(st, id, userAddress), st)
  }

  method MarkCancelled(index: IndexStore, id: Uuid, userAddress: string) returns (reply: Reply)
    modifies index`orders
    ensures index.State() == MarkedCancelled(index.sdk, old(index.State()), id, userAddress)
    ensures reply == CancelReply(old(index.State()), id, userAddress)
  {
    hide IndexStores.OrderCancelled, EqIgnoreAsciiCase;
    match StoredOrderContext(index.State(), id, userAddress)
    case None =>
      return NotFound;
    case Some((order, chainOrderId, spot)) =>
      if order.status == "cancelled" {
        return Done;
      }
      if order.status != "open" && order.status != "partial_filled" {
        return NotCancellable;
      }
      index.UpdateOrderCancelled(spot, chainOrderId);
      reply := Done;
  }

  /** In every state a run reaches, the answer is Done exactly for the client's own orders that are
      open or cancelled already; then this order is cancelled afterwards and nothing else changed.
      Any other answer means nothing changed. */
  lemma MarkCancelledExact(sdk: Sdk, actions: seq<Action>, r: RunState, id: Uuid, userAddress: string)
    requires RunsFixed(sdk, START, actions, r)
    ensures var st := r.index;
            var st' := MarkedCancelled(sdk, st, id, userAddress);
            && (CancelReply(st, id, userAddress) == Done ==>
                 && id in st.orders && EqIgnoreAsciiCase(st.orders[id].userAddress, userAddress)
                 && st' == st.(orders := st.orders[id := WithStatus(st.orders[id], "cancelled")]))
            && (CancelReply(st, id, userAddress) != Done ==> st' == st)
            && (CancelReply(st, id, userAddress) == NotFound
                <==> id !in st.orders || !EqIgnoreAsciiCase(st.orders[id].userAddress, userAddress))
            && (CancelReply(st, id, userAddress) == Done
                <==> && id in st.orders && EqIgnoreAsciiCase(st.orders[id].userAddress, userAddress)
                     && var status := st.orders[id].order.status;
                        status == "cancelled" || status == "open" || status == "partial_filled")
  {
    hide RunsFixed, EqIgnoreAsciiCase, HomeSpot, SpotOf, IndexStores.OrderCancelled, Consistent, SpotsTrue;
    if id in r.index.orders {
      ReachedContext(sdk, actions, r, id);
      var order := r.index.orders[id].order;
      assert StoredOrderContext(r.index, id, userAddress)
          == if EqIgnoreAsciiCase(r.index.orders[id].userAddress, userAddress)
             then Some((order, r.index.orders[id].chainOrderId, HomeSpot(r.index, order))) else None by {
        HomeSpotIs(r.index, order);
      }
    }
  }

  /** The same with the handler's sections apart: the read decides, in the state it sees, and
      the write, after any further steps, cancels exactly that order, whatever its status has
      become in between. */
  lemma MarkCancelledLate(sdk: Sdk, before: seq<Action>, early: RunState, between: seq<Action>, late: RunState,
                          id: Uuid, userAddress: string)
    requires RunsFixed(sdk, START, before, early) && RunsFixed(sdk, early, between, late)
    ensures var context := StoredOrderContext(early.index, id, userAddress);
            var st, st' := late.index, CancelledWith(sdk, context, late.index);
            && (context.Some? <==>
                 id in early.index.orders && EqIgnoreAsciiCase(early.index.orders[id].userAddress, userAddress))
            && (if context.Some? && IsOpen(early.index.orders[id].order.status)
                then id in st.orders && st' == st.(orders := st.orders[id := WithStatus(st.orders[id], "cancelled")])
                else st' == st)
  {
    hide RunsFixed, EqIgnoreAsciiCase, HomeSpot, SpotOf, IndexStores.OrderCancelled;
    if id in early.index.orders {
      MarkCancelledHitsOne(sdk, before, early, between, late, id);
      HomeSpotIs(early.index, early.index.orders[id].order);
    }
  }

  lemma HomeSpotIs(st: IndexState, order: Order)
    requires order.marketId in st.markets
    ensures HomeSpot(st, order) == SpotOf(st.markets[order.marketId], order.outcome)
  {
  }

  /** In every reached state the context of a stored order leads back to its record. */
  lemma ReachedContext(sdk: Sdk, actions: seq<Action>, r: RunState, id: Uuid)
    requires RunsFixed(sdk, START, actions, r) && id in r.index.orders
    ensures var st := r.index;
            var stored := st.orders[id];
            && stored.order.marketId in st.markets
            && IndexStores.OrderCancelled(sdk, st, HomeSpot(st, stored.order), stored.chainOrderId)
               == st.(orders := st.orders[id := WithStatus(stored, "cancelled")])
  {
    assert RunsFixed(sdk, r, [], r);
    MarkCancelledHitsOne(sdk, actions, r, [], r, id);
  }

  /** The context for a client's cancellation exists exactly for its own open orders, and its
      spot and chain id lead back to the key the order is filed under. */
  lemma CancelContextExact(sdk: Sdk, actions: seq<Action>, r: RunState, id: Uuid, userAddress: string)
    requires RunsFixed(sdk, START, actions, r)
    ensures var st, context := r.index, OrderCancelContext(r.index, id, userAddress);
            && (context.Some? <==>
                 && id in st.orders && EqIgnoreAsciiCase(st.orders[id].userAddress, userAddress)
                 && IsOpen(st.orders[id].order.status))
            && (context.Some? ==>
                 var (order, chainOrderId, spot) := context.value;
                 var key := ChainOrderKey(sdk, spot, chainOrderId);
                 order == st.orders[id].order && key in st.chainOrderIndex && st.chainOrderIndex[key] == id)
  {
    hide RunsFixed, EqIgnoreAsciiCase, HomeSpot, SpotOf, ChainOrderKey, IsOpen;
    if id in r.index.orders {
      ReachedKey(sdk, actions, r, id);
      HomeSpotIs(r.index, r.index.orders[id].order);
    }
  }

  lemma ReachedKey(sdk: Sdk, actions: seq<Action>, r: RunState, id: Uuid)
    requires RunsFixed(sdk, START, actions, r) && id in r.index.orders
    ensures var st := r.index;
            var stored := st.orders[id];
            && stored.order.marketId in st.markets
            && var key := ChainOrderKey(sdk, HomeSpot(st, stored.order), stored.chainOrderId);
               key in st.chainOrderIndex && st.chainOrderIndex[key] == id
  {
    EmptyConsistent();
    EmptyTrue(sdk);
    RunsTrue(sdk, START, actions, r);
    hide RunsFixed, ChainOrderKey, SlugsInverse, MarketsKnown, HomeSpot, Filed;
    assert Rebuilds(sdk, r.index, id);
    assert id.name in r.index.chainOrderIndex;
  }

  // ---------------------------------------------------------------- index_from_event

  /** The order enters the book only if it is new and the client does not ask otherwise; the
      record is written either way. The book change carries block number 0. */
  function FromEvent(sdk: Sdk, s: Indexer, e: OrderCreatedEvent, skipBook: bool, status: string,
                     filledRaw: u64): Indexer {
    var spot := Normalize(sdk, e.market);
    var books := if IsIndexed(sdk, s, e) || skipBook then s.books else OrderToBook(sdk, s.books, e, spot, 0);
    s.(books := books, index := OrderIndexed(sdk, s.index, e, spot, status, filledRaw))
  }

  method IndexFromEvent(tasks: Tasks, e: OrderCreatedEvent, skipBook: bool, status: string, filledRaw: u64)
    returns (indexed: Option<Order>)
    requires tasks.Valid()
    modifies tasks.index, tasks.books
    ensures tasks.Valid()
    ensures tasks.State() == FromEvent(tasks.sdk, old(tasks.State()), e, skipBook, status, filledRaw)
    ensures indexed == IndexedOrder(tasks.sdk, old(tasks.index.State()), e, Normalize(tasks.sdk, e.market), status)
    ensures StoresOrder(tasks.sdk, old(tasks.index.State()), tasks.index.State(), e, Normalize(tasks.sdk, e.market),
                        status, filledRaw, indexed)
  {
    hide StoresOrder, Normalize, ChainOrderKey, Created, OrderIndexed, IndexedOrder, Explains;
    var spot := Normalize(tasks.sdk, e.market);
    var isNew := !HasChainOrder(tasks.sdk, tasks.index.State(), spot, e.orderId);
    if isNew && !skipBook && e.orderType.Limit? {
      tasks.books.ApplyCreated(spot, e.side, e.orderType.price, e.amount, 0);
    }
    indexed := tasks.IndexOrderCreated(e, spot, status, filledRaw);
  }

  /** The handler writes the index as some run of index steps does. */
  lemma FromEventKeepsIndex(sdk: Sdk, r: RunState, s: Indexer, e: OrderCreatedEvent, skipBook: bool,
                            status: string, filledRaw: u64)
    requires Consistent(r) && r.index == s.index
    ensures Consistent(RunState(FromEvent(sdk, s, e, skipBook, status, filledRaw).index, {}))
  {
    hide Normalize, Consistent, OrderIndexed, Runs, IndexingActions, OrderToBook, IsIndexed;
    NormalizeIdempotent(sdk, e.market);
    var t := IndexingIsRun(sdk, r, e, Normalize(sdk, e.market), status, filledRaw);
    RunsConsistent(sdk, r, IndexingActions(sdk, r.index, e, Normalize(sdk, e.market), status, filledRaw), t);
    Unseen(t);
  }

  lemma FromEventIndexes(sdk: Sdk, s: Indexer, e: OrderCreatedEvent, skipBook: bool, status: string, filledRaw: u64)
    ensures IsIndexed(sdk, FromEvent(sdk, s, e, skipBook, status, filledRaw), e)
       <==> IsIndexed(sdk, s, e) || LookupSpotMarket(sdk, s.index, Normalize(sdk, e.market)).Some?
  {
    hide Normalize, ChainOrderKey, OrderToBook, NewOrder;
  }

  lemma IndexedTwice(sdk: Sdk, index: IndexState, e: OrderCreatedEvent, spot: string, status: string, filledRaw: u64)
    ensures OrderIndexed(sdk, OrderIndexed(sdk, index, e, spot, status, filledRaw), e, spot, status, filledRaw)
         == OrderIndexed(sdk, index, e, spot, status, filledRaw)
  {
    hide Normalize, ChainOrderKey, FormatPricePieces, FormatTokenAmount;
  }

  /** For a known spot, posting the same event twice, one request after the other, does what
      posting it once does. */
  lemma FromEventTwice(sdk: Sdk, s: Indexer, e: OrderCreatedEvent, skipBook: bool, again: bool,
                       status: string, filledRaw: u64)
    requires LookupSpotMarket(sdk, s.index, Normalize(sdk, e.market)).Some?
    ensures var once := FromEvent(sdk, s, e, skipBook, status, filledRaw);
            FromEvent(sdk, once, e, again, status, filledRaw) == once
  {
    FromEventIndexes(sdk, s, e, skipBook, status, filledRaw);
    IndexedTwice(sdk, s.index, e, Normalize(sdk, e.market), status, filledRaw);
    hide Normalize, IsIndexed, OrderIndexed, OrderToBook;
  }

  /** A new limit order that arrives over HTTP and then, once the request has ended, in a block
      enters its level exactly when the request did not skip the book: the block never adds it. */
  lemma CountedByFirstPath(sdk: Sdk, lower: char -> string, s: Indexer, env: Env, e: OrderCreatedEvent, skipBook: bool,
                           status: string, filledRaw: u64, blockNum: u64)
    requires !IsIndexed(sdk, s, e) && LookupSpotMarket(sdk, s.index, Normalize(sdk, e.market)).Some?
    requires e.orderType.Limit? && e.orderType.price > 0 && e.amount > 0
    ensures var spot, price := Normalize(sdk, e.market), e.orderType.price;
            var t := Handled(sdk, lower, FromEvent(sdk, s, e, skipBook, status, filledRaw), env,
                             OrderCreated(e), blockNum);
            BookAt(t.books, spot).Size(e.side, price)
            == SatAdd(BookAt(s.books, spot).Size(e.side, price), if skipBook then 0 else e.amount)
  {
    FromEventIndexes(sdk, s, e, skipBook, status, filledRaw);
    KnownIsSkipped(sdk, lower, FromEvent(sdk, s, e, skipBook, status, filledRaw), env, e, blockNum);
    NormalizeIdempotent(sdk, e.market);
    hide Normalize, IsIndexed, Handled, OrderIndexed, Changed;
    ChangedSizes(s.books, Normalize(sdk, e.market), LevelChange(e.side, e.orderType.price, e.amount, true, 0, None));
  }
}
