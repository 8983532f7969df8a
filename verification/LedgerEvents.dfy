/** Decoded block events as events of the ledger, and what handling them does to the two stores. */
module LedgerEvents {
  import opened Machine
  import opened SpotMarkets
  import opened SpotBooks
  import opened BookStores
  import opened IndexStores
  import opened Ledgers
  import opened Filings
  import opened Processor

  /** The ledger event a decoded limit-order event stands for, with its spot resolved. */
  function Meaning(sdk: Sdk, index: IndexState, e: TxEvent): Option<(OrderKey, OrderEvent)> {
    match e
    case OrderCreated(c) =>
      if c.orderType.Limit?
      then Some((OrderKey(Normalize(sdk, c.market), c.orderId), Create(c.side, c.orderType.price, c.amount))) else None
    case OrderCancelled(contract, id, side, price, amount) =>
      (match ResolvedSpot(sdk, index, contract, id)
       case Some(spot) => Some((OrderKey(spot, id), Cancel(side, price, amount)))
       case None => None)
    case OrderUpdated(contract, id, side, price, oldAmount, newAmount, remaining) =>
      (match ResolvedSpot(sdk, index, contract, id)
       case Some(spot) => Some((OrderKey(spot, id), Amend(side, price, oldAmount, newAmount, remaining)))
       case None => None)
    case OrderFilled(market, id, side, price, amount, remaining, isFullyFilled) =>
      Some((OrderKey(Normalize(sdk, market), id), Fill(side, price, amount, remaining, isFullyFilled)))
    case _ => None
  }

  predicate Redelivered(ledger: Ledger, k: OrderKey, e: OrderEvent) {
    e.Create? && k in ledger
  }

  /** Events about no order and no book. */
  predicate Unrelated(e: TxEvent) {
    e.MarketResolved? || e.Other?
  }

  // ---------------------------------------------------------------- what the stores do

  /** What block processing does to the index for a ledger event of a known order or spot. */
  ghost predicate IndexEffect(sdk: Sdk, mirror: Mirror, st: IndexState, st': IndexState, k: OrderKey, e: OrderEvent) {
    match e
    case Create(side, price, amount) =>
      exists stored: StoredOrder ::
        && st' == WithFiled(st, k, stored)
        && mirror(stored, k, LedgerOrder(side, price, amount, 0, false), false)
    case Cancel(_, _, _) => st' == IndexStores.OrderCancelled(sdk, st, k.spot, k.id)
    case Amend(_, _, _, newAmount, remaining) => st' == OrderAmended(sdk, st, k.spot, k.id, newAmount, remaining)
    case Fill(_, price, amount, remaining, isFullyFilled) =>
      st' == IndexStores.OrderFilled(sdk, TradeRecorded(sdk, st, k.spot, price), k.spot, k.id,
                                     amount, remaining, isFullyFilled)
  }

  /** Both stores change as the event says. */
  ghost predicate Follows(sdk: Sdk, mirror: Mirror, s: Indexer, t: Indexer, k: OrderKey, e: OrderEvent, blockNum: u64) {
    t.books == BookEffect(s.books, k.spot, e, blockNum) && IndexEffect(sdk, mirror, s.index, t.index, k, e)
  }

  lemma ReadyAlready(sdk: Sdk, s: Indexer, spot: string, reply: ChainReply)
    requires spot in s.books.hydrated && Normalize(sdk, spot) == spot
    ensures Ensured(sdk, s, spot, reply) == (s, true)
  {
    hide Normalize;
  }

  lemma CreatedShape(sdk: Sdk, s: Indexer, env: Env, c: OrderCreatedEvent, blockNum: u64, k: OrderKey)
    requires c.orderType.Limit? && k == OrderKey(Normalize(sdk, c.market), c.orderId)
    requires k.spot in s.books.hydrated && Normalize(sdk, k.spot) == k.spot
    requires KeyName(k) !in s.index.chainOrderIndex
    ensures CreatedHandled(sdk, s, env, c, blockNum)
         == s.(books := Created(s.books, k.spot, c.side, c.orderType.price, c.amount, blockNum),
               index := OrderIndexed(sdk, s.index, c, k.spot, "open", 0))
  {
    ReadyAlready(sdk, s, k.spot, env.replies(k.spot));
    NormalKey(sdk, k);
    hide Normalize, ChainOrderKey, KeyName, Ensured, OrderIndexed, Created;
  }

  lemma EffectKeepsHydrated(st: BookState, spot: string, e: OrderEvent, blockNum: u64)
    ensures BookEffect(st, spot, e, blockNum).hydrated == st.hydrated
  {
    hide Encode, QuoteFromBook, Apply, Send;
  }

  lemma CancelEffect(sdk: Sdk, mirror: Mirror, s: Indexer, env: Env, e: TxEvent, blockNum: u64, k: OrderKey)
    requires e.OrderCancelled? && ResolvedSpot(sdk, s.index, e.contract, e.orderId) == Some(k.spot) && e.orderId == k.id
    requires Normalize(sdk, k.spot) == k.spot
    ensures Follows(sdk, mirror, s, CancelledHandled(sdk, s, env, e, blockNum), k,
                    Cancel(e.side, e.price, e.cancelledAmount), blockNum)
  {
    hide Normalize, ResolvedSpot, BookStores.Cancelled, IndexStores.OrderCancelled, AllHydrated;
  }

  lemma AmendEffect(sdk: Sdk, mirror: Mirror, s: Indexer, env: Env, e: TxEvent, blockNum: u64, k: OrderKey)
    requires e.OrderUpdated? && ResolvedSpot(sdk, s.index, e.contract, e.orderId) == Some(k.spot) && e.orderId == k.id
    requires k.spot in s.books.hydrated && Normalize(sdk, k.spot) == k.spot
    ensures Follows(sdk, mirror, s, UpdatedHandled(sdk, s, env, e, blockNum), k,
                    Amend(e.side, e.price, e.oldAmount, e.newAmount, e.remainingAmount), blockNum)
  {
    ReadyAlready(sdk, s, k.spot, env.replies(k.spot));
    hide Normalize, ResolvedSpot, Ensured, Updated, OrderAmended, AllHydrated;
  }

  lemma FilledShape(sdk: Sdk, s: Indexer, env: Env, e: TxEvent, blockNum: u64, spot: string)
    requires e.OrderFilled? && spot == Normalize(sdk, e.market)
    requires spot in s.books.hydrated && Normalize(sdk, spot) == spot
    ensures FilledHandled(sdk, s, env, e, blockNum)
         == s.(books := Filled(s.books, spot, e.side, e.price, e.fillAmount, blockNum, e.price),
               index := IndexStores.OrderFilled(sdk, TradeRecorded(sdk, s.index, spot, e.price), spot, e.orderId,
                                                e.fillAmount, e.remainingAmount, e.isFullyFilled))
  {
    ReadyAlready(sdk, s.(index := TradeRecorded(sdk, s.index, spot, e.price)), spot, env.replies(spot));
    hide Normalize, Ensured, Filled, TradeRecorded, IndexStores.OrderFilled;
  }

  lemma FillEffect(sdk: Sdk, mirror: Mirror, s: Indexer, env: Env, e: TxEvent, blockNum: u64, k: OrderKey)
    requires e.OrderFilled? && k == OrderKey(Normalize(sdk, e.market), e.orderId)
    requires k.spot in s.books.hydrated && Normalize(sdk, k.spot) == k.spot
    ensures Follows(sdk, mirror, s, FilledHandled(sdk, s, env, e, blockNum), k,
                    Fill(e.side, e.price, e.fillAmount, e.remainingAmount, e.isFullyFilled), blockNum)
  {
    hide FilledHandled, Normalize, Created, BookStores.Cancelled, Updated, Filled, TradeRecorded,
         IndexStores.OrderCancelled, OrderAmended, IndexStores.OrderFilled, WithFiled;
    FilledShape(sdk, s, env, e, blockNum, k.spot);
  }

  lemma UpdateEffect(sdk: Sdk, mirror: Mirror, lower: char -> string, s: Indexer, env: Env, e: TxEvent, blockNum: u64)
    requires !s.halted && !e.OrderCreated? && Meaning(sdk, s.index, e).Some?
    requires var k := Meaning(sdk, s.index, e).value.0; k.spot in s.books.hydrated && Normalize(sdk, k.spot) == k.spot
    ensures var (k, ev) := Meaning(sdk, s.index, e).value;
            Follows(sdk, mirror, s, Handled(sdk, lower, s, env, e, blockNum), k, ev, blockNum)
  {
    hide Normalize, Follows, ResolvedSpot, CancelledHandled, UpdatedHandled, FilledHandled;
    var k := Meaning(sdk, s.index, e).value.0;
    if e.OrderCancelled? {
      CancelEffect(sdk, mirror, s, env, e, blockNum, k);
    } else if e.OrderUpdated? {
      AmendEffect(sdk, mirror, s, env, e, blockNum, k);
    } else {
      FillEffect(sdk, mirror, s, env, e, blockNum, k);
    }
  }
}
