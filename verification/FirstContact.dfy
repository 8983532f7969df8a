/** The first event about a book that is not hydrated yet: the handler asks the chain for the
    book and then applies the event on top of the reply. */
module FirstContact {
  import opened Machine
  import opened SpotMarkets
  import opened SpotBooks
  import opened BookStores
  import opened IndexStores
  import opened Ledgers
  import opened Processor
  import opened Redelivery
  import opened LedgerEvents
  import opened Hydrations

  /** The index a handler reads the trade price from; a fill has recorded its own by then. */
  function IndexAsked(sdk: Sdk, s: Indexer, k: OrderKey, e: OrderEvent): IndexState {
    if e.Fill? then TradeRecorded(sdk, s.index, k.spot, e.price) else s.index
  }

  /** The hydration the reply allows when this event arrives. */
  function Asked(sdk: Sdk, s: Indexer, env: Env, k: OrderKey, e: OrderEvent): Option<Change> {
    HydrateChange(sdk, IndexAsked(sdk, s, k, e), k.spot, env.replies(k.spot))
  }

  /** The books after hydrating, if the reply allows it, and applying the event. */
  function BooksAfter(sdk: Sdk, s: Indexer, env: Env, k: OrderKey, e: OrderEvent, blockNum: u64): BookState {
    match Asked(sdk, s, env, k, e)
    case None => s.books
    case Some(change) => BookEffect(Hydrated(s.books, k.spot, change), k.spot, e, blockNum)
  }

  lemma NotReady(sdk: Sdk, s: Indexer, spot: string, reply: ChainReply)
    requires spot !in s.books.hydrated && Normalize(sdk, spot) == spot
    ensures var change, (t, ready) := HydrateChange(sdk, s.index, spot, reply), Ensured(sdk, s, spot, reply);
            && ready == change.Some? && t.index == s.index
            && (change.Some? ==> change.value.Hydrate?)
            && t.books == (if change.Some? then Hydrated(s.books, spot, change.value) else s.books)
  {
    hide Normalize, Hydrated;
  }

  lemma CreateContact(sdk: Sdk, s: Indexer, env: Env, c: OrderCreatedEvent, blockNum: u64, k: OrderKey)
    requires c.orderType.Limit? && k == OrderKey(Normalize(sdk, c.market), c.orderId) && !IsIndexed(sdk, s, c)
    requires k.spot !in s.books.hydrated && Normalize(sdk, k.spot) == k.spot
    ensures CreatedHandled(sdk, s, env, c, blockNum).books
         == BooksAfter(sdk, s, env, k, Create(c.side, c.orderType.price, c.amount), blockNum)
  {
    hide Normalize, HasChainOrder, Ensured, HydrateChange, OrderIndexed, Created, BookStores.Cancelled, Updated, Filled,
         Hydrated;
    NotReady(sdk, s, k.spot, env.replies(k.spot));
  }

  lemma AmendContact(sdk: Sdk, s: Indexer, env: Env, e: TxEvent, blockNum: u64, k: OrderKey)
    requires e.OrderUpdated? && ResolvedSpot(sdk, s.index, e.contract, e.orderId) == Some(k.spot) && e.orderId == k.id
    requires k.spot !in s.books.hydrated && Normalize(sdk, k.spot) == k.spot
    ensures UpdatedHandled(sdk, s, env, e, blockNum).books
         == BooksAfter(sdk, s, env, k, Amend(e.side, e.price, e.oldAmount, e.newAmount, e.remainingAmount), blockNum)
  {
    NotReady(sdk, s, k.spot, env.replies(k.spot));
    hide Normalize, ResolvedSpot, Ensured, HydrateChange, OrderAmended, Updated, Hydrated, AllHydrated;
  }

  lemma FillContact(sdk: Sdk, s: Indexer, env: Env, e: TxEvent, blockNum: u64, k: OrderKey)
    requires e.OrderFilled? && k == OrderKey(Normalize(sdk, e.market), e.orderId)
    requires k.spot !in s.books.hydrated && Normalize(sdk, k.spot) == k.spot
    ensures FilledHandled(sdk, s, env, e, blockNum).books
         == BooksAfter(sdk, s, env, k,
                       Fill(e.side, e.price, e.fillAmount, e.remainingAmount, e.isFullyFilled), blockNum)
  {
    hide Normalize, Ensured, HydrateChange, IndexStores.OrderFilled, TradeRecorded, Created,
         BookStores.Cancelled, Updated, Filled, Hydrated;
    NotReady(sdk, s.(index := TradeRecorded(sdk, s.index, k.spot, e.price)), k.spot, env.replies(k.spot));
  }

  /** An event a handler hydrates for: not a cancellation, not a known order, no hydrated book. */
  predicate Contacts(sdk: Sdk, s: Indexer, e: TxEvent) {
    && !s.halted && !e.OrderCancelled? && Meaning(sdk, s.index, e).Some?
    && (e.OrderCreated? ==> !IsIndexed(sdk, s, e.created))
    && var k := Meaning(sdk, s.index, e).value.0;
       k.spot !in s.books.hydrated && Normalize(sdk, k.spot) == k.spot
  }

  lemma ContactHandled(sdk: Sdk, lower: char -> string, s: Indexer, env: Env, e: TxEvent, blockNum: u64)
    requires Contacts(sdk, s, e)
    ensures var (k, ev) := Meaning(sdk, s.index, e).value;
            Handled(sdk, lower, s, env, e, blockNum).books == BooksAfter(sdk, s, env, k, ev, blockNum)
  {
    hide Normalize, BooksAfter, ResolvedSpot, CreatedHandled, UpdatedHandled, FilledHandled, IsIndexed;
    var k := Meaning(sdk, s.index, e).value.0;
    if e.OrderCreated? {
      CreateContact(sdk, s, env, e.created, blockNum, k);
    } else if e.OrderUpdated? {
      AmendContact(sdk, s, env, e, blockNum, k);
    } else {
      FillContact(sdk, s, env, e, blockNum, k);
    }
  }

  /** The handler can hydrate the book: a fill has recorded its own price, other events need one
      that the index or the chain knows. */
  predicate ReplyUsable(sdk: Sdk, s: Indexer, reply: ChainReply, k: OrderKey, e: OrderEvent) {
    && sdk.parseContract(k.spot).Some? && reply.Book?
    && (e.Fill? || k.spot in s.index.lastTradePriceBySpot || reply.info.Some?)
  }

  lemma AskedExact(sdk: Sdk, s: Indexer, env: Env, k: OrderKey, e: OrderEvent)
    requires Normalize(sdk, k.spot) == k.spot
    ensures var change, reply := Asked(sdk, s, env, k, e), env.replies(k.spot);
            && (change.Some? <==> ReplyUsable(sdk, s, reply, k, e))
            && (change.Some? ==>
                 && change.value.Hydrate? && reply.Book?
                 && forall side, price :: ShownBy(change.value, side, price) == ReplySize(reply, side, price))
  {
    hide Normalize, LoadLevels;
  }

  /** After a creation, amendment or fill that found its book not hydrated: without a usable reply
      the books are as before. With one, the event's level is the ledger's sum exactly when the
      reply showed the sum from before the event, save for the bounds of the arithmetic; every
      other level is what the reply showed. A reply that came too late, or too early, stays wrong. */
  lemma FirstContactExact(sdk: Sdk, lower: char -> string, ledger: Ledger, s: Indexer, env: Env,
                          e: TxEvent, blockNum: u64)
    requires Contacts(sdk, s, e)
    requires var (k, ev) := Meaning(sdk, s.index, e).value;
             Sound(ledger) && WellFormed(ledger, k, ev)
    ensures var (k, ev) := Meaning(sdk, s.index, e).value;
            var reply, t := env.replies(k.spot), Handled(sdk, lower, s, env, e, blockNum);
            if !ReplyUsable(sdk, s, reply, k, ev) then t.books == s.books
            else
              && (BookAt(t.books, k.spot).Size(ev.side, ev.price)
                  == LevelSum(LedgerAfter(ledger, k, ev), k.spot, ev.side, ev.price)
                  <==> Reaches(ReplySize(reply, ev.side, ev.price), LevelSum(ledger, k.spot, ev.side, ev.price),
                               RemainingIn(ledger, k), OrderAfter(ledger, k, ev).Remaining()))
              && (forall side, price: u64 :: (side, price) != (ev.side, ev.price) ==>
                    BookAt(t.books, k.spot).Size(side, price) == ReplySize(reply, side, price))
  {
    var (k, ev) := Meaning(sdk, s.index, e).value;
    hide Normalize, Meaning, Handled, Asked, Hydrated, BookEffect, LevelSum, LedgerAfter, Reaches, ShownBy, ReplySize,
         OrderAfter, RemainingIn, Moving, Sound, WellFormed, ReplyUsable, IsIndexed;
    ContactHandled(sdk, lower, s, env, e, blockNum);
    AskedExact(sdk, s, env, k, ev);
    var asked := Asked(sdk, s, env, k, ev);
    if asked.Some? {
      HydrateThenApplyExact(ledger, s.books, k, ev, asked.value, blockNum);
      HydrateThenApply(ledger, s.books, k, ev, asked.value, blockNum);
      forall side, price: u64 | (side, price) != (ev.side, ev.price)
        ensures BookAt(Hydrated(s.books, k.spot, asked.value), k.spot).Size(side, price)
             == ReplySize(env.replies(k.spot), side, price)
      {
        HydratedSize(s.books, k.spot, asked.value, k.spot, side, price);
      }
    }
  }
}
