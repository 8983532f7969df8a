/** The loops of block processing over the shared stores, one call per locked section. */
module ProcessBlock {
  import opened Machine
  import opened Decimal
  import opened Slugs
  import opened SpotMarkets
  import opened BookStores
  import opened IndexStores
  import opened Processor
  import opened Hydrations
  import opened Records
  import SubmitWait

  /** One executed transaction: its submit digest, receipt and decoded events. */
  datatype TxResult = TxResult(digest: string, receipt: SubmitWait.Receipt, events: seq<(TxEvent, Env)>)

  function ReceiptsDelivered(w: SubmitWait.Wires, txs: seq<TxResult>): SubmitWait.Wires {
    if txs == [] then w
    else
      var last := txs[|txs| - 1];
      SubmitWait.Completed(ReceiptsDelivered(w, txs[..|txs| - 1]), last.digest, last.receipt).0
  }

  /** The receipt of the first transaction of the block with this digest. */
  function FirstReceipt(txs: seq<TxResult>, digest: string): Option<SubmitWait.Receipt> {
    if txs == [] then None
    else
      var before, last := FirstReceipt(txs[..|txs| - 1], digest), txs[|txs| - 1];
      if before.Some? then before else if last.digest == digest then Some(last.receipt) else None
  }

  /** A block hands each waiter the first receipt under its digest, whatever else it contains,
      and leaves the others waiting. */
  lemma {:induction false} ReceiptsReachWaiters(w: SubmitWait.Wires, txs: seq<TxResult>, digest: string)
    requires SubmitWait.Separate(w) && digest in w.pending
    requires w.pending[digest] in w.slots && w.slots[w.pending[digest]].Empty?
    ensures var channel, w' := w.pending[digest], ReceiptsDelivered(w, txs);
            && (forall d :: d in w'.pending ==> d in w.pending && w'.pending[d] == w.pending[d])
            && channel in w'.slots
            && (digest in w'.pending <==> FirstReceipt(txs, digest).None?)
            && w'.slots[channel] == (match FirstReceipt(txs, digest)
                                     case Some(receipt) => SubmitWait.Full(receipt)
                                     case None => SubmitWait.Empty)
  {
    if txs != [] {
      ReceiptsReachWaiters(w, txs[..|txs| - 1], digest);
    }
  }

  /** The events of the transactions that succeeded, in block order. */
  function SuccessfulEvents(txs: seq<TxResult>): seq<(TxEvent, Env)> {
    if txs == [] then []
    else
      var last := txs[|txs| - 1];
      SuccessfulEvents(txs[..|txs| - 1]) + if last.receipt.success then last.events else []
  }

  /** The two stores after a block. */
  ghost function BlockHandled(sdk: Sdk, lower: char -> string, s: Indexer, txs: seq<TxResult>,
                              blockNum: u64): Indexer {
    AllHandled(sdk, lower, s, SuccessfulEvents(txs), blockNum)
  }

  lemma {:induction false} HandledInTurn(sdk: Sdk, lower: char -> string, s: Indexer, a: seq<(TxEvent, Env)>,
                                         b: seq<(TxEvent, Env)>, blockNum: u64)
    ensures AllHandled(sdk, lower, s, a + b, blockNum)
         == AllHandled(sdk, lower, AllHandled(sdk, lower, s, a, blockNum), b, blockNum)
    decreases |a|
  {
    hide Handled;
    if a == [] {
      assert a + b == b;
    } else {
      assert (a + b)[1..] == a[1..] + b;
      HandledInTurn(sdk, lower, Handled(sdk, lower, s, a[0].1, a[0].0, blockNum), a[1..], b, blockNum);
    }
  }

  /** The slug search over a list is the search over its elements. */
  lemma AllocationIs(slugs: set<string>, base: string, existing: seq<string>, slug: Option<string>, tried: nat)
    requires forall x :: x in existing <==> x in slugs
    requires slug.None? <==> Exhausted(existing, base)
    requires slug.Some? ==> slug.value == Candidate(base, tried) && FirstFree(slugs, base, tried)
    ensures slug == AllocatedSlug(slugs, base)
  {
  }

  method ListSlugs(index: IndexStore) returns (slugs: seq<string>)
    ensures forall x :: x in slugs <==> x in index.slugToMarketId
  {
    slugs := [];
    var todo := index.slugToMarketId.Keys;
    while todo != {}
      invariant forall x :: x in slugs || x in todo <==> x in index.slugToMarketId
      decreases |todo|
    {
      var s :| s in todo;
      slugs := slugs + [s];
      todo := todo - {s};
    }
  }

  method AllocateMarketSlug(index: IndexStore, lower: char -> string, question: string) returns (slug: Option<string>)
    requires LowercaseTable(lower)
    ensures slug == AllocatedSlug(index.slugToMarketId.Keys, SlugOf(lower, question))
  {
    var existing := ListSlugs(index);
    ghost var tried: nat;
    slug, tried := AllocateUniqueSlug(lower, existing, question);
    AllocationIs(index.slugToMarketId.Keys, SlugOf(lower, question), existing, slug, tried);
  }

  class Tasks {
    const sdk: Sdk
    const index: IndexStore
    const books: BookStore
    const wait: SubmitWait.SubmitWaitRegistry
    var halted: bool

    ghost predicate Valid()
      reads this, index, books
    {
      books.Valid() && books.sdk == sdk && index.sdk == sdk
    }

    function State(): Indexer
      reads this, index, books
    {
      Indexer(books.State(), index.State(), halted)
    }

    constructor (sdk: Sdk, index: IndexStore, books: BookStore, wait: SubmitWait.SubmitWaitRegistry)
      requires books.Valid() && books.sdk == sdk && index.sdk == sdk
      ensures this.sdk == sdk && this.index == index && this.books == books && this.wait == wait
      ensures Valid() && !halted
    {
      this.sdk, this.index, this.books, this.wait := sdk, index, books, wait;
      halted := false;
    }

    method HydrateSpot(spot: string, reply: ChainReply) returns (ok: bool)
      requires Valid()
      modifies books
      ensures Valid() && halted == old(halted)
      ensures State() == SpotHydrated(sdk, old(State()), spot, reply)
      ensures HydratesExactly(sdk, old(State()), State(), spot, reply, ok)
    {
      hide Normalize, Hydrated, Explains, HydratesExactly;
      HydrationExact(sdk, State(), spot, reply);
      if sdk.parseContract(spot).None? || reply.Unavailable? {
        return false;
      }
      var price := HydratePrice(sdk, index.State(), spot, reply.info);
      if price.None? {
        return false;
      }
      books.HydrateFromChain(spot, reply.bestBids, reply.bestAsks, price.value);
      ok := true;
    }

    method EnsureHydrated(spot: string, reply: ChainReply) returns (ok: bool)
      requires Valid()
      modifies books
      ensures Valid() && halted == old(halted)
      ensures (State(), ok) == Ensured(sdk, old(State()), spot, reply)
      ensures EnsuresExactly(sdk, old(State()), State(), spot, reply, ok)
    {
      hide Normalize, SpotHydrated, HydrateChange, Explains, HydratedBy, CanHydrate;
      HydrationExact(sdk, State(), spot, reply);
      if Normalize(sdk, spot) in books.chainHydrated {
        return true;
      }
      ok := HydrateSpot(spot, reply);
    }

    method HydrateSpots(spots: seq<string>, replies: string -> ChainReply)
      requires Valid()
      modifies books
      ensures Valid() && halted == old(halted)
      ensures State() == SpotsHydrated(sdk, old(State()), spots, replies)
      ensures forall key :: BookRefreshed(sdk, old(State()), State(), spots, replies, key)
    {
      hide SpotHydrated, HydrateChange, Explains, HydratesExactly, BookRefreshed;
      for i := 0 to |spots|
        invariant Valid() && halted == old(halted)
        invariant SpotsHydrated(sdk, State(), spots[i..], replies) == SpotsHydrated(sdk, old(State()), spots, replies)
      {
        assert spots[i..][1..] == spots[i + 1..];
        var _ := HydrateSpot(spots[i], replies(spots[i]));
      }
      forall key ensures BookRefreshed(sdk, old(State()), State(), spots, replies, key) {
        HydrationsExact(sdk, old(State()), spots, replies, key);
      }
    }

    method IndexMarketCreated(lower: char -> string, env: Env, e: MarketCreatedEvent)
      requires Valid() && LowercaseTable(lower)
      modifies this, index, books
      ensures Valid()
      ensures State() == MarketIndexed(sdk, lower, old(State()), env, e)
      ensures CreatesMarket(sdk, lower, old(State()), State(), env, e)
    {
      hide CreatesMarket, BookRefreshed, MarketUpserted, SpotsHydrated, AllocatedSlug, SlugOf, Explains, LowercaseTable;
      MarketExact(sdk, lower, State(), env, e);
      var slug := AllocateMarketSlug(index, lower, e.question);
      if slug.None? {
        halted := true;
        return;
      }
      index.UpsertMarket(NewMarket(e, slug.value));
      HydrateSpots([e.yesSpotMarket, e.noSpotMarket], env.replies);
    }

    method IndexOrderCreated(e: OrderCreatedEvent, spot: string, status: string, filledRaw: u64)
      returns (indexed: Option<Order>)
      requires Valid()
      modifies index
      ensures Valid()
      ensures indexed == IndexedOrder(sdk, old(index.State()), e, spot, status)
      ensures index.State() == OrderIndexed(sdk, old(index.State()), e, spot, status, filledRaw)
      ensures StoresOrder(sdk, old(index.State()), index.State(), e, spot, status, filledRaw, indexed)
    {
      hide StoresOrder, Normalize, ChainOrderKey, FormatPricePieces, FormatTokenAmount, Explains;
      OrderExact(sdk, index.State(), e, spot, status, filledRaw);
      var found := LookupSpotMarket(sdk, index.State(), spot);
      if found.None? {
        return None;
      }
      var order := NewOrder(sdk, index.State(), found.value, e, spot, status);
      index.InsertOrder(order, e.creator, spot, e.orderId, e.amount, filledRaw);
      indexed := Some(order);
    }

    method HandleCreated(env: Env, e: OrderCreatedEvent, blockNum: u64)
      requires Valid()
      modifies index, books
      ensures Valid() && halted == old(halted)
      ensures State() == CreatedHandled(sdk, old(State()), env, e, blockNum)
    {
      hide Normalize, ChainOrderKey, Ensured, Created, OrderIndexed, Explains;
      var spot := Normalize(sdk, e.market);
      if HasChainOrder(sdk, index.State(), spot, e.orderId) {
        return;
      }
      var ready := EnsureHydrated(spot, env.replies(spot));
      if ready && e.orderType.Limit? {
        books.ApplyCreated(spot, e.side, e.orderType.price, e.amount, blockNum);
      }
      var _ := IndexOrderCreated(e, spot, "open", 0);
    }

    method HandleCancelled(env: Env, e: TxEvent, blockNum: u64)
      requires Valid() && e.OrderCancelled?
      modifies index, books
      ensures Valid() && halted == old(halted)
      ensures State() == CancelledHandled(sdk, old(State()), env, e, blockNum)
    {
      hide Normalize, ResolvedSpot, SpotsHydrated, BookStores.Cancelled, IndexStores.OrderCancelled, Explains;
      var spot := ResolvedSpot(sdk, index.State(), e.contract, e.orderId);
      match spot
      case Some(key) =>
        books.ApplyCancelled(key, e.side, e.price, e.cancelledAmount, blockNum);
        index.UpdateOrderCancelled(key, e.orderId);
      case None =>
        HydrateSpots(env.spotOrder, env.replies);
    }

    method HandleUpdated(env: Env, e: TxEvent, blockNum: u64)
      requires Valid() && e.OrderUpdated?
      modifies index, books
      ensures Valid() && halted == old(halted)
      ensures State() == UpdatedHandled(sdk, old(State()), env, e, blockNum)
    {
      hide Normalize, ResolvedSpot, SpotsHydrated, Ensured, Updated, OrderAmended, Explains;
      var spot := ResolvedSpot(sdk, index.State(), e.contract, e.orderId);
      match spot
      case Some(key) =>
        var ready := EnsureHydrated(key, env.replies(key));
        if ready {
          books.ApplyUpdated(key, e.side, e.price, e.oldAmount, e.newAmount, e.remainingAmount, blockNum);
        }
        index.UpdateOrderAmount(key, e.orderId, e.newAmount, e.remainingAmount);
      case None =>
        HydrateSpots(env.spotOrder, env.replies);
    }

    method HandleFilled(env: Env, e: TxEvent, blockNum: u64)
      requires Valid() && e.OrderFilled?
      modifies index, books
      ensures Valid() && halted == old(halted)
      ensures State() == FilledHandled(sdk, old(State()), env, e, blockNum)
    {
      hide Normalize, Ensured, Filled, TradeRecorded, IndexStores.OrderFilled, Explains;
      var spot := Normalize(sdk, e.market);
      index.RecordLastTradePrice(spot, e.price);
      var ready := EnsureHydrated(spot, env.replies(spot));
      if ready {
        books.ApplyFilled(spot, e.side, e.price, e.fillAmount, blockNum, e.price);
      }
      index.UpdateOrderFill(spot, e.orderId, e.fillAmount, e.remainingAmount, e.isFullyFilled);
    }

    method HandleEvent(lower: char -> string, env: Env, e: TxEvent, blockNum: u64)
      requires Valid() && LowercaseTable(lower)
      modifies this, index, books
      ensures Valid()
      ensures State() == Handled(sdk, lower, old(State()), env, e, blockNum)
    {
      hide MarketIndexed, MarketStateSet, CreatedHandled, CancelledHandled, UpdatedHandled,
           FilledHandled, Explains, LowercaseTable;
      if halted {
        return;
      }
      match e
      case MarketCreated(details) => IndexMarketCreated(lower, env, details);
      case MarketResolved(address) => index.UpdateMarketState(address, "Resolved");
      case OrderCreated(created) => HandleCreated(env, created, blockNum);
      case OrderCancelled(_, _, _, _, _) => HandleCancelled(env, e, blockNum);
      case OrderUpdated(_, _, _, _, _, _, _) => HandleUpdated(env, e, blockNum);
      case OrderFilled(_, _, _, _, _, _, _) => HandleFilled(env, e, blockNum);
      case Other =>
    }

    method HandleEvents(lower: char -> string, events: seq<(TxEvent, Env)>, blockNum: u64)
      requires Valid() && LowercaseTable(lower)
      modifies this, index, books
      ensures Valid()
      ensures State() == AllHandled(sdk, lower, old(State()), events, blockNum)
    {
      hide Handled, Explains, LowercaseTable;
      for i := 0 to |events|
        invariant Valid()
        invariant AllHandled(sdk, lower, State(), events[i..], blockNum)
                 == AllHandled(sdk, lower, old(State()), events, blockNum)
      {
        assert events[i..][1..] == events[i + 1..];
        HandleEvent(lower, events[i].1, events[i].0, blockNum);
      }
    }

    method DeliverReceipts(txs: seq<TxResult>)
      modifies wait
      ensures wait.State() == ReceiptsDelivered(old(wait.State()), txs)
    {
      hide SubmitWait.Completed;
      for i := 0 to |txs|
        invariant wait.State() == ReceiptsDelivered(old(wait.State()), txs[..i])
      {
        assert txs[..i + 1][..i] == txs[..i];
        var _ := wait.Complete(txs[i].digest, txs[i].receipt);
      }
      assert txs[..|txs|] == txs;
    }

    /** Receipts first, for failed transactions too; then the events of the successful ones. */
    method Process(lower: char -> string, txs: seq<TxResult>, blockNum: u64)
      requires Valid() && LowercaseTable(lower)
      modifies this, index, books, wait
      ensures Valid()
      ensures wait.State() == ReceiptsDelivered(old(wait.State()), txs)
      ensures State() == BlockHandled(sdk, lower, old(State()), txs, blockNum)
    {
      hide Handled, Explains, LowercaseTable, ReceiptsDelivered;
      DeliverReceipts(txs);
      ghost var start := State();
      ghost var wires := wait.State();
      for i := 0 to |txs|
        invariant wait.State() == wires
        invariant Valid() && State() == AllHandled(sdk, lower, start, SuccessfulEvents(txs[..i]), blockNum)
      {
        assert txs[..i + 1][..i] == txs[..i];
        if txs[i].receipt.success {
          HandledInTurn(sdk, lower, start, SuccessfulEvents(txs[..i]), txs[i].events, blockNum);
          HandleEvents(lower, txs[i].events, blockNum);
        } else {
          assert SuccessfulEvents(txs[..i]) + [] == SuccessfulEvents(txs[..i]);
        }
      }
      assert txs[..|txs|] == txs;
    }
  }
}
