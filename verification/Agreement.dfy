/** Book store and index, updated separately by block processing, both mirror one ledger; what a
    cancellation over HTTP marks in the index is all that can set them apart. */
module Agreement {
  import opened Machine
  import opened Text
  import opened Decimal
  import opened Sums
  import opened SpotMarkets
  import opened SpotBooks
  import opened BookStores
  import opened IndexStores
  import opened Ledgers
  import opened Filings
  import opened LedgerEvents
  import opened Processor
  import opened Redelivery
  import OrderRoutes
  import IndexRuns

  // ---------------------------------------------------------------- the index mirrors the ledger

  /** The status of an order follows from its amounts alone. */
  function StatusOf(o: LedgerOrder): string {
    if o.cancelled then "cancelled"
    else if o.filled == o.amount then "filled"
    else if o.filled > 0 then "partial_filled"
    else "open"
  }

  /** A marked order is one that the index shows as cancelled on a client's word alone. */
  ghost predicate Mirrors(stored: StoredOrder, k: OrderKey, o: LedgerOrder, marked: bool) {
    && stored.chainOrderId == k.id
    && stored.sizeRaw == o.amount && stored.filledRaw == o.filled
    && stored.order.status == (if marked then "cancelled" else StatusOf(o))
    && stored.order.side == SideName(o.side) && stored.order.price == FormatPricePieces(o.price)
    && stored.order.size == FormatTokenAmount(o.amount)
  }

  ghost predicate IndexAgrees(ledger: Ledger, marks: set<OrderKey>, st: IndexState) {
    Files(Mirrors, ledger, marks, st)
  }

  ghost predicate KeysNormal(sdk: Sdk, ledger: Ledger) {
    IdsColonFree(ledger) && forall k :: k in ledger ==> Normalize(sdk, k.spot) == k.spot
  }

  /** A chain cancellation agrees with the record whether or not the order was marked before. */
  lemma CancelMirrors(stored: StoredOrder, k: OrderKey, o: LedgerOrder, marked: bool)
    requires Mirrors(stored, k, o, marked)
    ensures Mirrors(WithStatus(stored, "cancelled"), k, o.(cancelled := true), false)
    ensures Mirrors(WithStatus(stored, "cancelled"), k, o, true)
  {
    hide FormatPricePieces, FormatTokenAmount;
  }

  /** An amendment derives the status anew, so it also undoes a mark. */
  lemma AmendMirrors(stored: StoredOrder, k: OrderKey, o: LedgerOrder, marked: bool, newAmount: u64)
    requires Mirrors(stored, k, o, marked) && !o.cancelled && o.filled <= newAmount
    ensures Mirrors(Amended(stored, newAmount, newAmount - o.filled), k, o.(amount := newAmount), false)
  {
    hide FormatPricePieces, FormatTokenAmount;
  }

  /** The status after a fill is the derived one, of a marked order too, exactly when something is
      filled then or the order has size 0. */
  lemma FillMirrors(stored: StoredOrder, k: OrderKey, o: LedgerOrder, marked: bool, amount: u64)
    requires Mirrors(stored, k, o, marked) && !o.cancelled && o.filled + amount <= o.amount
    ensures Mirrors(FilledBy(stored, amount, o.amount - o.filled - amount, o.amount == o.filled + amount), k,
                    o.(filled := o.filled + amount), false)
       <==> o.filled + amount > 0 || o.amount == 0
  {
    hide FormatPricePieces, FormatTokenAmount;
  }

  /** A fill of nothing would mark an untouched order as partially filled. */
  predicate Substantial(e: OrderEvent) {
    e.Fill? ==> e.amount > 0
  }

  lemma TradeAgrees(sdk: Sdk, ledger: Ledger, marks: set<OrderKey>, st: IndexState, spot: string, price: u64)
    requires IndexAgrees(ledger, marks, st)
    ensures IndexAgrees(ledger, marks, TradeRecorded(sdk, st, spot, price))
  {
    FilesFrame(Mirrors, ledger, marks, st, TradeRecorded(sdk, st, spot, price));
    hide Files, Normalize;
  }

  /** Writing a fitting record over the one that is filed. */
  lemma RefilingAgrees(sdk: Sdk, ledger: Ledger, marks: set<OrderKey>, marks': set<OrderKey>, st: IndexState,
                       k: OrderKey, o: LedgerOrder, stored: StoredOrder)
    requires KeysNormal(sdk, ledger) && k in ledger && IndexAgrees(ledger, marks, st)
    requires marks - {k} == marks' - {k} && Mirrors(stored, k, o, k in marks')
    ensures Record(sdk, st, k.spot, k.id).Some?
    ensures IndexAgrees(ledger[k := o], marks', WithRecord(sdk, st, k.spot, k.id, stored))
  {
    hide Files, Mirrors, Normalize, Record, WithRecord, ColonFree;
    RecordFiled(sdk, Mirrors, ledger, marks, st, k, stored);
    FilingKeeps(Mirrors, ledger, marks, marks', st, k, o, stored);
  }

  lemma RecordMirrors(sdk: Sdk, ledger: Ledger, marks: set<OrderKey>, st: IndexState, k: OrderKey)
    requires KeysNormal(sdk, ledger) && k in ledger && IndexAgrees(ledger, marks, st)
    ensures IdOf(k) in st.orders && Record(sdk, st, k.spot, k.id) == Some(st.orders[IdOf(k)])
    ensures Mirrors(st.orders[IdOf(k)], k, ledger[k], k in marks)
  {
    FiledAt(Mirrors, ledger, marks, st, k);
    RecordFiled(sdk, Mirrors, ledger, marks, st, k, st.orders[IdOf(k)]);
    hide Files, Mirrors, Normalize, Record, WithRecord, ColonFree;
  }

  lemma IndexStepAgrees(sdk: Sdk, ledger: Ledger, marks: set<OrderKey>, st: IndexState, st': IndexState,
                        k: OrderKey, e: OrderEvent)
    requires Sound(ledger) && WellFormed(ledger, k, e) && Substantial(e)
    requires KeysNormal(sdk, ledger) && ColonFree(k.id) && IndexAgrees(ledger, marks, st)
    requires IndexEffect(sdk, Mirrors, st, st', k, e)
    ensures IndexAgrees(LedgerAfter(ledger, k, e), marks - {k}, st')
  {
    hide IndexAgrees, KeysNormal, Mirrors, Record, WithRecord, TradeRecorded, Normalize, Amended, FilledBy, WithStatus;
    if e.Create? {
      CreateAgrees(sdk, ledger, marks, st, st', k, e);
    } else if e.Fill? {
      var traded, o := TradeRecorded(sdk, st, k.spot, e.price), ledger[k];
      TradeAgrees(sdk, ledger, marks, st, k.spot, e.price);
      RecordMirrors(sdk, ledger, marks, traded, k);
      var was := traded.orders[IdOf(k)];
      FillMirrors(was, k, o, k in marks, e.amount);
      RefilingAgrees(sdk, ledger, marks, marks - {k}, traded, k, o.(filled := o.filled + e.amount),
                     FilledBy(was, e.amount, e.remaining, e.isFullyFilled));
    } else {
      RecordMirrors(sdk, ledger, marks, st, k);
      var was, o := st.orders[IdOf(k)], ledger[k];
      if e.Cancel? {
        CancelMirrors(was, k, o, k in marks);
        RefilingAgrees(sdk, ledger, marks, marks - {k}, st, k, o.(cancelled := true), WithStatus(was, "cancelled"));
      } else {
        AmendMirrors(was, k, o, k in marks, e.newAmount);
        RefilingAgrees(sdk, ledger, marks, marks - {k}, st, k, o.(amount := e.newAmount),
                       Amended(was, e.newAmount, e.remaining));
      }
    }
  }

  lemma CreateAgrees(sdk: Sdk, ledger: Ledger, marks: set<OrderKey>, st: IndexState, st': IndexState,
                     k: OrderKey, e: OrderEvent)
    requires Sound(ledger) && WellFormed(ledger, k, e) && e.Create?
    requires KeysNormal(sdk, ledger) && ColonFree(k.id) && IndexAgrees(ledger, marks, st)
    requires IndexEffect(sdk, Mirrors, st, st', k, e)
    ensures IndexAgrees(LedgerAfter(ledger, k, e), marks - {k}, st')
  {
    hide Files, Mirrors, Normalize, WithFiled, ColonFree;
    var o := LedgerOrder(e.side, e.price, e.amount, 0, false);
    var stored: StoredOrder :| st' == WithFiled(st, k, stored) && Mirrors(stored, k, o, false);
    FilingKeeps(Mirrors, ledger, marks, marks - {k}, st, k, o, stored);
  }

  // ---------------------------------------------------------------- one step

  /** A limit-order event about a hydrated book of an indexed spot that the chain vouches for,
      or an order_created delivered again. */
  ghost predicate OfLedger(sdk: Sdk, ledger: Ledger, s: Indexer, e: TxEvent) {
    && !s.halted && Sound(ledger)
    && Meaning(sdk, s.index, e).Some?
    && var (k, ev) := Meaning(sdk, s.index, e).value;
       && k.spot in s.books.hydrated && Normalize(sdk, k.spot) == k.spot && ColonFree(k.id)
       && (ev.Create? ==> k.spot in s.index.spotToMarket)
       && (Redelivered(ledger, k, ev) || (WellFormed(ledger, k, ev) && Substantial(ev) && SumFits(ledger, k, ev)))
  }

  ghost predicate Regular(sdk: Sdk, ledger: Ledger, s: Indexer, e: TxEvent) {
    Unrelated(e) || OfLedger(sdk, ledger, s, e)
  }

  /** The ledger, the orders the index has marked, and the two stores. */
  datatype Scene = Scene(ledger: Ledger, marks: set<OrderKey>, s: Indexer)

  /** The event changes the ledger, and the index derives the order's status anew. */
  ghost function AfterEvent(sdk: Sdk, c: Scene, e: TxEvent, s': Indexer): Scene
    requires Regular(sdk, c.ledger, c.s, e)
  {
    if Unrelated(e) then c.(s := s')
    else
      var (k, ev) := Meaning(sdk, c.s.index, e).value;
      if Redelivered(c.ledger, k, ev) then c.(s := s') else Scene(LedgerAfter(c.ledger, k, ev), c.marks - {k}, s')
  }

  ghost predicate Agrees(sdk: Sdk, c: Scene) {
    && Sound(c.ledger) && KeysNormal(sdk, c.ledger)
    && BookAgrees(c.s.books.hydrated, c.ledger, c.s.books)
    && IndexAgrees(c.ledger, c.marks, c.s.index)
  }

  function Stored(sdk: Sdk, st: IndexState, c: OrderCreatedEvent, spot: string): StoredOrder
    requires spot in st.spotToMarket
  {
    StoredOrder(NewOrder(sdk, st, st.spotToMarket[spot], c, spot, "open"), c.creator, c.orderId, 0, c.amount)
  }

  lemma StoredMirrors(sdk: Sdk, st: IndexState, c: OrderCreatedEvent, k: OrderKey)
    requires c.orderType.Limit? && k.id == c.orderId && k.spot in st.spotToMarket && c.amount > 0
    ensures Mirrors(Stored(sdk, st, c, k.spot), k, LedgerOrder(c.side, c.orderType.price, c.amount, 0, false), false)
  {
    hide ChainOrderKey, FormatPricePieces, FormatTokenAmount;
  }

  lemma OrderIndexedShape(sdk: Sdk, st: IndexState, c: OrderCreatedEvent, k: OrderKey)
    requires k.id == c.orderId && k.spot in st.spotToMarket && Normalize(sdk, k.spot) == k.spot
    ensures OrderIndexed(sdk, st, c, k.spot, "open", 0)
         == WithFiled(st, k, Stored(sdk, st, c, k.spot))
  {
    NormalKey(sdk, k);
    hide Normalize, ChainOrderKey, KeyName, FormatPricePieces, FormatTokenAmount;
  }

  lemma CreateEffect(sdk: Sdk, ledger: Ledger, marks: set<OrderKey>, s: Indexer, env: Env, c: OrderCreatedEvent,
                     blockNum: u64, k: OrderKey)
    requires c.orderType.Limit? && k == OrderKey(Normalize(sdk, c.market), c.orderId)
    requires k.spot in s.books.hydrated && Normalize(sdk, k.spot) == k.spot && k.spot in s.index.spotToMarket
    requires IndexAgrees(ledger, marks, s.index) && IdsColonFree(ledger)
    requires k !in ledger && ColonFree(k.id) && c.amount > 0
    ensures Follows(sdk, Mirrors, s, CreatedHandled(sdk, s, env, c, blockNum), k,
                    Create(c.side, c.orderType.price, c.amount), blockNum)
  {
    hide Files, Normalize, CreatedHandled, OrderIndexed, Mirrors, KeyName, Created, Stored, ColonFree, WithFiled,
         IdsColonFree;
    NotFiled(Mirrors, ledger, marks, s.index, k);
    CreatedShape(sdk, s, env, c, blockNum, k);
    OrderIndexedShape(sdk, s.index, c, k);
    StoredMirrors(sdk, s.index, c, k);
  }

  lemma RedeliveryStep(sdk: Sdk, lower: char -> string, c: Scene, env: Env, e: TxEvent, blockNum: u64)
    requires Agrees(sdk, c) && Meaning(sdk, c.s.index, e).Some?
    requires var (k, ev) := Meaning(sdk, c.s.index, e).value;
             Normalize(sdk, k.spot) == k.spot && Redelivered(c.ledger, k, ev)
    ensures Handled(sdk, lower, c.s, env, e, blockNum) == c.s
  {
    hide Normalize, ChainOrderKey, KeyName, Handled, BookAgrees, Files, KeysNormal, Mirrors;
    var k := Meaning(sdk, c.s.index, e).value.0;
    FiledAt(Mirrors, c.ledger, c.marks, c.s.index, k);
    NormalKey(sdk, k);
    KnownIsSkipped(sdk, lower, c.s, env, e.created, blockNum);
  }

  lemma EffectHappens(sdk: Sdk, lower: char -> string, c: Scene, env: Env, e: TxEvent, blockNum: u64)
    requires Agrees(sdk, c) && OfLedger(sdk, c.ledger, c.s, e)
    requires var (k, ev) := Meaning(sdk, c.s.index, e).value; !Redelivered(c.ledger, k, ev)
    ensures var (k, ev) := Meaning(sdk, c.s.index, e).value;
            Follows(sdk, Mirrors, c.s, Handled(sdk, lower, c.s, env, e, blockNum), k, ev, blockNum)
  {
    var (k, ev) := Meaning(sdk, c.s.index, e).value;
    hide Handled, CreatedHandled, Normalize, Sound, SumFits, BookAgrees, IndexAgrees, Follows, Mirrors, IdsColonFree;
    if ev.Create? {
      HandlesCreated(sdk, lower, c.s, env, e.created, blockNum);
      CreateEffect(sdk, c.ledger, c.marks, c.s, env, e.created, blockNum, k);
    } else {
      UpdateEffect(sdk, Mirrors, lower, c.s, env, e, blockNum);
    }
  }

  lemma KeysStayNormal(sdk: Sdk, ledger: Ledger, k: OrderKey, o: LedgerOrder)
    requires KeysNormal(sdk, ledger) && Normalize(sdk, k.spot) == k.spot && ColonFree(k.id)
    ensures KeysNormal(sdk, ledger[k := o])
  {
    hide Normalize, ColonFree;
  }

  /** A change that follows the ledger event keeps both stores in agreement. */
  lemma FollowingAgrees(sdk: Sdk, c: Scene, t: Indexer, k: OrderKey, e: OrderEvent, blockNum: u64)
    requires Agrees(sdk, c) && Follows(sdk, Mirrors, c.s, t, k, e, blockNum)
    requires WellFormed(c.ledger, k, e) && Substantial(e) && SumFits(c.ledger, k, e)
    requires Normalize(sdk, k.spot) == k.spot && ColonFree(k.id)
    ensures Agrees(sdk, Scene(LedgerAfter(c.ledger, k, e), c.marks - {k}, t))
  {
    hide Normalize, WellFormed, Sound, SumFits, BookAgrees, IndexAgrees, IndexEffect, BookEffect, Substantial,
         KeysNormal, ColonFree, OrderAfter, Mirrors;
    SoundAfter(c.ledger, k, e);
    KeysStayNormal(sdk, c.ledger, k, OrderAfter(c.ledger, k, e));
    BookStepAgrees(c.s.books.hydrated, c.ledger, c.s.books, k, e, blockNum);
    IndexStepAgrees(sdk, c.ledger, c.marks, c.s.index, t.index, k, e);
    EffectKeepsHydrated(c.s.books, k.spot, e, blockNum);
  }

  lemma UnrelatedShape(sdk: Sdk, lower: char -> string, s: Indexer, env: Env, e: TxEvent, blockNum: u64)
    requires Unrelated(e)
    ensures var t := Handled(sdk, lower, s, env, e, blockNum);
            && t.books == s.books && t.index.orders == s.index.orders
            && t.index.chainOrderIndex == s.index.chainOrderIndex
            && t.index.lastTradePriceBySpot == s.index.lastTradePriceBySpot
  {
  }

  lemma UnrelatedAgrees(sdk: Sdk, lower: char -> string, c: Scene, env: Env, e: TxEvent, blockNum: u64)
    requires Agrees(sdk, c) && Unrelated(e)
    ensures Agrees(sdk, c.(s := Handled(sdk, lower, c.s, env, e, blockNum)))
  {
    hide Sound, KeysNormal, BookAgrees, Mirrors, Files, Handled, Unrelated;
    UnrelatedShape(sdk, lower, c.s, env, e, blockNum);
    FilesFrame(Mirrors, c.ledger, c.marks, c.s.index, Handled(sdk, lower, c.s, env, e, blockNum).index);
  }

  /** One regular event: both stores follow the ledger. */
  lemma AgreementStep(sdk: Sdk, lower: char -> string, c: Scene, env: Env, e: TxEvent, blockNum: u64)
    requires Agrees(sdk, c) && Regular(sdk, c.ledger, c.s, e)
    ensures Agrees(sdk, AfterEvent(sdk, c, e, Handled(sdk, lower, c.s, env, e, blockNum)))
  {
    hide Handled, Normalize, WellFormed, SumFits, Agrees, Meaning, Substantial, Follows, LedgerAfter, ColonFree,
         Mirrors;
    if Unrelated(e) {
      UnrelatedAgrees(sdk, lower, c, env, e, blockNum);
    } else {
      var (k, ev) := Meaning(sdk, c.s.index, e).value;
      if Redelivered(c.ledger, k, ev) {
        RedeliveryStep(sdk, lower, c, env, e, blockNum);
      } else {
        EffectHappens(sdk, lower, c, env, e, blockNum);
        FollowingAgrees(sdk, c, Handled(sdk, lower, c.s, env, e, blockNum), k, ev, blockNum);
      }
    }
  }

  // ---------------------------------------------------------------- runs

  /** Block events, and cancellations that a client reports over HTTP before the chain does, or
      against it. */
  datatype RunStep = Deliver(delivery: Delivery) | Mark(key: OrderKey)

  ghost predicate Possible(sdk: Sdk, c: Scene, step: RunStep) {
    match step
    case Deliver(d) => Regular(sdk, c.ledger, c.s, d.event)
    case Mark(k) => k in c.ledger
  }

  ghost function NextScene(sdk: Sdk, lower: char -> string, c: Scene, step: RunStep): Scene
    requires Possible(sdk, c, step)
  {
    match step
    case Deliver(d) => AfterEvent(sdk, c, d.event, Handled(sdk, lower, c.s, d.env, d.event, d.blockNum))
    case Mark(k) =>
      Scene(c.ledger, c.marks + {k}, c.s.(index := IndexStores.OrderCancelled(sdk, c.s.index, k.spot, k.id)))
  }

  ghost predicate RegularRun(sdk: Sdk, lower: char -> string, c: Scene, run: seq<RunStep>, d: Scene)
    decreases |run|
  {
    if run == [] then c == d
    else Possible(sdk, c, run[0]) && RegularRun(sdk, lower, NextScene(sdk, lower, c, run[0]), run[1..], d)
  }

  lemma MarkAgrees(sdk: Sdk, c: Scene, k: OrderKey)
    requires Agrees(sdk, c) && k in c.ledger
    ensures Agrees(sdk, Scene(c.ledger, c.marks + {k},
                              c.s.(index := IndexStores.OrderCancelled(sdk, c.s.index, k.spot, k.id))))
  {
    hide Sound, KeysNormal, BookAgrees, IndexAgrees, Mirrors, Record, WithRecord, WithStatus;
    RecordMirrors(sdk, c.ledger, c.marks, c.s.index, k);
    var was := c.s.index.orders[IdOf(k)];
    CancelMirrors(was, k, c.ledger[k], k in c.marks);
    assert c.marks - {k} == (c.marks + {k}) - {k} && c.ledger[k := c.ledger[k]] == c.ledger;
    RefilingAgrees(sdk, c.ledger, c.marks, c.marks + {k}, c.s.index, k, c.ledger[k], WithStatus(was, "cancelled"));
  }

  /** Over every run, marks included, each store keeps its part of the agreement. */
  lemma {:induction false} StoresAgree(sdk: Sdk, lower: char -> string, c: Scene, run: seq<RunStep>, d: Scene)
    requires Agrees(sdk, c) && RegularRun(sdk, lower, c, run, d)
    ensures Agrees(sdk, d)
    decreases |run|
  {
    hide Agrees, Regular, AfterEvent, Handled;
    if run != [] {
      if run[0].Deliver? {
        var Delivery(e, env, blockNum) := run[0].delivery;
        AgreementStep(sdk, lower, c, env, e, blockNum);
      } else {
        MarkAgrees(sdk, c, run[0].key);
      }
      StoresAgree(sdk, lower, NextScene(sdk, lower, c, run[0]), run[1..], d);
    }
  }

  /** Without such cancellations nothing is ever marked. */
  lemma {:induction false} UnmarkedRun(sdk: Sdk, lower: char -> string, c: Scene, run: seq<RunStep>, d: Scene)
    requires RegularRun(sdk, lower, c, run, d) && forall i :: 0 <= i < |run| ==> run[i].Deliver?
    ensures d.marks <= c.marks
    decreases |run|
  {
    hide Regular, Handled, LedgerAfter, Meaning;
    if run != [] {
      UnmarkedRun(sdk, lower, NextScene(sdk, lower, c, run[0]), run[1..], d);
    }
  }

  /** What `mark_cancelled` writes is such a mark: with the context it read at any earlier point
      for an open order, it cancels the record of that order's key. */
  lemma MarkIsHandled(sdk: Sdk, before: seq<IndexRuns.Action>, early: IndexRuns.RunState,
                      between: seq<IndexRuns.Action>, late: IndexRuns.RunState, c: Scene, k: OrderKey,
                      userAddress: string)
    requires IndexRuns.RunsFixed(sdk, IndexRuns.START, before, early) && IndexRuns.RunsFixed(sdk, early, between, late)
    requires Agrees(sdk, c) && c.s.index == late.index && k in c.ledger
    requires IdOf(k) in early.index.orders && IsOpen(early.index.orders[IdOf(k)].order.status)
    requires EqIgnoreAsciiCase(early.index.orders[IdOf(k)].userAddress, userAddress)
    ensures OrderRoutes.CancelledWith(sdk, StoredOrderContext(early.index, IdOf(k), userAddress), late.index)
         == IndexStores.OrderCancelled(sdk, c.s.index, k.spot, k.id)
  {
    hide IndexRuns.RunsFixed, OrderRoutes.CancelledWith, StoredOrderContext, EqIgnoreAsciiCase, Files, Mirrors,
         Normalize, Sound, BookAgrees, KeyName, Record, WithRecord, WithStatus, ColonFree;
    OrderRoutes.MarkCancelledLate(sdk, before, early, between, late, IdOf(k), userAddress);
    var was := c.s.index.orders[IdOf(k)];
    RecordFiled(sdk, Mirrors, c.ledger, c.marks, c.s.index, k, WithStatus(was, "cancelled"));
    FiledAt(Mirrors, c.ledger, c.marks, c.s.index, k);
    hide IndexStores.IsOpen;
    assert c.s.index.chainOrderIndex[KeyName(k) := IdOf(k)] == c.s.index.chainOrderIndex;
  }

  /** A run of deliveries ends where block processing ends. */
  lemma {:induction false} RunIsDelivered(sdk: Sdk, lower: char -> string, c: Scene, run: seq<Delivery>, d: Scene)
    requires RegularRun(sdk, lower, c, Deliveries(run), d)
    ensures d.s == Delivered(sdk, lower, c.s, run)
    decreases |run|
  {
    hide Regular, Handled, LedgerAfter, Meaning;
    if run != [] {
      assert Deliveries(run)[1..] == Deliveries(run[1..]);
      RunIsDelivered(sdk, lower, NextScene(sdk, lower, c, Deliver(run[0])), run[1..], d);
    }
  }

  function Deliveries(run: seq<Delivery>): seq<RunStep> {
    if run == [] then [] else [Deliver(run[0])] + Deliveries(run[1..])
  }

  /** One block, as the block loop processes it: if its events are regular, the stores it leaves
      agree with the ledger after them. */
  lemma BlockAgrees(sdk: Sdk, lower: char -> string, c: Scene, events: seq<(TxEvent, Env)>, blockNum: u64, d: Scene)
    requires Agrees(sdk, c) && RegularRun(sdk, lower, c, Deliveries(InBlock(events, blockNum)), d)
    ensures d.s == AllHandled(sdk, lower, c.s, events, blockNum) && Agrees(sdk, d)
  {
    hide Agrees, RegularRun, AllHandled, Delivered;
    RunIsDelivered(sdk, lower, c, InBlock(events, blockNum), d);
    BlockIsDelivered(sdk, lower, c.s, events, blockNum);
    StoresAgree(sdk, lower, c, Deliveries(InBlock(events, blockNum)), d);
  }

  // ---------------------------------------------------------------- book against index

  /** What a stored order contributes to a level, read off the record's strings. */
  function OpenAt(spot: string, side: Side, price: u64, id: Uuid, stored: StoredOrder): nat {
    if id.name == spot + (":" + stored.chainOrderId) && stored.order.side == SideName(side)
       && stored.order.price == FormatPricePieces(price) && IsOpen(stored.order.status)
    then SatSub(stored.sizeRaw, stored.filledRaw) else 0
  }

  function Open(spot: string, side: Side, price: u64): (Uuid, StoredOrder) -> nat {
    (id, stored) => OpenAt(spot, side, price, id, stored)
  }

  /** What a marked order still has at a level of the chain. */
  ghost function Hidden(marks: set<OrderKey>, spot: string, side: Side, price: u64): (OrderKey, LedgerOrder) -> nat {
    (k, o) => if k in marks then RestingAt(spot, side, price, k, o) else 0
  }

  ghost function Visible(marks: set<OrderKey>, spot: string, side: Side, price: u64): (OrderKey, LedgerOrder) -> nat {
    (k, o) => if k in marks then 0 else RestingAt(spot, side, price, k, o)
  }

  lemma SameWeight(spot: string, side: Side, price: u64, k: OrderKey, o: LedgerOrder, marked: bool, stored: StoredOrder)
    requires Mirrors(stored, k, o, marked) && price <= MAX_EXACT_PRICE && o.filled <= o.amount
    ensures OpenAt(spot, side, price, IdOf(k), stored) == if marked then 0 else RestingAt(spot, side, price, k, o)
  {
    PriceKeyCollision(o.price, price);
    assert SideName(o.side) == SideName(side) <==> o.side == side;
    assert KeyName(k) == spot + (":" + k.id) <==> k.spot == spot by {
      IndexRuns.SameTail(k.spot, spot, ":" + k.id);
    }
    hide FormatPricePieces, KeyName;
  }

  function Identifier(): OrderKey -> Uuid {
    k => IdOf(k)
  }

  lemma SameWeights(ledger: Ledger, marks: set<OrderKey>, st: IndexState, spot: string, side: Side, price: u64)
    requires Sound(ledger) && IndexAgrees(ledger, marks, st) && price <= MAX_EXACT_PRICE
    ensures forall k :: k in ledger ==>
              && Identifier()(k) in st.orders
              && Visible(marks, spot, side, price)(k, ledger[k])
                 == Open(spot, side, price)(Identifier()(k), st.orders[Identifier()(k)])
  {
    hide Files, Mirrors, RestingAt, OpenAt, IdOf;
    forall k | k in ledger
      ensures Identifier()(k) in st.orders
      ensures Visible(marks, spot, side, price)(k, ledger[k])
           == Open(spot, side, price)(Identifier()(k), st.orders[Identifier()(k)])
    {
      FiledAt(Mirrors, ledger, marks, st, k);
      SameWeight(spot, side, price, k, ledger[k], k in marks, st.orders[IdOf(k)]);
    }
  }

  lemma IdentifiersMatch(ledger: Ledger, marks: set<OrderKey>, st: IndexState)
    requires IdsColonFree(ledger) && IndexAgrees(ledger, marks, st)
    ensures forall j, k :: j in ledger && k in ledger && Identifier()(j) == Identifier()(k) ==> j == k
    ensures forall id :: id in st.orders ==> exists k :: k in ledger && Identifier()(k) == id
  {
    hide AllFiled, NamesKnown, Mirrors, KeyName, ColonFree;
    forall j, k | j in ledger && k in ledger && Identifier()(j) == Identifier()(k) ensures j == k {
      KeyNameInjective(j, k);
    }
    forall id | id in st.orders ensures exists k :: k in ledger && Identifier()(k) == id {
      var k :| k in ledger && IdOf(k) == id;
      assert Identifier()(k) == id;
    }
  }

  /** Summing the open orders of the index at a level gives the ledger's sum there, less what the
      marked orders still have. */
  lemma IndexSums(ledger: Ledger, marks: set<OrderKey>, st: IndexState, spot: string, side: Side, price: u64)
    requires IdsColonFree(ledger) && Sound(ledger) && IndexAgrees(ledger, marks, st) && price <= MAX_EXACT_PRICE
    ensures LevelSum(ledger, spot, side, price)
         == Sum(st.orders, Open(spot, side, price)) + Sum(ledger, Hidden(marks, spot, side, price))
  {
    hide *;
    var shown, hidden := Visible(marks, spot, side, price), Hidden(marks, spot, side, price);
    WeightsMatched(ledger, marks, st, spot, side, price);
    SplitWeights(ledger, marks, spot, side, price);
    LevelSumIs(ledger, spot, side, price);
    SumMatched(ledger, shown, st.orders, Open(spot, side, price), Identifier());
    SumSplit(ledger, Resting(spot, side, price), shown, hidden);
  }

  lemma WeightsMatched(ledger: Ledger, marks: set<OrderKey>, st: IndexState, spot: string, side: Side, price: u64)
    requires IdsColonFree(ledger) && Sound(ledger) && IndexAgrees(ledger, marks, st) && price <= MAX_EXACT_PRICE
    ensures Matched(ledger, Visible(marks, spot, side, price), st.orders, Open(spot, side, price), Identifier())
  {
    hide IdsColonFree, Sound, IndexAgrees, Visible, Open, Identifier;
    SameWeights(ledger, marks, st, spot, side, price);
    IdentifiersMatch(ledger, marks, st);
  }

  lemma SplitWeights(ledger: Ledger, marks: set<OrderKey>, spot: string, side: Side, price: u64)
    ensures forall k :: k in ledger ==>
              Resting(spot, side, price)(k, ledger[k])
              == Visible(marks, spot, side, price)(k, ledger[k]) + Hidden(marks, spot, side, price)(k, ledger[k])
  {
    hide RestingAt;
  }

  lemma LevelSumIs(ledger: Ledger, spot: string, side: Side, price: u64)
    ensures LevelSum(ledger, spot, side, price) == Sum(ledger, Resting(spot, side, price))
  {
    hide Sum, Resting;
  }

  lemma NothingHidden(ledger: Ledger, spot: string, side: Side, price: u64)
    ensures Sum(ledger, Hidden({}, spot, side, price)) == 0
  {
    SumZero(ledger, Hidden({}, spot, side, price));
  }

  /** So index and book differ at a level exactly if some marked order still rests there. */
  lemma HiddenExactly(ledger: Ledger, marks: set<OrderKey>, spot: string, side: Side, price: u64)
    ensures Sum(ledger, Hidden(marks, spot, side, price)) == 0 <==>
              forall k :: k in marks && k in ledger ==> RestingAt(spot, side, price, k, ledger[k]) == 0
  {
    hide RestingAt;
    var w := Hidden(marks, spot, side, price);
    if forall k :: k in marks && k in ledger ==> RestingAt(spot, side, price, k, ledger[k]) == 0 {
      SumZero(ledger, w);
    } else {
      var k :| k in marks && k in ledger && RestingAt(spot, side, price, k, ledger[k]) != 0;
      SumRemove(ledger, w, k);
    }
  }

  /** The record has the ledger's amounts, and its status unless a client has marked it. */
  ghost predicate Amounts(stored: StoredOrder, o: LedgerOrder, marked: bool) {
    && stored.sizeRaw == o.amount && stored.filledRaw == o.filled
    && stored.order.status == if marked then "cancelled" else StatusOf(o)
  }

  /** After every run, marks included: each record has its order's amounts, and each level is the
      ledger's sum, which is the sum of size minus filled over the index's open orders there plus
      what the marked orders still have on the chain. */
  lemma BookMatchesIndex(sdk: Sdk, lower: char -> string, c: Scene, run: seq<RunStep>, d: Scene,
                         spot: string, side: Side, price: u64)
    requires Agrees(sdk, c) && RegularRun(sdk, lower, c, run, d) && spot in d.s.books.hydrated
    ensures BookAt(d.s.books, spot).Size(side, price) == LevelSum(d.ledger, spot, side, price)
    ensures price <= MAX_EXACT_PRICE ==>
              BookAt(d.s.books, spot).Size(side, price)
              == Sum(d.s.index.orders, Open(spot, side, price)) + Sum(d.ledger, Hidden(d.marks, spot, side, price))
    ensures forall k :: k in d.ledger ==>
              IdOf(k) in d.s.index.orders && Amounts(d.s.index.orders[IdOf(k)], d.ledger[k], k in d.marks)
  {
    hide RegularRun, IndexAgrees, Sound, LevelSum, Mirrors, Amounts, IdsColonFree, Normalize, IdOf;
    StoresAgree(sdk, lower, c, run, d);
    if price <= MAX_EXACT_PRICE {
      IndexSums(d.ledger, d.marks, d.s.index, spot, side, price);
    }
    forall k | k in d.ledger
      ensures IdOf(k) in d.s.index.orders && Amounts(d.s.index.orders[IdOf(k)], d.ledger[k], k in d.marks)
    {
      RecordMirrors(sdk, d.ledger, d.marks, d.s.index, k);
      MirrorAmounts(d.s.index.orders[IdOf(k)], k, d.ledger[k], k in d.marks);
    }
  }

  lemma MirrorAmounts(stored: StoredOrder, k: OrderKey, o: LedgerOrder, marked: bool)
    requires Mirrors(stored, k, o, marked)
    ensures Amounts(stored, o, marked)
  {
  }

  /** With block events alone the two stores match each other outright, although nothing ever
      compares them. */
  lemma BlocksMatchIndex(sdk: Sdk, lower: char -> string, c: Scene, run: seq<RunStep>, d: Scene,
                         spot: string, side: Side, price: u64)
    requires Agrees(sdk, c) && c.marks == {} && RegularRun(sdk, lower, c, run, d) && spot in d.s.books.hydrated
    requires forall i :: 0 <= i < |run| ==> run[i].Deliver?
    ensures price <= MAX_EXACT_PRICE ==>
              BookAt(d.s.books, spot).Size(side, price) == Sum(d.s.index.orders, Open(spot, side, price))
    ensures forall k :: k in d.ledger ==>
              IdOf(k) in d.s.index.orders && Amounts(d.s.index.orders[IdOf(k)], d.ledger[k], false)
  {
    hide Agrees, RegularRun, LevelSum, Amounts, IdOf;
    UnmarkedRun(sdk, lower, c, run, d);
    BookMatchesIndex(sdk, lower, c, run, d, spot, side, price);
    assert d.marks == {};
    NothingHidden(d.ledger, spot, side, price);
  }

  /** A mark on an order that still rests is all it takes: the level keeps the order, the index's
      open orders lose it. */
  lemma MarkSetsApart(sdk: Sdk, c: Scene, k: OrderKey)
    requires Agrees(sdk, c) && k in c.ledger && k !in c.marks && k.spot in c.s.books.hydrated
    requires c.ledger[k].Remaining() > 0 && c.ledger[k].price <= MAX_EXACT_PRICE
    ensures var o, t := c.ledger[k], IndexStores.OrderCancelled(sdk, c.s.index, k.spot, k.id);
            && BookAt(c.s.books, k.spot).Size(o.side, o.price) == LevelSum(c.ledger, k.spot, o.side, o.price)
            && Sum(t.orders, Open(k.spot, o.side, o.price)) < BookAt(c.s.books, k.spot).Size(o.side, o.price)
  {
    hide *;
    var o := c.ledger[k];
    AgreesParts(sdk, c);
    LevelAgrees(c, k.spot, o.side, o.price);
    MarkAgrees(sdk, c, k);
    var marked := c.s.(index := IndexStores.OrderCancelled(sdk, c.s.index, k.spot, k.id));
    AgreesParts(sdk, Scene(c.ledger, c.marks + {k}, marked));
    IndexSums(c.ledger, c.marks + {k}, marked.index, k.spot, o.side, o.price);
    SumRemove(c.ledger, Hidden(c.marks + {k}, k.spot, o.side, o.price), k);
    HiddenAt(c.marks + {k}, k, o);
  }

  lemma AgreesParts(sdk: Sdk, c: Scene)
    requires Agrees(sdk, c)
    ensures IdsColonFree(c.ledger) && Sound(c.ledger) && IndexAgrees(c.ledger, c.marks, c.s.index)
    ensures BookAgrees(c.s.books.hydrated, c.ledger, c.s.books)
  {
    hide IndexAgrees, BookAgrees, Sound, IdsColonFree;
  }

  lemma LevelAgrees(c: Scene, spot: string, side: Side, price: u64)
    requires BookAgrees(c.s.books.hydrated, c.ledger, c.s.books) && spot in c.s.books.hydrated
    ensures BookAt(c.s.books, spot).Size(side, price) == LevelSum(c.ledger, spot, side, price)
  {
    hide LevelSum;
  }

  lemma HiddenAt(marks: set<OrderKey>, k: OrderKey, o: LedgerOrder)
    requires k in marks
    ensures Hidden(marks, k.spot, o.side, o.price)(k, o) == o.Remaining()
  {
  }
}
