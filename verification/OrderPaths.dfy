/** One order_created on its way into the stores over several paths at once, blocks and HTTP
    requests, one locked section at a time and in any order. */
module OrderPaths {
  import opened Machine
  import opened Decimal
  import opened SpotMarkets
  import opened SpotBooks
  import opened BookStores
  import opened IndexStores
  import opened Ledgers
  import opened Processor
  import opened ProcessBlock
  import opened Redelivery
  import opened OrderRoutes

  datatype Path = Block(blockNum: u64) | Http(skipBook: bool, status: string, filledRaw: u64)
  {
    predicate SkipsBook() {
      Http? && skipBook
    }

    /** The block number of the book change; an HTTP request has none. */
    function Number(): u64 {
      if Block? then blockNum else 0
    }

    function Status(): string {
      if Block? then "open" else status
    }

    function FilledSoFar(): u64 {
      if Block? then 0 else filledRaw
    }
  }

  datatype Stage = Checking | Readying | Hydrating | Booking | LookingUp | Filing(found: SpotMarketRef) | Finished

  /** `booked`: this path has added the order to the book. */
  datatype Progress = Progress(path: Path, stage: Stage, booked: bool)

  /** The event, with the spot it names and the chain key of its order. */
  datatype Arrival = Arrival(e: OrderCreatedEvent, spot: string, key: string)

  function Arriving(sdk: Sdk, e: OrderCreatedEvent): Arrival {
    Arrival(e, Normalize(sdk, e.market), ChainOrderKey(sdk, Normalize(sdk, e.market), e.orderId))
  }

  predicate Known(a: Arrival, s: Indexer) {
    a.key in s.index.chainOrderIndex
  }

  datatype Race = Race(s: Indexer, paths: seq<Progress>)

  /** The sections of the paths, and whatever else happens to the stores in between. */
  datatype Step =
    | Check(i: nat)
    | Ready(i: nat)
    | Hydration(i: nat, change: Option<Change>)
    | Book(i: nat)
    | LookUp(i: nat)
    | Insert(i: nat, order: Order)
    | Elsewhere(t: Indexer)

  predicate At(r: Race, i: nat, stage: Stage) {
    i < |r.paths| && r.paths[i].stage == stage
  }

  /** Other work may do anything but index this order. */
  predicate Enabled(a: Arrival, r: Race, step: Step) {
    match step
    case Check(i) => At(r, i, Checking)
    case Ready(i) => At(r, i, Readying)
    case Hydration(i, change) => At(r, i, Hydrating) && (change.Some? ==> change.value.Hydrate?)
    case Book(i) => At(r, i, Booking)
    case LookUp(i) => At(r, i, LookingUp)
    case Insert(i, order) =>
      && i < |r.paths| && r.paths[i].stage.Filing?
      && order.id == V5(a.key)
    case Elsewhere(t) => Known(a, t) == Known(a, r.s)
  }

  function Moved(r: Race, i: nat, stage: Stage): Race
    requires i < |r.paths|
  {
    r.(paths := r.paths[i := r.paths[i].(stage := stage)])
  }

  function BookAdded(a: Arrival, books: BookState, blockNum: u64): BookState {
    if a.e.orderType.Limit? then Created(books, a.spot, a.e.side, a.e.orderType.price, a.e.amount, blockNum) else books
  }

  function OrderFiled(a: Arrival, index: IndexState, order: Order, filledRaw: u64): IndexState {
    index.(chainOrderIndex := index.chainOrderIndex[a.key := order.id],
           orders := index.orders[order.id := StoredOrder(order, a.e.creator, a.e.orderId, filledRaw, a.e.amount)])
  }

  function AfterCheck(path: Path, isNew: bool): Stage {
    match path
    case Block(_) => if isNew then Readying else Finished
    case Http(skipBook, _, _) => if isNew && !skipBook then Booking else LookingUp
  }

  function Next(a: Arrival, r: Race, step: Step): Race
    requires Enabled(a, r, step)
  {
    match step
    case Check(i) => Moved(r, i, AfterCheck(r.paths[i].path, !Known(a, r.s)))
    case Ready(i) => Moved(r, i, if a.spot in r.s.books.hydrated then Booking else Hydrating)
    case Hydration(i, change) =>
      if change.None? then Moved(r, i, LookingUp)
      else Moved(r, i, Booking).(s := r.s.(books := Hydrated(r.s.books, a.spot, change.value)))
    case Book(i) =>
      var p := r.paths[i];
      Race(r.s.(books := BookAdded(a, r.s.books, p.path.Number())), r.paths[i := Progress(p.path, LookingUp, true)])
    case LookUp(i) =>
      Moved(r, i, if a.spot in r.s.index.spotToMarket then Filing(r.s.index.spotToMarket[a.spot]) else Finished)
    case Insert(i, order) =>
      Moved(r, i, Finished).(s := r.s.(index := OrderFiled(a, r.s.index, order, r.paths[i].path.FilledSoFar())))
    case Elsewhere(t) => r.(s := t)
  }

  // A run is a sequence of steps; its last step comes last.

  ghost predicate Legal(a: Arrival, start: Race, steps: seq<Step>)
    decreases |steps|, 0
  {
    steps == []
    || (&& Legal(a, start, steps[..|steps| - 1])
        && Enabled(a, After(a, start, steps[..|steps| - 1]), steps[|steps| - 1]))
  }

  ghost function After(a: Arrival, start: Race, steps: seq<Step>): Race
    requires Legal(a, start, steps)
    decreases |steps|, 1
  {
    if steps == [] then start
    else Next(a, After(a, start, steps[..|steps| - 1]), steps[|steps| - 1])
  }

  ghost predicate Fresh(r: Race) {
    forall i :: 0 <= i < |r.paths| ==> r.paths[i].stage == Checking && !r.paths[i].booked
  }

  // ---------------------------------------------------------------- who adds the order

  predicate Inserted(steps: seq<Step>) {
    exists k :: 0 <= k < |steps| && steps[k].Insert?
  }

  /** The path checked before any path had inserted the order. */
  predicate Early(steps: seq<Step>, i: nat) {
    exists k :: 0 <= k < |steps| && steps[k] == Check(i) && !Inserted(steps[..k])
  }

  /** The paths that add the order to the book, read off the run alone: they checked before
      the first insertion, did not skip the book and did not fail to hydrate it. */
  predicate Adds(known: bool, steps: seq<Step>, path: Path, i: nat) {
    !known && Early(steps, i) && !path.SkipsBook() && Hydration(i, None) !in steps
  }

  lemma InsertedNext(steps: seq<Step>, step: Step)
    ensures Inserted(steps + [step]) <==> Inserted(steps) || step.Insert?
  {
    var all := steps + [step];
    assert all[|steps|] == step;
    assert forall k :: 0 <= k < |steps| ==> all[k] == steps[k];
  }

  lemma EarlyNext(steps: seq<Step>, step: Step, i: nat)
    ensures Early(steps + [step], i) <==> Early(steps, i) || (step == Check(i) && !Inserted(steps))
  {
    hide Inserted;
    var all := steps + [step];
    assert all[|steps|] == step && all[..|steps|] == steps;
    assert forall k :: 0 <= k < |steps| ==> all[k] == steps[k] && all[..k] == steps[..k];
  }

  /** What a path's stage says about the run so far. */
  ghost predicate Tracks(known: bool, steps: seq<Step>, p: Progress, i: nat) {
    var early := !known && Early(steps, i);
    match p.stage
    case Checking => !p.booked && !Early(steps, i) && Hydration(i, None) !in steps
    case Readying => !p.booked && early && p.path.Block? && Hydration(i, None) !in steps
    case Hydrating => !p.booked && early && p.path.Block? && Hydration(i, None) !in steps
    case Booking => !p.booked && early && !p.path.SkipsBook() && Hydration(i, None) !in steps
    case _ => p.booked <==> Adds(known, steps, p.path, i)
  }

  ghost predicate Tracked(a: Arrival, known: bool, steps: seq<Step>, r: Race) {
    && (Known(a, r.s) <==> known || Inserted(steps))
    && (forall i :: 0 <= i < |r.paths| ==> Tracks(known, steps, r.paths[i], i))
  }

  lemma IndexedNext(a: Arrival, r: Race, step: Step)
    requires Enabled(a, r, step)
    ensures Known(a, Next(a, r, step).s) <==> Known(a, r.s) || step.Insert?
  {
    hide BookAdded, Hydrated;
  }

  /** A step of one path moves that path only. */
  lemma PathsNext(a: Arrival, r: Race, step: Step)
    requires Enabled(a, r, step)
    ensures var r' := Next(a, r, step);
            && |r'.paths| == |r.paths|
            && (forall i :: 0 <= i < |r.paths| ==> r'.paths[i].path == r.paths[i].path)
            && (forall i :: 0 <= i < |r.paths| && (step.Elsewhere? || step.i != i) ==> r'.paths[i] == r.paths[i])
  {
    hide Known, BookAdded, OrderFiled, Hydrated;
  }

  lemma OtherTracks(known: bool, steps: seq<Step>, step: Step, p: Progress, i: nat)
    requires Tracks(known, steps, p, i) && (step.Elsewhere? || step.i != i)
    ensures Tracks(known, steps + [step], p, i)
  {
    EarlyNext(steps, step, i);
    hide Early;
    assert Hydration(i, None) in steps + [step] <==> Hydration(i, None) in steps;
  }

  lemma OwnTracks(a: Arrival, known: bool, steps: seq<Step>, r: Race, step: Step)
    requires Tracked(a, known, steps, r) && Enabled(a, r, step) && !step.Elsewhere? && step.i < |r.paths|
    ensures Tracks(known, steps + [step], Next(a, r, step).paths[step.i], step.i)
  {
    EarlyNext(steps, step, step.i);
    assert Tracks(known, steps, r.paths[step.i], step.i);
    var failure := Hydration(step.i, None);
    assert failure in steps + [step] <==> failure in steps || step == failure;
    hide Early, Inserted, BookAdded, OrderFiled, Hydrated;
  }

  lemma TrackedNext(a: Arrival, known: bool, steps: seq<Step>, r: Race, step: Step)
    requires Tracked(a, known, steps, r) && Enabled(a, r, step)
    ensures Tracked(a, known, steps + [step], Next(a, r, step))
  {
    IndexedNext(a, r, step);
    InsertedNext(steps, step);
    PathsNext(a, r, step);
    hide Tracks, Inserted, Next, Known;
    var r' := Next(a, r, step);
    forall i | 0 <= i < |r'.paths| ensures Tracks(known, steps + [step], r'.paths[i], i) {
      if step.Elsewhere? || step.i != i {
        OtherTracks(known, steps, step, r.paths[i], i);
      } else {
        OwnTracks(a, known, steps, r, step);
      }
    }
  }

  lemma {:induction false} RunTracked(a: Arrival, start: Race, steps: seq<Step>)
    requires Legal(a, start, steps) && Fresh(start)
    ensures Tracked(a, Known(a, start.s), steps, After(a, start, steps))
    ensures |After(a, start, steps).paths| == |start.paths|
    ensures forall i :: 0 <= i < |start.paths| ==> After(a, start, steps).paths[i].path == start.paths[i].path
    decreases |steps|
  {
    hide Enabled, Next, Known;
    if steps != [] {
      hide Tracked, Fresh;
      var before, step := steps[..|steps| - 1], steps[|steps| - 1];
      assert steps == before + [step];
      RunTracked(a, start, before);
      TrackedNext(a, Known(a, start.s), before, After(a, start, before), step);
      PathsNext(a, After(a, start, before), step);
    }
  }

  predicate Ended(r: Race) {
    forall i :: 0 <= i < |r.paths| ==> r.paths[i].stage == Finished
  }

  /** In every interleaving, a path that has finished has added the order to the book exactly
      if it checked before the first insertion, did not skip the book and could hydrate it. */
  lemma BookedExactly(a: Arrival, start: Race, steps: seq<Step>, i: nat)
    requires Legal(a, start, steps) && Fresh(start) && i < |start.paths|
    ensures var r := After(a, start, steps);
            && |r.paths| == |start.paths|
            && (r.paths[i].stage == Finished ==>
                 (r.paths[i].booked <==> Adds(Known(a, start.s), steps, start.paths[i].path, i)))
  {
    RunTracked(a, start, steps);
    hide Legal, After, Adds, Known;
    assert Tracks(Known(a, start.s), steps, After(a, start, steps).paths[i], i);
  }

  // ---------------------------------------------------------------- how often it counts

  ghost function Booked(r: Race): set<nat> {
    set i: nat | 0 <= i < |r.paths| && r.paths[i].booked
  }

  ghost function Adders(known: bool, start: Race, steps: seq<Step>): set<nat> {
    set i: nat | 0 <= i < |start.paths| && Adds(known, steps, start.paths[i].path, i)
  }

  function Level(a: Arrival, s: Indexer): u64
    requires a.e.orderType.Limit?
  {
    BookAt(s.books, a.spot).Size(a.e.side, a.e.orderType.price)
  }

  /** An amount added n times. */
  function Repeated(size: u64, amount: u64, n: nat): u64 {
    if n == 0 then size else SatAdd(Repeated(size, amount, n - 1), amount)
  }

  /** The other work leaves this level alone, and nobody replaces the book. */
  ghost predicate Calm(a: Arrival, r: Race, step: Step)
    requires a.e.orderType.Limit?
  {
    match step
    case Elsewhere(t) => Level(a, t) == Level(a, r.s)
    case Hydration(_, change) => change.None?
    case _ => true
  }

  ghost predicate CalmRun(a: Arrival, start: Race, steps: seq<Step>)
    requires a.e.orderType.Limit? && Legal(a, start, steps)
    decreases |steps|
  {
    steps == []
    || (&& CalmRun(a, start, steps[..|steps| - 1])
        && Calm(a, After(a, start, steps[..|steps| - 1]), steps[|steps| - 1]))
  }

  /** The section that adds the order adds it to its level, on top of whatever is there. */
  lemma BookAdds(a: Arrival, r: Race, step: Step)
    requires Enabled(a, r, step) && step.Book?
    requires a.e.orderType.Limit? && a.e.orderType.price > 0 && a.e.amount > 0
    ensures Level(a, Next(a, r, step).s) == SatAdd(Level(a, r.s), a.e.amount)
  {
    hide Changed, Known;
    var n := r.paths[step.i].path.Number();
    ChangedSizes(r.s.books, a.spot, LevelChange(a.e.side, a.e.orderType.price, a.e.amount, true, n, None));
  }

  lemma OwnBooked(a: Arrival, r: Race, step: Step)
    requires Enabled(a, r, step) && !step.Elsewhere?
    ensures step.i < |r.paths| == |Next(a, r, step).paths|
    ensures Next(a, r, step).paths[step.i].booked == (step.Book? || r.paths[step.i].booked)
  {
    hide Known, BookAdded, OrderFiled, Hydrated;
  }

  lemma BookedNext(a: Arrival, r: Race, step: Step)
    requires Enabled(a, r, step)
    ensures step.Book? && step.i < |r.paths| && !r.paths[step.i].booked ==>
              |Booked(Next(a, r, step))| == |Booked(r)| + 1
    ensures !step.Book? ==> Booked(Next(a, r, step)) == Booked(r)
  {
    hide Next, Enabled;
    PathsNext(a, r, step);
    if !step.Elsewhere? {
      OwnBooked(a, r, step);
    }
    if step.Book? {
      assert Booked(Next(a, r, step)) == Booked(r) + {step.i};
    }
  }

  lemma LevelStays(a: Arrival, r: Race, step: Step)
    requires a.e.orderType.Limit? && Enabled(a, r, step) && Calm(a, r, step) && !step.Book?
    ensures Level(a, Next(a, r, step).s) == Level(a, r.s)
  {
    hide Known, OrderFiled;
  }

  /** In every calm interleaving the level has grown by the amount once per path that added it. */
  lemma {:induction false} LevelCounts(a: Arrival, start: Race, steps: seq<Step>)
    requires a.e.orderType.Limit? && a.e.orderType.price > 0 && a.e.amount > 0
    requires Legal(a, start, steps) && Fresh(start) && CalmRun(a, start, steps)
    ensures var r := After(a, start, steps);
            Level(a, r.s) == Repeated(Level(a, start.s), a.e.amount, |Booked(r)|)
    decreases |steps|
  {
    hide Enabled, Next, Known, Level, SatAdd;
    if steps == [] {
      assert Booked(start) == {};
    } else {
      hide Calm, Fresh;
      var before, step := steps[..|steps| - 1], steps[|steps| - 1];
      var r := After(a, start, before);
      LevelCounts(a, start, before);
      BookedNext(a, r, step);
      if step.Book? {
        NotYetBooked(a, start, before, step.i);
        BookAdds(a, r, step);
      } else {
        LevelStays(a, r, step);
      }
    }
  }

  lemma NotYetBooked(a: Arrival, start: Race, steps: seq<Step>, i: nat)
    requires Legal(a, start, steps) && Fresh(start) && Enabled(a, After(a, start, steps), Step.Book(i))
    ensures i < |After(a, start, steps).paths| && !After(a, start, steps).paths[i].booked
  {
    RunTracked(a, start, steps);
    hide Legal, After, Known, Early;
    assert Tracks(Known(a, start.s), steps, After(a, start, steps).paths[i], i);
  }

  lemma {:induction false} RepeatedIs(size: u64, amount: u64, n: nat)
    ensures Repeated(size, amount, n) == if size + n * amount <= U64_MAX then size + n * amount else U64_MAX
  {
    if n > 0 {
      RepeatedIs(size, amount, n - 1);
      assert n * amount == (n - 1) * amount + amount;
    }
  }

  /** Adding n times looks like adding once exactly for n = 1, or at the bound. */
  lemma OnceOnly(size: u64, amount: u64, n: nat)
    requires amount > 0
    ensures Repeated(size, amount, n) == SatAdd(size, amount)
       <==> n == 1 || (n == 0 && size == U64_MAX) || (n > 1 && size + amount >= U64_MAX)
  {
    RepeatedIs(size, amount, n);
    if n > 1 {
      assert n * amount == (n - 2) * amount + 2 * amount && (n - 2) * amount >= 0;
    }
  }

  /** A limit order that arrives over any paths, in any interleaving that leaves its level alone
      otherwise: its level grows once per path that checked before the first insertion and added
      it, so the order counts once exactly if there is one such path, or the level is full. */
  lemma CountedOnce(a: Arrival, start: Race, steps: seq<Step>)
    requires a.e.orderType.Limit? && a.e.orderType.price > 0 && a.e.amount > 0
    requires Legal(a, start, steps) && Fresh(start) && CalmRun(a, start, steps)
    requires Ended(After(a, start, steps))
    ensures var was, level := Level(a, start.s), Level(a, After(a, start, steps).s);
            var n := |Adders(Known(a, start.s), start, steps)|;
            && level == Repeated(was, a.e.amount, n)
            && (level == SatAdd(was, a.e.amount)
                <==> n == 1 || (n == 0 && was == U64_MAX) || (n > 1 && was + a.e.amount >= U64_MAX))
  {
    hide Legal, After, Fresh, CalmRun, Adds, Known, Level, Repeated, SatAdd;
    var r := After(a, start, steps);
    LevelCounts(a, start, steps);
    AddersBooked(a, start, steps);
    OnceOnly(Level(a, start.s), a.e.amount, |Booked(r)|);
  }

  lemma AddersBooked(a: Arrival, start: Race, steps: seq<Step>)
    requires Legal(a, start, steps) && Fresh(start) && Ended(After(a, start, steps))
    ensures Booked(After(a, start, steps)) == Adders(Known(a, start.s), start, steps)
  {
    hide Legal, After, Fresh, Adds, Known;
    RunTrackedLength(a, start, steps);
    forall i: nat | i < |start.paths| {
      BookedExactly(a, start, steps, i);
    }
  }

  lemma RunTrackedLength(a: Arrival, start: Race, steps: seq<Step>)
    requires Legal(a, start, steps) && Fresh(start)
    ensures |After(a, start, steps).paths| == |start.paths|
  {
    RunTracked(a, start, steps);
  }

  /** What the level started from, and how often the order was added since: a hydration of the
      book starts over from what its reply shows, whatever was added before. */
  ghost function Since(a: Arrival, start: Race, steps: seq<Step>): (u64, nat)
    requires a.e.orderType.Limit? && Legal(a, start, steps)
    decreases |steps|
  {
    if steps == [] then (Level(a, start.s), 0)
    else
      var (base, n) := Since(a, start, steps[..|steps| - 1]);
      match steps[|steps| - 1]
      case Book(_) => (base, n + 1)
      case Hydration(_, Some(change)) => (ShownBy(change, a.e.side, a.e.orderType.price), 0)
      case _ => (base, n)
  }

  ghost predicate CalmElsewhere(a: Arrival, start: Race, steps: seq<Step>)
    requires a.e.orderType.Limit? && Legal(a, start, steps)
    decreases |steps|
  {
    steps == []
    || (var before, step := steps[..|steps| - 1], steps[|steps| - 1];
        && CalmElsewhere(a, start, before)
        && (step.Elsewhere? ==> Level(a, step.t) == Level(a, After(a, start, before).s)))
  }

  lemma HydrationResets(a: Arrival, r: Race, step: Step)
    requires a.e.orderType.Limit? && Enabled(a, r, step) && step.Hydration? && step.change.Some?
    ensures Level(a, Next(a, r, step).s) == ShownBy(step.change.value, a.e.side, a.e.orderType.price)
  {
    hide ShownBy, Hydrated, Known;
    HydratedSize(r.s.books, a.spot, step.change.value, a.spot, a.e.side, a.e.orderType.price);
  }

  /** With hydrations among the steps the level holds what the last reply showed, plus the
      amount once for each addition after it. */
  lemma {:induction false} LevelSince(a: Arrival, start: Race, steps: seq<Step>)
    requires a.e.orderType.Limit? && a.e.orderType.price > 0 && a.e.amount > 0
    requires Legal(a, start, steps) && CalmElsewhere(a, start, steps)
    ensures var (base, n) := Since(a, start, steps);
            Level(a, After(a, start, steps).s) == Repeated(base, a.e.amount, n)
    decreases |steps|
  {
    hide Enabled, Next, Level, SatAdd, ShownBy;
    if steps != [] {
      var before, step := steps[..|steps| - 1], steps[|steps| - 1];
      var r := After(a, start, before);
      LevelSince(a, start, before);
      if step.Book? {
        BookAdds(a, r, step);
      } else if step.Hydration? && step.change.Some? {
        HydrationResets(a, r, step);
      } else {
        LevelStays(a, r, step);
      }
    }
  }

  // ---------------------------------------------------------------- two paths that both add

  lemma Extend(a: Arrival, start: Race, steps: seq<Step>, step: Step)
    requires Legal(a, start, steps) && Enabled(a, After(a, start, steps), step)
    ensures Legal(a, start, steps + [step])
    ensures After(a, start, steps + [step]) == Next(a, After(a, start, steps), step)
    ensures a.e.orderType.Limit? && CalmRun(a, start, steps) && Calm(a, After(a, start, steps), step) ==>
              CalmRun(a, start, steps + [step])
  {
    hide Enabled, Next, Calm;
    var all := steps + [step];
    assert all[..|all| - 1] == steps && all[|all| - 1] == step;
  }

  /** A path that checks while the order is not indexed comes as far as the book. */
  lemma CheckIn(a: Arrival, start: Race, steps: seq<Step>, i: nat) returns (t: seq<Step>)
    requires a.e.orderType.Limit? && Legal(a, start, steps) && CalmRun(a, start, steps)
    requires var r := After(a, start, steps);
             At(r, i, Checking) && !r.paths[i].path.SkipsBook() && !Known(a, r.s) && a.spot in r.s.books.hydrated
    ensures Legal(a, start, t) && CalmRun(a, start, t)
    ensures After(a, start, t) == Moved(After(a, start, steps), i, Booking)
  {
    hide Legal, After, CalmRun, BookAdded, OrderFiled, Hydrated;
    Extend(a, start, steps, Check(i));
    t := steps + [Check(i)];
    if After(a, start, steps).paths[i].path.Block? {
      Extend(a, start, t, Ready(i));
      t := t + [Ready(i)];
    }
  }

  /** A path past the book files the order. */
  lemma FileIn(a: Arrival, start: Race, steps: seq<Step>, i: nat, order: Order) returns (t: seq<Step>)
    requires a.e.orderType.Limit? && Legal(a, start, steps) && CalmRun(a, start, steps) && order.id == V5(a.key)
    requires var r := After(a, start, steps); At(r, i, LookingUp) && a.spot in r.s.index.spotToMarket
    ensures Legal(a, start, t) && CalmRun(a, start, t)
    ensures var r := After(a, start, steps);
            After(a, start, t)
            == Moved(r, i, Finished)
                 .(s := r.s.(index := OrderFiled(a, r.s.index, order, r.paths[i].path.FilledSoFar())))
  {
    hide Legal, After, CalmRun, BookAdded, OrderFiled, Hydrated;
    Extend(a, start, steps, LookUp(i));
    t := steps + [LookUp(i)];
    Extend(a, start, t, Insert(i, order));
    t := t + [Insert(i, order)];
  }

  /** A post and any other path of a new order can both add it. Two blocks cannot race: one task
      handles them one after the other. */
  lemma BothCanCount(a: Arrival, s: Indexer, p: Path, q: Path, order: Order) returns (steps: seq<Step>)
    requires a.e.orderType.Limit? && a.e.orderType.price > 0 && a.e.amount > 0 && order.id == V5(a.key)
    requires !Known(a, s) && a.spot in s.books.hydrated && a.spot in s.index.spotToMarket
    requires !p.SkipsBook() && !q.SkipsBook() && (p.Http? || q.Http?)
    ensures var start := Race(s, [Progress(p, Checking, false), Progress(q, Checking, false)]);
            && Legal(a, start, steps) && Ended(After(a, start, steps))
            && Level(a, After(a, start, steps).s) == SatAdd(SatAdd(Level(a, s), a.e.amount), a.e.amount)
  {
    hide Legal, After, CalmRun, BookAdded, Level, Repeated;
    var start := Race(s, [Progress(p, Checking, false), Progress(q, Checking, false)]);
    StartsCalm(a, start);
    steps := CheckIn(a, start, [], 0);
    steps := CheckIn(a, start, steps, 1);
    Extend(a, start, steps, Step.Book(0));
    steps := steps + [Step.Book(0)];
    Extend(a, start, steps, Step.Book(1));
    steps := steps + [Step.Book(1)];
    steps := FileIn(a, start, steps, 0, order);
    steps := FileIn(a, start, steps, 1, order);
    LevelCounts(a, start, steps);
    assert Booked(After(a, start, steps)) == {0, 1};
    RepeatedTwice(Level(a, s), a.e.amount);
  }

  lemma Nothing(a: Arrival, start: Race)
    ensures Legal(a, start, []) && After(a, start, []) == start
  {
  }

  lemma StartsCalm(a: Arrival, start: Race)
    requires a.e.orderType.Limit?
    ensures Legal(a, start, []) && After(a, start, []) == start && CalmRun(a, start, [])
  {
  }

  lemma RepeatedTwice(size: u64, amount: u64)
    ensures Repeated(size, amount, 2) == SatAdd(SatAdd(size, amount), amount)
  {
    assert Repeated(size, amount, 1) == SatAdd(size, amount);
  }

  // ---------------------------------------------------------------- a path that runs alone

  /** The sections do to the stores what the handlers' functions say. */
  lemma SectionsAre(sdk: Sdk, s: Indexer, e: OrderCreatedEvent, blockNum: u64)
    ensures var a := Arriving(sdk, e);
            && (Known(a, s) <==> IsIndexed(sdk, s, e))
            && BookAdded(a, s.books, blockNum) == OrderToBook(sdk, s.books, e, a.spot, blockNum)
            && (a.spot in s.index.spotToMarket <==> LookupSpotMarket(sdk, s.index, a.spot).Some?)
  {
    NormalizeIdempotent(sdk, e.market);
    hide Normalize, ChainOrderKey, Created;
  }

  lemma FilingIs(sdk: Sdk, index: IndexState, e: OrderCreatedEvent, status: string, filledRaw: u64)
    ensures var a := Arriving(sdk, e);
            if a.spot in index.spotToMarket then
              var order := NewOrder(sdk, index, index.spotToMarket[a.spot], e, a.spot, status);
              && order.id == V5(a.key)
              && OrderIndexed(sdk, index, e, a.spot, status, filledRaw) == OrderFiled(a, index, order, filledRaw)
            else OrderIndexed(sdk, index, e, a.spot, status, filledRaw) == index
  {
    NormalizeIdempotent(sdk, e.market);
    hide Normalize, ChainOrderKey, FormatPricePieces, FormatTokenAmount;
  }

  ghost predicate Alone(a: Arrival, start: Race, steps: seq<Step>, path: Path, s: Indexer) {
    && Legal(a, start, steps) && |After(a, start, steps).paths| == 1 && After(a, start, steps).paths[0].path == path
    && After(a, start, steps).s == s
  }

  ghost predicate AloneAt(a: Arrival, start: Race, steps: seq<Step>, path: Path, s: Indexer, stage: Stage) {
    Alone(a, start, steps, path, s) && After(a, start, steps).paths[0].stage == stage
  }

  /** The last sections of either path: the lookup, and the insertion if the spot is known. */
  lemma FilesAlone(sdk: Sdk, e: OrderCreatedEvent, start: Race, steps: seq<Step>, path: Path, s: Indexer)
    returns (t: seq<Step>)
    requires AloneAt(Arriving(sdk, e), start, steps, path, s, LookingUp)
    ensures var a := Arriving(sdk, e);
            var index := OrderIndexed(sdk, s.index, e, a.spot, path.Status(), path.FilledSoFar());
            AloneAt(a, start, t, path, s.(index := index), Finished)
  {
    var a := Arriving(sdk, e);
    FilingIs(sdk, s.index, e, path.Status(), path.FilledSoFar());
    hide Arriving, OrderIndexed, NewOrder, OrderFiled, Legal, After, BookAdded, Known, Hydrated;
    Extend(a, start, steps, LookUp(0));
    t := steps + [LookUp(0)];
    if a.spot in s.index.spotToMarket {
      var order := NewOrder(sdk, s.index, s.index.spotToMarket[a.spot], e, a.spot, path.Status());
      Extend(a, start, t, Insert(0, order));
      t := t + [Insert(0, order)];
    }
  }

  lemma BooksAlone(sdk: Sdk, e: OrderCreatedEvent, start: Race, steps: seq<Step>, path: Path, s: Indexer)
    returns (t: seq<Step>)
    requires AloneAt(Arriving(sdk, e), start, steps, path, s, Booking)
    ensures var a := Arriving(sdk, e);
            AloneAt(a, start, t, path, s.(books := OrderToBook(sdk, s.books, e, a.spot, path.Number())), LookingUp)
  {
    hide Arriving, Legal, After, BookAdded, OrderToBook, Known, IsIndexed, LookupSpotMarket, Hydrated, OrderFiled;
    var a := Arriving(sdk, e);
    SectionsAre(sdk, s, e, path.Number());
    Extend(a, start, steps, Step.Book(0));
    t := steps + [Step.Book(0)];
  }

  lemma ChecksAlone(sdk: Sdk, e: OrderCreatedEvent, path: Path, s: Indexer) returns (t: seq<Step>)
    ensures AloneAt(Arriving(sdk, e), Race(s, [Progress(path, Checking, false)]), t, path, s,
                    AfterCheck(path, !IsIndexed(sdk, s, e)))
  {
    hide Arriving, BookAdded, OrderToBook, Known, IsIndexed, LookupSpotMarket, Hydrated, OrderFiled, Legal, After;
    var a, start := Arriving(sdk, e), Race(s, [Progress(path, Checking, false)]);
    SectionsAre(sdk, s, e, 0);
    Nothing(a, start);
    Extend(a, start, [], Check(0));
    t := [] + [Check(0)];
  }

  lemma ReadiesAlone(sdk: Sdk, e: OrderCreatedEvent, start: Race, steps: seq<Step>, path: Path,
                     s: Indexer, reply: ChainReply)
    returns (t: seq<Step>)
    requires AloneAt(Arriving(sdk, e), start, steps, path, s, Readying)
    ensures var a := Arriving(sdk, e);
            var (s', ready) := Ensured(sdk, s, a.spot, reply);
            AloneAt(a, start, t, path, s', if ready then Booking else LookingUp)
  {
    var a := Arriving(sdk, e);
    EnsuredIs(sdk, s, e, reply);
    hide Arriving, Legal, After, BookAdded, OrderFiled, Known, Ensured, HydrateChange, Hydrated;
    Extend(a, start, steps, Ready(0));
    t := steps + [Ready(0)];
    if a.spot !in s.books.hydrated {
      Extend(a, start, t, Hydration(0, HydrateChange(sdk, s.index, a.spot, reply)));
      t := t + [Hydration(0, HydrateChange(sdk, s.index, a.spot, reply))];
    }
  }

  lemma EnsuredIs(sdk: Sdk, s: Indexer, e: OrderCreatedEvent, reply: ChainReply)
    ensures var spot := Arriving(sdk, e).spot;
            var change := HydrateChange(sdk, s.index, spot, reply);
            && (change.Some? ==> change.value.Hydrate?)
            && (Ensured(sdk, s, spot, reply)
                == if spot in s.books.hydrated then (s, true)
                   else if change.Some? then (s.(books := Hydrated(s.books, spot, change.value)), true)
                   else (s, false))
  {
    NormalizeIdempotent(sdk, e.market);
    hide Normalize, ChainOrderKey, Hydrated;
  }

  /** A block's path that nothing interrupts does what the block handler does. */
  lemma BlockAlone(sdk: Sdk, s: Indexer, env: Env, e: OrderCreatedEvent, blockNum: u64) returns (t: seq<Step>)
    ensures AloneAt(Arriving(sdk, e), Race(s, [Progress(Block(blockNum), Checking, false)]), t, Block(blockNum),
                    CreatedHandled(sdk, s, env, e, blockNum), Finished)
  {
    hide AloneAt, Normalize, ChainOrderKey, Ensured, OrderToBook, OrderIndexed;
    var path, spot := Block(blockNum), Normalize(sdk, e.market);
    var start := Race(s, [Progress(path, Checking, false)]);
    t := ChecksAlone(sdk, e, path, s);
    if !IsIndexed(sdk, s, e) {
      t := ReadiesAlone(sdk, e, start, t, path, s, env.replies(spot));
      var (s1, ready) := Ensured(sdk, s, spot, env.replies(spot));
      var s2 := if ready then s1.(books := OrderToBook(sdk, s1.books, e, spot, blockNum)) else s1;
      if ready {
        t := BooksAlone(sdk, e, start, t, path, s1);
      }
      t := FilesAlone(sdk, e, start, t, path, s2);
    }
  }

  /** And an HTTP request that nothing interrupts does what its handler does. */
  lemma HttpAlone(sdk: Sdk, s: Indexer, e: OrderCreatedEvent, skipBook: bool, status: string, filledRaw: u64)
    returns (t: seq<Step>)
    ensures AloneAt(Arriving(sdk, e), Race(s, [Progress(Http(skipBook, status, filledRaw), Checking, false)]), t,
                    Http(skipBook, status, filledRaw), FromEvent(sdk, s, e, skipBook, status, filledRaw), Finished)
  {
    hide AloneAt, Normalize, ChainOrderKey, OrderToBook, OrderIndexed, IsIndexed;
    var path := Http(skipBook, status, filledRaw);
    var start := Race(s, [Progress(path, Checking, false)]);
    t := ChecksAlone(sdk, e, path, s);
    var s1 := s;
    if !IsIndexed(sdk, s, e) && !skipBook {
      t := BooksAlone(sdk, e, start, t, path, s);
      s1 := s.(books := OrderToBook(sdk, s.books, e, Normalize(sdk, e.market), 0));
    }
    t := FilesAlone(sdk, e, start, t, path, s1);
  }
}
