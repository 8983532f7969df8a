/** The chain's ledger of limit orders, and the book as a refinement of it. */
module Ledgers {
  import opened Machine
  import opened Decimal
  import opened Sums
  import opened SpotBooks
  import opened BookStores

  datatype OrderKey = OrderKey(spot: string, id: string)

  datatype LedgerOrder = LedgerOrder(side: Side, price: u64, amount: u64, filled: u64, cancelled: bool)
  {
    function Remaining(): u64 {
      if cancelled then 0 else SatSub(amount, filled)
    }
  }

  type Ledger = map<OrderKey, LedgerOrder>

  datatype OrderEvent =
    | Create(side: Side, price: u64, amount: u64)
    | Cancel(side: Side, price: u64, amount: u64)
    | Amend(side: Side, price: u64, oldAmount: u64, newAmount: u64, remaining: u64)
    | Fill(side: Side, price: u64, amount: u64, remaining: u64, isFullyFilled: bool)

  /** Ledger orders rest at a positive price and are never overfilled. */
  predicate Sound(ledger: Ledger) {
    forall k :: k in ledger ==> ledger[k].price > 0 && ledger[k].filled <= ledger[k].amount
  }

  /** What the chain guarantees of an event about this order. */
  predicate WellFormed(ledger: Ledger, key: OrderKey, e: OrderEvent) {
    if e.Create? then key !in ledger && e.price > 0 && e.amount > 0
    else
      && key in ledger
      && var o := ledger[key];
         && !o.cancelled && e.side == o.side && e.price == o.price
         && match e
            case Cancel(_, _, amount) => amount == o.Remaining()
            case Amend(_, _, oldAmount, newAmount, remaining) =>
              oldAmount == o.amount && o.filled <= newAmount && remaining == newAmount - o.filled
            case Fill(_, _, amount, remaining, isFullyFilled) =>
              amount <= o.Remaining() && remaining == o.Remaining() - amount && isFullyFilled == (remaining == 0)
  }

  function OrderAfter(ledger: Ledger, key: OrderKey, e: OrderEvent): LedgerOrder
    requires Sound(ledger) && WellFormed(ledger, key, e)
  {
    match e
    case Create(side, price, amount) => LedgerOrder(side, price, amount, 0, false)
    case Cancel(_, _, _) => ledger[key].(cancelled := true)
    case Amend(_, _, _, newAmount, _) => ledger[key].(amount := newAmount)
    case Fill(_, _, amount, _, _) => ledger[key].(filled := ledger[key].filled + amount)
  }

  function LedgerAfter(ledger: Ledger, key: OrderKey, e: OrderEvent): Ledger
    requires Sound(ledger) && WellFormed(ledger, key, e)
  {
    ledger[key := OrderAfter(ledger, key, e)]
  }

  /** What one order contributes to a level. */
  function RestingAt(spot: string, side: Side, price: u64, k: OrderKey, o: LedgerOrder): nat {
    if k.spot == spot && o.side == side && o.price == price then o.Remaining() else 0
  }

  function Resting(spot: string, side: Side, price: u64): (OrderKey, LedgerOrder) -> nat {
    (k, o) => RestingAt(spot, side, price, k, o)
  }

  ghost function LevelSum(ledger: Ledger, spot: string, side: Side, price: u64): nat {
    Sum(ledger, Resting(spot, side, price))
  }

  function BookEffect(st: BookState, spot: string, e: OrderEvent, blockNum: u64): BookState {
    match e
    case Create(side, price, amount) => Created(st, spot, side, price, amount, blockNum)
    case Cancel(side, price, amount) => Cancelled(st, spot, side, price, amount, blockNum)
    case Amend(side, price, oldAmount, newAmount, remaining) =>
      Updated(st, spot, side, price, oldAmount, newAmount, remaining, blockNum)
    case Fill(side, price, amount, _, _) => Filled(st, spot, side, price, amount, blockNum, price)
  }

  // ---------------------------------------------------------------- one step

  function Moving(size: u64, was: u64, becomes: u64): u64 {
    if becomes >= was then SatAdd(size, becomes - was) else SatSub(size, was - becomes)
  }

  function RemainingIn(ledger: Ledger, key: OrderKey): u64 {
    if key in ledger then ledger[key].Remaining() else 0
  }

  /** One level now has this size; every other level of every book is as before. */
  ghost predicate OnlyLevel(st: BookState, st': BookState, spot: string, side: Side, price: u64, size: u64) {
    && BookAt(st', spot).Size(side, price) == size
    && (forall t, s, p: u64 :: (t, s, p) != (spot, side, price) ==>
          BookAt(st', t).Size(s, p) == BookAt(st, t).Size(s, p))
    && st'.hydrated == st.hydrated
  }

  lemma ChangedSizes(st: BookState, spot: string, change: Change)
    requires change.LevelChange?
    ensures OnlyLevel(st, Changed(st, spot, change), spot, change.side, change.price,
                      Shifted(BookAt(st, spot).Size(change.side, change.price), change.amount, change.isAdd))
  {
    hide Encode, QuoteFromBook;
  }

  /** The amounts an amendment carries determine what was remaining before it. */
  lemma OldRemainingRecovered(ledger: Ledger, key: OrderKey, e: OrderEvent)
    requires Sound(ledger) && WellFormed(ledger, key, e) && e.Amend?
    ensures OldRemaining(e.oldAmount, e.newAmount, e.remaining) == RemainingIn(ledger, key)
  {
  }

  /** For amounts that do not fit together too: what a remainder above the new amount, or fills
      above the old one, leave. */
  lemma OldRemainingBounds(oldAmount: u64, newAmount: u64, remaining: u64)
    ensures var was := OldRemaining(oldAmount, newAmount, remaining);
            && (remaining >= newAmount ==> was == oldAmount)
            && (remaining < newAmount ==> was == if newAmount - remaining <= oldAmount
                                                 then oldAmount + remaining - newAmount else 0)
  {
  }

  /** Every event moves its own level from the old to the new remaining amount of its order,
      and touches no other level of any book. */
  lemma EffectMoves(ledger: Ledger, st: BookState, key: OrderKey, e: OrderEvent, blockNum: u64)
    requires Sound(ledger) && WellFormed(ledger, key, e)
    ensures OnlyLevel(st, BookEffect(st, key.spot, e, blockNum), key.spot, e.side, e.price,
                      Moving(BookAt(st, key.spot).Size(e.side, e.price), RemainingIn(ledger, key),
                             OrderAfter(ledger, key, e).Remaining()))
  {
    hide Changed;
    var spot := key.spot;
    match e
    case Create(side, price, amount) =>
      ChangedSizes(st, spot, LevelChange(side, price, amount, true, blockNum, None));
    case Cancel(side, price, amount) =>
      ChangedSizes(st, spot, LevelChange(side, price, amount, false, blockNum, None));
    case Fill(side, price, amount, _, _) =>
      ChangedSizes(st, spot, LevelChange(side, price, amount, false, blockNum, Some(price)));
    case Amend(side, price, oldAmount, newAmount, remaining) =>
      var was := RemainingIn(ledger, key);
      OldRemainingRecovered(ledger, key, e);
      ChangedSizes(st, spot, LevelChange(side, price, Distance(remaining, was), remaining > was, blockNum, None));
  }

  /** The delta of this change, as clients see it: one level with its new absolute size. */
  predicate DeltaShows(d: OrderBookDelta, spot: string, side: Side, price: u64, blockNum: u64, book: SpotBook) {
    var level := BookLevel(FormatPricePieces(price), FormatTokenAmount(book.Size(side, price)));
    && d.spotMarket == spot && d.blockNum == blockNum && d.sequence == book.sequence
    && d.bids == (if side.Buy? then [level] else []) && d.asks == (if side.Sell? then [level] else [])
    && PriceShown(book.lastTradePrice, d.lastTradePrice)
  }

  predicate QuoteShows(q: QuoteDelta, spot: string, blockNum: u64, book: SpotBook) {
    && q.spotMarket == spot && q.blockNum == blockNum && q.sequence == book.sequence
    && q.bestBid == Head(View(book, Buy, 1)) && q.bestAsk == Head(View(book, Sell, 1))
    && PriceShown(book.lastTradePrice, q.lastTradePrice)
  }

  /** One more message on this channel if it is open; the other channels are as before. */
  ghost predicate SendsOne<T>(channels: map<string, seq<T>>, channels': map<string, seq<T>>, key: string) {
    && channels'.Keys == channels.Keys
    && (forall k :: k in channels && k != key ==> channels'[k] == channels[k])
    && (key in channels ==> |channels'[key]| == |channels[key]| + 1 && channels[key] <= channels'[key])
  }

  /** A change is published once: one delta and one quote, about the book as it is then. */
  ghost predicate Publishes(st: BookState, st': BookState, spot: string, side: Side, price: u64, blockNum: u64) {
    && SendsOne(st.publishers, st'.publishers, spot) && SendsOne(st.quotePublishers, st'.quotePublishers, spot)
    && (spot in st.publishers ==>
          var sent := st'.publishers[spot];
          DeltaShows(sent[|sent| - 1], spot, side, price, blockNum, BookAt(st', spot)))
    && (spot in st.quotePublishers ==>
          var sent := st'.quotePublishers[spot];
          QuoteShows(sent[|sent| - 1], spot, blockNum, BookAt(st', spot)))
  }

  lemma ChangePublishes(st: BookState, spot: string, change: Change)
    requires change.LevelChange?
    ensures var st' := Changed(st, spot, change);
            && Publishes(st, st', spot, change.side, change.price, change.blockNum)
            && BookAt(st', spot).sequence == SatAdd(BookAt(st, spot).sequence, 1)
            && BookAt(st', spot).lastTradePrice
               == (if change.trade.Some? then change.trade else BookAt(st, spot).lastTradePrice)
  {
    hide DeltaShows, QuoteShows, Encode, QuoteFromBook, SizeAt, SetSize, Shifted, SatAdd;
    var book := Apply(BookAt(st, spot), change);
    EncodedDelta(spot, change, book);
    QuoteIs(spot, change.blockNum, book);
  }

  lemma EncodedDelta(spot: string, change: Change, book: SpotBook)
    requires change.LevelChange?
    ensures DeltaShows(Encode(spot, DeltaOf(book, change)), spot, change.side, change.price, change.blockNum, book)
  {
    hide FormatPricePieces, FormatTokenAmount;
    ZeroSize(book.Size(change.side, change.price));
  }

  lemma QuoteIs(spot: string, blockNum: u64, book: SpotBook)
    ensures QuoteShows(QuoteFromBook(spot, blockNum, book), spot, blockNum, book)
  {
    hide QuoteFromBook, View;
    QuoteHeads(book, spot, blockNum, 1);
    QuoteCarries(book, spot, blockNum, 1);
  }

  /** An event that moves its order's remaining amount bumps the sequence and is published once, to
      the subscribers of its spot alone; any other leaves the store as it is. Only a fill brings a
      trade price. */
  lemma EffectPublishes(ledger: Ledger, st: BookState, key: OrderKey, e: OrderEvent, blockNum: u64)
    requires Sound(ledger) && WellFormed(ledger, key, e)
    ensures var st' := BookEffect(st, key.spot, e, blockNum);
            var was, now := BookAt(st, key.spot), BookAt(st', key.spot);
            if RemainingIn(ledger, key) == OrderAfter(ledger, key, e).Remaining() then st' == st
            else
              && Publishes(st, st', key.spot, e.side, e.price, blockNum)
              && now.sequence == SatAdd(was.sequence, 1)
              && now.lastTradePrice == (if e.Fill? then Some(e.price) else was.lastTradePrice)
  {
    hide Changed, Publishes;
    var spot := key.spot;
    match e
    case Create(side, price, amount) =>
      ChangePublishes(st, spot, LevelChange(side, price, amount, true, blockNum, None));
    case Cancel(side, price, amount) =>
      ChangePublishes(st, spot, LevelChange(side, price, amount, false, blockNum, None));
    case Fill(side, price, amount, _, _) =>
      ChangePublishes(st, spot, LevelChange(side, price, amount, false, blockNum, Some(price)));
    case Amend(side, price, oldAmount, newAmount, remaining) =>
      var was := RemainingIn(ledger, key);
      OldRemainingRecovered(ledger, key, e);
      ChangePublishes(st, spot, LevelChange(side, price, Distance(remaining, was), remaining > was, blockNum, None));
  }

  /** The ledger's sums move with it. */
  lemma SumMoves(ledger: Ledger, key: OrderKey, e: OrderEvent, spot: string, side: Side, price: u64)
    requires Sound(ledger) && WellFormed(ledger, key, e)
    ensures var ledger' := LedgerAfter(ledger, key, e);
            LevelSum(ledger', spot, side, price) ==
              if (spot, side, price) == (key.spot, e.side, e.price)
              then LevelSum(ledger, spot, side, price)
                   + OrderAfter(ledger, key, e).Remaining() - RemainingIn(ledger, key)
              else LevelSum(ledger, spot, side, price)
    ensures (spot, side, price) == (key.spot, e.side, e.price) ==>
              LevelSum(ledger, spot, side, price) >= RemainingIn(ledger, key)
  {
    var w := Resting(spot, side, price);
    SumUpdate(ledger, w, key, OrderAfter(ledger, key, e));
    if key in ledger {
      SumRemove(ledger, w, key);
    }
  }

  lemma MovingExact(sum: nat, was: u64, becomes: u64)
    requires was <= sum <= U64_MAX
    ensures Moving(sum, was, becomes) == sum + becomes - was <==> sum + becomes - was <= U64_MAX
  {
  }

  /** A level that agrees with the ledger still agrees after an event exactly when the new
      sum fits 64 bits; beyond that the saturating addition loses the difference. */
  lemma LevelExact(ledger: Ledger, st: BookState, key: OrderKey, e: OrderEvent, blockNum: u64)
    requires Sound(ledger) && WellFormed(ledger, key, e)
    requires BookAt(st, key.spot).Size(e.side, e.price) == LevelSum(ledger, key.spot, e.side, e.price)
    ensures var after := LevelSum(LedgerAfter(ledger, key, e), key.spot, e.side, e.price);
            BookAt(BookEffect(st, key.spot, e, blockNum), key.spot).Size(e.side, e.price) == after <==> after <= U64_MAX
  {
    hide BookEffect, LevelSum, Moving;
    EffectMoves(ledger, st, key, e, blockNum);
    SumMoves(ledger, key, e, key.spot, e.side, e.price);
    MovingExact(LevelSum(ledger, key.spot, e.side, e.price), RemainingIn(ledger, key),
                OrderAfter(ledger, key, e).Remaining());
  }

  // ---------------------------------------------------------------- runs

  /** In these books every level holds what the ledger's live orders there add up to. */
  ghost predicate BookAgrees(spots: set<string>, ledger: Ledger, st: BookState) {
    forall spot, side, price :: spot in spots ==>
      BookAt(st, spot).Size(side, price) == LevelSum(ledger, spot, side, price)
  }

  ghost predicate SumFits(ledger: Ledger, key: OrderKey, e: OrderEvent)
    requires Sound(ledger) && WellFormed(ledger, key, e)
  {
    LevelSum(LedgerAfter(ledger, key, e), key.spot, e.side, e.price) <= U64_MAX
  }

  lemma SoundAfter(ledger: Ledger, key: OrderKey, e: OrderEvent)
    requires Sound(ledger) && WellFormed(ledger, key, e)
    ensures Sound(LedgerAfter(ledger, key, e))
  {
  }

  lemma BookStepAgrees(spots: set<string>, ledger: Ledger, st: BookState, key: OrderKey, e: OrderEvent, blockNum: u64)
    requires Sound(ledger) && WellFormed(ledger, key, e) && BookAgrees(spots, ledger, st)
    requires key.spot in spots ==> SumFits(ledger, key, e)
    ensures BookAgrees(spots, LedgerAfter(ledger, key, e), BookEffect(st, key.spot, e, blockNum))
  {
    hide BookEffect, LevelSum, Moving, RemainingIn, OrderAfter, WellFormed, Sound;
    var ledger', st' := LedgerAfter(ledger, key, e), BookEffect(st, key.spot, e, blockNum);
    EffectMoves(ledger, st, key, e, blockNum);
    if key.spot in spots {
      LevelExact(ledger, st, key, e, blockNum);
    }
    forall spot, side, price | spot in spots
      ensures BookAt(st', spot).Size(side, price) == LevelSum(ledger', spot, side, price)
    {
      SumMoves(ledger, key, e, spot, side, price);
    }
  }

  /** The size a chain's reply shows at a price. */
  function ShownBy(change: Change, side: Side, price: u64): u64
    requires change.Hydrate?
  {
    SizeAt(LoadLevels(if side == Buy then change.bestBids else change.bestAsks), price)
  }

  /** The chain's reply shows the ledger's sums of this spot. */
  ghost predicate ReplyAgrees(ledger: Ledger, spot: string, change: Change)
    requires change.Hydrate?
  {
    forall side, price :: ShownBy(change, side, price) == LevelSum(ledger, spot, side, price)
  }

  lemma HydratedSize(st: BookState, spot: string, change: Change, other: string, side: Side, price: u64)
    requires change.Hydrate?
    ensures BookAt(Hydrated(st, spot, change), other).Size(side, price)
         == if other == spot then ShownBy(change, side, price) else BookAt(st, other).Size(side, price)
  {
    hide LoadLevels;
  }

  /** A hydration, first or later, leaves the books agreeing exactly when the reply agrees with
      the ledger and the other books agreed; what this book held before does not matter. */
  lemma HydrationAgrees(ledger: Ledger, st: BookState, spot: string, change: Change)
    requires change.Hydrate?
    ensures BookAgrees(Hydrated(st, spot, change).hydrated, ledger, Hydrated(st, spot, change))
       <==> BookAgrees(st.hydrated - {spot}, ledger, st) && ReplyAgrees(ledger, spot, change)
  {
  }

  datatype Input = Event(key: OrderKey, event: OrderEvent, blockNum: u64) | Rehydrate(spot: string, change: Change)

  /** Well-formed events whose level sums fit, and hydrations whose replies match the ledger. */
  ghost predicate BookRuns(spots: set<string>, ledger: Ledger, st: BookState, inputs: seq<Input>,
                           ledger': Ledger, st': BookState)
    decreases |inputs|
  {
    if inputs == [] then ledger == ledger' && st == st'
    else
      match inputs[0]
      case Event(key, e, blockNum) =>
        && Sound(ledger) && WellFormed(ledger, key, e)
        && (key.spot in spots ==> SumFits(ledger, key, e))
        && BookRuns(spots, LedgerAfter(ledger, key, e), BookEffect(st, key.spot, e, blockNum),
                    inputs[1..], ledger', st')
      case Rehydrate(spot, change) =>
        && change.Hydrate? && ReplyAgrees(ledger, spot, change)
        && BookRuns(spots, ledger, Hydrated(st, spot, change), inputs[1..], ledger', st')
  }

  lemma RehydrationAgrees(spots: set<string>, ledger: Ledger, st: BookState, spot: string, change: Change)
    requires BookAgrees(spots, ledger, st) && change.Hydrate? && ReplyAgrees(ledger, spot, change)
    ensures BookAgrees(spots, ledger, Hydrated(st, spot, change))
  {
  }

  /** Over every well-formed run the book's levels are the ledger's sums, level by level. */
  lemma {:induction false} BookRefinesLedger(spots: set<string>, ledger: Ledger, st: BookState, inputs: seq<Input>,
                                             ledger': Ledger, st': BookState)
    requires BookAgrees(spots, ledger, st) && BookRuns(spots, ledger, st, inputs, ledger', st')
    ensures BookAgrees(spots, ledger', st')
    decreases |inputs|
  {
    hide BookAgrees, BookEffect, SumFits, WellFormed, Sound, Hydrated, ReplyAgrees;
    if inputs != [] {
      match inputs[0]
      case Event(key, e, blockNum) =>
        BookStepAgrees(spots, ledger, st, key, e, blockNum);
        BookRefinesLedger(spots, LedgerAfter(ledger, key, e), BookEffect(st, key.spot, e, blockNum),
                          inputs[1..], ledger', st');
      case Rehydrate(spot, change) =>
        RehydrationAgrees(spots, ledger, st, spot, change);
        BookRefinesLedger(spots, ledger, Hydrated(st, spot, change), inputs[1..], ledger', st');
    }
  }

  // ---------------------------------------------------------------- hydrating, then applying

  /** A level that starts from what a reply shows moves by the event's difference. */
  lemma HydrateThenApply(ledger: Ledger, st: BookState, key: OrderKey, e: OrderEvent, change: Change, blockNum: u64)
    requires Sound(ledger) && WellFormed(ledger, key, e) && change.Hydrate?
    ensures OnlyLevel(Hydrated(st, key.spot, change), BookEffect(Hydrated(st, key.spot, change), key.spot, e, blockNum),
                      key.spot, e.side, e.price,
                      Moving(ShownBy(change, e.side, e.price), RemainingIn(ledger, key),
                             OrderAfter(ledger, key, e).Remaining()))
  {
    hide Hydrated, BookEffect, Moving, ShownBy, OnlyLevel, OrderAfter, RemainingIn, Sound, WellFormed;
    EffectMoves(ledger, Hydrated(st, key.spot, change), key, e, blockNum);
    HydratedSize(st, key.spot, change, key.spot, e.side, e.price);
  }

  /** Moving from `shown` ends at the moved sum exactly when it started at the sum, or when one
      of the two bounds of the saturating arithmetic absorbs the difference. */
  predicate Reaches(shown: u64, sum: nat, was: u64, becomes: u64) {
    var after := sum + becomes - was;
    && after <= U64_MAX
    && (|| shown == sum
        || (becomes > was && after == U64_MAX && shown + (becomes - was) >= U64_MAX)
        || (becomes < was && after == 0 && shown <= was - becomes))
  }

  lemma MovingReaches(shown: u64, sum: nat, was: u64, becomes: u64)
    requires was <= sum
    ensures Moving(shown, was, becomes) == sum + becomes - was <==> Reaches(shown, sum, was, becomes)
  {
  }

  /** A book that is hydrated when an event arrives, from whatever reply, and then changed by
      the event agrees with the ledger at the event's level exactly when the reply showed the
      sum from before the event, save for the bounds; a reply that already shows the event makes
      the level move twice. */
  lemma HydrateThenApplyExact(ledger: Ledger, st: BookState, key: OrderKey, e: OrderEvent,
                              change: Change, blockNum: u64)
    requires Sound(ledger) && WellFormed(ledger, key, e) && change.Hydrate?
    ensures var after := BookEffect(Hydrated(st, key.spot, change), key.spot, e, blockNum);
            var sum := LevelSum(ledger, key.spot, e.side, e.price);
            var sum' := LevelSum(LedgerAfter(ledger, key, e), key.spot, e.side, e.price);
            var was, becomes := RemainingIn(ledger, key), OrderAfter(ledger, key, e).Remaining();
            BookAt(after, key.spot).Size(e.side, e.price) == sum'
            <==> Reaches(ShownBy(change, e.side, e.price), sum, was, becomes)
  {
    hide Hydrated, BookEffect, Moving, ShownBy, LevelSum, LedgerAfter, OrderAfter, RemainingIn,
         Reaches, Sound, WellFormed;
    HydrateThenApply(ledger, st, key, e, change, blockNum);
    SumMoves(ledger, key, e, key.spot, e.side, e.price);
    MovingReaches(ShownBy(change, e.side, e.price), LevelSum(ledger, key.spot, e.side, e.price),
                  RemainingIn(ledger, key), OrderAfter(ledger, key, e).Remaining());
  }

  /** The reply that already shows the event: the difference counts twice. */
  lemma LateReplyCountsTwice(ledger: Ledger, st: BookState, key: OrderKey, e: OrderEvent, change: Change, blockNum: u64)
    requires Sound(ledger) && WellFormed(ledger, key, e) && change.Hydrate?
    requires ShownBy(change, e.side, e.price) == LevelSum(LedgerAfter(ledger, key, e), key.spot, e.side, e.price)
    ensures var sum := LevelSum(LedgerAfter(ledger, key, e), key.spot, e.side, e.price);
            var was, becomes := RemainingIn(ledger, key), OrderAfter(ledger, key, e).Remaining();
            var size := BookAt(BookEffect(Hydrated(st, key.spot, change), key.spot, e, blockNum),
                               key.spot).Size(e.side, e.price);
            && sum <= U64_MAX && size == Moving(sum, was, becomes)
            && (size == sum <==> was == becomes || (becomes > was && sum == U64_MAX) || (becomes < was && sum == 0))
  {
    hide Hydrated, BookEffect, ShownBy, LevelSum, LedgerAfter, OrderAfter, RemainingIn, Sound, WellFormed;
    HydrateThenApply(ledger, st, key, e, change, blockNum);
  }

  // ---------------------------------------------------------------- levels of reachable books

  /** In a book some history explains, an agreeing level is absent exactly when its sum is 0. */
  lemma AbsentWhenEmpty(log: Histories, spots: set<string>, ledger: Ledger, st: BookState,
                        spot: string, side: Side, price: u64)
    requires Explains(log, st) && BookAgrees(spots, ledger, st) && spot in spots
    ensures price !in BookAt(st, spot).On(side) <==> LevelSum(ledger, spot, side, price) == 0
    ensures price in BookAt(st, spot).On(side) ==>
              BookAt(st, spot).On(side)[price] == LevelSum(ledger, spot, side, price)
  {
    assert Tells(LogAt(log, spot), st, spot);
    ReplayPositive(LogAt(log, spot));
    hide LevelSum, Replay, Published, Quoted;
    assert BookAt(st, spot).Size(side, price) == LevelSum(ledger, spot, side, price);
  }

  /** An event does nothing to the books or makes one level change. */
  lemma EffectIsChange(st: BookState, spot: string, e: OrderEvent, blockNum: u64) returns (change: Option<Change>)
    ensures change.None? ==> BookEffect(st, spot, e, blockNum) == st
    ensures change.Some? ==>
              change.value.LevelChange? && BookEffect(st, spot, e, blockNum) == Changed(st, spot, change.value)
  {
    hide Changed;
    change := None;
    match e
    case Create(side, price, amount) =>
      if price > 0 && amount > 0 {
        change := Some(LevelChange(side, price, amount, true, blockNum, None));
      }
    case Cancel(side, price, amount) =>
      if price > 0 && amount > 0 {
        change := Some(LevelChange(side, price, amount, false, blockNum, None));
      }
    case Amend(side, price, oldAmount, newAmount, remaining) =>
      var was := OldRemaining(oldAmount, newAmount, remaining);
      hide OldRemaining;
      if price > 0 && was != remaining {
        change := Some(LevelChange(side, price, Distance(remaining, was), remaining > was, blockNum, None));
      }
    case Fill(side, price, amount, _, _) =>
      if price > 0 && amount > 0 {
        change := Some(LevelChange(side, price, amount, false, blockNum, Some(price)));
      }
  }

  /** Every state a run reaches from an explained one is explained by a longer history. */
  lemma {:induction false} RunExplained(log: Histories, spots: set<string>, ledger: Ledger, st: BookState,
                                        inputs: seq<Input>, ledger': Ledger, st': BookState) returns (log': Histories)
    requires Explains(log, st) && BookRuns(spots, ledger, st, inputs, ledger', st')
    ensures Explains(log', st')
    decreases |inputs|
  {
    hide Explains, BookEffect, SumFits, WellFormed, Sound, Hydrated, Changed, ReplyAgrees;
    if inputs == [] {
      return log;
    }
    match inputs[0]
    case Event(key, e, blockNum) =>
      var change := EffectIsChange(st, key.spot, e, blockNum);
      var next := log;
      if change.Some? {
        ExplainsNext(log, st, key.spot, change.value);
        next := Logged(log, key.spot, change.value);
      }
      log' := RunExplained(next, spots, LedgerAfter(ledger, key, e), BookEffect(st, key.spot, e, blockNum),
                           inputs[1..], ledger', st');
    case Rehydrate(spot, change) =>
      ExplainsNext(log, st, spot, change);
      log' := RunExplained(Logged(log, spot, change), spots, ledger, Hydrated(st, spot, change),
                           inputs[1..], ledger', st');
  }

  /** A level is there exactly if the ledger's sum is not 0, with that sum. */
  ghost predicate LevelsExact(spots: set<string>, ledger: Ledger, st: BookState) {
    forall spot, side, price :: spot in spots ==>
      && (price in BookAt(st, spot).On(side) <==> LevelSum(ledger, spot, side, price) != 0)
      && (price in BookAt(st, spot).On(side) ==>
            BookAt(st, spot).On(side)[price] == LevelSum(ledger, spot, side, price))
  }

  /** Over every well-formed run from an agreeing state with a history, each level holds the sum
      of the remaining amounts of the live orders there, and is absent exactly when that is 0. */
  lemma RunLevelsExact(log: Histories, spots: set<string>, ledger: Ledger, st: BookState, inputs: seq<Input>,
                       ledger': Ledger, st': BookState)
    requires Explains(log, st) && BookAgrees(spots, ledger, st) && BookRuns(spots, ledger, st, inputs, ledger', st')
    ensures LevelsExact(spots, ledger', st')
  {
    hide Explains, BookAgrees, BookRuns, LevelSum;
    BookRefinesLedger(spots, ledger, st, inputs, ledger', st');
    var log' := RunExplained(log, spots, ledger, st, inputs, ledger', st');
    forall spot, side, price | spot in spots
      ensures price in BookAt(st', spot).On(side) <==> LevelSum(ledger', spot, side, price) != 0
      ensures price in BookAt(st', spot).On(side) ==>
                BookAt(st', spot).On(side)[price] == LevelSum(ledger', spot, side, price)
    {
      AbsentWhenEmpty(log', spots, ledger', st', spot, side, price);
    }
  }

  // ---------------------------------------------------------------- what a wrong level stays

  /** How far a level is from the ledger's sum. */
  ghost function Error(ledger: Ledger, st: BookState, spot: string, side: Side, price: u64): int {
    BookAt(st, spot).Size(side, price) - LevelSum(ledger, spot, side, price)
  }

  /** The event's level has room for the difference, so the arithmetic does not saturate. */
  ghost predicate HitsNoBound(ledger: Ledger, st: BookState, key: OrderKey, e: OrderEvent)
    requires Sound(ledger) && WellFormed(ledger, key, e)
  {
    0 <= BookAt(st, key.spot).Size(e.side, e.price) + OrderAfter(ledger, key, e).Remaining() - RemainingIn(ledger, key)
      <= U64_MAX
  }

  lemma MovingFree(size: u64, was: u64, becomes: u64)
    ensures Moving(size, was, becomes) == size + becomes - was <==> 0 <= size + becomes - was <= U64_MAX
  {
  }

  /** An event neither repairs nor worsens any level of any book: exactly at a bound it does. */
  lemma ErrorStays(ledger: Ledger, st: BookState, key: OrderKey, e: OrderEvent, blockNum: u64,
                   spot: string, side: Side, price: u64)
    requires Sound(ledger) && WellFormed(ledger, key, e)
    ensures (Error(LedgerAfter(ledger, key, e), BookEffect(st, key.spot, e, blockNum), spot, side, price)
             == Error(ledger, st, spot, side, price))
       <==> (spot, side, price) != (key.spot, e.side, e.price) || HitsNoBound(ledger, st, key, e)
  {
    hide BookEffect, LevelSum, LedgerAfter, OrderAfter, RemainingIn, Moving, Sound, WellFormed;
    EffectMoves(ledger, st, key, e, blockNum);
    SumMoves(ledger, key, e, spot, side, price);
    MovingFree(BookAt(st, key.spot).Size(e.side, e.price), RemainingIn(ledger, key),
               OrderAfter(ledger, key, e).Remaining());
  }

  /** Well-formed events that hit no bound, and hydrations with any replies. */
  ghost predicate FreeRuns(ledger: Ledger, st: BookState, inputs: seq<Input>, ledger': Ledger, st': BookState)
    decreases |inputs|
  {
    if inputs == [] then ledger == ledger' && st == st'
    else
      match inputs[0]
      case Event(key, e, blockNum) =>
        && Sound(ledger) && WellFormed(ledger, key, e) && HitsNoBound(ledger, st, key, e)
        && FreeRuns(LedgerAfter(ledger, key, e), BookEffect(st, key.spot, e, blockNum), inputs[1..], ledger', st')
      case Rehydrate(spot, change) =>
        change.Hydrate? && FreeRuns(ledger, Hydrated(st, spot, change), inputs[1..], ledger', st')
  }

  /** The error of the last hydration of this spot, at the moment it happened; the given one if
      there is none. */
  ghost function LastError(error: int, ledger: Ledger, st: BookState, inputs: seq<Input>, ledger': Ledger,
                           st': BookState, spot: string, side: Side, price: u64): int
    requires FreeRuns(ledger, st, inputs, ledger', st')
    decreases |inputs|
  {
    if inputs == [] then error
    else
      match inputs[0]
      case Event(key, e, blockNum) =>
        LastError(error, LedgerAfter(ledger, key, e), BookEffect(st, key.spot, e, blockNum), inputs[1..], ledger', st',
                  spot, side, price)
      case Rehydrate(hydrated, change) =>
        var shown := ShownBy(change, side, price) - LevelSum(ledger, spot, side, price);
        LastError(if hydrated == spot then shown else error, ledger, Hydrated(st, hydrated, change), inputs[1..],
                  ledger', st', spot, side, price)
  }

  /** Whatever replies hydrate the books, however late: each level is wrong by exactly what the
      last reply for its spot was wrong by when it was written. Error 0 is agreement. */
  lemma {:induction false} ErrorLasts(ledger: Ledger, st: BookState, inputs: seq<Input>, ledger': Ledger,
                                      st': BookState, spot: string, side: Side, price: u64)
    requires FreeRuns(ledger, st, inputs, ledger', st')
    ensures Error(ledger', st', spot, side, price)
         == LastError(Error(ledger, st, spot, side, price), ledger, st, inputs, ledger', st', spot, side, price)
    decreases |inputs|
  {
    hide BookEffect, HitsNoBound, WellFormed, Sound, Hydrated, LevelSum, ShownBy, LedgerAfter;
    if inputs != [] {
      match inputs[0]
      case Event(key, e, blockNum) =>
        ErrorStays(ledger, st, key, e, blockNum, spot, side, price);
        ErrorLasts(LedgerAfter(ledger, key, e), BookEffect(st, key.spot, e, blockNum), inputs[1..], ledger', st',
                   spot, side, price);
      case Rehydrate(hydrated, change) =>
        HydratedSize(st, hydrated, change, spot, side, price);
        ErrorLasts(ledger, Hydrated(st, hydrated, change), inputs[1..], ledger', st', spot, side, price);
    }
  }
}
