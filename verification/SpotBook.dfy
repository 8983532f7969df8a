/** The aggregated book of one spot market: how changes act on it, what it publishes and
    what its depth views and quotes show. */
module SpotBooks {
  import opened Machine
  import opened Decimal

  datatype Side = Buy | Sell

  type Levels = map<u64, u64>

  datatype SpotBook = SpotBook(bids: Levels, asks: Levels, sequence: u64, lastTradePrice: Option<u64>)
  {
    function On(side: Side): Levels {
      match side
      case Buy => bids
      case Sell => asks
    }

    function With(side: Side, levels: Levels): SpotBook {
      match side
      case Buy => this.(bids := levels)
      case Sell => this.(asks := levels)
    }

    /** The size resting at a price; an absent level has size 0. */
    function Size(side: Side, price: u64): u64 {
      SizeAt(On(side), price)
    }
  }

  const EMPTY_BOOK := SpotBook(map[], map[], 0, None)

  function SizeAt(levels: Levels, price: u64): u64 {
    if price in levels then levels[price] else 0
  }

  /** Writing an absolute size; size 0 removes the level. */
  function SetSize(levels: Levels, price: u64, size: u64): Levels {
    if size == 0 then levels - {price} else levels[price := size]
  }

  datatype ChainLevel = ChainLevel(price: u64, totalQuantity: u64)

  datatype Change =
    | LevelChange(side: Side, price: u64, amount: u64, isAdd: bool, blockNum: u64, trade: Option<u64>)
    | Hydrate(bestBids: seq<ChainLevel>, bestAsks: seq<ChainLevel>, trade: Option<u64>)

  function Shifted(current: u64, amount: u64, isAdd: bool): u64 {
    if isAdd then SatAdd(current, amount) else SatSub(current, amount)
  }

  function OrElse<T>(a: Option<T>, b: Option<T>): Option<T> {
    if a.Some? then a else b
  }

  /** The levels of a chain reply: empty ones are skipped, a repeated price keeps its last size. */
  function LoadLevels(levels: seq<ChainLevel>): Levels {
    if levels == [] then map[]
    else
      var before, l := LoadLevels(levels[..|levels| - 1]), levels[|levels| - 1];
      if l.totalQuantity > 0 then before[l.price := l.totalQuantity] else before
  }

  function Apply(book: SpotBook, change: Change): SpotBook {
    match change
    case LevelChange(side, price, amount, isAdd, _, trade) =>
      var next := Shifted(book.Size(side, price), amount, isAdd);
      book.With(side, SetSize(book.On(side), price, next))
          .(sequence := SatAdd(book.sequence, 1), lastTradePrice := OrElse(trade, book.lastTradePrice))
    case Hydrate(bestBids, bestAsks, trade) =>
      SpotBook(LoadLevels(bestBids), LoadLevels(bestAsks), SatAdd(book.sequence, 1),
               OrElse(trade, book.lastTradePrice))
  }

  /** The book after a whole history of changes. */
  function Replay(log: seq<Change>): SpotBook {
    if log == [] then EMPTY_BOOK else Apply(Replay(log[..|log| - 1]), log[|log| - 1])
  }

  predicate Positive(book: SpotBook) {
    && (forall p :: p in book.bids ==> book.bids[p] > 0)
    && (forall p :: p in book.asks ==> book.asks[p] > 0)
  }

  lemma {:induction false} LoadLevelsPositive(levels: seq<ChainLevel>)
    ensures forall p :: p in LoadLevels(levels) ==> LoadLevels(levels)[p] > 0
  {
    if levels != [] {
      LoadLevelsPositive(levels[..|levels| - 1]);
    }
  }

  /** The last entry of a price that is not empty. */
  predicate LastEntry(levels: seq<ChainLevel>, price: u64, i: nat) {
    && i < |levels| && levels[i].price == price && levels[i].totalQuantity > 0
    && forall j :: i < j < |levels| && levels[j].price == price ==> levels[j].totalQuantity == 0
  }

  /** A level is loaded exactly for the prices with a non-empty entry, with the size of the last. */
  lemma {:induction false} LoadedSize(levels: seq<ChainLevel>, price: u64)
    ensures price in LoadLevels(levels) <==> exists i: nat :: LastEntry(levels, price, i)
    ensures forall i: nat :: LastEntry(levels, price, i) ==>
              price in LoadLevels(levels) && LoadLevels(levels)[price] == levels[i].totalQuantity
  {
    if levels != [] {
      var before, last := levels[..|levels| - 1], |levels| - 1;
      LoadedSize(before, price);
      if levels[last].price == price && levels[last].totalQuantity > 0 {
        assert LastEntry(levels, price, last);
      } else {
        assert forall j :: 0 <= j < last ==> before[j] == levels[j];
        assert forall i: nat :: LastEntry(levels, price, i) <==> LastEntry(before, price, i);
      }
    }
  }

  /** No book that any history of changes can reach holds a level of size 0. */
  lemma {:induction false} ReplayPositive(log: seq<Change>)
    ensures Positive(Replay(log))
  {
    if log != [] {
      ReplayPositive(log[..|log| - 1]);
      var c := log[|log| - 1];
      if c.Hydrate? {
        LoadLevelsPositive(c.bestBids);
        LoadLevelsPositive(c.bestAsks);
      }
    }
  }

  // ---------------------------------------------------------------- deltas

  /** A published change: the absolute size its level now has. */
  datatype Delta = Delta(sequence: u64, blockNum: u64, side: Side, price: u64, size: u64, lastTradePrice: Option<u64>)

  function DeltaOf(after: SpotBook, change: Change): Delta
    requires change.LevelChange?
  {
    Delta(after.sequence, change.blockNum, change.side, change.price,
          after.Size(change.side, change.price), after.lastTradePrice)
  }

  datatype BookLevel = BookLevel(price: string, size: string)

  datatype OrderBookDelta = OrderBookDelta(spotMarket: string, sequence: u64, blockNum: u64,
    bids: seq<BookLevel>, asks: seq<BookLevel>, lastTradePrice: Option<string>)

  function EncodePrice(price: Option<u64>): Option<string> {
    match price
    case Some(p) => Some(FormatPricePieces(p))
    case None => None
  }

  function EncodeLevel(price: u64, size: u64): BookLevel {
    BookLevel(FormatPricePieces(price), if size == 0 then "0" else FormatTokenAmount(size))
  }

  function Encode(spot: string, d: Delta): OrderBookDelta {
    var level := [EncodeLevel(d.price, d.size)];
    OrderBookDelta(spot, d.sequence, d.blockNum,
      if d.side == Buy then level else [], if d.side == Sell then level else [],
      EncodePrice(d.lastTradePrice))
  }

  /** Everything a history puts on the delta channel; hydrations put nothing there. */
  function Published(spot: string, log: seq<Change>): seq<OrderBookDelta> {
    if log == [] then []
    else
      var before, c := Published(spot, log[..|log| - 1]), log[|log| - 1];
      if c.LevelChange? then before + [Encode(spot, DeltaOf(Replay(log), c))] else before
  }

  // ---------------------------------------------------------------- views and quotes

  predicate StrictlyAscending(s: seq<u64>) {
    forall i, j :: 0 <= i < j < |s| ==> s[i] < s[j]
  }

  lemma {:induction false} MinOf(s: set<u64>) returns (m: u64)
    requires s != {}
    ensures m in s && forall x :: x in s ==> m <= x
  {
    m :| m in s;
    var t := s - {m};
    assert forall x :: x in s ==> x == m || x in t;
    if t != {} {
      var n := MinOf(t);
      m := if m < n then m else n;
    }
  }

  lemma MinExists(s: set<u64>)
    requires s != {}
    ensures exists m :: m in s && forall x :: x in s ==> m <= x
  {
    var _ := MinOf(s);
  }

  function Least(s: set<u64>): (m: u64)
    requires s != {}
    ensures m in s && forall x :: x in s ==> m <= x
  {
    MinExists(s);
    var m :| m in s && forall x :: x in s ==> m <= x;
    m
  }

  /** The keys of a BTreeMap in iteration order. */
  function Ascending(s: set<u64>): seq<u64> {
    if s == {} then [] else
      var m := Least(s);
      [m] + Ascending(s - {m})
  }

  lemma {:induction false} AscendingKeys(s: set<u64>)
    ensures StrictlyAscending(Ascending(s)) && |Ascending(s)| == |s|
    ensures forall x :: x in Ascending(s) <==> x in s
  {
    if s != {} {
      var m := Least(s);
      AscendingKeys(s - {m});
      var rest := Ascending(s - {m});
      assert forall i :: 0 <= i < |rest| ==> rest[i] in rest;
    }
  }

  function Reversed(s: seq<u64>): seq<u64> {
    seq(|s|, i requires 0 <= i < |s| => s[|s| - 1 - i])
  }

  /** Prices of one side, best first: bids from the highest down, asks from the lowest up. */
  function BestFirst(book: SpotBook, side: Side): seq<u64> {
    match side
    case Buy => Reversed(Ascending(book.bids.Keys))
    case Sell => Ascending(book.asks.Keys)
  }

  predicate Better(side: Side, p: u64, q: u64) {
    if side == Buy then p > q else p < q
  }

  function Prices(book: SpotBook, side: Side, depth: nat): seq<u64> {
    var all := BestFirst(book, side);
    all[..Min(depth, |all|)]
  }

  function Shown(book: SpotBook, side: Side, price: u64): BookLevel {
    BookLevel(FormatPricePieces(price), FormatTokenAmount(book.Size(side, price)))
  }

  function ShownAll(book: SpotBook, side: Side, prices: seq<u64>): (r: seq<BookLevel>)
    ensures |r| == |prices|
  {
    if prices == [] then [] else [Shown(book, side, prices[0])] + ShownAll(book, side, prices[1..])
  }

  function View(book: SpotBook, side: Side, depth: nat): seq<BookLevel> {
    ShownAll(book, side, Prices(book, side, depth))
  }

  lemma {:induction false} ShownAt(book: SpotBook, side: Side, prices: seq<u64>, i: nat)
    requires i < |prices|
    ensures ShownAll(book, side, prices)[i] == Shown(book, side, prices[i])
  {
    if i > 0 {
      ShownAt(book, side, prices[1..], i - 1);
    }
  }

  lemma {:induction false} ShownPrefix(book: SpotBook, side: Side, p: seq<u64>, q: seq<u64>)
    requires p <= q
    ensures ShownAll(book, side, p) <= ShownAll(book, side, q)
  {
    if p != [] {
      ShownPrefix(book, side, p[1..], q[1..]);
    }
  }

  datatype BookSnapshot = BookSnapshot(sequence: u64, bids: seq<BookLevel>, asks: seq<BookLevel>,
    lastTradePrice: Option<string>)

  function BookToResponse(book: SpotBook, depth: nat): BookSnapshot {
    BookSnapshot(book.sequence, View(book, Buy, depth), View(book, Sell, depth),
                 EncodePrice(book.lastTradePrice))
  }

  datatype QuoteDelta = QuoteDelta(spotMarket: string, sequence: u64, blockNum: u64,
    bestBid: Option<BookLevel>, bestAsk: Option<BookLevel>, lastTradePrice: Option<string>)

  function QuoteFromBook(spot: string, blockNum: u64, book: SpotBook): QuoteDelta {
    var bids, asks := Ascending(book.bids.Keys), Ascending(book.asks.Keys);
    QuoteDelta(spot, book.sequence, blockNum,
      if bids == [] then None else Some(Shown(book, Buy, bids[|bids| - 1])),
      if asks == [] then None else Some(Shown(book, Sell, asks[0])),
      EncodePrice(book.lastTradePrice))
  }

  /** The best quotes a history puts on the quote channel, one per level change. */
  function Quoted(spot: string, log: seq<Change>): seq<QuoteDelta> {
    if log == [] then []
    else
      var before, c := Quoted(spot, log[..|log| - 1]), log[|log| - 1];
      if c.LevelChange? then before + [QuoteFromBook(spot, c.blockNum, Replay(log))] else before
  }

  predicate BetterSorted(side: Side, s: seq<u64>) {
    forall i, j :: 0 <= i < j < |s| ==> Better(side, s[i], s[j])
  }

  lemma BestFirstSorted(book: SpotBook, side: Side)
    ensures BetterSorted(side, BestFirst(book, side))
    ensures |BestFirst(book, side)| == |book.On(side)|
    ensures forall p :: p in BestFirst(book, side) <==> p in book.On(side)
  {
    hide Ascending;
    AscendingKeys(book.On(side).Keys);
    match side
    case Buy => ReversedElements(Ascending(book.bids.Keys));
    case Sell => assert BetterSorted(Sell, Ascending(book.asks.Keys));
  }

  lemma ReversedElements(s: seq<u64>)
    requires StrictlyAscending(s)
    ensures BetterSorted(Buy, Reversed(s))
    ensures forall p :: p in Reversed(s) <==> p in s
  {
    forall p | p in s ensures p in Reversed(s) {
      var k :| 0 <= k < |s| && s[k] == p;
      assert Reversed(s)[|s| - 1 - k] == p;
    }
  }

  /** The d best prices and no others: best first, all of them resting, every other price worse. */
  lemma PricesAreBest(book: SpotBook, side: Side, depth: nat)
    ensures |Prices(book, side, depth)| == Min(depth, |book.On(side)|)
    ensures BetterSorted(side, Prices(book, side, depth))
    ensures forall p :: p in Prices(book, side, depth) ==> p in book.On(side)
    ensures forall p :: p in book.On(side) && p !in Prices(book, side, depth) ==>
              WorseThanAll(side, p, Prices(book, side, depth))
  {
    BestFirstSorted(book, side);
    CutIsBest(side, BestFirst(book, side), Min(depth, |book.On(side)|));
  }

  predicate WorseThanAll(side: Side, p: u64, s: seq<u64>) {
    forall i :: 0 <= i < |s| ==> Better(side, s[i], p)
  }

  lemma CutIsBest(side: Side, s: seq<u64>, n: nat)
    requires BetterSorted(side, s) && n <= |s|
    ensures BetterSorted(side, s[..n])
    ensures forall p :: p in s && p !in s[..n] ==> WorseThanAll(side, p, s[..n])
  {
  }

  /** In every reachable book: nothing shown has size "0", deeper views extend shallower ones,
      and the quote shows the heads of the two views at the same sequence. */
  lemma ViewsFaithful(log: seq<Change>, spot: string, blockNum: u64, side: Side, depth: nat, deeper: nat)
    requires depth <= deeper
    ensures var book := Replay(log);
            var quote := QuoteFromBook(spot, blockNum, book);
            && (forall i :: 0 <= i < |View(book, side, depth)| ==> View(book, side, depth)[i].size != "0")
            && View(book, side, depth) <= View(book, side, deeper)
            && quote.sequence == BookToResponse(book, depth).sequence
            && (depth > 0 ==>
                 && quote.bestBid == Head(BookToResponse(book, depth).bids)
                 && quote.bestAsk == Head(BookToResponse(book, depth).asks))
  {
    ReplayPositive(log);
    ShownSizes(Replay(log), side, depth);
    if depth > 0 {
      QuoteHeads(Replay(log), spot, blockNum, depth);
    }
    ViewsExtend(Replay(log), side, depth, deeper);
  }

  lemma ShownSizes(book: SpotBook, side: Side, depth: nat)
    requires Positive(book)
    ensures forall i :: 0 <= i < |View(book, side, depth)| ==> View(book, side, depth)[i].size != "0"
  {
    PricesAreBest(book, side, depth);
    forall i | 0 <= i < |View(book, side, depth)|
      ensures View(book, side, depth)[i].size != "0"
    {
      var p := Prices(book, side, depth)[i];
      ShownAt(book, side, Prices(book, side, depth), i);
      assert p in book.On(side);
      ZeroSize(book.Size(side, p));
    }
  }

  lemma QuoteHeads(book: SpotBook, spot: string, blockNum: u64, depth: nat)
    requires depth > 0
    ensures QuoteFromBook(spot, blockNum, book).bestBid == Head(BookToResponse(book, depth).bids)
    ensures QuoteFromBook(spot, blockNum, book).bestAsk == Head(BookToResponse(book, depth).asks)
  {
  }

  /** A trade price as clients see it. */
  predicate PriceShown(price: Option<u64>, shown: Option<string>) {
    if price.Some? then shown == Some(FormatPricePieces(price.value)) else shown.None?
  }

  /** Quote and snapshot carry the book's own sequence and last trade price; a quote names its spot
      and the block of the change it follows. */
  lemma QuoteCarries(book: SpotBook, spot: string, blockNum: u64, depth: nat)
    ensures var quote, snapshot := QuoteFromBook(spot, blockNum, book), BookToResponse(book, depth);
            && quote.spotMarket == spot && quote.blockNum == blockNum
            && quote.sequence == snapshot.sequence == book.sequence
            && PriceShown(book.lastTradePrice, quote.lastTradePrice)
            && PriceShown(book.lastTradePrice, snapshot.lastTradePrice)
  {
    hide FormatPricePieces, Ascending, View;
  }

  lemma ViewsExtend(book: SpotBook, side: Side, depth: nat, deeper: nat)
    requires depth <= deeper
    ensures View(book, side, depth) <= View(book, side, deeper)
  {
    ShownPrefix(book, side, Prices(book, side, depth), Prices(book, side, deeper));
  }

  function Head<T>(s: seq<T>): Option<T> {
    if s == [] then None else Some(s[0])
  }
}
