/** The store of all spot books: in-place updates, delta and quote channels. */
module BookStores {
  import opened Machine
  import opened SpotBooks
  import opened SpotMarkets

  /** A channel is its creation plus everything ever sent on it. */
  datatype BookState = BookState(
    books: map<string, SpotBook>,
    hydrated: set<string>,
    publishers: map<string, seq<OrderBookDelta>>,
    quotePublishers: map<string, seq<QuoteDelta>>)

  function BookAt(st: BookState, key: string): SpotBook {
    if key in st.books then st.books[key] else EMPTY_BOOK
  }

  function Send<T>(channels: map<string, seq<T>>, key: string, message: T): map<string, seq<T>> {
    if key in channels then channels[key := channels[key] + [message]] else channels
  }

  /** A level change and the two messages it publishes. */
  function Changed(st: BookState, key: string, change: Change): BookState
    requires change.LevelChange?
  {
    var book := Apply(BookAt(st, key), change);
    st.(books := st.books[key := book],
        publishers := Send(st.publishers, key, Encode(key, DeltaOf(book, change))),
        quotePublishers := Send(st.quotePublishers, key, QuoteFromBook(key, change.blockNum, book)))
  }

  /** A hydration replaces the book and publishes nothing. */
  function Hydrated(st: BookState, key: string, change: Change): BookState
    requires change.Hydrate?
  {
    st.(books := st.books[key := Apply(BookAt(st, key), change)], hydrated := st.hydrated + {key})
  }

  function Created(st: BookState, key: string, side: Side, price: u64, amount: u64, blockNum: u64): BookState {
    if price == 0 || amount == 0 then st
    else Changed(st, key, LevelChange(side, price, amount, true, blockNum, None))
  }

  function Cancelled(st: BookState, key: string, side: Side, price: u64, amount: u64, blockNum: u64): BookState {
    if price == 0 || amount == 0 then st
    else Changed(st, key, LevelChange(side, price, amount, false, blockNum, None))
  }

  /** The remaining amount before an update, recovered from the amounts the event carries. */
  function OldRemaining(oldAmount: u64, newAmount: u64, newRemaining: u64): u64 {
    SatSub(oldAmount, SatSub(newAmount, newRemaining))
  }

  function Distance(a: u64, b: u64): u64 {
    if a > b then a - b else b - a
  }

  function Updated(st: BookState, key: string, side: Side, price: u64, oldAmount: u64, newAmount: u64,
                   newRemaining: u64, blockNum: u64): BookState {
    Moved(st, key, side, price, OldRemaining(oldAmount, newAmount, newRemaining), newRemaining, blockNum)
  }

  function Moved(st: BookState, key: string, side: Side, price: u64, oldRemaining: u64, newRemaining: u64,
                 blockNum: u64): BookState {
    if price == 0 || oldRemaining == newRemaining then st
    else Changed(st, key, LevelChange(side, price, Distance(newRemaining, oldRemaining), newRemaining > oldRemaining,
                                      blockNum, None))
  }

  function Filled(st: BookState, key: string, side: Side, price: u64, fillAmount: u64, blockNum: u64,
                  lastTradePrice: u64): BookState {
    if price == 0 || fillAmount == 0 then st
    else Changed(st, key, LevelChange(side, price, fillAmount, false, blockNum, Some(lastTradePrice)))
  }

  // ---------------------------------------------------------------- the history behind a state

  ghost predicate IsSuffix<T>(a: seq<T>, b: seq<T>) {
    |a| <= |b| && b[|b| - |a|..] == a
  }

  type Histories = map<string, seq<Change>>

  function LogAt(log: Histories, key: string): seq<Change> {
    if key in log then log[key] else []
  }

  function Logged(log: Histories, key: string, change: Change): Histories {
    log[key := LogAt(log, key) + [change]]
  }

  /** The book is the replay of this history, and each channel holds its last messages. */
  ghost predicate Tells(history: seq<Change>, st: BookState, key: string) {
    && BookAt(st, key) == Replay(history)
    && (key in st.books <==> history != [])
    && (key in st.hydrated ==> key in st.books)
    && (key in st.publishers ==> IsSuffix(st.publishers[key], Published(key, history)))
    && (key in st.quotePublishers ==> IsSuffix(st.quotePublishers[key], Quoted(key, history)))
  }

  ghost predicate Explains(log: Histories, st: BookState) {
    forall key :: Tells(LogAt(log, key), st, key)
  }

  function Step(st: BookState, key: string, change: Change): BookState {
    if change.LevelChange? then Changed(st, key, change) else Hydrated(st, key, change)
  }

  lemma SendSuffix<T>(sent: seq<T>, all: seq<T>, message: T)
    requires IsSuffix(sent, all)
    ensures IsSuffix(sent + [message], all + [message])
  {
  }

  lemma HistoryNext(history: seq<Change>, change: Change, key: string)
    ensures Replay(history + [change]) == Apply(Replay(history), change)
    ensures Published(key, history + [change]) == Published(key, history) +
              if change.LevelChange? then [Encode(key, DeltaOf(Apply(Replay(history), change), change))] else []
    ensures Quoted(key, history + [change]) == Quoted(key, history) +
              if change.LevelChange? then [QuoteFromBook(key, change.blockNum, Apply(Replay(history), change))] else []
  {
  }

  lemma TellsNext(history: seq<Change>, st: BookState, key: string, change: Change)
    requires Tells(history, st, key)
    ensures Tells(history + [change], Step(st, key, change), key)
  {
    HistoryNext(history, change, key);
    if change.LevelChange? {
      var book := Apply(Replay(history), change);
      if key in st.publishers {
        SendSuffix(st.publishers[key], Published(key, history), Encode(key, DeltaOf(book, change)));
      }
      if key in st.quotePublishers {
        SendSuffix(st.quotePublishers[key], Quoted(key, history), QuoteFromBook(key, change.blockNum, book));
      }
    }
  }

  lemma ExplainsNext(log: Histories, st: BookState, key: string, change: Change)
    requires Explains(log, st)
    ensures Explains(Logged(log, key, change), Step(st, key, change))
  {
    var log', st' := Logged(log, key, change), Step(st, key, change);
    forall k ensures Tells(LogAt(log', k), st', k) {
      assert Tells(LogAt(log, k), st, k);
      if k == key {
        TellsNext(LogAt(log, key), st, key, change);
      }
    }
  }

  lemma OpeningKeeps(log: Histories, st: BookState, key: string)
    requires Explains(log, st)
    ensures key !in st.publishers ==> Explains(log, st.(publishers := st.publishers[key := []]))
    ensures key !in st.quotePublishers ==> Explains(log, st.(quotePublishers := st.quotePublishers[key := []]))
  {
    hide Published, Quoted, Replay;
  }

  lemma ChangedLevel(book: SpotBook, change: Change)
    requires change.LevelChange?
    ensures var next := Shifted(SizeAt(book.On(change.side), change.price), change.amount, change.isAdd);
            var after := book.With(change.side, SetSize(book.On(change.side), change.price, next))
                             .(sequence := SatAdd(book.sequence, 1),
                               lastTradePrice := OrElse(change.trade, book.lastTradePrice));
            && Apply(book, change) == after
            && DeltaOf(after, change)
               == Delta(after.sequence, change.blockNum, change.side, change.price, next, after.lastTradePrice)
  {
    hide SatAdd, SatSub;
  }

  class BookStore {
    const sdk: Sdk
    var books: map<string, SpotBook>
    var chainHydrated: set<string>
    var publishers: map<string, seq<OrderBookDelta>>
    var quotePublishers: map<string, seq<QuoteDelta>>
    ghost var log: Histories

    function State(): BookState
      reads this
    {
      BookState(books, chainHydrated, publishers, quotePublishers)
    }

    ghost predicate Valid()
      reads this
    {
      Explains(log, State())
    }

    constructor (sdk: Sdk)
      ensures Valid() && this.sdk == sdk
      ensures State() == BookState(map[], {}, map[], map[])
    {
      this.sdk := sdk;
      books, chainHydrated, publishers, quotePublishers := map[], {}, map[], map[];
      log := map[];
    }

    method Subscribe(spotMarket: string)
      requires Valid()
      modifies this`publishers
      ensures Valid()
      ensures var key := Normalize(sdk, spotMarket);
              State() == if key in old(publishers) then old(State())
                         else old(State()).(publishers := old(publishers)[key := []])
    {
      hide Explains;
      var key := Normalize(sdk, spotMarket);
      OpeningKeeps(log, State(), key);
      if key !in publishers {
        publishers := publishers[key := []];
      }
    }

    method SubscribeQuote(spotMarket: string)
      requires Valid()
      modifies this`quotePublishers
      ensures Valid()
      ensures var key := Normalize(sdk, spotMarket);
              State() == if key in old(quotePublishers) then old(State())
                         else old(State()).(quotePublishers := old(quotePublishers)[key := []])
    {
      hide Explains;
      var key := Normalize(sdk, spotMarket);
      OpeningKeeps(log, State(), key);
      if key !in quotePublishers {
        quotePublishers := quotePublishers[key := []];
      }
    }

    method Snapshot(spotMarket: string, depth: nat) returns (snapshot: Option<BookSnapshot>)
      ensures var key := Normalize(sdk, spotMarket);
              snapshot == if key in books then Some(BookToResponse(books[key], depth)) else None
    {
      var key := Normalize(sdk, spotMarket);
      if key !in books {
        return None;
      }
      snapshot := Some(BookToResponse(books[key], depth));
    }

    static method CollectLevels(levels: seq<ChainLevel>) returns (collected: Levels)
      ensures collected == LoadLevels(levels)
    {
      collected := map[];
      for i := 0 to |levels|
        invariant collected == LoadLevels(levels[..i])
      {
        assert levels[..i + 1][..i] == levels[..i];
        if levels[i].totalQuantity > 0 {
          collected := collected[levels[i].price := levels[i].totalQuantity];
        }
      }
      assert levels[..|levels|] == levels;
    }

    method HydrateFromChain(spotMarket: string, bestBids: seq<ChainLevel>, bestAsks: seq<ChainLevel>,
                            lastTradePrice: Option<u64>)
      requires Valid()
      modifies this`books, this`chainHydrated, this`log
      ensures Valid()
      ensures State() == Hydrated(old(State()), Normalize(sdk, spotMarket), Hydrate(bestBids, bestAsks, lastTradePrice))
    {
      var key := Normalize(sdk, spotMarket);
      hide Encode, QuoteFromBook, Explains, LoadLevels;
      ghost var change := Hydrate(bestBids, bestAsks, lastTradePrice);
      ExplainsNext(log, State(), key, change);
      log := Logged(log, key, change);
      var book := BookAt(State(), key);
      var bids := CollectLevels(bestBids);
      var asks := CollectLevels(bestAsks);
      book := SpotBook(bids, asks, SatAdd(book.sequence, 1), book.lastTradePrice);
      if lastTradePrice.Some? {
        book := book.(lastTradePrice := lastTradePrice);
      }
      books := books[key := book];
      chainHydrated := chainHydrated + {key};
    }

    method ApplyLevelChange(key: string, side: Side, price: u64, amount: u64, isAdd: bool, blockNum: u64,
                            lastTradePrice: Option<u64>) returns (delta: Delta)
      modifies this`books
      ensures var change := LevelChange(side, price, amount, isAdd, blockNum, lastTradePrice);
              && books == old(books)[key := Apply(BookAt(old(State()), key), change)]
              && delta == DeltaOf(books[key], change)
    {
      hide SatAdd, SatSub, Apply, DeltaOf;
      var book := BookAt(State(), key);
      ChangedLevel(book, LevelChange(side, price, amount, isAdd, blockNum, lastTradePrice));
      var levels := book.On(side);
      var current := if price in levels then levels[price] else 0;
      var next := if isAdd then SatAdd(current, amount) else SatSub(current, amount);
      if next == 0 {
        levels := levels - {price};
      } else {
        levels := levels[price := next];
      }
      book := book.With(side, levels).(sequence := SatAdd(book.sequence, 1));
      if lastTradePrice.Some? {
        book := book.(lastTradePrice := lastTradePrice);
      }
      books := books[key := book];
      delta := Delta(book.sequence, blockNum, side, price, next, book.lastTradePrice);
    }

    method PublishDelta(key: string, delta: Delta)
      requires key in books
      modifies this`publishers, this`quotePublishers
      ensures publishers == Send(old(publishers), key, Encode(key, delta))
      ensures quotePublishers == Send(old(quotePublishers), key, QuoteFromBook(key, delta.blockNum, books[key]))
    {
      hide Encode, QuoteFromBook;
      if key in publishers {
        publishers := publishers[key := publishers[key] + [Encode(key, delta)]];
      }
      if key in quotePublishers {
        var quote := QuoteFromBook(key, delta.blockNum, books[key]);
        quotePublishers := quotePublishers[key := quotePublishers[key] + [quote]];
      }
    }

    /** The two calls every update makes while it holds the lock. */
    method ChangeAndPublish(key: string, side: Side, price: u64, amount: u64, isAdd: bool, blockNum: u64,
                            lastTradePrice: Option<u64>)
      requires Valid()
      modifies this
      ensures Valid()
      ensures State() == Changed(old(State()), key, LevelChange(side, price, amount, isAdd, blockNum, lastTradePrice))
    {
      hide Encode, QuoteFromBook, Explains, Apply, Send, BookAt, SizeAt;
      ghost var change := LevelChange(side, price, amount, isAdd, blockNum, lastTradePrice);
      ExplainsNext(log, State(), key, change);
      log := Logged(log, key, change);
      var delta := ApplyLevelChange(key, side, price, amount, isAdd, blockNum, lastTradePrice);
      PublishDelta(key, delta);
    }

    method ApplyCreated(spotMarket: string, side: Side, price: u64, amount: u64, blockNum: u64)
      requires Valid()
      modifies this
      ensures Valid()
      ensures State() == Created(old(State()), Normalize(sdk, spotMarket), side, price, amount, blockNum)
    {
      hide Changed, Explains;
      if price == 0 || amount == 0 {
        return;
      }
      ChangeAndPublish(Normalize(sdk, spotMarket), side, price, amount, true, blockNum, None);
    }

    method ApplyCancelled(spotMarket: string, side: Side, price: u64, amount: u64, blockNum: u64)
      requires Valid()
      modifies this
      ensures Valid()
      ensures State() == Cancelled(old(State()), Normalize(sdk, spotMarket), side, price, amount, blockNum)
    {
      hide Changed, Explains;
      if price == 0 || amount == 0 {
        return;
      }
      ChangeAndPublish(Normalize(sdk, spotMarket), side, price, amount, false, blockNum, None);
    }

    method ApplyUpdated(spotMarket: string, side: Side, price: u64, oldAmount: u64, newAmount: u64,
                        newRemaining: u64, blockNum: u64)
      requires Valid()
      modifies this
      ensures Valid()
      ensures State() == Updated(old(State()), Normalize(sdk, spotMarket), side, price, oldAmount, newAmount,
                                 newRemaining, blockNum)
    {
      if price == 0 {
        return;
      }
      hide Changed, Explains, Distance, SatSub;
      var filled := SatSub(newAmount, newRemaining);
      var oldRemaining := SatSub(oldAmount, filled);
      if oldRemaining == newRemaining {
        return;
      }
      ChangeAndPublish(Normalize(sdk, spotMarket), side, price, Distance(newRemaining, oldRemaining),
                       newRemaining > oldRemaining, blockNum, None);
    }

    method ApplyFilled(spotMarket: string, side: Side, price: u64, fillAmount: u64, blockNum: u64,
                       lastTradePrice: u64)
      requires Valid()
      modifies this
      ensures Valid()
      ensures State() == Filled(old(State()), Normalize(sdk, spotMarket), side, price, fillAmount,
                                blockNum, lastTradePrice)
    {
      hide Changed, Explains;
      if price == 0 || fillAmount == 0 {
        return;
      }
      ChangeAndPublish(Normalize(sdk, spotMarket), side, price, fillAmount, false, blockNum, Some(lastTradePrice));
    }
  }
}
