/** What hydrating does to the books, in terms of the chain's reply itself. */
module Hydrations {
  import opened Machine
  import opened SpotMarkets
  import opened SpotBooks
  import opened BookStores
  import opened IndexStores
  import opened Processor

  /** The spot parses, the chain knows the book, and a trade price can be had: the indexed one
      or else the chain's. */
  predicate CanHydrate(sdk: Sdk, index: IndexState, spot: string, reply: ChainReply) {
    && sdk.parseContract(spot).Some? && reply.Book?
    && (Normalize(sdk, spot) in index.lastTradePriceBySpot || reply.info.Some?)
  }

  /** The chain's size at a price: bids for buying, asks for selling. */
  function ReplySize(reply: ChainReply, side: Side, price: u64): u64
    requires reply.Book?
  {
    SizeAt(LoadLevels(if side.Buy? then reply.bestBids else reply.bestAsks), price)
  }

  /** The book rests exactly what the reply shows, and has no empty levels. */
  ghost predicate ShowsReply(book: SpotBook, reply: ChainReply) {
    reply.Book? && Positive(book) && forall side, price :: book.Size(side, price) == ReplySize(reply, side, price)
  }

  /** The indexed trade price if there is one, else the chain's last price if it has one, else the
      price the book had. */
  predicate ShowsTrade(index: IndexState, key: string, info: Option<Option<u64>>, was: SpotBook, now: SpotBook) {
    if key in index.lastTradePriceBySpot then now.lastTradePrice == Some(index.lastTradePriceBySpot[key])
    else if info.Some? && info.value.Some? then now.lastTradePrice == info.value
    else now.lastTradePrice == was.lastTradePrice
  }

  /** The book shows a trade price that was there to be read. */
  predicate ShowsKnownTrade(index: IndexState, key: string, info: Option<Option<u64>>, now: SpotBook) {
    key in index.lastTradePriceBySpot || (info.Some? && info.value.Some?) ==> ShowsTrade(index, key, info, now, now)
  }

  /** Index, task, channels and the other books are as before; this book is hydrated. */
  ghost predicate OnlyHydrates(s: Indexer, t: Indexer, key: string) {
    && key in t.books.books && t.books.hydrated == s.books.hydrated + {key}
    && t.books.books == s.books.books[key := t.books.books[key]]
    && t.books.publishers == s.books.publishers && t.books.quotePublishers == s.books.quotePublishers
    && t.index == s.index && t.halted == s.halted
  }

  ghost predicate HydratedBy(sdk: Sdk, s: Indexer, t: Indexer, spot: string, reply: ChainReply) {
    var key := Normalize(sdk, spot);
    var was, now := BookAt(s.books, key), BookAt(t.books, key);
    && OnlyHydrates(s, t, key) && reply.Book?
    && ShowsReply(now, reply) && now.sequence == SatAdd(was.sequence, 1)
    && ShowsTrade(s.index, key, reply.info, was, now)
  }

  /** What trying to hydrate a spot does, and whether it succeeded. */
  ghost predicate HydratesExactly(sdk: Sdk, s: Indexer, t: Indexer, spot: string, reply: ChainReply, ok: bool) {
    && (ok <==> CanHydrate(sdk, s.index, spot, reply))
    && (if ok then HydratedBy(sdk, s, t, spot, reply) else t == s)
  }

  lemma LoadedShowsReply(book: SpotBook, reply: ChainReply)
    requires reply.Book? && book.bids == LoadLevels(reply.bestBids) && book.asks == LoadLevels(reply.bestAsks)
    ensures ShowsReply(book, reply)
  {
    LoadLevelsPositive(reply.bestBids);
    LoadLevelsPositive(reply.bestAsks);
    hide LoadLevels;
  }

  /** A hydration succeeds exactly if it can; then the book shows the reply, on its own sides, with
      the right trade price, and nothing else changes. */
  lemma HydrationExact(sdk: Sdk, s: Indexer, spot: string, reply: ChainReply)
    ensures HydratesExactly(sdk, s, SpotHydrated(sdk, s, spot, reply), spot, reply,
                            HydrateChange(sdk, s.index, spot, reply).Some?)
  {
    hide Normalize, LoadLevels, ShowsReply;
    if CanHydrate(sdk, s.index, spot, reply) {
      LoadedShowsReply(BookAt(SpotHydrated(sdk, s, spot, reply).books, Normalize(sdk, spot)), reply);
    }
  }

  /** A book that is hydrated already is left alone; any other is hydrated if that is possible. */
  ghost predicate EnsuresExactly(sdk: Sdk, s: Indexer, t: Indexer, spot: string, reply: ChainReply, ready: bool) {
    if Normalize(sdk, spot) in s.books.hydrated then ready && t == s
    else HydratesExactly(sdk, s, t, spot, reply, ready)
  }

  lemma EnsuringExact(sdk: Sdk, s: Indexer, spot: string, reply: ChainReply)
    ensures var (t, ready) := Ensured(sdk, s, spot, reply);
            EnsuresExactly(sdk, s, t, spot, reply, ready)
  {
    HydrationExact(sdk, s, spot, reply);
    hide Normalize, HydratesExactly, SpotHydrated, HydrateChange;
  }

  // ---------------------------------------------------------------- several spots in turn

  /** The last of these spots with this key whose reply can be used. */
  ghost predicate LastUsable(sdk: Sdk, index: IndexState, spots: seq<string>, replies: string -> ChainReply,
                             key: string, i: nat) {
    && i < |spots| && Usable(sdk, index, spots[i], replies, key)
    && forall j :: i < j < |spots| ==> !Usable(sdk, index, spots[j], replies, key)
  }

  predicate Usable(sdk: Sdk, index: IndexState, spot: string, replies: string -> ChainReply, key: string) {
    Normalize(sdk, spot) == key && CanHydrate(sdk, index, spot, replies(spot))
  }

  /** This book after hydrating the spots in turn: the last usable reply for it, or as it was. */
  ghost predicate BookRefreshed(sdk: Sdk, s: Indexer, t: Indexer, spots: seq<string>, replies: string -> ChainReply,
                                key: string) {
    if exists i: nat :: LastUsable(sdk, s.index, spots, replies, key, i) then
      && key in t.books.books && key in t.books.hydrated
      && forall i: nat :: LastUsable(sdk, s.index, spots, replies, key, i) ==>
           && ShowsReply(BookAt(t.books, key), replies(spots[i]))
           && ShowsKnownTrade(s.index, key, replies(spots[i]).info, BookAt(t.books, key))
    else
      && BookAt(t.books, key) == BookAt(s.books, key) && (key in t.books.books <==> key in s.books.books)
      && (key in t.books.hydrated <==> key in s.books.hydrated)
  }

  lemma UsableLater(sdk: Sdk, index: IndexState, spots: seq<string>, replies: string -> ChainReply, key: string)
    requires spots != []
    ensures forall i: nat :: LastUsable(sdk, index, spots[1..], replies, key, i)
                             ==> LastUsable(sdk, index, spots, replies, key, i + 1)
    ensures forall i: nat :: LastUsable(sdk, index, spots, replies, key, i)
                             ==> if i > 0 then LastUsable(sdk, index, spots[1..], replies, key, i - 1)
                                 else Usable(sdk, index, spots[0], replies, key)
  {
    hide Usable;
    assert forall j :: 0 < j < |spots| ==> spots[j] == spots[1..][j - 1];
  }

  lemma {:induction false} NoneUsable(sdk: Sdk, index: IndexState, spots: seq<string>, replies: string -> ChainReply,
                                      key: string)
    requires forall i: nat :: !LastUsable(sdk, index, spots, replies, key, i)
    ensures forall j :: 0 <= j < |spots| ==> !Usable(sdk, index, spots[j], replies, key)
  {
    hide Usable;
    if spots != [] {
      UsableLater(sdk, index, spots, replies, key);
      NoneUsable(sdk, index, spots[1..], replies, key);
      assert forall j :: 0 < j < |spots| ==> spots[j] == spots[1..][j - 1];
      assert !LastUsable(sdk, index, spots, replies, key, 0);
    }
  }

  /** Hydrating a first spot and then the rest. */
  lemma RefreshedNext(sdk: Sdk, s: Indexer, s1: Indexer, t: Indexer, spots: seq<string>, replies: string -> ChainReply,
                      key: string, ok: bool)
    requires spots != [] && HydratesExactly(sdk, s, s1, spots[0], replies(spots[0]), ok)
    requires BookRefreshed(sdk, s1, t, spots[1..], replies, key)
    ensures BookRefreshed(sdk, s, t, spots, replies, key)
  {
    hide Normalize, CanHydrate, ShowsReply;
    assert s1.index == s.index;
    UsableLater(sdk, s.index, spots, replies, key);
    if i: nat :| LastUsable(sdk, s.index, spots[1..], replies, key, i) {
      assert LastUsable(sdk, s.index, spots, replies, key, i + 1);
    } else {
      NoneUsable(sdk, s.index, spots[1..], replies, key);
      FirstUsable(sdk, s.index, spots, replies, key);
    }
  }

  lemma FirstUsable(sdk: Sdk, index: IndexState, spots: seq<string>, replies: string -> ChainReply, key: string)
    requires spots != [] && forall j :: 0 <= j < |spots[1..]| ==> !Usable(sdk, index, spots[1..][j], replies, key)
    ensures Usable(sdk, index, spots[0], replies, key) <==> LastUsable(sdk, index, spots, replies, key, 0)
  {
    hide Usable;
    assert forall j :: 0 < j < |spots| ==> spots[j] == spots[1..][j - 1];
  }

  /** Whatever fails on the way, each book shows the last usable reply for it, and the others, the
      channels and the index stay as they are. */
  lemma {:induction false} HydrationsExact(sdk: Sdk, s: Indexer, spots: seq<string>, replies: string -> ChainReply,
                                           key: string)
    ensures var t := SpotsHydrated(sdk, s, spots, replies);
            && BookRefreshed(sdk, s, t, spots, replies, key)
            && t.index == s.index && t.halted == s.halted
            && t.books.publishers == s.books.publishers && t.books.quotePublishers == s.books.quotePublishers
    decreases |spots|
  {
    hide Normalize, SpotHydrated, HydrateChange, CanHydrate, ShowsReply, ShowsTrade;
    if spots != [] {
      var spot, rest := spots[0], spots[1..];
      var s1 := SpotHydrated(sdk, s, spot, replies(spot));
      HydrationExact(sdk, s, spot, replies(spot));
      HydrationsExact(sdk, s1, rest, replies, key);
      hide BookRefreshed;
      RefreshedNext(sdk, s, s1, SpotsHydrated(sdk, s, spots, replies), spots, replies, key,
                    HydrateChange(sdk, s.index, spot, replies(spot)).Some?);
    }
  }
}
