/** The client's book as it is on the wire: levels keyed by price strings. */
module WireBooks {
  import opened Machine
  import opened Decimal
  import opened SpotBooks
  import opened Replication

  datatype WireBook = WireBook(bids: map<string, string>, asks: map<string, string>, sequence: u64,
    lastTradePrice: Option<string>)

  function SetLevel(levels: map<string, string>, l: BookLevel): map<string, string> {
    if l.size == "0" then levels - {l.price} else levels[l.price := l.size]
  }

  function SetLevels(levels: map<string, string>, changes: seq<BookLevel>): map<string, string>
    decreases changes
  {
    if changes == [] then levels else SetLevels(SetLevel(levels, changes[0]), changes[1..])
  }

  function FromSnapshot(s: BookSnapshot): WireBook {
    WireBook(SetLevels(map[], s.bids), SetLevels(map[], s.asks), s.sequence, s.lastTradePrice)
  }

  function Merge(w: WireBook, d: OrderBookDelta): WireBook {
    WireBook(SetLevels(w.bids, d.bids), SetLevels(w.asks, d.asks), d.sequence,
             OrElse(d.lastTradePrice, w.lastTradePrice))
  }

  /** The string map shows these levels and nothing else. */
  ghost predicate Renders(w: map<string, string>, m: Levels) {
    && (forall p :: p in m ==> FormatPricePieces(p) in w && w[FormatPricePieces(p)] == FormatTokenAmount(m[p]))
    && (forall k :: k in w ==> exists p :: p in m && FormatPricePieces(p) == k)
  }

  ghost predicate RendersBook(w: WireBook, b: SpotBook) {
    && Renders(w.bids, b.bids) && Renders(w.asks, b.asks)
    && w.sequence == b.sequence && w.lastTradePrice == EncodePrice(b.lastTradePrice)
  }

  /** Prices whose hundredfold fits 64 bits, so that each has a wire key of its own. */
  predicate ExactPrices(m: Levels) {
    forall p :: p in m ==> p <= MAX_EXACT_PRICE
  }

  /** Writing one level on the wire is writing it in the book. */
  lemma SetLevelRenders(w: map<string, string>, m: Levels, price: u64, size: u64)
    requires Renders(w, m) && ExactPrices(m) && price <= MAX_EXACT_PRICE
    ensures Renders(SetLevel(w, EncodeLevel(price, size)), SetSize(m, price, size))
    ensures ExactPrices(SetSize(m, price, size))
  {
    hide FormatPricePieces, FormatTokenAmount;
    ZeroSize(size);
    var w', m' := SetLevel(w, EncodeLevel(price, size)), SetSize(m, price, size);
    forall p | p in m'
      ensures FormatPricePieces(p) in w' && w'[FormatPricePieces(p)] == FormatTokenAmount(m'[p])
    {
      PriceKeyCollision(p, price);
    }
    forall k | k in w' ensures exists p :: p in m' && FormatPricePieces(p) == k {
      if k == FormatPricePieces(price) {
        assert price in m';
      } else {
        var p :| p in m && FormatPricePieces(p) == k;
        assert p in m';
      }
    }
  }

  lemma SetOne(m: map<string, string>, level: BookLevel)
    ensures SetLevels(m, [level]) == SetLevel(m, level) && SetLevels(m, []) == m
  {
  }

  /** A published delta acts on the strings exactly as it acts on the numbers. */
  lemma MergeRenders(w: WireBook, b: SpotBook, spot: string, d: Delta)
    requires RendersBook(w, b) && ExactPrices(b.bids) && ExactPrices(b.asks) && d.price <= MAX_EXACT_PRICE
    ensures RendersBook(Merge(w, Encode(spot, d)), ApplyDelta(b, d))
    ensures ExactPrices(ApplyDelta(b, d).bids) && ExactPrices(ApplyDelta(b, d).asks)
  {
    hide Renders, ExactPrices, FormatPricePieces, FormatTokenAmount, EncodeLevel, SetLevel;
    SetLevelRenders(w.bids, b.bids, d.price, d.size);
    SetLevelRenders(w.asks, b.asks, d.price, d.size);
    var level := EncodeLevel(d.price, d.size);
    SetOne(w.bids, level);
    SetOne(w.asks, level);
  }

  function Restricted(m: Levels, prices: set<u64>): Levels {
    map p | p in m && p in prices :: m[p]
  }

  lemma {:induction false} LoadRenders(w: map<string, string>, book: SpotBook, side: Side,
                                       done: set<u64>, prices: seq<u64>)
    requires Positive(book) && ExactPrices(book.On(side))
    requires forall p :: p in prices ==> p in book.On(side)
    requires Renders(w, Restricted(book.On(side), done))
    ensures Renders(SetLevels(w, ShownAll(book, side, prices)),
                    Restricted(book.On(side), done + set p | p in prices))
    decreases |prices|
  {
    hide Renders, FormatPricePieces, FormatTokenAmount, SetLevel;
    var m := book.On(side);
    if prices == [] {
      assert done + (set p | p in prices) == done;
    } else {
      var p := prices[0];
      assert p in prices;
      SetLevelRenders(w, Restricted(m, done), p, m[p]);
      assert SetSize(Restricted(m, done), p, m[p]) == Restricted(m, done + {p});
      assert Shown(book, side, p) == EncodeLevel(p, m[p]) by { ZeroSize(m[p]); }
      LoadRenders(SetLevel(w, Shown(book, side, p)), book, side, done + {p}, prices[1..]);
      assert prices == [p] + prices[1..];
      assert (done + {p}) + (set q | q in prices[1..]) == done + (set q | q in prices);
    }
  }

  /** A snapshot at least as deep as the book shows the whole book. */
  lemma SnapshotRenders(book: SpotBook, depth: nat)
    requires Positive(book) && ExactPrices(book.bids) && ExactPrices(book.asks)
    requires |book.bids| <= depth && |book.asks| <= depth
    ensures RendersBook(FromSnapshot(BookToResponse(book, depth)), book)
  {
    SideRenders(book, Buy, depth);
    SideRenders(book, Sell, depth);
  }

  lemma SideRenders(book: SpotBook, side: Side, depth: nat)
    requires Positive(book) && ExactPrices(book.On(side)) && |book.On(side)| <= depth
    ensures Renders(SetLevels(map[], View(book, side, depth)), book.On(side))
  {
    hide *;
    BestFirstSorted(book, side);
    AllPrices(book, side, depth);
    LoadRenders(map[], book, side, {}, Prices(book, side, depth));
    ViewShows(book, side, depth);
  }

  lemma ViewShows(book: SpotBook, side: Side, depth: nat)
    ensures View(book, side, depth) == ShownAll(book, side, Prices(book, side, depth))
  {
  }

  lemma AllPrices(book: SpotBook, side: Side, depth: nat)
    requires |book.On(side)| <= depth
    ensures var m, prices := book.On(side), Prices(book, side, depth);
            && (forall p :: p in prices ==> p in m)
            && Renders(map[], Restricted(m, {}))
            && Restricted(m, {} + set p | p in prices) == m
  {
    BestFirstSorted(book, side);
    hide *;
    WholePrices(book, side, depth);
    RestrictedNone(book.On(side));
    RestrictedAll(book.On(side), Prices(book, side, depth));
  }

  lemma WholePrices(book: SpotBook, side: Side, depth: nat)
    requires |BestFirst(book, side)| <= depth
    ensures Prices(book, side, depth) == BestFirst(book, side)
  {
    hide BestFirst;
  }

  lemma RestrictedNone(m: Levels)
    ensures Renders(map[], Restricted(m, {}))
  {
    hide FormatPricePieces, FormatTokenAmount;
  }

  lemma RestrictedAll(m: Levels, prices: seq<u64>)
    requires forall p :: p in prices <==> p in m
    ensures Restricted(m, {} + set p | p in prices) == m
  {
  }

  /** What the client holds determines the server's levels: no two books look alike. */
  lemma RenderingDetermines(w: map<string, string>, m: Levels, n: Levels)
    requires Renders(w, m) && Renders(w, n) && ExactPrices(m) && ExactPrices(n)
    ensures m == n
  {
    hide FormatPricePieces, FormatTokenAmount;
    RenderingIncludes(w, m, n);
    RenderingIncludes(w, n, m);
    assert m.Keys == n.Keys;
  }

  lemma RenderingIncludes(w: map<string, string>, m: Levels, n: Levels)
    requires Renders(w, m) && Renders(w, n) && ExactPrices(m) && ExactPrices(n)
    ensures forall p :: p in m ==> p in n && n[p] == m[p]
  {
    hide FormatPricePieces, FormatTokenAmount;
    forall p | p in m ensures p in n && n[p] == m[p] {
      var q :| q in n && FormatPricePieces(q) == FormatPricePieces(p);
      PriceKeyCollision(p, q);
      TokenInjective(m[p], n[p]);
    }
  }

  // ---------------------------------------------------------------- runs on the wire

  datatype WireMessage = WireSnapshot(snapshot: BookSnapshot) | WireUpdate(delta: OrderBookDelta)

  function ToWire(spot: string, depth: nat, m: Message): WireMessage {
    match m
    case Snapshot(book) => WireSnapshot(BookToResponse(book, depth))
    case Update(d) => WireUpdate(Encode(spot, d))
  }

  /** The replica's rule, applied by a client that sees only strings and sequence numbers. */
  function WireReceive(w: Option<WireBook>, m: WireMessage): (Option<WireBook>, Outcome) {
    match m
    case WireSnapshot(snapshot) => (Some(FromSnapshot(snapshot)), Reset)
    case WireUpdate(d) =>
      if w.None? then (None, Ignored)
      else if d.sequence <= w.value.sequence then (w, Stale)
      else if d.sequence == w.value.sequence + 1 then (Some(Merge(w.value, d)), Applied)
      else (w, Gap)
  }

  /** The wire client shows what the replica holds. */
  ghost predicate Shows(w: Option<WireBook>, replica: Option<SpotBook>) {
    && (w.Some? <==> replica.Some?)
    && (w.Some? ==>
         && RendersBook(w.value, replica.value)
         && ExactPrices(replica.value.bids) && ExactPrices(replica.value.asks))
  }

  /** Snapshots show their whole book, and every price has a wire key of its own. */
  ghost predicate Faithful(depth: nat, m: Message) {
    match m
    case Snapshot(book) =>
      && Positive(book) && ExactPrices(book.bids) && ExactPrices(book.asks)
      && |book.bids| <= depth && |book.asks| <= depth
    case Update(d) => d.price <= MAX_EXACT_PRICE
  }

  lemma WireReceiveShows(spot: string, depth: nat, w: Option<WireBook>, replica: Option<SpotBook>, m: Message)
    requires Shows(w, replica) && Faithful(depth, m)
    ensures Shows(WireReceive(w, ToWire(spot, depth, m)).0, Receive(replica, m).0)
    ensures WireReceive(w, ToWire(spot, depth, m)).1 == Receive(replica, m).1
  {
    hide Renders, ExactPrices, Positive, FromSnapshot, BookToResponse, Merge, ApplyDelta, EncodeLevel, EncodePrice;
    match m
    case Snapshot(book) => SnapshotRenders(book, depth);
    case Update(d) =>
      if w.Some? {
        MergeRenders(w.value, replica.value, spot, d);
      }
  }

  function ReceiveAll(replica: Option<SpotBook>, messages: seq<Message>): Option<SpotBook>
    decreases messages
  {
    if messages == [] then replica else ReceiveAll(Receive(replica, messages[0]).0, messages[1..])
  }

  function WireReceiveAll(spot: string, depth: nat, w: Option<WireBook>, messages: seq<Message>): Option<WireBook>
    decreases messages
  {
    if messages == [] then w
    else WireReceiveAll(spot, depth, WireReceive(w, ToWire(spot, depth, messages[0])).0, messages[1..])
  }

  /** Whatever stream of snapshots and deltas arrives, the string client shows exactly the
      numeric replica, which is the server's book at its sequence. */
  lemma {:induction false} WireClientShowsReplica(spot: string, depth: nat, w: Option<WireBook>,
                                                  replica: Option<SpotBook>, messages: seq<Message>)
    requires Shows(w, replica) && forall i :: 0 <= i < |messages| ==> Faithful(depth, messages[i])
    ensures Shows(WireReceiveAll(spot, depth, w, messages), ReceiveAll(replica, messages))
    decreases messages
  {
    hide Shows, Faithful, Receive, WireReceive;
    if messages != [] {
      WireReceiveShows(spot, depth, w, replica, messages[0]);
      WireClientShowsReplica(spot, depth, WireReceive(w, ToWire(spot, depth, messages[0])).0,
                             Receive(replica, messages[0]).0, messages[1..]);
    }
  }

  /** A wire client that starts from the snapshot at change s and merges the published deltas
      of changes s, s+1, ..., b-1. */
  function WirePlayback(spot: string, w: WireBook, log: seq<Change>, s: nat, b: nat): WireBook
    requires s <= b && LevelChangesOnly(log, s, b)
    decreases b - s
  {
    if s == b then w else WirePlayback(spot, Merge(w, Encode(spot, DeltaAt(log, s))), log, s + 1, b)
  }

  lemma {:induction false} WirePlaybackRenders(spot: string, w: WireBook, x: SpotBook, log: seq<Change>, s: nat, b: nat)
    requires s <= b && LevelChangesOnly(log, s, b)
    requires forall i :: s <= i < b ==> log[i].price <= MAX_EXACT_PRICE
    requires RendersBook(w, x) && ExactPrices(x.bids) && ExactPrices(x.asks)
    ensures RendersBook(WirePlayback(spot, w, log, s, b), Playback(x, log, s, b))
    decreases b - s
  {
    hide RendersBook, Merge, Encode, ApplyDelta, ExactPrices;
    if s < b {
      MergeRenders(w, x, spot, DeltaAt(log, s));
      WirePlaybackRenders(spot, Merge(w, Encode(spot, DeltaAt(log, s))), ApplyDelta(x, DeltaAt(log, s)), log, s + 1, b);
    }
  }

  /** The overlap replay on strings: full-depth snapshot taken at s, deltas of any
      hydration-free stretch around it, and the client's strings show the book at its end. */
  lemma WireOverlapReplay(spot: string, log: seq<Change>, a: nat, s: nat, b: nat, depth: nat)
    requires a <= s <= b && |log| <= U64_MAX && LevelChangesOnly(log, a, b)
    requires forall i :: a <= i < b ==> log[i].price <= MAX_EXACT_PRICE
    requires ExactPrices(Replay(log[..s]).bids) && ExactPrices(Replay(log[..s]).asks)
    requires |Replay(log[..s]).bids| <= depth && |Replay(log[..s]).asks| <= depth
    ensures RendersBook(WirePlayback(spot, FromSnapshot(BookToResponse(Replay(log[..s]), depth)), log, a, b),
                        Replay(log[..b]))
  {
    hide RendersBook, ExactPrices, FromSnapshot, BookToResponse;
    ReplayPositive(log[..s]);
    SnapshotRenders(Replay(log[..s]), depth);
    WirePlaybackRenders(spot, FromSnapshot(BookToResponse(Replay(log[..s]), depth)), Replay(log[..s]), log, a, b);
    OverlapReplay(log, a, s, b);
  }
}
