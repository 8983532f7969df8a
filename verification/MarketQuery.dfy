/** The market listing: query parameters, filters, sorting and paging. */
module MarketQueries {
  import opened Machine
  import opened Text
  import opened IndexStores
  import opened IndexRuns

  const DEFAULT_MARKETS_PAGE_LIMIT: u32 := 100
  const MAX_MARKETS_PAGE_LIMIT: u32 := 100
  const MAX_MARKETS_SLUG_BATCH := 100
  const MAX_MARKETS_ID_BATCH := 100

  datatype SortOrder = ResolutionDeadline | Slug | Question

  datatype MarketQuery = MarketQuery(
    limit: u32, offset: u32, slug: Option<string>, slugs: seq<string>, marketIds: seq<Uuid>,
    marketAddresses: seq<string>, state: Option<string>, order: SortOrder, ascending: bool)

  datatype Params = Params(
    limit: Option<u32>, offset: Option<u32>, slug: Option<string>, slugs: Option<string>,
    marketIds: Option<string>, marketAddresses: Option<string>, state: Option<string>,
    order: Option<string>, ascending: Option<bool>)

  datatype Result<+T> = Ok(value: T) | BadRequest(reason: string)

  // ---------------------------------------------------------------- parameters

  function GetOr<T>(o: Option<T>, default: T): T {
    if o.Some? then o.value else default
  }

  function SplitCommas(s: string): (pieces: seq<string>)
    ensures |pieces| > 0
    decreases s
  {
    if s == "" then [""]
    else
      var rest := SplitCommas(s[1..]);
      if s[0] == ',' then [""] + rest else [[s[0]] + rest[0]] + rest[1..]
  }

  function KeepItems(pieces: seq<string>): seq<string> {
    if pieces == [] then []
    else
      var item, rest := Trim(pieces[0]), KeepItems(pieces[1..]);
      if item == "" then rest else [item] + rest
  }

  function ParseCsv(value: Option<string>): seq<string> {
    if value.None? then [] else KeepItems(SplitCommas(value.value))
  }

  /** A list item that survives: not empty, no margins, no comma. */
  predicate IsItem(s: string) {
    s != "" && Trimmed(s) && ',' !in s
  }

  function JoinCommas(items: seq<string>): string {
    if items == [] then ""
    else if |items| == 1 then items[0]
    else items[0] + "," + JoinCommas(items[1..])
  }

  lemma {:induction false} SplitFirst(a: string, b: string)
    requires ',' !in a
    ensures SplitCommas(a) == [a]
    ensures SplitCommas(a + "," + b) == [a] + SplitCommas(b)
    decreases a
  {
    if a == "" {
      assert ("" + "," + b)[1..] == b;
    } else {
      var first, rest := [a[0]], a[1..];
      assert a == first + rest && a[0] in a;
      assert (a + "," + b)[1..] == rest + "," + b;
      SplitFirst(rest, b);
      assert SplitCommas(a) == [first + rest];
    }
  }

  /** Items joined by commas are read back. */
  lemma {:induction false} CsvRoundTrip(items: seq<string>)
    requires forall i :: 0 <= i < |items| ==> IsItem(items[i])
    ensures ParseCsv(Some(JoinCommas(items))) == items
  {
    if items == [] {
      assert Trim("") == "";
    } else {
      TrimFixed(items[0]);
      if |items| == 1 {
        SplitFirst(items[0], "");
        assert KeepItems([items[0]]) == [items[0]] + KeepItems([]);
      } else {
        CsvRoundTrip(items[1..]);
        SplitFirst(items[0], JoinCommas(items[1..]));
        var pieces := [items[0]] + SplitCommas(JoinCommas(items[1..]));
        assert pieces[1..] == SplitCommas(JoinCommas(items[1..]));
      }
    }
  }

  lemma {:induction false} PiecesCommaFree(s: string)
    ensures forall i :: 0 <= i < |SplitCommas(s)| ==> ',' !in SplitCommas(s)[i]
    decreases s
  {
    if s != "" {
      PiecesCommaFree(s[1..]);
    }
  }

  lemma TrimKeepsCommaFree(s: string)
    requires ',' !in s
    ensures ',' !in Trim(s)
  {
    var before, after := TrimParts(s);
    hide Trim;
    assert forall c :: c in Trim(s) ==> c in before + Trim(s) + after;
  }

  lemma {:induction false} KeptAreItems(pieces: seq<string>)
    requires forall i :: 0 <= i < |pieces| ==> ',' !in pieces[i]
    ensures forall i :: 0 <= i < |KeepItems(pieces)| ==> IsItem(KeepItems(pieces)[i])
  {
    if pieces != [] {
      KeptAreItems(pieces[1..]);
      TrimFixed(pieces[0]);
      hide Trim, Trimmed;
      TrimKeepsCommaFree(pieces[0]);
    }
  }

  /** Whatever a list parameter says, what is read are items, and writing them reads the same. */
  lemma CsvItems(value: Option<string>)
    ensures forall i :: 0 <= i < |ParseCsv(value)| ==> IsItem(ParseCsv(value)[i])
    ensures ParseCsv(Some(JoinCommas(ParseCsv(value)))) == ParseCsv(value)
  {
    hide IsItem, JoinCommas;
    if value.Some? {
      PiecesCommaFree(value.value);
      KeptAreItems(SplitCommas(value.value));
    }
    CsvRoundTrip(ParseCsv(value));
  }

  function NonEmpty(value: Option<string>): Option<string> {
    if value.Some? && Trim(value.value) != "" then Some(Trim(value.value)) else None
  }

  function ParseOrder(value: Option<string>): SortOrder {
    match NonEmpty(value)
    case Some(v) => if v == "slug" then Slug else if v == "question" then Question else ResolutionDeadline
    case None => ResolutionDeadline
  }

  function ParseIds(items: seq<string>, parseUuid: string -> Option<Uuid>): Option<seq<Uuid>> {
    if items == [] then Some([])
    else
      match parseUuid(items[0])
      case None => None
      case Some(id) =>
        match ParseIds(items[1..], parseUuid)
        case None => None
        case Some(rest) => Some([id] + rest)
  }

  function Clamp(v: u32, lo: u32, hi: u32): u32 {
    if v < lo then lo else if v > hi then hi else v
  }

  /** All items are read in order, or one of them is malformed. */
  lemma {:induction false} ParseIdsExact(items: seq<string>, parseUuid: string -> Option<Uuid>)
    ensures var ids := ParseIds(items, parseUuid);
            && (ids.None? <==> exists i :: 0 <= i < |items| && parseUuid(items[i]).None?)
            && (ids.Some? ==> |ids.value| == |items|)
            && (ids.Some? ==> forall i :: 0 <= i < |items| ==> parseUuid(items[i]) == Some(ids.value[i]))
  {
    if items != [] {
      ParseIdsExact(items[1..], parseUuid);
      assert forall i :: 0 < i < |items| ==> items[i] == items[1..][i - 1];
    }
  }

  function BuildMarketQuery(p: Params, parseUuid: string -> Option<Uuid>): Result<MarketQuery> {
    var slugs, addresses, ids := ParseCsv(p.slugs), ParseCsv(p.marketAddresses), ParseCsv(p.marketIds);
    if |slugs| > MAX_MARKETS_SLUG_BATCH then BadRequest("slugs")
    else if |addresses| > MAX_MARKETS_ID_BATCH then BadRequest("market_addresses")
    else if |ids| > MAX_MARKETS_ID_BATCH then BadRequest("market_ids")
    else
      match ParseIds(ids, parseUuid)
      case None => BadRequest("market id")
      case Some(parsed) =>
        Ok(MarketQuery(Clamp(GetOr(p.limit, DEFAULT_MARKETS_PAGE_LIMIT), 1, MAX_MARKETS_PAGE_LIMIT),
                       GetOr(p.offset, 0), NonEmpty(p.slug), slugs, parsed, addresses, NonEmpty(p.state),
                       ParseOrder(p.order), GetOr(p.ascending, true)))
  }

  /** A request is refused exactly for an oversized list or a malformed id; an accepted one
      pages by at least one market and filters by the items the lists hold. */
  lemma QueryAccepted(p: Params, parseUuid: string -> Option<Uuid>)
    ensures var r, ids := BuildMarketQuery(p, parseUuid), ParseCsv(p.marketIds);
            && (r.BadRequest? <==>
                 || |ParseCsv(p.slugs)| > 100 || |ParseCsv(p.marketAddresses)| > 100 || |ids| > 100
                 || exists i :: 0 <= i < |ids| && parseUuid(ids[i]).None?)
            && (r.Ok? ==>
                 && 1 <= r.value.limit <= 100 && r.value.slugs == ParseCsv(p.slugs)
                 && r.value.marketAddresses == ParseCsv(p.marketAddresses)
                 && (forall id :: id in r.value.marketIds
                                  <==> exists i :: 0 <= i < |ids| && parseUuid(ids[i]) == Some(id))
                 && (r.value.slug.Some? ==> Trimmed(r.value.slug.value) && r.value.slug.value != ""))
  {
    var ids := ParseCsv(p.marketIds);
    hide ParseCsv, ParseIds, Trim, ParseOrder;
    ParseIdsExact(ids, parseUuid);
    if p.slug.Some? {
      TrimFixed(p.slug.value);
    }
    var r := BuildMarketQuery(p, parseUuid);
    if r.Ok? {
      forall id ensures id in r.value.marketIds <==> exists i :: 0 <= i < |ids| && parseUuid(ids[i]) == Some(id) {
        if i :| 0 <= i < |ids| && parseUuid(ids[i]) == Some(id) {
          assert r.value.marketIds[i] == id;
        }
      }
    }
  }

  // ---------------------------------------------------------------- filtering

  function Normalized(address: string): string {
    AsciiLower(Trim(address))
  }

  predicate SlugIs(q: MarketQuery, m: Market) {
    q.slug.Some? ==> m.slug == q.slug.value
  }

  predicate SlugListed(q: MarketQuery, m: Market) {
    q.slugs != [] ==> m.slug in q.slugs
  }

  predicate IdListed(q: MarketQuery, m: Market) {
    q.marketIds != [] ==> m.id in q.marketIds
  }

  predicate AddressListed(q: MarketQuery, m: Market) {
    q.marketAddresses != [] ==> exists a :: a in q.marketAddresses && Normalized(a) == Normalized(m.marketAddress)
  }

  predicate StateIs(q: MarketQuery, m: Market) {
    q.state.Some? ==> EqIgnoreAsciiCase(m.state, q.state.value)
  }

  predicate Passes(q: MarketQuery, m: Market) {
    SlugIs(q, m) && SlugListed(q, m) && IdListed(q, m) && AddressListed(q, m) && StateIs(q, m)
  }

  // The filters as conditions to retain by; one without a parameter holds of every market.

  function SlugFilter(q: MarketQuery): Market -> bool {
    m => SlugIs(q, m)
  }

  function SlugsFilter(q: MarketQuery): Market -> bool {
    m => SlugListed(q, m)
  }

  function IdFilter(q: MarketQuery): Market -> bool {
    m => IdListed(q, m)
  }

  function AddressFilter(q: MarketQuery): Market -> bool {
    m => AddressListed(q, m)
  }

  function StateFilter(q: MarketQuery): Market -> bool {
    m => StateIs(q, m)
  }

  function PassFilter(q: MarketQuery): Market -> bool {
    m => Passes(q, m)
  }

  function Retained(s: seq<Market>, keep: Market -> bool): seq<Market> {
    if s == [] then []
    else
      var before, last := Retained(s[..|s| - 1], keep), s[|s| - 1];
      if keep(last) then before + [last] else before
  }

  method Retain(s: seq<Market>, keep: Market -> bool) returns (kept: seq<Market>)
    ensures kept == Retained(s, keep)
  {
    kept := [];
    for i := 0 to |s|
      invariant kept == Retained(s[..i], keep)
    {
      assert s[..i + 1][..i] == s[..i];
      if keep(s[i]) {
        kept := kept + [s[i]];
      }
    }
    assert s[..|s|] == s;
  }

  lemma {:induction false} RetainedSame(s: seq<Market>, f: Market -> bool, g: Market -> bool)
    requires forall m :: m in s ==> f(m) == g(m)
    ensures Retained(s, f) == Retained(s, g)
  {
    if s != [] {
      RetainedSame(s[..|s| - 1], f, g);
    }
  }

  lemma {:induction false} RetainedAll(s: seq<Market>, f: Market -> bool)
    requires forall m :: m in s ==> f(m)
    ensures Retained(s, f) == s
  {
    if s != [] {
      RetainedAll(s[..|s| - 1], f);
      assert s == s[..|s| - 1] + [s[|s| - 1]];
    }
  }

  lemma {:induction false} RetainedCount(s: seq<Market>, keep: Market -> bool, m: Market)
    ensures multiset(Retained(s, keep))[m] == if keep(m) then multiset(s)[m] else 0
  {
    if s != [] {
      RetainedCount(s[..|s| - 1], keep, m);
      assert s == s[..|s| - 1] + [s[|s| - 1]];
    }
  }

  lemma {:induction false} RetainedSplit(s: seq<Market>, t: seq<Market>, f: Market -> bool)
    ensures Retained(s + t, f) == Retained(s, f) + Retained(t, f)
  {
    if t == [] {
      assert s + t == s;
    } else {
      var u := s + t;
      assert u[..|u| - 1] == s + t[..|t| - 1];
      RetainedSplit(s, t[..|t| - 1], f);
    }
  }

  lemma RetainedOne(m: Market, f: Market -> bool)
    ensures Retained([m], f) == if f(m) then [m] else []
  {
  }

  /** The filters applied one after the other are all of them at once. */
  lemma RetainedInTurn(s: seq<Market>, q: MarketQuery)
    ensures Retained(Retained(Retained(Retained(Retained(
              s, SlugFilter(q)), SlugsFilter(q)), IdFilter(q)), AddressFilter(q)), StateFilter(q))
            == Retained(s, PassFilter(q))
  {
  }

  // ---------------------------------------------------------------- sorting

  /** The order of Rust strings: by code point, a prefix first. */
  predicate LexLe(a: string, b: string) {
    if a == "" then true
    else if b == "" then false
    else a[0] < b[0] || (a[0] == b[0] && LexLe(a[1..], b[1..]))
  }

  datatype Key = Number(n: u64) | Text(s: string)

  function KeyOf(order: SortOrder, m: Market): Key {
    match order
    case ResolutionDeadline => Number(m.resolutionDeadline)
    case Slug => Text(m.slug)
    case Question => Text(m.question)
  }

  predicate KeyLe(a: Key, b: Key) {
    match (a, b)
    case (Number(m), Number(n)) => m <= n
    case (Text(s), Text(t)) => LexLe(s, t)
    case (Number(_), Text(_)) => true
    case (Text(_), Number(_)) => false
  }

  /** How answers are sorted: by which key, and in which direction. */
  datatype Sorting = Sorting(order: SortOrder, ascending: bool)

  function SortingOf(q: MarketQuery): Sorting {
    Sorting(q.order, q.ascending)
  }

  /** `a` may stand before `b` in the answer. */
  predicate Before(how: Sorting, a: Market, b: Market) {
    if how.ascending then KeyLe(KeyOf(how.order, a), KeyOf(how.order, b))
    else KeyLe(KeyOf(how.order, b), KeyOf(how.order, a))
  }

  lemma {:induction false} LexTotal(a: string, b: string)
    ensures LexLe(a, b) || LexLe(b, a)
    ensures LexLe(a, b) && LexLe(b, a) ==> a == b
  {
    if a != "" && b != "" {
      LexTotal(a[1..], b[1..]);
      assert a == [a[0]] + a[1..] && b == [b[0]] + b[1..];
    }
  }

  lemma {:induction false} LexTransitive(a: string, b: string, c: string)
    requires LexLe(a, b) && LexLe(b, c)
    ensures LexLe(a, c)
  {
    if a != "" && a[0] == b[0] == c[0] {
      LexTransitive(a[1..], b[1..], c[1..]);
    }
  }

  lemma BeforeTotal(how: Sorting, a: Market, b: Market)
    ensures Before(how, a, b) || Before(how, b, a)
    ensures Before(how, a, b) && Before(how, b, a) <==> KeyOf(how.order, a) == KeyOf(how.order, b)
  {
    LexTotal(a.slug, b.slug);
    LexTotal(a.question, b.question);
    hide LexLe;
  }

  lemma BeforeTransitive(how: Sorting, a: Market, b: Market, c: Market)
    requires Before(how, a, b) && Before(how, b, c)
    ensures Before(how, a, c)
  {
    hide LexLe;
    var x, y, z := KeyOf(how.order, a), KeyOf(how.order, b), KeyOf(how.order, c);
    if x.Text? {
      if how.ascending {
        LexTransitive(x.s, y.s, z.s);
      } else {
        LexTransitive(z.s, y.s, x.s);
      }
    }
  }

  predicate InOrder(how: Sorting, s: seq<Market>) {
    forall i, j :: 0 <= i < j < |s| ==> Before(how, s[i], s[j])
  }

  function Insert(how: Sorting, m: Market, s: seq<Market>): seq<Market> {
    if s == [] || Before(how, m, s[0]) then [m] + s else [s[0]] + Insert(how, m, s[1..])
  }

  /** The stable sort: equal keys keep their order. */
  function Sorted(how: Sorting, s: seq<Market>): seq<Market> {
    if s == [] then [] else Insert(how, s[0], Sorted(how, s[1..]))
  }

  lemma {:induction false} InsertPermutes(how: Sorting, m: Market, s: seq<Market>)
    ensures multiset(Insert(how, m, s)) == multiset(s) + multiset{m}
  {
    hide Before;
    if s != [] && !Before(how, m, s[0]) {
      InsertPermutes(how, m, s[1..]);
      assert s == [s[0]] + s[1..];
    }
  }

  lemma {:induction false} InsertOrdered(how: Sorting, m: Market, s: seq<Market>)
    requires InOrder(how, s)
    ensures InOrder(how, Insert(how, m, s))
  {
    if s == [] {
    } else if Before(how, m, s[0]) {
      forall i | 0 <= i < |s| ensures Before(how, m, s[i]) {
        if i > 0 {
          BeforeTransitive(how, m, s[0], s[i]);
        }
      }
      hide Before;
    } else {
      BeforeTotal(how, m, s[0]);
      hide Before;
      InsertOrdered(how, m, s[1..]);
      InsertPermutes(how, m, s[1..]);
      var t := Insert(how, m, s[1..]);
      forall i | 0 <= i < |t| ensures Before(how, s[0], t[i]) {
        assert t[i] in multiset(t);
        assert t[i] == m || t[i] in s[1..];
      }
    }
  }

  /** The answer is sorted, and it is a rearrangement of what was sorted. */
  lemma {:induction false} SortedPermutation(how: Sorting, s: seq<Market>)
    ensures InOrder(how, Sorted(how, s)) && multiset(Sorted(how, s)) == multiset(s)
  {
    hide Before, Insert;
    if s != [] {
      SortedPermutation(how, s[1..]);
      InsertOrdered(how, s[0], Sorted(how, s[1..]));
      InsertPermutes(how, s[0], Sorted(how, s[1..]));
      assert s == [s[0]] + s[1..];
    }
  }

  function KeyFilter(how: Sorting, key: Key): Market -> bool {
    m => KeyOf(how.order, m) == key
  }

  lemma SwapApart(m: Market, first: Market, t: seq<Market>, rest: seq<Market>, f: Market -> bool)
    requires !(f(m) && f(first)) && Retained(t, f) == Retained([m] + rest, f)
    ensures Retained([first] + t, f) == Retained([m] + ([first] + rest), f)
  {
    hide Retained;
    RetainedSplit([first], t, f);
    RetainedSplit([m], rest, f);
    RetainedSplit([m], [first] + rest, f);
    RetainedSplit([first], rest, f);
    RetainedOne(m, f);
    RetainedOne(first, f);
  }

  lemma {:induction false} InsertStable(how: Sorting, m: Market, s: seq<Market>, key: Key)
    ensures Retained(Insert(how, m, s), KeyFilter(how, key)) == Retained([m] + s, KeyFilter(how, key))
  {
    hide Before, Retained, KeyOf;
    if s != [] && !Before(how, m, s[0]) {
      BeforeTotal(how, m, s[0]);
      InsertStable(how, m, s[1..], key);
      SwapApart(m, s[0], Insert(how, m, s[1..]), s[1..], KeyFilter(how, key));
      assert s == [s[0]] + s[1..];
    }
  }

  /** Markets with the same key keep the order they came in. */
  lemma {:induction false} SortedStable(how: Sorting, s: seq<Market>, key: Key)
    ensures Retained(Sorted(how, s), KeyFilter(how, key)) == Retained(s, KeyFilter(how, key))
  {
    hide Before, Insert, Retained;
    if s != [] {
      var f := KeyFilter(how, key);
      SortedStable(how, s[1..], key);
      InsertStable(how, s[0], Sorted(how, s[1..]), key);
      RetainedSplit([s[0]], Sorted(how, s[1..]), f);
      RetainedSplit([s[0]], s[1..], f);
      assert s == [s[0]] + s[1..];
    }
  }

  lemma SortedHeads(how: Sorting, s: seq<Market>, t: seq<Market>)
    requires s != [] && t != []
    requires InOrder(how, s) && InOrder(how, t)
    requires s[0] in t && t[0] in s && KeysDistinct(how, s)
    ensures s[0] == t[0]
  {
    hide Before, KeyOf;
    BeforeTotal(how, s[0], t[0]);
  }

  lemma SameTails(s: seq<Market>, t: seq<Market>)
    requires s != [] && t != [] && s[0] == t[0] && multiset(s) == multiset(t)
    ensures multiset(s[1..]) == multiset(t[1..])
  {
    assert s == [s[0]] + s[1..] && t == [t[0]] + t[1..];
    assert multiset(s[1..]) == multiset(s) - multiset{s[0]};
  }

  /** Distinct keys leave one sorted arrangement. */
  lemma {:induction false} SortedUnique(how: Sorting, s: seq<Market>, t: seq<Market>)
    requires InOrder(how, s) && InOrder(how, t) && multiset(s) == multiset(t)
    requires KeysDistinct(how, s)
    ensures s == t
  {
    assert |multiset(s)| == |s| && |multiset(t)| == |t|;
    if s != [] {
      hide Before, KeyOf;
      assert s[0] in multiset(t) && t[0] in multiset(s);
      SortedHeads(how, s, t);
      SameTails(s, t);
      SortedUnique(how, s[1..], t[1..]);
      assert s == [s[0]] + s[1..] && t == [t[0]] + t[1..];
    }
  }

  predicate KeysDistinct(how: Sorting, s: seq<Market>) {
    forall a, b :: a in s && b in s && KeyOf(how.order, a) == KeyOf(how.order, b) ==> a == b
  }

  // ---------------------------------------------------------------- the query

  /** All matches in answer order, for one order of iteration over the map. */
  function Matches(q: MarketQuery, listed: seq<Market>): seq<Market> {
    Sorted(SortingOf(q), Retained(listed, PassFilter(q)))
  }

  function Window(s: seq<Market>, offset: nat, limit: nat): seq<Market> {
    s[Min(offset, |s|)..Min(offset + limit, |s|)]
  }

  function Page(q: MarketQuery, listed: seq<Market>): seq<Market> {
    Window(Matches(q, listed), q.offset, q.limit)
  }

  /** `listed` are the values of the market map in the order the map yields them. */
  method QueryMarkets(listed: seq<Market>, q: MarketQuery) returns (page: seq<Market>, total: nat)
    ensures page == Page(q, listed)
    ensures total == |Matches(q, listed)|
  {
    hide Retained, Sorted;
    var markets := listed;
    if q.slug.Some? {
      markets := Retain(markets, SlugFilter(q));
    } else {
      RetainedAll(markets, SlugFilter(q));
    }
    if q.slugs != [] {
      markets := Retain(markets, SlugsFilter(q));
    } else {
      RetainedAll(markets, SlugsFilter(q));
    }
    if q.marketIds != [] {
      markets := Retain(markets, IdFilter(q));
    } else {
      RetainedAll(markets, IdFilter(q));
    }
    if q.marketAddresses != [] {
      markets := Retain(markets, AddressFilter(q));
    } else {
      RetainedAll(markets, AddressFilter(q));
    }
    if q.state.Some? {
      markets := Retain(markets, StateFilter(q));
    } else {
      RetainedAll(markets, StateFilter(q));
    }
    RetainedInTurn(listed, q);
    markets := Sorted(SortingOf(q), markets);
    total := |markets|;
    page := Window(markets, q.offset, q.limit);
  }

  /** The answer is sorted and holds each listed market that passes, as often as it is listed. */
  lemma MatchesExactly(q: MarketQuery, listed: seq<Market>)
    ensures InOrder(SortingOf(q), Matches(q, listed))
    ensures forall m ::
              multiset(Matches(q, listed))[m] == if Passes(q, m) then multiset(listed)[m] else 0
  {
    hide Retained, Sorted, Before, Passes;
    SortedPermutation(SortingOf(q), Retained(listed, PassFilter(q)));
    forall m ensures multiset(Matches(q, listed))[m] == if Passes(q, m) then multiset(listed)[m] else 0 {
      RetainedCount(listed, PassFilter(q), m);
    }
  }

  // ---------------------------------------------------------------- paging

  /** The pages a client gets that asks for offsets 0, limit, 2 * limit, and so on. */
  function Pages(q: MarketQuery, listed: seq<Market>, n: nat): seq<Market>
    requires n > 0 ==> (n - 1) * q.limit <= U32_MAX
  {
    if n == 0 then []
    else
      NextOffset(n, q.limit);
      Pages(q, listed, n - 1) + Page(q.(offset := (n - 1) * q.limit), listed)
  }

  lemma NextOffset(n: nat, limit: nat)
    requires n > 0
    ensures n > 1 ==> (n - 2) * limit <= (n - 1) * limit
    ensures n * limit == (n - 1) * limit + limit
    ensures 0 <= (n - 1) * limit
  {
  }

  /** The first `n` pages are the first `n * limit` matches: nothing twice, nothing skipped. */
  lemma {:induction false} PagesPartition(q: MarketQuery, listed: seq<Market>, n: nat)
    requires n > 0 ==> (n - 1) * q.limit <= U32_MAX
    ensures var all := Matches(q, listed);
            Pages(q, listed, n) == all[..Min(n * q.limit, |all|)]
  {
    hide Matches;
    if n > 0 {
      NextOffset(n, q.limit);
      PagesPartition(q, listed, n - 1);
      MatchesIgnoreOffset(q, listed, (n - 1) * q.limit);
    }
  }

  lemma MatchesIgnoreOffset(q: MarketQuery, listed: seq<Market>, offset: u32)
    ensures Matches(q.(offset := offset), listed) == Matches(q, listed)
  {
    RetainedSame(listed, PassFilter(q.(offset := offset)), PassFilter(q));
  }

  /** Enough pages give the whole answer: every match once. */
  lemma PagesComplete(q: MarketQuery, listed: seq<Market>, n: nat)
    requires n > 0 ==> (n - 1) * q.limit <= U32_MAX
    requires |Matches(q, listed)| <= n * q.limit
    ensures Pages(q, listed, n) == Matches(q, listed)
    ensures forall m ::
              multiset(Pages(q, listed, n))[m] == if Passes(q, m) then multiset(listed)[m] else 0
  {
    hide Matches, Pages, Passes;
    PagesPartition(q, listed, n);
    MatchesExactly(q, listed);
  }

  // ---------------------------------------------------------------- the order the map yields

  /** The ids of the map, each once, in some order. */
  predicate Enumerates(ids: seq<Uuid>, st: IndexState) {
    && (forall id :: id in ids ==> id in st.markets)
    && (forall id :: id in st.markets ==> id in ids)
    && (forall i, j :: 0 <= i < j < |ids| ==> ids[i] != ids[j])
  }

  function Listing(st: IndexState, ids: seq<Uuid>): seq<Market>
    requires forall id :: id in ids ==> id in st.markets
  {
    if ids == [] then [] else [st.markets[ids[0]]] + Listing(st, ids[1..])
  }

  /** Each market of the index is listed once. */
  lemma {:induction false} ListingCount(st: IndexState, ids: seq<Uuid>, m: Market)
    requires SlugsInverse(st)
    requires forall id :: id in ids ==> id in st.markets
    requires forall i, j :: 0 <= i < j < |ids| ==> ids[i] != ids[j]
    ensures multiset(Listing(st, ids))[m] == if m.id in ids && st.markets[m.id] == m then 1 else 0
  {
    if ids != [] {
      ListingCount(st, ids[1..], m);
      assert ids == [ids[0]] + ids[1..];
      assert st.markets[ids[0]].id == ids[0];
    }
  }

  lemma ListingPermuted(st: IndexState, ids: seq<Uuid>, others: seq<Uuid>)
    requires SlugsInverse(st) && Enumerates(ids, st) && Enumerates(others, st)
    ensures multiset(Listing(st, ids)) == multiset(Listing(st, others))
  {
    hide Listing, SlugsInverse;
    forall m: Market ensures multiset(Listing(st, ids))[m] == multiset(Listing(st, others))[m] {
      ListingCount(st, ids, m);
      ListingCount(st, others, m);
    }
  }

  lemma ListingKeysDistinct(st: IndexState, ids: seq<Uuid>, s: seq<Market>)
    requires SlugsInverse(st) && Enumerates(ids, st)
    requires forall m :: m in s ==> m in Listing(st, ids)
    ensures forall a, b :: a in s && b in s && a.slug == b.slug ==> a == b
  {
    forall m | m in s ensures m.id in st.markets && st.markets[m.id] == m {
      assert m in multiset(Listing(st, ids));
      ListingCount(st, ids, m);
    }
  }

  /** A client paging an unchanged index gets each market that passes exactly once. */
  lemma PagesListIndex(st: IndexState, ids: seq<Uuid>, q: MarketQuery, n: nat)
    requires SlugsInverse(st) && Enumerates(ids, st)
    requires n > 0 ==> (n - 1) * q.limit <= U32_MAX
    requires |Matches(q, Listing(st, ids))| <= n * q.limit
    ensures forall m ::
              multiset(Pages(q, Listing(st, ids), n))[m]
              == if m.id in st.markets && st.markets[m.id] == m && Passes(q, m) then 1 else 0
  {
    hide Matches, Pages, Passes, Listing, SlugsInverse;
    PagesComplete(q, Listing(st, ids), n);
    forall m: Market {
      ListingCount(st, ids, m);
    }
  }

  /** Ordered by slug, the answer does not depend on the order the map yields. */
  lemma OrderIndependent(st: IndexState, ids: seq<Uuid>, others: seq<Uuid>, q: MarketQuery)
    requires SlugsInverse(st) && Enumerates(ids, st) && Enumerates(others, st)
    requires q.order == Slug
    ensures Matches(q, Listing(st, ids)) == Matches(q, Listing(st, others))
  {
    hide Listing, SlugsInverse, Passes, Before, Matches;
    ListingPermuted(st, ids, others);
    MatchesExactly(q, Listing(st, ids));
    MatchesExactly(q, Listing(st, others));
    var s, t := Matches(q, Listing(st, ids)), Matches(q, Listing(st, others));
    forall m | m in s ensures m in Listing(st, ids) {
      assert m in multiset(s);
      assert m in multiset(Listing(st, ids));
    }
    ListingKeysDistinct(st, ids, s);
    assert multiset(s) == multiset(t);
    SortedUnique(SortingOf(q), s, t);
  }
}
