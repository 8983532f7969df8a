/** The market listing as a client sees it: from request parameters to answers, page by page. */
module MarketRequests {
  import opened Machine
  import opened Text
  import opened IndexStores
  import opened MarketQueries

  type ParseUuid = string -> Option<Uuid>

  datatype MarketsPage = MarketsPage(markets: seq<Market>, total: nat, limit: u32, offset: u32)

  function Answered(p: Params, parseUuid: ParseUuid, listed: seq<Market>): Result<MarketsPage> {
    match BuildMarketQuery(p, parseUuid)
    case BadRequest(reason) => BadRequest(reason)
    case Ok(q) => Ok(MarketsPage(Page(q, listed), |Matches(q, listed)|, q.limit, q.offset))
  }

  method AnswerRequest(p: Params, parseUuid: ParseUuid, listed: seq<Market>) returns (r: Result<MarketsPage>)
    ensures r == Answered(p, parseUuid, listed)
  {
    hide Page, Matches, BuildMarketQuery;
    match BuildMarketQuery(p, parseUuid)
    case BadRequest(reason) =>
      return BadRequest(reason);
    case Ok(q) =>
      var markets, total := QueryMarkets(listed, q);
      r := Ok(MarketsPage(markets, total, q.limit, q.offset));
  }

  // ---------------------------------------------------------------- what a request asks for

  /** A limit from 1 to 100 is taken as it is, another one as the nearer bound; 100 is the default. */
  predicate LimitRead(given: Option<u32>, limit: nat) {
    match given
    case None => limit == 100
    case Some(v) => if v == 0 then limit == 1 else if v <= 100 then limit == v else limit == 100
  }

  predicate OffsetRead(given: Option<u32>, offset: nat) {
    if given.Some? then offset == given.value else offset == 0
  }

  /** The text of a parameter without margins; blank is no text. */
  function Given(value: Option<string>): string {
    if value.Some? then Trim(value.value) else ""
  }

  predicate SameAddress(a: string, b: string) {
    EqIgnoreAsciiCase(Trim(a), Trim(b))
  }

  /** The market meets every condition of the request that is not blank. */
  predicate Wanted(p: Params, parseUuid: ParseUuid, m: Market) {
    var slugs, ids, addresses := ParseCsv(p.slugs), ParseCsv(p.marketIds), ParseCsv(p.marketAddresses);
    && (Given(p.slug) != "" ==> m.slug == Given(p.slug))
    && (slugs != [] ==> m.slug in slugs)
    && (ids != [] ==> exists i :: 0 <= i < |ids| && parseUuid(ids[i]) == Some(m.id))
    && (addresses != [] ==> exists i :: 0 <= i < |addresses| && SameAddress(addresses[i], m.marketAddress))
    && (Given(p.state) != "" ==> EqIgnoreAsciiCase(m.state, Given(p.state)))
  }

  /** `a` may stand before `b`: by slug, by question or by deadline, up unless the request says down. */
  predicate MayPrecede(p: Params, a: Market, b: Market) {
    var up := p.ascending.None? || p.ascending.value;
    if Given(p.order) == "slug" then if up then LexLe(a.slug, b.slug) else LexLe(b.slug, a.slug)
    else if Given(p.order) == "question" then
      if up then LexLe(a.question, b.question) else LexLe(b.question, a.question)
    else if up then a.resolutionDeadline <= b.resolutionDeadline
    else b.resolutionDeadline <= a.resolutionDeadline
  }

  /** All that a request asks for, in an order it asks for. */
  ghost predicate Lists(p: Params, parseUuid: ParseUuid, listed: seq<Market>, all: seq<Market>) {
    && (forall i, j :: 0 <= i < j < |all| ==> MayPrecede(p, all[i], all[j]))
    && (forall m :: multiset(all)[m] == if Wanted(p, parseUuid, m) then multiset(listed)[m] else 0)
  }

  /** The part of the list that the request's own offset and limit cut out. */
  predicate CutFrom(p: Params, all: seq<Market>, page: MarketsPage) {
    && page.total == |all| && LimitRead(p.limit, page.limit) && OffsetRead(p.offset, page.offset)
    && page.markets == if page.offset >= |all| then []
                       else if page.offset + page.limit >= |all| then all[page.offset..]
                       else all[page.offset..page.offset + page.limit]
  }

  /** A list of texts: one before another if it is a prefix, or smaller where they first differ. */
  lemma {:induction false} LexLeMeans(a: string, b: string)
    ensures LexLe(a, b) <==> a <= b || exists k :: 0 <= k < |a| && k < |b| && a[..k] == b[..k] && a[k] < b[k]
  {
    if a != "" && b != "" && a[0] == b[0] {
      LexLeMeans(a[1..], b[1..]);
      LexLeTails(a, b);
    } else if a != "" && b != "" {
      assert a[0] < b[0] ==> a[..0] == b[..0];
    }
  }

  lemma LexLeTails(a: string, b: string)
    requires a != "" && b != "" && a[0] == b[0]
    ensures a <= b <==> a[1..] <= b[1..]
    ensures (exists k :: 0 <= k < |a| && k < |b| && a[..k] == b[..k] && a[k] < b[k])
       <==> (exists k :: 0 <= k < |a[1..]| && k < |b[1..]| && a[1..][..k] == b[1..][..k] && a[1..][k] < b[1..][k])
  {
    assert a == [a[0]] + a[1..] && b == [b[0]] + b[1..];
    if k :| 0 <= k < |a| && k < |b| && a[..k] == b[..k] && a[k] < b[k] {
      assert a[1..][..k - 1] == a[..k][1..] && b[1..][..k - 1] == b[..k][1..];
      assert a[1..][k - 1] < b[1..][k - 1];
    }
    if k :| 0 <= k < |a[1..]| && k < |b[1..]| && a[1..][..k] == b[1..][..k] && a[1..][k] < b[1..][k] {
      assert a[..k + 1] == [a[0]] + a[1..][..k] && b[..k + 1] == [b[0]] + b[1..][..k];
      assert a[k + 1] < b[k + 1];
    }
  }

  // ---------------------------------------------------------------- one answer

  lemma RequestRead(p: Params, parseUuid: ParseUuid, q: MarketQuery)
    requires BuildMarketQuery(p, parseUuid) == Ok(q)
    ensures LimitRead(p.limit, q.limit) && OffsetRead(p.offset, q.offset) && q.limit > 0
    ensures forall o: u32 :: BuildMarketQuery(p.(offset := Some(o)), parseUuid) == Ok(q.(offset := o))
  {
    hide Trim, ParseCsv, ParseIds, ParseOrder, NonEmpty;
  }

  lemma IdWanted(p: Params, parseUuid: ParseUuid, q: MarketQuery, m: Market)
    requires BuildMarketQuery(p, parseUuid) == Ok(q)
    ensures var ids := ParseCsv(p.marketIds);
            IdListed(q, m) <==> ids == [] || exists i :: 0 <= i < |ids| && parseUuid(ids[i]) == Some(m.id)
  {
    hide Trim, ParseCsv, ParseIds, ParseOrder, NonEmpty;
    var ids := ParseCsv(p.marketIds);
    ParseIdsExact(ids, parseUuid);
    if i :| 0 <= i < |ids| && parseUuid(ids[i]) == Some(m.id) {
      assert q.marketIds[i] == m.id;
    }
  }

  lemma AddressWanted(addresses: seq<string>, address: string)
    ensures (exists a :: a in addresses && Normalized(a) == Normalized(address))
       <==> exists i :: 0 <= i < |addresses| && SameAddress(addresses[i], address)
  {
    hide Trim, AsciiLower;
    if i :| 0 <= i < |addresses| && SameAddress(addresses[i], address) {
      assert Normalized(addresses[i]) == Normalized(address);
    }
  }

  lemma WantedPasses(p: Params, parseUuid: ParseUuid, q: MarketQuery, m: Market)
    requires BuildMarketQuery(p, parseUuid) == Ok(q)
    ensures Wanted(p, parseUuid, m) <==> Passes(q, m)
  {
    IdWanted(p, parseUuid, q, m);
    AddressWanted(ParseCsv(p.marketAddresses), m.marketAddress);
    hide Trim, ParseCsv, ParseIds, ParseOrder, AsciiLower, IdListed, SameAddress, Normalized, EqIgnoreAsciiCase;
  }

  lemma OrderRead(p: Params, parseUuid: ParseUuid, q: MarketQuery, a: Market, b: Market)
    requires BuildMarketQuery(p, parseUuid) == Ok(q)
    ensures Before(SortingOf(q), a, b) <==> MayPrecede(p, a, b)
  {
    hide Trim, ParseCsv, ParseIds, LexLe;
  }

  lemma MatchesListed(p: Params, parseUuid: ParseUuid, q: MarketQuery, listed: seq<Market>)
    requires BuildMarketQuery(p, parseUuid) == Ok(q)
    ensures Lists(p, parseUuid, listed, Matches(q, listed))
  {
    hide Wanted, Passes, MayPrecede, Before, Matches, BuildMarketQuery;
    var all := Matches(q, listed);
    MatchesExactly(q, listed);
    forall i, j | 0 <= i < j < |all| ensures MayPrecede(p, all[i], all[j]) {
      OrderRead(p, parseUuid, q, all[i], all[j]);
    }
    forall m ensures multiset(all)[m] == if Wanted(p, parseUuid, m) then multiset(listed)[m] else 0 {
      WantedPasses(p, parseUuid, q, m);
    }
  }

  /** A request is refused for an oversized list or a malformed id. */
  ghost predicate Malformed(p: Params, parseUuid: ParseUuid) {
    var ids := ParseCsv(p.marketIds);
    || |ParseCsv(p.slugs)| > 100 || |ParseCsv(p.marketAddresses)| > 100 || |ids| > 100
    || exists i :: 0 <= i < |ids| && parseUuid(ids[i]).None?
  }

  /** A request is refused exactly if it is malformed. Any other is answered with the part it asks
      for of one sorted list, which holds what it wants, as often as it is there, and nothing else. */
  lemma AnswerExact(p: Params, parseUuid: ParseUuid, listed: seq<Market>) returns (all: seq<Market>)
    ensures var r := Answered(p, parseUuid, listed);
            && (r.BadRequest? <==> Malformed(p, parseUuid))
            && (r.Ok? ==> Lists(p, parseUuid, listed, all) && CutFrom(p, all, r.value))
  {
    hide Matches, Lists, ParseCsv, BuildMarketQuery, LimitRead, OffsetRead, Passes;
    QueryAccepted(p, parseUuid);
    all := [];
    if BuildMarketQuery(p, parseUuid).Ok? {
      var q := BuildMarketQuery(p, parseUuid).value;
      all := Matches(q, listed);
      MatchesListed(p, parseUuid, q, listed);
      RequestRead(p, parseUuid, q);
    }
  }

  // ---------------------------------------------------------------- paging

  /** What a client collects that asks again and again, each time one limit further on. */
  ghost function Collected(p: Params, parseUuid: ParseUuid, listed: seq<Market>, limit: nat, n: nat): seq<Market>
    requires n > 0 ==> 0 <= (n - 1) * limit <= U32_MAX
  {
    if n == 0 then []
    else
      NextOffset(n, limit);
      var r := Answered(p.(offset := Some((n - 1) * limit)), parseUuid, listed);
      Collected(p, parseUuid, listed, limit, n - 1) + if r.Ok? then r.value.markets else []
  }

  lemma {:induction false} CollectedPages(p: Params, parseUuid: ParseUuid, listed: seq<Market>, q: MarketQuery, n: nat)
    requires BuildMarketQuery(p, parseUuid) == Ok(q)
    requires n > 0 ==> 0 <= (n - 1) * q.limit <= U32_MAX
    ensures Collected(p, parseUuid, listed, q.limit, n) == Pages(q, listed, n)
  {
    hide BuildMarketQuery, Page, Matches;
    if n > 0 {
      NextOffset(n, q.limit);
      RequestRead(p, parseUuid, q);
      CollectedPages(p, parseUuid, listed, q, n - 1);
    }
  }

  /** A client that asks with offsets 0, limit, twice the limit and so on until it has asked for the
      total collects all that the request wants, in order, nothing twice and nothing left out. */
  lemma CollectsAll(p: Params, parseUuid: ParseUuid, listed: seq<Market>, limit: nat, n: nat)
    requires !Malformed(p, parseUuid) && LimitRead(p.limit, limit)
    requires n > 0 ==> 0 <= (n - 1) * limit <= U32_MAX
    requires var first := Answered(p, parseUuid, listed); first.Ok? ==> first.value.total <= n * limit
    ensures Lists(p, parseUuid, listed, Collected(p, parseUuid, listed, limit, n))
  {
    hide Matches, Lists, ParseCsv, BuildMarketQuery, Pages, Collected, Passes, Page;
    QueryAccepted(p, parseUuid);
    var q := BuildMarketQuery(p, parseUuid).value;
    RequestRead(p, parseUuid, q);
    assert q.limit == limit;
    MatchesListed(p, parseUuid, q, listed);
    CollectedPages(p, parseUuid, listed, q, n);
    PagesComplete(q, listed, n);
  }
}
