/**
 * `CompaniesHouseClient.search_companies`: four queries, each paged through
 * 100 items at a time up to start index 500, keeping the companies whose SIC
 * codes match, then de-duplicated by company number.
 */
module Search {
  import opened Wrappers
  import opened Text
  import opened Upstream

  const ItemsPerPage: nat := 100
  const MaxResults: nat := 500

  /** The number of pages a query can reach: `MaxResults / ItemsPerPage`. */
  const MaxPages: nat := 5

  /** The search terms, in the order they are tried. */
  const SearchQueries: seq<string> := ["waste management", "cleaning services", "recycling", "facilities management"]

  /** `any(code.startswith(sic) for code in [c.strip() for c in codes])`, code by code. */
  predicate SicMatches(codes: seq<string>, sic: string)
    decreases |codes|
  {
    codes != [] && (StartsWith(Strip(codes[0]), sic) || SicMatches(codes[1..], sic))
  }

  /** Some stripped code starts with `sic`. */
  lemma {:induction false} SicMatchesAny(codes: seq<string>, sic: string)
    ensures SicMatches(codes, sic) <==> exists k :: 0 <= k < |codes| && StartsWith(Strip(codes[k]), sic)
    decreases |codes|
  {
    if codes != [] {
      SicMatchesAny(codes[1..], sic);
      if exists k :: 0 <= k < |codes| && StartsWith(Strip(codes[k]), sic) {
        var k :| 0 <= k < |codes| && StartsWith(Strip(codes[k]), sic);
        if k > 0 {
          assert codes[1..][k - 1] == codes[k];
        }
      }
      if SicMatches(codes[1..], sic) && !StartsWith(Strip(codes[0]), sic) {
        var k :| 0 <= k < |codes[1..]| && StartsWith(Strip(codes[1..][k]), sic);
        assert codes[k + 1] == codes[1..][k];
      }
    }
  }

  /** A code matching a longer SIC prefix also matches every shorter prefix of it. */
  lemma SicPrefixWeakening(codes: seq<string>, sic: string, more: string)
    requires SicMatches(codes, sic + more)
    ensures SicMatches(codes, sic)
  {
    SicMatchesAny(codes, sic + more);
    SicMatchesAny(codes, sic);
    var k :| 0 <= k < |codes| && StartsWith(Strip(codes[k]), sic + more);
    assert Strip(codes[k])[..|sic|] == (sic + more)[..|sic|] == sic;
  }

  /** Surrounding whitespace on a stored code never matters. */
  lemma SicIgnoresPadding(code: string, w1: string, w2: string, sic: string)
    requires AllSpace(w1) && AllSpace(w2)
    ensures SicMatches([w1 + code + w2], sic) <==> SicMatches([code], sic)
  {
    StripPadding(w1, code, w2);
    assert [w1 + code + w2][0] == w1 + code + w2 && [w1 + code + w2][1..] == [];
    assert [code][0] == code && [code][1..] == [];
  }

  /** `details and 'sic_codes' in details` and a code matches. */
  predicate HasSic(details: Option<Details>, sic: string) {
    details.Some? && details.value.sicCodes.Some? && SicMatches(details.value.sicCodes.value, sic)
  }

  /** The test an item of a page passes to be kept: a truthy number whose details match. */
  predicate Keeps(api: Api, item: SearchItem, sic: string) {
    item.number.Some? && item.number.value != "" && HasSic(api.details(item.number.value), sic)
  }

  /** The record kept for an item: its number and `company.get('title', '')`. */
  function Kept(item: SearchItem): Company
    requires item.number.Some?
  {
    Company(item.number.value, if item.title.Some? then item.title.value else "")
  }

  /** A company with a truthy number and a SIC code starting with `sic`. */
  predicate Matches(api: Api, c: Company, sic: string) {
    c.number != "" && HasSic(api.details(c.number), sic)
  }

  /** Every company matches. */
  predicate AllMatch(api: Api, cs: seq<Company>, sic: string) {
    forall k :: 0 <= k < |cs| ==> Matches(api, cs[k], sic)
  }

  lemma AllMatchAppend(api: Api, a: seq<Company>, b: seq<Company>, sic: string)
    requires AllMatch(api, a, sic) && AllMatch(api, b, sic)
    ensures AllMatch(api, a + b, sic)
  {
    forall k | 0 <= k < |a + b|
      ensures Matches(api, (a + b)[k], sic)
    {
      if k < |a| { assert (a + b)[k] == a[k]; } else { assert (a + b)[k] == b[k - |a|]; }
    }
  }

  /** The companies one page contributes, in item order. */
  function PageCompanies(api: Api, items: seq<SearchItem>, sic: string): (cs: seq<Company>)
    ensures |cs| <= |items|
  {
    if items == [] then []
    else
      var init := PageCompanies(api, items[..|items| - 1], sic);
      var item := items[|items| - 1];
      if Keeps(api, item, sic) then init + [Kept(item)] else init
  }

  /** Every company a page contributes passes the page's test. */
  lemma {:induction false} PageCompaniesMatch(api: Api, items: seq<SearchItem>, sic: string)
    ensures AllMatch(api, PageCompanies(api, items, sic), sic)
  {
    if items != [] {
      var init := items[..|items| - 1];
      var item := items[|items| - 1];
      PageCompaniesMatch(api, init, sic);
      if Keeps(api, item, sic) {
        assert AllMatch(api, [Kept(item)], sic);
        AllMatchAppend(api, PageCompanies(api, init, sic), [Kept(item)], sic);
      }
    }
  }

  /** `[code.strip() for code in codes]`. */
  function StripAll(codes: seq<string>): (stripped: seq<string>)
    ensures |stripped| == |codes|
  {
    seq(|codes|, k requires 0 <= k < |codes| => Strip(codes[k]))
  }

  /** `any(code.startswith(sic) for code in stripped)` over the stripped codes is `SicMatches`. */
  lemma AnyStrippedMatches(codes: seq<string>, sic: string)
    ensures (exists k :: 0 <= k < |StripAll(codes)| && StartsWith(StripAll(codes)[k], sic)) == SicMatches(codes, sic)
  {
    SicMatchesAny(codes, sic);
    assert forall k :: 0 <= k < |codes| ==> StripAll(codes)[k] == Strip(codes[k]);
  }

  /** One more item of the page: it is kept, at the end, when it passes the test. */
  lemma PageCompaniesStep(api: Api, items: seq<SearchItem>, i: nat, sic: string)
    requires i < |items|
    ensures Keeps(api, items[i], sic) ==>
      PageCompanies(api, items[..i + 1], sic) == PageCompanies(api, items[..i], sic) + [Kept(items[i])]
    ensures !Keeps(api, items[i], sic) ==> PageCompanies(api, items[..i + 1], sic) == PageCompanies(api, items[..i], sic)
  {
    assert items[..i + 1][..i] == items[..i];
  }

  /** The test of one item: `company_number`, then its details and their stripped SIC codes. */
  method KeepItem(api: Api, item: SearchItem, sic: string) returns (keep: bool)
    ensures keep == Keeps(api, item, sic)
  {
    keep := false;
    if item.number.Some? && item.number.value != "" {
      var details := api.details(item.number.value);
      if details.Some? && details.value.sicCodes.Some? {
        var codes := details.value.sicCodes.value;
        var stripped := StripAll(codes);
        keep := exists k :: 0 <= k < |stripped| && StartsWith(stripped[k], sic);
        AnyStrippedMatches(codes, sic);
      }
    }
  }

  /** The inner `for company in items` loop building `filtered_items`. */
  method FilterPage(api: Api, items: seq<SearchItem>, sic: string) returns (filtered: seq<Company>)
    ensures filtered == PageCompanies(api, items, sic)
  {
    filtered := [];
    for i := 0 to |items|
      invariant filtered == PageCompanies(api, items[..i], sic)
    {
      PageCompaniesStep(api, items, i, sic);
      var keep := KeepItem(api, items[i], sic);
      if keep {
        filtered := filtered + [Kept(items[i])];
      }
    }
    assert items[..|items|] == items;
  }

  /** `data and data.get('items')`: the search at `start` answered with a non-empty page. */
  predicate HasPage(api: Api, query: string, start: nat) {
    api.search(query, start).Some? && api.search(query, start).value != []
  }

  /** The companies the page at `start` contributes. */
  function PageAt(api: Api, query: string, sic: string, start: nat): seq<Company>
    requires HasPage(api, query, start)
  {
    PageCompanies(api, api.search(query, start).value, sic)
  }

  /** A page with `ItemsPerPage` items or more: the loop asks for the next one. */
  predicate FullPage(api: Api, query: string, start: nat)
    requires HasPage(api, query, start)
  {
    |api.search(query, start).value| >= ItemsPerPage
  }

  /** What the `while start_index < max_results` loop of one query appends, from `start` on. */
  function QueryFrom(api: Api, query: string, sic: string, start: nat): seq<Company>
    decreases MaxResults - start
  {
    if start >= MaxResults || !HasPage(api, query, start) then []
    else PageAt(api, query, sic, start)
         + (if FullPage(api, query, start) then QueryFrom(api, query, sic, start + ItemsPerPage) else [])
  }

  /** `all_companies` after the given queries, before de-duplication. */
  function SearchAll(api: Api, sic: string, queries: seq<string>): seq<Company> {
    if queries == [] then []
    else SearchAll(api, sic, queries[..|queries| - 1]) + QueryFrom(api, queries[|queries| - 1], sic, 0)
  }

  /** Company `c` is kept from the page of `query` at index `start`. */
  predicate OnPageAt(api: Api, query: string, sic: string, start: nat, c: Company) {
    api.search(query, start).Some? && c in PageCompanies(api, api.search(query, start).value, sic)
  }

  /** Company `c` comes from page `k` (start index `100 * k`) of `query`. */
  predicate FromPage(api: Api, query: string, sic: string, k: nat, c: Company) {
    OnPageAt(api, query, sic, PageStart(k), c)
  }

  /** The start index of page `k`. */
  function PageStart(k: nat): nat {
    100 * k
  }

  /**
   * The loop bound: a query contributes only companies of its first five
   * pages (start indices 0, 100, ..., 400).
   */
  lemma {:induction false} QueryPagesBounded(api: Api, query: string, sic: string, j: nat, c: Company)
    requires c in QueryFrom(api, query, sic, PageStart(j))
    ensures j < MaxPages
    ensures exists k :: j <= k < MaxPages && FromPage(api, query, sic, k, c)
    decreases MaxPages - j
  {
    OnPage(api, query, sic, j, c);
    if !FromPage(api, query, sic, j, c) {
      NotOnPage(api, query, sic, j, c);
      OnPage(api, query, sic, j + 1, c);
      QueryPagesBounded(api, query, sic, j + 1, c);
      var k :| j + 1 <= k < MaxPages && FromPage(api, query, sic, k, c);
      assert j <= k;
    } else {
      assert j <= j < MaxPages && FromPage(api, query, sic, j, c);
    }
  }

  lemma OnPage(api: Api, query: string, sic: string, j: nat, c: Company)
    requires c in QueryFrom(api, query, sic, PageStart(j))
    ensures j < MaxPages
  {
  }

  lemma NotOnPage(api: Api, query: string, sic: string, j: nat, c: Company)
    requires c in QueryFrom(api, query, sic, PageStart(j))
    requires !FromPage(api, query, sic, j, c)
    ensures c in QueryFrom(api, query, sic, PageStart(j + 1))
  {
    NotInFirstPage(api, query, sic, PageStart(j), PageStart(j + 1), c);
  }

  /** A company of the query's results that is not on the page at `start` is on a later page. */
  lemma NotInFirstPage(api: Api, query: string, sic: string, start: nat, next: nat, c: Company)
    requires next == start + ItemsPerPage
    requires c in QueryFrom(api, query, sic, start)
    requires !OnPageAt(api, query, sic, start, c)
    ensures c in QueryFrom(api, query, sic, next)
  {
    var items := api.search(query, start).value;
    var page := PageCompanies(api, items, sic);
    assert start < MaxResults && api.search(query, start).Some? && items != [];
    assert c !in page;
    assert QueryFrom(api, query, sic, start) == page + QueryFrom(api, query, sic, next);
  }

  /** Every company the queries collect has a truthy number and a matching SIC code. */
  lemma {:induction false} SearchAllMatches(api: Api, sic: string, queries: seq<string>)
    ensures AllMatch(api, SearchAll(api, sic, queries), sic)
  {
    if queries != [] {
      SearchAllMatches(api, sic, queries[..|queries| - 1]);
      QueryFromMatches(api, queries[|queries| - 1], sic, 0);
      AllMatchAppend(api, SearchAll(api, sic, queries[..|queries| - 1]), QueryFrom(api, queries[|queries| - 1], sic, 0), sic);
    }
  }

  lemma {:induction false} QueryFromMatches(api: Api, query: string, sic: string, start: nat)
    ensures AllMatch(api, QueryFrom(api, query, sic, start), sic)
    decreases MaxResults - start
  {
    if start < MaxResults && HasPage(api, query, start) {
      var rest := if FullPage(api, query, start) then QueryFrom(api, query, sic, start + ItemsPerPage) else [];
      assert QueryFrom(api, query, sic, start) == PageAt(api, query, sic, start) + rest;
      PageAtMatches(api, query, sic, start);
      if FullPage(api, query, start) {
        QueryFromMatches(api, query, sic, start + ItemsPerPage);
      }
      AllMatchAppend(api, PageAt(api, query, sic, start), rest, sic);
    }
  }

  // ---------------------------------------------------------------------
  // De-duplication: `{c['company_number']: c for c in all}.values()`
  // ---------------------------------------------------------------------

  function Numbers(cs: seq<Company>): set<string> {
    set k | 0 <= k < |cs| :: cs[k].number
  }

  /** The index of the first record with number `n`, or `|cs|` when there is none. */
  function Position(cs: seq<Company>, n: string): (p: nat)
    ensures p <= |cs|
    ensures p < |cs| ==> cs[p].number == n
    ensures forall k :: 0 <= k < p ==> cs[k].number != n
  {
    if cs == [] then 0 else if cs[0].number == n then 0 else 1 + Position(cs[1..], n)
  }

  /** The index of the last record with number `n`. */
  function LastIndex(cs: seq<Company>, n: string): (p: nat)
    requires n in Numbers(cs)
    ensures p < |cs| && cs[p].number == n
    ensures forall k :: p < k < |cs| ==> cs[k].number != n
  {
    var last := |cs| - 1;
    if cs[last].number == n then last
    else
      assert n in Numbers(cs[..last]) by {
        var k :| 0 <= k < |cs| && cs[k].number == n;
        assert cs[..last][k] == cs[k];
      }
      LastIndex(cs[..last], n)
  }

  /** `d[c.number] = c` on a dict held as its values in insertion order. */
  function Upsert(d: seq<Company>, c: Company): seq<Company> {
    var p := Position(d, c.number);
    if p < |d| then d[p := c] else d + [c]
  }

  predicate UniqueNumbers(d: seq<Company>) {
    forall a, b :: 0 <= a < b < |d| ==> d[a].number != d[b].number
  }

  /** Each kept record is the last input record with its number. */
  predicate LastRecordWins(d: seq<Company>, cs: seq<Company>)
    requires Numbers(d) == Numbers(cs)
  {
    forall a :: 0 <= a < |d| ==> (assert d[a].number in Numbers(d); d[a] == cs[LastIndex(cs, d[a].number)])
  }

  /** Records appear in the order in which their numbers first appear in the input. */
  predicate FirstAppearanceOrder(d: seq<Company>, cs: seq<Company>) {
    forall a, b :: 0 <= a < b < |d| ==> Position(cs, d[a].number) < Position(cs, d[b].number)
  }

  /** The de-duplicated companies: one per number, the last record wins, first-appearance order. */
  function Dedup(cs: seq<Company>): (d: seq<Company>)
    ensures UniqueNumbers(d)
    ensures Numbers(d) == Numbers(cs)
    ensures LastRecordWins(d, cs)
    ensures FirstAppearanceOrder(d, cs)
  {
    if cs == [] then []
    else
      var init := cs[..|cs| - 1];
      var c := cs[|cs| - 1];
      var d := Upsert(Dedup(init), c);
      UpsertStep(Dedup(init), init, c);
      InitLast(cs);
      d
  }

  lemma PositionAppend(cs: seq<Company>, c: Company, n: string)
    requires n in Numbers(cs)
    ensures Position(cs + [c], n) == Position(cs, n)
  {
    var k :| 0 <= k < |cs| && cs[k].number == n;
    var p := Position(cs + [c], n);
    assert (cs + [c])[k] == cs[k];
    assert p <= k;
    assert forall m :: 0 <= m <= p ==> (cs + [c])[m] == cs[m];
  }

  lemma PositionAbsent(cs: seq<Company>, c: Company)
    requires c.number !in Numbers(cs)
    ensures Position(cs + [c], c.number) == |cs|
  {
    var p := Position(cs + [c], c.number);
    assert (cs + [c])[|cs|] == c;
  }

  lemma LastIndexAppend(cs: seq<Company>, c: Company, n: string)
    requires n in Numbers(cs) && n != c.number
    ensures n in Numbers(cs + [c]) && LastIndex(cs + [c], n) == LastIndex(cs, n)
  {
    var k :| 0 <= k < |cs| && cs[k].number == n;
    assert (cs + [c])[k] == cs[k];
    assert (cs + [c])[..|cs|] == cs;
  }

  lemma UpsertStep(d: seq<Company>, cs: seq<Company>, c: Company)
    requires UniqueNumbers(d) && Numbers(d) == Numbers(cs)
    requires LastRecordWins(d, cs) && FirstAppearanceOrder(d, cs)
    ensures var d' := Upsert(d, c);
      UniqueNumbers(d') && Numbers(d') == Numbers(cs + [c])
      && LastRecordWins(d', cs + [c]) && FirstAppearanceOrder(d', cs + [c])
  {
    NumbersAppend(cs, c);
    if Position(d, c.number) < |d| {
      UpsertReplace(d, cs, c);
    } else {
      UpsertAppend(d, cs, c);
    }
  }

  lemma NumbersAppend(cs: seq<Company>, c: Company)
    ensures Numbers(cs + [c]) == Numbers(cs) + {c.number}
  {
    var cs' := cs + [c];
    assert forall k :: 0 <= k < |cs| ==> cs'[k] == cs[k];
    assert cs'[|cs|] == c;
  }

  /** `d[c.number] = c` for a number already present: the record is replaced in place. */
  lemma UpsertReplace(d: seq<Company>, cs: seq<Company>, c: Company)
    requires UniqueNumbers(d) && Numbers(d) == Numbers(cs)
    requires LastRecordWins(d, cs) && FirstAppearanceOrder(d, cs)
    requires Position(d, c.number) < |d|
    ensures var d' := Upsert(d, c);
      UniqueNumbers(d') && Numbers(d') == Numbers(cs + [c])
      && LastRecordWins(d', cs + [c]) && FirstAppearanceOrder(d', cs + [c])
  {
    var p := Position(d, c.number);
    ReplaceKeepsNumbers(d, cs, c, p);
    ReplaceKeepsUnique(d, c, p);
    ReplaceKeepsLast(d, cs, c, p);
    ReplaceKeepsOrder(d, cs, c, p);
  }

  lemma ReplaceKeepsNumbers(d: seq<Company>, cs: seq<Company>, c: Company, p: nat)
    requires Numbers(d) == Numbers(cs) && p < |d| && d[p].number == c.number
    ensures Numbers(d[p := c]) == Numbers(cs + [c])
  {
    var d' := d[p := c];
    assert d[p].number in Numbers(d);
    NumbersAppend(cs, c);
    assert Numbers(d') == Numbers(d) by {
      assert forall k :: 0 <= k < |d| ==> d'[k].number == d[k].number;
    }
  }

  lemma ReplaceKeepsUnique(d: seq<Company>, c: Company, p: nat)
    requires UniqueNumbers(d) && p < |d| && d[p].number == c.number
    ensures UniqueNumbers(d[p := c])
  {
    var d' := d[p := c];
    assert forall k :: 0 <= k < |d| ==> d'[k].number == d[k].number;
  }

  lemma ReplaceKeepsLast(d: seq<Company>, cs: seq<Company>, c: Company, p: nat)
    requires UniqueNumbers(d) && Numbers(d) == Numbers(cs) && LastRecordWins(d, cs)
    requires p < |d| && d[p].number == c.number
    requires Numbers(d[p := c]) == Numbers(cs + [c])
    ensures LastRecordWins(d[p := c], cs + [c])
  {
    var cs' := cs + [c];
    var d' := d[p := c];
    assert cs'[|cs|] == c;
    forall a | 0 <= a < |d'|
      ensures d'[a] == cs'[LastIndex(cs', d'[a].number)]
    {
      if a != p {
        assert d[a].number in Numbers(d);
        LastIndexAppend(cs, c, d[a].number);
      }
    }
  }

  lemma ReplaceKeepsOrder(d: seq<Company>, cs: seq<Company>, c: Company, p: nat)
    requires Numbers(d) == Numbers(cs) && FirstAppearanceOrder(d, cs)
    requires p < |d| && d[p].number == c.number
    ensures FirstAppearanceOrder(d[p := c], cs + [c])
  {
    var d' := d[p := c];
    forall a, b | 0 <= a < b < |d'|
      ensures Position(cs + [c], d'[a].number) < Position(cs + [c], d'[b].number)
    {
      assert d'[a].number == d[a].number && d'[b].number == d[b].number;
      assert d[a].number in Numbers(d) && d[b].number in Numbers(d);
      PositionAppend(cs, c, d[a].number);
      PositionAppend(cs, c, d[b].number);
    }
  }

  /** `d[c.number] = c` for a new number: the record goes at the end. */
  lemma UpsertAppend(d: seq<Company>, cs: seq<Company>, c: Company)
    requires UniqueNumbers(d) && Numbers(d) == Numbers(cs)
    requires LastRecordWins(d, cs) && FirstAppearanceOrder(d, cs)
    requires Position(d, c.number) == |d|
    ensures var d' := Upsert(d, c);
      UniqueNumbers(d') && Numbers(d') == Numbers(cs + [c])
      && LastRecordWins(d', cs + [c]) && FirstAppearanceOrder(d', cs + [c])
  {
    assert c.number !in Numbers(d);
    NumbersAppend(d, c);
    NumbersAppend(cs, c);
    AppendKeepsUnique(d, c);
    AppendKeepsLast(d, cs, c);
    AppendKeepsOrder(d, cs, c);
  }

  lemma AppendKeepsUnique(d: seq<Company>, c: Company)
    requires UniqueNumbers(d) && c.number !in Numbers(d)
    ensures UniqueNumbers(d + [c])
  {
    var d' := d + [c];
    forall a | 0 <= a < |d|
      ensures d'[a].number != c.number
    {
      assert d'[a] == d[a];
      assert d[a].number in Numbers(d);
    }
  }

  lemma AppendKeepsLast(d: seq<Company>, cs: seq<Company>, c: Company)
    requires Numbers(d) == Numbers(cs) && LastRecordWins(d, cs) && c.number !in Numbers(d)
    requires Numbers(d + [c]) == Numbers(cs + [c])
    ensures LastRecordWins(d + [c], cs + [c])
  {
    var cs' := cs + [c];
    var d' := d + [c];
    assert cs'[|cs|] == c;
    forall a | 0 <= a < |d'|
      ensures d'[a] == cs'[LastIndex(cs', d'[a].number)]
    {
      if a < |d| {
        assert d'[a] == d[a];
        assert d[a].number in Numbers(d);
        LastIndexAppend(cs, c, d[a].number);
      }
    }
  }

  lemma AppendKeepsOrder(d: seq<Company>, cs: seq<Company>, c: Company)
    requires Numbers(d) == Numbers(cs) && FirstAppearanceOrder(d, cs)
    requires c.number !in Numbers(cs)
    ensures FirstAppearanceOrder(d + [c], cs + [c])
  {
    var d' := d + [c];
    PositionAbsent(cs, c);
    forall a, b | 0 <= a < b < |d'|
      ensures Position(cs + [c], d'[a].number) < Position(cs + [c], d'[b].number)
    {
      assert d'[a] == d[a];
      assert d[a].number in Numbers(d);
      PositionAppend(cs, c, d[a].number);
      if b < |d| {
        assert d'[b] == d[b];
        assert d[b].number in Numbers(d);
        PositionAppend(cs, c, d[b].number);
      }
    }
  }

  /**
   * The `while` loop of one query as it runs: `acc` is `all_companies` so far,
   * extended page by page from `start` on.
   */
  function QueryAcc(api: Api, query: string, sic: string, start: nat, acc: seq<Company>): seq<Company>
    decreases MaxResults - start
  {
    if start >= MaxResults || !HasPage(api, query, start) then acc
    else if !FullPage(api, query, start) then acc + PageAt(api, query, sic, start)
    else QueryAcc(api, query, sic, start + ItemsPerPage, acc + PageAt(api, query, sic, start))
  }

  /** Running the loop from `start` appends what the query contributes from `start` on. */
  lemma {:induction false} QueryAccFrom(api: Api, query: string, sic: string, start: nat, acc: seq<Company>)
    ensures QueryAcc(api, query, sic, start, acc) == acc + QueryFrom(api, query, sic, start)
    decreases MaxResults - start
  {
    if start < MaxResults && HasPage(api, query, start) {
      var page := PageAt(api, query, sic, start);
      if FullPage(api, query, start) {
        QueryAccFrom(api, query, sic, start + ItemsPerPage, acc + page);
        AppendAssoc(acc, page, QueryFrom(api, query, sic, start + ItemsPerPage));
      } else {
        assert QueryFrom(api, query, sic, start) == page + [];
      }
    } else {
      assert acc + [] == acc;
    }
  }

  /** One query's `while start_index < max_results` loop, from index 0. */
  method PageThrough(api: Api, query: string, sic: string) returns (found: seq<Company>)
    ensures found == QueryFrom(api, query, sic, 0)
  {
    found := [];
    var start: nat := 0;
    ghost var total := QueryAcc(api, query, sic, 0, []);
    while start < MaxResults
      invariant QueryAcc(api, query, sic, start, found) == total
      decreases MaxResults - start
    {
      var data := api.search(query, start);
      if data.None? || data.value == [] {
        StopAcc(api, query, sic, start, found);
        break;
      }
      var items := data.value;
      var filtered := FilterPage(api, items, sic);
      assert filtered == PageAt(api, query, sic, start);
      AdvanceAcc(api, query, sic, start, found, filtered);
      found := found + filtered;
      if |items| < ItemsPerPage {
        break;
      }
      start := start + ItemsPerPage;
    }
    StopAcc(api, query, sic, start, found);
    QueryAccFrom(api, query, sic, 0, []);
    assert [] + QueryFrom(api, query, sic, 0) == QueryFrom(api, query, sic, 0);
  }

  /** The loop stops without adding anything: past the last index, or no page. */
  lemma StopAcc(api: Api, query: string, sic: string, start: nat, acc: seq<Company>)
    ensures start >= MaxResults || !HasPage(api, query, start) ==> QueryAcc(api, query, sic, start, acc) == acc
  {
  }

  /** The loop adds the page's companies, then stops on a short page or goes on to the next. */
  lemma AdvanceAcc(api: Api, query: string, sic: string, start: nat, acc: seq<Company>, page: seq<Company>)
    requires start < MaxResults && HasPage(api, query, start) && page == PageAt(api, query, sic, start)
    ensures QueryAcc(api, query, sic, start, acc)
      == if FullPage(api, query, start) then QueryAcc(api, query, sic, start + ItemsPerPage, acc + page) else acc + page
  {
  }

  lemma PageAtMatches(api: Api, query: string, sic: string, start: nat)
    requires HasPage(api, query, start)
    ensures AllMatch(api, PageAt(api, query, sic, start), sic)
  {
    PageCompaniesMatch(api, api.search(query, start).value, sic);
  }

  /** `search_companies`: the four queries in order, then de-duplication. */
  method SearchCompanies(api: Api, sic: string) returns (companies: seq<Company>)
    ensures companies == Dedup(SearchAll(api, sic, SearchQueries))
  {
    var all: seq<Company> := [];
    for q := 0 to |SearchQueries|
      invariant all == SearchAll(api, sic, SearchQueries[..q])
    {
      assert SearchQueries[..q + 1][..q] == SearchQueries[..q];
      var found := PageThrough(api, SearchQueries[q], sic);
      all := all + found;
    }
    assert SearchQueries[..|SearchQueries|] == SearchQueries;
    companies := Dedup(all);
  }

  /** Every company the search returns has a truthy number and a SIC code starting with `sic`. */
  lemma SearchResultsMatch(api: Api, sic: string)
    ensures AllMatch(api, Dedup(SearchAll(api, sic, SearchQueries)), sic)
  {
    var all := SearchAll(api, sic, SearchQueries);
    var found := Dedup(all);
    SearchAllMatches(api, sic, SearchQueries);
    assert AllMatch(api, all, sic);
    forall k | 0 <= k < |found|
      ensures Matches(api, found[k], sic)
    {
      assert found[k].number in Numbers(found);
      assert found[k] == all[LastIndex(all, found[k].number)];
    }
  }
}
