/**
 * `CompaniesHouseClient.process_companies`: for every SIC code of the two
 * categories, the searched companies are checked in turn (details present,
 * status active, at least one active director aged 50 or over, a turnover of
 * at least one million from Companies House or HMRC) and the ones that pass
 * become rows of the output.
 */
module Pipeline {
  import opened Wrappers
  import opened Text
  import opened Upstream
  import opened Officers
  import opened Accounts
  import opened Address
  import opened Search

  /** `MIN_TURNOVER`, in pounds. */
  const MinTurnover: real := 1000000.0

  /** The categories and their SIC codes, in the dictionary's order. */
  const SicCategories: seq<(string, seq<string>)> := [
    ("Cleaning", ["81210", "81220", "81290"]),
    ("Waste Management", ["38110", "38120", "38210", "38220", "38230"])
  ]

  /** `x and x >= MIN_TURNOVER` for one turnover source. */
  predicate MeetsMinimum(t: Option<real>) {
    t.Some? && t.value != 0.0 && t.value >= MinTurnover
  }

  /**
   * `meets_turnover`: either source suffices, there is no upper bound, and the
   * truthiness test never rejects a value that reaches the minimum.
   */
  function MeetsTurnover(ch: Option<real>, hmrc: Option<real>): (ok: bool)
    ensures ok <==> (ch.Some? && ch.value >= MinTurnover) || (hmrc.Some? && hmrc.value >= MinTurnover)
  {
    MeetsMinimum(ch) || MeetsMinimum(hmrc)
  }

  /** `str.lower()` on the characters that can lower to a letter of "active". */
  function LowerChar(c: char): char {
    if 'A' <= c <= 'Z' then (c as int + 32) as char else c
  }

  function AsciiLower(s: string): string {
    seq(|s|, k requires 0 <= k < |s| => LowerChar(s[k]))
  }

  /** `details.get('company_status', '').lower() == 'active'`. */
  predicate IsActiveStatus(status: Option<string>) {
    AsciiLower(StatusText(status)) == "active"
  }

  /** The status test accepts exactly the six letters of "active", each in either case; a missing status fails. */
  lemma ActiveStatusIff(status: Option<string>)
    ensures IsActiveStatus(status) <==>
      status.Some? && |status.value| == 6
      && forall k :: 0 <= k < 6 ==> status.value[k] == "active"[k] || status.value[k] == "ACTIVE"[k]
  {
    var s := if status.Some? then status.value else "";
    var lower := AsciiLower(s);
    if IsActiveStatus(status) {
      assert |s| == 6;
      forall k | 0 <= k < 6
        ensures s[k] == "active"[k] || s[k] == "ACTIVE"[k]
      {
        assert LowerChar(s[k]) == "active"[k];
      }
    }
  }

  /** The officer loop's result for a whole response. */
  function OfficerCount(response: Option<seq<Officer>>, today: Today): nat {
    if response.None? then 0 else CountOver50(response.value, today)
  }

  /** `get_company_accounts` for a whole response. */
  function AccountsTurnover(history: Option<seq<Filing>>): Option<real> {
    if history.None? then None else FirstTurnover(history.value)
  }

  /** `vat_info.get('vatNumber')` when it is truthy. */
  function VatNumber(api: Api, number: string): Option<string> {
    var v := api.vatNumber(number);
    if v.Some? && v.value != "" then v else None
  }

  /** `hmrc_turnover`: looked up only for a truthy VAT number. */
  function HmrcTurnover(api: Api, number: string): Option<real> {
    var v := VatNumber(api, number);
    if v.Some? then api.hmrcTurnover(v.value) else None
  }

  /** One output row; None stands for 'Not available'. */
  datatype Row = Row(
    number: string,
    name: string,
    status: string,
    sicCodes: string,
    address: string,
    directorsOver50: nat,
    companiesHouseTurnover: Option<real>,
    hmrcTurnover: Option<real>,
    category: string,
    vatNumber: Option<string>)

  /** Why a company is passed over, in the order the checks run. */
  datatype SkipReason = NoNumber | NoDetails | Inactive | NoDirectorsOver50 | TurnoverTooLow

  datatype Decision = Skipped(reason: SkipReason) | Saved(row: Row)

  /** A searched company together with the category whose SIC code found it. */
  datatype Candidate = Candidate(category: string, company: Company)

  /** A turnover kept for the row only when truthy (`... if x else 'Not available'`). */
  function Truthy(t: Option<real>): Option<real> {
    if t.Some? && t.value != 0.0 then t else None
  }

  /** `details.get('company_status', '')`. */
  function StatusText(status: Option<string>): string {
    if status.Some? then status.value else ""
  }

  /** `details.get('sic_codes', [])`. */
  function SicList(codes: Option<seq<string>>): seq<string> {
    if codes.Some? then codes.value else []
  }

  /** The body of `for company in companies` for one company. */
  function Evaluate(api: Api, today: Today, category: string, company: Company): Decision {
    var number := company.number;
    if number == "" then Skipped(NoNumber)
    else
      var details := api.details(number);
      if details.None? then Skipped(NoDetails)
      else if !IsActiveStatus(details.value.status) then Skipped(Inactive)
      else
        var count := OfficerCount(api.officers(number), today);
        if count == 0 then Skipped(NoDirectorsOver50)
        else
          var ch := AccountsTurnover(api.filings(number));
          var hmrc := HmrcTurnover(api, number);
          if !MeetsTurnover(ch, hmrc) then Skipped(TurnoverTooLow)
          else
            var d := details.value;
            Saved(Row(
              number, company.name,
              StatusText(d.status),
              Join(SicList(d.sicCodes), ", "),
              FormatAddress(d.address),
              count, Truthy(ch), Truthy(hmrc), category, VatNumber(api, number)))
  }

  /**
   * The acceptance rule: a company is saved exactly when it has a number and
   * details, its status is active, one of its officers is an active director
   * of known age 50 or over, and one turnover source reaches one million.
   */
  lemma AcceptedIff(api: Api, today: Today, category: string, company: Company)
    ensures Evaluate(api, today, category, company).Saved? <==>
      var n := company.number;
      var officers := api.officers(n);
      n != "" && api.details(n).Some? && IsActiveStatus(api.details(n).value.status)
      && officers.Some? && (exists k :: 0 <= k < |officers.value| && CountsAsOver50(officers.value[k], today))
      && MeetsTurnover(AccountsTurnover(api.filings(n)), HmrcTurnover(api, n))
  {
    var officers := api.officers(company.number);
    if officers.Some? {
      CountZeroIff(officers.value, today);
    }
  }

  /** What a saved row records about the company that produced it, column by column. */
  lemma SavedRow(api: Api, today: Today, category: string, company: Company)
    requires Evaluate(api, today, category, company).Saved?
    ensures var row := Evaluate(api, today, category, company).row;
      var officers := api.officers(company.number).value;
      row.number == company.number && row.name == company.name && row.category == category
      && row.directorsOver50 == |QualifyingDirectors(officers, today)| >= 1
      && row.address == FormatAddress(api.details(company.number).value.address)
      && (MeetsMinimum(row.companiesHouseTurnover) || MeetsMinimum(row.hmrcTurnover))
    ensures Evaluate(api, today, category, company).row.status == StatusText(api.details(company.number).value.status)
    ensures AsciiLower(Evaluate(api, today, category, company).row.status) == "active"
    ensures Evaluate(api, today, category, company).row.sicCodes == Join(SicList(api.details(company.number).value.sicCodes), ", ")
    ensures Evaluate(api, today, category, company).row.companiesHouseTurnover == Truthy(AccountsTurnover(api.filings(company.number)))
    ensures Evaluate(api, today, category, company).row.hmrcTurnover == Truthy(HmrcTurnover(api, company.number))
    ensures Evaluate(api, today, category, company).row.vatNumber == VatNumber(api, company.number)
  {
    CountIsNumberOfQualifying(api.officers(company.number).value, today);
  }

  /**
   * Directors are checked before turnover: a company without a qualifying
   * director is skipped whatever its filings, VAT number and HMRC turnover.
   */
  lemma DirectorsCheckedFirst(api1: Api, api2: Api, today: Today, category: string, company: Company)
    requires api1.details(company.number) == api2.details(company.number)
    requires api1.officers(company.number) == api2.officers(company.number)
    requires OfficerCount(api1.officers(company.number), today) == 0
    ensures Evaluate(api1, today, category, company) == Evaluate(api2, today, category, company)
    ensures Evaluate(api1, today, category, company).Skipped?
  {
  }

  /**
   * The same checks as `Evaluate`, step by step, calling the officer loop and
   * the accounts scan where the source makes those requests.
   */
  method ProcessCompany(api: Api, today: Today, category: string, company: Company) returns (decision: Decision)
    ensures decision == Evaluate(api, today, category, company)
  {
    var number := company.number;
    if number == "" {
      return Skipped(NoNumber);
    }
    var details := api.details(number);
    if details.None? {
      return Skipped(NoDetails);
    }
    var status := if details.value.status.Some? then details.value.status.value else "";
    if AsciiLower(status) != "active" {
      return Skipped(Inactive);
    }
    var count := CountActiveQualifyingDirectors(api.officers(number), today);
    if count == 0 {
      return Skipped(NoDirectorsOver50);
    }
    var ch := GetCompanyAccounts(api.filings(number));
    var vatNumber := api.vatNumber(number);
    var hmrc: Option<real> := None;
    if vatNumber.Some? && vatNumber.value != "" {
      hmrc := api.hmrcTurnover(vatNumber.value);
    }
    var meets := (ch.Some? && ch.value != 0.0 && ch.value >= MinTurnover)
      || (hmrc.Some? && hmrc.value != 0.0 && hmrc.value >= MinTurnover);
    if !meets {
      return Skipped(TurnoverTooLow);
    }
    var d := details.value;
    decision := Saved(Row(
      number, company.name, status,
      Join(if d.sicCodes.Some? then d.sicCodes.value else [], ", "),
      FormatAddress(d.address),
      count, Truthy(ch), Truthy(hmrc), category, VatNumber(api, number)));
  }

  /** The companies searched for one SIC code, tagged with its category. */
  function CodeCandidates(api: Api, category: string, code: string): seq<Candidate> {
    var cs := Dedup(SearchAll(api, code, SearchQueries));
    seq(|cs|, k requires 0 <= k < |cs| => Candidate(category, cs[k]))
  }

  /** The companies of every code of one category, code by code. */
  function CategoryCandidates(api: Api, category: string, codes: seq<string>): seq<Candidate> {
    if codes == [] then []
    else CategoryCandidates(api, category, codes[..|codes| - 1]) + CodeCandidates(api, category, codes[|codes| - 1])
  }

  /** Every company `process_companies` looks at, in order. */
  function AllCandidates(api: Api, table: seq<(string, seq<string>)>): seq<Candidate> {
    if table == [] then []
    else
      var last := table[|table| - 1];
      AllCandidates(api, table[..|table| - 1]) + CategoryCandidates(api, last.0, last.1)
  }

  lemma CategoryCandidatesStep(api: Api, category: string, codes: seq<string>, j: nat)
    requires j < |codes|
    ensures CategoryCandidates(api, category, codes[..j + 1])
      == CategoryCandidates(api, category, codes[..j]) + CodeCandidates(api, category, codes[j])
  {
    assert codes[..j + 1][..j] == codes[..j];
  }

  lemma AllCandidatesStep(api: Api, table: seq<(string, seq<string>)>, i: nat)
    requires i < |table|
    ensures AllCandidates(api, table[..i + 1])
      == AllCandidates(api, table[..i]) + CategoryCandidates(api, table[i].0, table[i].1)
  {
    assert table[..i + 1][..i] == table[..i];
  }

  /** The row written for one candidate, if any. */
  function RowOf(api: Api, today: Today, cand: Candidate): seq<Row> {
    var d := Evaluate(api, today, cand.category, cand.company);
    if d.Saved? then [d.row] else []
  }

  /** The rows written for a sequence of candidates. */
  function Rows(api: Api, today: Today, cands: seq<Candidate>): seq<Row> {
    if cands == [] then []
    else Rows(api, today, cands[..|cands| - 1]) + RowOf(api, today, cands[|cands| - 1])
  }

  lemma RowsStep(api: Api, today: Today, cands: seq<Candidate>, k: nat)
    requires k < |cands|
    ensures Rows(api, today, cands[..k + 1]) == Rows(api, today, cands[..k]) + RowOf(api, today, cands[k])
  {
    assert cands[..k + 1][..k] == cands[..k];
  }

  lemma {:induction false} RowsAppend(api: Api, today: Today, a: seq<Candidate>, b: seq<Candidate>)
    ensures Rows(api, today, a + b) == Rows(api, today, a) + Rows(api, today, b)
  {
    if b == [] {
      assert a + b == a;
    } else {
      var init := b[..|b| - 1];
      assert (a + b)[..|a + b| - 1] == a + init;
      RowsAppend(api, today, a, init);
    }
  }

  /** Each row comes from a candidate that was saved, and there are at most as many rows as candidates. */
  lemma {:induction false} RowsFromCandidates(api: Api, today: Today, cands: seq<Candidate>)
    ensures |Rows(api, today, cands)| <= |cands|
    ensures forall r :: r in Rows(api, today, cands) ==>
      exists k :: 0 <= k < |cands| && Evaluate(api, today, cands[k].category, cands[k].company) == Saved(r)
  {
    if cands != [] {
      var init := cands[..|cands| - 1];
      RowsFromCandidates(api, today, init);
      forall r | r in Rows(api, today, cands)
        ensures exists k :: 0 <= k < |cands| && Evaluate(api, today, cands[k].category, cands[k].company) == Saved(r)
      {
        if r in Rows(api, today, init) {
          var k :| 0 <= k < |init| && Evaluate(api, today, init[k].category, init[k].company) == Saved(r);
          assert cands[k] == init[k];
        } else {
          assert r in RowOf(api, today, cands[|cands| - 1]);
        }
      }
    }
  }

  /** The candidates that `process_companies` saves. */
  function IsSaved(api: Api, today: Today): Candidate -> bool {
    (c: Candidate) => Evaluate(api, today, c.category, c.company).Saved?
  }

  /** The indices of the candidates that are saved. */
  function SavedIndices(api: Api, today: Today, cands: seq<Candidate>): set<nat> {
    IndicesWhere(cands, IsSaved(api, today))
  }

  lemma RowOfLength(api: Api, today: Today, c: Candidate)
    ensures |RowOf(api, today, c)| == if IsSaved(api, today)(c) then 1 else 0
  {
  }

  /** One row per saved candidate: the row count is the number of saved candidates. */
  lemma {:induction false} SavedRowsCount(api: Api, today: Today, cands: seq<Candidate>)
    ensures |Rows(api, today, cands)| == |SavedIndices(api, today, cands)|
  {
    if cands != [] {
      var init := cands[..|cands| - 1];
      SavedRowsCount(api, today, init);
      IndicesWhereSnoc(cands, IsSaved(api, today));
      RowOfLength(api, today, cands[|cands| - 1]);
    }
  }

  /** The row of every saved candidate is written. */
  lemma SavedRowWritten(api: Api, today: Today, cands: seq<Candidate>, k: nat)
    requires k < |cands| && Evaluate(api, today, cands[k].category, cands[k].company).Saved?
    ensures Evaluate(api, today, cands[k].category, cands[k].company).row in Rows(api, today, cands)
  {
    assert cands == cands[..k + 1] + cands[k + 1..];
    RowsAppend(api, today, cands[..k + 1], cands[k + 1..]);
    RowsStep(api, today, cands, k);
  }

  /** The `for company in companies` loop for one SIC code, skipped when the search found nothing. */
  method ProcessCode(api: Api, today: Today, category: string, code: string) returns (rows: seq<Row>, processed: nat)
    ensures rows == Rows(api, today, CodeCandidates(api, category, code))
    ensures processed == |CodeCandidates(api, category, code)|
  {
    var companies := SearchCompanies(api, code);
    ghost var cands := CodeCandidates(api, category, code);
    rows, processed := [], 0;
    if companies == [] {
      return;
    }
    for k := 0 to |companies|
      invariant rows == Rows(api, today, cands[..k])
      invariant processed == k
    {
      RowsStep(api, today, cands, k);
      processed := processed + 1;
      var decision := ProcessCompany(api, today, category, companies[k]);
      assert cands[k] == Candidate(category, companies[k]);
      if decision.Saved? {
        rows := rows + [decision.row];
      }
    }
    assert cands[..|companies|] == cands;
  }

  /** The `for sic_code in codes` loop of one category. */
  method ProcessCategory(api: Api, today: Today, category: string, codes: seq<string>) returns (rows: seq<Row>, processed: nat)
    ensures rows == Rows(api, today, CategoryCandidates(api, category, codes))
    ensures processed == |CategoryCandidates(api, category, codes)|
  {
    rows, processed := [], 0;
    for j := 0 to |codes|
      invariant rows == Rows(api, today, CategoryCandidates(api, category, codes[..j]))
      invariant processed == |CategoryCandidates(api, category, codes[..j])|
    {
      CategoryCandidatesStep(api, category, codes, j);
      var codeRows, codeProcessed := ProcessCode(api, today, category, codes[j]);
      RowsAppend(api, today, CategoryCandidates(api, category, codes[..j]), CodeCandidates(api, category, codes[j]));
      rows := rows + codeRows;
      processed := processed + codeProcessed;
    }
    assert codes[..|codes|] == codes;
  }

  /** The `for category, codes in sic_codes.items()` loop over a table of categories. */
  method ProcessTable(api: Api, today: Today, table: seq<(string, seq<string>)>) returns (rows: seq<Row>, processed: nat, saved: nat)
    ensures rows == Rows(api, today, AllCandidates(api, table))
    ensures processed == |AllCandidates(api, table)|
    ensures saved == |rows|
  {
    rows, processed, saved := [], 0, 0;
    for i := 0 to |table|
      invariant rows == Rows(api, today, AllCandidates(api, table[..i]))
      invariant processed == |AllCandidates(api, table[..i])|
      invariant saved == |rows|
    {
      AllCandidatesStep(api, table, i);
      var category := table[i].0;
      var codes := table[i].1;
      var categoryRows, categoryProcessed := ProcessCategory(api, today, category, codes);
      RowsAppend(api, today, AllCandidates(api, table[..i]), CategoryCandidates(api, category, codes));
      rows := rows + categoryRows;
      processed := processed + categoryProcessed;
      saved := saved + |categoryRows|;
    }
    assert table[..|table|] == table;
  }

  /**
   * `process_companies` without the file: the rows written, and the
   * `processed_count` and `saved_count` it logs.
   */
  method ProcessCompanies(api: Api, today: Today) returns (rows: seq<Row>, processed: nat, saved: nat)
    ensures rows == Rows(api, today, AllCandidates(api, SicCategories))
    ensures processed == |AllCandidates(api, SicCategories)|
    ensures saved == |rows|
  {
    rows, processed, saved := ProcessTable(api, today, SicCategories);
  }

  /** Every candidate has a truthy company number. */
  predicate HaveNumbers(cands: seq<Candidate>) {
    forall k :: 0 <= k < |cands| ==> cands[k].company.number != ""
  }

  lemma HaveNumbersAppend(a: seq<Candidate>, b: seq<Candidate>)
    requires HaveNumbers(a) && HaveNumbers(b)
    ensures HaveNumbers(a + b)
  {
    forall k | 0 <= k < |a + b|
      ensures (a + b)[k].company.number != ""
    {
      if k < |a| { assert (a + b)[k] == a[k]; } else { assert (a + b)[k] == b[k - |a|]; }
    }
  }

  /** The `if not company_number` skip never fires: every searched company has a truthy number. */
  lemma {:induction false} CandidatesHaveNumbers(api: Api, table: seq<(string, seq<string>)>)
    ensures HaveNumbers(AllCandidates(api, table))
  {
    if table != [] {
      var last := table[|table| - 1];
      CandidatesHaveNumbers(api, table[..|table| - 1]);
      CategoryHasNumbers(api, last.0, last.1);
      HaveNumbersAppend(AllCandidates(api, table[..|table| - 1]), CategoryCandidates(api, last.0, last.1));
    }
  }

  lemma {:induction false} CategoryHasNumbers(api: Api, category: string, codes: seq<string>)
    ensures HaveNumbers(CategoryCandidates(api, category, codes))
  {
    if codes != [] {
      CategoryHasNumbers(api, category, codes[..|codes| - 1]);
      CodeHasNumbers(api, category, codes[|codes| - 1]);
      HaveNumbersAppend(CategoryCandidates(api, category, codes[..|codes| - 1]), CodeCandidates(api, category, codes[|codes| - 1]));
    }
  }

  lemma CodeHasNumbers(api: Api, category: string, code: string)
    ensures HaveNumbers(CodeCandidates(api, category, code))
  {
    var cs := Dedup(SearchAll(api, code, SearchQueries));
    var cands := CodeCandidates(api, category, code);
    SearchResultsMatch(api, code);
    forall k | 0 <= k < |cands|
      ensures cands[k].company.number != ""
    {
      assert |cands| == |cs|;
      assert cands[k].company == cs[k];
      assert cs[k].number != "";
    }
  }
}
