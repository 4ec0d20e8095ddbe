/**
 * Turnover extraction from a company's filing history
 * (`CompaniesHouseClient.get_company_accounts`).
 */
module Accounts {
  import opened Wrappers
  import opened Text
  import opened Decimal

  /**
   * A value of a filing's `data` mapping. Only text has `.replace`; any other
   * JSON value (number, null, list, object) raises AttributeError there.
   */
  datatype FieldValue = TextValue(text: string) | OtherValue

  /** One filing-history item: its `category` (absent when missing) and its `data` (empty when missing). */
  datatype Filing = Filing(category: Option<string>, data: map<string, FieldValue>)

  /** The filing categories that carry accounts, in the order the source lists them. */
  const AccountsCategories: seq<string> := ["accounts", "accounts-with-accounts-type-full", "accounts-with-accounts-type-small"]

  /** The turnover field names, in the order they are tried. */
  const TurnoverFields: seq<string> := ["turnover", "revenue", "total_turnover", "uk_turnover"]

  predicate IsAccountsFiling(f: Filing) {
    f.category.Some? && f.category.value in AccountsCategories
  }

  /** `value.replace('£', '').replace(',', '')`. */
  function CleanAmount(s: string): (t: string)
    ensures '£' !in t && ',' !in t
    ensures '£' !in s && ',' !in s ==> t == s
  {
    var t := RemoveChar(RemoveChar(s, '£'), ',');
    assert '£' !in t by { RemoveCharKeeps(RemoveChar(s, '£'), ',', '£'); }
    t
  }

  /** Cleaning distributes over concatenation. */
  lemma CleanAmountAppend(a: string, b: string)
    ensures CleanAmount(a + b) == CleanAmount(a) + CleanAmount(b)
  {
    RemoveCharAppend(a, b, '£');
    RemoveCharAppend(RemoveChar(a, '£'), RemoveChar(b, '£'), ',');
  }

  /** Cleaning keeps a hyphen exactly when the raw value has one. */
  lemma CleanAmountHyphen(s: string)
    ensures '-' in CleanAmount(s) <==> '-' in s
  {
    RemoveCharKeeps(s, '£', '-');
    RemoveCharKeeps(RemoveChar(s, '£'), ',', '-');
  }

  /**
   * The body of the `try` block: clean the value, and when it holds a hyphen
   * unpack `split('-')` into exactly two parts and parse the stripped lower one;
   * otherwise parse the whole cleaned value. None stands for the ValueError or
   * AttributeError that the source catches.
   */
  function ParseTurnover(v: FieldValue): (r: Option<real>)
    ensures r.Some? ==> r.value >= 0.0
    ensures v.OtherValue? ==> r.None?
  {
    match v
    case OtherValue => None
    case TextValue(s) =>
      var t := CleanAmount(s);
      if '-' in t then
        var parts := Split(t, '-');
        if |parts| == 2 then ParseFloat(Strip(parts[0])) else None
      else ParseFloat(t)
  }

  /**
   * A range "lower-upper" (neither part holding a hyphen) yields the stripped,
   * cleaned lower part, whatever the upper part is.
   */
  lemma RangeTakesLower(lower: string, upper: string)
    requires '-' !in lower && '-' !in upper
    ensures ParseTurnover(TextValue(lower + "-" + upper)) == ParseFloat(Strip(CleanAmount(lower)))
  {
    var s := lower + "-" + upper;
    CleanAmountAppend(lower + "-", upper);
    CleanAmountAppend(lower, "-");
    CleanAmountHyphen(lower);
    CleanAmountHyphen(upper);
    var t := CleanAmount(s);
    assert t == CleanAmount(lower) + "-" + CleanAmount(upper);
    assert '-' in t by { assert t[|CleanAmount(lower)|] == '-'; }
    SplitAtOnly(CleanAmount(lower), CleanAmount(upper), '-');
  }

  /** Hence the upper bound of a range never affects the result. */
  lemma RangeUpperIrrelevant(lower: string, upper1: string, upper2: string)
    requires '-' !in lower && '-' !in upper1 && '-' !in upper2
    ensures ParseTurnover(TextValue(lower + "-" + upper1)) == ParseTurnover(TextValue(lower + "-" + upper2))
  {
    RangeTakesLower(lower, upper1);
    RangeTakesLower(lower, upper2);
  }

  /** Two or more hyphens make the two-name unpacking raise ValueError: the value is skipped. */
  lemma ManyHyphensFail(s: string)
    requires Count(CleanAmount(s), '-') >= 2
    ensures ParseTurnover(TextValue(s)) == None
  {
  }

  /** Trying field `field` of a filing: None when the filing is not accounts, lacks the field, or the value fails to parse. */
  function Attempt(f: Filing, field: string): Option<real> {
    if IsAccountsFiling(f) && field in f.data then ParseTurnover(f.data[field]) else None
  }

  /** The attempts on one filing, as a function of the field name. */
  function Attempts(f: Filing): string -> Option<real> {
    field => Attempt(f, field)
  }

  /** The first `Some` that `attempt` gives over `xs`, in order: a scan with an early return. */
  function FirstSome<X, R>(xs: seq<X>, attempt: X -> Option<R>): Option<R> {
    if xs == [] then None
    else if attempt(xs[0]).Some? then attempt(xs[0])
    else FirstSome(xs[1..], attempt)
  }

  /** The scan returns the first attempt that succeeds. */
  lemma {:induction false} FirstSomePicksFirst<X, R>(xs: seq<X>, attempt: X -> Option<R>, k: nat)
    requires k < |xs|
    requires forall m :: 0 <= m < k ==> attempt(xs[m]).None?
    requires attempt(xs[k]).Some?
    ensures FirstSome(xs, attempt) == attempt(xs[k])
  {
    if k > 0 {
      assert attempt(xs[0]).None?;
      assert forall m :: 0 <= m < k - 1 ==> xs[1..][m] == xs[m + 1];
      FirstSomePicksFirst(xs[1..], attempt, k - 1);
    }
  }

  /** The scan finds nothing exactly when every attempt fails. */
  lemma {:induction false} FirstSomeNoneIff<X, R>(xs: seq<X>, attempt: X -> Option<R>)
    ensures FirstSome(xs, attempt).None? <==> forall m :: 0 <= m < |xs| ==> attempt(xs[m]).None?
  {
    if xs != [] {
      FirstSomeNoneIff(xs[1..], attempt);
      assert forall m :: 1 <= m < |xs| ==> xs[m] == xs[1..][m - 1];
    }
  }

  /** The first successful attempt among the fields of one filing, in priority order. */
  function FromFields(f: Filing): Option<real> {
    FirstSome(TurnoverFields, Attempts(f))
  }

  /** The first successful attempt over the filings in order, fields in priority order within each. */
  function FirstTurnover(filings: seq<Filing>): Option<real> {
    FirstSome(filings, FromFields)
  }

  /**
   * `get_company_accounts` after the request: None for a missing response or
   * one without `items`, else the scan of the filings with its early return.
   */
  method GetCompanyAccounts(history: Option<seq<Filing>>) returns (turnover: Option<real>)
    ensures history.None? ==> turnover.None?
    ensures history.Some? ==> turnover == FirstTurnover(history.value)
  {
    if history.None? {
      return None;
    }
    var filings := history.value;
    for i := 0 to |filings|
      invariant FirstTurnover(filings) == FirstSome(filings[i..], FromFields)
    {
      var filing := filings[i];
      assert filings[i..][1..] == filings[i + 1..];
      if IsAccountsFiling(filing) {
        for j := 0 to |TurnoverFields|
          invariant FromFields(filing) == FirstSome(TurnoverFields[j..], Attempts(filing))
        {
          assert TurnoverFields[j..][1..] == TurnoverFields[j + 1..];
          var field := TurnoverFields[j];
          if field in filing.data {
            var parsed := ParseTurnover(filing.data[field]);
            if parsed.Some? {
              return parsed;
            }
          }
        }
      } else {
        NotAccountsYieldsNothing(filing);
      }
    }
    return None;
  }

  /** A filing that is not accounts yields nothing. */
  lemma NotAccountsYieldsNothing(f: Filing)
    requires !IsAccountsFiling(f)
    ensures FromFields(f) == None
  {
    FirstSomeNoneIff(TurnoverFields, Attempts(f));
  }

  /** Within a filing: the result is the attempt at the first field that parses. */
  lemma FromFieldsPicksFirst(f: Filing, k: nat)
    requires k < |TurnoverFields|
    requires forall m :: 0 <= m < k ==> Attempt(f, TurnoverFields[m]).None?
    requires Attempt(f, TurnoverFields[k]).Some?
    ensures FromFields(f) == Attempt(f, TurnoverFields[k])
  {
    FirstSomePicksFirst(TurnoverFields, Attempts(f), k);
  }

  /** Every field attempt on filing `f` fails. */
  predicate AllAttemptsFail(f: Filing) {
    forall m :: 0 <= m < |TurnoverFields| ==> Attempt(f, TurnoverFields[m]).None?
  }

  /** Within a filing: nothing is found exactly when no field attempt succeeds. */
  lemma FromFieldsNoneIff(f: Filing)
    ensures FromFields(f).None? <==> AllAttemptsFail(f)
  {
    FirstSomeNoneIff(TurnoverFields, Attempts(f));
  }

  /**
   * First match wins: if field `k` of filing `i` parses and every earlier
   * attempt (all fields of earlier filings, then earlier fields of filing `i`)
   * fails, the scan returns that value.
   */
  lemma FirstTurnoverPicksFirst(filings: seq<Filing>, i: nat, k: nat)
    requires i < |filings| && k < |TurnoverFields|
    requires forall p :: 0 <= p < i ==> AllAttemptsFail(filings[p])
    requires forall m :: 0 <= m < k ==> Attempt(filings[i], TurnoverFields[m]).None?
    requires Attempt(filings[i], TurnoverFields[k]).Some?
    ensures FirstTurnover(filings) == Attempt(filings[i], TurnoverFields[k])
  {
    forall p | 0 <= p < i
      ensures FromFields(filings[p]).None?
    {
      FromFieldsNoneIff(filings[p]);
    }
    FromFieldsPicksFirst(filings[i], k);
    FirstSomePicksFirst(filings, FromFields, i);
  }

  /** Nothing is found exactly when no attempt on any filing succeeds. */
  lemma FirstTurnoverNoneIff(filings: seq<Filing>)
    ensures FirstTurnover(filings).None? <==> forall p :: 0 <= p < |filings| ==> AllAttemptsFail(filings[p])
  {
    FirstSomeNoneIff(filings, FromFields);
    forall p | 0 <= p < |filings|
      ensures FromFields(filings[p]).None? <==> AllAttemptsFail(filings[p])
    {
      FromFieldsNoneIff(filings[p]);
    }
  }

  /** Currency signs and thousands separators never influence the result. */
  lemma PoundsAndCommasIgnored(s: string)
    ensures ParseTurnover(TextValue(s)) == ParseTurnover(TextValue(CleanAmount(s)))
  {
  }

  /** A plain whole amount parses to itself. */
  lemma PlainAmount(n: nat)
    ensures ParseTurnover(TextValue(ShowNat(n))) == Some(n as real)
  {
    DigitsHaveNoDot(ShowNat(n));
    assert '-' !in ShowNat(n);
    ParseShowNat(n);
  }

  /** A range of two whole amounts, such as "1000000-5000000", parses to its lower bound. */
  lemma RangeOfAmounts(lower: nat, upper: nat)
    ensures ParseTurnover(TextValue(ShowNat(lower) + "-" + ShowNat(upper))) == Some(lower as real)
  {
    var l := ShowNat(lower);
    assert '-' !in l && '-' !in ShowNat(upper);
    RangeTakesLower(l, ShowNat(upper));
    DigitsHaveNoDot(l);
    StripNoEdge(l);
    ParseShowNat(lower);
  }
}
