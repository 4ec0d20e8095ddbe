/**
 * `filtering_2nd_sheet.py`: reads the first pound amount of each
 * 'Turnover Banding' with the pattern `£(\d+(?:,\d+)?)` and keeps the rows
 * where one was found.
 */
module SecondSheet {
  import opened Wrappers
  import opened Text
  import opened Decimal
  import opened Sheets

  /** The length of the run of digits starting at `i` (greedy `\d+`). */
  function DigitRun(s: string, i: nat): (n: nat)
    ensures i + n <= |s| || (i > |s| && n == 0)
    decreases |s| - i
  {
    if i < |s| && IsDigit(s[i]) then 1 + DigitRun(s, i + 1) else 0
  }

  lemma {:induction false} DigitRunSpec(s: string, i: nat)
    requires i <= |s|
    ensures AllDigits(s[i..i + DigitRun(s, i)])
    ensures i + DigitRun(s, i) == |s| || !IsDigit(s[i + DigitRun(s, i)])
    decreases |s| - i
  {
    if i < |s| && IsDigit(s[i]) {
      DigitRunSpec(s, i + 1);
      var n := DigitRun(s, i + 1);
      assert s[i..i + 1 + n] == [s[i]] + s[i + 1..i + 1 + n];
    }
  }

  /** The pattern can start at `i`: a '£' followed by a digit. */
  predicate PoundAt(s: string, i: nat) {
    i + 1 < |s| && s[i] == '£' && IsDigit(s[i + 1])
  }

  /** The leftmost start of a match at or after `i`. */
  function FindPound(s: string, i: nat): (r: Option<nat>)
    ensures r.Some? ==> i <= r.value && PoundAt(s, r.value)
    decreases |s| - i
  {
    if i + 1 >= |s| then None
    else if PoundAt(s, i) then Some(i)
    else FindPound(s, i + 1)
  }

  /** `re.search` finds the leftmost start: None exactly when there is none at or after `i`. */
  lemma {:induction false} FindPoundSound(s: string, i: nat)
    ensures FindPound(s, i).None? <==> forall j :: i <= j < |s| ==> !PoundAt(s, j)
    ensures FindPound(s, i).Some? ==> forall j :: i <= j < FindPound(s, i).value ==> !PoundAt(s, j)
    decreases |s| - i
  {
    if i + 1 < |s| && !PoundAt(s, i) {
      FindPoundSound(s, i + 1);
    }
  }

  /**
   * `match.group(1)` for a match starting at `i`: the digits after '£', then
   * `,digits` if a comma followed by a digit comes next (one group at most).
   */
  function Amount(s: string, i: nat): (group: string)
    requires PoundAt(s, i)
  {
    var a := DigitRun(s, i + 1);
    var j := i + 1 + a;
    if j + 1 < |s| && s[j] == ',' && IsDigit(s[j + 1]) then s[i + 1..j + 1 + DigitRun(s, j + 1)]
    else s[i + 1..j]
  }

  /**
   * `convert_turnover`: `re.search` on a NaN or a number raises TypeError;
   * a text gives `float(group.replace(',', ''))` of the leftmost match, or None.
   */
  function ConvertTurnover(cell: Cell): (r: Result<Option<real>>)
    ensures r.Success? <==> cell.TextCell?
  {
    match cell
    case Blank => Failure("TypeError")
    case NumberCell(_) => Failure("TypeError")
    case TextCell(t) =>
      match FindPound(t, 0)
      case None => Success(None)
      case Some(i) => Success(AmountValue(t, i))
  }

  /** `float(group.replace(',', ''))` for the match starting at `i`. */
  function AmountValue(t: string, i: nat): Option<real>
    requires PoundAt(t, i)
  {
    ParseFloat(RemoveChar(Amount(t, i), ','))
  }

  /** A comma and a digit follow the first run of digits of the match at `i`. */
  predicate SecondGroupAt(s: string, i: nat) {
    var j := i + 1 + DigitRun(s, i + 1);
    j + 1 < |s| && s[j] == ',' && IsDigit(s[j + 1])
  }

  /** With its commas removed, `g` is a non-empty string of digits. */
  predicate CleanDigits(g: string) {
    var d := RemoveChar(g, ','); d != [] && AllDigits(d)
  }

  /** Where the second group of digits of the match at `i` ends. */
  function SecondGroupEnd(s: string, i: nat): (q: nat)
    requires PoundAt(s, i) && SecondGroupAt(s, i)
    ensures i + 1 < q <= |s|
  {
    var j := i + 1 + DigitRun(s, i + 1);
    j + 1 + DigitRun(s, j + 1)
  }

  /** The group with its comma removed is a non-empty string of digits. */
  lemma AmountDigits(s: string, i: nat)
    requires PoundAt(s, i)
    ensures CleanDigits(Amount(s, i))
  {
    if SecondGroupAt(s, i) {
      AmountDigitsTwo(s, i);
    } else {
      AmountDigitsOne(s, i);
    }
  }

  lemma AmountDigitsOne(s: string, i: nat)
    requires PoundAt(s, i) && !SecondGroupAt(s, i)
    ensures CleanDigits(Amount(s, i))
  {
    var j := i + 1 + DigitRun(s, i + 1);
    DigitRunSpec(s, i + 1);
    var first := s[i + 1..j];
    assert Amount(s, i) == first && AllDigits(first) && first != [];
    OneGroupDigits(first);
  }

  lemma AmountDigitsTwo(s: string, i: nat)
    requires PoundAt(s, i) && SecondGroupAt(s, i)
    ensures CleanDigits(Amount(s, i))
  {
    AmountOfSecondGroup(s, i);
    SecondGroupDigits(s, i);
  }

  lemma SecondGroupDigits(s: string, i: nat)
    requires PoundAt(s, i) && SecondGroupAt(s, i)
    ensures CleanDigits(s[i + 1..SecondGroupEnd(s, i)])
  {
    var j := i + 1 + DigitRun(s, i + 1);
    DigitRunSpec(s, i + 1);
    DigitRunSpec(s, j + 1);
    TwoGroupDigits(s, i + 1, j, SecondGroupEnd(s, i));
  }

  lemma AmountOfSecondGroup(s: string, i: nat)
    requires PoundAt(s, i) && SecondGroupAt(s, i)
    ensures Amount(s, i) == s[i + 1..SecondGroupEnd(s, i)]
  {
  }

  lemma OneGroupDigits(ds: string)
    requires AllDigits(ds)
    ensures RemoveChar(ds, ',') == ds
  {
    assert ',' !in ds;
  }

  lemma TwoGroupDigits(s: string, p: nat, j: nat, q: nat)
    requires p < j < q <= |s| && s[j] == ','
    requires AllDigits(s[p..j]) && AllDigits(s[j + 1..q])
    ensures CleanDigits(s[p..q])
  {
    var first, second := s[p..j], s[j + 1..q];
    assert s[p..q] == first + "," + second;
    DropComma(first, second);
    assert first + second == s[p..j] + s[j + 1..q];
    assert AllDigits(first + second);
  }

  /**
   * A text cell converts without error; it gives None exactly when no '£' is
   * directly followed by a digit, and otherwise a non-negative whole number.
   */
  lemma ConvertTurnoverSpec(t: string)
    ensures ConvertTurnover(TextCell(t)).Success?
    ensures ConvertTurnover(TextCell(t)).value.None? <==> forall i :: 0 <= i < |t| ==> !PoundAt(t, i)
    ensures ConvertTurnover(TextCell(t)).value.Some? ==>
      var v := ConvertTurnover(TextCell(t)).value.value; v >= 0.0 && v.Floor as real == v
  {
    FindPoundSound(t, 0);
    if FindPound(t, 0).Some? {
      var i := FindPound(t, 0).value;
      AmountDigits(t, i);
      ParseDigits(RemoveChar(Amount(t, i), ','));
    }
  }

  /** A parse of an amount: the pound sign, a first group of digits, what follows. */
  lemma AmountAtStart(a: string, rest: string)
    requires a != [] && AllDigits(a) && (rest == [] || !IsDigit(rest[0]))
    ensures var s := "£" + a + rest;
      PoundAt(s, 0) && DigitRun(s, 1) == |a|
  {
    var s := "£" + a + rest;
    DigitRunOver(s, 1, a);
  }

  /** Over a known block of digits followed by a non-digit, the run is the block. */
  lemma {:induction false} DigitRunOver(s: string, i: nat, a: string)
    requires i + |a| <= |s| && s[i..i + |a|] == a && AllDigits(a)
    requires i + |a| == |s| || !IsDigit(s[i + |a|])
    ensures DigitRun(s, i) == |a|
    decreases |a|
  {
    if a != [] {
      assert s[i] == a[0];
      assert s[i + 1..i + 1 + |a[1..]|] == a[1..];
      DigitRunOver(s, i + 1, a[1..]);
    }
  }

  /** `"£" + digits` reads as the number the digits denote. */
  lemma PlainAmount(n: nat)
    ensures ConvertTurnover(TextCell("£" + ShowNat(n))) == Success(Some(n as real))
  {
    var a := ShowNat(n);
    var s := "£" + a;
    assert s == "£" + a + [];
    AmountAtStart(a, []);
    assert Amount(s, 0) == a;
    assert RemoveChar(a, ',') == a;
    ParseDigits(a);
  }

  /**
   * An amount without a thousands separator: in `"£" + a + rest`, with `rest`
   * starting with neither a digit nor a comma and a digit, the amount is `a`,
   * so "£500 to £1000" reads as 500.
   */
  lemma OneGroupOnly(a: string, rest: string)
    requires a != [] && AllDigits(a)
    requires rest == [] || !IsDigit(rest[0])
    requires |rest| >= 2 && rest[0] == ',' ==> !IsDigit(rest[1])
    ensures ConvertTurnover(TextCell("£" + a + rest)) == Success(Some(DigitsValue(a) as real))
  {
    var s := "£" + a + rest;
    AmountAtStart(a, rest);
    assert !SecondGroupAt(s, 0) by {
      var j := 1 + |a|;
      if j < |s| {
        assert s[j] == rest[0];
      }
      if j + 1 < |s| {
        assert s[j + 1] == rest[1];
      }
    }
    AmountOfFirstGroup(s, 0);
    assert s[1..1 + |a|] == a;
    ConvertSome(s, 0);
    GroupValue(s, 0, a);
  }

  /** A match whose group is a plain digit string has the value those digits denote. */
  lemma GroupValue(t: string, i: nat, g: string)
    requires PoundAt(t, i) && Amount(t, i) == g && g != [] && AllDigits(g)
    ensures AmountValue(t, i) == Some(DigitsValue(g) as real)
  {
    OneGroupDigits(g);
    ParseDigits(g);
  }

  /**
   * Only one thousands separator is read: in `"£" + a + "," + b + rest`, with
   * `rest` not starting with a digit, the amount is the digits of `a` and `b`
   * alone, so "£1,000,000" reads as 1000.
   */
  lemma OneCommaGroupOnly(a: string, b: string, rest: string)
    requires a != [] && AllDigits(a) && b != [] && AllDigits(b)
    requires rest == [] || !IsDigit(rest[0])
    ensures ConvertTurnover(TextCell("£" + a + "," + b + rest)) == Success(Some(DigitsValue(a + b) as real))
  {
    var s := "£" + a + "," + b + rest;
    AmountWithComma(a, b, rest);
    DropComma(a, b);
    ParseDigits(a + b);
  }

  /** No match of the pattern starts before index `n`. */
  predicate NoPoundBefore(t: string, n: nat) {
    forall j :: 0 <= j < n ==> !PoundAt(t, j)
  }

  /** A prefix without a '£' holds no match. */
  lemma PoundFreePrefix(p: string, s: string)
    requires '£' !in p
    ensures NoPoundBefore(p + s, |p|)
  {
    forall j | 0 <= j < |p|
      ensures !PoundAt(p + s, j)
    {
      assert (p + s)[j] == p[j];
    }
  }

  /**
   * Text before the amount in which no '£' is directly followed by a digit
   * does not change what is read: the search passes over it.
   */
  lemma PrefixIgnored(p: string, s: string)
    requires NoPoundBefore(p + s, |p|)
    ensures ConvertTurnover(TextCell(p + s)) == ConvertTurnover(TextCell(s))
  {
    FindPoundPrefix(p, s);
    if FindPound(s, 0).Some? {
      AmountShift(p, s, FindPound(s, 0).value);
    }
    SameReading(p + s, s, |p|);
  }

  /** Two texts whose leftmost matches read the same group convert alike. */
  lemma SameReading(t: string, s: string, d: nat)
    requires FindPound(s, 0).None? ==> FindPound(t, 0).None?
    requires FindPound(s, 0).Some? ==> FindPound(t, 0) == Some(d + FindPound(s, 0).value)
    requires FindPound(s, 0).Some? ==> Amount(t, d + FindPound(s, 0).value) == Amount(s, FindPound(s, 0).value)
    ensures ConvertTurnover(TextCell(t)) == ConvertTurnover(TextCell(s))
  {
    match FindPound(s, 0)
    case None =>
      ConvertNone(t);
      ConvertNone(s);
    case Some(i) =>
      ConvertSome(t, d + i);
      ConvertSome(s, i);
  }

  lemma FindPoundPrefix(p: string, s: string)
    requires NoPoundBefore(p + s, |p|)
    ensures FindPound(s, 0).None? ==> FindPound(p + s, 0).None?
    ensures FindPound(s, 0).Some? ==> FindPound(p + s, 0) == Some(|p| + FindPound(s, 0).value)
  {
    FindPoundSkip(p, s, 0);
    FindPoundShift(p, s, 0);
  }

  /** A text with no match converts to None. */
  lemma ConvertNone(t: string)
    requires FindPound(t, 0).None?
    ensures ConvertTurnover(TextCell(t)) == Success(None)
  {
  }

  /** A text whose leftmost match starts at `i` converts to the value of that match's group. */
  lemma ConvertSome(t: string, i: nat)
    requires FindPound(t, 0) == Some(i)
    ensures PoundAt(t, i) && ConvertTurnover(TextCell(t)) == Success(AmountValue(t, i))
  {
  }

  /**
   * The first pound amount is read whatever text without a match comes
   * before it, and with one comma group at most.
   */
  lemma AmountAfterPrefix(p: string, a: string, b: string, rest: string)
    requires NoPoundBefore(p + ("£" + a + "," + b + rest), |p|)
    requires a != [] && AllDigits(a) && b != [] && AllDigits(b)
    requires rest == [] || !IsDigit(rest[0])
    ensures ConvertTurnover(TextCell(p + ("£" + a + "," + b + rest))) == Success(Some(DigitsValue(a + b) as real))
  {
    PrefixIgnored(p, "£" + a + "," + b + rest);
    OneCommaGroupOnly(a, b, rest);
  }

  /**
   * A band as the sheet writes it: "J: £1,000,000 to £5,000,000" reads as
   * 1000, the first amount with its first comma group only.
   */
  lemma BandReadsFirstGroup()
    ensures ConvertTurnover(TextCell("J: £1,000,000 to £5,000,000")) == Success(Some(1000.0))
  {
    BandLayout();
    ThousandDigits();
    PoundFreePrefix("J: ", "£" + "1" + "," + "000" + ",000 to £5,000,000");
    AmountAfterPrefix("J: ", "1", "000", ",000 to £5,000,000");
  }

  /** A '£' that no digit follows is passed over: "£ n/a £1,000" reads as 1000. */
  lemma StrayPoundSkipped()
    ensures ConvertTurnover(TextCell("£ n/a £1,000")) == Success(Some(1000.0))
  {
    StrayLayout();
    ThousandDigits();
    AmountAfterPrefix("£ n/a ", "1", "000", "");
  }

  lemma StrayLayout()
    ensures "£ n/a £1,000" == "£ n/a " + ("£" + "1" + "," + "000" + "")
    ensures NoPoundBefore("£ n/a £1,000", 6)
  {
    var t := "£ n/a £1,000";
    forall j | 0 <= j < 6
      ensures !PoundAt(t, j)
    {
      assert t[0] == '£' && t[1] == ' ' && t[2] == 'n' && t[3] == '/' && t[4] == 'a' && t[5] == ' ';
    }
  }

  lemma BandLayout()
    ensures "J: £1,000,000 to £5,000,000" == "J: " + ("£" + "1" + "," + "000" + ",000 to £5,000,000")
    ensures '£' !in "J: "
  {
  }

  lemma ThousandDigits()
    ensures AllDigits("1") && AllDigits("000") && DigitsValue("1" + "000") == 1000
  {
    assert "1" + "000" == "1000";
    assert "1000"[..3] == "100" && "100"[..2] == "10" && "10"[..1] == "1" && "1"[..0] == "";
  }

  /** The search passes over positions before `|p|` in `p + s` when none of them starts a match. */
  lemma {:induction false} FindPoundSkip(p: string, s: string, j: nat)
    requires NoPoundBefore(p + s, |p|) && j <= |p|
    ensures FindPound(p + s, j) == FindPound(p + s, |p|)
    decreases |p| - j
  {
    if j < |p| {
      assert (p + s)[j] == p[j];
      FindPoundSkip(p, s, j + 1);
    }
  }

  /** Searching `p + s` from `|p| + i` finds the match of `s` from `i`, shifted by `|p|`. */
  lemma {:induction false} FindPoundShift(p: string, s: string, i: nat)
    ensures FindPound(p + s, |p| + i) == if FindPound(s, i).Some? then Some(|p| + FindPound(s, i).value) else None
    decreases |s| - i
  {
    var t := p + s;
    if i + 1 < |s| {
      assert t[|p| + i] == s[i] && t[|p| + i + 1] == s[i + 1];
      if !PoundAt(s, i) {
        FindPoundShift(p, s, i + 1);
      }
    }
  }

  /** The greedy digit run of `s` at `i` is the run of `p + s` at `|p| + i`. */
  lemma {:induction false} DigitRunShift(p: string, s: string, i: nat)
    ensures DigitRun(p + s, |p| + i) == DigitRun(s, i)
    decreases |s| - i
  {
    if i < |s| {
      assert (p + s)[|p| + i] == s[i];
      DigitRunShift(p, s, i + 1);
    }
  }

  /** The group read at `i` in `s` is the group read at `|p| + i` in `p + s`. */
  lemma AmountShift(p: string, s: string, i: nat)
    requires PoundAt(s, i)
    ensures PoundAt(p + s, |p| + i) && Amount(p + s, |p| + i) == Amount(s, i)
  {
    assert (p + s)[|p| + i] == s[i] && (p + s)[|p| + i + 1] == s[i + 1];
    SecondGroupShift(p, s, i);
    if SecondGroupAt(s, i) {
      AmountShiftTwo(p, s, i);
    } else {
      AmountShiftOne(p, s, i);
    }
  }

  lemma AmountShiftTwo(p: string, s: string, i: nat)
    requires PoundAt(s, i) && PoundAt(p + s, |p| + i) && SecondGroupAt(s, i) && SecondGroupAt(p + s, |p| + i)
    requires SecondGroupEnd(p + s, |p| + i) == |p| + SecondGroupEnd(s, i)
    ensures Amount(p + s, |p| + i) == Amount(s, i)
  {
    AmountOfSecondGroup(s, i);
    AmountOfSecondGroup(p + s, |p| + i);
    SliceShift(p, s, i + 1, SecondGroupEnd(s, i));
  }

  lemma AmountShiftOne(p: string, s: string, i: nat)
    requires PoundAt(s, i) && PoundAt(p + s, |p| + i) && !SecondGroupAt(s, i) && !SecondGroupAt(p + s, |p| + i)
    requires DigitRun(p + s, |p| + i + 1) == DigitRun(s, i + 1)
    ensures Amount(p + s, |p| + i) == Amount(s, i)
  {
    AmountOfFirstGroup(s, i);
    AmountOfFirstGroup(p + s, |p| + i);
    SliceShift(p, s, i + 1, i + 1 + DigitRun(s, i + 1));
  }

  lemma SecondGroupShift(p: string, s: string, i: nat)
    requires PoundAt(s, i) && PoundAt(p + s, |p| + i)
    ensures DigitRun(p + s, |p| + i + 1) == DigitRun(s, i + 1)
    ensures SecondGroupAt(p + s, |p| + i) <==> SecondGroupAt(s, i)
    ensures SecondGroupAt(s, i) ==> SecondGroupEnd(p + s, |p| + i) == |p| + SecondGroupEnd(s, i)
  {
    var t := p + s;
    DigitRunShift(p, s, i + 1);
    var j := i + 1 + DigitRun(s, i + 1);
    if j + 1 < |s| {
      assert t[|p| + j] == s[j] && t[|p| + j + 1] == s[j + 1];
      DigitRunShift(p, s, j + 1);
    }
  }

  lemma SliceShift(p: string, s: string, a: nat, b: nat)
    requires a <= b <= |s|
    ensures (p + s)[|p| + a..|p| + b] == s[a..b]
  {
    assert forall k :: a <= k < b ==> (p + s)[|p| + k] == s[k];
  }

  lemma AmountOfFirstGroup(s: string, i: nat)
    requires PoundAt(s, i) && !SecondGroupAt(s, i)
    ensures i + 1 + DigitRun(s, i + 1) <= |s|
    ensures Amount(s, i) == s[i + 1..i + 1 + DigitRun(s, i + 1)]
  {
  }

  /** The match of `"£" + a + "," + b + rest` starts at the pound sign and its group is `a + "," + b`. */
  lemma AmountWithComma(a: string, b: string, rest: string)
    requires a != [] && AllDigits(a) && b != [] && AllDigits(b)
    requires rest == [] || !IsDigit(rest[0])
    ensures var s := "£" + a + "," + b + rest;
      PoundAt(s, 0) && FindPound(s, 0) == Some(0) && Amount(s, 0) == a + "," + b
  {
    var s := "£" + a + "," + b + rest;
    CommaLayout(a, b, rest);
    AmountAtStart(a, "," + b + rest);
    DigitRunOver(s, |a| + 2, b);
    AmountOfTwoGroups(s, 0, |a|, |b|);
  }

  /** Where the pieces of `"£" + a + "," + b + rest` sit. */
  lemma CommaLayout(a: string, b: string, rest: string)
    requires b != [] && (rest == [] || !IsDigit(rest[0]))
    ensures var s := "£" + a + "," + b + rest;
      && s == "£" + a + ("," + b + rest)
      && s[|a| + 1] == ',' && s[|a| + 2] == b[0]
      && s[|a| + 2..|a| + 2 + |b|] == b
      && (|a| + 2 + |b| == |s| || !IsDigit(s[|a| + 2 + |b|]))
      && s[1..|a| + 2 + |b|] == a + "," + b
  {
    var s := "£" + a + "," + b + rest;
    assert s == "£" + a + ("," + b + rest) by {
      AppendAssoc("£" + a, ",", b);
      AppendAssoc("£" + a, "," + b, rest);
      AppendAssoc(",", b, rest);
    }
    SliceMiddle("£" + a + ",", b, rest);
    if |a| + 2 + |b| < |s| {
      assert s[|a| + 2 + |b|] == rest[0];
    }
    assert s == "£" + (a + "," + b) + rest by {
      AppendAssoc("£", a, ",");
      AppendAssoc("£", a + ",", b);
    }
    SliceMiddle("£", a + "," + b, rest);
  }

  /** A match at `i` whose first run of `n` digits is followed by ',' and a run of `m` digits. */
  lemma AmountOfTwoGroups(s: string, i: nat, n: nat, m: nat)
    requires PoundAt(s, i) && DigitRun(s, i + 1) == n
    requires i + n + 2 < |s| && s[i + 1 + n] == ',' && IsDigit(s[i + n + 2]) && DigitRun(s, i + n + 2) == m
    ensures FindPound(s, i) == Some(i) && Amount(s, i) == s[i + 1..i + n + 2 + m]
  {
  }

  /** `replace(',', '')` on `a + "," + b` for digit strings. */
  lemma DropComma(a: string, b: string)
    requires AllDigits(a) && AllDigits(b)
    ensures RemoveChar(a + "," + b, ',') == a + b
  {
    assert ',' !in a && ',' !in b;
    var comma: string := [','];
    assert RemoveChar(comma, ',') == [] by {
      assert comma[1..] == [];
    }
    RemoveCharAppend(a, comma, ',');
    RemoveCharAppend(a + comma, b, ',');
    assert a + [] == a;
  }

  /** `df['Turnover Banding'].apply(convert_turnover)`. */
  function ConvertColumn(cells: seq<Cell>): Result<seq<Option<real>>> {
    ApplyColumn(cells, ConvertTurnover)
  }

  /** The column converts exactly when every cell is text, and then cell by cell. */
  lemma ConvertColumnSpec(cells: seq<Cell>)
    ensures ConvertColumn(cells).Success? <==> forall k :: 0 <= k < |cells| ==> cells[k].TextCell?
    ensures ConvertColumn(cells).Success? ==>
      |ConvertColumn(cells).value| == |cells|
      && forall k :: 0 <= k < |cells| ==> ConvertColumn(cells).value[k] == ConvertTurnover(cells[k]).value
  {
    ApplyColumnSpec(cells, ConvertTurnover);
  }

  /** The CSV rows, or the exception that stops the script before it writes any. */
  function Output(names: seq<Cell>, cells: seq<Cell>, fetch: string -> Option<seq<Director>>): Result<seq<SheetRow<real>>>
    requires |names| == |cells|
  {
    var amounts := ConvertColumn(cells);
    if amounts.Failure? then Failure(amounts.exception)
    else
      ConvertColumnSpec(cells);
      Annotate(names, amounts.value, fetch)
  }

  /**
   * The script stops exactly when the band column raises or some company
   * name is not text; the column is converted first, and a name raises TypeError.
   */
  lemma OutputFails(names: seq<Cell>, cells: seq<Cell>, fetch: string -> Option<seq<Director>>)
    requires |names| == |cells|
    ensures Output(names, cells, fetch).Failure? <==>
      ConvertColumn(cells).Failure? || exists k :: 0 <= k < |names| && !names[k].TextCell?
    ensures ConvertColumn(cells).Success? && Output(names, cells, fetch).Failure? ==>
      Output(names, cells, fetch).exception == "TypeError"
  {
    ConvertColumnSpec(cells);
    if ConvertColumn(cells).Success? {
      AnnotateSpec(names, ConvertColumn(cells).value, fetch);
    }
  }

  /** Every row written carries the amount read from its own input row. */
  lemma OutputAmounts(names: seq<Cell>, cells: seq<Cell>, fetch: string -> Option<seq<Director>>, r: SheetRow<real>)
    requires |names| == |cells| && Output(names, cells, fetch).Success? && r in Output(names, cells, fetch).value
    ensures r.band.Some? && r.band.value >= 0.0
    ensures exists k :: (0 <= k < |names| && names[k] == TextCell(r.name) && ConvertTurnover(cells[k]) == Success(r.band)
                         && r.directors == NoteFor(r.name, fetch))
  {
    ConvertColumnSpec(cells);
    var amounts := ConvertColumn(cells).value;
    AnnotatedRows(names, amounts, fetch, r);
  }

  /** The script from the band column to the CSV rows; a band or a name that is not text stops it. */
  method Run(names: seq<Cell>, cells: seq<Cell>, fetch: string -> Option<seq<Director>>) returns (out: Result<seq<SheetRow<real>>>)
    requires |names| == |cells|
    ensures out == Output(names, cells, fetch)
  {
    var amounts := ConvertColumn(cells);
    if amounts.Failure? {
      return Failure(amounts.exception);
    }
    ConvertColumnSpec(cells);
    out := Assemble(names, amounts.value, fetch);
  }
}
