/**
 * Python's `float(s)` restricted to plain decimal literals, with exact values:
 * surrounding whitespace, then digits with at most one '.', and at least one digit.
 */
module Decimal {
  import opened Wrappers
  import opened Text

  predicate IsDigit(c: char) {
    '0' <= c <= '9'
  }

  predicate AllDigits(s: string) {
    forall i :: 0 <= i < |s| ==> IsDigit(s[i])
  }

  function DigitValue(c: char): (v: nat)
    requires IsDigit(c)
    ensures v < 10
  {
    c as int - '0' as int
  }

  /** The number a string of decimal digits denotes (0 for the empty string). */
  function DigitsValue(ds: string): nat
    requires AllDigits(ds)
  {
    if ds == [] then 0 else DigitsValue(ds[..|ds| - 1]) * 10 + DigitValue(ds[|ds| - 1])
  }

  function Pow10(k: nat): (p: nat)
    ensures p >= 1
  {
    if k == 0 then 1 else 10 * Pow10(k - 1)
  }

  /** The value of the digits after the point, `0.d1d2...`; never negative. */
  function FractionValue(fraction: string): (v: real)
    requires AllDigits(fraction)
    ensures 0.0 <= v
  {
    DigitsValue(fraction) as real / Pow10(|fraction|) as real
  }

  /** Python's `float(s)` on decimal literals; every other string raises ValueError, here None. */
  function ParseFloat(s: string): (r: Option<real>)
    ensures r.Some? ==> r.value >= 0.0
  {
    var t := Strip(s);
    var dots := Count(t, '.');
    if dots == 0 then
      if t != [] && AllDigits(t) then
        Some(DigitsValue(t) as real)
      else None
    else if dots == 1 then
      var parts := Split(t, '.');
      ParsePoint(parts[0], parts[1])
    else None
  }

  /** The literal `whole + "." + fraction`: digits on both sides, at least one in all. */
  function ParsePoint(whole: string, fraction: string): (r: Option<real>)
    ensures r.Some? ==> r.value >= 0.0
  {
    if AllDigits(whole) && AllDigits(fraction) && |whole| + |fraction| > 0 then
      Some(DigitsValue(whole) as real + FractionValue(fraction))
    else None
  }

  /** The decimal rendering of `n`, as Python's `str(n)` prints it. */
  function ShowNat(n: nat): (ds: string)
    ensures |ds| > 0 && AllDigits(ds)
    ensures DigitsValue(ds) == n
  {
    var last := ['0' + ((n % 10) as char)];
    if n < 10 then last
    else
      var init := ShowNat(n / 10);
      var ds := init + last;
      assert ds[..|ds| - 1] == init;
      ds
  }

  /** A digit string has no whitespace, no '.', so float() reads it whole. */
  lemma DigitsHaveNoDot(ds: string)
    requires AllDigits(ds)
    ensures '.' !in ds
    ensures ds != [] ==> NoEdgeSpace(ds)
  {
  }

  /** `float(ds)` of a non-empty digit string is the number the digits denote. */
  lemma ParseDigits(ds: string)
    requires ds != [] && AllDigits(ds)
    ensures ParseFloat(ds) == Some(DigitsValue(ds) as real)
  {
    DigitsHaveNoDot(ds);
    StripNoEdge(ds);
  }

  /** `float(str(n)) == n`: rendering a whole number and parsing it back is exact. */
  lemma ParseShowNat(n: nat)
    ensures ParseFloat(ShowNat(n)) == Some(n as real)
  {
    ParseDigits(ShowNat(n));
  }

  /** The digits of `w + f` denote the digits of `w` shifted left past those of `f`. */
  lemma {:induction false} DigitsValueAppend(w: string, f: string)
    requires AllDigits(w) && AllDigits(f)
    ensures AllDigits(w + f)
    ensures DigitsValue(w + f) == DigitsValue(w) * Pow10(|f|) + DigitsValue(f)
  {
    if f == [] {
      assert w + f == w;
    } else {
      var init := f[..|f| - 1];
      var d := DigitValue(f[|f| - 1]);
      DigitsValueAppend(w, init);
      assert (w + f)[..|w + f| - 1] == w + init;
      assert (w + f)[|w + f| - 1] == f[|f| - 1];
      assert DigitsValue(w + f) == DigitsValue(w + init) * 10 + d;
      ScaleStep(DigitsValue(w), DigitsValue(init), Pow10(|init|), d);
    }
  }

  /** `(w * p + i) * 10 + d == w * (10 * p) + (i * 10 + d)`. */
  lemma ScaleStep(w: nat, i: nat, p: nat, d: nat)
    ensures (w * p + i) * 10 + d == w * (10 * p) + (i * 10 + d)
  {
  }

  /**
   * `float(w + "." + f)` for digit strings `w` and `f`, not both empty, is the
   * number the digits of `w + f` denote, divided by ten for each digit of `f`.
   */
  lemma ParseDecimal(w: string, f: string)
    requires AllDigits(w) && AllDigits(f) && |w| + |f| > 0
    ensures AllDigits(w + f)
    ensures ParseFloat(w + "." + f) == Some(DigitsValue(w + f) as real / Pow10(|f|) as real)
  {
    DecimalLayout(w, f);
    PointValue(w, f);
  }

  /** The point literal's value is that of all its digits, shifted right by the fraction's length. */
  lemma PointValue(w: string, f: string)
    requires AllDigits(w) && AllDigits(f) && |w| + |f| > 0
    ensures AllDigits(w + f)
    ensures ParsePoint(w, f) == Some(DigitsValue(w + f) as real / Pow10(|f|) as real)
  {
    DecimalValue(w, f);
  }

  /** Whole part plus fraction is the value of all the digits, shifted right by the fraction's length. */
  lemma DecimalValue(w: string, f: string)
    requires AllDigits(w) && AllDigits(f)
    ensures AllDigits(w + f)
    ensures DigitsValue(w + f) as real / Pow10(|f|) as real == DigitsValue(w) as real + FractionValue(f)
  {
    DigitsValueAppend(w, f);
    var a, b, p := DigitsValue(w), DigitsValue(f), Pow10(|f|);
    ShiftedValue(a, b, p);
    assert DigitsValue(w + f) == a * p + b;
  }

  /** `w + "." + f` has no edge whitespace and one '.', which splits it into `w` and `f`. */
  lemma DecimalLayout(w: string, f: string)
    requires AllDigits(w) && AllDigits(f) && |w| + |f| > 0
    ensures Strip(w + "." + f) == w + "." + f
    ensures Count(w + "." + f, '.') == 1
    ensures Split(w + "." + f, '.') == [w, f]
  {
    var t := w + "." + f;
    assert NoEdgeSpace(t) by {
      if w != [] { assert t[0] == w[0]; } else { assert t[0] == '.'; }
      if f != [] { assert t[|t| - 1] == f[|f| - 1]; } else { assert t[|t| - 1] == '.'; }
    }
    StripNoEdge(t);
    DigitsHaveNoDot(w);
    DigitsHaveNoDot(f);
    SplitAtOnly(w, f, '.');
  }

  /** `(w * p + f) / p == w + f / p` over the reals. */
  lemma ShiftedValue(w: nat, f: nat, p: nat)
    requires p >= 1
    ensures (w * p + f) as real / p as real == w as real + f as real / p as real
  {
    var pr := p as real;
    assert (w * p + f) as real == w as real * pr + f as real;
    assert (w as real * pr + f as real) / pr == w as real * pr / pr + f as real / pr;
    assert w as real * pr / pr == w as real;
  }
}
