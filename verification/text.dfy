/**
 * The few Python `str` operations the scripts rely on: `strip()`, `startswith`,
 * `replace(c, '')`, `split(c)` and `sep.join(parts)`, over `seq<char>`.
 */
module Text {

  /** Concatenation regrouped; stated once so that callers need not re-derive it element by element. */
  lemma AppendAssoc<T>(a: seq<T>, b: seq<T>, c: seq<T>)
    ensures (a + b) + c == a + (b + c)
  {
  }

  /** The middle part of a three-part concatenation, cut out again. */
  lemma SliceMiddle<T>(p: seq<T>, q: seq<T>, r: seq<T>)
    ensures (p + q + r)[|p|..|p| + |q|] == q
  {
  }

  /** A non-empty sequence is its front followed by its last element. */
  lemma InitLast<T>(s: seq<T>)
    requires s != []
    ensures s[..|s| - 1] + [s[|s| - 1]] == s
  {
  }

  /** The characters Python's `str.isspace()` accepts; `str.strip()` with no argument removes them. */
  predicate IsSpace(c: char) {
    c == ' ' || ('\t' <= c <= '\r') || ('\U{1C}' <= c <= '\U{1F}') || c == '\U{85}' || c == '\U{A0}'
    || c == '\U{1680}' || ('\U{2000}' <= c <= '\U{200A}') || c == '\U{2028}' || c == '\U{2029}'
    || c == '\U{202F}' || c == '\U{205F}' || c == '\U{3000}'
  }

  predicate AllSpace(s: string) {
    forall i :: 0 <= i < |s| ==> IsSpace(s[i])
  }

  /** Neither the first nor the last character is whitespace. */
  predicate NoEdgeSpace(s: string) {
    s == [] || (!IsSpace(s[0]) && !IsSpace(s[|s| - 1]))
  }

  /** The number of whitespace characters `s` starts with. */
  function LeadingSpace(s: string): (n: nat)
    ensures n <= |s|
  {
    if s != [] && IsSpace(s[0]) then 1 + LeadingSpace(s[1..]) else 0
  }

  /** LeadingSpace counts a maximal whitespace prefix. */
  lemma {:induction false} LeadingSpaceMaximal(s: string)
    ensures AllSpace(s[..LeadingSpace(s)])
    ensures LeadingSpace(s) < |s| ==> !IsSpace(s[LeadingSpace(s)])
  {
    if s != [] && IsSpace(s[0]) {
      LeadingSpaceMaximal(s[1..]);
      var n := LeadingSpace(s);
      forall i | 0 <= i < n
        ensures IsSpace(s[..n][i])
      {
        if i > 0 {
          assert s[..n][i] == s[1..][..n - 1][i - 1];
        }
      }
    }
  }

  /** The number of whitespace characters `s` ends with. */
  function TrailingSpace(s: string): (n: nat)
    ensures n <= |s|
  {
    if s != [] && IsSpace(s[|s| - 1]) then 1 + TrailingSpace(s[..|s| - 1]) else 0
  }

  /** TrailingSpace counts a maximal whitespace suffix. */
  lemma {:induction false} TrailingSpaceMaximal(s: string)
    ensures AllSpace(s[|s| - TrailingSpace(s)..])
    ensures TrailingSpace(s) < |s| ==> !IsSpace(s[|s| - 1 - TrailingSpace(s)])
  {
    if s != [] && IsSpace(s[|s| - 1]) {
      var init := s[..|s| - 1];
      TrailingSpaceMaximal(init);
      var n := TrailingSpace(s);
      var rest, last := init[|init| - (n - 1)..], [s[|s| - 1]];
      AllSpaceAppend(rest, last);
      assert s[|s| - n..] == rest + last;
    }
  }

  /**
   * Python's `s.strip()`: what is left once the maximal whitespace prefix and
   * suffix are cut off (StripCharacterised states it without reference to the body).
   */
  function Strip(s: string): (r: string)
    ensures |r| <= |s|
  {
    if LeadingSpace(s) < |s| - TrailingSpace(s) then s[LeadingSpace(s)..|s| - TrailingSpace(s)] else []
  }

  /** The result of `strip()` neither starts nor ends with whitespace. */
  lemma StripHasNoEdgeSpace(s: string)
    ensures NoEdgeSpace(Strip(s))
  {
    LeadingSpaceMaximal(s);
    TrailingSpaceMaximal(s);
  }

  lemma {:induction false} LeadingSpaceAppend(a: string, b: string)
    requires AllSpace(a)
    ensures LeadingSpace(a + b) == |a| + LeadingSpace(b)
  {
    if a != [] {
      assert (a + b)[1..] == a[1..] + b;
      LeadingSpaceAppend(a[1..], b);
    } else {
      assert a + b == b;
    }
  }

  lemma {:induction false} TrailingSpaceAppend(a: string, b: string)
    requires AllSpace(b)
    ensures TrailingSpace(a + b) == TrailingSpace(a) + |b|
  {
    if b != [] {
      assert (a + b)[..|a + b| - 1] == a + b[..|b| - 1];
      TrailingSpaceAppend(a, b[..|b| - 1]);
    } else {
      assert a + b == a;
    }
  }

  /**
   * Whitespace around a string without edge whitespace is exactly what
   * `strip()` removes: `Strip(w1 + r + w2) == r`. Together with StripSplits
   * this pins `Strip` down completely.
   */
  lemma StripCharacterised(w1: string, r: string, w2: string)
    requires AllSpace(w1) && AllSpace(w2) && NoEdgeSpace(r)
    ensures Strip(w1 + r + w2) == r
  {
    if r == [] {
      assert w1 + r + w2 == w1 + w2;
      StripAllSpace(w1, w2);
    } else {
      StripAroundText(w1, r, w2);
    }
  }

  lemma StripAllSpace(w1: string, w2: string)
    requires AllSpace(w1) && AllSpace(w2)
    ensures Strip(w1 + w2) == []
  {
    var s := w1 + w2;
    assert AllSpace(s);
    LeadingSpaceAppend(s, []);
    assert s + [] == s;
  }

  lemma StripAroundText(w1: string, r: string, w2: string)
    requires AllSpace(w1) && AllSpace(w2) && r != [] && NoEdgeSpace(r)
    ensures Strip(w1 + r + w2) == r
  {
    var s := w1 + r + w2;
    LeadingAroundText(w1, r, w2);
    TrailingAroundText(w1, r, w2);
    assert s[|w1|..|s| - |w2|] == r;
  }

  lemma LeadingAroundText(w1: string, r: string, w2: string)
    requires AllSpace(w1) && r != [] && !IsSpace(r[0])
    ensures LeadingSpace(w1 + r + w2) == |w1|
  {
    assert w1 + r + w2 == w1 + (r + w2);
    LeadingSpaceAppend(w1, r + w2);
    assert (r + w2)[0] == r[0];
  }

  lemma TrailingAroundText(w1: string, r: string, w2: string)
    requires AllSpace(w2) && r != [] && !IsSpace(r[|r| - 1])
    ensures TrailingSpace(w1 + r + w2) == |w2|
  {
    TrailingSpaceAppend(w1 + r, w2);
    assert (w1 + r)[|w1 + r| - 1] == r[|r| - 1];
  }

  /** `strip()` only ever removes whitespace from the two ends. */
  lemma StripSplits(s: string)
    ensures exists i, j :: 0 <= i <= j <= |s| && s[i..j] == Strip(s) && AllSpace(s[..i]) && AllSpace(s[j..])
  {
    var i, j := LeadingSpace(s), |s| - TrailingSpace(s);
    if i < |s| {
      StripAtText(s);
      LeadingSpaceMaximal(s);
      TrailingSpaceMaximal(s);
      assert 0 <= i <= j <= |s| && s[i..j] == Strip(s) && AllSpace(s[..i]) && AllSpace(s[j..]);
    } else {
      StripAtSpace(s);
      assert s[|s|..|s|] == Strip(s) && s[..|s|] == s && s[|s|..] == [];
    }
  }

  /** With some non-whitespace, `strip()` keeps what lies between the leading and the trailing whitespace. */
  lemma StripAtText(s: string)
    requires LeadingSpace(s) < |s|
    ensures LeadingSpace(s) < |s| - TrailingSpace(s)
    ensures Strip(s) == s[LeadingSpace(s)..|s| - TrailingSpace(s)]
  {
    LeadingBeforeTrailing(s);
  }

  /** A string that is all whitespace strips to nothing. */
  lemma StripAtSpace(s: string)
    requires LeadingSpace(s) == |s|
    ensures Strip(s) == [] && AllSpace(s)
  {
    LeadingSpaceMaximal(s);
    assert s[..|s|] == s;
  }

  /** Unless the string is all whitespace, the leading and trailing whitespace do not meet. */
  lemma LeadingBeforeTrailing(s: string)
    requires LeadingSpace(s) < |s|
    ensures LeadingSpace(s) < |s| - TrailingSpace(s)
  {
    LeadingSpaceMaximal(s);
    TrailingStopsAt(s, LeadingSpace(s));
  }

  /** The trailing whitespace stops short of any non-whitespace character. */
  lemma {:induction false} TrailingStopsAt(s: string, k: nat)
    requires k < |s| && !IsSpace(s[k])
    ensures TrailingSpace(s) < |s| - k
  {
    if IsSpace(s[|s| - 1]) {
      var init := s[..|s| - 1];
      assert init[k] == s[k];
      TrailingStopsAt(init, k);
    }
  }

  lemma AllSpaceAppend(a: string, b: string)
    requires AllSpace(a) && AllSpace(b)
    ensures AllSpace(a + b)
  {
    forall k | 0 <= k < |a + b| ensures IsSpace((a + b)[k]) {
      if k < |a| { assert (a + b)[k] == a[k]; } else { assert (a + b)[k] == b[k - |a|]; }
    }
  }

  /** Extra whitespace around a string never changes what `strip()` returns. */
  lemma StripPadding(w1: string, s: string, w2: string)
    requires AllSpace(w1) && AllSpace(w2)
    ensures Strip(w1 + s + w2) == Strip(s)
  {
    if LeadingSpace(s) < |s| {
      StripAtText(s);
      StripHasNoEdgeSpace(s);
      LeadingSpaceMaximal(s);
      TrailingSpaceMaximal(s);
      StripPaddingAt(w1, s, w2, LeadingSpace(s), |s| - TrailingSpace(s));
    } else {
      StripAtSpace(s);
      AllSpaceAppend(w1, s);
      StripAllSpace(w1 + s, w2);
    }
  }

  lemma StripPaddingAt(w1: string, s: string, w2: string, i: nat, j: nat)
    requires AllSpace(w1) && AllSpace(w2)
    requires i <= j <= |s| && NoEdgeSpace(s[i..j]) && AllSpace(s[..i]) && AllSpace(s[j..])
    ensures Strip(w1 + s + w2) == s[i..j]
  {
    var a, r, b := s[..i], s[i..j], s[j..];
    AllSpaceAppend(w1, a);
    AllSpaceAppend(b, w2);
    assert s == a + r + b;
    assert w1 + s + w2 == (w1 + a) + r + (b + w2);
    StripCharacterised(w1 + a, r, b + w2);
  }

  /** Stripping a string without edge whitespace changes nothing. */
  lemma StripNoEdge(s: string)
    requires NoEdgeSpace(s)
    ensures Strip(s) == s
  {
    if s != [] {
      assert LeadingSpace(s) == 0;
      assert TrailingSpace(s) == 0;
    }
  }

  /** `strip()` is idempotent. */
  lemma StripIdempotent(s: string)
    ensures Strip(Strip(s)) == Strip(s)
  {
    StripHasNoEdgeSpace(s);
    StripNoEdge(Strip(s));
  }

  /** Python's `s.startswith(p)`. */
  predicate StartsWith(s: string, p: string) {
    |p| <= |s| && s[..|p|] == p
  }

  /** The number of occurrences of `c` in `s`. */
  function Count(s: string, c: char): (n: nat)
    ensures n <= |s|
    ensures n == 0 <==> c !in s
  {
    if s == [] then 0 else (if s[0] == c then 1 else 0) + Count(s[1..], c)
  }

  /** Python's `s.replace(c, '')` for a one-character `c`. */
  function RemoveChar(s: string, c: char): (r: string)
    ensures c !in r
    ensures c !in s ==> r == s
  {
    if s == [] then []
    else (if s[0] == c then [] else [s[0]]) + RemoveChar(s[1..], c)
  }

  /** Removing `c` keeps every other character and only those. */
  lemma {:induction false} RemoveCharKeeps(s: string, c: char, x: char)
    ensures x in RemoveChar(s, c) <==> x in s && x != c
  {
    if s != [] {
      RemoveCharKeeps(s[1..], c, x);
      assert s == [s[0]] + s[1..];
    }
  }

  /** Removing a character distributes over concatenation. */
  lemma {:induction false} RemoveCharAppend(a: string, b: string, c: char)
    ensures RemoveChar(a + b, c) == RemoveChar(a, c) + RemoveChar(b, c)
  {
    if a == [] {
      assert a + b == b;
    } else {
      var head: string := if a[0] == c then [] else [a[0]];
      assert (a + b)[0] == a[0];
      assert (a + b)[1..] == a[1..] + b;
      RemoveCharAppend(a[1..], b, c);
      assert RemoveChar(a + b, c) == head + RemoveChar(a[1..] + b, c);
      AppendAssoc(head, RemoveChar(a[1..], c), RemoveChar(b, c));
    }
  }

  /** Python's `s.split(d)` for a one-character separator `d`. */
  function Split(s: string, d: char): (parts: seq<string>)
    ensures |parts| == Count(s, d) + 1
  {
    if s == [] then [""]
    else
      var rest := Split(s[1..], d);
      if s[0] == d then [""] + rest else [[s[0]] + rest[0]] + rest[1..]
  }

  /** Python's `sep.join(parts)`. */
  function Join(parts: seq<string>, sep: string): string {
    if parts == [] then ""
    else if |parts| == 1 then parts[0]
    else parts[0] + sep + Join(parts[1..], sep)
  }

  /** Splitting on `d` and joining the pieces back with `d` gives the original string. */
  lemma {:induction false} SplitJoin(s: string, d: char)
    ensures Join(Split(s, d), [d]) == s
  {
    if s != [] {
      SplitJoin(s[1..], d);
      if s[0] == d {
        SplitJoinAtSeparator(s, d);
      } else {
        SplitJoinAtOther(s, d);
      }
    }
  }

  lemma SplitJoinAtSeparator(s: string, d: char)
    requires s != [] && s[0] == d
    requires Join(Split(s[1..], d), [d]) == s[1..]
    ensures Join(Split(s, d), [d]) == s
  {
    var rest := Split(s[1..], d);
    assert Split(s, d) == [""] + rest;
    JoinEmptyFirst(rest, [d]);
    assert [d] + s[1..] == s;
  }

  lemma SplitJoinAtOther(s: string, d: char)
    requires s != [] && s[0] != d
    requires Join(Split(s[1..], d), [d]) == s[1..]
    ensures Join(Split(s, d), [d]) == s
  {
    var rest := Split(s[1..], d);
    assert Split(s, d) == [[s[0]] + rest[0]] + rest[1..];
    JoinExtendFirst(s[0], rest, [d]);
    assert [s[0]] + s[1..] == s;
  }

  /** An empty first part contributes only the separator. */
  lemma JoinEmptyFirst(parts: seq<string>, sep: string)
    requires parts != []
    ensures Join([""] + parts, sep) == sep + Join(parts, sep)
  {
    var all := [""] + parts;
    assert all[0] == "" && all[1..] == parts;
    assert "" + sep == sep;
  }

  /** A character put in front of the first part comes out in front of the whole. */
  lemma JoinExtendFirst(c: char, parts: seq<string>, sep: string)
    requires parts != []
    ensures Join([[c] + parts[0]] + parts[1..], sep) == [c] + Join(parts, sep)
  {
    var all := [[c] + parts[0]] + parts[1..];
    assert all[0] == [c] + parts[0] && all[1..] == parts[1..];
    if |parts| > 1 {
      var tail := Join(parts[1..], sep);
      AppendAssoc([c] + parts[0], sep, tail);
      AppendAssoc([c], parts[0], sep + tail);
      AppendAssoc(parts[0], sep, tail);
    }
  }

  /** A string without `d` splits into itself alone. */
  lemma {:induction false} SplitNone(s: string, d: char)
    requires d !in s
    ensures Split(s, d) == [s]
  {
    if s != [] {
      SplitNone(s[1..], d);
      assert [s[0]] + s[1..] == s;
    }
  }

  /** `(a + d + b).split(d)` gives `[a, b]` when neither part holds `d`. */
  lemma {:induction false} SplitAtOnly(a: string, b: string, d: char)
    requires d !in a && d !in b
    ensures Split(a + [d] + b, d) == [a, b]
  {
    if a == [] {
      SplitAtFront(b, d);
    } else {
      assert a[0] in a;
      SplitAtOnly(a[1..], b, d);
      SplitAtOnlyStep(a, b, d);
    }
  }

  lemma SplitAtFront(b: string, d: char)
    requires d !in b
    ensures Split([] + [d] + b, d) == ["", b]
  {
    assert [] + [d] + b == [d] + b;
    assert ([d] + b)[1..] == b;
    SplitNone(b, d);
  }

  lemma SplitAtOnlyStep(a: string, b: string, d: char)
    requires a != [] && a[0] != d
    requires Split(a[1..] + [d] + b, d) == [a[1..], b]
    ensures Split(a + [d] + b, d) == [a, b]
  {
    var s := a + [d] + b;
    assert s[0] == a[0];
    assert s[1..] == a[1..] + [d] + b;
    var rest := Split(s[1..], d);
    assert rest[0] == a[1..] && rest[1..] == [b];
    assert [a[0]] + a[1..] == a;
  }
}
