/**
 * What the three spreadsheet filters share: the company number pattern
 * `\((\d{8})\)`, the director age filter, the per-row "Filtered Directors"
 * column, and the final `notna` row filter.
 */
module Sheets {
  import opened Wrappers
  import opened Decimal
  import opened Text

  /** A spreadsheet cell as pandas reads it: empty (NaN), text, or a number. */
  datatype Cell = Blank | TextCell(text: string) | NumberCell(number: real)

  /** `s.startswith(prefixes)` for a tuple of prefixes. */
  predicate StartsWithAny(s: string, prefixes: seq<string>) {
    exists k :: 0 <= k < |prefixes| && StartsWith(s, prefixes[k])
  }

  /** `\((\d{8})\)` matches at index `i`: a '(' then eight digits then ')'. */
  predicate MatchAt(s: string, i: nat) {
    i + 10 <= |s| && s[i] == '(' && AllDigits(s[i + 1..i + 9]) && s[i + 9] == ')'
  }

  /** No match starts at any index of `s` from `i` on. */
  predicate NoMatchFrom(s: string, i: nat) {
    forall j :: i <= j < |s| ==> !MatchAt(s, j)
  }

  /** The leftmost match at or after `i`, as `re.search` scans. */
  function FindFrom(s: string, i: nat): (r: Option<nat>)
    ensures r.Some? ==> MatchAt(s, r.value)
    decreases |s| - i
  {
    if i + 10 > |s| then None
    else if MatchAt(s, i) then Some(i)
    else FindFrom(s, i + 1)
  }

  lemma {:induction false} FindFromSound(s: string, i: nat)
    ensures FindFrom(s, i).None? <==> NoMatchFrom(s, i)
    ensures FindFrom(s, i).Some? ==>
      var p := FindFrom(s, i).value; i <= p && MatchAt(s, p) && forall j :: i <= j < p ==> !MatchAt(s, j)
    decreases |s| - i
  {
    if i + 10 <= |s| && !MatchAt(s, i) {
      FindFromSound(s, i + 1);
    }
  }

  /** `extract_company_number`: the eight digits of the leftmost `(dddddddd)`, else None. */
  function ExtractCompanyNumber(name: string): (number: Option<string>)
    ensures number.Some? ==> |number.value| == 8 && AllDigits(number.value)
  {
    match FindFrom(name, 0)
    case None => None
    case Some(i) => Some(name[i + 1..i + 9])
  }

  /**
   * The result is None exactly when no '(' + eight digits + ')' occurs, and
   * otherwise the digits of the leftmost occurrence.
   */
  lemma ExtractLeftmost(name: string)
    ensures ExtractCompanyNumber(name).None? <==> NoMatchFrom(name, 0)
    ensures ExtractCompanyNumber(name).Some? ==> exists i ::
      MatchAt(name, i) && NoMatchBefore(name, i) && ExtractCompanyNumber(name).value == name[i + 1..i + 9]
  {
    FindFromSound(name, 0);
  }

  /** No match starts before index `i`. */
  predicate NoMatchBefore(s: string, i: nat) {
    forall j :: 0 <= j < i ==> !MatchAt(s, j)
  }

  /** A name that ends in " (" + number + ")" and has no earlier match yields that number. */
  lemma ExtractFromSuffix(name: string, number: string)
    requires |number| == 8 && AllDigits(number) && NoMatchFrom(name, 0)
    ensures ExtractCompanyNumber(name + " (" + number + ")") == Some(number)
  {
    var s := name + " (" + number + ")";
    var i := |name| + 1;
    assert s[i + 1..i + 9] == number;
    assert MatchAt(s, i);
    forall j | 0 <= j < i
      ensures !MatchAt(s, j)
    {
      if j == |name| {
        assert s[j] == ' ';
      } else if MatchAt(s, j) {
        NoMatchInPrefix(name, s, j);
      }
    }
    FindFromSound(s, 0);
    var p := FindFrom(s, 0).value;
    assert p == i;
  }

  /** A match at `j < |name|` in `name + " (" + ...` lies wholly inside `name`. */
  lemma NoMatchInPrefix(name: string, s: string, j: nat)
    requires j < |name| && |name| + 2 <= |s| && s[..|name|] == name && s[|name|] == ' '
    requires MatchAt(s, j)
    ensures MatchAt(name, j)
  {
    if j + 9 < |name| {
      assert s[j + 1..j + 9] == name[j + 1..j + 9];
    }
  }

  /** The `age` of a director record: missing, a number, or a value that cannot be compared with 50. */
  datatype Age = NoAge | AgeNumber(years: int) | AgeOther

  /** A director record of the company response; the other keys are carried as `record`. */
  datatype Director = Director(record: string, age: Age)

  const MinAge: int := 50

  /** `director.get('age', 0) >= 50`, with a missing age read as 0. */
  predicate OldEnough(d: Director) {
    d.age.AgeNumber? && d.age.years >= MinAge
  }

  predicate Comparable(d: Director) {
    !d.age.AgeOther?
  }

  /**
   * `[director for director in directors if director.get('age', 0) >= 50]`:
   * the comprehension raises TypeError on an age it cannot compare.
   */
  function DirectorsOver50(ds: seq<Director>): Result<seq<Director>> {
    if ds == [] then Success([])
    else
      var init := DirectorsOver50(ds[..|ds| - 1]);
      var last := ds[|ds| - 1];
      if init.Failure? then init
      else if !Comparable(last) then Failure("TypeError")
      else if OldEnough(last) then Success(init.value + [last])
      else init
  }

  /** The filter fails exactly on an incomparable age, and otherwise keeps exactly the directors aged 50 or over. */
  lemma {:induction false} DirectorsOver50Spec(ds: seq<Director>)
    ensures DirectorsOver50(ds).Success? <==> forall k :: 0 <= k < |ds| ==> Comparable(ds[k])
    ensures DirectorsOver50(ds).Success? ==>
      forall d :: d in DirectorsOver50(ds).value <==> d in ds && OldEnough(d)
  {
    if ds != [] {
      var init := ds[..|ds| - 1];
      DirectorsOver50Spec(init);
      assert ds == init + [ds[|ds| - 1]];
    }
  }

  /** The filter keeps the input order: filtering a concatenation concatenates the results. */
  lemma {:induction false} DirectorsOver50Append(a: seq<Director>, b: seq<Director>)
    requires DirectorsOver50(a).Success? && DirectorsOver50(b).Success?
    ensures DirectorsOver50(a + b) == Success(DirectorsOver50(a).value + DirectorsOver50(b).value)
  {
    if b == [] {
      assert a + b == a;
      assert DirectorsOver50(a).value + [] == DirectorsOver50(a).value;
    } else {
      var init := b[..|b| - 1];
      assert (a + b)[..|a + b| - 1] == a + init;
      var last := b[|b| - 1];
      assert (a + b)[|a + b| - 1] == last;
      DirectorsOver50Append(a, init);
      var fa, fi := DirectorsOver50(a).value, DirectorsOver50(init).value;
      assert fa + (fi + [last]) == (fa + fi) + [last];
    }
  }

  /** Filtering an already filtered list changes nothing. */
  lemma {:induction false} DirectorsOver50Idempotent(ds: seq<Director>)
    requires DirectorsOver50(ds).Success?
    ensures DirectorsOver50(DirectorsOver50(ds).value) == DirectorsOver50(ds)
  {
    if ds != [] {
      var init := ds[..|ds| - 1];
      var last := ds[|ds| - 1];
      DirectorsOver50Idempotent(init);
      if OldEnough(last) {
        var kept := DirectorsOver50(init).value;
        assert (kept + [last])[..|kept|] == kept;
      }
    }
  }

  /** The value written to the row's 'Filtered Directors' column. */
  datatype DirectorsNote = Listed(directors: seq<Director>) | ErrorRetrieving | NoCompanyNumber

  /**
   * The `try` block for one row: `fetch(number)` is `get_directors`, None when
   * the request raises; a failing filter is caught by the same `except`.
   */
  function NoteFor(name: string, fetch: string -> Option<seq<Director>>): DirectorsNote {
    match ExtractCompanyNumber(name)
    case None => NoCompanyNumber
    case Some(number) =>
      match fetch(number)
      case None => ErrorRetrieving
      case Some(ds) =>
        var kept := DirectorsOver50(ds);
        if kept.Success? then Listed(kept.value) else ErrorRetrieving
  }

  /** A listed note holds exactly the fetched directors of age 50 or over, and is listed only when a number was found. */
  lemma NoteForSpec(name: string, fetch: string -> Option<seq<Director>>)
    ensures NoteFor(name, fetch).Listed? ==>
      ExtractCompanyNumber(name).Some? && fetch(ExtractCompanyNumber(name).value).Some?
      && forall d :: d in NoteFor(name, fetch).directors <==> d in fetch(ExtractCompanyNumber(name).value).value && OldEnough(d)
    ensures NoteFor(name, fetch) == NoCompanyNumber <==> NoMatchFrom(name, 0)
  {
    ExtractLeftmost(name);
    var number := ExtractCompanyNumber(name);
    if number.Some? && fetch(number.value).Some? {
      DirectorsOver50Spec(fetch(number.value).value);
    }
  }

  /** Every company name is text; `re.search` raises TypeError on NaN or a number. */
  predicate AllText(names: seq<Cell>) {
    forall k :: 0 <= k < |names| ==> names[k].TextCell?
  }

  /** The row at which the loop raises: the first name that is not text, or `|names|` when none. */
  function FirstNonText(names: seq<Cell>): (p: nat)
    ensures p <= |names|
    ensures forall k :: 0 <= k < p ==> names[k].TextCell?
    ensures p < |names| ==> !names[p].TextCell?
  {
    if names == [] || !names[0].TextCell? then 0
    else 1 + FirstNonText(names[1..])
  }

  /** The loop runs to the end exactly when every name is text. */
  lemma FirstNonTextAll(names: seq<Cell>)
    ensures FirstNonText(names) == |names| <==> AllText(names)
  {
  }

  /** The texts of an all-text name column. */
  function Texts(names: seq<Cell>): (texts: seq<string>)
    requires AllText(names)
    ensures |texts| == |names| && forall k :: 0 <= k < |names| ==> names[k] == TextCell(texts[k])
  {
    seq(|names|, k requires 0 <= k < |names| && names[k].TextCell? => names[k].text)
  }

  /**
   * The `for index, row in df.iterrows()` loop: writes each row's note into
   * the 'Filtered Directors' column, in place. `extract_company_number` runs
   * outside the `try`, so the first name that is not text raises, and the
   * rows from there on are left as they were.
   */
  method FillDirectors(names: seq<Cell>, fetch: string -> Option<seq<Director>>, column: array<DirectorsNote>)
    returns (raised: bool)
    requires column.Length == |names|
    modifies column
    ensures raised <==> !AllText(names)
    ensures forall k :: 0 <= k < FirstNonText(names) ==> column[k] == NoteFor(names[k].text, fetch)
    ensures forall k :: FirstNonText(names) <= k < |names| ==> column[k] == old(column[k])
  {
    var index := 0;
    while index < |names|
      invariant index <= FirstNonText(names)
      invariant forall k :: 0 <= k < index ==> column[k] == NoteFor(names[k].text, fetch)
      invariant forall k :: index <= k < |names| ==> column[k] == old(column[k])
    {
      if !names[index].TextCell? {
        return true;
      }
      var number := ExtractCompanyNumber(names[index].text);
      if number.Some? {
        var directors := fetch(number.value);
        if directors.Some? {
          var kept := DirectorsOver50(directors.value);
          if kept.Success? {
            column[index] := Listed(kept.value);
          } else {
            column[index] := ErrorRetrieving;
          }
        } else {
          column[index] := ErrorRetrieving;
        }
      } else {
        column[index] := NoCompanyNumber;
      }
      index := index + 1;
    }
    FirstNonTextAll(names);
    return false;
  }

  /** `column.apply(convert)` for a converter that may raise: the first exception stops the script. */
  function ApplyColumn<B>(cells: seq<Cell>, convert: Cell -> Result<Option<B>>): Result<seq<Option<B>>> {
    if cells == [] then Success([])
    else
      var init := ApplyColumn(cells[..|cells| - 1], convert);
      var last := convert(cells[|cells| - 1]);
      if init.Failure? then init
      else if last.Failure? then Failure(last.exception)
      else Success(init.value + [last.value])
  }

  /** The column converts exactly when every cell does, and then cell by cell. */
  lemma {:induction false} ApplyColumnSpec<B>(cells: seq<Cell>, convert: Cell -> Result<Option<B>>)
    ensures ApplyColumn(cells, convert).Success? <==> forall k :: 0 <= k < |cells| ==> convert(cells[k]).Success?
    ensures ApplyColumn(cells, convert).Success? ==>
      |ApplyColumn(cells, convert).value| == |cells|
      && forall k :: 0 <= k < |cells| ==> ApplyColumn(cells, convert).value[k] == convert(cells[k]).value
  {
    if cells != [] {
      var init := cells[..|cells| - 1];
      ApplyColumnSpec(init, convert);
      assert forall k :: 0 <= k < |init| ==> init[k] == cells[k];
    }
  }

  /** One row of a sheet after conversion: its company name, its converted band and its directors note. */
  datatype SheetRow<B> = SheetRow(name: string, band: Option<B>, directors: DirectorsNote)

  /** `df[df[band].notna()]`: the rows whose converted band is present, in order. */
  function KeepNotNa<B>(rows: seq<SheetRow<B>>): (kept: seq<SheetRow<B>>)
    ensures |kept| <= |rows|
  {
    if rows == [] then []
    else
      var init := KeepNotNa(rows[..|rows| - 1]);
      if rows[|rows| - 1].band.Some? then init + [rows[|rows| - 1]] else init
  }

  /** The kept rows are exactly the input rows with a band. */
  lemma {:induction false} KeepNotNaMembers<B>(rows: seq<SheetRow<B>>)
    ensures forall r :: r in KeepNotNa(rows) <==> r in rows && r.band.Some?
  {
    if rows != [] {
      KeepNotNaMembers(rows[..|rows| - 1]);
      assert rows == rows[..|rows| - 1] + [rows[|rows| - 1]];
    }
  }

  /** The filter keeps the row order: it distributes over concatenation. */
  lemma {:induction false} KeepNotNaAppend<B>(a: seq<SheetRow<B>>, b: seq<SheetRow<B>>)
    ensures KeepNotNa(a + b) == KeepNotNa(a) + KeepNotNa(b)
  {
    if b == [] {
      assert a + b == a;
    } else {
      var init := b[..|b| - 1];
      assert (a + b)[..|a + b| - 1] == a + init;
      KeepNotNaAppend(a, init);
    }
  }

  /** The rows of a sheet: names, converted bands and the filled directors column side by side. */
  function Rows<B>(names: seq<string>, bands: seq<Option<B>>, fetch: string -> Option<seq<Director>>): seq<SheetRow<B>>
    requires |names| == |bands|
  {
    seq(|names|, k requires 0 <= k < |names| => SheetRow(names[k], bands[k], NoteFor(names[k], fetch)))
  }

  /** A kept row is an input row whose band converted, annotated with its own note. */
  lemma KeptRowsAnnotated<B>(names: seq<string>, bands: seq<Option<B>>, fetch: string -> Option<seq<Director>>, r: SheetRow<B>)
    requires |names| == |bands|
    requires r in KeepNotNa(Rows(names, bands, fetch))
    ensures exists k :: 0 <= k < |names| && r == SheetRow(names[k], bands[k], NoteFor(names[k], fetch)) && bands[k].Some?
  {
    KeepNotNaMembers(Rows(names, bands, fetch));
  }

  /**
   * What the row loop and the `notna` filter give: the kept, annotated rows,
   * or the TypeError a name that is not text raises before the CSV is written.
   */
  function Annotate<B>(names: seq<Cell>, bands: seq<Option<B>>, fetch: string -> Option<seq<Director>>): Result<seq<SheetRow<B>>>
    requires |names| == |bands|
  {
    if AllText(names) then Success(KeepNotNa(Rows(Texts(names), bands, fetch)))
    else Failure("TypeError")
  }

  /** The rows are annotated exactly when every name is text; otherwise the script stops with TypeError. */
  lemma AnnotateSpec<B>(names: seq<Cell>, bands: seq<Option<B>>, fetch: string -> Option<seq<Director>>)
    requires |names| == |bands|
    ensures Annotate(names, bands, fetch).Failure? <==> exists k :: 0 <= k < |names| && !names[k].TextCell?
    ensures Annotate(names, bands, fetch).Failure? ==> Annotate(names, bands, fetch).exception == "TypeError"
  {
  }

  /** A kept row is the row of a text name whose band converted, annotated with its own note. */
  lemma AnnotatedRows<B>(names: seq<Cell>, bands: seq<Option<B>>, fetch: string -> Option<seq<Director>>, r: SheetRow<B>)
    requires |names| == |bands| && Annotate(names, bands, fetch).Success?
    requires r in Annotate(names, bands, fetch).value
    ensures exists k :: 0 <= k < |names| && names[k] == TextCell(r.name) && r.band == bands[k] && bands[k].Some?
                        && r.directors == NoteFor(r.name, fetch)
  {
    var texts := Texts(names);
    KeptRowsAnnotated(texts, bands, fetch, r);
    var k :| 0 <= k < |texts| && r == SheetRow(texts[k], bands[k], NoteFor(texts[k], fetch)) && bands[k].Some?;
    assert names[k] == TextCell(r.name);
  }

  /**
   * Fill the directors column, then keep the rows with a band: what each
   * sheet script writes to its CSV file, or the exception that stops it.
   */
  method Assemble<B>(names: seq<Cell>, bands: seq<Option<B>>, fetch: string -> Option<seq<Director>>) returns (out: Result<seq<SheetRow<B>>>)
    requires |names| == |bands|
    ensures out == Annotate(names, bands, fetch)
  {
    var column := new DirectorsNote[|names|](_ => NoCompanyNumber);
    var raised := FillDirectors(names, fetch, column);
    if raised {
      return Failure("TypeError");
    }
    FirstNonTextAll(names);
    var texts := Texts(names);
    var rows := seq(|names|, k requires 0 <= k < |names| reads column => SheetRow(texts[k], bands[k], column[k]));
    assert rows == Rows(texts, bands, fetch);
    out := Success(KeepNotNa(rows));
  }
}
