/**
 * `filtering_3rd_sheet.py`: keeps the rows whose 'Turnover Banding' is one of
 * the bands J to V (one million pounds and over), with the band text stripped.
 */
module ThirdSheet {
  import opened Wrappers
  import opened Text
  import opened Sheets

  /** The band prefixes `startswith` is given, J: to V:. */
  const MillionBands: seq<string> := ["J:", "K:", "L:", "M:", "N:", "O:", "P:", "Q:", "R:", "S:", "T:", "U:", "V:"]

  /** A band of one million or more: a letter from J to V, then ':'. */
  predicate IsMillionBand(s: string) {
    |s| >= 2 && 'J' <= s[0] <= 'V' && s[1] == ':'
  }

  /** The thirteen prefixes are exactly the letters J to V followed by ':'. */
  lemma MillionBandsSpec(s: string)
    ensures StartsWithAny(s, MillionBands) <==> IsMillionBand(s)
  {
    if IsMillionBand(s) {
      var k := s[0] as int - 'J' as int;
      assert MillionBands[k] == [s[0], ':'];
      assert s[..2] == [s[0], s[1]];
    }
    if StartsWithAny(s, MillionBands) {
      var k :| 0 <= k < |MillionBands| && StartsWith(s, MillionBands[k]);
      assert s[..2] == MillionBands[k];
      assert s[0] == MillionBands[k][0] && s[1] == MillionBands[k][1];
    }
  }

  /**
   * `convert_turnover`: NaN gives None; otherwise `str(x).strip()` is kept when
   * it starts with one of the band prefixes. A number never does, since
   * `str` of a float has no letter followed by ':'.
   */
  function ConvertTurnover(cell: Cell): Option<string> {
    match cell
    case Blank => None
    case NumberCell(_) => None
    case TextCell(t) =>
      var s := Strip(t);
      if StartsWithAny(s, MillionBands) then Some(s) else None
  }

  /** A text cell is kept exactly when its stripped text is a J-to-V band, and it is kept stripped. */
  lemma ConvertTurnoverSpec(t: string)
    ensures ConvertTurnover(TextCell(t)).Some? <==> IsMillionBand(Strip(t))
    ensures ConvertTurnover(TextCell(t)).Some? ==>
      ConvertTurnover(TextCell(t)).value == Strip(t) && NoEdgeSpace(Strip(t))
  {
    MillionBandsSpec(Strip(t));
    StripHasNoEdgeSpace(t);
  }

  /** Converting a converted band again gives it back unchanged. */
  lemma ConvertTurnoverIdempotent(cell: Cell)
    requires ConvertTurnover(cell).Some?
    ensures ConvertTurnover(TextCell(ConvertTurnover(cell).value)) == ConvertTurnover(cell)
  {
    var t := cell.text;
    StripIdempotent(t);
  }

  /** Whitespace around the band text does not change the result. */
  lemma ConvertIgnoresPadding(w1: string, t: string, w2: string)
    requires AllSpace(w1) && AllSpace(w2)
    ensures ConvertTurnover(TextCell(w1 + t + w2)) == ConvertTurnover(TextCell(t))
  {
    StripPadding(w1, t, w2);
  }

  /** `df['Turnover Banding'].apply(convert_turnover)`. */
  function ConvertColumn(cells: seq<Cell>): seq<Option<string>> {
    seq(|cells|, k requires 0 <= k < |cells| => ConvertTurnover(cells[k]))
  }

  /** The CSV rows: every input row in order whose band converted, with its directors note; or the TypeError a name that is not text raises. */
  function Output(names: seq<Cell>, cells: seq<Cell>, fetch: string -> Option<seq<Director>>): Result<seq<SheetRow<string>>>
    requires |names| == |cells|
  {
    Annotate(names, ConvertColumn(cells), fetch)
  }

  /** The script stops, with TypeError, exactly when some company name is not text: the band column never raises. */
  lemma OutputFails(names: seq<Cell>, cells: seq<Cell>, fetch: string -> Option<seq<Director>>)
    requires |names| == |cells|
    ensures Output(names, cells, fetch).Failure? <==> exists k :: 0 <= k < |names| && !names[k].TextCell?
    ensures Output(names, cells, fetch).Failure? ==> Output(names, cells, fetch).exception == "TypeError"
  {
    AnnotateSpec(names, ConvertColumn(cells), fetch);
  }

  /** Every row written has a stripped J-to-V band taken from its own input row. */
  lemma OutputBands(names: seq<Cell>, cells: seq<Cell>, fetch: string -> Option<seq<Director>>, r: SheetRow<string>)
    requires |names| == |cells| && Output(names, cells, fetch).Success? && r in Output(names, cells, fetch).value
    ensures r.band.Some? && IsMillionBand(r.band.value)
    ensures exists k :: (0 <= k < |names| && names[k] == TextCell(r.name) && r.band == ConvertTurnover(cells[k])
                         && r.directors == NoteFor(r.name, fetch))
  {
    AnnotatedRows(names, ConvertColumn(cells), fetch, r);
    var k :| 0 <= k < |names| && names[k] == TextCell(r.name) && r.band == ConvertColumn(cells)[k]
      && ConvertColumn(cells)[k].Some? && r.directors == NoteFor(r.name, fetch);
    ConvertTurnoverSpec(cells[k].text);
  }

  /** The script from the converted column to the CSV rows, or to the exception that stops it. */
  method Run(names: seq<Cell>, cells: seq<Cell>, fetch: string -> Option<seq<Director>>) returns (out: Result<seq<SheetRow<string>>>)
    requires |names| == |cells|
    ensures out == Output(names, cells, fetch)
  {
    var bands := ConvertColumn(cells);
    out := Assemble(names, bands, fetch);
  }
}
