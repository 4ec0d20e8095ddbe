/**
 * `filtering_5th_sheet.py`: keeps the rows whose 'TurnoverBand' is one of the
 * bands F to I (one million pounds and over), with the band text unchanged.
 */
module FifthSheet {
  import opened Wrappers
  import opened Text
  import opened Sheets

  /** The band prefixes `startswith` is given, F: to I:. */
  const MillionBands: seq<string> := ["F:", "G:", "H:", "I:"]

  /** A band of one million or more: a letter from F to I, then ':'. */
  predicate IsMillionBand(s: string) {
    |s| >= 2 && 'F' <= s[0] <= 'I' && s[1] == ':'
  }

  lemma MillionBandsSpec(s: string)
    ensures StartsWithAny(s, MillionBands) <==> IsMillionBand(s)
  {
    if IsMillionBand(s) {
      var k := s[0] as int - 'F' as int;
      assert MillionBands[k] == [s[0], ':'];
      assert s[..2] == [s[0], s[1]];
    }
    if StartsWithAny(s, MillionBands) {
      var k :| 0 <= k < |MillionBands| && StartsWith(s, MillionBands[k]);
      assert s[..2] == MillionBands[k];
      assert s[0] == MillionBands[k][0] && s[1] == MillionBands[k][1];
    }
  }

  /**
   * `convert_turnover`: NaN gives None; a text is kept as it is when it starts
   * with a band prefix (no stripping); a number has no `startswith`, so the
   * call raises AttributeError.
   */
  function ConvertTurnover(cell: Cell): (r: Result<Option<string>>)
    ensures r.Success? <==> !cell.NumberCell?
  {
    match cell
    case Blank => Success(None)
    case NumberCell(_) => Failure("AttributeError")
    case TextCell(t) => if StartsWithAny(t, MillionBands) then Success(Some(t)) else Success(None)
  }

  /** A text cell is kept exactly when it is an F-to-I band as written; leading whitespace makes it fail the test. */
  lemma ConvertTurnoverSpec(t: string)
    ensures ConvertTurnover(TextCell(t)).Success?
    ensures ConvertTurnover(TextCell(t)).value.Some? <==> IsMillionBand(t)
    ensures ConvertTurnover(TextCell(t)).value.Some? ==> ConvertTurnover(TextCell(t)).value.value == t
    ensures |t| > 0 && IsSpace(t[0]) ==> ConvertTurnover(TextCell(t)).value.None?
  {
    MillionBandsSpec(t);
  }

  /** Converting a converted band again gives it back unchanged. */
  lemma ConvertTurnoverIdempotent(cell: Cell)
    requires ConvertTurnover(cell).Success? && ConvertTurnover(cell).value.Some?
    ensures ConvertTurnover(TextCell(ConvertTurnover(cell).value.value)) == ConvertTurnover(cell)
  {
  }

  /** `df['TurnoverBand'].apply(convert_turnover)`. */
  function ConvertColumn(cells: seq<Cell>): Result<seq<Option<string>>> {
    ApplyColumn(cells, ConvertTurnover)
  }

  /** The column converts exactly when no cell holds a number, and then cell by cell. */
  lemma ConvertColumnSpec(cells: seq<Cell>)
    ensures ConvertColumn(cells).Success? <==> forall k :: 0 <= k < |cells| ==> !cells[k].NumberCell?
    ensures ConvertColumn(cells).Success? ==>
      |ConvertColumn(cells).value| == |cells|
      && forall k :: 0 <= k < |cells| ==> ConvertColumn(cells).value[k] == ConvertTurnover(cells[k]).value
  {
    ApplyColumnSpec(cells, ConvertTurnover);
  }

  /** The CSV rows, or the exception that stops the script before it writes any. */
  function Output(names: seq<Cell>, cells: seq<Cell>, fetch: string -> Option<seq<Director>>): Result<seq<SheetRow<string>>>
    requires |names| == |cells|
  {
    var bands := ConvertColumn(cells);
    if bands.Failure? then Failure(bands.exception)
    else
      ConvertColumnSpec(cells);
      Annotate(names, bands.value, fetch)
  }

  /**
   * The script stops exactly when the band column raises or some company
   * name is not text; the column is converted first, and a name raises TypeError.
   */
  lemma OutputFails(names: seq<Cell>, cells: seq<Cell>, fetch: string -> Option<seq<Director>>)
    requires |names| == |cells|
    ensures Output(names, cells, fetch).Failure? <==>
      ConvertColumn(cells).Failure? || exists k :: 0 <= k < |names| && !names[k].TextCell?
    ensures ConvertColumn(cells).Success? && Output(names, cells, fetch).Failure? ==>
      Output(names, cells, fetch).exception == "TypeError"
  {
    ConvertColumnSpec(cells);
    if ConvertColumn(cells).Success? {
      AnnotateSpec(names, ConvertColumn(cells).value, fetch);
    }
  }

  /** Every row written has an F-to-I band taken unchanged from its own input row. */
  lemma OutputBands(names: seq<Cell>, cells: seq<Cell>, fetch: string -> Option<seq<Director>>, r: SheetRow<string>)
    requires |names| == |cells| && Output(names, cells, fetch).Success? && r in Output(names, cells, fetch).value
    ensures r.band.Some? && IsMillionBand(r.band.value)
    ensures exists k :: (0 <= k < |names| && names[k] == TextCell(r.name) && cells[k] == TextCell(r.band.value)
                         && r.directors == NoteFor(r.name, fetch))
  {
    ConvertColumnSpec(cells);
    var bands := ConvertColumn(cells).value;
    AnnotatedRows(names, bands, fetch, r);
    var k :| 0 <= k < |names| && names[k] == TextCell(r.name) && r.band == bands[k] && bands[k].Some?
      && r.directors == NoteFor(r.name, fetch);
    ConvertTurnoverSpec(cells[k].text);
  }

  /** The script from the band column to the CSV rows; a number in the column, or a name that is not text, stops it. */
  method Run(names: seq<Cell>, cells: seq<Cell>, fetch: string -> Option<seq<Director>>) returns (out: Result<seq<SheetRow<string>>>)
    requires |names| == |cells|
    ensures out == Output(names, cells, fetch)
  {
    var bands := ConvertColumn(cells);
    if bands.Failure? {
      return Failure(bands.exception);
    }
    ConvertColumnSpec(cells);
    out := Assemble(names, bands.value, fetch);
  }
}
