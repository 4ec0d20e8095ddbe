/**
 * `file.py`: every line of a list of company names becomes a quoted,
 * comma-terminated line, ready to paste into a Python list.
 */
module LineQuoting {
  import opened Wrappers
  import opened Text

  const Quote: char := '"'

  /** The text after the name: closing quote, comma, newline. */
  const Closing: string := "\",\n"

  /** `f'"{line.strip()}",\n'`. */
  function QuoteLine(line: string): (quoted: string)
    ensures |quoted| == |Strip(line)| + 4
  {
    [Quote] + Strip(line) + Closing
  }

  /** Reads a quoted line back: the text between the opening quote and the closing `",\n`. */
  function Unquote(quoted: string): Option<string> {
    if |quoted| >= 4 && quoted[0] == Quote && quoted[|quoted| - 3..] == Closing
    then Some(quoted[1..|quoted| - 3])
    else None
  }

  /** Unquoting a quoted line gives the stripped line back, which has no surrounding whitespace. */
  lemma UnquoteQuoteLine(line: string)
    ensures Unquote(QuoteLine(line)) == Some(Strip(line))
    ensures NoEdgeSpace(Unquote(QuoteLine(line)).value)
  {
    var q := QuoteLine(line);
    var s := Strip(line);
    assert q[1..|q| - 3] == s;
    assert q[|q| - 3..] == Closing;
    StripHasNoEdgeSpace(line);
  }

  /** A blank line, or one of whitespace only, becomes `"",` and a newline. */
  lemma BlankLineQuoted(line: string)
    requires AllSpace(line)
    ensures QuoteLine(line) == "\"\",\n"
  {
    StripAllSpace(line, []);
    assert line + [] == line;
  }

  /** Whitespace around a name does not reach the output. */
  lemma QuoteLineIgnoresPadding(w1: string, line: string, w2: string)
    requires AllSpace(w1) && AllSpace(w2)
    ensures QuoteLine(w1 + line + w2) == QuoteLine(line)
  {
    StripPadding(w1, line, w2);
  }

  /** Quoting is fixed by the stripped text: quoting the unquoted text gives the same line. */
  lemma QuoteLineStable(line: string)
    ensures QuoteLine(Unquote(QuoteLine(line)).value) == QuoteLine(line)
  {
    UnquoteQuoteLine(line);
    StripIdempotent(line);
  }

  /** `[f'"{line.strip()}",\n' for line in lines]`. */
  function QuoteLines(lines: seq<string>): seq<string> {
    seq(|lines|, k requires 0 <= k < |lines| => QuoteLine(lines[k]))
  }

  /** One output line per input line, in order, and each one reads back as its stripped input. */
  lemma QuoteLinesSpec(lines: seq<string>)
    ensures |QuoteLines(lines)| == |lines|
    ensures forall k :: 0 <= k < |lines| ==> Unquote(QuoteLines(lines)[k]) == Some(Strip(lines[k]))
  {
    forall k | 0 <= k < |lines|
      ensures Unquote(QuoteLines(lines)[k]) == Some(Strip(lines[k]))
    {
      UnquoteQuoteLine(lines[k]);
    }
  }

  /** Quoting distributes over concatenation of the input. */
  lemma QuoteLinesAppend(a: seq<string>, b: seq<string>)
    ensures QuoteLines(a + b) == QuoteLines(a) + QuoteLines(b)
  {
    var lhs, rhs := QuoteLines(a + b), QuoteLines(a) + QuoteLines(b);
    forall k | 0 <= k < |a + b|
      ensures lhs[k] == rhs[k]
    {
      if k < |a| {
        assert (a + b)[k] == a[k];
      } else {
        assert (a + b)[k] == b[k - |a|];
      }
    }
  }
}
