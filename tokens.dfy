/**
 * The values the tokenizer produces: token kinds, ranges and their `Display`, tokens, and the
 * tokenizer's own error record with its caret rendering (`Error::format`).
 */
module Tokens {
  import opened Wrappers
  import opened Decimal
  import opened Text
  import opened Cursor

  /** `Float` keeps the digit and dot text of the literal; `Int` the value of its digits. */
  datatype TokenType =
    | Str(text: string)
    | Float(digits: string)
    | Int(value: nat)
    | Kw(name: string)
    | Bool(b: bool)
    | Var(name: string)
    | Op(op: string)
    | Punc(c: char)

  datatype Range = Range(start: LoC, end: LoC)

  datatype Token = Token(range: Range, val: TokenType)

  datatype Error = Error(range: Range, msg: string)

  /** The `Display` of a range, `(l:c - l:c)`. */
  function RangeString(r: Range): string {
    "(" + PairString(r.start.line, r.start.col) + " - " + PairString(r.end.line, r.end.col) + ")"
  }

  /** Reads back the four numbers of a range's text. */
  function ParseRange(s: string): Option<(int, int, int, int)> {
    var s1 :- Lit(s, "(");
    var x :- ReadPair(s1);
    var s2 :- Lit(x.2, " - ");
    var y :- ReadPair(s2);
    var s3 :- Lit(y.2, ")");
    if s3 == [] then Some((x.0, x.1, y.0, y.1)) else None
  }

  /** `ParseRange` succeeds once its parenthesis and its two pairs have been read. */
  lemma ParseRangeSteps(s: string, t1: string, t2: string, a: int, b: int, c: int, d: int)
    requires Lit(s, "(") == Some(t1)
    requires ReadPair(t1) == Some((a, b, " - " + t2))
    requires ReadPair(t2) == Some((c, d, ")"))
    ensures ParseRange(s) == Some((a, b, c, d))
  {
    assert Lit(" - " + t2, " - ") == Some(t2);
    assert Lit(")", ")") == Some([]);
  }

  /** The text of a range determines its four numbers. */
  lemma ParseRangeString(r: Range)
    ensures ParseRange(RangeString(r)) == Some((r.start.line, r.start.col, r.end.line, r.end.col))
  {
    var t2 := PairString(r.end.line, r.end.col) + ")";
    var t1 := PairString(r.start.line, r.start.col) + (" - " + t2);
    assert RangeString(r) == "(" + t1;
    assert Lit(RangeString(r), "(") == Some(t1);
    ReadPairString(r.start.line, r.start.col, " - " + t2);
    ReadPairString(r.end.line, r.end.col, ")");
    ParseRangeSteps(RangeString(r), t1, t2, r.start.line, r.start.col, r.end.line, r.end.col);
  }

  /** The decimal text of an integer holds no newline. */
  lemma IntToStringNoNewline(i: int)
    ensures '\n' !in IntToString(i)
  {
    var digits := NatToString(if i < 0 then -i else i);
    assert IntToString(i) == if i < 0 then "-" + digits else digits;
    assert '\n' !in digits by {
      assert forall k :: 0 <= k < |digits| ==> IsDigit(digits[k]);
    }
  }

  /** The text of a range is a single line. */
  lemma RangeStringNoNewline(r: Range)
    ensures '\n' !in RangeString(r)
  {
    IntToStringNoNewline(r.start.line);
    IntToStringNoNewline(r.start.col);
    IntToStringNoNewline(r.end.line);
    IntToStringNoNewline(r.end.col);
    assert RangeString(r) == "(" + IntToString(r.start.line) + ":" + IntToString(r.start.col) + " - "
                           + IntToString(r.end.line) + ":" + IntToString(r.end.col) + ")";
  }

  /** A row of `count` cells holding '^' at the indices from `from` on and ' ' before. */
  function CaretCells(from: int, count: int): (r: string)
    ensures |r| == if count < 0 then 0 else count
    ensures forall k :: 0 <= k < |r| ==> r[k] == if k >= from then '^' else ' '
    decreases count
  {
    if count <= 0 then [] else CaretCells(from, count - 1) + [if count - 1 >= from then '^' else ' ']
  }

  /** The text `Error::format` produces: the start line, a blank line, the carets, then message and range. */
  function ErrorText(e: Error, source: string): string
    requires 1 <= e.range.start.line <= |Split(source, '\n')|
  {
    Split(source, '\n')[e.range.start.line - 1] + "\n\n"
    + CaretCells(e.range.start.col, e.range.end.col + 1) + "\n"
    + (e.msg + " " + RangeString(e.range))
  }

  /** The caret loop shared by both formatters: cells `0..=last`, '^' from `from` on, ' ' before. */
  method Carets(from: int, last: int) returns (cells: string)
    ensures cells == CaretCells(from, last + 1)
  {
    cells := "";
    var x := 0;
    while x <= last
      invariant 0 <= x && (x <= last + 1 || x == 0)
      invariant cells == CaretCells(from, x)
    {
      if x >= from {
        cells := cells + "^";
      } else {
        cells := cells + " ";
      }
      x := x + 1;
    }
  }

  method Format(e: Error, source: string) returns (s: string)
    requires 1 <= e.range.start.line <= |Split(source, '\n')|
    ensures s == ErrorText(e, source)
  {
    var col := Carets(e.range.start.col, e.range.end.col);
    var line := Split(source, '\n')[e.range.start.line - 1];
    s := line + "\n\n" + col + "\n" + (e.msg + " " + RangeString(e.range));
  }

  /** Three newline-free rows around an empty one read back, as lines, as those four rows. */
  lemma FourLines(line: string, cells: string, last: string)
    requires '\n' !in line && '\n' !in cells && '\n' !in last
    ensures Split(line + "\n\n" + cells + "\n" + last, '\n') == [line, "", cells, last]
  {
    assert line + "\n\n" + cells + "\n" + last == line + ['\n'] + "" + ['\n'] + cells + ['\n'] + last;
    SplitFour(line, "", cells, last, '\n');
  }

  /**
   * Read as lines, the rendering is exactly: the source line the range starts on, an empty line,
   * the caret row, and the message followed by the range.
   */
  lemma ErrorTextLines(e: Error, source: string)
    requires 1 <= e.range.start.line <= |Split(source, '\n')|
    requires '\n' !in e.msg
    ensures Split(ErrorText(e, source), '\n')
         == [Split(source, '\n')[e.range.start.line - 1], "",
             CaretCells(e.range.start.col, e.range.end.col + 1), e.msg + " " + RangeString(e.range)]
  {
    var line := Split(source, '\n')[e.range.start.line - 1];
    var cells := CaretCells(e.range.start.col, e.range.end.col + 1);
    var last := e.msg + " " + RangeString(e.range);
    ErrorTextPieces(e, source);
    FourLines(line, cells, last);
  }

  /** The pieces of the rendering hold no newline, and the rendering is just those pieces and newlines. */
  lemma ErrorTextPieces(e: Error, source: string)
    requires 1 <= e.range.start.line <= |Split(source, '\n')|
    requires '\n' !in e.msg
    ensures '\n' !in Split(source, '\n')[e.range.start.line - 1]
    ensures '\n' !in CaretCells(e.range.start.col, e.range.end.col + 1)
    ensures '\n' !in e.msg + " " + RangeString(e.range)
    ensures ErrorText(e, source)
         == Split(source, '\n')[e.range.start.line - 1] + "\n\n"
            + CaretCells(e.range.start.col, e.range.end.col + 1) + "\n" + (e.msg + " " + RangeString(e.range))
  {
    var cells := CaretCells(e.range.start.col, e.range.end.col + 1);
    assert forall k :: 0 <= k < |cells| ==> cells[k] != '\n';
    RangeStringNoNewline(e.range);
  }
}
