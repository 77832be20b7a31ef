/**
 * The compiler's diagnostic records: the kinds of error with their fixed message templates
 * (`Display for ErrorType`), and `Error::format`, which renders an error under the source lines it
 * covers, on one line or across several.
 */
module Diagnostics {
  import opened Wrappers
  import opened Decimal
  import opened Text
  import opened Cursor
  import Tokens
  import Scanning

  /** Rust's `i8`, the type of the count `TooMuchTypes` carries. */
  newtype i8 = x: int | -128 <= x < 128

  datatype ErrorType =
    | EndOfStr
    | DecimalPoint
    | InvalidCharacter(character: char)
    | ExpectedFound(expected: string, found: string)
    | Expected(what: string)
    | ExpectedDelimiter(delimiter: char)
    | ProperProperty
    | ArrowAccess
    | StartOfBlock
    | EndOfBlock
    | Semicolon
    | EmptyCharLiteral
    | ConstantWithoutInit
    | NoGenerics
    | TooMuchTypes(amount: i8)
    | UnexpectedOp(op: string)
    | UnexpectedPunc(punc: char)
    | Unexpected(what: string)
    | EndOfIterator
    | ManyEntryPoints
    | WrongMatchArmExp
    | AlreadyHasModifier(modifier: string)
    | Disallowed(what: string)
    | Custom(msg: string)
    | Confusable(confusedWith: string, expected: string)
    | InvalidDigit
    | PointlessTemplate

  /** `Error<T>` with `T` the error kind above. */
  datatype Error = Error(range: Tokens.Range, eType: ErrorType)

  // ---------------------------------------------------------------- messages

  const TooMuchTypesPrefix := "Too much typings provided, expected only "

  /** The `Display` of an error kind: a fixed text, or a template with the arguments filled in. */
  function Message(e: ErrorType): string {
    match e
    case EndOfStr => "Expected end of string"
    case DecimalPoint => "Numbers cannot contain more than one decimal point"
    case ProperProperty => "Expected a property name"
    case InvalidCharacter(c) => "Invalid character " + [c]
    case UnexpectedOp(op) => "Unexpected operator " + op
    case UnexpectedPunc(punc) => "Unexpected punctuation " + [punc]
    case Semicolon => "Expected semicolon at the end of the expression"
    case EndOfBlock => "Expected end of block"
    case Expected(what) => "Expected " + what
    case ExpectedFound(what, found) => "Expected " + what + ", but found " + found
    case StartOfBlock => "Expected start of block"
    case ArrowAccess => "Arrow access cannot be chained"
    case ExpectedDelimiter(d) => "Expected delimiter " + [d]
    case Custom(msg) => msg
    case Unexpected(what) => "Unexpected " + what
    case TooMuchTypes(amount) => TooMuchTypesPrefix + IntToString(amount as int)
    case EmptyCharLiteral => "Empty char literal"
    case ConstantWithoutInit => "Constant variables must have an initializor"
    case NoGenerics => "Generics are not allowed here"
    case EndOfIterator => "Expected end of iterator"
    case Disallowed(what) => what + " is not allowed here"
    case ManyEntryPoints => "Too many entry points"
    case WrongMatchArmExp => "Incorrect match arm expression. Match arms only accept enum variants or literals."
    case AlreadyHasModifier(m) => "The field is already " + m + ", unnecessary " + m + " modifier"
    case Confusable(confusedWith, expected) => "Found " + confusedWith + ", which is similar to " + expected
    case InvalidDigit => "Invalid digit"
    case PointlessTemplate => "Pointless template literal"
  }

  /** The tokenizer's own error texts are those of the matching error kinds. */
  lemma TokenizerMessages(c: char)
    ensures Scanning.EndOfStrMessage == Message(EndOfStr)
    ensures Scanning.DecimalPointMessage == Message(DecimalPoint)
    ensures Scanning.InvalidCharacterMessage(c) == Message(InvalidCharacter(c))
  {
  }

  /** A message does not determine its kind: `Custom` can produce the message of any error. */
  lemma CustomOverlaps(e: ErrorType)
    requires !e.Custom?
    ensures Custom(Message(e)) != e && Message(Custom(Message(e))) == Message(e)
  {
  }

  /**
   * An illustration that the message does not determine the kind even without `Custom`: the general
   * `Expected` template produces the text of `EndOfStr`.
   */
  lemma ExpectedOverlapsEndOfStr()
    ensures Message(Expected("end of string")) == Message(EndOfStr)
  {
    assert "Expected " + "end of string" == "Expected end of string";
  }

  /** The general `Unexpected` template produces the text of `UnexpectedOp`. */
  lemma UnexpectedOverlapsUnexpectedOp(op: string)
    ensures Message(Unexpected("operator " + op)) == Message(UnexpectedOp(op))
  {
    assert "Unexpected " + ("operator " + op) == "Unexpected operator " + op;
  }

  /** Where a two-argument template's separator occurs inside an argument, the arguments cannot be recovered. */
  lemma TwoArgumentsOverlap(a: string, b: string, c: string)
    ensures var e1 := ExpectedFound(a + ", but found " + b, c);
            var e2 := ExpectedFound(a, b + ", but found " + c);
            e1 != e2 && Message(e1) == Message(e2)
    ensures var e1 := Confusable(a + ", which is similar to " + b, c);
            var e2 := Confusable(a, b + ", which is similar to " + c);
            e1 != e2 && Message(e1) == Message(e2)
  {
    var d1 := ", but found ";
    assert "Expected " + (a + d1 + b) + d1 + c == "Expected " + a + d1 + (b + d1 + c);
    assert |a + d1 + b| > |a|;
    var d2 := ", which is similar to ";
    assert "Found " + (a + d2 + b) + d2 + c == "Found " + a + d2 + (b + d2 + c);
    assert |a + d2 + b| > |a|;
  }

  /** The kinds with a single argument. */
  predicate SingleArgument(e: ErrorType) {
    || e.InvalidCharacter? || e.Expected? || e.ExpectedDelimiter? || e.TooMuchTypes? || e.UnexpectedOp?
    || e.UnexpectedPunc? || e.Unexpected? || e.AlreadyHasModifier? || e.Disallowed? || e.Custom?
  }

  /** Two errors of the same kind. */
  predicate SameKind(e1: ErrorType, e2: ErrorType) {
    || (e1.InvalidCharacter? && e2.InvalidCharacter?) || (e1.Expected? && e2.Expected?)
    || (e1.ExpectedDelimiter? && e2.ExpectedDelimiter?) || (e1.TooMuchTypes? && e2.TooMuchTypes?)
    || (e1.UnexpectedOp? && e2.UnexpectedOp?) || (e1.UnexpectedPunc? && e2.UnexpectedPunc?)
    || (e1.Unexpected? && e2.Unexpected?) || (e1.AlreadyHasModifier? && e2.AlreadyHasModifier?)
    || (e1.Disallowed? && e2.Disallowed?) || (e1.Custom? && e2.Custom?)
  }

  lemma PrefixCancel(p: string, a: string, b: string)
    requires p + a == p + b
    ensures a == b
  {
    assert a == (p + a)[|p|..];
    assert b == (p + b)[|p|..];
  }

  lemma SuffixCancel(a: string, b: string, q: string)
    requires a + q == b + q
    ensures a == b
  {
    assert a == (a + q)[..|a|];
    assert b == (b + q)[..|b|];
  }

  /** The modifier named twice in `AlreadyHasModifier`'s message is determined by it. */
  lemma ModifierRecoverable(m1: string, m2: string)
    requires "The field is already " + m1 + ", unnecessary " + m1 + " modifier"
          == "The field is already " + m2 + ", unnecessary " + m2 + " modifier"
    ensures m1 == m2
  {
    var s1 := "The field is already " + m1 + ", unnecessary " + m1 + " modifier";
    var s2 := "The field is already " + m2 + ", unnecessary " + m2 + " modifier";
    assert |s1| == 21 + 2 * |m1| + 23;
    assert |s2| == 21 + 2 * |m2| + 23;
    assert m1 == s1[21..21 + |m1|];
    assert m2 == s2[21..21 + |m2|];
  }

  /** Within a kind with a single argument, the message gives the argument back. */
  lemma SingleArgumentRecoverable(e1: ErrorType, e2: ErrorType)
    requires SingleArgument(e1) && SameKind(e1, e2) && Message(e1) == Message(e2)
    ensures e1 == e2
  {
    match e1
    case InvalidCharacter(c) =>
      PrefixCancel("Invalid character ", [c], [e2.character]);
    case Expected(w) =>
      PrefixCancel("Expected ", w, e2.what);
    case ExpectedDelimiter(d) =>
      PrefixCancel("Expected delimiter ", [d], [e2.delimiter]);
    case TooMuchTypes(n) =>
      PrefixCancel(TooMuchTypesPrefix, IntToString(n as int), IntToString(e2.amount as int));
      IntToStringInjective(n as int, e2.amount as int);
    case UnexpectedOp(op) =>
      PrefixCancel("Unexpected operator ", op, e2.op);
    case UnexpectedPunc(c) =>
      PrefixCancel("Unexpected punctuation ", [c], [e2.punc]);
    case Unexpected(w) =>
      PrefixCancel("Unexpected ", w, e2.what);
    case AlreadyHasModifier(m) =>
      ModifierRecoverable(m, e2.modifier);
    case Disallowed(w) =>
      SuffixCancel(w, e2.what, " is not allowed here");
    case Custom(msg) =>
  }

  /** The count `TooMuchTypes` carries reads back from its message after the fixed text. */
  lemma TooMuchTypesAmount(n: i8)
    ensures var m := Message(TooMuchTypes(n));
            && TooMuchTypesPrefix <= m
            && ReadInt(m[|TooMuchTypesPrefix|..]) == Some(Read(n as int, []))
  {
    var m := Message(TooMuchTypes(n));
    assert m[|TooMuchTypesPrefix|..] == IntToString(n as int) + [];
    ReadIntString(n as int, []);
  }

  // ---------------------------------------------------------------- rendering

  /** `" ".repeat(n)`. */
  function Spaces(n: nat): (r: string)
    ensures |r| == n && forall k :: 0 <= k < n ==> r[k] == ' '
  {
    seq(n, k => ' ')
  }

  /** The source lines `format` indexes exist. */
  predicate LinesAvailable(r: Tokens.Range, source: seq<string>) {
    if r.start.line == r.end.line then 1 <= r.start.line <= |source|
    else r.start.line <= r.end.line ==> 1 <= r.start.line && r.end.line <= |source|
  }

  /** The last line of a rendering: the message, then the range. */
  function Footer(e: Error): string {
    Message(e.eType) + " " + Tokens.RangeString(e.range)
  }

  /** The single-line source row: the line number, a bar, then the source line. */
  function NumberedLine(e: Error, source: seq<string>): string
    requires 1 <= e.range.start.line <= |source|
  {
    IntToString(e.range.start.line) + " " + "|" + " " + source[e.range.start.line - 1]
  }

  /** The single-line caret row. */
  function SingleCaretRow(e: Error): string {
    Spaces(|IntToString(e.range.start.line)| + 3) + Tokens.CaretCells(e.range.start.col, e.range.end.col + 1)
  }

  /** The single-line rendering: the numbered source line, an empty line, the carets, then message and range. */
  function SingleLineText(e: Error, source: seq<string>): string
    requires 1 <= e.range.start.line <= |source|
  {
    "\n" + NumberedLine(e, source) + "\n\n" + SingleCaretRow(e) + "\n" + Footer(e)
  }

  /** Width of the line-number column of a multi-line rendering: the digits of its last line number. */
  function Width(e: Error): nat {
    |IntToString(e.range.end.line)|
  }

  /** A numbered source row, its number padded to `width`. */
  function SourceRow(width: nat, x: int, text: string): string
    requires |IntToString(x)| <= width
  {
    IntToString(x) + " " + Spaces(width - |IntToString(x)|) + "|" + " " + text
  }

  /** A caret row under a source row: cells for every character of `text` and one more, '^' from `col` on. */
  function CaretRow(width: nat, col: int, text: string): string {
    Spaces(width) + " " + "|" + Tokens.CaretCells(col, |text| + 1)
  }

  /** The lines and the number width a multi-line rendering of rows `start.line..=x` needs. */
  predicate RowsAvailable(e: Error, source: seq<string>, x: int) {
    x < e.range.start.line || (x <= e.range.end.line && 1 <= e.range.start.line && e.range.end.line <= |source|)
  }

  /** What one iteration of the multi-line loop appends for line `x`: its source row, then its caret rows. */
  function Row(e: Error, source: seq<string>, x: int): string
    requires 1 <= e.range.start.line <= x <= e.range.end.line <= |source|
  {
    var text := source[x - 1];
    NatToStringLengthMonotone(x, e.range.end.line);
    (SourceRow(Width(e), x, text) + "\n")
    + (if x == e.range.start.line then CaretRow(Width(e), e.range.start.col, text) + "\n" else "")
    + (if x == e.range.end.line then CaretRow(Width(e), e.range.end.col, text) + "\n" else "")
  }

  /** The rows of the multi-line rendering for lines `start.line` up to `x`. */
  function Rows(e: Error, source: seq<string>, x: int): string
    requires RowsAvailable(e, source, x)
    decreases x - e.range.start.line
  {
    if x < e.range.start.line then "" else Rows(e, source, x - 1) + Row(e, source, x)
  }

  /** The multi-line rendering: a newline, the rows, two newlines, then message and range. */
  function MultiLineText(e: Error, source: seq<string>): string
    requires e.range.start.line <= e.range.end.line ==> 1 <= e.range.start.line && e.range.end.line <= |source|
  {
    "\n" + Rows(e, source, e.range.end.line) + "\n\n" + Footer(e)
  }

  /** What `format` returns. */
  function FormatText(e: Error, source: seq<string>): string
    requires LinesAvailable(e.range, source)
  {
    if e.range.start.line != e.range.end.line then MultiLineText(e, source) else SingleLineText(e, source)
  }

  /** A caret row of the multi-line loop. */
  method CaretRowText(width: nat, col: int, text: string) returns (cols: string)
    ensures cols == CaretRow(width, col, text) + "\n"
  {
    cols := Spaces(width) + " " + "|";
    var cells := Tokens.Carets(col, |text|);
    cols := cols + cells;
    cols := cols + "\n";
  }

  /** The body of the multi-line loop for line `x`. */
  method RowText(e: Error, source: seq<string>, x: int) returns (r: string)
    requires 1 <= e.range.start.line <= x <= e.range.end.line <= |source|
    ensures r == Row(e, source, x)
  {
    var endLine := e.range.end.line;
    var id := x - 1;
    NatToStringLengthMonotone(x, endLine);
    r := IntToString(x) + " " + Spaces(|IntToString(endLine)| - |IntToString(x)|) + "|" + " " + source[id] + "\n";
    if x == e.range.start.line {
      var cols := CaretRowText(|IntToString(endLine)|, e.range.start.col, source[id]);
      r := r + cols;
    }
    if x == e.range.end.line {
      var cols := CaretRowText(|IntToString(endLine)|, e.range.end.col, source[id]);
      r := r + cols;
    }
  }

  /** The loop of the multi-line case: the rows of lines `start.line..=end.line`. */
  method RowsText(e: Error, source: seq<string>) returns (line: string)
    requires e.range.start.line <= e.range.end.line ==> 1 <= e.range.start.line && e.range.end.line <= |source|
    ensures line == Rows(e, source, e.range.end.line)
  {
    line := "";
    var endLine := e.range.end.line;
    var x := e.range.start.line;
    while x <= endLine
      invariant e.range.start.line <= endLine ==> e.range.start.line <= x <= endLine + 1
      invariant e.range.start.line > endLine ==> x == e.range.start.line
      invariant line == Rows(e, source, x - 1)
      decreases endLine - x
    {
      var row := RowText(e, source, x);
      line := line + row;
      x := x + 1;
    }
  }

  /** The caret row of the single-line case. */
  method SingleCaretRowText(e: Error) returns (col: string)
    ensures col == SingleCaretRow(e)
  {
    col := Spaces(|IntToString(e.range.start.line)| + 3);
    var cells := Tokens.Carets(e.range.start.col, e.range.end.col);
    col := col + cells;
  }

  /** `format`, with the colouring left out. */
  method Format(e: Error, source: seq<string>) returns (s: string)
    requires LinesAvailable(e.range, source)
    ensures s == FormatText(e, source)
  {
    var footer := Footer(e);
    if e.range.start.line != e.range.end.line {
      var line := RowsText(e, source);
      return "\n" + line + "\n\n" + footer;
    }
    var col := SingleCaretRowText(e);
    var startLine := e.range.start.line;
    var numbered := IntToString(startLine) + " " + "|" + " " + source[startLine - 1];
    s := "\n" + numbered + "\n\n" + col + "\n" + footer;
  }

  // ---------------------------------------------------------------- properties of the rendering

  /** No line of the source and no message holds a newline. */
  predicate SingleLines(source: seq<string>, e: Error) {
    && (forall k :: 0 <= k < |source| ==> '\n' !in source[k])
    && '\n' !in Message(e.eType)
  }

  lemma FooterSingleLine(e: Error)
    requires '\n' !in Message(e.eType)
    ensures '\n' !in Footer(e)
  {
    Tokens.RangeStringNoNewline(e.range);
  }

  lemma SpacesNoNewline(n: nat)
    ensures '\n' !in Spaces(n)
  {
    assert forall k :: 0 <= k < n ==> Spaces(n)[k] != '\n';
  }

  lemma CellsNoNewline(from: int, count: int)
    ensures '\n' !in Tokens.CaretCells(from, count)
  {
    var r := Tokens.CaretCells(from, count);
    assert forall k :: 0 <= k < |r| ==> r[k] != '\n';
  }

  /**
   * Read as lines, a single-line rendering is: an empty line, the numbered source line, an empty
   * line, the caret row, and the message with the range.
   */
  lemma {:induction false} SingleLineLines(e: Error, source: seq<string>)
    requires e.range.start.line == e.range.end.line && 1 <= e.range.start.line <= |source|
    requires SingleLines(source, e)
    ensures Split(FormatText(e, source), '\n') == ["", NumberedLine(e, source), "", SingleCaretRow(e), Footer(e)]
  {
    var a := NumberedLine(e, source);
    var c := SingleCaretRow(e);
    assert '\n' !in a by {
      Tokens.IntToStringNoNewline(e.range.start.line);
      assert '\n' !in source[e.range.start.line - 1];
    }
    assert '\n' !in c by {
      SpacesNoNewline(|IntToString(e.range.start.line)| + 3);
      CellsNoNewline(e.range.start.col, e.range.end.col + 1);
    }
    FooterSingleLine(e);
    FiveLines(a, c, Footer(e));
  }

  /** The frame of the single-line rendering, read as lines. */
  lemma FiveLines(a: string, c: string, f: string)
    requires '\n' !in a && '\n' !in c && '\n' !in f
    ensures Split("\n" + a + "\n\n" + c + "\n" + f, '\n') == ["", a, "", c, f]
  {
    var lines := [""] + ([a] + ([""] + ([c] + [])));
    SingleLineTerminated(a, c);
    SplitTerminated(lines, f, '\n');
    SplitNone(f, '\n');
    assert lines + [f] == ["", a, "", c, f];
  }

  /** The frame of the single-line rendering before its last line, as terminated lines. */
  lemma SingleLineTerminated(a: string, c: string)
    ensures Terminated([""] + ([a] + ([""] + ([c] + []))), '\n') == "\n" + a + "\n\n" + c + "\n"
  {
    TerminatedCons(c, [], '\n');
    TerminatedCons("", [c] + [], '\n');
    TerminatedCons(a, [""] + ([c] + []), '\n');
    TerminatedCons("", [a] + ([""] + ([c] + [])), '\n');
  }

  /**
   * In a single-line rendering the caret for column `k` sits under character `k` of the source
   * line: both rows put `|digits| + 3` characters before them.
   */
  lemma SingleLineAligned(e: Error, source: seq<string>)
    requires 1 <= e.range.start.line <= |source|
    ensures var w := |IntToString(e.range.start.line)| + 3;
            && NumberedLine(e, source)[w..] == source[e.range.start.line - 1]
            && SingleCaretRow(e)[..w] == Spaces(w)
            && SingleCaretRow(e)[w..] == Tokens.CaretCells(e.range.start.col, e.range.end.col + 1)
  {
  }

  /** The lines `Row` contributes for line `x`. */
  function RowLinesAt(e: Error, source: seq<string>, x: int): (r: seq<string>)
    requires 1 <= e.range.start.line <= x <= e.range.end.line <= |source|
  {
    var text := source[x - 1];
    NatToStringLengthMonotone(x, e.range.end.line);
    [SourceRow(Width(e), x, text)]
    + (if x == e.range.start.line then [CaretRow(Width(e), e.range.start.col, text)] else [])
    + (if x == e.range.end.line then [CaretRow(Width(e), e.range.end.col, text)] else [])
  }

  /** The lines of `Rows`. */
  function RowLines(e: Error, source: seq<string>, x: int): seq<string>
    requires RowsAvailable(e, source, x)
    decreases x - e.range.start.line
  {
    if x < e.range.start.line then [] else RowLines(e, source, x - 1) + RowLinesAt(e, source, x)
  }

  /** A line that appears only when `present`, as terminated text. */
  lemma TerminatedOptional(present: bool, line: string)
    ensures Terminated(if present then [line] else [], '\n') == if present then line + "\n" else ""
  {
    if present {
      TerminatedCons(line, [], '\n');
      assert [line] + [] == [line];
    }
  }

  /** `Row` is the lines of `RowLinesAt`, each ended by a newline. */
  lemma RowTerminated(e: Error, source: seq<string>, x: int)
    requires 1 <= e.range.start.line <= x <= e.range.end.line <= |source|
    ensures Row(e, source, x) == Terminated(RowLinesAt(e, source, x), '\n')
  {
    var text := source[x - 1];
    NatToStringLengthMonotone(x, e.range.end.line);
    var src := SourceRow(Width(e), x, text);
    var first := if x == e.range.start.line then [CaretRow(Width(e), e.range.start.col, text)] else [];
    var last := if x == e.range.end.line then [CaretRow(Width(e), e.range.end.col, text)] else [];
    assert RowLinesAt(e, source, x) == [src] + (first + last);
    TerminatedCons(src, first + last, '\n');
    TerminatedAppend(first, last, '\n');
    TerminatedOptional(x == e.range.start.line, CaretRow(Width(e), e.range.start.col, text));
    TerminatedOptional(x == e.range.end.line, CaretRow(Width(e), e.range.end.col, text));
  }

  /** `Rows` is its lines, each ended by a newline. */
  lemma {:induction false} RowsTerminated(e: Error, source: seq<string>, x: int)
    requires RowsAvailable(e, source, x)
    ensures Rows(e, source, x) == Terminated(RowLines(e, source, x), '\n')
    decreases x - e.range.start.line
  {
    if x >= e.range.start.line {
      RowsTerminated(e, source, x - 1);
      RowTerminated(e, source, x);
      TerminatedAppend(RowLines(e, source, x - 1), RowLinesAt(e, source, x), '\n');
    }
  }

  /** No row holds a newline. */
  lemma {:induction false} RowLinesSingle(e: Error, source: seq<string>, x: int)
    requires RowsAvailable(e, source, x)
    requires forall k :: 0 <= k < |source| ==> '\n' !in source[k]
    ensures forall k :: 0 <= k < |RowLines(e, source, x)| ==> '\n' !in RowLines(e, source, x)[k]
    decreases x - e.range.start.line
  {
    if x >= e.range.start.line {
      RowLinesSingle(e, source, x - 1);
      var text := source[x - 1];
      NatToStringLengthMonotone(x, e.range.end.line);
      assert '\n' !in SourceRow(Width(e), x, text) by {
        Tokens.IntToStringNoNewline(x);
        SpacesNoNewline(Width(e) - |IntToString(x)|);
        assert '\n' !in text;
      }
      assert '\n' !in CaretRow(Width(e), e.range.start.col, text) by {
        SpacesNoNewline(Width(e));
        CellsNoNewline(e.range.start.col, |text| + 1);
      }
      assert '\n' !in CaretRow(Width(e), e.range.end.col, text) by {
        SpacesNoNewline(Width(e));
        CellsNoNewline(e.range.end.col, |text| + 1);
      }
    }
  }

  /**
   * Read as lines, a multi-line rendering is: an empty line, its rows, two empty lines, and the
   * message with the range.
   */
  lemma MultiLineLines(e: Error, source: seq<string>)
    requires e.range.start.line != e.range.end.line && LinesAvailable(e.range, source)
    requires SingleLines(source, e)
    ensures Split(FormatText(e, source), '\n')
         == [""] + RowLines(e, source, e.range.end.line) + ["", "", Footer(e)]
  {
    var rows := RowLines(e, source, e.range.end.line);
    RowsTerminated(e, source, e.range.end.line);
    RowLinesSingle(e, source, e.range.end.line);
    FooterSingleLine(e);
    FramedLines(rows, Footer(e));
  }

  /** The frame of the multi-line rendering, read as lines. */
  lemma FramedLines(rows: seq<string>, f: string)
    requires forall k :: 0 <= k < |rows| ==> '\n' !in rows[k]
    requires '\n' !in f
    ensures Split("\n" + Terminated(rows, '\n') + "\n\n" + f, '\n') == [""] + rows + ["", "", f]
  {
    var all := [""] + (rows + ([""] + ([""] + [])));
    MultiLineTerminated(rows);
    assert forall k :: 0 <= k < |all| ==> '\n' !in all[k];
    SplitTerminated(all, f, '\n');
    SplitNone(f, '\n');
    assert all + [f] == [""] + rows + ["", "", f];
  }

  /** The frame of the multi-line rendering around its rows, as terminated lines. */
  lemma MultiLineTerminated(rows: seq<string>)
    ensures Terminated([""] + (rows + ([""] + ([""] + []))), '\n')
         == "\n" + Terminated(rows, '\n') + "\n\n"
  {
    TerminatedCons("", [], '\n');
    TerminatedCons("", [""] + [], '\n');
    TerminatedAppend(rows, [""] + ([""] + []), '\n');
    TerminatedCons("", rows + ([""] + ([""] + [])), '\n');
  }

  /** The bare source rows of lines `lo..=hi`. */
  function SourceRows(e: Error, source: seq<string>, lo: int, hi: int): (r: seq<string>)
    requires 1 <= lo && hi <= e.range.end.line <= |source|
    ensures |r| == (if hi < lo then 0 else hi - lo + 1)
    decreases hi - lo
  {
    if hi < lo then []
    else
      NatToStringLengthMonotone(hi, e.range.end.line);
      SourceRows(e, source, lo, hi - 1) + [SourceRow(Width(e), hi, source[hi - 1])]
  }

  /** The first line's source row and its caret row for the start column. */
  function FirstRows(e: Error, source: seq<string>): seq<string>
    requires 1 <= e.range.start.line <= e.range.end.line <= |source|
  {
    var first := source[e.range.start.line - 1];
    NatToStringLengthMonotone(e.range.start.line, e.range.end.line);
    [SourceRow(Width(e), e.range.start.line, first), CaretRow(Width(e), e.range.start.col, first)]
  }

  /** The last line's source row and its caret row for the end column. */
  function LastRows(e: Error, source: seq<string>): seq<string>
    requires 1 <= e.range.end.line <= |source|
  {
    var last := source[e.range.end.line - 1];
    [SourceRow(Width(e), e.range.end.line, last), CaretRow(Width(e), e.range.end.col, last)]
  }

  /** A line strictly between the first and the last adds only its bare source row. */
  lemma RowLinesMiddle(e: Error, source: seq<string>, x: int)
    requires 1 <= e.range.start.line < x < e.range.end.line <= |source|
    ensures |IntToString(x)| <= Width(e)
    ensures RowLines(e, source, x) == RowLines(e, source, x - 1) + [SourceRow(Width(e), x, source[x - 1])]
    ensures SourceRows(e, source, e.range.start.line + 1, x)
         == SourceRows(e, source, e.range.start.line + 1, x - 1) + [SourceRow(Width(e), x, source[x - 1])]
  {
    NatToStringLengthMonotone(x, e.range.end.line);
    assert RowLinesAt(e, source, x) == [SourceRow(Width(e), x, source[x - 1])];
  }

  /** One more line between the first and the last extends the bare rows. */
  lemma RowLinesStep(e: Error, source: seq<string>, x: int)
    requires 1 <= e.range.start.line < x < e.range.end.line <= |source|
    requires RowLines(e, source, x - 1) == FirstRows(e, source) + SourceRows(e, source, e.range.start.line + 1, x - 1)
    ensures RowLines(e, source, x) == FirstRows(e, source) + SourceRows(e, source, e.range.start.line + 1, x)
  {
    RowLinesMiddle(e, source, x);
    AppendAssociative(FirstRows(e, source), SourceRows(e, source, e.range.start.line + 1, x - 1),
                      [SourceRow(Width(e), x, source[x - 1])]);
  }

  /** The first line adds its source row and its caret row for the start column. */
  lemma RowLinesFirst(e: Error, source: seq<string>)
    requires 1 <= e.range.start.line < e.range.end.line <= |source|
    ensures RowLines(e, source, e.range.start.line) == FirstRows(e, source)
  {
    var x := e.range.start.line;
    assert RowLines(e, source, x) == [] + RowLinesAt(e, source, x);
    assert RowLinesAt(e, source, x) == FirstRows(e, source);
  }

  /** Before the last line, the rows are the first line with its caret row, then bare source rows. */
  lemma {:induction false} RowLinesBeforeEnd(e: Error, source: seq<string>, x: int)
    requires 1 <= e.range.start.line <= x < e.range.end.line <= |source|
    ensures RowLines(e, source, x) == FirstRows(e, source) + SourceRows(e, source, e.range.start.line + 1, x)
    decreases x - e.range.start.line
  {
    if x > e.range.start.line {
      RowLinesBeforeEnd(e, source, x - 1);
      RowLinesStep(e, source, x);
    } else {
      RowLinesFirst(e, source);
    }
  }

  /**
   * A multi-line rendering whose range runs forward has two caret rows: one under the first line
   * for the start column and one under the last line for the end column; the lines between them
   * appear without carets.
   */
  lemma MultiLineShape(e: Error, source: seq<string>)
    requires 1 <= e.range.start.line < e.range.end.line <= |source|
    ensures RowLines(e, source, e.range.end.line)
         == FirstRows(e, source) + SourceRows(e, source, e.range.start.line + 1, e.range.end.line - 1) + LastRows(e, source)
  {
    RowLinesBeforeEnd(e, source, e.range.end.line - 1);
  }

  /** A range that ends on an earlier line than it starts renders no rows at all. */
  lemma MultiLineBackwards(e: Error, source: seq<string>)
    requires e.range.end.line < e.range.start.line
    ensures FormatText(e, source) == "\n\n\n" + Footer(e)
  {
    assert Rows(e, source, e.range.end.line) == "";
    assert FormatText(e, source) == "\n" + "" + "\n\n" + Footer(e);
    assert "\n" + "" + "\n\n" == "\n\n\n";
  }

  /**
   * In a multi-line rendering the caret row puts one character fewer before its cells than the
   * source row puts before the text, so the caret for column `k` sits under column `k - 1` of the
   * source line, one place left of where the single-line rendering puts it.
   */
  lemma MultiLineCaretOffset(width: nat, x: int, col: int, text: string)
    requires |IntToString(x)| <= width
    ensures |SourceRow(width, x, text)| == width + 3 + |text|
    ensures SourceRow(width, x, text)[width + 3..] == text
    ensures |CaretRow(width, col, text)| == width + 2 + |text| + 1
    ensures CaretRow(width, col, text)[..width + 2] == Spaces(width) + " " + "|"
    ensures CaretRow(width, col, text)[width + 2..] == Tokens.CaretCells(col, |text| + 1)
  {
  }
}
