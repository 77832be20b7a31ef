/**
 * The tokenizer's behaviour as functions of the source text and the cursor position: one function
 * per `parse_*` method and one for `_next`. Each gives the token produced, the position the cursor
 * is left at and the errors appended. The `Tokenizer` class is proved against these.
 */
module Scanning {
  import opened Wrappers
  import opened Decimal
  import opened Text
  import opened Cursor
  import opened Tokens

  const Keywords: seq<string> :=
    ["main", "let", "emit", "match", "while", "if", "actor", "enum", "struct", "true", "false", "on", "single"]
  const Operators: seq<char> := ['+', '-', '>', '<', '=', '!', '%', '|', '&', '.', '?']
  /** Operators that end an operator token as soon as they stand alone in it. */
  const StandaloneOperators: seq<char> := ['?']
  const Punctuation: seq<char> := [',', ':', ';', '{', '}', '[', ']', '(', ')']

  const EndOfStrMessage: string := "Expected end of string"
  const DecimalPointMessage: string := "Numbers cannot contain more than one decimal point"

  function InvalidCharacterMessage(c: char): string {
    "Invalid character " + [c]
  }

  predicate IsOperator(c: char) { c in Operators }
  predicate IsPunctuation(c: char) { c in Punctuation }
  predicate IsSpace(c: char) { c == ' ' || c == '\n' || c == '\t' }
  predicate IsLetter(c: char) { 'a' <= c <= 'z' || 'A' <= c <= 'Z' }
  predicate IsIdentStart(c: char) { IsLetter(c) || c == '_' }
  predicate IsIdentChar(c: char) { IsLetter(c) || IsDigit(c) || c == '_' }
  predicate IsNumChar(c: char) { IsDigit(c) || c == '.' || c == '_' }

  /** The accumulated operator text is one of the standalone operators. */
  predicate IsStandalone(op: string) {
    |op| == 1 && op[0] in StandaloneOperators
  }

  /** What one `parse_*` call yields: its token, the new cursor position and the errors it appended. */
  datatype Scan = Scan(token: Token, pos: nat, errors: seq<Error>)

  // ---------------------------------------------------------------- string literals

  /** `parse_str` at position `p`: skip the opening quote, take everything up to the closing quote. */
  function StrScan(code: string, p: nat): Scan
    requires p <= |code|
  {
    var q := if p < |code| then p + 1 else p;
    var j := q + IndexOf(code[q..], '"');
    var start := LocAt(code, q);
    if j < |code| then
      Scan(Token(Range(start, LocAt(code, j + 1)), Str(code[q..j])), j + 1, [])
    else
      Scan(Token(Range(start, LocAt(code, |code|)), Str(code[q..])), |code|,
           [Error(Range(start, LocAt(code, |code|)), EndOfStrMessage)])
  }

  /**
   * `StrScan` when the first quote after `q`, or the end of the input, is at `j`: the text is
   * `code[q..j]`, the scan ends after the quote or at the end, and only the latter records an error.
   */
  lemma StrScanStop(code: string, p: nat, q: nat, j: nat)
    requires p <= |code| && q == if p < |code| then p + 1 else p
    requires q <= j <= |code| && (j < |code| ==> code[j] == '"')
    requires forall k :: q <= k < j ==> code[k] != '"'
    ensures var s := StrScan(code, p);
            && s.pos == (if j < |code| then j + 1 else |code|)
            && s.token == Token(Range(LocAt(code, q), LocAt(code, s.pos)), Str(code[q..j]))
            && s.errors == if j < |code| then [] else [Error(Range(LocAt(code, q), LocAt(code, |code|)), EndOfStrMessage)]
  {
    IndexOfUnique(code[q..], '"', j - q);
    assert code[q..|code|] == code[q..];
  }

  /**
   * A string literal's value is the verbatim text after the opening quote, which holds no quote; its
   * range runs from just after the opening quote to just after the closing one. When the input ends
   * first, the partial text is kept and exactly one error is appended.
   */
  lemma StrScanSpec(code: string, p: nat)
    requires p < |code| && code[p] == '"'
    ensures var s := StrScan(code, p);
            && s.token.val.Str?
            && var v := s.token.val.text;
            && '"' !in v
            && p + 1 + |v| <= |code| && code[p + 1..p + 1 + |v|] == v
            && s.token.range == Range(LocAt(code, p + 1), LocAt(code, s.pos))
            && (|| (s.pos == p + 2 + |v| && code[p + 1 + |v|] == '"' && s.errors == [])
                || (s.pos == |code| == p + 1 + |v|
                    && s.errors == [Error(Range(LocAt(code, p + 1), LocAt(code, |code|)), EndOfStrMessage)]))
  {
    var q := p + 1;
    var i := IndexOf(code[q..], '"');
    var v := StrScan(code, p).token.val.text;
    assert v == code[q..q + i];
  }

  // ---------------------------------------------------------------- numbers

  /** The characters of `code[p..i]` other than '_', in order: the text `parse_num` collects. */
  function Kept(code: string, p: nat, i: nat): (r: string)
    requires p <= i <= |code|
    ensures |r| <= i - p
    decreases i
  {
    if i == p then [] else Kept(code, p, i - 1) + (if code[i - 1] == '_' then [] else [code[i - 1]])
  }

  /** Every character of `code[p..i]` other than '_' is kept. */
  lemma {:induction false} KeptHas(code: string, p: nat, i: nat, k: nat)
    requires p <= k < i <= |code| && code[k] != '_'
    ensures code[k] in Kept(code, p, i)
    decreases i
  {
    if k < i - 1 {
      KeptHas(code, p, i - 1, k);
    }
  }

  /** Only characters of `code[p..i]` are kept. */
  lemma {:induction false} KeptOnly(code: string, p: nat, i: nat, c: char)
    requires p <= i <= |code| && c in Kept(code, p, i)
    ensures exists k :: p <= k < i && code[k] == c
    decreases i
  {
    if c !in Kept(code, p, i - 1) {
      assert code[i - 1] == c;
    } else {
      KeptOnly(code, p, i - 1, c);
    }
  }

  /** Digits and '_' leave only digits. */
  lemma {:induction false} KeptDigits(code: string, p: nat, i: nat)
    requires p <= i <= |code|
    requires forall k :: p <= k < i ==> IsDigit(code[k]) || code[k] == '_'
    ensures AllDigits(Kept(code, p, i))
    decreases i
  {
    if i > p {
      KeptDigits(code, p, i - 1);
    }
  }

  /**
   * Where the number loop of `parse_num` stops, whether it stopped on a second decimal point, and
   * the final value of its `dot` flag.
   */
  datatype NumStop = NumStop(pos: nat, extraDot: bool, dot: bool)

  function NumEnd(code: string, i: nat, dot: bool): (r: NumStop)
    requires i <= |code|
    ensures i <= r.pos <= |code|
    decreases |code| - i
  {
    if i == |code| then NumStop(i, false, dot)
    else if IsDigit(code[i]) || code[i] == '_' then NumEnd(code, i + 1, dot)
    else if code[i] == '.' then (if dot then NumStop(i + 1, true, dot) else NumEnd(code, i + 1, true))
    else NumStop(i, false, dot)
  }

  /**
   * The number loop consumes only digits, '.' and '_'; it stops after a second '.', or else at the
   * end of input or before the first other character. Its flag ends set exactly when it started set
   * or the loop took a '.'.
   */
  lemma {:induction false} NumEndStops(code: string, i: nat, dot: bool)
    requires i <= |code|
    ensures var r := NumEnd(code, i, dot);
            && (forall k :: i <= k < r.pos ==> IsNumChar(code[k]))
            && (r.extraDot ==> i < r.pos && code[r.pos - 1] == '.' && r.dot)
            && (!r.extraDot ==> r.pos == |code| || !IsNumChar(code[r.pos]))
            && (!r.dot ==> forall k :: i <= k < r.pos ==> code[k] != '.')
            && (dot ==> r.dot)
            && (r.dot && !dot ==> exists k :: i <= k < r.pos && code[k] == '.')
    decreases |code| - i
  {
    if i < |code| {
      if IsDigit(code[i]) || code[i] == '_' {
        NumEndStops(code, i + 1, dot);
      } else if code[i] == '.' && !dot {
        NumEndStops(code, i + 1, true);
        assert code[i] == '.';
      }
    }
  }

  /** At most one decimal point is taken into a number, and a set flag means one was taken. */
  lemma {:induction false} NumEndDots(code: string, i: nat, dot: bool)
    requires i <= |code|
    ensures var r := NumEnd(code, i, dot);
            var e := if r.extraDot then r.pos - 1 else r.pos;
            && i <= e
            && (dot ==> forall k :: i <= k < e ==> code[k] != '.')
            && (forall k, m :: i <= k < m < e ==> !(code[k] == '.' && code[m] == '.'))
            && (r.dot && !dot ==> exists k :: i <= k < e && code[k] == '.')
    decreases |code| - i
  {
    if i < |code| {
      if IsDigit(code[i]) || code[i] == '_' {
        NumEndDots(code, i + 1, dot);
      } else if code[i] == '.' && !dot {
        NumEndDots(code, i + 1, true);
      }
    }
  }

  /** End of the text a number token is made of: what was consumed, less a second '.'. */
  function NumTextEnd(code: string, p: nat): (e: nat)
    requires p <= |code|
    ensures p <= e <= NumEnd(code, p, false).pos
  {
    var stop := NumEnd(code, p, false);
    if stop.extraDot then stop.pos - 1 else stop.pos
  }

  /** Without a '.', the text of a number is all digits. */
  lemma NumDigits(code: string, p: nat)
    requires p <= |code|
    ensures !NumEnd(code, p, false).dot ==> AllDigits(Kept(code, p, NumTextEnd(code, p)))
  {
    NumEndStops(code, p, false);
    if !NumEnd(code, p, false).dot {
      KeptDigits(code, p, NumTextEnd(code, p));
    }
  }

  /**
   * `parse_num`: digits are kept, '_' is dropped, the first '.' is kept and a second one ends the
   * token after being consumed, with an error over the whole number. A '.' makes the token a Float.
   */
  function NumScan(code: string, p: nat): Scan
    requires p < |code| && IsDigit(code[p])
  {
    var stop := NumEnd(code, p, false);
    var text := Kept(code, p, NumTextEnd(code, p));
    var range := Range(LocAt(code, p), LocAt(code, stop.pos));
    NumDigits(code, p);
    var val := if stop.dot then Float(text) else Int(DigitsValue(text));
    Scan(Token(range, val), stop.pos, if stop.extraDot then [Error(range, DecimalPointMessage)] else [])
  }

  /** The state of the number loop after reaching `i`: `num` is what was kept, `dot` its flag. */
  ghost predicate NumInv(code: string, p: nat, i: nat, dot: bool, num: string) {
    && p <= i <= |code|
    && num == Kept(code, p, i)
    && NumEnd(code, p, false) == NumEnd(code, i, dot)
  }

  /** A digit taken by the number loop is kept. */
  lemma NumInvDigit(code: string, p: nat, i: nat, dot: bool, num: string)
    requires NumInv(code, p, i, dot, num) && i < |code| && IsDigit(code[i])
    ensures NumInv(code, p, i + 1, dot, num + [code[i]])
  {
  }

  /** A '_' taken by the number loop is dropped. */
  lemma NumInvUnderscore(code: string, p: nat, i: nat, dot: bool, num: string)
    requires NumInv(code, p, i, dot, num) && i < |code| && code[i] == '_'
    ensures NumInv(code, p, i + 1, dot, num)
  {
  }

  /** The first '.' taken by the number loop is kept and sets the flag. */
  lemma NumInvDot(code: string, p: nat, i: nat, num: string)
    requires NumInv(code, p, i, false, num) && i < |code| && code[i] == '.'
    ensures NumInv(code, p, i + 1, true, num + ['.'])
  {
  }

  /**
   * Where the number loop leaves off: at the end of input or before another character, or just after
   * a second '.'; in each case the token, its end and its error are those of `NumScan`.
   */
  lemma NumInvDone(code: string, p: nat, i: nat, dot: bool, num: string)
    requires p < |code| && IsDigit(code[p]) && NumInv(code, p, i, dot, num)
    requires i == |code| || !IsNumChar(code[i]) || (code[i] == '.' && dot)
    ensures !dot ==> AllDigits(num)
    ensures var e := if i < |code| && code[i] == '.' then i + 1 else i;
            var range := Range(LocAt(code, p), LocAt(code, e));
            NumScan(code, p) ==
              Scan(Token(range, if dot then Float(num) else Int(DigitsValue(num))), e,
                   if e == i + 1 then [Error(range, DecimalPointMessage)] else [])
  {
    NumDigits(code, p);
  }

  /**
   * `parse_num` consumes a non-empty run of digits, '.' and '_'. Unless it stopped on a second '.'
   * (consumed, with one error over the whole number), it stops before the first other character.
   */
  lemma NumScanConsumes(code: string, p: nat)
    requires p < |code| && IsDigit(code[p])
    ensures var s := NumScan(code, p);
            var stop := NumEnd(code, p, false);
            && p < s.pos == stop.pos <= |code|
            && (forall k :: p <= k < s.pos ==> IsNumChar(code[k]))
            && s.token.range == Range(LocAt(code, p), LocAt(code, s.pos))
            && (stop.extraDot ==> code[s.pos - 1] == '.' && s.errors == [Error(s.token.range, DecimalPointMessage)])
            && (!stop.extraDot ==> s.errors == [] && (s.pos == |code| || !IsNumChar(code[s.pos])))
  {
    NumEndStops(code, p, false);
    assert code[p] != '.' && code[p] != '_' && IsNumChar(code[p]);
  }

  /**
   * The number's text is the consumed characters without '_' and without a second '.'; the token
   * is a Float exactly when that text holds a '.', and an Int carries the value of its digits.
   */
  lemma NumScanValue(code: string, p: nat)
    requires p < |code| && IsDigit(code[p])
    ensures var text := Kept(code, p, NumTextEnd(code, p));
            && ('.' in text ==> NumScan(code, p).token.val == Float(text))
            && ('.' !in text ==> AllDigits(text) && NumScan(code, p).token.val == Int(DigitsValue(text)))
  {
    var stop := NumEnd(code, p, false);
    var e := NumTextEnd(code, p);
    NumEndStops(code, p, false);
    NumEndDots(code, p, false);
    NumDigits(code, p);
    if stop.dot {
      var k :| p <= k < e && code[k] == '.';
      KeptHas(code, p, e, k);
    } else if '.' in Kept(code, p, e) {
      KeptOnly(code, p, e, '.');
    }
  }

  /** The consumed text of a number never holds two '.' outside a second one that stops it. */
  lemma NumTextDots(code: string, p: nat)
    requires p < |code|
    ensures var e := NumTextEnd(code, p);
            forall k, m :: p <= k < m < e ==> !(code[k] == '.' && code[m] == '.')
  {
    NumEndDots(code, p, false);
  }

  /** A number that stopped on a second '.' has already taken one: it is always a Float. */
  lemma NumExtraDotFloat(code: string, p: nat)
    requires p < |code| && IsDigit(code[p])
    ensures NumEnd(code, p, false).extraDot ==> NumScan(code, p).token.val.Float?
  {
    NumEndStops(code, p, false);
  }

  // ---------------------------------------------------------------- identifiers

  /** End of the maximal run of `[A-Za-z0-9_]` starting at `i`. */
  function IdentEnd(code: string, i: nat): (e: nat)
    requires i <= |code|
    ensures i <= e <= |code|
    ensures forall k :: i <= k < e ==> IsIdentChar(code[k])
    ensures e < |code| ==> !IsIdentChar(code[e])
    decreases |code| - i
  {
    if i == |code| || !IsIdentChar(code[i]) then i else IdentEnd(code, i + 1)
  }

  /** `true` and `false` are booleans before they are keywords; other listed words are keywords. */
  function WordKind(w: string): (t: TokenType)
    ensures t.Bool? <==> w == "true" || w == "false"
    ensures t.Bool? ==> t.b == (w == "true")
    ensures t.Kw? <==> w in Keywords && w != "true" && w != "false"
    ensures t.Var? <==> w !in Keywords
    ensures t.Kw? ==> t.name == w
    ensures t.Var? ==> t.name == w
  {
    if w == "true" then Bool(true)
    else if w == "false" then Bool(false)
    else if w in Keywords then Kw(w)
    else Var(w)
  }

  /** `parse_ident`: the maximal identifier run, classified by `WordKind`. */
  function IdentScan(code: string, p: nat): (s: Scan)
    requires p <= |code|
    ensures p <= s.pos <= |code| && s.errors == []
    ensures forall k :: p <= k < s.pos ==> IsIdentChar(code[k])
    ensures s.pos < |code| ==> !IsIdentChar(code[s.pos])
    ensures s.token == Token(Range(LocAt(code, p), LocAt(code, s.pos)), WordKind(code[p..s.pos]))
  {
    var e := IdentEnd(code, p);
    Scan(Token(Range(LocAt(code, p), LocAt(code, e)), WordKind(code[p..e])), e, [])
  }

  // ---------------------------------------------------------------- operators and punctuation

  /** End of the operator run of `parse_op` that started at `p` and has reached `i`. */
  function OpEnd(code: string, p: nat, i: nat): (e: nat)
    requires p <= i <= |code|
    ensures i <= e <= |code|
    decreases |code| - i
  {
    if i == |code| || IsStandalone(code[p..i]) || !IsOperator(code[i]) then i else OpEnd(code, p, i + 1)
  }

  /**
   * The operator loop takes operator characters only, stops as soon as the text so far is a standalone
   * operator, and otherwise runs to the end of input or the first non-operator.
   */
  lemma {:induction false} OpEndStops(code: string, p: nat, i: nat)
    requires p <= i <= |code|
    ensures var e := OpEnd(code, p, i);
            && (forall k :: i <= k < e ==> IsOperator(code[k]))
            && (forall m :: i <= m < e ==> !IsStandalone(code[p..m]))
            && (e == |code| || IsStandalone(code[p..e]) || !IsOperator(code[e]))
    decreases |code| - i
  {
    if !(i == |code| || IsStandalone(code[p..i]) || !IsOperator(code[i])) {
      OpEndStops(code, p, i + 1);
    }
  }

  function OpScan(code: string, p: nat): Scan
    requires p <= |code|
  {
    var e := OpEnd(code, p, p);
    Scan(Token(Range(LocAt(code, p), LocAt(code, e)), Op(code[p..e])), e, [])
  }

  /**
   * An operator token is a non-empty run of operator characters that stops only at the end of input,
   * before a non-operator, or as soon as its text is a standalone operator; so a standalone operator
   * followed by more operator characters is a token of its own, and it never occurs inside a longer one.
   */
  lemma OpScanSpec(code: string, p: nat)
    requires p < |code| && IsOperator(code[p])
    ensures var s := OpScan(code, p);
            && s.token.val.Op?
            && var op := s.token.val.op;
            && p < s.pos <= |code| && op == code[p..s.pos] && s.errors == []
            && (forall k :: 0 <= k < |op| ==> IsOperator(op[k]))
            && (s.pos == |code| || IsStandalone(op) || !IsOperator(code[s.pos]))
            && (forall m :: 0 <= m < |op| ==> !IsStandalone(op[..m]))
            && (op[0] in StandaloneOperators ==> op == [op[0]])
            && s.token.range == Range(LocAt(code, p), LocAt(code, s.pos))
  {
    var e := OpEnd(code, p, p);
    OpEndStops(code, p, p);
    assert e > p by {
      assert code[p..p] == [];
    }
    var op := code[p..e];
    forall m | 0 <= m < |op| ensures !IsStandalone(op[..m]) {
      assert op[..m] == code[p..p + m];
    }
    assert |op| > 1 ==> op[..1] == [op[0]];
  }

  /** `parse_punc`: the one character, with a zero-width range at its position. */
  function PuncScan(code: string, p: nat): (s: Scan)
    requires p < |code|
    ensures s.pos == p + 1 && s.errors == [] && s.token.val == Punc(code[p])
    ensures s.token.range.start == s.token.range.end == LocAt(code, p)
  {
    Scan(Token(Range(LocAt(code, p), LocAt(code, p)), Punc(code[p])), p + 1, [])
  }

  // ---------------------------------------------------------------- comments

  /** Position after a line comment whose text starts at `i`: just past the next newline, or the end. */
  function LineCommentEnd(code: string, i: nat): (e: nat)
    requires i <= |code|
    ensures i <= e <= |code|
    ensures forall k :: i <= k < e - 1 ==> code[k] != '\n'
    ensures e < |code| ==> i < e && code[e - 1] == '\n'
    ensures e == |code| && i < e ==> code[e-1] == '\n' || '\n' !in code[i..]
  {
    var k := i + IndexOf(code[i..], '\n');
    if k < |code| then k + 1 else |code|
  }

  /** `LineCommentEnd` when the first newline at or after `i`, or the end of input, is at `j`. */
  lemma LineCommentAt(code: string, i: nat, j: nat)
    requires i <= j <= |code| && (j < |code| ==> code[j] == '\n')
    requires forall k :: i <= k < j ==> code[k] != '\n'
    ensures LineCommentEnd(code, i) == if j < |code| then j + 1 else |code|
  {
    IndexOfUnique(code[i..], '\n', j - i);
  }

  // The block comment loop, with the opening '/' consumed and the cursor at `i`: `Some` of the
  // position where scanning resumes (past the closing "*/", or the end of input), or `None` when a
  // '*' is the last character, where `peek(0)?` makes `_next` give up.
  function BlockCommentEnd(code: string, i: nat): (r: Option<nat>)
    requires i <= |code|
    ensures r.Some? ==> i <= r.value <= |code|
    decreases |code| - i
  {
    if i == |code| then Some(i)
    else if code[i] == '*' && i + 1 == |code| then None
    else if code[i] == '*' && code[i + 1] == '/' then Some(i + 2)
    else BlockCommentEnd(code, i + 1)
  }

  // ---------------------------------------------------------------- _next

  /** What one `_next` call yields: a token or none, the new cursor position and the errors appended. */
  datatype Step = Step(token: Option<Token>, pos: nat, errors: seq<Error>)

  function FromScan(s: Scan): Step {
    Step(Some(s.token), s.pos, s.errors)
  }

  function InvalidCharacterError(code: string, p: nat): Error
    requires p < |code|
  {
    Error(Range(LocAt(code, p), LocAt(code, p)), InvalidCharacterMessage(code[p]))
  }

  /** A position where `_next` does not classify a character: whitespace, a comment, or a final '/'. */
  predicate Layout(code: string, p: nat)
    requires p < |code|
  {
    IsSpace(code[p]) || (code[p] == '/' && (p + 1 == |code| || code[p + 1] == '/' || code[p + 1] == '*'))
  }

  /** `_next`: skip layout and comments, then classify by the next character. */
  function Next(code: string, p: nat): Step
    requires p <= |code|
    decreases |code| - p
  {
    if p == |code| then Step(None, p, [])
    else
      var c := code[p];
      if c == '/' && p + 1 == |code| then Step(None, p, [])
      else if c == '/' && code[p + 1] == '/' then Next(code, LineCommentEnd(code, p + 2))
      else if c == '/' && code[p + 1] == '*' then
        match BlockCommentEnd(code, p + 1)
        case None => Step(None, |code|, [])
        case Some(k) => Next(code, k)
      else if c == '"' then FromScan(StrScan(code, p))
      else if IsDigit(c) then FromScan(NumScan(code, p))
      else if IsSpace(c) then Next(code, p + 1)
      else if IsOperator(c) then FromScan(OpScan(code, p))
      else if IsPunctuation(c) then FromScan(PuncScan(code, p))
      else if IsIdentStart(c) then FromScan(IdentScan(code, p))
      else Step(None, p + 1, [InvalidCharacterError(code, p)])
  }
}
