/**
 * The tokenizer object: a cursor, the errors recorded so far and a one-token lookahead slot.
 * Every method is proved equal to its pure counterpart in `Scanning`.
 */
module Lexer {
  import opened Wrappers
  import opened Decimal
  import opened Text
  import opened Cursor
  import opened Tokens
  import opened Scanning

  class Tokenizer {
    var current: Option<Token>
    var errors: seq<Error>
    const input: InputParser

    ghost predicate Valid()
      reads this, input
    {
      input.Valid()
    }

    constructor (code: string)
      ensures Valid() && fresh(input)
      ensures input.code == code && input.pos == 0 && current == None && errors == []
    {
      current := None;
      errors := [];
      input := new InputParser(code);
    }

    /** `error`: errors are only ever appended. */
    method ReportError(msg: string, start: LoC, end: LoC)
      modifies this
      ensures errors == old(errors) + [Error(Range(start, end), msg)]
      ensures current == old(current)
    {
      errors := errors + [Error(Range(start, end), msg)];
    }

    method ParseStr() returns (tok: Token)
      requires Valid()
      modifies this, input
      ensures Valid() && current == old(current)
      ensures var s := StrScan(input.code, old(input.pos));
              tok == s.token && input.pos == s.pos && errors == old(errors) + s.errors
    {
      ghost var code := input.code;
      ghost var p := input.pos;
      var _ := input.Consume();
      ghost var q := input.pos;
      var start := input.Loc();
      var str := "";
      ghost var stop := q;
      while true
        invariant input.Valid() && q <= input.pos <= |code|
        invariant str == code[q..input.pos]
        invariant forall k :: q <= k < input.pos ==> code[k] != '"'
        invariant errors == old(errors) && current == old(current)
        decreases |code| - input.pos
      {
        ghost var i := input.pos;
        var c := input.Consume();
        match c
        case None =>
          stop := |code|;
          ReportError(EndOfStrMessage, start, input.Loc());
          break;
        case Some(ch) =>
          if ch == '"' {
            stop := i;
            break;
          }
          assert code[q..i + 1] == code[q..i] + [ch];
          str := str + [ch];
      }
      tok := Token(Range(start, input.Loc()), Str(str));
      StrScanStop(code, p, q, stop);
    }

    method ParseNum() returns (tok: Token)
      requires Valid() && input.pos < |input.code| && IsDigit(input.code[input.pos])
      modifies this, input
      ensures Valid() && current == old(current)
      ensures var s := NumScan(input.code, old(input.pos));
              tok == s.token && input.pos == s.pos && errors == old(errors) + s.errors
    {
      ghost var code := input.code;
      ghost var p := input.pos;
      var dot := false;
      var num := "";
      var start := input.Loc();
      ghost var last := |code|;
      assert code[p..p] == [];
      while !input.IsEof()
        invariant input.Valid() && NumInv(code, p, input.pos, dot, num)
        invariant errors == old(errors) && current == old(current)
        decreases |code| - input.pos
      {
        ghost var i := input.pos;
        var ch := input.Peek(0).value;
        if IsDigit(ch) {
          NumInvDigit(code, p, i, dot, num);
          var c := input.Consume();
          num := num + [c.value];
        } else if ch == '.' {
          if dot {
            last := i;
            var _ := input.Consume();
            ReportError(DecimalPointMessage, start, input.Loc());
            break;
          }
          NumInvDot(code, p, i, num);
          var _ := input.Consume();
          dot := true;
          num := num + [ch];
        } else if ch == '_' {
          NumInvUnderscore(code, p, i, dot, num);
          var _ := input.Consume();
          continue;
        } else {
          last := i;
          break;
        }
      }
      NumInvDone(code, p, last, dot, num);
      var val := if dot then Float(num) else Int(DigitsValue(num));
      tok := Token(Range(start, input.Loc()), val);
    }

    method ParseIdent() returns (tok: Token)
      requires Valid()
      modifies input
      ensures Valid()
      ensures var s := IdentScan(input.code, old(input.pos));
              tok == s.token && input.pos == s.pos
    {
      ghost var code := input.code;
      ghost var p := input.pos;
      var ident := "";
      var start := input.Loc();
      while !input.IsEof()
        invariant input.Valid() && p <= input.pos <= |code|
        invariant ident == code[p..input.pos]
        invariant IdentEnd(code, p) == IdentEnd(code, input.pos)
        decreases |code| - input.pos
      {
        ghost var i := input.pos;
        var ch := input.Peek(0).value;
        if IsIdentChar(ch) {
          var c := input.Consume();
          assert code[p..i + 1] == code[p..i] + [ch];
          ident := ident + [c.value];
        } else {
          break;
        }
      }
      var val;
      if ident == "true" {
        val := Bool(true);
      } else if ident == "false" {
        val := Bool(false);
      } else if ident in Keywords {
        val := Kw(ident);
      } else {
        val := Var(ident);
      }
      tok := Token(Range(start, input.Loc()), val);
    }

    method ParsePunc() returns (tok: Token)
      requires Valid() && input.pos < |input.code|
      modifies input
      ensures Valid()
      ensures var s := PuncScan(input.code, old(input.pos));
              tok == s.token && input.pos == s.pos
    {
      var range := Range(input.Loc(), input.Loc());
      var c := input.Consume();
      tok := Token(range, Punc(c.value));
    }

    method ParseOp() returns (tok: Token)
      requires Valid()
      modifies input
      ensures Valid()
      ensures var s := OpScan(input.code, old(input.pos));
              tok == s.token && input.pos == s.pos
    {
      ghost var code := input.code;
      ghost var p := input.pos;
      var start := input.Loc();
      var op := "";
      while !input.IsEof()
        invariant input.Valid() && p <= input.pos <= |code|
        invariant op == code[p..input.pos]
        invariant OpEnd(code, p, p) == OpEnd(code, p, input.pos)
        decreases |code| - input.pos
      {
        if IsStandalone(op) {
          break;
        }
        ghost var i := input.pos;
        var ch := input.Peek(0).value;
        if IsOperator(ch) {
          var c := input.Consume();
          assert code[p..i + 1] == code[p..i] + [ch];
          op := op + [c.value];
        } else {
          break;
        }
      }
      tok := Token(Range(start, input.Loc()), Op(op));
    }

    /** The line-comment loop of `_next`: consume "//" and everything up to and including the next newline. */
    method SkipLineComment()
      requires Valid() && input.pos + 1 < |input.code|
      modifies input
      ensures Valid() && input.pos == LineCommentEnd(input.code, old(input.pos) + 2)
    {
      ghost var code := input.code;
      ghost var p := input.pos;
      var _ := input.Consume();
      var _ := input.Consume();
      ghost var newline := |code|;
      while !input.IsEof()
        invariant input.Valid() && p + 2 <= input.pos <= |code|
        invariant forall k :: p + 2 <= k < input.pos ==> code[k] != '\n'
        invariant newline == |code|
        decreases |code| - input.pos
      {
        ghost var i := input.pos;
        var c := input.Consume();
        if c.value == '\n' {
          newline := i;
          break;
        }
      }
      LineCommentAt(code, p + 2, newline);
    }

    // The block-comment loop of `_next`: consume the opening '/', then up to a '*' followed by '/',
    // and that '/'. `false` when a '*' turns out to be the last character, where `_next` gives up.
    method SkipBlockComment() returns (closed: bool)
      requires Valid() && input.pos < |input.code|
      modifies input
      ensures Valid()
      ensures var r := BlockCommentEnd(input.code, old(input.pos) + 1);
              && (closed <==> r.Some?)
              && (closed ==> input.pos == r.value)
              && (!closed ==> input.pos == |input.code|)
    {
      ghost var code := input.code;
      ghost var p := input.pos;
      var _ := input.Consume();
      ghost var resume: nat := |code|;
      while !input.IsEof()
        invariant input.Valid() && p + 1 <= input.pos <= |code|
        invariant BlockCommentEnd(code, p + 1) == BlockCommentEnd(code, input.pos)
        invariant resume == |code|
        decreases |code| - input.pos
      {
        ghost var i := input.pos;
        var c := input.Consume();
        if c.value == '*' {
          var after := input.Peek(0);
          if after.None? {
            return false;
          }
          if after.value == '/' {
            resume := i + 2;
            break;
          }
        }
      }
      assert BlockCommentEnd(code, p + 1) == Some(resume);
      var _ := input.Consume();
      return true;
    }

    /** `_next`: skip layout and comments, then scan one token. */
    method Next() returns (t: Option<Token>)
      requires Valid()
      modifies this, input
      ensures Valid() && current == old(current)
      ensures var s := Scanning.Next(input.code, old(input.pos));
              t == s.token && input.pos == s.pos && errors == old(errors) + s.errors
      decreases |input.code| - input.pos, 2
    {
      ghost var code := input.code;
      ghost var p := input.pos;
      if input.IsEof() {
        return None;
      }
      var tok := input.Peek(0).value;
      if tok == '/' {
        t := NextAtSlash();
      } else if IsSpace(tok) {
        var _ := input.Consume();
        assert Scanning.Next(code, p) == Scanning.Next(code, p + 1);
        t := Next();
      } else {
        t := ScanToken();
      }
    }

    // The comment tests at the head of `_next`, on a '/': `peek(1)?` gives up on a final '/', a
    // second '/' or a '*' starts a comment that is skipped before `_next` goes on, and any other
    // character leaves the '/' to the `match`.
    method NextAtSlash() returns (t: Option<Token>)
      requires Valid() && input.pos < |input.code| && input.code[input.pos] == '/'
      modifies this, input
      ensures Valid() && current == old(current)
      ensures var s := Scanning.Next(input.code, old(input.pos));
              t == s.token && input.pos == s.pos && errors == old(errors) + s.errors
      decreases |input.code| - input.pos, 1
    {
      var second := input.Peek(1);
      if second.None? {
        return None;
      }
      if second.value == '/' {
        t := NextAfterLineComment();
      } else if second.value == '*' {
        t := NextAfterBlockComment();
      } else {
        t := ScanToken();
      }
    }

    /** The line comment branch of `_next`: skip the comment, then scan on. */
    method NextAfterLineComment() returns (t: Option<Token>)
      requires Valid() && input.pos + 1 < |input.code|
      requires input.code[input.pos] == '/' && input.code[input.pos + 1] == '/'
      modifies this, input
      ensures Valid() && current == old(current)
      ensures var s := Scanning.Next(input.code, old(input.pos));
              t == s.token && input.pos == s.pos && errors == old(errors) + s.errors
      decreases |input.code| - input.pos, 0
    {
      ghost var code := input.code;
      ghost var p := input.pos;
      SkipLineComment();
      assert Scanning.Next(code, p) == Scanning.Next(code, LineCommentEnd(code, p + 2));
      t := Next();
    }

    /** The block comment branch of `_next`: skip the comment, then scan on unless it gave up. */
    method NextAfterBlockComment() returns (t: Option<Token>)
      requires Valid() && input.pos + 1 < |input.code|
      requires input.code[input.pos] == '/' && input.code[input.pos + 1] == '*'
      modifies this, input
      ensures Valid() && current == old(current)
      ensures var s := Scanning.Next(input.code, old(input.pos));
              t == s.token && input.pos == s.pos && errors == old(errors) + s.errors
      decreases |input.code| - input.pos, 0
    {
      ghost var code := input.code;
      ghost var p := input.pos;
      var closed := SkipBlockComment();
      if !closed {
        return None;
      }
      assert Scanning.Next(code, p) == Scanning.Next(code, BlockCommentEnd(code, p + 1).value);
      t := Next();
    }

    // The arms of the `match` in `_next` that scan a token or reject the character; its whitespace
    // arm, which is disjoint from them, stays in `Next`.
    method ScanToken() returns (t: Option<Token>)
      requires Valid() && input.pos < |input.code| && !Layout(input.code, input.pos)
      modifies this, input
      ensures Valid() && current == old(current)
      ensures var s := Scanning.Next(input.code, old(input.pos));
              t == s.token && input.pos == s.pos && errors == old(errors) + s.errors
    {
      ghost var code := input.code;
      ghost var p := input.pos;
      var tok := input.Peek(0).value;
      if tok == '"' {
        assert Scanning.Next(code, p) == FromScan(StrScan(code, p));
        var s := ParseStr();
        t := Some(s);
      } else if IsDigit(tok) {
        assert Scanning.Next(code, p) == FromScan(NumScan(code, p));
        var s := ParseNum();
        t := Some(s);
      } else if IsOperator(tok) {
        assert Scanning.Next(code, p) == FromScan(OpScan(code, p));
        var s := ParseOp();
        t := Some(s);
      } else if IsPunctuation(tok) {
        assert Scanning.Next(code, p) == FromScan(PuncScan(code, p));
        var s := ParsePunc();
        t := Some(s);
      } else if IsIdentStart(tok) {
        assert Scanning.Next(code, p) == FromScan(IdentScan(code, p));
        var s := ParseIdent();
        t := Some(s);
      } else {
        assert Scanning.Next(code, p) == Step(None, p + 1, [InvalidCharacterError(code, p)]);
        ReportError(InvalidCharacterMessage(tok), input.Loc(), input.Loc());
        var _ := input.Consume();
        t := None;
      }
    }

    /** `consume`: hand out the lookahead token if there is one, else scan a new one. */
    method Consume() returns (t: Option<Token>)
      requires Valid()
      modifies this, input
      ensures Valid() && current == None
      ensures old(current).Some? ==> t == old(current) && input.pos == old(input.pos) && errors == old(errors)
      ensures old(current).None? ==>
                var s := Scanning.Next(input.code, old(input.pos));
                t == s.token && input.pos == s.pos && errors == old(errors) + s.errors
    {
      if current.Some? {
        t := current;
        current := None;
      } else {
        t := Next();
      }
    }

    /** `peek`: fill the lookahead slot if it is empty, and show its content. */
    method Peek() returns (t: Option<Token>)
      requires Valid()
      modifies this, input
      ensures Valid() && current == t
      ensures old(current).Some? ==> t == old(current) && input.pos == old(input.pos) && errors == old(errors)
      ensures old(current).None? ==>
                var s := Scanning.Next(input.code, old(input.pos));
                t == s.token && input.pos == s.pos && errors == old(errors) + s.errors
    {
      if current.Some? {
        return current;
      }
      current := Next();
      t := current;
    }
  }

  /**
   * A client of the lookahead, from an empty slot. When the first peek finds a token, the input is
   * scanned once, all three calls give that token and the slot ends empty. When it finds none, the
   * slot stays empty, so the second peek scans again from where the first one stopped.
   */
  method PeekPeekConsume(tz: Tokenizer) returns (first: Option<Token>, second: Option<Token>, taken: Option<Token>)
    requires tz.Valid() && tz.current == None
    modifies tz, tz.input
    ensures tz.Valid()
    ensures var s := Scanning.Next(tz.input.code, old(tz.input.pos));
            && first == s.token
            && (first.Some? ==> second == first && taken == first && tz.current == None
                                && tz.input.pos == s.pos && tz.errors == old(tz.errors) + s.errors)
            && (first.None? ==> s.pos <= |tz.input.code| && second == Scanning.Next(tz.input.code, s.pos).token)
  {
    first := tz.Peek();
    second := tz.Peek();
    taken := tz.Consume();
  }
}
