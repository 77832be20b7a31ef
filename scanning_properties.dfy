module ScanningProperties {
  import opened Wrappers
  import opened Decimal
  import opened Text
  import opened Cursor
  import opened Tokens
  import opened Scanning

  /**
   * Bounds of a step taken from `p`: the cursor does not move back or past the end, at most one
   * error is appended, and a token lies within what was consumed, which is at least one character.
   */
  predicate StepBounds(code: string, p: nat, s: Step) {
    && p <= s.pos <= |code|
    && |s.errors| <= 1
    && (s.token.Some? ==> p < s.pos && p <= s.token.value.range.start.pos
                          <= s.token.value.range.end.pos <= s.pos)
  }

  /** Away from layout, `_next` consumes at least one character, within the bounds of `StepBounds`. */
  lemma TokenBounds(code: string, p: nat)
    requires p < |code| && !Layout(code, p)
    ensures StepBounds(code, p, Next(code, p)) && p < Next(code, p).pos
  {
    var c := code[p];
    if c == '"' {
      assert Next(code, p) == FromScan(StrScan(code, p));
      StrScanSpec(code, p);
    } else if IsDigit(c) {
      assert Next(code, p) == FromScan(NumScan(code, p));
      NumScanConsumes(code, p);
    } else if IsOperator(c) {
      assert Next(code, p) == FromScan(OpScan(code, p));
      OpScanSpec(code, p);
    } else if IsPunctuation(c) {
      assert Next(code, p) == FromScan(PuncScan(code, p));
    } else if IsIdentStart(c) {
      assert Next(code, p) == FromScan(IdentScan(code, p));
    } else {
      assert Next(code, p) == Step(None, p + 1, [InvalidCharacterError(code, p)]);
    }
  }

  /** Every `_next` call keeps within `StepBounds`. */
  lemma {:induction false} NextBounds(code: string, p: nat)
    requires p <= |code|
    ensures StepBounds(code, p, Next(code, p))
    decreases |code| - p
  {
    if p < |code| {
      var c := code[p];
      if c == '/' && p + 1 == |code| {
        assert Next(code, p) == Step(None, p, []);
      } else if c == '/' && code[p + 1] == '/' {
        assert Next(code, p) == Next(code, LineCommentEnd(code, p + 2));
        NextBounds(code, LineCommentEnd(code, p + 2));
      } else if c == '/' && code[p + 1] == '*' {
        match BlockCommentEnd(code, p + 1)
        case None =>
          assert Next(code, p) == Step(None, |code|, []);
        case Some(k) =>
          assert Next(code, p) == Next(code, k);
          NextBounds(code, k);
      } else if IsSpace(c) {
        assert Next(code, p) == Next(code, p + 1);
        NextBounds(code, p + 1);
      } else {
        TokenBounds(code, p);
      }
    }
  }

  /**
   * The cursor stays put only at the end of input or on a final '/', which `peek(1)?` leaves
   * unconsumed; there `_next` returns no token and no error.
   */
  lemma {:induction false} NextStuck(code: string, p: nat)
    requires p <= |code|
    ensures Next(code, p).pos == p <==> p == |code| || (p + 1 == |code| && code[p] == '/')
    ensures Next(code, p).pos == p ==> Next(code, p) == Step(None, p, [])
    decreases |code| - p
  {
    if p < |code| {
      var c := code[p];
      if c == '/' && p + 1 == |code| {
      } else if c == '/' && code[p + 1] == '/' {
        NextBounds(code, LineCommentEnd(code, p + 2));
      } else if c == '/' && code[p + 1] == '*' {
        match BlockCommentEnd(code, p + 1)
        case None =>
        case Some(k) => NextBounds(code, k);
      } else if IsSpace(c) {
        NextBounds(code, p + 1);
      } else {
        TokenBounds(code, p);
      }
    }
  }

  /** The input is used up as far as `_next` can go: its end, or a final '/'. */
  predicate Exhausted(code: string, q: nat)
    requires q <= |code|
  {
    q == |code| || (q + 1 == |code| && code[q] == '/')
  }

  /** A character no arm of `_next` accepts. */
  predicate Unclassified(c: char) {
    !IsSpace(c) && c != '"' && !IsDigit(c) && !IsOperator(c) && !IsPunctuation(c) && !IsIdentStart(c)
  }

  /** Away from layout, no token comes back only for an invalid character, with its error. */
  lemma TokenNone(code: string, p: nat)
    requires p < |code| && !Layout(code, p)
    ensures var s := Next(code, p);
            s.token.None? ==> s.pos == p + 1 && s.errors == [InvalidCharacterError(code, p)] && Unclassified(code[p])
  {
    var c := code[p];
    if c == '"' {
      assert Next(code, p) == FromScan(StrScan(code, p));
    } else if IsDigit(c) {
      assert Next(code, p) == FromScan(NumScan(code, p));
    } else if IsOperator(c) {
      assert Next(code, p) == FromScan(OpScan(code, p));
    } else if IsPunctuation(c) {
      assert Next(code, p) == FromScan(PuncScan(code, p));
    } else if IsIdentStart(c) {
      assert Next(code, p) == FromScan(IdentScan(code, p));
    } else {
      assert Next(code, p) == Step(None, p + 1, [InvalidCharacterError(code, p)]);
    }
  }

  /**
   * A step without a token either used the input up as far as it can be, with no error, or consumed
   * an invalid character, with an error at its zero-width position.
   */
  predicate NoTokenShape(code: string, s: Step) {
    s.token.None? ==>
      || (s.errors == [] && s.pos <= |code| && Exhausted(code, s.pos))
      || (0 < s.pos <= |code| && s.errors == [InvalidCharacterError(code, s.pos - 1)]
          && Unclassified(code[s.pos - 1]))
  }

  /** No token comes back from `_next` only in the two situations of `NoTokenShape`. */
  lemma {:induction false} NextNone(code: string, p: nat)
    requires p <= |code|
    ensures NoTokenShape(code, Next(code, p))
    decreases |code| - p
  {
    if p < |code| {
      var c := code[p];
      if c == '/' && p + 1 == |code| {
        assert Next(code, p) == Step(None, p, []);
      } else if c == '/' && code[p + 1] == '/' {
        assert Next(code, p) == Next(code, LineCommentEnd(code, p + 2));
        NextNone(code, LineCommentEnd(code, p + 2));
      } else if c == '/' && code[p + 1] == '*' {
        match BlockCommentEnd(code, p + 1)
        case None =>
          assert Next(code, p) == Step(None, |code|, []);
        case Some(k) =>
          assert Next(code, p) == Next(code, k);
          NextNone(code, k);
      } else if IsSpace(c) {
        assert Next(code, p) == Next(code, p + 1);
        NextNone(code, p + 1);
      } else {
        TokenNone(code, p);
      }
    }
  }

  /**
   * The errors a step may record: an unterminated string (with a Str token, at the end of input), a
   * second decimal point (with a Float token over the same range), an invalid character (with no
   * token, at the character just consumed).
   */
  predicate ErrorShape(code: string, s: Step) {
    s.errors != [] ==>
      || (s.errors[0].msg == EndOfStrMessage && s.token.Some? && s.token.value.val.Str? && s.pos == |code|)
      || (s.errors[0].msg == DecimalPointMessage && s.token.Some? && s.token.value.val.Float?
          && s.errors[0].range == s.token.value.range)
      || (s.token.None? && 0 < s.pos <= |code| && s.errors[0] == InvalidCharacterError(code, s.pos - 1))
  }

  /** Away from layout, the errors `_next` records are those of `ErrorShape`. */
  lemma TokenErrors(code: string, p: nat)
    requires p < |code| && !Layout(code, p)
    ensures ErrorShape(code, Next(code, p))
  {
    var c := code[p];
    if c == '"' {
      assert Next(code, p) == FromScan(StrScan(code, p));
      StrScanSpec(code, p);
    } else if IsDigit(c) {
      assert Next(code, p) == FromScan(NumScan(code, p));
      NumScanConsumes(code, p);
      NumExtraDotFloat(code, p);
    } else if IsOperator(c) {
      assert Next(code, p) == FromScan(OpScan(code, p));
    } else if IsPunctuation(c) {
      assert Next(code, p) == FromScan(PuncScan(code, p));
    } else if IsIdentStart(c) {
      assert Next(code, p) == FromScan(IdentScan(code, p));
    } else {
      assert Next(code, p) == Step(None, p + 1, [InvalidCharacterError(code, p)]);
    }
  }

  /** The only errors `_next` records are those of `ErrorShape`. */
  lemma {:induction false} NextErrors(code: string, p: nat)
    requires p <= |code|
    ensures ErrorShape(code, Next(code, p))
    decreases |code| - p
  {
    if p < |code| {
      var c := code[p];
      if c == '/' && p + 1 == |code| {
        assert Next(code, p) == Step(None, p, []);
      } else if c == '/' && code[p + 1] == '/' {
        assert Next(code, p) == Next(code, LineCommentEnd(code, p + 2));
        NextErrors(code, LineCommentEnd(code, p + 2));
      } else if c == '/' && code[p + 1] == '*' {
        match BlockCommentEnd(code, p + 1)
        case None =>
          assert Next(code, p) == Step(None, |code|, []);
        case Some(k) =>
          assert Next(code, p) == Next(code, k);
          NextErrors(code, k);
      } else if IsSpace(c) {
        assert Next(code, p) == Next(code, p + 1);
        NextErrors(code, p + 1);
      } else {
        TokenErrors(code, p);
      }
    }
  }

  /** Spaces, tabs and newlines before a token are skipped without trace. */
  lemma {:induction false} NextSkipsSpaces(code: string, p: nat, q: nat)
    requires p <= q <= |code|
    requires forall k :: p <= k < q ==> IsSpace(code[k])
    ensures Next(code, p) == Next(code, q)
    decreases q - p
  {
    if p < q {
      NextSkipsSpaces(code, p + 1, q);
    }
  }

  /** A line comment is skipped up to and including the next newline. */
  lemma NextSkipsLineComment(code: string, p: nat)
    requires p + 1 < |code| && code[p] == '/' && code[p + 1] == '/'
    ensures var e := LineCommentEnd(code, p + 2);
            && Next(code, p) == Next(code, e)
            && (forall k :: p + 2 <= k < e - 1 ==> code[k] != '\n')
            && (e == |code| || code[e - 1] == '\n')
  {
  }

  /**
   * A block comment is skipped to where its loop resumes; when a '*' is the last character the
   * cursor is left at the end of input and no token comes back.
   */
  lemma NextSkipsBlockComment(code: string, p: nat)
    requires p + 1 < |code| && code[p] == '/' && code[p + 1] == '*'
    ensures BlockCommentEnd(code, p + 1).Some? ==> Next(code, p) == Next(code, BlockCommentEnd(code, p + 1).value)
    ensures BlockCommentEnd(code, p + 1).None? ==> Next(code, p) == Step(None, |code|, [])
  {
  }

  /**
   * The block comment loop from `i` resumes just past the first star-slash at or after `i`, or at
   * the end of input when there is none; it gives up exactly when, before any star-slash, the last
   * character is a '*'.
   */
  lemma {:induction false} BlockCommentEndFirst(code: string, i: nat)
    requires i <= |code|
    ensures match BlockCommentEnd(code, i)
            case Some(k) =>
              && (forall m :: i <= m < k - 2 ==> !(code[m] == '*' && code[m + 1] == '/'))
              && ((i + 2 <= k && code[k - 2] == '*' && code[k - 1] == '/')
                  || (k == |code| && (i == |code| || code[|code| - 1] != '*')))
            case None =>
              && i < |code| && code[|code| - 1] == '*'
              && forall m :: i <= m < |code| - 1 ==> !(code[m] == '*' && code[m + 1] == '/')
    decreases |code| - i
  {
    if i < |code| && !(code[i] == '*' && (i + 1 == |code| || code[i + 1] == '/')) {
      BlockCommentEndFirst(code, i + 1);
    }
  }

  // Only the opening '/' is consumed before the closing star-slash is looked for, so the three
  // characters '/', '*', '/' already make a whole block comment.
  lemma NextShortBlockComment(code: string, p: nat)
    requires p + 2 < |code| && code[p] == '/' && code[p + 1] == '*' && code[p + 2] == '/'
    ensures Next(code, p) == Next(code, p + 3)
  {
  }

  lemma {:induction false} BlockCommentUnclosed(code: string, i: nat)
    requires i <= |code|
    requires forall k :: i <= k < |code| - 1 ==> !(code[k] == '*' && code[k + 1] == '/')
    ensures BlockCommentEnd(code, i) == Some(|code|) || BlockCommentEnd(code, i) == None
    decreases |code| - i
  {
    if i < |code| {
      BlockCommentUnclosed(code, i + 1);
    }
  }

  /** A block comment that is never closed swallows the rest of the input and records no error. */
  lemma UnterminatedBlockComment(code: string, p: nat)
    requires p + 1 < |code| && code[p] == '/' && code[p + 1] == '*'
    requires forall k :: p + 1 <= k < |code| - 1 ==> !(code[k] == '*' && code[k + 1] == '/')
    ensures Next(code, p) == Step(None, |code|, [])
  {
    BlockCommentUnclosed(code, p + 1);
  }
}
