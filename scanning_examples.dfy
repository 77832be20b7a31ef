/** A worked input for the scanner, one `_next` call at a time. */
module ScanningExamples {
  import opened Wrappers
  import opened Decimal
  import opened Cursor
  import opened Tokens
  import opened Scanning

  const Chain: string := "a?.b"

  lemma ChainFirst()
    ensures Next(Chain, 0).token.Some? && Next(Chain, 0).token.value.val == Var("a") && Next(Chain, 0).pos == 1
  {
    assert Chain[0] == 'a' && Chain[1] == '?';
    assert !IsDigit('a') && !IsSpace('a') && !IsOperator('a') && !IsPunctuation('a') && IsIdentStart('a');
    assert Next(Chain, 0) == FromScan(IdentScan(Chain, 0));
    assert !IsIdentChar('?');
    assert IdentScan(Chain, 0).pos == 1;
    assert Chain[0..1] == "a";
    assert "a" !in Keywords;
  }

  lemma ChainSecond()
    ensures Next(Chain, 1).token.Some? && Next(Chain, 1).token.value.val == Op("?") && Next(Chain, 1).pos == 2
  {
    assert Chain[1] == '?';
    assert !IsDigit('?') && !IsSpace('?') && IsOperator('?');
    assert Next(Chain, 1) == FromScan(OpScan(Chain, 1));
    assert Chain[1..1] == [] && !IsStandalone([]);
    assert OpEnd(Chain, 1, 1) == OpEnd(Chain, 1, 2);
    assert Chain[1..2] == "?" && IsStandalone("?");
    assert OpEnd(Chain, 1, 2) == 2;
  }

  lemma ChainThird()
    ensures Next(Chain, 2).token.Some? && Next(Chain, 2).token.value.val == Op(".") && Next(Chain, 2).pos == 3
  {
    assert Chain[2] == '.' && Chain[3] == 'b';
    assert !IsDigit('.') && !IsSpace('.') && IsOperator('.');
    assert Next(Chain, 2) == FromScan(OpScan(Chain, 2));
    assert Chain[2..2] == [] && !IsStandalone([]);
    assert OpEnd(Chain, 2, 2) == OpEnd(Chain, 2, 3);
    assert Chain[2..3] == "." && !IsStandalone(".");
    assert !IsOperator('b');
    assert OpEnd(Chain, 2, 3) == 3;
  }

  lemma ChainFourth()
    ensures Next(Chain, 3).token.Some? && Next(Chain, 3).token.value.val == Var("b") && Next(Chain, 3).pos == 4
  {
    assert Chain[3] == 'b';
    assert !IsDigit('b') && !IsSpace('b') && !IsOperator('b') && !IsPunctuation('b') && IsIdentStart('b');
    assert Next(Chain, 3) == FromScan(IdentScan(Chain, 3));
    assert IdentScan(Chain, 3).pos == 4;
    assert Chain[3..4] == "b";
    assert "b" !in Keywords;
  }

  /**
   * `a?.b` scans as `Var a`, `Op ?`, `Op .`, `Var b`: the standalone '?' ends its own operator
   * token, so the '.' after it starts the next one.
   */
  lemma OptionalChain()
    ensures Next(Chain, 0).token.Some? && Next(Chain, 0).token.value.val == Var("a") && Next(Chain, 0).pos == 1
    ensures Next(Chain, 1).token.Some? && Next(Chain, 1).token.value.val == Op("?") && Next(Chain, 1).pos == 2
    ensures Next(Chain, 2).token.Some? && Next(Chain, 2).token.value.val == Op(".") && Next(Chain, 2).pos == 3
    ensures Next(Chain, 3).token.Some? && Next(Chain, 3).token.value.val == Var("b") && Next(Chain, 3).pos == 4
    ensures Next(Chain, 4) == Step(None, 4, [])
  {
    ChainFirst();
    ChainSecond();
    ChainThird();
    ChainFourth();
  }
}
