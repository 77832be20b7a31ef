/**
 * The character cursor of the lexer (`InputParser` and `LoC`): the whole source as a sequence of
 * characters, the index of the next character to consume, and the line and column reached so far.
 */
module Cursor {
  import opened Wrappers
  import opened Decimal

  /** A point in the source: absolute character index, 1-based line, 0-based column. */
  datatype LoC = LoC(pos: nat, line: int, col: int)

  /** `line:col`, the core shared by the `Display` of a location and of a range. */
  function PairString(a: int, b: int): string {
    IntToString(a) + ":" + IntToString(b)
  }

  /** Reads back the two numbers of a `PairString` and what follows them. */
  function ReadPair(s: string): Option<(int, int, string)> {
    var a :- ReadInt(s);
    var s1 :- Lit(a.rest, ":");
    var b :- ReadInt(s1);
    Some((a.value, b.value, b.rest))
  }

  lemma ReadPairString(a: int, b: int, rest: string)
    requires rest == [] || !IsDigit(rest[0])
    ensures ReadPair(PairString(a, b) + rest) == Some((a, b, rest))
  {
    var t := IntToString(b) + rest;
    var s := PairString(a, b) + rest;
    assert s == IntToString(a) + (":" + t);
    ReadIntString(a, ":" + t);
    assert ReadInt(s) == Some(Read(a, ":" + t));
    assert Lit(":" + t, ":") == Some(t);
    ReadIntString(b, rest);
    assert ReadInt(t) == Some(Read(b, rest));
  }

  /** The `Display` of a location, `(line:col)`. */
  function LocString(l: LoC): string {
    "(" + PairString(l.line, l.col) + ")"
  }

  /** Reads back the line and column from the text of a location. */
  function ParseLoc(s: string): Option<(int, int)> {
    var s1 :- Lit(s, "(");
    var x :- ReadPair(s1);
    var s2 :- Lit(x.2, ")");
    if s2 == [] then Some((x.0, x.1)) else None
  }

  /** The text of a location determines its line and column. */
  lemma ParseLocString(l: LoC)
    ensures ParseLoc(LocString(l)) == Some((l.line, l.col))
  {
    var s1 := PairString(l.line, l.col) + ")";
    assert LocString(l) == "(" + s1;
    assert Lit(LocString(l), "(") == Some(s1);
    ReadPairString(l.line, l.col, ")");
    assert Lit(")", ")") == Some([]);
  }

  /** Number of newline characters among the first `p` characters of `code`. */
  function Newlines(code: string, p: nat): (n: nat)
    requires p <= |code|
    ensures n <= p
  {
    if p == 0 then 0 else Newlines(code, p - 1) + (if code[p - 1] == '\n' then 1 else 0)
  }

  /** Number of characters before `p` since the last newline before it (all of them when there is none). */
  function ColumnOf(code: string, p: nat): (c: nat)
    requires p <= |code|
    ensures c <= p
  {
    if p == 0 || code[p - 1] == '\n' then 0 else ColumnOf(code, p - 1) + 1
  }

  /** The column counts exactly the characters since the last newline: none of them is a newline, and the one before them is. */
  lemma {:induction false} ColumnOfSpec(code: string, p: nat)
    requires p <= |code|
    ensures var c := ColumnOf(code, p);
            && (forall k :: p - c <= k < p ==> code[k] != '\n')
            && (c < p ==> code[p - c - 1] == '\n')
  {
    if p > 0 && code[p - 1] != '\n' {
      ColumnOfSpec(code, p - 1);
    }
  }

  /** The location reached after consuming the first `p` characters of `code` from a fresh cursor. */
  function LocAt(code: string, p: nat): LoC
    requires p <= |code|
  {
    LoC(p, 1 + Newlines(code, p), ColumnOf(code, p))
  }

  /** Consuming one more character: a newline starts the next line at column 0, anything else moves one column right. */
  lemma LocAtNext(code: string, p: nat)
    requires p < |code|
    ensures var l := LocAt(code, p);
            LocAt(code, p + 1) == if code[p] == '\n' then LoC(p + 1, l.line + 1, 0) else LoC(p + 1, l.line, l.col + 1)
  {
  }

  lemma LocAtStart(code: string)
    ensures LocAt(code, 0) == LoC(0, 1, 0)
  {
  }

  /** Locations along one source are ordered like their positions. */
  lemma {:induction false} LocAtMonotone(code: string, p: nat, q: nat)
    requires p <= q <= |code|
    ensures LocAt(code, p).line <= LocAt(code, q).line
    ensures LocAt(code, p).line == LocAt(code, q).line ==> LocAt(code, p).col <= LocAt(code, q).col
    decreases q - p
  {
    if p < q {
      LocAtMonotone(code, p, q - 1);
      LocAtNext(code, q - 1);
    }
  }

  class InputParser {
    const code: string
    var line: int
    var col: int
    var pos: nat

    /** `line` and `col` always agree with a replay of the characters consumed so far. */
    ghost predicate Valid()
      reads this
    {
      pos <= |code| && LoC(pos, line, col) == LocAt(code, pos)
    }

    constructor (code: string)
      ensures Valid()
      ensures this.code == code && pos == 0 && line == 1 && col == 0
    {
      this.code := code;
      line := 1;
      col := 0;
      pos := 0;
      new;
      LocAtStart(code);
    }

    method Consume() returns (c: Option<char>)
      requires Valid()
      modifies this
      ensures Valid()
      ensures old(pos) == |code| ==> c == None && pos == old(pos) && line == old(line) && col == old(col)
      ensures old(pos) < |code| ==> c == Some(code[old(pos)]) && pos == old(pos) + 1
      ensures old(pos) < |code| ==>
                if code[old(pos)] == '\n' then line == old(line) + 1 && col == 0
                else line == old(line) && col == old(col) + 1
    {
      if IsEof() {
        return None;
      }
      var ch := code[pos];
      LocAtNext(code, pos);
      pos := pos + 1;
      if ch == '\n' {
        line := line + 1;
        col := 0;
      } else {
        col := col + 1;
      }
      c := Some(ch);
    }

    function Peek(am: nat): (r: Option<char>)
      reads this
      ensures r.Some? <==> pos + am < |code|
      ensures r.Some? ==> r.value == code[pos + am]
    {
      if pos + am >= |code| then None else Some(code[pos + am])
    }

    predicate IsEof()
      reads this
      ensures IsEof() <==> Peek(0).None?
    {
      pos >= |code|
    }

    function Loc(): (l: LoC)
      reads this
      requires Valid()
      ensures l == LocAt(code, pos)
    {
      LoC(pos, line, col)
    }

    function LocInc(col: int, line: int): (l: LoC)
      reads this
      requires Valid()
      ensures l.pos == Loc().pos && l.line == Loc().line + line && l.col == Loc().col + col
    {
      LoC(pos, this.line + line, this.col + col)
    }
  }
}
