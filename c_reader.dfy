/** The s-expression reader of compiler.c (`Reader_*`): specification
    functions for what each reader returns, and the imperative readers,
    whose `while` loops advance the position, proved against them. The
    input is a NUL-terminated C string: `input` holds its characters and
    every position at or past its end reads as NUL. (No reader moves past
    a NUL, so one inside `input` ends the string just as the end does.) */
module CReader {
  import opened Util
  import opened CBytes
  import opened CAst

  /** `input[pos]`, with the terminator past the end. */
  function CharAt(input: string, pos: nat): char {
    if pos < |input| then input[pos] else '\0'
  }

  /** `isspace`, `isdigit` and `isalpha` in the C locale. */
  predicate IsSpace(c: char) {
    c == ' ' || '\t' <= c <= '\r'
  }

  predicate IsDigit(c: char) {
    '0' <= c <= '9'
  }

  predicate IsAlpha(c: char) {
    'a' <= c <= 'z' || 'A' <= c <= 'Z'
  }

  /** `isatomchar`. */
  predicate IsAtomChar(c: char) {
    IsAlpha(c) || c == '+' || c == '-'
  }

  const ATOM_MAX: nat := 32

  /** The value of a run of decimal digits. */
  function Decimal(s: string): nat
    requires forall i :: 0 <= i < |s| ==> IsDigit(s[i])
    decreases |s|
  {
    if |s| == 0 then 0
    else
      assert IsDigit(s[|s| - 1]);
      Decimal(s[..|s| - 1]) * 10 + (s[|s| - 1] as int - '0' as int)
  }

  /** The end of the digit run starting at `pos`. */
  function DigitsEnd(input: string, pos: nat): (e: nat)
    requires pos <= |input|
    ensures pos <= e <= |input| && !IsDigit(CharAt(input, e))
    ensures forall i :: pos <= i < e ==> IsDigit(input[i])
    decreases |input| - pos
  {
    if IsDigit(CharAt(input, pos)) then DigitsEnd(input, pos + 1) else pos
  }

  /** The end of the atom starting at `pos`: at most `limit` atom
      characters. */
  function AtomEnd(input: string, pos: nat, limit: nat): (e: nat)
    requires pos <= |input|
    ensures pos <= e <= |input| && e - pos <= limit
    ensures forall i :: pos <= i < e ==> IsAtomChar(input[i])
    ensures e - pos == limit || !IsAtomChar(CharAt(input, e))
    decreases limit
  {
    if limit == 0 || !IsAtomChar(CharAt(input, pos)) then pos else AtomEnd(input, pos + 1, limit - 1)
  }

  /** The first position at or after `pos` that is not whitespace. */
  function SkipSpace(input: string, pos: nat): (e: nat)
    requires pos <= |input|
    ensures pos <= e <= |input| && !IsSpace(CharAt(input, e))
    ensures forall i :: pos <= i < e ==> IsSpace(input[i])
    decreases |input| - pos
  {
    if IsSpace(CharAt(input, pos)) then SkipSpace(input, pos + 1) else pos
  }

  /** What a reader returns: a node and the position after it, `NULL`, or
      an abort by a failed assertion. */
  datatype ReadResult = Parsed(node: Node, next: nat) | Null | Aborted

  /** `Reader_read_number`: the digit run as an `int`, which wraps around
      on overflow. */
  function ReadNumber(input: string, pos: nat): (r: ReadResult)
    requires pos <= |input|
    ensures r.Parsed? && r.next == DigitsEnd(input, pos)
  {
    var e := DigitsEnd(input, pos);
    Parsed(Fixnum(Wrap32(Decimal(input[pos..e]))), e)
  }

  /** `Reader_read_atom`: at most `ATOM_MAX` atom characters. */
  function ReadAtom(input: string, pos: nat): (r: ReadResult)
    requires pos <= |input|
    ensures r.Parsed? && r.next == AtomEnd(input, pos, ATOM_MAX)
  {
    var e := AtomEnd(input, pos, ATOM_MAX);
    Parsed(Atom(input[pos..e]), e)
  }

  /** `Reader_read_rec`: skip whitespace, then a number, an atom or a list
      by its first character; `NULL` for any other character. */
  function ReadRec(input: string, pos: nat): (r: ReadResult)
    requires pos <= |input|
    ensures r.Parsed? ==> pos < r.next <= |input|
    decreases |input| - pos, 0
  {
    var p := SkipSpace(input, pos);
    var c := CharAt(input, p);
    if IsDigit(c) then ReadNumber(input, p)
    else if IsAtomChar(c) then ReadAtom(input, p)
    else if c == '(' then ReadList(input, p + 1)
    else Null
  }

  /** `Reader_read_list`, after the opening parenthesis: `nil` at `)`,
      otherwise an element and the rest of the list, both asserted to be
      there. */
  function ReadList(input: string, pos: nat): (r: ReadResult)
    requires pos <= |input|
    ensures r.Parsed? ==> pos < r.next <= |input|
    ensures !r.Null?
    decreases |input| - pos, 1
  {
    if CharAt(input, pos) == ')' then Parsed(Nil, pos + 1)
    else
      match ReadRec(input, pos)
      case Parsed(car, p) =>
        (match ReadList(input, p)
         case Parsed(cdr, q) => Parsed(Pair(car, cdr), q)
         case _ => Aborted)
      case _ => Aborted
  }

  /** `Reader_read`: one expression from the start of the string. */
  function Read(input: string): ReadResult {
    ReadRec(input, 0)
  }

  // Arithmetic behind the wrap-around of `Reader_read_number`.

  /** Adding a multiple of 2^32 does not change the `int32_t` an integer
      converts to. */
  lemma Wrap32Shift(b: int, j: int)
    ensures Wrap32(b + j * TWO_32) == Wrap32(b)
  {
    assert (b + j * TWO_32) % TWO_32 == b % TWO_32;
  }

  /** `value *= 10; value += d` on a wrapped `int` gives the wrapped value
      of the exact result. */
  lemma Wrap32Step(x: int, d: int)
    ensures Wrap32(Wrap32(Wrap32(x) * 10) + d) == Wrap32(x * 10 + d)
  {
    var w := Wrap32(x);
    var k := (w - x) / TWO_32;
    assert w == x + k * TWO_32;
    assert w * 10 == x * 10 + (k * 10) * TWO_32;
    Wrap32Shift(x * 10, k * 10);
    var y := Wrap32(w * 10);
    assert y == Wrap32(x * 10);
    var j := (y - x * 10) / TWO_32;
    assert y + d == (x * 10 + d) + j * TWO_32;
    Wrap32Shift(x * 10 + d, j);
  }

  /** A value below 2^31 is read exactly. */
  lemma Wrap32Exact(v: int)
    requires 0 <= v < 0x8000_0000
    ensures Wrap32(v) == v
  {
  }

  /** One more digit extends the value of a digit run. */
  lemma {:induction false} DecimalSnoc(input: string, pos: nat, p: nat)
    requires pos <= p < |input| && IsDigit(input[p])
    requires forall i :: pos <= i < p ==> IsDigit(input[i])
    ensures Decimal(input[pos..p + 1]) == Decimal(input[pos..p]) * 10 + (input[p] as int - '0' as int)
  {
    assert input[pos..p + 1][..p - pos] == input[pos..p];
  }

  // The imperative readers.

  /** `Reader_read_number`. */
  method ReadNumberLoop(input: string, pos: nat) returns (node: Node, end: nat)
    requires pos <= |input|
    ensures ReadNumber(input, pos) == Parsed(node, end)
  {
    var value: Int32 := 0;
    end := pos;
    while IsDigit(CharAt(input, end))
      invariant pos <= end <= |input|
      invariant forall i :: pos <= i < end ==> IsDigit(input[i])
      invariant value == Wrap32(Decimal(input[pos..end]))
      decreases |input| - end
    {
      var c := input[end];
      DecimalSnoc(input, pos, end);
      Wrap32Step(Decimal(input[pos..end]), c as int - '0' as int);
      value := Wrap32(value * 10);
      value := Wrap32(value + (c as int - '0' as int));
      end := end + 1;
    }
    node := Fixnum(value);
  }

  /** `Reader_read_atom`: the characters go through a buffer of
      `ATOM_MAX + 1` slots, each stored before the loop looks at it. */
  method ReadAtomLoop(input: string, pos: nat) returns (node: Node, end: nat)
    requires pos <= |input|
    ensures ReadAtom(input, pos) == Parsed(node, end)
  {
    var buf := new char[ATOM_MAX + 1];
    var length := 0;
    end := pos;
    while length < ATOM_MAX
      invariant length <= ATOM_MAX && end == pos + length <= |input|
      invariant buf[..length] == input[pos..end]
      invariant AtomEnd(input, pos, ATOM_MAX) == AtomEnd(input, end, ATOM_MAX - length)
      decreases ATOM_MAX - length
    {
      buf[length] := CharAt(input, end);
      if !IsAtomChar(buf[length]) {
        break;
      }
      assert buf[..length + 1] == buf[..length] + [input[end]];
      end := end + 1;
      length := length + 1;
    }
    buf[length] := '\0';
    node := Atom(buf[..length]);
  }

  /** The whitespace loop at the start of `Reader_read_rec`. */
  method SkipSpaceLoop(input: string, pos: nat) returns (end: nat)
    requires pos <= |input|
    ensures end == SkipSpace(input, pos)
  {
    end := pos;
    while IsSpace(CharAt(input, end))
      invariant pos <= end <= |input| && SkipSpace(input, end) == SkipSpace(input, pos)
      decreases |input| - end
    {
      end := end + 1;
    }
  }

  /** `Reader_read_rec`; its assertions (inside lists) must hold. */
  method ReadRecRec(input: string, pos: nat) returns (r: ReadResult)
    requires pos <= |input| && !ReadRec(input, pos).Aborted?
    ensures r == ReadRec(input, pos)
    decreases |input| - pos, 0
  {
    var p := SkipSpaceLoop(input, pos);
    var c := CharAt(input, p);
    if IsDigit(c) {
      var node, end := ReadNumberLoop(input, p);
      return Parsed(node, end);
    }
    if IsAtomChar(c) {
      var node, end := ReadAtomLoop(input, p);
      return Parsed(node, end);
    }
    if c == '(' {
      r := ReadListRec(input, p + 1);
      return;
    }
    return Null;
  }

  /** `Reader_read_list`; the element and the rest must be there. */
  method ReadListRec(input: string, pos: nat) returns (r: ReadResult)
    requires pos <= |input| && !ReadList(input, pos).Aborted?
    ensures r == ReadList(input, pos)
    decreases |input| - pos, 1
  {
    if CharAt(input, pos) == ')' {
      return Parsed(Nil, pos + 1);
    }
    var car := ReadRecRec(input, pos);
    var cdr := ReadListRec(input, car.next);
    return Parsed(Pair(car.node, cdr.node), cdr.next);
  }

  /** `Reader_read`. */
  method ReadString(input: string) returns (r: ReadResult)
    requires !Read(input).Aborted?
    ensures r == Read(input)
  {
    r := ReadRecRec(input, 0);
  }
}
