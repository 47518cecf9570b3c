/** The values the text-emitting compiler (compiler.py) receives, and the
    tagged-word encoding of its immediates (`imm`, `is_immediate`). */
module PyValues {
  import opened Util

  /** The Python objects that make up a program tree: booleans, integers,
      strings (one-character strings are characters), lists, and `Var`
      nodes naming a variable. */
  datatype PyVal =
    | PBool(b: bool)
    | PInt(i: int)
    | PStr(s: string)
    | PList(items: seq<PyVal>)
    | PVar(name: string)

  /** The exceptions the compiler can raise. */
  datatype PyError = ValueError | TypeError | KeyError

  datatype Result<+T> = Ok(value: T) | Err(error: PyError)

  const FIXNUM_SHIFT: nat := 2
  const FIXNUM_MASK := 0x3
  const CHAR_SHIFT: nat := 8
  const CHAR_TAG := 0x0f
  const BOOL_SHIFT: nat := 7
  const BOOL_TAG := 0x1f
  const BOOL_MASK := 0x7f
  const NIL_TAG := 0x2f

  /** `x << k` on Python's unbounded integers. */
  function Shl(x: int, k: nat): int {
    x * Pow2(k)
  }

  /** `x & (2^k - 1)` on Python's unbounded integers: Python's `&` sees a
      negative number in infinite two's complement, so the low k bits are
      the Euclidean remainder. */
  function LowBits(x: int, k: nat): (r: int)
    ensures 0 <= r < Pow2(k)
  {
    x % Pow2(k)
  }

  /** The masks are the low-bit masks just under their shifts. */
  lemma MasksMatchShifts()
    ensures FIXNUM_MASK == Pow2(FIXNUM_SHIFT) - 1
    ensures BOOL_MASK == Pow2(BOOL_SHIFT) - 1
  {
    assert Pow2(2) == 4;
    assert Pow2(7) == 128 by {
      assert Pow2(3) == 8;
      assert Pow2(5) == 32;
    }
  }

  /** `is_immediate`: any bool, int or str (a str of any length), or the
      empty list. */
  predicate IsImmediate(x: PyVal) {
    x.PBool? || x.PInt? || x.PStr? || x == PList([])
  }

  /** Python truthiness, used by `if not bindings`. */
  predicate Truthy(x: PyVal) {
    match x
    case PBool(b) => b
    case PInt(n) => n != 0
    case PStr(s) => s != ""
    case PList(items) => items != []
    case PVar(_) => true
  }

  /** `(b << BOOL_SHIFT) | BOOL_TAG`: the shifted boolean has its low seven
      bits clear, so or-ing in the seven-bit tag adds it. */
  function ImmBool(b: bool): int {
    Shl(if b then 1 else 0, BOOL_SHIFT) + BOOL_TAG
  }

  /** `(ord(c) << CHAR_SHIFT) | CHAR_TAG`, with the same reasoning. */
  function ImmChar(c: char): int {
    Shl(c as int, CHAR_SHIFT) + CHAR_TAG
  }

  /** `imm`: a non-immediate raises ValueError; a bool is tested before an
      int; `ord` of a string that is not one character long raises TypeError. */
  function Imm(x: PyVal): Result<int> {
    if !IsImmediate(x) then Err(ValueError)
    else match x
      case PBool(b) => Ok(ImmBool(b))
      case PInt(n) => Ok(Shl(n, FIXNUM_SHIFT))
      case PStr(s) => if |s| == 1 then Ok(ImmChar(s[0])) else Err(TypeError)
      case PList(_) => Ok(NIL_TAG)
  }

  /** Which inputs `imm` accepts, and the tag each accepted kind carries:
      ints have their two low bits clear, bools carry the boolean tag in the
      seven low bits, chars the char tag in the eight low bits, and the empty
      list is the nil constant. */
  lemma ImmEncoding(x: PyVal)
    ensures !IsImmediate(x) ==> Imm(x) == Err(ValueError)
    ensures x.PStr? ==> (Imm(x).Ok? <==> |x.s| == 1)
    ensures x.PStr? && Imm(x).Err? ==> Imm(x).error == TypeError
    ensures x.PBool? || x.PInt? || x == PList([]) ==> Imm(x).Ok?
    ensures x.PInt? ==> LowBits(Imm(x).value, FIXNUM_SHIFT) == 0
    ensures x.PBool? ==> LowBits(Imm(x).value, BOOL_SHIFT) == BOOL_TAG
    ensures x.PStr? && Imm(x).Ok? ==> LowBits(Imm(x).value, CHAR_SHIFT) == CHAR_TAG
    ensures x == PList([]) ==> Imm(x) == Ok(NIL_TAG)
  {
    assert Pow2(2) == 4;
    assert Pow2(7) == 128 by { assert Pow2(4) == 16; }
    assert Pow2(8) == 256;
    match x
    case PInt(n) => FixnumWordBits(n);
    case PStr(s) => if |s| == 1 { CharWordBits(s[0] as int); }
    case _ =>
  }

  /** What `integer?` computes at run time: `and rax, FIXNUM_MASK` then
      `cmp rax, 0`. */
  predicate IsFixnumWord(w: int) {
    LowBits(w, FIXNUM_SHIFT) == 0
  }

  /** What `boolean?` computes at run time: `and rax, BOOL_MASK` then
      `cmp rax, BOOL_TAG`. */
  predicate IsBoolWord(w: int) {
    LowBits(w, BOOL_SHIFT) == BOOL_TAG
  }

  /** A word whose encoded character is a Unicode scalar value. */
  predicate IsScalar(v: int) {
    (0 <= v < 0xD800) || (0xE000 <= v < 0x11_0000)
  }

  /** Reads an encoded word back, class by class, using only the tags. */
  function DecodeImm(w: int): Option<PyVal> {
    if LowBits(w, FIXNUM_SHIFT) == 0 then Some(PInt(w / Pow2(FIXNUM_SHIFT)))
    else if LowBits(w, BOOL_SHIFT) == BOOL_TAG && (w == ImmBool(false) || w == ImmBool(true)) then
      Some(PBool(w == ImmBool(true)))
    else if LowBits(w, CHAR_SHIFT) == CHAR_TAG && IsScalar(w / Pow2(CHAR_SHIFT)) then
      Some(PStr([(w / Pow2(CHAR_SHIFT)) as char]))
    else if w == NIL_TAG then Some(PList([]))
    else None
  }

  /** An encoded char's word: its two low bits are 3 and its seven low bits
      are the char tag, and shifting right recovers the code point. */
  lemma CharWordBits(c: int)
    ensures (c * 256 + 15) % 4 == 3
    ensures (c * 256 + 15) % 128 == 15
    ensures (c * 256 + 15) % 256 == 15 && (c * 256 + 15) / 256 == c
  {
  }

  /** A shifted int never carries the boolean tag. */
  lemma FixnumWordBits(n: int)
    ensures (n * 4) % 4 == 0 && (n * 4) / 4 == n
    ensures (n * 4) % 128 != 31
  {
  }

  /** The encoding is unambiguous: every immediate `imm` accepts decodes
      back to itself from its tag bits alone. */
  lemma ImmRoundTrip(x: PyVal)
    requires Imm(x).Ok?
    ensures DecodeImm(Imm(x).value) == Some(x)
  {
    assert Pow2(2) == 4;
    assert Pow2(7) == 128 by { assert Pow2(4) == 16; }
    assert Pow2(8) == 256;
    match x
    case PBool(b) =>
    case PInt(n) =>
      FixnumWordBits(n);
    case PStr(s) =>
      CharWordBits(s[0] as int);
      assert s == [s[0]];
    case PList(_) =>
  }

  /** The tag tests of `integer?` and `boolean?` agree with `imm`: an encoded
      word passes `integer?` exactly when it encodes an int and passes
      `boolean?` exactly when it encodes a bool; in particular encoded chars
      and the empty list fail both. */
  lemma TypePredicatesAgree(x: PyVal)
    requires Imm(x).Ok?
    ensures IsFixnumWord(Imm(x).value) <==> x.PInt?
    ensures IsBoolWord(Imm(x).value) <==> x.PBool?
  {
    assert Pow2(2) == 4;
    assert Pow2(7) == 128 by { assert Pow2(4) == 16; }
    assert Pow2(8) == 256;
    match x
    case PBool(b) =>
    case PInt(n) =>
      FixnumWordBits(n);
    case PStr(s) =>
      CharWordBits(s[0] as int);
    case PList(_) =>
  }
}
