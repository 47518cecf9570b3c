/** Bytes, 32-bit integers and the tagged-word encodings of compiler.c. */
module CBytes {
  /** `typedef unsigned char byte`. */
  type byte = x: int | 0 <= x < 0x100

  /** `int32_t`. */
  type Int32 = x: int | -0x8000_0000 <= x < 0x8000_0000

  /** `int8_t`. */
  type Int8 = x: int | -0x80 <= x < 0x80

  const TWO_32: int := 0x1_0000_0000

  /** The 32-bit two's-complement pattern of `v`: what a conversion to
      `uint32_t` keeps. */
  function U32(v: int): (u: int)
    ensures 0 <= u < TWO_32
    ensures (u - v) % TWO_32 == 0
  {
    v % TWO_32
  }

  /** The conversion of a 32-bit pattern, or of any integer, to `int32_t`
      (two's-complement wrap-around). */
  function Wrap32(v: int): (r: Int32)
    ensures (r - v) % TWO_32 == 0
  {
    var u := v % TWO_32;
    if u < 0x8000_0000 then u else u - TWO_32
  }

  /** A conversion to `int8_t`: the low byte, read as signed. */
  function ToInt8(v: int): (r: Int8)
    ensures (r - v) % 0x100 == 0
  {
    var u := v % 0x100;
    if u < 0x80 then u else u - 0x100
  }

  /** A conversion to `byte`: the low eight bits. */
  function ToByte(v: int): byte {
    v % 0x100
  }

  /** `256^i` for the four byte positions of a 32-bit word. */
  function Scale(i: nat): (r: nat)
    requires i < 4
    ensures r >= 1
  {
    if i == 0 then 1 else if i == 1 then 0x100 else if i == 2 then 0x1_0000 else 0x100_0000
  }

  /** `(value >> (i * 8)) & 0xff`: byte `i` of the value's 32-bit pattern
      (the arithmetic shift of a negative `int32_t` and the mask give the
      same bits as shifting its pattern). */
  function ByteOf(value: int, i: nat): byte
    requires i < 4
  {
    U32(value) / Scale(i) % 0x100
  }

  /** The four little-endian bytes `Buffer_write32` writes. */
  function Le32(value: int): seq<byte> {
    [ByteOf(value, 0), ByteOf(value, 1), ByteOf(value, 2), ByteOf(value, 3)]
  }

  /** Four little-endian bytes read back as an unsigned word. */
  function DecodeLe32(b: seq<byte>): int
    requires |b| == 4
  {
    b[0] as int + 0x100 * (b[1] as int) + 0x1_0000 * (b[2] as int) + 0x100_0000 * (b[3] as int)
  }

  /** Decoding the four bytes gives back the value's 32-bit pattern. */
  lemma Le32RoundTrip(value: int)
    ensures |Le32(value)| == 4
    ensures DecodeLe32(Le32(value)) == U32(value)
  {
    var u := U32(value);
    var b0, r0 := u % 0x100, u / 0x100;
    var b1, r1 := r0 % 0x100, r0 / 0x100;
    var b2, b3 := r1 % 0x100, r1 / 0x100;
    assert u == b0 + 0x100 * (b1 + 0x100 * (b2 + 0x100 * b3));
    assert u / 0x1_0000 == r1;
    assert u / 0x100_0000 == b3;
  }

  /** A 32-bit value is recovered exactly from its bytes, so different
      `int32_t` values write different bytes. */
  lemma Le32Signed(value: Int32)
    ensures Wrap32(DecodeLe32(Le32(value))) == value
  {
    Le32RoundTrip(value);
  }

  /** Two integers write the same four bytes exactly when they agree
      modulo 2^32. */
  lemma Le32Injective(a: int, b: int)
    ensures Le32(a) == Le32(b) <==> U32(a) == U32(b)
  {
    Le32RoundTrip(a);
    Le32RoundTrip(b);
  }

  const FIXNUM_SHIFT: nat := 2
  const FIXNUM_MASK: int := 0x3
  const FIXNUM_TAG: int := 0x0
  const PAIR_TAG: int := 0x1
  const CHAR_SHIFT: nat := 8
  const CHAR_TAG: int := 0xf
  const CHAR_MASK: int := 0xff
  const BOOL_SHIFT: nat := 7
  const BOOL_TAG: int := 0x1f
  const BOOL_MASK: int := 0xf
  const NIL_TAG: int := 0x2f
  const WORD_SIZE: int := 8
  const BITS_PER_BYTE: nat := 8

  /** The range `encodeImmediateFixnum` asserts; the two extreme values are
      refused. */
  predicate FixnumInRange(f: int) {
    -0x8000_0000 < f < 0x7fff_ffff
  }

  /** `encodeImmediateFixnum`: `f << 2` in `int32_t`, which drops the two
      high bits of a value outside the 30-bit fixnum range. */
  function EncodeFixnum(f: Int32): Int32
    requires FixnumInRange(f)
  {
    Wrap32(f * 4)
  }

  /** `encodeImmediateBool`. */
  function EncodeBool(b: bool): Int32 {
    (if b then 1 else 0) * 0x80 + BOOL_TAG
  }

  /** `encodeImmediateChar` of a (signed) `char`. */
  function EncodeChar(c: Int8): Int32 {
    c * 0x100 + CHAR_TAG
  }

  /** Every fixnum word has its two tag bits clear, and a fixnum within the
      30-bit range is recovered by shifting back. */
  lemma FixnumWord(f: Int32)
    requires FixnumInRange(f)
    ensures U32(EncodeFixnum(f)) % 4 == FIXNUM_TAG
    ensures -0x2000_0000 <= f < 0x2000_0000 ==> EncodeFixnum(f) == 4 * f && EncodeFixnum(f) / 4 == f
  {
  }

  /** The two booleans are 0x9f and 0x1f; both carry the boolean tag in
      their low five bits and differ only in bit 7. */
  lemma BoolWords()
    ensures EncodeBool(true) == 0x9f && EncodeBool(false) == 0x1f
    ensures forall b: bool {:trigger EncodeBool(b)} :: EncodeBool(b) % 0x20 == BOOL_TAG && (EncodeBool(b) / 0x80 == 1 <==> b)
  {
  }

  /** A character word carries the character tag in its low byte and the
      character in the bytes above it. */
  lemma CharWord(c: Int8)
    ensures U32(EncodeChar(c)) % 0x100 == CHAR_TAG
    ensures (EncodeChar(c) - CHAR_TAG) / 0x100 == c
    ensures c >= 0 ==> 0 <= EncodeChar(c) < 0x8000
  {
  }

  /** The conversion to `int32_t` keeps the 32-bit pattern, so the bytes
      written for a value and for its `int32_t` conversion agree. */
  lemma Le32Wrap(v: int)
    ensures U32(Wrap32(v)) == U32(v) && Le32(Wrap32(v)) == Le32(v)
  {
  }

  /** `encode_disp`: a signed 8-bit displacement as its byte. */
  function EncodeDisp(disp: Int8): (b: byte)
    ensures ToInt8(b) == disp
  {
    if disp >= 0 then disp else 0x100 + disp
  }

  /** `encode_disp32`: a signed 32-bit displacement as its unsigned pattern. */
  function EncodeDisp32(disp: Int32): (u: int)
    ensures 0 <= u < TWO_32 && u == U32(disp) && Wrap32(u) == disp
  {
    if disp >= 0 then disp else TWO_32 + disp
  }
}
