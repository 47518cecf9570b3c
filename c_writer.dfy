/** The `BufferWriter` of compiler.c: a cursor over a fixed-length code
    buffer, the byte and word writes, forward-jump backpatching and one
    method per instruction encoder. */
module CWriter {
  import opened CBytes
  import opened CX86

  /** `b1`/`p1` is `b0`/`p0` with `code` written at the cursor: the bytes
      before the old cursor are kept, `code` follows them, the cursor moved
      past it, and the bytes after the new cursor are untouched. */
  ghost predicate Extended(b0: seq<byte>, p0: nat, code: seq<byte>, b1: seq<byte>, p1: nat) {
    |b1| == |b0| && p1 == p0 + |code| <= |b1|
    && b1[..p1] == b0[..p0] + code && b1[p1..] == b0[p1..]
  }

  /** Two writes in a row are one write of both. */
  lemma {:induction false} ExtendedTrans(b0: seq<byte>, p0: nat, c1: seq<byte>, b1: seq<byte>, p1: nat,
                                         c2: seq<byte>, b2: seq<byte>, p2: nat)
    requires Extended(b0, p0, c1, b1, p1) && Extended(b1, p1, c2, b2, p2)
    ensures Extended(b0, p0, c1 + c2, b2, p2)
  {
    calc {
      b2[..p2];
      b1[..p1] + c2;
      { assert b1[..p1] == b0[..p0] + c1; }
      b0[..p0] + c1 + c2;
    }
    assert b2[p2..] == b1[p2..] by {
      assert b1[p1..][p2 - p1..] == b1[p2..];
      assert b2[p1..][p2 - p1..] == b2[p2..];
    }
    assert b1[p2..] == b0[p2..] by {
      assert b1[p1..][p2 - p1..] == b1[p2..];
      assert b0[p1..][p2 - p1..] == b0[p2..];
    }
  }

  /** `b` with the four bytes at `at` replaced by `word`. */
  function Patch(b: seq<byte>, at: nat, word: seq<byte>): (r: seq<byte>)
    requires |word| == 4 && at + 4 <= |b|
    ensures |r| == |b|
  {
    b[..at] + word + b[at + 4..]
  }

  /** A patch writes exactly its four bytes and changes no other byte. */
  lemma PatchOnly(b: seq<byte>, at: nat, word: seq<byte>)
    requires |word| == 4 && at + 4 <= |b|
    ensures Patch(b, at, word)[at..at + 4] == word
    ensures forall i :: 0 <= i < |b| && !(at <= i < at + 4) ==> Patch(b, at, word)[i] == b[i]
  {
  }

  /** One more byte of a patch in progress. */
  lemma PatchStep(b: seq<byte>, at: nat, word: seq<byte>, i: nat)
    requires i < |word| && at + |word| <= |b|
    ensures (b[..at] + word[..i] + b[at + i..])[at + i := word[i]] == b[..at] + word[..i + 1] + b[at + i + 1..]
  {
    assert word[..i + 1] == word[..i] + [word[i]];
  }

  /** Backpatching a placeholder word inside written code is writing the
      code with the patched word in its place. */
  lemma {:induction false} PatchSplice(b0: seq<byte>, p0: nat, x: seq<byte>, placeholder: seq<byte>, y: seq<byte>,
                                       word: seq<byte>, b1: seq<byte>, p1: nat)
    requires |placeholder| == 4 && |word| == 4
    requires Extended(b0, p0, x + placeholder + y, b1, p1)
    ensures p0 + |x| + 4 <= |b1|
    ensures Extended(b0, p0, x + word + y, Patch(b1, p0 + |x|, word), p1)
  {
    var at := p0 + |x|;
    var r := Patch(b1, at, word);
    assert b1[..at] == b0[..p0] + x by {
      assert b1[..p1][..at] == b1[..at];
    }
    assert b1[at + 4..p1] == y by {
      assert b1[..p1][at + 4..] == b1[at + 4..p1];
    }
    calc {
      r[..p1];
      b1[..at] + word + b1[at + 4..p1];
      b0[..p0] + x + word + y;
    }
    assert r[p1..] == b1[p1..];
  }

  /** A backpatch below the cursor commutes with a later write. */
  lemma {:induction false} PatchExtended(b0: seq<byte>, p0: nat, code: seq<byte>, b1: seq<byte>, p1: nat,
                                         at: nat, word: seq<byte>)
    requires Extended(b0, p0, code, b1, p1) && |word| == 4 && at + 4 <= p0
    ensures Extended(Patch(b0, at, word), p0, code, Patch(b1, at, word), p1)
  {
    var r0 := Patch(b0, at, word);
    var r1 := Patch(b1, at, word);
    assert b1[..p0] == b0[..p0] by {
      assert b1[..p1][..p0] == b1[..p0];
    }
    assert r1[..p0] == r0[..p0] by {
      assert r1[..p0] == b1[..at] + word + b1[at + 4..p0];
      assert r0[..p0] == b0[..at] + word + b0[at + 4..p0];
      assert b1[..at] == b1[..p0][..at] && b0[..at] == b0[..p0][..at];
      assert b1[at + 4..p0] == b1[..p0][at + 4..] && b0[at + 4..p0] == b0[..p0][at + 4..];
    }
    assert r1[..p1] == r1[..p0] + b1[p0..p1] by {
      assert r1[p0..p1] == b1[p0..p1];
    }
    assert b1[p0..p1] == code by {
      assert b1[..p1][p0..] == b1[p0..p1];
    }
    assert r1[p1..] == b1[p1..] && r0[p1..] == b0[p1..];
  }

  /** The low-level buffer and its cursor. The buffer is at most 2^31 bytes
      long, so every position the compiler passes as an `int32_t` is
      exact. */
  class BufferWriter {
    const buf: array<byte>
    var pos: nat
    /** The buffer's bytes, which the contracts speak about. */
    ghost var contents: seq<byte>

    ghost predicate Valid()
      reads this, buf
    {
      pos <= buf.Length < 0x8000_0000 && contents == buf[..]
    }

    /** `BufferWriter_init`: the cursor starts at the buffer's first byte. */
    constructor (buffer: array<byte>)
      requires buffer.Length < 0x8000_0000
      ensures Valid() && buf == buffer && pos == 0
    {
      buf := buffer;
      pos := 0;
      contents := buffer[..];
    }

    /** `Buffer_write8`: the buffer must have room (it is asserted). */
    method Write8(b: byte)
      requires Valid() && pos < buf.Length
      modifies this, buf
      ensures Valid() && pos == old(pos) + 1
      ensures contents == old(contents)[old(pos) := b]
      ensures Extended(old(contents), old(pos), [b], contents, pos)
    {
      buf[pos] := b;
      contents := contents[pos := b];
      pos := pos + 1;
    }

    /** `Buffer_write_arr`: the bytes of `arr`, in order. */
    method WriteArr(arr: seq<byte>)
      requires Valid() && pos + |arr| <= buf.Length
      modifies this, buf
      ensures Valid() && Extended(old(contents), old(pos), arr, contents, pos)
    {
      for i := 0 to |arr|
        invariant Valid() && Extended(old(contents), old(pos), arr[..i], contents, pos)
      {
        ghost var b1, p1 := contents, pos;
        Write8(arr[i]);
        ExtendedTrans(old(contents), old(pos), arr[..i], b1, p1, [arr[i]], contents, pos);
        assert arr[..i] + [arr[i]] == arr[..i + 1];
      }
      assert arr[..|arr|] == arr;
    }

    /** `Buffer_write32`: the four little-endian bytes of the value. */
    method Write32(value: Int32)
      requires Valid() && pos + 4 <= buf.Length
      modifies this, buf
      ensures Valid() && Extended(old(contents), old(pos), Le32(value), contents, pos)
    {
      for i := 0 to 4
        invariant Valid() && Extended(old(contents), old(pos), Le32(value)[..i], contents, pos)
      {
        ghost var b1, p1 := contents, pos;
        Write8(ByteOf(value, i));
        ExtendedTrans(old(contents), old(pos), Le32(value)[..i], b1, p1, [ByteOf(value, i)], contents, pos);
        assert Le32(value)[..i] + [ByteOf(value, i)] == Le32(value)[..i + 1];
      }
      assert Le32(value)[..4] == Le32(value);
    }

    /** `BufferWriter_backpatch_displacement_imm32`: the four bytes before
        `posAfterJump` become the distance from there to the cursor, which
        does not move. The write is not bounds-checked in the source; it
        must land inside the buffer. */
    method Backpatch(posAfterJump: Int32)
      requires Valid() && 4 <= posAfterJump <= buf.Length
      modifies this, buf
      ensures Valid() && pos == old(pos)
      ensures contents == Patch(old(contents), posAfterJump - 4, Le32(pos - posAfterJump))
    {
      var relative: Int32 := Wrap32(pos - posAfterJump);
      var first := posAfterJump - 4;
      Le32Wrap(pos - posAfterJump);
      for i := 0 to 4
        invariant Valid() && pos == old(pos)
        invariant contents == old(contents)[..first] + Le32(relative)[..i] + old(contents)[first + i..]
      {
        buf[first + i] := ByteOf(relative, i);
        contents := contents[first + i := ByteOf(relative, i)];
        PatchStep(old(contents), first, Le32(relative), i);
      }
      assert Le32(relative)[..4] == Le32(relative);
    }

    // The instruction encoders, each writing its bytes at the cursor.

    method IncReg(reg: Register)
      requires Valid() && pos + |CX86.IncReg(reg)| <= buf.Length
      modifies this, buf
      ensures Valid() && Extended(old(contents), old(pos), CX86.IncReg(reg), contents, pos)
    {
      Write8(0x48);
      Write8(0xff);
      Write8(0xc0 + Reg(reg));
    }

    method DecReg(reg: Register)
      requires Valid() && pos + |CX86.DecReg(reg)| <= buf.Length
      modifies this, buf
      ensures Valid() && Extended(old(contents), old(pos), CX86.DecReg(reg), contents, pos)
    {
      Write8(0x48);
      Write8(0xff);
      Write8(0xc8 + Reg(reg));
    }

    method MovRegImm32(dst: Register, src: Int32)
      requires Valid() && pos + |CX86.MovRegImm32(dst, src)| <= buf.Length
      modifies this, buf
      ensures Valid() && Extended(old(contents), old(pos), CX86.MovRegImm32(dst, src), contents, pos)
    {
      Write8(0xb8 + Reg(dst));
      ghost var b1, p1 := contents, pos;
      Write32(src);
      ExtendedTrans(old(contents), old(pos), [0xb8 + Reg(dst)], b1, p1, Le32(src), contents, pos);
    }

    method AddRegImm32(dst: Register, src: Int32)
      requires Valid() && pos + |CX86.AddRegImm32(dst, src)| <= buf.Length
      modifies this, buf
      ensures Valid() && Extended(old(contents), old(pos), CX86.AddRegImm32(dst, src), contents, pos)
    {
      if dst == Rax {
        Write8(0x05);
      } else {
        Write8(0x81);
        Write8(0xc0 + Reg(dst));
      }
      ghost var b1, p1 := contents, pos;
      Write32(src);
      ExtendedTrans(old(contents), old(pos), if dst == Rax then [0x05] else [0x81, 0xc0 + Reg(dst)], b1, p1, Le32(src), contents, pos);
    }

    method AddRegStack(dst: Register, offset: Int8)
      requires offset < 0
      requires Valid() && pos + |CX86.AddRegStack(dst, offset)| <= buf.Length
      modifies this, buf
      ensures Valid() && Extended(old(contents), old(pos), CX86.AddRegStack(dst, offset), contents, pos)
    {
      Write8(0x48);
      Write8(0x03);
      Write8(0x04 + Reg(dst) * 8 + (if offset == 0 then 0 else 0x40));
      Write8(0x24);
      Write8(0x100 + offset);
    }

    method MovRaxToRegDisp(dst: Register, disp: Int8)
      requires Valid() && pos + |CX86.MovRaxToRegDisp(dst, disp)| <= buf.Length
      modifies this, buf
      ensures Valid() && Extended(old(contents), old(pos), CX86.MovRaxToRegDisp(dst, disp), contents, pos)
    {
      Write8(0x48);
      Write8(0x89);
      Write8(0x40 + Reg(dst));
      Write8(EncodeDisp(disp));
    }

    method MovRegDispToRax(dst: Register, disp: Int8)
      requires Valid() && pos + |CX86.MovRegDispToRax(dst, disp)| <= buf.Length
      modifies this, buf
      ensures Valid() && Extended(old(contents), old(pos), CX86.MovRegDispToRax(dst, disp), contents, pos)
    {
      Write8(0x48);
      Write8(0x8b);
      Write8(0x40 + Reg(dst));
      Write8(EncodeDisp(disp));
    }

    /** `Buffer_sub_reg_imm32` as written: 0x83 for a register other than
        rax (see CX86.SubAsWrittenSplits), the short form 0x2d for rax. */
    method SubRegImm32(dst: Register, src: Int32)
      requires Valid() && pos + |CX86.SubRegImm32AsWritten(dst, src)| <= buf.Length
      modifies this, buf
      ensures Valid() && Extended(old(contents), old(pos), CX86.SubRegImm32AsWritten(dst, src), contents, pos)
    {
      if dst == Rax {
        Write8(0x2d);
      } else {
        Write8(0x83);
        Write8(0xe8 + Reg(dst));
      }
      ghost var b1, p1 := contents, pos;
      Write32(src);
      ExtendedTrans(old(contents), old(pos), if dst == Rax then [0x2d] else [0x83, 0xe8 + Reg(dst)], b1, p1, Le32(src), contents, pos);
    }

    method MovRegReg(dst: Register, src: Register)
      requires Valid() && pos + |CX86.MovRegReg(dst, src)| <= buf.Length
      modifies this, buf
      ensures Valid() && Extended(old(contents), old(pos), CX86.MovRegReg(dst, src), contents, pos)
    {
      Write8(0x48);
      Write8(0x89);
      Write8(0xc0 + Reg(dst) + Reg(src) * 8);
    }

    method MovRegToStack(src: Register, offset: Int8)
      requires offset < 0
      requires Valid() && pos + |CX86.MovRegToStack(src, offset)| <= buf.Length
      modifies this, buf
      ensures Valid() && Extended(old(contents), old(pos), CX86.MovRegToStack(src, offset), contents, pos)
    {
      Write8(0x48);
      Write8(0x89);
      Write8(0x04 + Reg(src) * 8 + (if offset == 0 then 0 else 0x40));
      Write8(0x24);
      Write8(0x100 + offset);
    }

    method MovStackToReg(dst: Register, offset: Int8)
      requires offset < 0
      requires Valid() && pos + |CX86.MovStackToReg(dst, offset)| <= buf.Length
      modifies this, buf
      ensures Valid() && Extended(old(contents), old(pos), CX86.MovStackToReg(dst, offset), contents, pos)
    {
      Write8(0x48);
      Write8(0x8b);
      Write8(0x04 + Reg(dst) * 8 + (if offset == 0 then 0 else 0x40));
      Write8(0x24);
      Write8(0x100 + offset);
    }

    method ShlReg(dst: Register, bits: Int8)
      requires 0 <= bits < 64
      requires Valid() && pos + |CX86.ShlReg(dst, bits)| <= buf.Length
      modifies this, buf
      ensures Valid() && Extended(old(contents), old(pos), CX86.ShlReg(dst, bits), contents, pos)
    {
      Write8(0x48);
      Write8(0xc1);
      Write8(0xe0 + Reg(dst));
      Write8(bits);
    }

    method AndRegImm32(dst: Register, value: Int32)
      requires Valid() && pos + |CX86.AndRegImm32(dst, value)| <= buf.Length
      modifies this, buf
      ensures Valid() && Extended(old(contents), old(pos), CX86.AndRegImm32(dst, value), contents, pos)
    {
      Write8(0x48);
      if dst == Rax {
        Write8(0x25);
      } else {
        Write8(0x81);
        Write8(0xe0 + Reg(dst));
      }
      ghost var b1, p1 := contents, pos;
      Write32(value);
      ExtendedTrans(old(contents), old(pos), [0x48] + (if dst == Rax then [0x25] else [0x81, 0xe0 + Reg(dst)]), b1, p1, Le32(value), contents, pos);
    }

    method OrRegImm32(dst: Register, value: Int32)
      requires Valid() && pos + |CX86.OrRegImm32(dst, value)| <= buf.Length
      modifies this, buf
      ensures Valid() && Extended(old(contents), old(pos), CX86.OrRegImm32(dst, value), contents, pos)
    {
      Write8(0x48);
      if dst == Rax {
        Write8(0x0d);
      } else {
        Write8(0x81);
        Write8(0xc8 + Reg(dst));
      }
      ghost var b1, p1 := contents, pos;
      Write32(value);
      ExtendedTrans(old(contents), old(pos), [0x48] + (if dst == Rax then [0x0d] else [0x81, 0xc8 + Reg(dst)]), b1, p1, Le32(value), contents, pos);
    }

    method CmpRegImm32(dst: Register, value: Int32)
      requires Valid() && pos + |CX86.CmpRegImm32(dst, value)| <= buf.Length
      modifies this, buf
      ensures Valid() && Extended(old(contents), old(pos), CX86.CmpRegImm32(dst, value), contents, pos)
    {
      Write8(0x48);
      if dst == Rax {
        Write8(0x3d);
      } else {
        Write8(0x81);
        Write8(0xf8 + Reg(dst));
      }
      ghost var b1, p1 := contents, pos;
      Write32(value);
      ExtendedTrans(old(contents), old(pos), [0x48] + (if dst == Rax then [0x3d] else [0x81, 0xf8 + Reg(dst)]), b1, p1, Le32(value), contents, pos);
    }

    method SetccReg(cond: Condition, dst: SubRegister)
      requires Valid() && pos + |CX86.SetccReg(cond, dst)| <= buf.Length
      modifies this, buf
      ensures Valid() && Extended(old(contents), old(pos), CX86.SetccReg(cond, dst), contents, pos)
    {
      Write8(0x0f);
      Write8(0x94);
      Write8(0xc0);
    }

    method JeImm32(disp: Int32)
      requires disp > 0
      requires Valid() && pos + |CX86.JeImm32(disp)| <= buf.Length
      modifies this, buf
      ensures Valid() && Extended(old(contents), old(pos), CX86.JeImm32(disp), contents, pos)
    {
      Write8(0x0f);
      Write8(0x84);
      ghost var b1, p1 := contents, pos;
      Write32(disp);
      ExtendedTrans(old(contents), old(pos), [0x0f, 0x84], b1, p1, Le32(disp), contents, pos);
    }

    method JmpImm32(disp: Int32)
      requires disp > 0
      requires Valid() && pos + |CX86.JmpImm32(disp)| <= buf.Length
      modifies this, buf
      ensures Valid() && Extended(old(contents), old(pos), CX86.JmpImm32(disp), contents, pos)
    {
      Write8(0xe9);
      ghost var b1, p1 := contents, pos;
      Write32(disp);
      ExtendedTrans(old(contents), old(pos), [0xe9], b1, p1, Le32(disp), contents, pos);
    }

    method CallImm32(disp: Int32)
      requires Valid() && pos + |CX86.CallImm32(disp)| <= buf.Length
      modifies this, buf
      ensures Valid() && Extended(old(contents), old(pos), CX86.CallImm32(disp), contents, pos)
    {
      var d := Wrap32(disp - 5);
      Write8(0xe8);
      ghost var b1, p1 := contents, pos;
      Write32(Wrap32(EncodeDisp32(d)));
      Le32Wrap(EncodeDisp32(d));
      ExtendedTrans(old(contents), old(pos), [0xe8], b1, p1, Le32(EncodeDisp32(d)), contents, pos);
    }

    method Ret()
      requires Valid() && pos + |CX86.Ret()| <= buf.Length
      modifies this, buf
      ensures Valid() && Extended(old(contents), old(pos), CX86.Ret(), contents, pos)
    {
      Write8(0xc3);
    }
  }
}
