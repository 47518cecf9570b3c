/** The instruction encoders of compiler.c (`Buffer_<instr>`), as the bytes
    each one writes, and the ModR/M, SIB and instruction-length rules of
    section 2.1 of the Intel 64 and IA-32 Architectures Software
    Developer's Manual, Volume 2, that those bytes follow. */
module CX86 {
  import opened Util
  import opened CBytes

  datatype Register = Rax | Rcx | Rdx | Rbx | Rsp | Rbp | Rsi | Rdi

  /** The register's number in the `Register` enum and in the ModR/M byte. */
  function Reg(r: Register): (n: nat)
    ensures n < 8
  {
    match r
    case Rax => 0 case Rcx => 1 case Rdx => 2 case Rbx => 3
    case Rsp => 4 case Rbp => 5 case Rsi => 6 case Rdi => 7
  }

  /** `kAl`, the only sub-register, and `kEqual`, the only condition. */
  datatype SubRegister = Al
  datatype Condition = Equal

  const REX_W: byte := 0x48

  /** A ModR/M byte from its three fields (section 2.1.5). */
  function ModRM(md: nat, reg: nat, rm: nat): byte
    requires md < 4 && reg < 8 && rm < 8
  {
    md * 64 + reg * 8 + rm
  }

  /** A SIB byte from its three fields. */
  function SIB(scale: nat, index: nat, base: nat): byte
    requires scale < 4 && index < 8 && base < 8
  {
    scale * 64 + index * 8 + base
  }

  function ModField(b: byte): nat { b / 64 }
  function RegField(b: byte): nat { b / 8 % 8 }
  function RmField(b: byte): nat { b % 8 }

  /** The three fields of a ModR/M byte are recovered from it. */
  lemma ModRMFields(md: nat, reg: nat, rm: nat)
    requires md < 4 && reg < 8 && rm < 8
    ensures ModField(ModRM(md, reg, rm)) == md
    ensures RegField(ModRM(md, reg, rm)) == reg
    ensures RmField(ModRM(md, reg, rm)) == rm
  {
    var b := ModRM(md, reg, rm);
    assert b == (md * 8 + reg) * 8 + rm;
    Div8(md * 8 + reg, rm);
    Div8(md, reg);
    Div64(md, reg * 8 + rm);
  }

  lemma Div8(q: nat, r: nat)
    requires r < 8
    ensures (q * 8 + r) / 8 == q && (q * 8 + r) % 8 == r
  {
  }

  lemma Div64(q: nat, r: nat)
    requires r < 64
    ensures (q * 64 + r) / 64 == q
  {
  }

  // The encoders, in the order of compiler.c.

  function IncReg(reg: Register): seq<byte> {
    [REX_W, 0xff, 0xc0 + Reg(reg)]
  }

  function DecReg(reg: Register): seq<byte> {
    [REX_W, 0xff, 0xc8 + Reg(reg)]
  }

  function MovRegImm32(dst: Register, src: Int32): seq<byte> {
    [0xb8 + Reg(dst)] + Le32(src)
  }

  /** `add eax, imm32` has its own one-byte opcode. */
  function AddRegImm32(dst: Register, src: Int32): seq<byte> {
    (if dst == Rax then [0x05] else [0x81, 0xc0 + Reg(dst)]) + Le32(src)
  }

  /** `add rax, [rsp+offset]`; a zero offset is refused by the assertion
      before its ModR/M choice could matter. */
  function AddRegStack(dst: Register, offset: Int8): seq<byte>
    requires offset < 0
  {
    [REX_W, 0x03, 0x04 + Reg(dst) * 8 + (if offset == 0 then 0 else 0x40), 0x24, 0x100 + offset]
  }

  /** `mov [dst+disp], rax`. */
  function MovRaxToRegDisp(dst: Register, disp: Int8): seq<byte> {
    [REX_W, 0x89, 0x40 + Reg(dst), EncodeDisp(disp)]
  }

  /** `mov rax, [dst+disp]`. */
  function MovRegDispToRax(dst: Register, disp: Int8): seq<byte> {
    [REX_W, 0x8b, 0x40 + Reg(dst), EncodeDisp(disp)]
  }

  /** `Buffer_sub_reg_imm32` as written: for a register other than rax it
      uses opcode 0x83, whose immediate is one byte, and still writes four. */
  function SubRegImm32AsWritten(dst: Register, src: Int32): seq<byte> {
    (if dst == Rax then [0x2d] else [0x83, 0xe8 + Reg(dst)]) + Le32(src)
  }

  /** `Buffer_sub_reg_imm32` with the opcode its comment names, 0x81, whose
      immediate is four bytes. */
  function SubRegImm32(dst: Register, src: Int32): seq<byte> {
    (if dst == Rax then [0x2d] else [0x81, 0xe8 + Reg(dst)]) + Le32(src)
  }

  /** On rax, the only register the compiler subtracts from, both forms
      are the short `2d` encoding. */
  lemma SubRaxForms(src: Int32)
    ensures SubRegImm32AsWritten(Rax, src) == SubRegImm32(Rax, src) == [0x2d] + Le32(src)
  {
  }

  /** `mov dst, src` between 64-bit registers. */
  function MovRegReg(dst: Register, src: Register): seq<byte> {
    [REX_W, 0x89, 0xc0 + Reg(dst) + Reg(src) * 8]
  }

  /** `mov [rsp+offset], src`. */
  function MovRegToStack(src: Register, offset: Int8): seq<byte>
    requires offset < 0
  {
    [REX_W, 0x89, 0x04 + Reg(src) * 8 + (if offset == 0 then 0 else 0x40), 0x24, 0x100 + offset]
  }

  /** `mov dst, [rsp+offset]`. */
  function MovStackToReg(dst: Register, offset: Int8): seq<byte>
    requires offset < 0
  {
    [REX_W, 0x8b, 0x04 + Reg(dst) * 8 + (if offset == 0 then 0 else 0x40), 0x24, 0x100 + offset]
  }

  function ShlReg(dst: Register, bits: Int8): seq<byte>
    requires 0 <= bits < 64
  {
    [REX_W, 0xc1, 0xe0 + Reg(dst), bits]
  }

  function AndRegImm32(dst: Register, value: Int32): seq<byte> {
    [REX_W] + (if dst == Rax then [0x25] else [0x81, 0xe0 + Reg(dst)]) + Le32(value)
  }

  function OrRegImm32(dst: Register, value: Int32): seq<byte> {
    [REX_W] + (if dst == Rax then [0x0d] else [0x81, 0xc8 + Reg(dst)]) + Le32(value)
  }

  function CmpRegImm32(dst: Register, value: Int32): seq<byte> {
    [REX_W] + (if dst == Rax then [0x3d] else [0x81, 0xf8 + Reg(dst)]) + Le32(value)
  }

  /** `sete al`. */
  function SetccReg(cond: Condition, dst: SubRegister): seq<byte> {
    [0x0f, 0x94, 0xc0]
  }

  function JeImm32(disp: Int32): seq<byte>
    requires disp > 0
  {
    [0x0f, 0x84] + Le32(disp)
  }

  function JmpImm32(disp: Int32): seq<byte>
    requires disp > 0
  {
    [0xe9] + Le32(disp)
  }

  /** `call rel32`: the displacement is taken from the call's own start, so
      five (the call's length) is subtracted before it is written. */
  function CallImm32(disp: Int32): seq<byte> {
    [0xe8] + Le32(EncodeDisp32(Wrap32(disp - 5)))
  }

  function Ret(): seq<byte> {
    [0xc3]
  }

  // Instruction lengths.

  /** The size of the immediate that follows an opcode's ModR/M byte (or the
      opcode itself when it has none), for the opcodes written here. */
  function ImmediateSize(opcode: byte): nat {
    if opcode == 0x81 then 4
    else if opcode == 0x83 || opcode == 0xc1 then 1
    else 0
  }

  /** The bytes a ModR/M byte and its SIB and displacement take, for the
      addressing forms of table 2-2 used here. */
  function OperandBytes(modrm: byte): nat {
    var md, rm := ModField(modrm), RmField(modrm);
    if md == 3 then 1
    else if md == 1 then (if rm == 4 then 3 else 2)
    else if md == 0 then (if rm == 4 then 2 else if rm == 5 then 5 else 1)
    else (if rm == 4 then 6 else 5)
  }

  /** The length of the instruction at the start of `code`, read the way the
      processor does: an optional REX prefix, the opcode, its ModR/M byte
      and what follows it, and its immediate. `None` for an opcode outside
      the ones the encoders write. */
  function InstrLength(code: seq<byte>): Option<nat>
    decreases |code|
  {
    if |code| == 0 then None
    else if code[0] == REX_W then
      match InstrLength(code[1..])
      case None => None
      case Some(n) => Some(1 + n)
    else if 0xb8 <= code[0] < 0xc0 || code[0] in {0x05, 0x2d, 0x25, 0x0d, 0x3d, 0xe8, 0xe9} then Some(5)
    else if code[0] == 0xc3 then Some(1)
    else if code[0] == 0x0f then
      (if |code| < 2 then None else if code[1] == 0x84 then Some(6) else if code[1] == 0x94 then Some(3) else None)
    else if code[0] in {0x81, 0x83, 0xc1, 0xff, 0x89, 0x8b, 0x03} then
      (if |code| < 2 then None else Some(1 + OperandBytes(code[1]) + ImmediateSize(code[0])))
    else None
  }

  /** A REX prefix adds one byte to the instruction after it. */
  lemma RexLength(rest: seq<byte>, n: nat)
    requires InstrLength(rest) == Some(n)
    ensures InstrLength([REX_W] + rest) == Some(1 + n)
  {
    assert ([REX_W] + rest)[1..] == rest;
  }

  /** An opcode with a ModR/M byte takes the opcode, the operand bytes and
      the immediate. */
  lemma ModRMLength(opcode: byte, modrm: byte, rest: seq<byte>)
    requires opcode in {0x81, 0x83, 0xc1, 0xff, 0x89, 0x8b, 0x03}
    ensures InstrLength([opcode, modrm] + rest) == Some(1 + OperandBytes(modrm) + ImmediateSize(opcode))
  {
    assert ([opcode, modrm] + rest)[0] == opcode && ([opcode, modrm] + rest)[1] == modrm;
  }

  /** A register-direct operand (mod 11) takes the ModR/M byte alone. */
  lemma RegisterOperand(ext: nat, r: Register)
    requires ext < 8
    ensures 0xc0 + ext * 8 + Reg(r) == ModRM(3, ext, Reg(r))
    ensures OperandBytes(ModRM(3, ext, Reg(r))) == 1
  {
    ModRMFields(3, ext, Reg(r));
  }

  /** `inc` and `dec` are 0xff /0 and 0xff /1 on a register. */
  lemma IncDecOneInstruction(r: Register)
    ensures IncReg(r)[2] == ModRM(3, 0, Reg(r)) && InstrLength(IncReg(r)) == Some(|IncReg(r)|)
    ensures DecReg(r)[2] == ModRM(3, 1, Reg(r)) && InstrLength(DecReg(r)) == Some(|DecReg(r)|)
  {
    var inc, dec := ModRM(3, 0, Reg(r)), ModRM(3, 1, Reg(r));
    RegisterOperand(0, r);
    RegisterOperand(1, r);
    assert inc == 0xc0 + Reg(r) && dec == 0xc8 + Reg(r);
    ModRMLength(0xff, inc, []);
    ModRMLength(0xff, dec, []);
    assert IncReg(r) == [REX_W] + ([0xff, inc] + []);
    assert DecReg(r) == [REX_W] + ([0xff, dec] + []);
    RexLength([0xff, inc] + [], 2);
    RexLength([0xff, dec] + [], 2);
  }

  /** `mov r32, imm32`, `add` (0x81 /0) and the corrected `sub` (0x81 /5)
      write one instruction each, on any register. */
  lemma ArithmeticOneInstruction(r: Register, imm: Int32)
    ensures InstrLength(MovRegImm32(r, imm)) == Some(|MovRegImm32(r, imm)|)
    ensures InstrLength(AddRegImm32(r, imm)) == Some(|AddRegImm32(r, imm)|)
    ensures InstrLength(SubRegImm32(r, imm)) == Some(|SubRegImm32(r, imm)|)
    ensures r != Rax ==> AddRegImm32(r, imm)[1] == ModRM(3, 0, Reg(r)) && SubRegImm32(r, imm)[1] == ModRM(3, 5, Reg(r))
  {
    Le32RoundTrip(imm);
    RegisterOperand(0, r);
    RegisterOperand(5, r);
    if r != Rax {
      assert ModRM(3, 0, Reg(r)) == 0xc0 + Reg(r) && ModRM(3, 5, Reg(r)) == 0xe8 + Reg(r);
      ModRMLength(0x81, ModRM(3, 0, Reg(r)), Le32(imm));
      ModRMLength(0x81, ModRM(3, 5, Reg(r)), Le32(imm));
      assert AddRegImm32(r, imm) == [0x81, ModRM(3, 0, Reg(r))] + Le32(imm);
      assert SubRegImm32(r, imm) == [0x81, ModRM(3, 5, Reg(r))] + Le32(imm);
    }
  }

  /** The shape the logic encoders share: REX.W, then the short opcode
      `short` on `rax` or 0x81 /`ext` on another register, then the
      immediate word. */
  lemma WideImmediateOneInstruction(short: byte, ext: nat, r: Register, imm: Int32)
    requires short in {0x25, 0x0d, 0x3d} && ext < 8
    ensures var code := [REX_W] + (if r == Rax then [short] else [0x81, 0xc0 + ext * 8 + Reg(r)]) + Le32(imm);
            InstrLength(code) == Some(|code|) && (r != Rax ==> code[2] == ModRM(3, ext, Reg(r)))
  {
    var tail := (if r == Rax then [short] else [0x81, 0xc0 + ext * 8 + Reg(r)]) + Le32(imm);
    Le32RoundTrip(imm);
    RegisterOperand(ext, r);
    if r == Rax {
      assert InstrLength(tail) == Some(5);
    } else {
      ModRMLength(0x81, ModRM(3, ext, Reg(r)), Le32(imm));
      assert tail == [0x81, ModRM(3, ext, Reg(r))] + Le32(imm);
    }
    RexLength(tail, |tail|);
  }

  /** `and` (0x81 /4), `or` (0x81 /1) and `cmp` (0x81 /7) with their REX.W
      prefix write one instruction each. */
  lemma LogicOneInstruction(r: Register, imm: Int32)
    ensures InstrLength(AndRegImm32(r, imm)) == Some(|AndRegImm32(r, imm)|)
    ensures InstrLength(OrRegImm32(r, imm)) == Some(|OrRegImm32(r, imm)|)
    ensures InstrLength(CmpRegImm32(r, imm)) == Some(|CmpRegImm32(r, imm)|)
    ensures r != Rax ==> AndRegImm32(r, imm)[2] == ModRM(3, 4, Reg(r)) && OrRegImm32(r, imm)[2] == ModRM(3, 1, Reg(r)) && CmpRegImm32(r, imm)[2] == ModRM(3, 7, Reg(r))
  {
    WideImmediateOneInstruction(0x25, 4, r, imm);
    WideImmediateOneInstruction(0x0d, 1, r, imm);
    WideImmediateOneInstruction(0x3d, 7, r, imm);
  }

  /** `mov dst, src` is 0x89 with the source in the reg field and the
      destination in r/m. */
  lemma MoveOneInstruction(r: Register, s: Register)
    ensures MovRegReg(r, s)[2] == ModRM(3, Reg(s), Reg(r)) && InstrLength(MovRegReg(r, s)) == Some(|MovRegReg(r, s)|)
  {
    var mov := ModRM(3, Reg(s), Reg(r));
    assert MovRegReg(r, s) == [REX_W] + ([0x89, mov] + []) by {
      RegisterOperand(Reg(s), r);
    }
    assert InstrLength([0x89, mov] + []) == Some(2) by {
      RegisterOperand(Reg(s), r);
      ModRMLength(0x89, mov, []);
    }
    RexLength([0x89, mov] + [], 2);
  }

  /** `shl` is 0xc1 /4 with a one-byte count. */
  lemma ShiftOneInstruction(r: Register, bits: Int8)
    requires 0 <= bits < 64
    ensures ShlReg(r, bits)[2] == ModRM(3, 4, Reg(r)) && InstrLength(ShlReg(r, bits)) == Some(|ShlReg(r, bits)|)
  {
    var shl := ModRM(3, 4, Reg(r));
    RegisterOperand(4, r);
    assert shl == 0xe0 + Reg(r);
    ModRMLength(0xc1, shl, [bits]);
    assert ShlReg(r, bits) == [REX_W] + ([0xc1, shl] + [bits]);
    RexLength([0xc1, shl] + [bits], 3);
  }

  /** The `[rsp + disp8]` operand: mod 01 and r/m 100, then a SIB byte with
      base rsp and no index, then the displacement. */
  lemma StackOperand(r: Register, off: Int8)
    requires off < 0
    ensures 0x04 + Reg(r) * 8 + 0x40 == ModRM(1, Reg(r), 4)
    ensures 0x24 == SIB(0, 4, Reg(Rsp))
    ensures OperandBytes(ModRM(1, Reg(r), 4)) == 3
    ensures ToInt8(0x100 + off) == off
  {
    OperandForms(Reg(r), 4);
  }

  /** The shape the stack encoders share: REX.W, the opcode, the
      `[rsp + disp8]` operand. */
  lemma StackForm(opcode: byte, r: Register, off: Int8)
    requires opcode in {0x03, 0x89, 0x8b} && off < 0
    ensures var code := [REX_W, opcode, 0x04 + Reg(r) * 8 + 0x40, 0x24, 0x100 + off];
            code[2..] == [ModRM(1, Reg(r), 4), SIB(0, 4, Reg(Rsp)), 0x100 + off] && InstrLength(code) == Some(5)
  {
    StackOperand(r, off);
    var m: byte := ModRM(1, Reg(r), 4);
    var operand: seq<byte> := [0x24, 0x100 + off];
    ModRMLength(opcode, m, operand);
    assert [REX_W, opcode, 0x04 + Reg(r) * 8 + 0x40, 0x24, 0x100 + off] == [REX_W] + ([opcode, m] + operand);
    RexLength([opcode, m] + operand, 4);
  }

  /** The three stack encoders address `[rsp + offset]` and write one
      instruction each. */
  lemma StackOneInstruction(r: Register, off: Int8)
    requires off < 0
    ensures AddRegStack(r, off)[2..] == [ModRM(1, Reg(r), 4), SIB(0, 4, Reg(Rsp)), 0x100 + off]
    ensures MovRegToStack(r, off)[2..] == [ModRM(1, Reg(r), 4), SIB(0, 4, Reg(Rsp)), 0x100 + off]
    ensures MovStackToReg(r, off)[2..] == [ModRM(1, Reg(r), 4), SIB(0, 4, Reg(Rsp)), 0x100 + off]
    ensures ToInt8(0x100 + off) == off
    ensures InstrLength(AddRegStack(r, off)) == Some(|AddRegStack(r, off)|)
    ensures InstrLength(MovRegToStack(r, off)) == Some(|MovRegToStack(r, off)|)
    ensures InstrLength(MovStackToReg(r, off)) == Some(|MovStackToReg(r, off)|)
  {
    StackOperand(r, off);
    StackForm(0x03, r, off);
    StackForm(0x89, r, off);
    StackForm(0x8b, r, off);
    assert AddRegStack(r, off) == [REX_W, 0x03, 0x04 + Reg(r) * 8 + 0x40, 0x24, 0x100 + off];
    assert MovRegToStack(r, off) == [REX_W, 0x89, 0x04 + Reg(r) * 8 + 0x40, 0x24, 0x100 + off];
    assert MovStackToReg(r, off) == [REX_W, 0x8b, 0x04 + Reg(r) * 8 + 0x40, 0x24, 0x100 + off];
  }

  /** The lengths of the two memory forms with a one-byte displacement. */
  lemma OperandForms(reg: nat, rm: nat)
    requires reg < 8 && rm < 8
    ensures OperandBytes(ModRM(1, reg, 4)) == 3
    ensures rm != 4 ==> OperandBytes(ModRM(1, reg, rm)) == 2
  {
    ModRMFields(1, reg, 4);
    ModRMFields(1, reg, rm);
  }

  /** A `[reg + disp8]` operand with rax in the reg field: mod 01 and the
      base register in r/m; a ModR/M byte and a displacement, unless the
      base is rsp. */
  lemma DisplacementOperand(r: Register)
    ensures 0x40 + Reg(r) == ModRM(1, Reg(Rax), Reg(r))
    ensures r != Rsp ==> Reg(r) != 4 && OperandBytes(ModRM(1, Reg(Rax), Reg(r))) == 2
  {
    OperandForms(0, Reg(r));
  }

  /** The shape the displacement encoders share: REX.W, the opcode and a
      `[reg + disp8]` operand with rax in the reg field. */
  lemma DisplacementForm(opcode: byte, r: Register, off: Int8)
    requires opcode in {0x89, 0x8b}
    ensures var code := [REX_W, opcode, 0x40 + Reg(r), EncodeDisp(off)];
            code[2] == ModRM(1, Reg(Rax), Reg(r)) && ToInt8(code[3]) == off
            && (r != Rsp ==> InstrLength(code) == Some(4))
  {
    var m: byte := ModRM(1, 0, Reg(r));
    DisplacementOperand(r);
    ModRMLength(opcode, m, [EncodeDisp(off)]);
    assert [REX_W, opcode, 0x40 + Reg(r), EncodeDisp(off)] == [REX_W] + ([opcode, m] + [EncodeDisp(off)]);
    if r != Rsp {
      RexLength([opcode, m] + [EncodeDisp(off)], 3);
    }
  }

  /** `mov [dst+disp8], rax` and `mov rax, [dst+disp8]`: mod 01 with rax in
      the reg field; for any base but rsp (whose r/m value would call for a
      SIB byte) that is one instruction. */
  lemma DisplacementOneInstruction(r: Register, off: Int8)
    ensures MovRaxToRegDisp(r, off)[2] == ModRM(1, Reg(Rax), Reg(r)) && ToInt8(MovRaxToRegDisp(r, off)[3]) == off
    ensures MovRegDispToRax(r, off)[2] == ModRM(1, Reg(Rax), Reg(r)) && ToInt8(MovRegDispToRax(r, off)[3]) == off
    ensures r != Rsp ==> InstrLength(MovRaxToRegDisp(r, off)) == Some(|MovRaxToRegDisp(r, off)|)
    ensures r != Rsp ==> InstrLength(MovRegDispToRax(r, off)) == Some(|MovRegDispToRax(r, off)|)
  {
    DisplacementForm(0x89, r, off);
    DisplacementForm(0x8b, r, off);
  }

  /** The encoders without a ModR/M byte, each one instruction. */
  lemma FixedOneInstruction(disp: Int32, imm: Int32)
    requires disp > 0
    ensures InstrLength(SetccReg(Equal, Al)) == Some(|SetccReg(Equal, Al)|)
    ensures InstrLength(JeImm32(disp)) == Some(|JeImm32(disp)|)
    ensures InstrLength(JmpImm32(disp)) == Some(|JmpImm32(disp)|)
    ensures InstrLength(CallImm32(imm)) == Some(|CallImm32(imm)|)
    ensures InstrLength(Ret()) == Some(|Ret()|)
  {
    Le32RoundTrip(disp);
    Le32RoundTrip(EncodeDisp32(Wrap32(imm - 5)));
  }

  /** The as-written subtraction from a register other than rax: the
      processor reads opcode 0x83 with a one-byte immediate, a three-byte
      instruction, and the other three immediate bytes as the start of the
      next one. */
  lemma SubAsWrittenSplits(r: Register, imm: Int32)
    requires r != Rax
    ensures |SubRegImm32AsWritten(r, imm)| == 6
    ensures InstrLength(SubRegImm32AsWritten(r, imm)) == Some(3)
  {
    RegisterOperand(5, r);
    assert ModRM(3, 5, Reg(r)) == 0xe8 + Reg(r);
    ModRMLength(0x83, ModRM(3, 5, Reg(r)), Le32(imm));
    assert SubRegImm32AsWritten(r, imm) == [0x83, ModRM(3, 5, Reg(r))] + Le32(imm);
  }
}
