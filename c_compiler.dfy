/** The `AST_compile_*` functions of compiler.c, writing through a
    `BufferWriter`: each is proved to write exactly the code its
    specification in `CCodegen` describes at the cursor (backpatching the
    forward jumps it leaves) and to return that specification's status.
    An assertion of the source must hold: the methods require the
    specification to be defined, and the buffer to have room for the code. */
module CCompiler {
  import opened Util
  import opened CBytes
  import opened CX86
  import opened CAst
  import opened CCodegen
  import opened CWriter

  /** The bytes before the jump over the label codes as the backpatch at
      the entry code leaves them. */
  function EntryPatched(b: seq<byte>, bodyPos: nat, entry: Option<nat>): (r: seq<byte>)
    requires 4 <= bodyPos <= |b|
    ensures |r| == |b|
  {
    if entry.Some? then Patch(b, bodyPos - 4, Le32(entry.value - bodyPos)) else b
  }

  /** `AST_compile_expr`. */
  method CompileExpr(w: BufferWriter, ctx: Context, node: Node, si: int) returns (status: int)
    requires w.Valid() && Expr(ctx, node, si, w.pos).Some?
    requires w.pos + |Expr(ctx, node, si, w.pos).value.code| <= w.buf.Length
    modifies w, w.buf
    ensures w.Valid() && status == Expr(ctx, node, si, old(w.pos)).value.status
    ensures Extended(old(w.contents), old(w.pos), Expr(ctx, node, si, old(w.pos)).value.code, w.contents, w.pos)
    decreases Size(node), 1
  {
    match node
    case Fixnum(f) =>
      w.MovRegImm32(Rax, EncodeFixnum(f));
      status := 0;
    case Atom(name) =>
      var index := Lookup(ctx.locals, name);
      if index.None? {
        return -1;
      }
      w.MovStackToReg(Rax, ToInt8(index.value));
      status := 0;
    case Pair(fn, args) =>
      status := CompileCall(w, ctx, fn, args, si);
  }

  /** The code of a primitive of one operand after its operand. */
  method EmitUnaryTail(w: BufferWriter, name: string)
    requires IsUnary(name) && w.Valid() && w.pos + |UnaryTail(name)| <= w.buf.Length
    modifies w, w.buf
    ensures w.Valid() && Extended(old(w.contents), old(w.pos), UnaryTail(name), w.contents, w.pos)
  {
    ghost var b0, p0 := w.contents, w.pos;
    if name == "add1" {
      w.AddRegImm32(Rax, EncodeFixnum(1));
    } else if name == "sub1" {
      SubRaxForms(EncodeFixnum(1));
      w.SubRegImm32(Rax, EncodeFixnum(1));
    } else if name == "integer->char" {
      w.ShlReg(Rax, CHAR_SHIFT - FIXNUM_SHIFT);
      ghost var b1, p1 := w.contents, w.pos;
      w.OrRegImm32(Rax, CHAR_TAG);
      ExtendedTrans(b0, p0, ShlReg(Rax, CHAR_SHIFT - FIXNUM_SHIFT), b1, p1, OrRegImm32(Rax, CHAR_TAG), w.contents, w.pos);
    } else if name == "zero?" {
      EmitZeroP(w);
    } else if name == "car" {
      w.MovRegDispToRax(Rax, -1);
    } else {
      w.MovRegDispToRax(Rax, WORD_SIZE - 1);
    }
  }

  /** The five instructions of `zero?` after its operand. */
  method EmitZeroP(w: BufferWriter)
    requires w.Valid() && w.pos + |ZEROP_TAIL| <= w.buf.Length
    modifies w, w.buf
    ensures w.Valid() && Extended(old(w.contents), old(w.pos), ZEROP_TAIL, w.contents, w.pos)
  {
    ghost var b0, p0 := w.contents, w.pos;
    w.CmpRegImm32(Rax, 0);
    ghost var b1, p1 := w.contents, w.pos;
    w.MovRegImm32(Rax, 0);
    ExtendedTrans(b0, p0, CmpRegImm32(Rax, 0), b1, p1, MovRegImm32(Rax, 0), w.contents, w.pos);
    ghost var c := CmpRegImm32(Rax, 0) + MovRegImm32(Rax, 0);
    b1, p1 := w.contents, w.pos;
    w.SetccReg(Equal, Al);
    ExtendedTrans(b0, p0, c, b1, p1, SetccReg(Equal, Al), w.contents, w.pos);
    c := c + SetccReg(Equal, Al);
    b1, p1 := w.contents, w.pos;
    w.ShlReg(Rax, BOOL_SHIFT);
    ExtendedTrans(b0, p0, c, b1, p1, ShlReg(Rax, BOOL_SHIFT), w.contents, w.pos);
    c := c + ShlReg(Rax, BOOL_SHIFT);
    b1, p1 := w.contents, w.pos;
    w.OrRegImm32(Rax, BOOL_TAG);
    ExtendedTrans(b0, p0, c, b1, p1, OrRegImm32(Rax, BOOL_TAG), w.contents, w.pos);
  }

  /** A primitive of one operand: the operand's status is ignored. */
  method CompileUnary(w: BufferWriter, ctx: Context, args: Node, si: int, name: string) returns (status: int)
    requires IsUnary(name)
    requires w.Valid() && Unary(ctx, args, si, w.pos, UnaryTail(name)).Some?
    requires w.pos + |Unary(ctx, args, si, w.pos, UnaryTail(name)).value.code| <= w.buf.Length
    modifies w, w.buf
    ensures w.Valid() && status == Unary(ctx, args, si, old(w.pos), UnaryTail(name)).value.status
    ensures Extended(old(w.contents), old(w.pos), Unary(ctx, args, si, old(w.pos), UnaryTail(name)).value.code, w.contents, w.pos)
    decreases Size(args), 2
  {
    ghost var b0, p0 := w.contents, w.pos;
    var operand := Operand1(args).value;
    var _ := CompileExpr(w, ctx, operand, si);
    ghost var b1, p1 := w.contents, w.pos;
    EmitUnaryTail(w, name);
    ExtendedTrans(b0, p0, Expr(ctx, operand, si, p0).value.code, b1, p1, UnaryTail(name), w.contents, w.pos);
    status := 0;
  }

  /** `+`. */
  method CompilePlus(w: BufferWriter, ctx: Context, args: Node, si: int) returns (status: int)
    requires w.Valid() && Plus(ctx, args, si, w.pos).Some?
    requires w.pos + |Plus(ctx, args, si, w.pos).value.code| <= w.buf.Length
    modifies w, w.buf
    ensures w.Valid() && status == Plus(ctx, args, si, old(w.pos)).value.status
    ensures Extended(old(w.contents), old(w.pos), Plus(ctx, args, si, old(w.pos)).value.code, w.contents, w.pos)
    decreases Size(args), 2
  {
    ghost var b0, p0 := w.contents, w.pos;
    var right := Operand2(args).value;
    var _ := CompileExpr(w, ctx, right, si);
    ghost var c := Expr(ctx, right, si, p0).value.code;
    ghost var b1, p1 := w.contents, w.pos;
    var offset := ToInt8(si);
    w.MovRegToStack(Rax, offset);
    ExtendedTrans(b0, p0, c, b1, p1, MovRegToStack(Rax, offset), w.contents, w.pos);
    c := c + MovRegToStack(Rax, offset);
    b1, p1 := w.contents, w.pos;
    var left := Operand1(args).value;
    var _ := CompileExpr(w, ctx, left, si - WORD_SIZE);
    ExtendedTrans(b0, p0, c, b1, p1, Expr(ctx, left, si - WORD_SIZE, p1).value.code, w.contents, w.pos);
    c := c + Expr(ctx, left, si - WORD_SIZE, p1).value.code;
    b1, p1 := w.contents, w.pos;
    w.AddRegStack(Rax, offset);
    ExtendedTrans(b0, p0, c, b1, p1, AddRegStack(Rax, offset), w.contents, w.pos);
    status := 0;
  }

  /** `AST_compile_call`. */
  method CompileCall(w: BufferWriter, ctx: Context, fn: Node, args: Node, si: int) returns (status: int)
    requires w.Valid() && Call(ctx, fn, args, si, w.pos).Some?
    requires w.pos + |Call(ctx, fn, args, si, w.pos).value.code| <= w.buf.Length
    modifies w, w.buf
    ensures w.Valid() && status == Call(ctx, fn, args, si, old(w.pos)).value.status
    ensures Extended(old(w.contents), old(w.pos), Call(ctx, fn, args, si, old(w.pos)).value.code, w.contents, w.pos)
    decreases Size(fn) + Size(args), 1
  {
    var name := fn.name;
    if IsUnary(name) {
      status := CompileUnary(w, ctx, args, si, name);
    } else if name == "+" {
      status := CompilePlus(w, ctx, args, si);
    } else if name == "let" {
      status := CompileLet(w, ctx, Operand1(args).value, Operand2(args).value, si);
    } else if name == "if" {
      status := CompileIf(w, ctx, Operand1(args).value, Operand2(args).value, Operand3(args).value, si);
    } else if name == "cons" {
      status := CompileCons(w, ctx, Operand1(args).value, Operand2(args).value, si);
    } else if name == "code" {
      status := CompileCode(w, ctx, Operand1(args).value, Operand2(args).value, -WORD_SIZE);
    } else {
      var target := Operand1(args).value;
      var codePos := Lookup(ctx.labels, target.name);
      if codePos.None? {
        return -1;
      }
      status := CompileLabelCall(w, ctx, codePos.value, Cdr(args).value, si);
    }
  }

  /** `AST_compile_let`. */
  method CompileLet(w: BufferWriter, ctx: Context, bindings: Node, body: Node, si: int) returns (status: int)
    requires w.Valid() && Let(ctx, bindings, body, si, w.pos).Some?
    requires w.pos + |Let(ctx, bindings, body, si, w.pos).value.code| <= w.buf.Length
    modifies w, w.buf
    ensures w.Valid() && status == Let(ctx, bindings, body, si, old(w.pos)).value.status
    ensures Extended(old(w.contents), old(w.pos), Let(ctx, bindings, body, si, old(w.pos)).value.code, w.contents, w.pos)
    decreases Size(bindings) + Size(body), 0
  {
    if bindings == Nil {
      var _ := CompileExpr(w, ctx, body, si);
      return 0;
    }
    ghost var b0, p0 := w.contents, w.pos;
    var first := bindings.car;
    var name := first.car;
    var e := first.cdr.car;
    var _ := CompileExpr(w, ctx, e, si);
    ghost var c := Expr(ctx, e, si, p0).value.code;
    ghost var b1, p1 := w.contents, w.pos;
    w.MovRegToStack(Rax, ToInt8(si));
    ExtendedTrans(b0, p0, c, b1, p1, MovRegToStack(Rax, ToInt8(si)), w.contents, w.pos);
    c := c + MovRegToStack(Rax, ToInt8(si));
    b1, p1 := w.contents, w.pos;
    var inner := WithLocals(ctx, EnvNode(name.name, si, ctx.locals));
    status := CompileLet(w, inner, bindings.cdr, body, si - WORD_SIZE);
    ExtendedTrans(b0, p0, c, b1, p1, Let(inner, bindings.cdr, body, si - WORD_SIZE, p1).value.code, w.contents, w.pos);
  }

  /** The pieces `If` puts together. */
  lemma IfParts(ctx: Context, test: Node, consequent: Node, alternative: Node, si: int, pos: nat)
    returns (c: seq<byte>, a: seq<byte>, b: seq<byte>)
    requires If(ctx, test, consequent, alternative, si, pos).Some?
    ensures Expr(ctx, test, si, pos).Some? && Expr(ctx, test, si, pos).value.code == c
    ensures Expr(ctx, consequent, si, pos + |c| + 12).Some? && Expr(ctx, consequent, si, pos + |c| + 12).value.code == a
    ensures Expr(ctx, alternative, si, pos + |c| + 12 + |a| + 5).Some?
            && Expr(ctx, alternative, si, pos + |c| + 12 + |a| + 5).value.code == b
    ensures If(ctx, test, consequent, alternative, si, pos).value
            == Out(c + CmpRegImm32(Rax, EncodeBool(false)) + [0x0f, 0x84] + Le32(|a| + 5) + a + [0xe9] + Le32(|b|) + b, 0)
    ensures |If(ctx, test, consequent, alternative, si, pos).value.code| == |c| + 12 + |a| + 5 + |b|
  {
    c := Expr(ctx, test, si, pos).value.code;
    a := Expr(ctx, consequent, si, pos + |c| + 12).value.code;
    b := Expr(ctx, alternative, si, pos + |c| + 12 + |a| + 5).value.code;
  }

  /** The placeholders `AST_compile_if` writes for its two jumps. */
  const IF_PLACEHOLDER: Int32 := 0x12345678
  const ELSE_PLACEHOLDER: Int32 := 0x1a2b3c4d

  /** `AST_compile_if` up to the `je`: the test, `cmp rax, #f` and the
      `je` with its placeholder. */
  method CompileIfTest(w: BufferWriter, ctx: Context, test: Node, si: int)
    requires w.Valid() && Expr(ctx, test, si, w.pos).Some?
    requires w.pos + |Expr(ctx, test, si, w.pos).value.code| + 12 <= w.buf.Length
    modifies w, w.buf
    ensures w.Valid()
    ensures Extended(old(w.contents), old(w.pos),
                     Expr(ctx, test, si, old(w.pos)).value.code + CmpRegImm32(Rax, EncodeBool(false)) + [0x0f, 0x84]
                     + Le32(IF_PLACEHOLDER), w.contents, w.pos)
    ensures w.pos == old(w.pos) + |Expr(ctx, test, si, old(w.pos)).value.code| + 12
    decreases Size(test), 2
  {
    ghost var b0, p0 := w.contents, w.pos;
    var _ := CompileExpr(w, ctx, test, si);
    ghost var c := Expr(ctx, test, si, p0).value.code;
    ghost var b1, p1 := w.contents, w.pos;
    w.CmpRegImm32(Rax, EncodeBool(false));
    ExtendedTrans(b0, p0, c, b1, p1, CmpRegImm32(Rax, EncodeBool(false)), w.contents, w.pos);
    c := c + CmpRegImm32(Rax, EncodeBool(false));
    b1, p1 := w.contents, w.pos;
    w.JeImm32(IF_PLACEHOLDER);
    ExtendedTrans(b0, p0, c, b1, p1, JeImm32(IF_PLACEHOLDER), w.contents, w.pos);
    assert c + JeImm32(IF_PLACEHOLDER) == c + [0x0f, 0x84] + Le32(IF_PLACEHOLDER);
  }

  /** `AST_compile_if`'s consequent and the `jmp` over the alternative with
      its placeholder. */
  method CompileIfConsequent(w: BufferWriter, ctx: Context, consequent: Node, si: int)
    requires w.Valid() && Expr(ctx, consequent, si, w.pos).Some?
    requires w.pos + |Expr(ctx, consequent, si, w.pos).value.code| + 5 <= w.buf.Length
    modifies w, w.buf
    ensures w.Valid()
    ensures Extended(old(w.contents), old(w.pos),
                     Expr(ctx, consequent, si, old(w.pos)).value.code + [0xe9] + Le32(ELSE_PLACEHOLDER), w.contents, w.pos)
    decreases Size(consequent), 2
  {
    ghost var b0, p0 := w.contents, w.pos;
    var _ := CompileExpr(w, ctx, consequent, si);
    ghost var a := Expr(ctx, consequent, si, p0).value.code;
    ghost var b1, p1 := w.contents, w.pos;
    w.JmpImm32(ELSE_PLACEHOLDER);
    ExtendedTrans(b0, p0, a, b1, p1, JmpImm32(ELSE_PLACEHOLDER), w.contents, w.pos);
    assert a + JmpImm32(ELSE_PLACEHOLDER) == a + [0xe9] + Le32(ELSE_PLACEHOLDER);
  }

  /** A backpatch of the placeholder that ends at `posAfterJump` in the
      code written since `p0`. */
  method BackpatchAt(w: BufferWriter, posAfterJump: int, ghost b0: seq<byte>, ghost p0: nat,
                     ghost x: seq<byte>, ghost placeholder: seq<byte>, ghost y: seq<byte>)
    requires w.Valid() && |placeholder| == 4 && posAfterJump == p0 + |x| + 4
    requires Extended(b0, p0, x + placeholder + y, w.contents, w.pos)
    modifies w, w.buf
    ensures w.Valid() && w.pos == old(w.pos)
    ensures Extended(b0, p0, x + Le32(w.pos - posAfterJump) + y, w.contents, w.pos)
  {
    ghost var b1 := w.contents;
    w.Backpatch(posAfterJump);
    PatchSplice(b0, p0, x, placeholder, y, Le32(w.pos - posAfterJump), b1, w.pos);
  }

  /** `AST_compile_if`'s alternative, once the code since `p0` is `d`
      and the `jmp` placeholder: the alternative, then the backpatch of the
      `jmp` to land after it. */
  method CompileIfAlternative(w: BufferWriter, ctx: Context, alternative: Node, si: int,
                              ghost b0: seq<byte>, ghost p0: nat, ghost d: seq<byte>)
    requires w.Valid() && Extended(b0, p0, d + Le32(ELSE_PLACEHOLDER), w.contents, w.pos)
    requires Expr(ctx, alternative, si, w.pos).Some?
    requires w.pos + |Expr(ctx, alternative, si, w.pos).value.code| <= w.buf.Length
    modifies w, w.buf
    ensures w.Valid()
    ensures Extended(b0, p0, d + Le32(|Expr(ctx, alternative, si, old(w.pos)).value.code|)
                             + Expr(ctx, alternative, si, old(w.pos)).value.code, w.contents, w.pos)
    decreases Size(alternative), 2
  {
    var endPos := w.pos;
    ghost var b1 := w.contents;
    var _ := CompileExpr(w, ctx, alternative, si);
    ghost var e := Expr(ctx, alternative, si, endPos).value.code;
    ExtendedTrans(b0, p0, d + Le32(ELSE_PLACEHOLDER), b1, endPos, e, w.contents, w.pos);
    BackpatchAt(w, endPos, b0, p0, d, Le32(ELSE_PLACEHOLDER), e);
    assert w.pos - endPos == |e|;
  }

  /** `AST_compile_if` after the `je`, once the code since `p0` is `x` and
      the `je` placeholder: the consequent and its `jmp`, the backpatch of
      the `je` to land after that `jmp`, then the alternative. */
  method CompileIfBranches(w: BufferWriter, ctx: Context, consequent: Node, alternative: Node, si: int,
                           ghost b0: seq<byte>, ghost p0: nat, ghost x: seq<byte>, ghost a: seq<byte>, ghost b: seq<byte>)
    requires w.Valid() && Extended(b0, p0, x + Le32(IF_PLACEHOLDER), w.contents, w.pos)
    requires Expr(ctx, consequent, si, w.pos).Some? && Expr(ctx, consequent, si, w.pos).value.code == a
    requires Expr(ctx, alternative, si, w.pos + |a| + 5).Some? && Expr(ctx, alternative, si, w.pos + |a| + 5).value.code == b
    requires w.pos + |a| + 5 + |b| <= w.buf.Length
    modifies w, w.buf
    ensures w.Valid()
    ensures Extended(b0, p0, x + Le32(|a| + 5) + a + [0xe9] + Le32(|b|) + b, w.contents, w.pos)
    decreases Size(consequent) + Size(alternative), 3
  {
    var iffalsePos := w.pos;
    ghost var b1 := w.contents;
    CompileIfConsequent(w, ctx, consequent, si);
    ghost var y := a + [0xe9] + Le32(ELSE_PLACEHOLDER);
    ExtendedTrans(b0, p0, x + Le32(IF_PLACEHOLDER), b1, iffalsePos, y, w.contents, w.pos);
    assert w.pos == iffalsePos + |a| + 5;
    BackpatchAt(w, iffalsePos, b0, p0, x, Le32(IF_PLACEHOLDER), y);
    ghost var d := x + Le32(|a| + 5) + a + [0xe9];
    assert x + Le32(|a| + 5) + y == d + Le32(ELSE_PLACEHOLDER);
    CompileIfAlternative(w, ctx, alternative, si, b0, p0, d);
  }

  /** `AST_compile_if` on the codes `c`, `a` and `b` of its three
      operands: both jumps are written with placeholders and backpatched
      once their targets are reached. */
  method CompileIfBody(w: BufferWriter, ctx: Context, test: Node, consequent: Node, alternative: Node, si: int,
                       ghost c: seq<byte>, ghost a: seq<byte>, ghost b: seq<byte>)
    requires w.Valid() && Expr(ctx, test, si, w.pos).Some? && Expr(ctx, test, si, w.pos).value.code == c
    requires Expr(ctx, consequent, si, w.pos + |c| + 12).Some? && Expr(ctx, consequent, si, w.pos + |c| + 12).value.code == a
    requires Expr(ctx, alternative, si, w.pos + |c| + 12 + |a| + 5).Some?
             && Expr(ctx, alternative, si, w.pos + |c| + 12 + |a| + 5).value.code == b
    requires w.pos + |c| + 12 + |a| + 5 + |b| <= w.buf.Length
    modifies w, w.buf
    ensures w.Valid()
    ensures Extended(old(w.contents), old(w.pos),
                     c + CmpRegImm32(Rax, EncodeBool(false)) + [0x0f, 0x84] + Le32(|a| + 5) + a + [0xe9] + Le32(|b|) + b,
                     w.contents, w.pos)
    decreases Size(test) + Size(consequent) + Size(alternative), 4
  {
    ghost var b0, p0 := w.contents, w.pos;
    CompileIfTest(w, ctx, test, si);
    CompileIfBranches(w, ctx, consequent, alternative, si, b0, p0, c + CmpRegImm32(Rax, EncodeBool(false)) + [0x0f, 0x84], a, b);
  }

  /** `AST_compile_if`. */
  method CompileIf(w: BufferWriter, ctx: Context, test: Node, consequent: Node, alternative: Node, si: int)
    returns (status: int)
    requires w.Valid() && If(ctx, test, consequent, alternative, si, w.pos).Some?
    requires w.pos + |If(ctx, test, consequent, alternative, si, w.pos).value.code| <= w.buf.Length
    modifies w, w.buf
    ensures w.Valid() && status == If(ctx, test, consequent, alternative, si, old(w.pos)).value.status
    ensures Extended(old(w.contents), old(w.pos), If(ctx, test, consequent, alternative, si, old(w.pos)).value.code,
                     w.contents, w.pos)
    decreases Size(test) + Size(consequent) + Size(alternative), 5
  {
    ghost var c, a, b := IfParts(ctx, test, consequent, alternative, si, w.pos);
    CompileIfBody(w, ctx, test, consequent, alternative, si, c, a, b);
    return 0;
  }

  /** The pieces `Cons` puts together. */
  lemma ConsParts(ctx: Context, car: Node, cdr: Node, si: int, pos: nat) returns (a: seq<byte>, b: seq<byte>)
    requires Cons(ctx, car, cdr, si, pos).Some?
    ensures Expr(ctx, car, si - WORD_SIZE, pos).Some? && Expr(ctx, car, si - WORD_SIZE, pos).value.code == a
    ensures Expr(ctx, cdr, si, pos + |a| + 4).Some? && Expr(ctx, cdr, si, pos + |a| + 4).value.code == b
    ensures Cons(ctx, car, cdr, si, pos).value
            == Out((a + MovRaxToRegDisp(Rsi, 0)) + (b + MovRaxToRegDisp(Rsi, WORD_SIZE)) + CONS_TAIL, 0)
  {
    a := Expr(ctx, car, si - WORD_SIZE, pos).value.code;
    b := Expr(ctx, cdr, si, pos + |a| + 4).value.code;
  }

  /** One half of `AST_compile_cons`: an operand, whose code is `code`,
      stored at `[rsi+disp]`. */
  method CompileConsField(w: BufferWriter, ctx: Context, e: Node, si: int, disp: Int8, ghost code: seq<byte>)
    requires w.Valid() && Expr(ctx, e, si, w.pos).Some? && Expr(ctx, e, si, w.pos).value.code == code
    requires w.pos + |code| + 4 <= w.buf.Length
    modifies w, w.buf
    ensures w.Valid()
    ensures Extended(old(w.contents), old(w.pos), code + MovRaxToRegDisp(Rsi, disp), w.contents, w.pos)
    decreases Size(e), 2
  {
    ghost var b0, p0 := w.contents, w.pos;
    var _ := CompileExpr(w, ctx, e, si);
    ghost var b1, p1 := w.contents, w.pos;
    w.MovRaxToRegDisp(Rsi, disp);
    ExtendedTrans(b0, p0, code, b1, p1, MovRaxToRegDisp(Rsi, disp), w.contents, w.pos);
  }

  /** The end of `AST_compile_cons`: tag the pointer, bump the heap. */
  method EmitConsTail(w: BufferWriter)
    requires w.Valid() && w.pos + |CONS_TAIL| <= w.buf.Length
    modifies w, w.buf
    ensures w.Valid() && Extended(old(w.contents), old(w.pos), CONS_TAIL, w.contents, w.pos)
  {
    ghost var b0, p0 := w.contents, w.pos;
    w.MovRegReg(Rax, Rsi);
    ghost var b1, p1 := w.contents, w.pos;
    w.OrRegImm32(Rax, PAIR_TAG);
    ExtendedTrans(b0, p0, MovRegReg(Rax, Rsi), b1, p1, OrRegImm32(Rax, PAIR_TAG), w.contents, w.pos);
    ghost var c := MovRegReg(Rax, Rsi) + OrRegImm32(Rax, PAIR_TAG);
    b1, p1 := w.contents, w.pos;
    w.AddRegImm32(Rsi, 2 * WORD_SIZE);
    ExtendedTrans(b0, p0, c, b1, p1, AddRegImm32(Rsi, 2 * WORD_SIZE), w.contents, w.pos);
  }

  /** `AST_compile_cons`. */
  method CompileCons(w: BufferWriter, ctx: Context, car: Node, cdr: Node, si: int) returns (status: int)
    requires w.Valid() && Cons(ctx, car, cdr, si, w.pos).Some?
    requires w.pos + |Cons(ctx, car, cdr, si, w.pos).value.code| <= w.buf.Length
    modifies w, w.buf
    ensures w.Valid() && status == Cons(ctx, car, cdr, si, old(w.pos)).value.status
    ensures Extended(old(w.contents), old(w.pos), Cons(ctx, car, cdr, si, old(w.pos)).value.code, w.contents, w.pos)
    decreases Size(car) + Size(cdr), 3
  {
    ghost var b0, p0 := w.contents, w.pos;
    ghost var a, b := ConsParts(ctx, car, cdr, si, p0);
    CompileConsField(w, ctx, car, si - WORD_SIZE, 0, a);
    ghost var b1, p1 := w.contents, w.pos;
    assert p1 == p0 + |a| + 4;
    CompileConsField(w, ctx, cdr, si, WORD_SIZE, b);
    ExtendedTrans(b0, p0, a + MovRaxToRegDisp(Rsi, 0), b1, p1, b + MovRaxToRegDisp(Rsi, WORD_SIZE), w.contents, w.pos);
    ghost var c := (a + MovRaxToRegDisp(Rsi, 0)) + (b + MovRaxToRegDisp(Rsi, WORD_SIZE));
    b1, p1 := w.contents, w.pos;
    EmitConsTail(w);
    ExtendedTrans(b0, p0, c, b1, p1, CONS_TAIL, w.contents, w.pos);
    status := 0;
  }

  /** `AST_compile_code`. */
  method CompileCode(w: BufferWriter, ctx: Context, formals: Node, body: Node, si: int) returns (status: int)
    requires w.Valid() && Code(ctx, formals, body, si, w.pos).Some?
    requires w.pos + |Code(ctx, formals, body, si, w.pos).value.code| <= w.buf.Length
    modifies w, w.buf
    ensures w.Valid() && status == Code(ctx, formals, body, si, old(w.pos)).value.status
    ensures Extended(old(w.contents), old(w.pos), Code(ctx, formals, body, si, old(w.pos)).value.code, w.contents, w.pos)
    decreases Size(formals) + Size(body), 0
  {
    if formals == Nil {
      ghost var b0, p0 := w.contents, w.pos;
      var result := CompileExpr(w, ctx, body, si);
      if result != 0 {
        return result;
      }
      ghost var b1, p1 := w.contents, w.pos;
      w.Ret();
      ExtendedTrans(b0, p0, Expr(ctx, body, si, p0).value.code, b1, p1, Ret(), w.contents, w.pos);
      return 0;
    }
    var name := formals.car;
    var inner := WithLocals(ctx, EnvNode(name.name, si, ctx.locals));
    status := CompileCode(w, inner, formals.cdr, body, si - WORD_SIZE);
  }

  /** `AST_compile_labelcall`. */
  method CompileLabelCall(w: BufferWriter, ctx: Context, codePos: int, args: Node, si: int) returns (status: int)
    requires w.Valid() && LabelCall(ctx, codePos, args, si, w.pos).Some?
    requires w.pos + |LabelCall(ctx, codePos, args, si, w.pos).value.code| <= w.buf.Length
    modifies w, w.buf
    ensures w.Valid() && status == LabelCall(ctx, codePos, args, si, old(w.pos)).value.status
    ensures Extended(old(w.contents), old(w.pos), LabelCall(ctx, codePos, args, si, old(w.pos)).value.code,
                     w.contents, w.pos)
    decreases Size(args), 0
  {
    if args == Nil {
      var disp := Wrap32(codePos - w.pos);
      w.CallImm32(disp);
      return 0;
    }
    ghost var b0, p0 := w.contents, w.pos;
    var result := CompileExpr(w, ctx, args.car, si);
    if result != 0 {
      return result;
    }
    ghost var c := Expr(ctx, args.car, si, p0).value.code;
    ghost var b1, p1 := w.contents, w.pos;
    w.MovRegToStack(Rax, ToInt8(si));
    ExtendedTrans(b0, p0, c, b1, p1, MovRegToStack(Rax, ToInt8(si)), w.contents, w.pos);
    c := c + MovRegToStack(Rax, ToInt8(si));
    b1, p1 := w.contents, w.pos;
    status := CompileLabelCall(w, ctx, codePos, args.cdr, si - WORD_SIZE);
    ExtendedTrans(b0, p0, c, b1, p1, LabelCall(ctx, codePos, args.cdr, si - WORD_SIZE, p1).value.code,
                  w.contents, w.pos);
  }

  /** `AST_compile_function`. */
  method CompileFunction(w: BufferWriter, ctx: Context, node: Node) returns (status: int)
    requires w.Valid() && Function(ctx, node, w.pos).Some?
    requires w.pos + |Function(ctx, node, w.pos).value.code| <= w.buf.Length
    modifies w, w.buf
    ensures w.Valid() && status == Function(ctx, node, old(w.pos)).value.status
    ensures Extended(old(w.contents), old(w.pos), Function(ctx, node, old(w.pos)).value.code, w.contents, w.pos)
  {
    ghost var b0, p0 := w.contents, w.pos;
    var result := CompileExpr(w, ctx, node, -WORD_SIZE);
    if result != 0 {
      return result;
    }
    ghost var b1, p1 := w.contents, w.pos;
    w.Ret();
    ExtendedTrans(b0, p0, Expr(ctx, node, -WORD_SIZE, p0).value.code, b1, p1, Ret(), w.contents, w.pos);
    status := 0;
  }

  /** `AST_compile_entry`. */
  method CompileEntry(w: BufferWriter, ctx: Context, node: Node) returns (status: int)
    requires w.Valid() && Entry(ctx, node, w.pos).Some?
    requires w.pos + |Entry(ctx, node, w.pos).value.code| <= w.buf.Length
    modifies w, w.buf
    ensures w.Valid() && status == Entry(ctx, node, old(w.pos)).value.status
    ensures Extended(old(w.contents), old(w.pos), Entry(ctx, node, old(w.pos)).value.code, w.contents, w.pos)
  {
    ghost var b0, p0 := w.contents, w.pos;
    w.MovRegReg(Rsi, Rdi);
    ghost var b1, p1 := w.contents, w.pos;
    status := CompileFunction(w, ctx, node);
    ExtendedTrans(b0, p0, MovRegReg(Rsi, Rdi), b1, p1, Function(ctx, node, p1).value.code, w.contents, w.pos);
  }

  /** The pieces `Labels` puts together. */
  lemma LabelsNilParts(ctx: Context, body: Node, si: int, pos: nat)
    requires Labels(ctx, Nil, body, si, pos).Some?
    ensures Entry(ctx, body, pos).Some?
    ensures Labels(ctx, Nil, body, si, pos).value
            == LabelsOut(Entry(ctx, body, pos).value.code, Entry(ctx, body, pos).value.status, Some(pos))
  {
  }

  /** The pieces `Labels` puts together for a first binding: the label
      expression's code `x` and, when it succeeds, the rest `r`. */
  lemma LabelsPairParts(ctx: Context, bindings: Node, body: Node, si: int, pos: nat) returns (x: Out, r: LabelsOut)
    requires Labels(ctx, bindings, body, si, pos).Some? && !bindings.Nil?
    ensures bindings.Pair? && bindings.car.Pair? && bindings.car.car.Atom? && bindings.car.cdr.Pair?
    ensures var inner := WithLabels(ctx, EnvNode(bindings.car.car.name, pos, ctx.labels));
            Expr(inner, bindings.car.cdr.car, si, pos) == Some(x)
            && (x.status != 0 ==> Labels(ctx, bindings, body, si, pos).value == LabelsOut(x.code, x.status, None))
            && (x.status == 0 ==>
                  Labels(inner, bindings.cdr, body, si, pos + |x.code|) == Some(r)
                  && Labels(ctx, bindings, body, si, pos).value == LabelsOut(x.code + r.code, r.status, r.entry))
  {
    var inner := WithLabels(ctx, EnvNode(bindings.car.car.name, pos, ctx.labels));
    x := Expr(inner, bindings.car.cdr.car, si, pos).value;
    if x.status == 0 {
      r := Labels(inner, bindings.cdr, body, si, pos + |x.code|).value;
    } else {
      r := LabelsOut([], 0, None);
    }
  }

  /** A label's code followed by the rest of the labels, whose compilation
      backpatched the entry jump below both. */
  lemma {:induction false} LabelsStep(b0: seq<byte>, p0: nat, x: seq<byte>, b1: seq<byte>, p1: nat,
                                      r: LabelsOut, b2: seq<byte>, p2: nat, bodyPos: nat)
    requires 4 <= bodyPos <= p0 && Extended(b0, p0, x, b1, p1)
    requires Extended(EntryPatched(b1, bodyPos, r.entry), p1, r.code, b2, p2)
    ensures Extended(EntryPatched(b0, bodyPos, r.entry), p0, x + r.code, b2, p2)
  {
    if r.entry.Some? {
      PatchExtended(b0, p0, x, b1, p1, bodyPos - 4, Le32(r.entry.value - bodyPos));
    }
    ExtendedTrans(EntryPatched(b0, bodyPos, r.entry), p0, x, EntryPatched(b1, bodyPos, r.entry), p1, r.code, b2, p2);
  }

  /** The end of `AST_compile_labels`: backpatch the jump whose
      displacement ends at `bodyPos` to the cursor, then the entry code. */
  method CompileLabelsEntry(w: BufferWriter, ctx: Context, body: Node, bodyPos: int) returns (status: int)
    requires w.Valid() && 4 <= bodyPos <= w.pos && Entry(ctx, body, w.pos).Some?
    requires w.pos + |Entry(ctx, body, w.pos).value.code| <= w.buf.Length
    modifies w, w.buf
    ensures w.Valid() && status == Entry(ctx, body, old(w.pos)).value.status
    ensures Extended(Patch(old(w.contents), bodyPos - 4, Le32(old(w.pos) - bodyPos)), old(w.pos),
                     Entry(ctx, body, old(w.pos)).value.code, w.contents, w.pos)
  {
    w.Backpatch(bodyPos);
    status := CompileEntry(w, ctx, body);
  }

  /** `AST_compile_labels`: the jump whose displacement ends at `bodyPos`
      is backpatched to the entry code once every label is compiled. */
  method CompileLabels(w: BufferWriter, ctx: Context, bindings: Node, body: Node, bodyPos: int, si: int)
    returns (status: int)
    requires w.Valid() && 4 <= bodyPos <= w.pos && Labels(ctx, bindings, body, si, w.pos).Some?
    requires w.pos + |Labels(ctx, bindings, body, si, w.pos).value.code| <= w.buf.Length
    modifies w, w.buf
    ensures w.Valid() && status == Labels(ctx, bindings, body, si, old(w.pos)).value.status
    ensures Extended(EntryPatched(old(w.contents), bodyPos, Labels(ctx, bindings, body, si, old(w.pos)).value.entry),
                     old(w.pos), Labels(ctx, bindings, body, si, old(w.pos)).value.code, w.contents, w.pos)
    decreases Size(bindings)
  {
    if bindings == Nil {
      LabelsNilParts(ctx, body, si, w.pos);
      status := CompileLabelsEntry(w, ctx, body, bodyPos);
      return;
    }
    ghost var b0, p0 := w.contents, w.pos;
    ghost var x, r := LabelsPairParts(ctx, bindings, body, si, p0);
    var binding := bindings.car;
    var name := binding.car;
    var exp := binding.cdr.car;
    var inner := WithLabels(ctx, EnvNode(name.name, w.pos, ctx.labels));
    var result := CompileExpr(w, inner, exp, si);
    if result != 0 {
      return result;
    }
    ghost var b1, p1 := w.contents, w.pos;
    assert p1 == p0 + |x.code|;
    status := CompileLabels(w, inner, bindings.cdr, body, bodyPos, si);
    LabelsStep(b0, p0, x.code, b1, p1, r, w.contents, w.pos, bodyPos);
  }

  /** The jump over the label codes once the entry code's backpatch has
      landed in it. */
  lemma JumpPatched(b0: seq<byte>, p0: nat, b1: seq<byte>, entry: Option<nat>)
    requires Extended(b0, p0, JmpImm32(JUMP_PLACEHOLDER), b1, p0 + 5)
    ensures Extended(b0, p0, [0xe9] + JumpDisplacement(p0 + 5, entry), EntryPatched(b1, p0 + 5, entry), p0 + 5)
  {
    if entry.Some? {
      PatchSplice(b0, p0, [0xe9], Le32(JUMP_PLACEHOLDER), [], Le32(entry.value - (p0 + 5)), b1, p0 + 5);
      assert [0xe9] + Le32(entry.value - (p0 + 5)) + [] == [0xe9] + Le32(entry.value - (p0 + 5));
    }
  }

  /** The pieces `Prog` puts together. */
  lemma ProgParts(ctx: Context, prog: Node, pos: nat)
    requires Prog(ctx, prog, pos).Some?
    ensures prog.Pair? && Operand1(prog.cdr).Some? && Operand2(prog.cdr).Some?
    ensures var l := Labels(ctx, Operand1(prog.cdr).value, Operand2(prog.cdr).value, -WORD_SIZE, pos + 5);
            l.Some? && Prog(ctx, prog, pos).value
                       == Out([0xe9] + JumpDisplacement(pos + 5, l.value.entry) + l.value.code, l.value.status)
  {
  }

  /** `AST_compile_prog`: a jump over the label codes, then the labels. */
  method CompileProg(w: BufferWriter, ctx: Context, prog: Node) returns (status: int)
    requires w.Valid() && Prog(ctx, prog, w.pos).Some?
    requires w.pos + |Prog(ctx, prog, w.pos).value.code| <= w.buf.Length
    modifies w, w.buf
    ensures w.Valid() && status == Prog(ctx, prog, old(w.pos)).value.status
    ensures Extended(old(w.contents), old(w.pos), Prog(ctx, prog, old(w.pos)).value.code, w.contents, w.pos)
  {
    ProgParts(ctx, prog, w.pos);
    var args := prog.cdr;
    ghost var b0, p0 := w.contents, w.pos;
    w.JmpImm32(JUMP_PLACEHOLDER);
    var bodyPos := w.pos;
    ghost var b1 := w.contents;
    var body := Operand2(args).value;
    var bindings := Operand1(args).value;
    status := CompileLabels(w, ctx, bindings, body, bodyPos, -WORD_SIZE);
    ghost var l := Labels(ctx, bindings, body, -WORD_SIZE, bodyPos).value;
    JumpPatched(b0, p0, b1, l.entry);
    ExtendedTrans(b0, p0, [0xe9] + JumpDisplacement(bodyPos, l.entry), EntryPatched(b1, bodyPos, l.entry), bodyPos,
                  l.code, w.contents, w.pos);
  }
}
