/** The byte-exact expectations of compiler.c's own tests, proved of the
    functions of `CCodegen`: these are the bytes the compile methods of
    `CCompiler` write. */
module CGolden {
  import opened Util
  import opened CBytes
  import opened CX86
  import opened CAst
  import opened CCodegen
  import CCompiler

  const EMPTY: Context := Context(EnvNil, EnvNil)

  /** `(f x)` and `(f x y)` as the reader builds them. */
  function Call1(f: string, x: Node): Node {
    Pair(Atom(f), Pair(x, Nil))
  }

  function Call2(f: string, x: Node, y: Node): Node {
    Pair(Atom(f), Pair(x, Pair(y, Nil)))
  }

  function Call3(f: string, x: Node, y: Node, z: Node): Node {
    Pair(Atom(f), Pair(x, Pair(y, Pair(z, Nil))))
  }

  /** A `let` or `labels` binding `(name e)`. */
  function Binding(name: string, e: Node): Node {
    Pair(Atom(name), Pair(e, Nil))
  }

  // Small words and stack slots, the building blocks of the expected bytes.

  /** A word below 256 is written as its low byte and three zeros. */
  lemma SmallWord(v: int)
    requires 0 <= v < 0x100
    ensures Le32(v) == [v, 0, 0, 0]
  {
    assert U32(v) == v;
    assert ByteOf(v, 0) == v;
    assert ByteOf(v, 1) == 0;
    assert ByteOf(v, 2) == 0;
    assert ByteOf(v, 3) == 0;
  }

  /** A fixnum below 64 loads as `mov eax, 4n`. */
  lemma SmallFixnum(ctx: Context, n: int, si: int, pos: nat)
    requires 0 <= n < 64
    ensures Expr(ctx, Fixnum(n), si, pos) == Some(Out([0xb8, 4 * n, 0, 0, 0], 0))
  {
    assert FixnumInRange(n);
    assert EncodeFixnum(n) == 4 * n;
    SmallWord(4 * n);
    assert MovRegImm32(Rax, 4 * n) == [0xb8] + [4 * n, 0, 0, 0] == [0xb8, 4 * n, 0, 0, 0];
    assert Expr(ctx, Fixnum(n), si, pos) == Some(Out(MovRegImm32(Rax, EncodeFixnum(n)), 0));
  }

  /** A stack index of one signed byte is its own offset, and the three
      stack instructions end in its byte. */
  lemma Slot(si: int)
    requires -0x80 <= si < 0
    ensures StackOffset(si) == Some(si)
    ensures MovRegToStack(Rax, si) == [0x48, 0x89, 0x44, 0x24, 0x100 + si]
    ensures MovStackToReg(Rax, si) == [0x48, 0x8b, 0x44, 0x24, 0x100 + si]
    ensures AddRegStack(Rax, si) == [0x48, 0x03, 0x44, 0x24, 0x100 + si]
  {
    assert ToInt8(si) == si;
  }

  // Which compile function `AST_compile_call` hands each form to.

  lemma CallPlus(ctx: Context, left: Node, right: Node, si: int, pos: nat)
    ensures Expr(ctx, Call2("+", left, right), si, pos) == Plus(ctx, Pair(left, Pair(right, Nil)), si, pos)
  {
    assert !IsUnary("+");
  }

  lemma CallLet(ctx: Context, bindings: Node, body: Node, si: int, pos: nat)
    ensures Expr(ctx, Call2("let", bindings, body), si, pos) == Let(ctx, bindings, body, si, pos)
  {
    var args := Pair(bindings, Pair(body, Nil));
    assert Operand1(args) == Some(bindings) && Operand2(args) == Some(body);
    assert !IsUnary("let");
  }

  lemma CallIf(ctx: Context, test: Node, consequent: Node, alternative: Node, si: int, pos: nat)
    ensures Expr(ctx, Call3("if", test, consequent, alternative), si, pos)
            == If(ctx, test, consequent, alternative, si, pos)
  {
    var args := Pair(test, Pair(consequent, Pair(alternative, Nil)));
    assert Operand1(args) == Some(test) && Operand2(args) == Some(consequent) && Operand3(args) == Some(alternative);
    assert !IsUnary("if");
  }

  lemma CallCons(ctx: Context, car: Node, cdr: Node, si: int, pos: nat)
    ensures Expr(ctx, Call2("cons", car, cdr), si, pos) == Cons(ctx, car, cdr, si, pos)
  {
    var args := Pair(car, Pair(cdr, Nil));
    assert Operand1(args) == Some(car) && Operand2(args) == Some(cdr);
    assert !IsUnary("cons");
  }

  /** `(code formals body)` compiles its body from -8, whatever the stack
      index it appears at. */
  lemma CodeCall(ctx: Context, formals: Node, body: Node, si: int, pos: nat)
    ensures Expr(ctx, Call2("code", formals, body), si, pos) == Code(ctx, formals, body, -WORD_SIZE, pos)
  {
    var args := Pair(formals, Pair(body, Nil));
    assert Operand1(args) == Some(formals) && Operand2(args) == Some(body);
    assert !IsUnary("code");
  }

  lemma CallLabelCall(ctx: Context, target: string, codePos: int, rest: Node, si: int, pos: nat)
    requires Lookup(ctx.labels, target) == Some(codePos)
    ensures Expr(ctx, Pair(Atom("labelcall"), Pair(Atom(target), rest)), si, pos) == LabelCall(ctx, codePos, rest, si, pos)
  {
    var args := Pair(Atom(target), rest);
    assert Operand1(args) == Some(Atom(target)) && Cdr(args) == Some(rest);
    assert !IsUnary("labelcall");
  }

  /** The bytes each primitive of one operand appends after its operand. */
  lemma UnaryTails()
    ensures IsUnary("add1") && UnaryTail("add1") == [0x05, 0x04, 0x00, 0x00, 0x00]
    ensures IsUnary("sub1") && UnaryTail("sub1") == [0x2d, 0x04, 0x00, 0x00, 0x00]
    ensures IsUnary("integer->char") && UnaryTail("integer->char") == [0x48, 0xc1, 0xe0, 0x06, 0x48, 0x0d, 0x0f, 0x00, 0x00, 0x00]
    ensures IsUnary("zero?") && UnaryTail("zero?") == [0x48, 0x3d, 0x00, 0x00, 0x00, 0x00, 0xb8, 0x00, 0x00, 0x00, 0x00,
                                                        0x0f, 0x94, 0xc0, 0x48, 0xc1, 0xe0, 0x07, 0x48, 0x0d, 0x1f, 0x00,
                                                        0x00, 0x00]
    ensures IsUnary("car") && UnaryTail("car") == [0x48, 0x8b, 0x40, 0xff]
    ensures IsUnary("cdr") && UnaryTail("cdr") == [0x48, 0x8b, 0x40, 0x07]
  {
    assert ADD1_TAIL == [0x05, 0x04, 0x00, 0x00, 0x00] by {
      assert EncodeFixnum(1) == 4;
      SmallWord(4);
    }
    assert SUB1_TAIL == [0x2d, 0x04, 0x00, 0x00, 0x00] by {
      assert EncodeFixnum(1) == 4;
      SmallWord(4);
    }
    assert CHAR_TAIL == [0x48, 0xc1, 0xe0, 0x06, 0x48, 0x0d, 0x0f, 0x00, 0x00, 0x00] by {
      SmallWord(0x0f);
    }
    assert ZEROP_TAIL == [0x48, 0x3d, 0x00, 0x00, 0x00, 0x00, 0xb8, 0x00, 0x00, 0x00, 0x00, 0x0f, 0x94,
                          0xc0, 0x48, 0xc1, 0xe0, 0x07, 0x48, 0x0d, 0x1f, 0x00, 0x00, 0x00] by {
      SmallWord(0);
      SmallWord(0x1f);
    }
    assert CAR_TAIL == [0x48, 0x8b, 0x40, 0xff];
    assert CDR_TAIL == [0x48, 0x8b, 0x40, 0x07];
  }

  /** A primitive of one operand: the operand's code, then its tail. */
  lemma UnaryCode(ctx: Context, name: string, x: Node, si: int, pos: nat, code: seq<byte>)
    requires IsUnary(name) && Expr(ctx, x, si, pos) == Some(Out(code, 0))
    ensures Expr(ctx, Call1(name, x), si, pos) == Some(Out(code + UnaryTail(name), 0))
  {
    assert Operand1(Pair(x, Nil)) == Some(x);
    assert Call(ctx, Atom(name), Pair(x, Nil), si, pos) == Unary(ctx, Pair(x, Nil), si, pos, UnaryTail(name));
  }

  /** `(+ left right)` at a one-byte stack index. */
  lemma PlusCode(ctx: Context, left: Node, right: Node, si: int, pos: nat, a: seq<byte>, b: seq<byte>)
    requires -0x80 <= si < 0
    requires Expr(ctx, right, si, pos) == Some(Out(b, 0))
    requires Expr(ctx, left, si - WORD_SIZE, pos + |b| + 5) == Some(Out(a, 0))
    ensures Expr(ctx, Call2("+", left, right), si, pos)
            == Some(Out(b + [0x48, 0x89, 0x44, 0x24, 0x100 + si] + a + [0x48, 0x03, 0x44, 0x24, 0x100 + si], 0))
  {
    Slot(si);
    CallPlus(ctx, left, right, si, pos);
  }

  /** `(+ m n)` of two small fixnums at a one-byte stack index. */
  lemma PlusFixnums(ctx: Context, m: int, n: int, si: int, pos: nat)
    requires 0 <= m < 64 && 0 <= n < 64 && -0x80 <= si < 0
    ensures Expr(ctx, Call2("+", Fixnum(m), Fixnum(n)), si, pos)
            == Some(Out([0xb8, 4 * n, 0, 0, 0, 0x48, 0x89, 0x44, 0x24, 0x100 + si,
                         0xb8, 4 * m, 0, 0, 0, 0x48, 0x03, 0x44, 0x24, 0x100 + si], 0))
  {
    var b: seq<byte> := [0xb8, 4 * n, 0, 0, 0];
    var a: seq<byte> := [0xb8, 4 * m, 0, 0, 0];
    SmallFixnum(ctx, n, si, pos);
    SmallFixnum(ctx, m, si - WORD_SIZE, pos + |b| + 5);
    PlusCode(ctx, Fixnum(m), Fixnum(n), si, pos, a, b);
    assert b + [0x48, 0x89, 0x44, 0x24, 0x100 + si] + a + [0x48, 0x03, 0x44, 0x24, 0x100 + si]
        == [0xb8, 4 * n, 0, 0, 0, 0x48, 0x89, 0x44, 0x24, 0x100 + si,
            0xb8, 4 * m, 0, 0, 0, 0x48, 0x03, 0x44, 0x24, 0x100 + si];
  }

  /** `AST_compile_function` appends `ret` to an expression that compiled. */
  lemma FunctionRet(ctx: Context, node: Node, pos: nat, code: seq<byte>)
    requires Expr(ctx, node, -WORD_SIZE, pos) == Some(Out(code, 0))
    ensures Function(ctx, node, pos) == Some(Out(code + [0xc3], 0))
  {
  }

  // The tests.

  /** `compile_fixnum`: `mov eax, 123 << 2; ret`. */
  lemma GoldenFixnum(pos: nat)
    ensures Function(EMPTY, Fixnum(123), pos) == Some(Out([0xb8, 0xec, 0x01, 0x00, 0x00, 0xc3], 0))
  {
    assert EncodeFixnum(123) == 492;
    assert U32(492) == 492;
    assert ByteOf(492, 0) == 0xec;
    assert ByteOf(492, 1) == 0x01;
    assert Le32(492) == [0xec, 0x01, 0x00, 0x00];
    assert MovRegImm32(Rax, 492) == [0xb8, 0xec, 0x01, 0x00, 0x00];
    FunctionRet(EMPTY, Fixnum(123), pos, [0xb8, 0xec, 0x01, 0x00, 0x00]);
    assert [0xb8, 0xec, 0x01, 0x00, 0x00] + [0xc3] == [0xb8, 0xec, 0x01, 0x00, 0x00, 0xc3];
  }

  /** `compile_primcall_add1`: the operand, then `add eax, 4`. */
  lemma GoldenAdd1(pos: nat)
    ensures Function(EMPTY, Call1("add1", Fixnum(5)), pos)
            == Some(Out([0xb8, 0x14, 0x00, 0x00, 0x00, 0x05, 0x04, 0x00, 0x00, 0x00, 0xc3], 0))
  {
    var x: seq<byte> := [0xb8, 0x14, 0x00, 0x00, 0x00];
    assert x + [0x05, 0x04, 0x00, 0x00, 0x00] + [0xc3]
        == [0xb8, 0x14, 0x00, 0x00, 0x00, 0x05, 0x04, 0x00, 0x00, 0x00, 0xc3];
    UnaryTails();
    SmallFixnum(EMPTY, 5, -WORD_SIZE, pos);
    UnaryCode(EMPTY, "add1", Fixnum(5), -WORD_SIZE, pos, x);
    FunctionRet(EMPTY, Call1("add1", Fixnum(5)), pos, x + [0x05, 0x04, 0x00, 0x00, 0x00]);
  }

  /** `compile_primcall_sub1`: the operand, then `sub eax, 4`. */
  lemma GoldenSub1(pos: nat)
    ensures Function(EMPTY, Call1("sub1", Fixnum(5)), pos)
            == Some(Out([0xb8, 0x14, 0x00, 0x00, 0x00, 0x2d, 0x04, 0x00, 0x00, 0x00, 0xc3], 0))
  {
    var x: seq<byte> := [0xb8, 0x14, 0x00, 0x00, 0x00];
    assert x + [0x2d, 0x04, 0x00, 0x00, 0x00] + [0xc3]
        == [0xb8, 0x14, 0x00, 0x00, 0x00, 0x2d, 0x04, 0x00, 0x00, 0x00, 0xc3];
    UnaryTails();
    SmallFixnum(EMPTY, 5, -WORD_SIZE, pos);
    UnaryCode(EMPTY, "sub1", Fixnum(5), -WORD_SIZE, pos, x);
    FunctionRet(EMPTY, Call1("sub1", Fixnum(5)), pos, x + [0x2d, 0x04, 0x00, 0x00, 0x00]);
  }

  /** `compile_primcall_integer_to_char`: the operand, `shl rax, 6` and
      `or rax, 0x0f` (the test's comment says `and`; its bytes are `or`). */
  lemma GoldenIntegerToChar(pos: nat)
    ensures Function(EMPTY, Call1("integer->char", Fixnum(65)), pos)
            == Some(Out([0xb8, 0x04, 0x01, 0x00, 0x00, 0x48, 0xc1, 0xe0, 0x06, 0x48, 0x0d, 0x0f, 0x00, 0x00,
                         0x00, 0xc3], 0))
  {
    var x: seq<byte> := [0xb8, 0x04, 0x01, 0x00, 0x00];
    assert x + [0x48, 0xc1, 0xe0, 0x06, 0x48, 0x0d, 0x0f, 0x00, 0x00, 0x00] + [0xc3]
        == [0xb8, 0x04, 0x01, 0x00, 0x00, 0x48, 0xc1, 0xe0, 0x06, 0x48, 0x0d, 0x0f, 0x00, 0x00, 0x00, 0xc3];
    UnaryTails();
    FixnumWord(65);
    assert FixnumInRange(65) && EncodeFixnum(65) == 0x104;
    assert U32(0x104) == 0x104;
    assert ByteOf(0x104, 0) == 0x04;
    assert ByteOf(0x104, 1) == 0x01;
    assert Le32(0x104) == [0x04, 0x01, 0x00, 0x00];
    assert MovRegImm32(Rax, 0x104) == x;
    assert Expr(EMPTY, Fixnum(65), -WORD_SIZE, pos) == Some(Out(x, 0));
    UnaryCode(EMPTY, "integer->char", Fixnum(65), -WORD_SIZE, pos, x);
    FunctionRet(EMPTY, Call1("integer->char", Fixnum(65)), pos, x + [0x48, 0xc1, 0xe0, 0x06, 0x48, 0x0d, 0x0f, 0x00, 0x00, 0x00]);
  }

  /** The test's bytes for `(zero? (sub1 (add1 0)))`, as the pieces the
      compile functions append. */
  lemma ZeroPBytes(c0: seq<byte>)
    requires c0 == [0xb8, 0x00, 0x00, 0x00, 0x00]
    ensures c0 + [0x05, 0x04, 0x00, 0x00, 0x00] + [0x2d, 0x04, 0x00, 0x00, 0x00]
            + [0x48, 0x3d, 0x00, 0x00, 0x00, 0x00, 0xb8, 0x00, 0x00, 0x00, 0x00, 0x0f, 0x94,
               0xc0, 0x48, 0xc1, 0xe0, 0x07, 0x48, 0x0d, 0x1f, 0x00, 0x00, 0x00] + [0xc3]
            == [0xb8, 0x00, 0x00, 0x00, 0x00, 0x05, 0x04, 0x00, 0x00, 0x00, 0x2d, 0x04, 0x00, 0x00,
                0x00, 0x48, 0x3d, 0x00, 0x00, 0x00, 0x00, 0xb8, 0x00, 0x00, 0x00, 0x00, 0x0f, 0x94,
                0xc0, 0x48, 0xc1, 0xe0, 0x07, 0x48, 0x0d, 0x1f, 0x00, 0x00, 0x00, 0xc3]
  {
  }

  /** `zerop_with_zero_returns_true`: `(zero? (sub1 (add1 0)))`. */
  lemma GoldenZeroP(pos: nat)
    ensures Function(EMPTY, Call1("zero?", Call1("sub1", Call1("add1", Fixnum(0)))), pos)
            == Some(Out([0xb8, 0x00, 0x00, 0x00, 0x00, 0x05, 0x04, 0x00, 0x00, 0x00, 0x2d, 0x04, 0x00, 0x00,
                         0x00, 0x48, 0x3d, 0x00, 0x00, 0x00, 0x00, 0xb8, 0x00, 0x00, 0x00, 0x00, 0x0f, 0x94,
                         0xc0, 0x48, 0xc1, 0xe0, 0x07, 0x48, 0x0d, 0x1f, 0x00, 0x00, 0x00, 0xc3], 0))
  {
    var c0: seq<byte> := [0xb8, 0x00, 0x00, 0x00, 0x00];
    var c1: seq<byte> := c0 + [0x05, 0x04, 0x00, 0x00, 0x00];
    var c2: seq<byte> := c1 + [0x2d, 0x04, 0x00, 0x00, 0x00];
    var c3: seq<byte> := c2 + [0x48, 0x3d, 0x00, 0x00, 0x00, 0x00, 0xb8, 0x00, 0x00, 0x00, 0x00, 0x0f, 0x94,
                               0xc0, 0x48, 0xc1, 0xe0, 0x07, 0x48, 0x0d, 0x1f, 0x00, 0x00, 0x00];
    ZeroPBytes(c0);
    UnaryTails();
    SmallFixnum(EMPTY, 0, -WORD_SIZE, pos);
    UnaryCode(EMPTY, "add1", Fixnum(0), -WORD_SIZE, pos, c0);
    UnaryCode(EMPTY, "sub1", Call1("add1", Fixnum(0)), -WORD_SIZE, pos, c1);
    UnaryCode(EMPTY, "zero?", Call1("sub1", Call1("add1", Fixnum(0))), -WORD_SIZE, pos, c2);
    FunctionRet(EMPTY, Call1("zero?", Call1("sub1", Call1("add1", Fixnum(0)))), pos, c3);
  }

  /** `compile_add_two_ints`: `(+ 1 2)` stores 2 at `[rsp-8]`, loads 1
      and adds the slot. */
  lemma GoldenPlus(pos: nat)
    ensures Function(EMPTY, Call2("+", Fixnum(1), Fixnum(2)), pos)
            == Some(Out([0xb8, 0x08, 0x00, 0x00, 0x00, 0x48, 0x89, 0x44, 0x24, 0xf8, 0xb8, 0x04, 0x00, 0x00,
                         0x00, 0x48, 0x03, 0x44, 0x24, 0xf8, 0xc3], 0))
  {
    PlusFixnums(EMPTY, 1, 2, -WORD_SIZE, pos);
    FunctionRet(EMPTY, Call2("+", Fixnum(1), Fixnum(2)), pos,
                [0xb8, 0x08, 0x00, 0x00, 0x00, 0x48, 0x89, 0x44, 0x24, 0xf8, 0xb8, 0x04, 0x00, 0x00, 0x00, 0x48, 0x03, 0x44, 0x24, 0xf8]);
    assert [0xb8, 0x08, 0x00, 0x00, 0x00, 0x48, 0x89, 0x44, 0x24, 0xf8, 0xb8, 0x04, 0x00, 0x00, 0x00, 0x48, 0x03, 0x44, 0x24, 0xf8]
           + [0xc3]
        == [0xb8, 0x08, 0x00, 0x00, 0x00, 0x48, 0x89, 0x44, 0x24, 0xf8, 0xb8, 0x04, 0x00, 0x00, 0x00, 0x48, 0x03, 0x44, 0x24, 0xf8, 0xc3];
  }

  /** A bound atom loads its stack slot. */
  lemma AtomLoad(ctx: Context, name: string, index: int, si: int, pos: nat)
    requires Lookup(ctx.locals, name) == Some(index) && -0x80 <= index < 0
    ensures Expr(ctx, Atom(name), si, pos) == Some(Out([0x48, 0x8b, 0x44, 0x24, 0x100 + index], 0))
  {
    Slot(index);
  }

  /** `compile_atom_with_undefined_variable`: status -1 and no code. */
  lemma GoldenUnboundAtom(pos: nat)
    ensures Expr(EMPTY, Atom("foo"), 0, pos) == Some(Out([], -1))
  {
  }

  /** `compile_atom_in_env_emits_stack_index`: `foo` bound at -34 loads
      `[rsp-34]`, whatever the stack index. */
  lemma GoldenAtomInEnv(pos: nat)
    ensures Expr(Context(EnvNil, EnvNode("foo", -34, EnvNil)), Atom("foo"), 0, pos)
            == Some(Out([0x48, 0x8b, 0x44, 0x24, 0xde], 0))
  {
    AtomLoad(Context(EnvNil, EnvNode("foo", -34, EnvNil)), "foo", -34, 0, pos);
  }

  /** A `let` of one binding: its expression, the store to `[rsp+si]`, then
      the body at `si - 8` with the name bound at `si`. */
  lemma LetOne(ctx: Context, name: string, e: Node, body: Node, si: int, pos: nat, x: seq<byte>, r: seq<byte>)
    requires -0x80 <= si < 0
    requires Expr(ctx, e, si, pos) == Some(Out(x, 0))
    requires Expr(WithLocals(ctx, EnvNode(name, si, ctx.locals)), body, si - WORD_SIZE, pos + |x| + 5) == Some(Out(r, 0))
    ensures Expr(ctx, Call2("let", Pair(Binding(name, e), Nil), body), si, pos)
            == Some(Out(x + [0x48, 0x89, 0x44, 0x24, 0x100 + si] + r, 0))
  {
    Slot(si);
    CallLet(ctx, Pair(Binding(name, e), Nil), body, si, pos);
    assert Let(WithLocals(ctx, EnvNode(name, si, ctx.locals)), Nil, body, si - WORD_SIZE, pos + |x| + 5) == Some(Out(r, 0));
  }

  lemma LetBytes(x: seq<byte>)
    requires x == [0xb8, 0x08, 0x00, 0x00, 0x00]
    ensures x + [0x48, 0x89, 0x44, 0x24, 0xf8]
            + ([0x48, 0x8b, 0x44, 0x24, 0xf8] + [0x48, 0x89, 0x44, 0x24, 0xf0] + [0xb8, 0x04, 0x00, 0x00, 0x00]
               + [0x48, 0x03, 0x44, 0x24, 0xf0]) + [0xc3]
            == [0xb8, 0x08, 0x00, 0x00, 0x00, 0x48, 0x89, 0x44, 0x24, 0xf8, 0x48, 0x8b, 0x44, 0x24, 0xf8, 0x48,
                0x89, 0x44, 0x24, 0xf0, 0xb8, 0x04, 0x00, 0x00, 0x00, 0x48, 0x03, 0x44, 0x24, 0xf0, 0xc3]
  {
  }

  /** The body of `let_with_one_binding`, `(+ 1 x)` with x at -8,
      compiled at -16. */
  lemma LetBodyPieces(pos: nat)
    ensures Expr(WithLocals(EMPTY, EnvNode("x", -WORD_SIZE, EnvNil)), Call2("+", Fixnum(1), Atom("x")),
                 -2 * WORD_SIZE, pos)
            == Some(Out([0x48, 0x8b, 0x44, 0x24, 0xf8] + [0x48, 0x89, 0x44, 0x24, 0xf0] + [0xb8, 0x04, 0x00, 0x00, 0x00]
                        + [0x48, 0x03, 0x44, 0x24, 0xf0], 0))
  {
    var inner := WithLocals(EMPTY, EnvNode("x", -WORD_SIZE, EnvNil));
    AtomLoad(inner, "x", -WORD_SIZE, -2 * WORD_SIZE, pos);
    SmallFixnum(inner, 1, -3 * WORD_SIZE, pos + 10);
    PlusCode(inner, Fixnum(1), Atom("x"), -2 * WORD_SIZE, pos, [0xb8, 0x04, 0x00, 0x00, 0x00],
             [0x48, 0x8b, 0x44, 0x24, 0xf8]);
  }

  /** `let_with_one_binding`: `(let ((x 2)) (+ 1 x))` stores 2 at
      `[rsp-8]`; the body's `+` works at -16. */
  lemma GoldenLet(pos: nat)
    ensures Function(EMPTY, Call2("let", Pair(Binding("x", Fixnum(2)), Nil), Call2("+", Fixnum(1), Atom("x"))), pos)
            == Some(Out([0xb8, 0x08, 0x00, 0x00, 0x00, 0x48, 0x89, 0x44, 0x24, 0xf8, 0x48, 0x8b, 0x44, 0x24, 0xf8, 0x48,
                         0x89, 0x44, 0x24, 0xf0, 0xb8, 0x04, 0x00, 0x00, 0x00, 0x48, 0x03, 0x44, 0x24, 0xf0, 0xc3], 0))
  {
    var x: seq<byte> := [0xb8, 0x08, 0x00, 0x00, 0x00];
    var r: seq<byte> := [0x48, 0x8b, 0x44, 0x24, 0xf8] + [0x48, 0x89, 0x44, 0x24, 0xf0] + [0xb8, 0x04, 0x00, 0x00, 0x00]
                        + [0x48, 0x03, 0x44, 0x24, 0xf0];
    LetBytes(x);
    SmallFixnum(EMPTY, 2, -WORD_SIZE, pos);
    LetBodyPieces(pos + 10);
    LetOne(EMPTY, "x", Fixnum(2), Call2("+", Fixnum(1), Atom("x")), -WORD_SIZE, pos, x, r);
    FunctionRet(EMPTY, Call2("let", Pair(Binding("x", Fixnum(2)), Nil), Call2("+", Fixnum(1), Atom("x"))), pos,
                x + [0x48, 0x89, 0x44, 0x24, 0xf8] + r);
  }

  /** `compile_code_with_no_params`: the body and its `ret`; the
      function's own `ret` follows (the test compares the first six
      bytes). */
  lemma GoldenCodeNoParams(pos: nat)
    ensures Function(EMPTY, Call2("code", Nil, Fixnum(5)), pos)
            == Some(Out([0xb8, 0x14, 0x00, 0x00, 0x00, 0xc3, 0xc3], 0))
  {
    var b: seq<byte> := [0xb8, 0x14, 0x00, 0x00, 0x00];
    assert b + [0xc3] + [0xc3] == [0xb8, 0x14, 0x00, 0x00, 0x00, 0xc3, 0xc3];
    SmallFixnum(EMPTY, 5, -WORD_SIZE, pos);
    CodeCall(EMPTY, Nil, Fixnum(5), -WORD_SIZE, pos);
    FunctionRet(EMPTY, Call2("code", Nil, Fixnum(5)), pos, b + [0xc3]);
  }

  lemma CodeParamsBytes(y: seq<byte>)
    requires y == [0x48, 0x8b, 0x44, 0x24, 0xf0]
    ensures y + [0x48, 0x89, 0x44, 0x24, 0xe8] + [0x48, 0x8b, 0x44, 0x24, 0xf8] + [0x48, 0x03, 0x44, 0x24, 0xe8]
            + [0xc3] + [0xc3]
            == [0x48, 0x8b, 0x44, 0x24, 0xf0, 0x48, 0x89, 0x44, 0x24, 0xe8, 0x48, 0x8b, 0x44, 0x24, 0xf8, 0x48,
                0x03, 0x44, 0x24, 0xe8, 0xc3, 0xc3]
  {
  }

  /** `compile_code_with_params`: `(code (x y) (+ x y))` binds x at -8 and
      y at -16; the body's `+` works at -24. */
  lemma GoldenCodeWithParams(pos: nat)
    ensures Function(EMPTY, Call2("code", Call1("x", Atom("y")), Call2("+", Atom("x"), Atom("y"))), pos)
            == Some(Out([0x48, 0x8b, 0x44, 0x24, 0xf0, 0x48, 0x89, 0x44, 0x24, 0xe8, 0x48, 0x8b, 0x44, 0x24, 0xf8,
                         0x48, 0x03, 0x44, 0x24, 0xe8, 0xc3, 0xc3], 0))
  {
    var y: seq<byte> := [0x48, 0x8b, 0x44, 0x24, 0xf0];
    var x: seq<byte> := [0x48, 0x8b, 0x44, 0x24, 0xf8];
    CodeParamsBytes(y);
    var body := Call2("+", Atom("x"), Atom("y"));
    var inner := WithLocals(EMPTY, EnvNode("y", -2 * WORD_SIZE, EnvNode("x", -WORD_SIZE, EnvNil)));
    AtomLoad(inner, "y", -2 * WORD_SIZE, -3 * WORD_SIZE, pos);
    AtomLoad(inner, "x", -WORD_SIZE, -4 * WORD_SIZE, pos + 10);
    PlusCode(inner, Atom("x"), Atom("y"), -3 * WORD_SIZE, pos, x, y);
    var r := y + [0x48, 0x89, 0x44, 0x24, 0xe8] + x + [0x48, 0x03, 0x44, 0x24, 0xe8];
    assert Code(inner, Nil, body, -3 * WORD_SIZE, pos) == Some(Out(r + [0xc3], 0));
    CodeCall(EMPTY, Call1("x", Atom("y")), body, -WORD_SIZE, pos);
    FunctionRet(EMPTY, Call2("code", Call1("x", Atom("y")), body), pos, r + [0xc3]);
  }

  /** `compile_labelcall_with_undefined_name`: status -1 and no code. */
  lemma GoldenUnboundLabelCall(pos: nat)
    ensures Function(EMPTY, Call1("labelcall", Atom("nonexistent-label")), pos) == Some(Out([], -1))
  {
    var args := Pair(Atom("nonexistent-label"), Nil);
    assert Operand1(args) == Some(Atom("nonexistent-label"));
    assert !IsUnary("labelcall");
  }

  /** `cmp rax, #f`. */
  lemma CmpFalse()
    ensures CmpRegImm32(Rax, EncodeBool(false)) == [0x48, 0x3d, 0x1f, 0x00, 0x00, 0x00]
  {
    SmallWord(0x1f);
    assert EncodeBool(false) == 0x1f;
  }

  /** `If` of three operands that compile. */
  lemma IfSome(ctx: Context, test: Node, consequent: Node, alternative: Node, si: int, pos: nat)
    requires Expr(ctx, test, si, pos).Some?
    requires Expr(ctx, consequent, si, pos + |Expr(ctx, test, si, pos).value.code| + 12).Some?
    requires Expr(ctx, alternative, si, pos + |Expr(ctx, test, si, pos).value.code| + 12
                  + |Expr(ctx, consequent, si, pos + |Expr(ctx, test, si, pos).value.code| + 12).value.code| + 5).Some?
    ensures If(ctx, test, consequent, alternative, si, pos).Some?
  {
  }

  /** The `if` of the two `if` tests. */
  function IfNode(n: Int32): Node {
    Call3("if", Call1("zero?", Fixnum(n)), Call2("+", Fixnum(1), Fixnum(2)), Call2("+", Fixnum(3), Fixnum(4)))
  }

  /** The zero? test and the two branches of `IfNode`. */
  lemma IfPieces(n: int, pos: nat)
    requires 0 <= n < 64
    ensures Expr(EMPTY, Call1("zero?", Fixnum(n)), -WORD_SIZE, pos)
            == Some(Out([0xb8, (4 * n) as byte, 0x00, 0x00, 0x00]
                        + [0x48, 0x3d, 0x00, 0x00, 0x00, 0x00, 0xb8, 0x00, 0x00, 0x00, 0x00, 0x0f, 0x94, 0xc0,
                           0x48, 0xc1, 0xe0, 0x07, 0x48, 0x0d, 0x1f, 0x00, 0x00, 0x00], 0))
    ensures Expr(EMPTY, Call2("+", Fixnum(1), Fixnum(2)), -WORD_SIZE, pos + 41)
            == Some(Out([0xb8, 0x08, 0x00, 0x00, 0x00, 0x48, 0x89, 0x44, 0x24, 0xf8, 0xb8, 0x04, 0x00, 0x00, 0x00,
                         0x48, 0x03, 0x44, 0x24, 0xf8], 0))
    ensures Expr(EMPTY, Call2("+", Fixnum(3), Fixnum(4)), -WORD_SIZE, pos + 66)
            == Some(Out([0xb8, 0x10, 0x00, 0x00, 0x00, 0x48, 0x89, 0x44, 0x24, 0xf8, 0xb8, 0x0c, 0x00, 0x00, 0x00,
                         0x48, 0x03, 0x44, 0x24, 0xf8], 0))
  {
    UnaryTails();
    SmallFixnum(EMPTY, n, -WORD_SIZE, pos);
    UnaryCode(EMPTY, "zero?", Fixnum(n), -WORD_SIZE, pos, [0xb8, (4 * n) as byte, 0x00, 0x00, 0x00]);
    PlusFixnums(EMPTY, 1, 2, -WORD_SIZE, pos + 41);
    PlusFixnums(EMPTY, 3, 4, -WORD_SIZE, pos + 66);
  }

  /** The code of the test `(zero? n)` and of the two branches of `IfNode`. */
  function IfNodeBytes(n: int): seq<byte>
    requires 0 <= n < 64
  {
    [0xb8, (4 * n) as byte, 0x00, 0x00, 0x00]
    + [0x48, 0x3d, 0x00, 0x00, 0x00, 0x00, 0xb8, 0x00, 0x00, 0x00, 0x00, 0x0f, 0x94, 0xc0,
       0x48, 0xc1, 0xe0, 0x07, 0x48, 0x0d, 0x1f, 0x00, 0x00, 0x00]
  }
  const IF_THEN: seq<byte> := [0xb8, 0x08, 0x00, 0x00, 0x00, 0x48, 0x89, 0x44, 0x24, 0xf8, 0xb8, 0x04, 0x00, 0x00, 0x00,
                               0x48, 0x03, 0x44, 0x24, 0xf8]
  const IF_ELSE: seq<byte> := [0xb8, 0x10, 0x00, 0x00, 0x00, 0x48, 0x89, 0x44, 0x24, 0xf8, 0xb8, 0x0c, 0x00, 0x00, 0x00,
                               0x48, 0x03, 0x44, 0x24, 0xf8]

  /** The `if` of `IfNode` assembled from its pieces. */
  lemma IfNodeCode(n: int, pos: nat)
    requires 0 <= n < 64
    ensures If(EMPTY, Call1("zero?", Fixnum(n)), Call2("+", Fixnum(1), Fixnum(2)), Call2("+", Fixnum(3), Fixnum(4)),
               -WORD_SIZE, pos)
            == Some(Out(IfNodeBytes(n) + [0x48, 0x3d, 0x1f, 0x00, 0x00, 0x00] + [0x0f, 0x84] + [0x19, 0x00, 0x00, 0x00]
                        + IF_THEN + [0xe9] + [0x14, 0x00, 0x00, 0x00] + IF_ELSE, 0))
  {
    var t, a, b := IfNodeBytes(n), IF_THEN, IF_ELSE;
    var test, consequent, alternative := Call1("zero?", Fixnum(n)), Call2("+", Fixnum(1), Fixnum(2)),
                                         Call2("+", Fixnum(3), Fixnum(4));
    IfPieces(n, pos);
    CmpFalse();
    SmallWord(25);
    SmallWord(20);
    IfSome(EMPTY, test, consequent, alternative, -WORD_SIZE, pos);
    var c', a', b' := CCompiler.IfParts(EMPTY, test, consequent, alternative, -WORD_SIZE, pos);
    assert c' == t;
    assert a' == a;
    assert b' == b;
  }

  /** `compile_if_test_true` (n = 0) and `compile_if_test_false` (n = 1),
      instruction by instruction: `(if (zero? n) (+ 1 2) (+ 3 4))`, whose
      `je` skips the consequent and its `jmp` (0x19 bytes) and whose `jmp`
      skips the alternative (0x14 bytes). */
  lemma GoldenIf(n: int, pos: nat)
    requires 0 <= n < 64
    ensures Function(EMPTY, IfNode(n), pos)
            == Some(Out([0xb8, (4 * n) as byte, 0x00, 0x00, 0x00]
                        // zero?
                        + [0x48, 0x3d, 0x00, 0x00, 0x00, 0x00, 0xb8, 0x00, 0x00, 0x00, 0x00, 0x0f, 0x94, 0xc0,
                           0x48, 0xc1, 0xe0, 0x07, 0x48, 0x0d, 0x1f, 0x00, 0x00, 0x00]
                        // cmp rax, 0x1f; je +0x19
                        + [0x48, 0x3d, 0x1f, 0x00, 0x00, 0x00] + [0x0f, 0x84] + [0x19, 0x00, 0x00, 0x00]
                        // (+ 1 2); jmp +0x14
                        + [0xb8, 0x08, 0x00, 0x00, 0x00, 0x48, 0x89, 0x44, 0x24, 0xf8, 0xb8, 0x04, 0x00, 0x00, 0x00,
                           0x48, 0x03, 0x44, 0x24, 0xf8]
                        + [0xe9] + [0x14, 0x00, 0x00, 0x00]
                        // (+ 3 4)
                        + [0xb8, 0x10, 0x00, 0x00, 0x00, 0x48, 0x89, 0x44, 0x24, 0xf8, 0xb8, 0x0c, 0x00, 0x00, 0x00,
                           0x48, 0x03, 0x44, 0x24, 0xf8]
                        // ret
                        + [0xc3], 0))
  {
    var test, consequent, alternative := Call1("zero?", Fixnum(n)), Call2("+", Fixnum(1), Fixnum(2)),
                                         Call2("+", Fixnum(3), Fixnum(4));
    IfNodeCode(n, pos);
    CallIf(EMPTY, test, consequent, alternative, -WORD_SIZE, pos);
    FunctionRet(EMPTY, IfNode(n), pos,
                IfNodeBytes(n) + [0x48, 0x3d, 0x1f, 0x00, 0x00, 0x00] + [0x0f, 0x84] + [0x19, 0x00, 0x00, 0x00]
                + IF_THEN + [0xe9] + [0x14, 0x00, 0x00, 0x00] + IF_ELSE);
  }

  /** The code `cons` appends after its operands, and the move that keeps
      the heap pointer in rsi. */
  lemma ConsBytes()
    ensures MovRaxToRegDisp(Rsi, 0) == [0x48, 0x89, 0x46, 0x00]
    ensures MovRaxToRegDisp(Rsi, WORD_SIZE) == [0x48, 0x89, 0x46, 0x08]
    ensures CONS_TAIL == [0x48, 0x89, 0xf0] + [0x48, 0x0d, 0x01, 0x00, 0x00, 0x00] + [0x81, 0xc6, 0x10, 0x00, 0x00, 0x00]
    ensures MovRegReg(Rsi, Rdi) == [0x48, 0x89, 0xfe]
  {
    SmallWord(1);
    SmallWord(16);
    assert MovRegReg(Rax, Rsi) == [0x48, 0x89, 0xf0];
    assert OrRegImm32(Rax, PAIR_TAG) == [0x48, 0x0d, 0x01, 0x00, 0x00, 0x00];
    assert AddRegImm32(Rsi, 2 * WORD_SIZE) == [0x81, 0xc6, 0x10, 0x00, 0x00, 0x00];
  }

  /** `Cons` of two operands that compile. */
  lemma ConsOf(ctx: Context, car: Node, cdr: Node, si: int, pos: nat, a: seq<byte>, b: seq<byte>)
    requires Expr(ctx, car, si - WORD_SIZE, pos) == Some(Out(a, 0))
    requires Expr(ctx, cdr, si, pos + |a| + 4) == Some(Out(b, 0))
    ensures Cons(ctx, car, cdr, si, pos)
            == Some(Out((a + MovRaxToRegDisp(Rsi, 0)) + (b + MovRaxToRegDisp(Rsi, WORD_SIZE)) + CONS_TAIL, 0))
  {
    assert Cons(ctx, car, cdr, si, pos).Some?;
    var a', b' := CCompiler.ConsParts(ctx, car, cdr, si, pos);
    assert a' == a;
  }

  /** `(cons car cdr)`: the car at `si - 8` stored at `[rsi]`, the cdr at
      `si` stored at `[rsi+8]`, the tagged pointer in rax and the bump. */
  lemma ConsCode(ctx: Context, car: Node, cdr: Node, si: int, pos: nat, a: seq<byte>, b: seq<byte>)
    requires Expr(ctx, car, si - WORD_SIZE, pos) == Some(Out(a, 0))
    requires Expr(ctx, cdr, si, pos + |a| + 4) == Some(Out(b, 0))
    ensures Expr(ctx, Call2("cons", car, cdr), si, pos)
            == Some(Out((a + [0x48, 0x89, 0x46, 0x00]) + (b + [0x48, 0x89, 0x46, 0x08])
                        + ([0x48, 0x89, 0xf0] + [0x48, 0x0d, 0x01, 0x00, 0x00, 0x00]
                           + [0x81, 0xc6, 0x10, 0x00, 0x00, 0x00]), 0))
  {
    CallCons(ctx, car, cdr, si, pos);
    ConsOf(ctx, car, cdr, si, pos, a, b);
    ConsBytes();
  }

  /** `AST_compile_entry` of an expression that compiled: `mov rsi, rdi`,
      the expression from position `pos + 3`, and `ret`. */
  lemma EntryRet(ctx: Context, node: Node, pos: nat, code: seq<byte>)
    requires Expr(ctx, node, -WORD_SIZE, pos + 3) == Some(Out(code, 0))
    ensures Entry(ctx, node, pos) == Some(Out([0x48, 0x89, 0xfe] + (code + [0xc3]), 0))
  {
    ConsBytes();
    FunctionRet(ctx, node, pos + 3, code);
  }

  /** `(cons 10 20)` from position `pos`. */
  lemma ConsPieces(pos: nat)
    ensures Expr(EMPTY, Call2("cons", Fixnum(10), Fixnum(20)), -WORD_SIZE, pos)
            == Some(Out(([0xb8, 0x28, 0x00, 0x00, 0x00] + [0x48, 0x89, 0x46, 0x00])
                        + ([0xb8, 0x50, 0x00, 0x00, 0x00] + [0x48, 0x89, 0x46, 0x08])
                        + ([0x48, 0x89, 0xf0] + [0x48, 0x0d, 0x01, 0x00, 0x00, 0x00]
                           + [0x81, 0xc6, 0x10, 0x00, 0x00, 0x00]), 0))
  {
    SmallFixnum(EMPTY, 10, -2 * WORD_SIZE, pos);
    SmallFixnum(EMPTY, 20, -WORD_SIZE, pos + 9);
    ConsCode(EMPTY, Fixnum(10), Fixnum(20), -WORD_SIZE, pos, [0xb8, 0x28, 0x00, 0x00, 0x00], [0xb8, 0x50, 0x00, 0x00, 0x00]);
  }

  /** `compile_cons`: `(cons 10 20)` as an entry, instruction by
      instruction. */
  lemma GoldenCons(pos: nat)
    ensures Entry(EMPTY, Call2("cons", Fixnum(10), Fixnum(20)), pos)
            == Some(Out([0x48, 0x89, 0xfe]
                        + (([0xb8, 0x28, 0x00, 0x00, 0x00] + [0x48, 0x89, 0x46, 0x00])
                           + ([0xb8, 0x50, 0x00, 0x00, 0x00] + [0x48, 0x89, 0x46, 0x08])
                           + ([0x48, 0x89, 0xf0] + [0x48, 0x0d, 0x01, 0x00, 0x00, 0x00]
                              + [0x81, 0xc6, 0x10, 0x00, 0x00, 0x00])
                           + [0xc3]), 0))
  {
    ConsPieces(pos + 3);
    EntryRet(EMPTY, Call2("cons", Fixnum(10), Fixnum(20)), pos,
             ([0xb8, 0x28, 0x00, 0x00, 0x00] + [0x48, 0x89, 0x46, 0x00])
             + ([0xb8, 0x50, 0x00, 0x00, 0x00] + [0x48, 0x89, 0x46, 0x08])
             + ([0x48, 0x89, 0xf0] + [0x48, 0x0d, 0x01, 0x00, 0x00, 0x00] + [0x81, 0xc6, 0x10, 0x00, 0x00, 0x00]));
  }

  /** `compile_car` and `compile_cdr`: `(car (cons 10 20))` loads
      `[rax-1]`, `(cdr (cons 10 20))` loads `[rax+7]`. */
  lemma GoldenCarCdr(pos: nat)
    ensures Entry(EMPTY, Call1("car", Call2("cons", Fixnum(10), Fixnum(20))), pos)
            == Some(Out([0x48, 0x89, 0xfe]
                        + ((([0xb8, 0x28, 0x00, 0x00, 0x00] + [0x48, 0x89, 0x46, 0x00])
                            + ([0xb8, 0x50, 0x00, 0x00, 0x00] + [0x48, 0x89, 0x46, 0x08])
                            + ([0x48, 0x89, 0xf0] + [0x48, 0x0d, 0x01, 0x00, 0x00, 0x00]
                               + [0x81, 0xc6, 0x10, 0x00, 0x00, 0x00]))
                           + [0x48, 0x8b, 0x40, 0xff]
                           + [0xc3]), 0))
    ensures Entry(EMPTY, Call1("cdr", Call2("cons", Fixnum(10), Fixnum(20))), pos)
            == Some(Out([0x48, 0x89, 0xfe]
                        + ((([0xb8, 0x28, 0x00, 0x00, 0x00] + [0x48, 0x89, 0x46, 0x00])
                            + ([0xb8, 0x50, 0x00, 0x00, 0x00] + [0x48, 0x89, 0x46, 0x08])
                            + ([0x48, 0x89, 0xf0] + [0x48, 0x0d, 0x01, 0x00, 0x00, 0x00]
                               + [0x81, 0xc6, 0x10, 0x00, 0x00, 0x00]))
                           + [0x48, 0x8b, 0x40, 0x07]
                           + [0xc3]), 0))
  {
    var c := ([0xb8, 0x28, 0x00, 0x00, 0x00] + [0x48, 0x89, 0x46, 0x00])
             + ([0xb8, 0x50, 0x00, 0x00, 0x00] + [0x48, 0x89, 0x46, 0x08])
             + ([0x48, 0x89, 0xf0] + [0x48, 0x0d, 0x01, 0x00, 0x00, 0x00] + [0x81, 0xc6, 0x10, 0x00, 0x00, 0x00]);
    var cons := Call2("cons", Fixnum(10), Fixnum(20));
    ConsPieces(pos + 3);
    UnaryTails();
    UnaryCode(EMPTY, "car", cons, -WORD_SIZE, pos + 3, c);
    UnaryCode(EMPTY, "cdr", cons, -WORD_SIZE, pos + 3, c);
    EntryRet(EMPTY, Call1("car", cons), pos, c + [0x48, 0x8b, 0x40, 0xff]);
    EntryRet(EMPTY, Call1("cdr", cons), pos, c + [0x48, 0x8b, 0x40, 0x07]);
  }

  /** A word in [-256, 0) is written as its low byte and three 0xff. */
  lemma NegativeWord(v: int)
    requires -0x100 <= v < 0
    ensures Le32(v) == [0x100 + v, 0xff, 0xff, 0xff]
  {
    assert ByteOf(v, 0) == 0x100 + v by { assert U32(v) == TWO_32 + v; }
    assert ByteOf(v, 1) == 0xff by { assert U32(v) == TWO_32 + v; }
    assert ByteOf(v, 2) == 0xff by { assert U32(v) == TWO_32 + v; }
    assert ByteOf(v, 3) == 0xff by { assert U32(v) == TWO_32 + v; }
  }

  /** A small negative displacement is its own 32-bit wrap, and its
      unsigned pattern has the same bytes. */
  lemma NegativeDisp(v: int)
    requires -0x100 <= v < 0
    ensures Wrap32(v) == v && Le32(EncodeDisp32(v)) == Le32(v)
  {
    assert v % TWO_32 == TWO_32 + v;
    assert U32(EncodeDisp32(v)) == U32(v);
  }

  /** A backward `call` whose displacement less five fits in one negative
      byte: `e8` and the two's-complement bytes. */
  lemma BackwardCall(d: int)
    requires -0xfb <= d < 5
    ensures CallImm32(d) == [0xe8, 0x100 + d - 5, 0xff, 0xff, 0xff]
  {
    NegativeDisp(d - 5);
    NegativeWord(d - 5);
  }

  /** `(labelcall name)` of a bound label: the `call` to its position. */
  lemma LabelCallNone(ctx: Context, name: string, codePos: int, si: int, pos: nat)
    requires Lookup(ctx.labels, name) == Some(codePos)
    ensures Expr(ctx, Call1("labelcall", Atom(name)), si, pos) == Some(Out(CallImm32(Wrap32(codePos - pos)), 0))
  {
    CallLabelCall(ctx, name, codePos, Nil, si, pos);
  }

  /** `(labelcall name arg)` of a bound label: the argument stored at
      `[rsp+si]`, then the `call`. */
  lemma LabelCallOne(ctx: Context, name: string, codePos: int, arg: Node, si: int, pos: nat, a: seq<byte>)
    requires Lookup(ctx.labels, name) == Some(codePos) && -0x80 <= si < 0
    requires Expr(ctx, arg, si, pos) == Some(Out(a, 0))
    ensures Expr(ctx, Call2("labelcall", Atom(name), arg), si, pos)
            == Some(Out(a + [0x48, 0x89, 0x44, 0x24, 0x100 + si] + CallImm32(Wrap32(codePos - (pos + |a| + 5))), 0))
  {
    Slot(si);
    CallLabelCall(ctx, name, codePos, Pair(arg, Nil), si, pos);
    assert LabelCall(ctx, codePos, Nil, si - WORD_SIZE, pos + |a| + 5)
        == Some(Out(CallImm32(Wrap32(codePos - (pos + |a| + 5))), 0));
  }

  /** `(labels () body)`: a jump of displacement zero, then the entry. */
  lemma ProgEmpty(ctx: Context, body: Node, pos: nat, e: seq<byte>)
    requires Entry(ctx, body, pos + 5) == Some(Out(e, 0))
    ensures Prog(ctx, Call2("labels", Nil, body), pos) == Some(Out([0xe9] + [0x00, 0x00, 0x00, 0x00] + e, 0))
  {
    SmallWord(0);
    var args := Pair(Nil, Pair(body, Nil));
    assert Operand1(args) == Some(Nil) && Operand2(args) == Some(body);
    assert Labels(ctx, Nil, body, -WORD_SIZE, pos + 5) == Some(LabelsOut(e, 0, Some(pos + 5)));
  }

  /** `(labels ((name exp)) body)`: a jump over the label's code, the code
      compiled with the label bound to its own position, then the entry. */
  lemma ProgOne(ctx: Context, name: string, exp: Node, body: Node, pos: nat, x: seq<byte>, e: seq<byte>)
    requires Expr(WithLabels(ctx, EnvNode(name, pos + 5, ctx.labels)), exp, -WORD_SIZE, pos + 5) == Some(Out(x, 0))
    requires Entry(WithLabels(ctx, EnvNode(name, pos + 5, ctx.labels)), body, pos + 5 + |x|) == Some(Out(e, 0))
    ensures Prog(ctx, Call2("labels", Pair(Binding(name, exp), Nil), body), pos)
            == Some(Out([0xe9] + Le32(|x|) + (x + e), 0))
  {
    var bindings := Pair(Binding(name, exp), Nil);
    var args := Pair(bindings, Pair(body, Nil));
    assert Operand1(args) == Some(bindings) && Operand2(args) == Some(body);
    var inner := WithLabels(ctx, EnvNode(name, pos + 5, ctx.labels));
    assert Car(Binding(name, exp)) == Some(Atom(name)) && Cdr(Binding(name, exp)) == Some(Pair(exp, Nil));
    assert Labels(inner, Nil, body, -WORD_SIZE, pos + 5 + |x|) == Some(LabelsOut(e, 0, Some(pos + 5 + |x|)));
    assert Labels(ctx, bindings, body, -WORD_SIZE, pos + 5) == Some(LabelsOut(x + e, 0, Some(pos + 5 + |x|)));
  }

  /** `compile_empty_labels`: `(labels () 5)`. */
  lemma GoldenEmptyLabels(pos: nat)
    ensures Prog(EMPTY, Call2("labels", Nil, Fixnum(5)), pos)
            == Some(Out([0xe9] + [0x00, 0x00, 0x00, 0x00] + ([0x48, 0x89, 0xfe] + ([0xb8, 0x14, 0x00, 0x00, 0x00] + [0xc3])), 0))
  {
    SmallFixnum(EMPTY, 5, -WORD_SIZE, pos + 8);
    EntryRet(EMPTY, Fixnum(5), pos + 5, [0xb8, 0x14, 0x00, 0x00, 0x00]);
    ProgEmpty(EMPTY, Fixnum(5), pos, [0x48, 0x89, 0xfe] + ([0xb8, 0x14, 0x00, 0x00, 0x00] + [0xc3]));
  }

  /** `compile_label_with_no_param_and_no_labelcall`:
      `(labels ((const (code () 6))) 5)`; the jump skips the six bytes of
      the label's code. */
  lemma GoldenLabelNoCall(pos: nat)
    ensures Prog(EMPTY, Call2("labels", Pair(Binding("const", Call2("code", Nil, Fixnum(6))), Nil), Fixnum(5)), pos)
            == Some(Out([0xe9] + [0x06, 0x00, 0x00, 0x00]
                        + (([0xb8, 0x18, 0x00, 0x00, 0x00] + [0xc3])
                           + ([0x48, 0x89, 0xfe] + ([0xb8, 0x14, 0x00, 0x00, 0x00] + [0xc3]))), 0))
  {
    var inner := WithLabels(EMPTY, EnvNode("const", pos + 5, EnvNil));
    SmallFixnum(inner, 6, -WORD_SIZE, pos + 5);
    CodeCall(inner, Nil, Fixnum(6), -WORD_SIZE, pos + 5);
    assert Expr(inner, Call2("code", Nil, Fixnum(6)), -WORD_SIZE, pos + 5)
        == Some(Out([0xb8, 0x18, 0x00, 0x00, 0x00] + [0xc3], 0));
    SmallFixnum(inner, 5, -WORD_SIZE, pos + 14);
    EntryRet(inner, Fixnum(5), pos + 11, [0xb8, 0x14, 0x00, 0x00, 0x00]);
    SmallWord(6);
    ProgOne(EMPTY, "const", Call2("code", Nil, Fixnum(6)), Fixnum(5), pos, [0xb8, 0x18, 0x00, 0x00, 0x00] + [0xc3],
            [0x48, 0x89, 0xfe] + ([0xb8, 0x14, 0x00, 0x00, 0x00] + [0xc3]));
  }

  /** `compile_labelcall_with_no_param`:
      `(labels ((const (code () 5))) (labelcall const))`; the `call` at
      offset 14 reaches offset 5 with displacement -14 from its end. */
  lemma GoldenLabelCallNoParam(pos: nat)
    ensures Prog(EMPTY, Call2("labels", Pair(Binding("const", Call2("code", Nil, Fixnum(5))), Nil),
                              Call1("labelcall", Atom("const"))), pos)
            == Some(Out([0xe9] + [0x06, 0x00, 0x00, 0x00]
                        + (([0xb8, 0x14, 0x00, 0x00, 0x00] + [0xc3])
                           + ([0x48, 0x89, 0xfe] + ([0xe8, 0xf2, 0xff, 0xff, 0xff] + [0xc3]))), 0))
  {
    var inner := WithLabels(EMPTY, EnvNode("const", pos + 5, EnvNil));
    SmallFixnum(inner, 5, -WORD_SIZE, pos + 5);
    CodeCall(inner, Nil, Fixnum(5), -WORD_SIZE, pos + 5);
    assert Expr(inner, Call2("code", Nil, Fixnum(5)), -WORD_SIZE, pos + 5)
        == Some(Out([0xb8, 0x14, 0x00, 0x00, 0x00] + [0xc3], 0));
    LabelCallNone(inner, "const", pos + 5, -WORD_SIZE, pos + 14);
    BackwardCall(-9);
    assert Wrap32(pos + 5 - (pos + 14)) == -9;
    EntryRet(inner, Call1("labelcall", Atom("const")), pos + 11, [0xe8, 0xf2, 0xff, 0xff, 0xff]);
    SmallWord(6);
    ProgOne(EMPTY, "const", Call2("code", Nil, Fixnum(5)), Call1("labelcall", Atom("const")), pos,
            [0xb8, 0x14, 0x00, 0x00, 0x00] + [0xc3], [0x48, 0x89, 0xfe] + ([0xe8, 0xf2, 0xff, 0xff, 0xff] + [0xc3]));
  }

  /** The program of `compile_labelcall_with_one_param`:
      `(labels ((id (code (x) x))) (labelcall id 5))`. */
  function IdProgram(): Node {
    Call2("labels", Pair(Binding("id", Call2("code", Pair(Atom("x"), Nil), Atom("x"))), Nil),
          Call2("labelcall", Atom("id"), Fixnum(5)))
  }

  /** The label code of `IdProgram`, from the position `Prog` compiles it
      at: x is bound at -8 and loaded at -16. */
  lemma IdCode(pos: nat)
    ensures Expr(WithLabels(EMPTY, EnvNode("id", pos + 5, EnvNil)), Call2("code", Pair(Atom("x"), Nil), Atom("x")),
                 -WORD_SIZE, pos + 5)
            == Some(Out([0x48, 0x8b, 0x44, 0x24, 0xf8] + [0xc3], 0))
  {
    var inner := WithLabels(EMPTY, EnvNode("id", pos + 5, EnvNil));
    var local := WithLocals(inner, EnvNode("x", -WORD_SIZE, EnvNil));
    AtomLoad(local, "x", -WORD_SIZE, -2 * WORD_SIZE, pos + 5);
    assert Code(local, Nil, Atom("x"), -2 * WORD_SIZE, pos + 5) == Some(Out([0x48, 0x8b, 0x44, 0x24, 0xf8] + [0xc3], 0));
    CodeCall(inner, Pair(Atom("x"), Nil), Atom("x"), -WORD_SIZE, pos + 5);
  }

  /** The entry code of `IdProgram`: the argument 5 stored at `[rsp-8]`,
      then the `call` from offset 24 back to offset 5. */
  lemma IdEntry(pos: nat)
    ensures Entry(WithLabels(EMPTY, EnvNode("id", pos + 5, EnvNil)), Call2("labelcall", Atom("id"), Fixnum(5)), pos + 11)
            == Some(Out([0x48, 0x89, 0xfe]
                        + ([0xb8, 0x14, 0x00, 0x00, 0x00] + [0x48, 0x89, 0x44, 0x24, 0xf8]
                           + [0xe8, 0xe8, 0xff, 0xff, 0xff] + [0xc3]), 0))
  {
    var inner := WithLabels(EMPTY, EnvNode("id", pos + 5, EnvNil));
    SmallFixnum(inner, 5, -WORD_SIZE, pos + 14);
    LabelCallOne(inner, "id", pos + 5, Fixnum(5), -WORD_SIZE, pos + 14, [0xb8, 0x14, 0x00, 0x00, 0x00]);
    BackwardCall(-19);
    assert Wrap32(pos + 5 - (pos + 24)) == -19;
    EntryRet(inner, Call2("labelcall", Atom("id"), Fixnum(5)), pos + 11,
             [0xb8, 0x14, 0x00, 0x00, 0x00] + [0x48, 0x89, 0x44, 0x24, 0xf8] + [0xe8, 0xe8, 0xff, 0xff, 0xff]);
  }

  /** `compile_labelcall_with_one_param`, as the code compiles it: the
      argument is stored at `[rsp-8]` before the `call`, which the test's
      expected bytes leave out. */
  lemma GoldenLabelCallOneParam(pos: nat)
    ensures Prog(EMPTY, IdProgram(), pos)
            == Some(Out([0xe9] + [0x06, 0x00, 0x00, 0x00]
                        + (([0x48, 0x8b, 0x44, 0x24, 0xf8] + [0xc3])
                           + ([0x48, 0x89, 0xfe]
                              + ([0xb8, 0x14, 0x00, 0x00, 0x00] + [0x48, 0x89, 0x44, 0x24, 0xf8]
                                 + [0xe8, 0xe8, 0xff, 0xff, 0xff] + [0xc3]))), 0))
  {
    IdCode(pos);
    IdEntry(pos);
    SmallWord(6);
    ProgOne(EMPTY, "id", Call2("code", Pair(Atom("x"), Nil), Atom("x")), Call2("labelcall", Atom("id"), Fixnum(5)), pos,
            [0x48, 0x8b, 0x44, 0x24, 0xf8] + [0xc3],
            [0x48, 0x89, 0xfe] + ([0xb8, 0x14, 0x00, 0x00, 0x00] + [0x48, 0x89, 0x44, 0x24, 0xf8]
                                  + [0xe8, 0xe8, 0xff, 0xff, 0xff] + [0xc3]));
  }

  // The encoder tests and the remaining compile tests.

  /** `mov_rax_imm32` and `mov_rcx_imm32`: `b8+r` and the immediate. */
  lemma GoldenMovImm32()
    ensures MovRegImm32(Rax, 42) == [0xb8, 0x2a, 0x00, 0x00, 0x00]
    ensures MovRegImm32(Rcx, 42) == [0xb9, 0x2a, 0x00, 0x00, 0x00]
  {
    SmallWord(42);
  }

  /** `mov_rax_rax`, `mov_rax_rsi` and `mov_rdi_rbp`. */
  lemma GoldenMovRegReg()
    ensures MovRegReg(Rax, Rax) == [0x48, 0x89, 0xc0]
    ensures MovRegReg(Rax, Rsi) == [0x48, 0x89, 0xf0]
    ensures MovRegReg(Rdi, Rbp) == [0x48, 0x89, 0xef]
  {
  }

  /** `return_heap_address`: `mov rax, rdi` and `ret`. */
  lemma GoldenReturnHeapAddress()
    ensures MovRegReg(Rax, Rdi) + Ret() == [0x48, 0x89, 0xf8, 0xc3]
  {
    assert MovRegReg(Rax, Rdi) == [0x48, 0x89, 0xf8];
  }

  /** `compile_primcall_add1_sub1`: `(sub1 (add1 5))`. */
  lemma GoldenAdd1Sub1(pos: nat)
    ensures Function(EMPTY, Call1("sub1", Call1("add1", Fixnum(5))), pos)
            == Some(Out([0xb8, 0x14, 0x00, 0x00, 0x00, 0x05, 0x04, 0x00, 0x00, 0x00, 0x2d, 0x04, 0x00, 0x00,
                         0x00, 0xc3], 0))
  {
    var c0: seq<byte> := [0xb8, 0x14, 0x00, 0x00, 0x00];
    var c1 := c0 + [0x05, 0x04, 0x00, 0x00, 0x00];
    var c2 := c1 + [0x2d, 0x04, 0x00, 0x00, 0x00];
    assert c2 + [0xc3] == [0xb8, 0x14, 0x00, 0x00, 0x00, 0x05, 0x04, 0x00, 0x00, 0x00, 0x2d, 0x04, 0x00, 0x00, 0x00, 0xc3];
    UnaryTails();
    SmallFixnum(EMPTY, 5, -WORD_SIZE, pos);
    UnaryCode(EMPTY, "add1", Fixnum(5), -WORD_SIZE, pos, c0);
    UnaryCode(EMPTY, "sub1", Call1("add1", Fixnum(5)), -WORD_SIZE, pos, c1);
    FunctionRet(EMPTY, Call1("sub1", Call1("add1", Fixnum(5))), pos, c2);
  }

  /** `compile_primcall_sub1_add1`: `(add1 (sub1 5))`. */
  lemma GoldenSub1Add1(pos: nat)
    ensures Function(EMPTY, Call1("add1", Call1("sub1", Fixnum(5))), pos)
            == Some(Out([0xb8, 0x14, 0x00, 0x00, 0x00, 0x2d, 0x04, 0x00, 0x00, 0x00, 0x05, 0x04, 0x00, 0x00,
                         0x00, 0xc3], 0))
  {
    var c0: seq<byte> := [0xb8, 0x14, 0x00, 0x00, 0x00];
    var c1 := c0 + [0x2d, 0x04, 0x00, 0x00, 0x00];
    var c2 := c1 + [0x05, 0x04, 0x00, 0x00, 0x00];
    assert c2 + [0xc3] == [0xb8, 0x14, 0x00, 0x00, 0x00, 0x2d, 0x04, 0x00, 0x00, 0x00, 0x05, 0x04, 0x00, 0x00, 0x00, 0xc3];
    UnaryTails();
    SmallFixnum(EMPTY, 5, -WORD_SIZE, pos);
    UnaryCode(EMPTY, "sub1", Fixnum(5), -WORD_SIZE, pos, c0);
    UnaryCode(EMPTY, "add1", Call1("sub1", Fixnum(5)), -WORD_SIZE, pos, c1);
    FunctionRet(EMPTY, Call1("add1", Call1("sub1", Fixnum(5))), pos, c2);
  }

  /** `compile_add_three_ints`: `(+ 1 (+ 2 3))`; the inner sum is saved at
      `[rsp-8]` and the slot is reused for the outer one. */
  lemma GoldenAddThree(pos: nat)
    ensures Function(EMPTY, Call2("+", Fixnum(1), Call2("+", Fixnum(2), Fixnum(3))), pos)
            == Some(Out([0xb8, 0x0c, 0x00, 0x00, 0x00, 0x48, 0x89, 0x44, 0x24, 0xf8,   // (+ 2 3)
                         0xb8, 0x08, 0x00, 0x00, 0x00, 0x48, 0x03, 0x44, 0x24, 0xf8]
                        + [0x48, 0x89, 0x44, 0x24, 0xf8]                                // mov [rsp-8], rax
                        + [0xb8, 0x04, 0x00, 0x00, 0x00]                                // mov eax, 4
                        + [0x48, 0x03, 0x44, 0x24, 0xf8]                                // add rax, [rsp-8]
                        + [0xc3], 0))
  {
    var b: seq<byte> := [0xb8, 0x0c, 0x00, 0x00, 0x00, 0x48, 0x89, 0x44, 0x24, 0xf8,
                         0xb8, 0x08, 0x00, 0x00, 0x00, 0x48, 0x03, 0x44, 0x24, 0xf8];
    var a: seq<byte> := [0xb8, 0x04, 0x00, 0x00, 0x00];
    PlusFixnums(EMPTY, 2, 3, -WORD_SIZE, pos);
    SmallFixnum(EMPTY, 1, -2 * WORD_SIZE, pos + |b| + 5);
    PlusCode(EMPTY, Fixnum(1), Call2("+", Fixnum(2), Fixnum(3)), -WORD_SIZE, pos, a, b);
    FunctionRet(EMPTY, Call2("+", Fixnum(1), Call2("+", Fixnum(2), Fixnum(3))), pos,
                b + [0x48, 0x89, 0x44, 0x24, 0xf8] + a + [0x48, 0x03, 0x44, 0x24, 0xf8]);
  }


  /** `compile_add_four_ints`: `(+ (+ 1 2) (+ 3 4))`; the right sum is
      saved at `[rsp-8]`, the left one uses `[rsp-16]`. */
  lemma GoldenAddFour(pos: nat)
    ensures Function(EMPTY, Call2("+", Call2("+", Fixnum(1), Fixnum(2)), Call2("+", Fixnum(3), Fixnum(4))), pos)
            == Some(Out([0xb8, 0x10, 0x00, 0x00, 0x00, 0x48, 0x89, 0x44, 0x24, 0xf8,   // (+ 3 4)
                         0xb8, 0x0c, 0x00, 0x00, 0x00, 0x48, 0x03, 0x44, 0x24, 0xf8]
                        + [0x48, 0x89, 0x44, 0x24, 0xf8]                                // mov [rsp-8], rax
                        + [0xb8, 0x08, 0x00, 0x00, 0x00, 0x48, 0x89, 0x44, 0x24, 0xf0,   // (+ 1 2) at -16
                           0xb8, 0x04, 0x00, 0x00, 0x00, 0x48, 0x03, 0x44, 0x24, 0xf0]
                        + [0x48, 0x03, 0x44, 0x24, 0xf8]                                // add rax, [rsp-8]
                        + [0xc3], 0))
  {
    var b: seq<byte> := [0xb8, 0x10, 0x00, 0x00, 0x00, 0x48, 0x89, 0x44, 0x24, 0xf8,
                         0xb8, 0x0c, 0x00, 0x00, 0x00, 0x48, 0x03, 0x44, 0x24, 0xf8];
    var a: seq<byte> := [0xb8, 0x08, 0x00, 0x00, 0x00, 0x48, 0x89, 0x44, 0x24, 0xf0,
                         0xb8, 0x04, 0x00, 0x00, 0x00, 0x48, 0x03, 0x44, 0x24, 0xf0];
    PlusFixnums(EMPTY, 3, 4, -WORD_SIZE, pos);
    PlusFixnums(EMPTY, 1, 2, -2 * WORD_SIZE, pos + |b| + 5);
    PlusCode(EMPTY, Call2("+", Fixnum(1), Fixnum(2)), Call2("+", Fixnum(3), Fixnum(4)), -WORD_SIZE, pos, a, b);
    FunctionRet(EMPTY, Call2("+", Call2("+", Fixnum(1), Fixnum(2)), Call2("+", Fixnum(3), Fixnum(4))), pos,
                b + [0x48, 0x89, 0x44, 0x24, 0xf8] + a + [0x48, 0x03, 0x44, 0x24, 0xf8]);
  }


  /** `zerop_with_non_zero_returns_false`: `(zero? (sub1 (add1 1)))`, the
      same code as for 0 but for the first immediate (the test's comment
      says `mov eax, 0x0`; its bytes load 4). */
  lemma GoldenZeroPNonZero(pos: nat)
    ensures Function(EMPTY, Call1("zero?", Call1("sub1", Call1("add1", Fixnum(1)))), pos)
            == Some(Out([0xb8, 0x04, 0x00, 0x00, 0x00]                                  // mov eax, 4
                        + [0x05, 0x04, 0x00, 0x00, 0x00]                                // add eax, 4
                        + [0x2d, 0x04, 0x00, 0x00, 0x00]                                // sub eax, 4
                        + [0x48, 0x3d, 0x00, 0x00, 0x00, 0x00, 0xb8, 0x00, 0x00, 0x00, 0x00, 0x0f, 0x94,
                           0xc0, 0x48, 0xc1, 0xe0, 0x07, 0x48, 0x0d, 0x1f, 0x00, 0x00, 0x00]  // zero?
                        + [0xc3], 0))
  {
    var c0: seq<byte> := [0xb8, 0x04, 0x00, 0x00, 0x00];
    var c1: seq<byte> := c0 + [0x05, 0x04, 0x00, 0x00, 0x00];
    var c2: seq<byte> := c1 + [0x2d, 0x04, 0x00, 0x00, 0x00];
    var c3: seq<byte> := c2 + [0x48, 0x3d, 0x00, 0x00, 0x00, 0x00, 0xb8, 0x00, 0x00, 0x00, 0x00, 0x0f, 0x94,
                               0xc0, 0x48, 0xc1, 0xe0, 0x07, 0x48, 0x0d, 0x1f, 0x00, 0x00, 0x00];
    UnaryTails();
    SmallFixnum(EMPTY, 1, -WORD_SIZE, pos);
    UnaryCode(EMPTY, "add1", Fixnum(1), -WORD_SIZE, pos, c0);
    UnaryCode(EMPTY, "sub1", Call1("add1", Fixnum(1)), -WORD_SIZE, pos, c1);
    UnaryCode(EMPTY, "zero?", Call1("sub1", Call1("add1", Fixnum(1))), -WORD_SIZE, pos, c2);
    FunctionRet(EMPTY, Call1("zero?", Call1("sub1", Call1("add1", Fixnum(1)))), pos, c3);
  }


  /** `let_with_no_bindings`: `(let () (+ 1 2))` is the code of its body. */
  lemma GoldenLetNoBindings(pos: nat)
    ensures Function(EMPTY, Call2("let", Nil, Call2("+", Fixnum(1), Fixnum(2))), pos)
            == Some(Out([0xb8, 0x08, 0x00, 0x00, 0x00, 0x48, 0x89, 0x44, 0x24, 0xf8, 0xb8, 0x04, 0x00, 0x00,
                         0x00, 0x48, 0x03, 0x44, 0x24, 0xf8, 0xc3], 0))
  {
    var code: seq<byte> := [0xb8, 0x08, 0x00, 0x00, 0x00, 0x48, 0x89, 0x44, 0x24, 0xf8,
                            0xb8, 0x04, 0x00, 0x00, 0x00, 0x48, 0x03, 0x44, 0x24, 0xf8];
    PlusFixnums(EMPTY, 1, 2, -WORD_SIZE, pos);
    CallLet(EMPTY, Nil, Call2("+", Fixnum(1), Fixnum(2)), -WORD_SIZE, pos);
    assert Let(EMPTY, Nil, Call2("+", Fixnum(1), Fixnum(2)), -WORD_SIZE, pos) == Some(Out(code, 0));
    FunctionRet(EMPTY, Call2("let", Nil, Call2("+", Fixnum(1), Fixnum(2))), pos, code);
    assert code + [0xc3]
        == [0xb8, 0x08, 0x00, 0x00, 0x00, 0x48, 0x89, 0x44, 0x24, 0xf8, 0xb8, 0x04, 0x00, 0x00,
            0x00, 0x48, 0x03, 0x44, 0x24, 0xf8, 0xc3];
  }

  /** `(cons car cdr)` of two operands that compile, as its pieces. */
  lemma ConsExpr(ctx: Context, car: Node, cdr: Node, si: int, pos: nat, a: seq<byte>, b: seq<byte>)
    requires Expr(ctx, car, si - WORD_SIZE, pos) == Some(Out(a, 0))
    requires Expr(ctx, cdr, si, pos + |a| + 4) == Some(Out(b, 0))
    ensures Expr(ctx, Call2("cons", car, cdr), si, pos)
            == Some(Out((a + MovRaxToRegDisp(Rsi, 0)) + (b + MovRaxToRegDisp(Rsi, WORD_SIZE)) + CONS_TAIL, 0))
  {
    CallCons(ctx, car, cdr, si, pos);
    ConsOf(ctx, car, cdr, si, pos, a, b);
  }

  /** A fixnum in range is one five-byte `mov eax`. */
  lemma FixnumCode(ctx: Context, n: int, si: int, pos: nat)
    requires 0 <= n < 64
    ensures Expr(ctx, Fixnum(n), si, pos) == Some(Out(MovRegImm32(Rax, EncodeFixnum(n)), 0))
    ensures |MovRegImm32(Rax, EncodeFixnum(n))| == 5 && |MovRaxToRegDisp(Rsi, 0)| == 4
  {
    assert FixnumInRange(n);
  }

  /** A `cons` whose cdr is a `cons`: the outer car's store to `[rsi]` is
      followed by the inner car's code and a second store to `[rsi]`; the
      bump of rsi comes only after both. */
  lemma NestedConsStores(ctx: Context, x: Node, y: Node, z: Node, si: int, pos: nat, a1: seq<byte>, a2: seq<byte>, a3: seq<byte>)
    requires Expr(ctx, x, si - WORD_SIZE, pos) == Some(Out(a1, 0))
    requires Expr(ctx, y, si - WORD_SIZE, pos + |a1| + 4) == Some(Out(a2, 0))
    requires Expr(ctx, z, si, pos + |a1| + 4 + |a2| + 4) == Some(Out(a3, 0))
    ensures Expr(ctx, Call2("cons", x, Call2("cons", y, z)), si, pos)
            == Some(Out(a1 + MovRaxToRegDisp(Rsi, 0) + a2 + MovRaxToRegDisp(Rsi, 0)
                        + (a3 + MovRaxToRegDisp(Rsi, WORD_SIZE) + CONS_TAIL + MovRaxToRegDisp(Rsi, WORD_SIZE) + CONS_TAIL), 0))
  {
    var store0, store8 := MovRaxToRegDisp(Rsi, 0), MovRaxToRegDisp(Rsi, WORD_SIZE);
    var inner := (a2 + store0) + (a3 + store8) + CONS_TAIL;
    ConsExpr(ctx, y, z, si, pos + |a1| + 4, a2, a3);
    ConsExpr(ctx, x, Call2("cons", y, z), si, pos, a1, inner);
    NestedConcat(a1, store0, a2, a3, store8, CONS_TAIL);
  }

  /** The concatenation behind `NestedConsStores`, regrouped. */
  lemma NestedConcat(a1: seq<byte>, s0: seq<byte>, a2: seq<byte>, a3: seq<byte>, s8: seq<byte>, t: seq<byte>)
    ensures (a1 + s0) + (((a2 + s0) + (a3 + s8) + t) + s8) + t == a1 + s0 + a2 + s0 + (a3 + s8 + t + s8 + t)
  {
  }

  /** Where the pieces of `a1 + s + a2 + s + rest` lie. */
  lemma StoresAt(a1: seq<byte>, st: seq<byte>, a2: seq<byte>, rest: seq<byte>)
    ensures var c := a1 + st + a2 + st + rest;
            && |c| >= |a1| + |st| + |a2| + |st|
            && c[|a1|..|a1| + |st|] == st
            && c[|a1| + |st|..|a1| + |st| + |a2|] == a2
            && c[|a1| + |st| + |a2|..|a1| + |st| + |a2| + |st|] == st
  {
    var c := a1 + st + a2 + st + rest;
    assert c == a1 + (st + (a2 + (st + rest)));
  }

  /** In `(cons 1 (cons 2 3))` the outer car is stored at `[rsi]` (bytes
      5 to 8); the inner cons then loads its own car and stores it at
      `[rsi]` too (bytes 9 to 17), before any bump of rsi, so the outer
      car is overwritten. */
  lemma NestedConsClobbers(pos: nat)
    ensures var r := Expr(EMPTY, Call2("cons", Fixnum(1), Call2("cons", Fixnum(2), Fixnum(3))), -WORD_SIZE, pos);
            && r.Some? && |r.value.code| >= 18
            && r.value.code[5..9] == MovRaxToRegDisp(Rsi, 0)
            && r.value.code[9..14] == MovRegImm32(Rax, EncodeFixnum(2))
            && r.value.code[14..18] == MovRaxToRegDisp(Rsi, 0)
  {
    var a1, a2, a3 := MovRegImm32(Rax, EncodeFixnum(1)), MovRegImm32(Rax, EncodeFixnum(2)), MovRegImm32(Rax, EncodeFixnum(3));
    FixnumCode(EMPTY, 1, -2 * WORD_SIZE, pos);
    FixnumCode(EMPTY, 2, -2 * WORD_SIZE, pos + 9);
    FixnumCode(EMPTY, 3, -WORD_SIZE, pos + 18);
    NestedConsStores(EMPTY, Fixnum(1), Fixnum(2), Fixnum(3), -WORD_SIZE, pos, a1, a2, a3);
    StoresAt(a1, MovRaxToRegDisp(Rsi, 0), a2,
             a3 + MovRaxToRegDisp(Rsi, WORD_SIZE) + CONS_TAIL + MovRaxToRegDisp(Rsi, WORD_SIZE) + CONS_TAIL);
  }


}
