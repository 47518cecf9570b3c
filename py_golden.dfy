/** The expectations of compiler_test.py, stated on the model. The tests
    read their programs with an s-expression reader; here the trees are
    written out, with `Var` nodes where the tests reference a variable.
    Each expectation follows from the layout of its expression form. */
module PyGolden {
  import opened Util
  import opened PyValues
  import opened PyCompiler
  import opened PyProperties
  import opened PyLayout

  const Empty: Env := map[]

  /** A fixnum is its value times four. */
  lemma FixnumWord(n: int)
    ensures Imm(PInt(n)) == Ok(4 * n)
  {
    assert Pow2(2) == 4 by { assert Pow2(1) == 2; }
  }

  /** The two booleans, the character `x` and the empty list. */
  lemma OtherWords()
    ensures Imm(PBool(true)) == Ok(0x9f) && Imm(PBool(false)) == Ok(0x1f)
    ensures Imm(PStr("x")) == Ok(0x780f) && Imm(PList([])) == Ok(0x2f)
  {
    assert Pow2(7) == 128 by { assert Pow2(3) == 8 && Pow2(5) == 32; }
    assert Pow2(8) == 256;
  }

  /** `test_imm`: the six immediates, each one `mov rax`. */
  lemma GoldenImmediates(si: int)
    ensures Run(PBool(true), si, Empty, -1) == State([MovImm(0x9f)], -1, None)
    ensures Run(PBool(false), si, Empty, -1) == State([MovImm(0x1f)], -1, None)
    ensures Run(PInt(5), si, Empty, -1) == State([MovImm(0x14)], -1, None)
    ensures Run(PInt(0), si, Empty, -1) == State([MovImm(0)], -1, None)
    ensures Run(PStr("x"), si, Empty, -1) == State([MovImm(0x780f)], -1, None)
    ensures Run(PList([]), si, Empty, -1) == State([MovImm(0x2f)], -1, None)
  {
    OtherWords();
    FixnumWord(5);
    FixnumWord(0);
    ImmediateRun(PBool(true), si, Empty, -1);
    ImmediateRun(PBool(false), si, Empty, -1);
    ImmediateRun(PInt(5), si, Empty, -1);
    ImmediateRun(PInt(0), si, Empty, -1);
    ImmediateRun(PStr("x"), si, Empty, -1);
    ImmediateRun(PList([]), si, Empty, -1);
  }

  /** `(+ m n)` of two fixnums at stack index `si`: the right operand
      first, saved, then the left one, then the add (the tests use 1 and 2
      at stack indices 0 and 4). */
  lemma GoldenPlus(m: int, n: int, si: int)
    ensures Run(PList([PStr("+"), PInt(m), PInt(n)]), si, Empty, -1)
      == State([MovImm(4 * n), StoreStack(si), MovImm(4 * m), AddStack(si)], -1, None)
  {
    FixnumWord(m);
    FixnumWord(n);
    ImmediateRun(PInt(n), si, Empty, -1);
    ImmediateRun(PInt(m), si + WORD_SIZE, Empty, -1);
    BinaryLayout(State([], -1, None), true, PInt(m), PInt(n), si, Empty);
  }

  /** `(+ 1 (+ 2 3))` at stack index `si`: the inner sum uses slot `si` and
      is done with it before the outer sum saves its own right operand
      there (the test uses 4). */
  lemma GoldenNestedPlus(si: int)
    ensures Run(PList([PStr("+"), PInt(1), PList([PStr("+"), PInt(2), PInt(3)])]), si, Empty, -1)
      == State([MovImm(0xc), StoreStack(si), MovImm(8), AddStack(si), StoreStack(si), MovImm(4), AddStack(si)], -1, None)
  {
    var inner := PList([PStr("+"), PInt(2), PInt(3)]);
    GoldenPlus(2, 3, si);
    FixnumWord(1);
    ImmediateRun(PInt(1), si + WORD_SIZE, Empty, -1);
    BinaryLayout(State([], -1, None), true, PInt(1), inner, si, Empty);
    var io := [MovImm(0xc), StoreStack(si), MovImm(8), AddStack(si)];
    assert [] + io + [StoreStack(si)] == [MovImm(0xc), StoreStack(si), MovImm(8), AddStack(si), StoreStack(si)];
  }

  /** A variable bound at offset 4, compiled at stack index 8. */
  lemma GoldenVar(si: int)
    ensures Run(PVar("foo"), si, map[PStr("foo") := 4], -1) == State([LoadStack(4)], -1, None)
  {
    VarLoad(State([], -1, None), "foo", si, si, map[PStr("foo") := 4]);
  }

  /** `(let ((x 3)) x)` at stack index `si` (the tests use 0 and 4). */
  lemma GoldenLet(si: int)
    ensures Run(PList([PStr("let"), PList([Binding("x", PInt(3))]), PVar("x")]), si, Empty, -1)
      == State([MovImm(0xc), StoreStack(si), LoadStack(si)], -1, None)
  {
    OtherWords();
    FixnumWord(3);
    var s := State([], -1, None);
    LetDispatch(s, PList([Binding("x", PInt(3))]), PVar("x"), si, Empty);
    ImmediateRun(PInt(3), si, Empty, -1);
    LetFirstLayout(s, "x", PInt(3), [], PVar("x"), si, Empty);
    assert [Binding("x", PInt(3))] + [] == [Binding("x", PInt(3))];
    var b := State([MovImm(0xc), StoreStack(si)], -1, None);
    var env' := Empty[PStr("x") := si];
    assert LetSt(b, PList([]), PVar("x"), si + WORD_SIZE, env') == ExprSt(b, PVar("x"), si + WORD_SIZE, env');
    VarLoad(b, "x", si + WORD_SIZE, si, env');
  }

  /** A body that is the string `"x"` rather than a `Var` is an immediate:
      it compiles to the character `x`, not to a load of the binding. */
  lemma GoldenLetStringBody(si: int)
    ensures Run(PList([PStr("let"), PList([Binding("x", PInt(3))]), PStr("x")]), si, Empty, -1)
      == State([MovImm(0xc), StoreStack(si), MovImm(0x780f)], -1, None)
  {
    OtherWords();
    FixnumWord(3);
    var s := State([], -1, None);
    LetDispatch(s, PList([Binding("x", PInt(3))]), PStr("x"), si, Empty);
    ImmediateRun(PInt(3), si, Empty, -1);
    LetFirstLayout(s, "x", PInt(3), [], PStr("x"), si, Empty);
    assert [Binding("x", PInt(3))] + [] == [Binding("x", PInt(3))];
    var b := State([MovImm(0xc), StoreStack(si)], -1, None);
    var env' := Empty[PStr("x") := si];
    assert LetSt(b, PList([]), PStr("x"), si + WORD_SIZE, env') == ExprSt(b, PStr("x"), si + WORD_SIZE, env');
    ImmediateCode(b, PStr("x"), si + WORD_SIZE, env');
  }

  /** `(if #t 3 4)` with the counter at its initial -1: labels 0 and 1. */
  lemma GoldenIf(si: int)
    ensures Run(PList([PStr("if"), PBool(true), PInt(3), PInt(4)]), si, Empty, -1)
      == State([MovImm(0x9f), CmpImm(0x1f), Je(0), MovImm(0xc), Jmp(1), Label(0), MovImm(0x10), Label(1)], 1, None)
  {
    OtherWords();
    FixnumWord(3);
    FixnumWord(4);
    ImmediateRun(PBool(true), si, Empty, 1);
    ImmediateRun(PInt(3), si, Empty, 1);
    ImmediateRun(PInt(4), si, Empty, 1);
    IfLayout(State([], -1, None), PBool(true), PInt(3), PInt(4), si, Empty);
  }

  /** `(cons m n)` of two fixnums, with rsi bumped by WORD_SIZE as the
      code does (the test uses 1 and 2). */
  lemma GoldenCons(m: int, n: int, si: int)
    ensures Run(PList([PStr("cons"), PInt(m), PInt(n)]), si, Empty, -1)
      == State([MovImm(4 * m), StoreHeap(0), MovImm(4 * n), StoreHeap(4), MovRaxHeap, OrImm(1), AddHeap(4)], -1, None)
  {
    FixnumWord(m);
    FixnumWord(n);
    ImmediateRun(PInt(m), si, Empty, -1);
    ImmediateRun(PInt(n), si, Empty, -1);
    ConsLayout(State([], -1, None), PInt(m), PInt(n), si, Empty);
  }

  /** `(car 3)`: a load one byte below the tagged pointer. */
  lemma GoldenCar(si: int)
    ensures Run(PList([PStr("car"), PInt(3)]), si, Empty, -1) == State([MovImm(0xc), LoadField(-1)], -1, None)
  {
    FixnumWord(3);
    ImmediateRun(PInt(3), si, Empty, -1);
    UnaryLayout(State([], -1, None), Car, PInt(3), si, Empty);
  }

  /** `(cdr 3)`: a load three bytes above the tagged pointer. */
  lemma GoldenCdr(si: int)
    ensures Run(PList([PStr("cdr"), PInt(3)]), si, Empty, -1) == State([MovImm(0xc), LoadField(3)], -1, None)
  {
    FixnumWord(3);
    ImmediateRun(PInt(3), si, Empty, -1);
    UnaryLayout(State([], -1, None), Cdr, PInt(3), si, Empty);
  }

  /** `(cons 1 (cons 2 3))`. */
  lemma GoldenNestedCons(si: int)
    ensures Run(PList([PStr("cons"), PInt(1), PList([PStr("cons"), PInt(2), PInt(3)])]), si, Empty, -1)
      == State([MovImm(4), StoreHeap(0), MovImm(8), StoreHeap(0), MovImm(0xc), StoreHeap(4), MovRaxHeap, OrImm(1), AddHeap(4),
                StoreHeap(4), MovRaxHeap, OrImm(1), AddHeap(4)], -1, None)
  {
    var inner := PList([PStr("cons"), PInt(2), PInt(3)]);
    GoldenCons(2, 3, si);
    FixnumWord(1);
    ImmediateRun(PInt(1), si, Empty, -1);
    ConsLayout(State([], -1, None), PInt(1), inner, si, Empty);
    var io := [MovImm(8), StoreHeap(0), MovImm(0xc), StoreHeap(4), MovRaxHeap, OrImm(1), AddHeap(4)];
    assert [] + [MovImm(4)] + [StoreHeap(0)] == [MovImm(4), StoreHeap(0)];
    assert [MovImm(4), StoreHeap(0)] + io ==
      [MovImm(4), StoreHeap(0), MovImm(8), StoreHeap(0), MovImm(0xc), StoreHeap(4), MovRaxHeap, OrImm(1), AddHeap(4)];
  }

  /** In `(cons 1 (cons 2 3))` the outer car is stored at `[rsi]` (item 1),
      and the inner cons stores its own car there (item 3) with no bump of
      rsi between (item 2), so the outer car is lost. */
  lemma NestedConsClobbers(si: int)
    ensures var r := Run(PList([PStr("cons"), PInt(1), PList([PStr("cons"), PInt(2), PInt(3)])]), si, Empty, -1);
      |r.out| > 3 && r.out[1] == StoreHeap(0) && r.out[3] == StoreHeap(0) && !r.out[2].AddHeap?
  {
    GoldenNestedCons(si);
  }

  /** A whole program: prologue, the expression at stack index 4, `ret`. */
  lemma GoldenProgram(env: Option<Env>)
    ensures ProgramSt(State([], -1, None), PInt(42), env) == State([Prologue, MovImm(168), Ret], -1, None)
  {
    FixnumWord(42);
    ImmediateRun(PInt(42), WORD_SIZE, TopEnv(env), -1);
    ProgramLayout(PInt(42), env);
  }
}
