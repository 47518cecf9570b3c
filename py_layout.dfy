/** The shape of the code `compile_expr` emits for each kind of expression,
    in terms of the code of its parts compiled on their own. */
module PyLayout {
  import opened Util
  import opened PyValues
  import opened PyCompiler
  import opened PyProperties

  /** `PRIMITIVE_TABLE` holds exactly one entry per primitive, under that
      primitive's name. */
  lemma TableNames(name: string, p: Prim)
    ensures PrimitiveTable(name) == Some(p) <==> name == PrimName(p)
  {
    if name == PrimName(p) {
      match p
      case Add1 => case Sub1 => case IntToChar => case CharToInt => case ZeroP => case NullP => case Not =>
      case IntegerP => case BooleanP => case Plus => case Minus => case Cons => case Car => case Cdr =>
    }
  }

  /** An immediate is one `mov rax` of its encoding, or the error `imm`
      raises, wherever it appears. */
  lemma ImmediateCode(s: State, x: PyVal, si: int, env: Env)
    requires s.err.None? && IsImmediate(x)
    ensures ExprSt(s, x, si, env) == if Imm(x).Ok? then Emit(s, MovImm(Imm(x).value)) else Raise(s, Imm(x).error)
  {
  }

  /** A variable reference is one load from the slot the environment
      records, whatever the stack index; an unbound name raises KeyError
      and emits nothing. */
  lemma VarLoad(s: State, name: string, si: int, si': int, env: Env)
    requires s.err.None?
    ensures ExprSt(s, PVar(name), si, env) == ExprSt(s, PVar(name), si', env)
    ensures ExprSt(s, PVar(name), si, env) ==
      if PStr(name) in env then Emit(s, LoadStack(env[PStr(name)])) else Raise(s, KeyError)
  {
  }

  /** The trees `compile_expr` has no case for: a non-empty list that is not
      a primitive call, a `let` or an `if`, and whose head is not a list. */
  predicate NoShape(x: PyVal) {
    x.PList? && |x.items| >= 1 && !x.items[0].PList? &&
    (|x.items| >= 2 && x.items[0].PStr? ==> PrimitiveTable(x.items[0].s).None?) &&
    !IsLet(x) && !IsIf(x)
  }

  /** Such a tree raises ValueError and emits nothing. */
  lemma NoShapeValueError(s: State, x: PyVal, si: int, env: Env)
    requires s.err.None? && NoShape(x)
    ensures ExprSt(s, x, si, env) == Raise(s, ValueError)
  {
  }

  /** A list with at least two items whose head is a list raises TypeError
      (the membership test hashes the head), even when it would otherwise
      be a `let` or an `if`. */
  lemma ListHeadTypeError(s: State, items: seq<PyVal>, si: int, env: Env)
    requires s.err.None? && |items| >= 2 && items[0].PList?
    ensures ExprSt(s, PList(items), si, env) == Raise(s, TypeError)
  {
  }

  /** A list of two or more items headed by a primitive's name is compiled
      by `emit_primcall`. */
  lemma PrimDispatch(s: State, x: PyVal, si: int, env: Env)
    requires s.err.None? && x.PList? && |x.items| >= 2 && x.items[0].PStr?
    requires PrimitiveTable(x.items[0].s).Some?
    ensures ExprSt(s, x, si, env) == PrimcallSt(s, x.items, si, env)
  {
    assert IsPrimcall(x) == Ok(true);
  }

  /** A primitive applied to the wrong number of operands raises TypeError
      and emits nothing. */
  lemma PrimArityError(s: State, p: Prim, args: seq<PyVal>, si: int, env: Env)
    requires s.err.None? && |args| >= 1 && |args| != Arity(p)
    ensures ExprSt(s, PList([PStr(PrimName(p))] + args), si, env) == Raise(s, TypeError)
  {
    TableNames(PrimName(p), p);
    var x := PList([PStr(PrimName(p))] + args);
    assert x.items[0] == PStr(PrimName(p));
    PrimDispatch(s, x, si, env);
    assert PrimitiveTable(x.items[0].s).value == p;
  }

  /** A one-operand primitive: the operand's code, then the primitive's
      own lines. */
  lemma UnaryLayout(s: State, p: Prim, arg: PyVal, si: int, env: Env)
    requires s.err.None? && Arity(p) == 1
    ensures var a := Run(arg, si, env, s.counter);
      ExprSt(s, PList([PStr(PrimName(p)), arg]), si, env) ==
        if a.err.Some? then Shift(s.out, a) else State(s.out + a.out + UnaryTail(p), a.counter, None)
  {
    TableNames(PrimName(p), p);
    var x := PList([PStr(PrimName(p)), arg]);
    PrimDispatch(s, x, si, env);
    SizeSeqElem(x.items, 1);
    assert PrimcallSt(s, x.items, si, env) == UnarySt(s, p, arg, si, env);
    Compositional(s, arg, si, env);
    UnaryStOperand(s, p, arg, si, env, ExprSt(s, arg, si, env));
  }

  /** `(+ left right)` and `(- left right)`: the right operand's code at
      `si`, a store to `[rsp-si]`, the left operand's code at
      `si + WORD_SIZE`, and the add or subtract with `[rsp-si]`. The left
      operand's code never stores to `[rsp-si]`, so the saved value is
      still there when it is used. */
  lemma BinaryLayout(s: State, plus: bool, left: PyVal, right: PyVal, si: int, env: Env)
    requires s.err.None?
    ensures var a := Run(right, si, env, s.counter);
      var b := Run(left, si + WORD_SIZE, env, a.counter);
      ExprSt(s, PList([PStr(if plus then "+" else "-"), left, right]), si, env) ==
        if a.err.Some? then Shift(s.out, a)
        else if b.err.Some? then Shift(s.out + a.out + [StoreStack(si)], b)
        else State(s.out + a.out + [StoreStack(si)] + b.out + [if plus then AddStack(si) else SubStack(si)], b.counter, None)
  {
    BinaryDispatch(s, plus, left, right, si, env);
    var a := Run(right, si, env, s.counter);
    Compositional(s, right, si, env);
    BinaryStRight(s, plus, left, right, si, env, Shift(s.out, a));
    if a.err.None? {
      var s1 := Emit(Shift(s.out, a), StoreStack(si));
      assert s1.out == s.out + a.out + [StoreStack(si)];
      BinaryLeftLayout(s1, plus, left, si, env);
    }
  }

  /** `+` and `-` with two operands are compiled by `prim_binplus` and
      `prim_binminus`. */
  lemma BinaryDispatch(s: State, plus: bool, left: PyVal, right: PyVal, si: int, env: Env)
    requires s.err.None?
    ensures ExprSt(s, PList([PStr(if plus then "+" else "-"), left, right]), si, env) == BinarySt(s, plus, left, right, si, env)
  {
    var p := if plus then Plus else Minus;
    TableNames(PrimName(p), p);
    var x := PList([PStr(PrimName(p)), left, right]);
    PrimDispatch(s, x, si, env);
    SizeSeq3(x.items);
    assert PrimcallSt(s, x.items, si, env) == BinarySt(s, plus, left, right, si, env);
  }

  /** The left operand of `+` or `-` after the right one was saved. */
  lemma BinaryLeftLayout(a: State, plus: bool, left: PyVal, si: int, env: Env)
    requires a.err.None?
    ensures var b := Run(left, si + WORD_SIZE, env, a.counter);
      BinaryLeftSt(a, plus, left, si, env) ==
        if b.err.Some? then Shift(a.out, b)
        else State(a.out + b.out + [if plus then AddStack(si) else SubStack(si)], b.counter, None)
  {
    Compositional(a, left, si + WORD_SIZE, env);
  }

  /** Code compiled at stack index `si + WORD_SIZE` never stores to
      `[rsp-si]`: the value `BinaryLayout` saves there survives its left
      operand. */
  lemma NoClobber(left: PyVal, si: int, env: Env, c: int)
    ensures var b := Run(left, si + WORD_SIZE, env, c);
      forall i :: 0 <= i < |b.out| ==> b.out[i] != StoreStack(si)
  {
    var b := Run(left, si + WORD_SIZE, env, c);
    DisciplineExpr(left, si + WORD_SIZE, env, c);
    forall i | 0 <= i < |b.out|
      ensures b.out[i] != StoreStack(si)
    {
      StoreListed(b.out, i);
    }
  }

  /** A stack store in `code` is among `Stores(code)`. */
  lemma {:induction false} StoreListed(code: seq<Instr>, i: nat)
    requires i < |code|
    ensures code[i].StoreStack? ==> code[i].off in Stores(code)
    decreases i
  {
    if i > 0 {
      StoreListed(code[1..], i - 1);
    }
  }

  /** A label definition in `code` is among `Labels(code)`. */
  lemma {:induction false} LabelListed(code: seq<Instr>, i: nat)
    requires i < |code|
    ensures code[i].Label? ==> code[i].name in Labels(code)
    decreases i
  {
    if i > 0 {
      LabelListed(code[1..], i - 1);
    }
  }

  /** `(cons car cdr)`: the car's code, a store to `[rsi]`, the cdr's code
      at the same stack index, a store to `[rsi+4]`, the tagged pointer in
      rax and the bump of rsi. The cdr's code is compiled with rsi not yet
      moved, so a `cons` inside it stores to the same `[rsi]`. */
  lemma ConsLayout(s: State, car: PyVal, cdr: PyVal, si: int, env: Env)
    requires s.err.None?
    ensures var a := Run(car, si, env, s.counter);
      var b := Run(cdr, si, env, a.counter);
      ExprSt(s, PList([PStr("cons"), car, cdr]), si, env) ==
        if a.err.Some? then Shift(s.out, a)
        else if b.err.Some? then Shift(s.out + a.out + [StoreHeap(0)], b)
        else State(s.out + a.out + [StoreHeap(0)] + b.out + ConsTail, b.counter, None)
  {
    TableNames("cons", Cons);
    var x := PList([PStr("cons"), car, cdr]);
    PrimDispatch(s, x, si, env);
    SizeSeq3(x.items);
    assert PrimcallSt(s, x.items, si, env) == ConsSt(s, car, cdr, si, env);
    var a := Run(car, si, env, s.counter);
    Compositional(s, car, si, env);
    ConsStCar(s, car, cdr, si, env, Shift(s.out, a));
    if a.err.None? {
      var s1 := Emit(Shift(s.out, a), StoreHeap(0));
      Compositional(s1, cdr, si, env);
      assert s1.out == s.out + a.out + [StoreHeap(0)];
    }
  }

  /** The else branch of an `if` after the then branch succeeded: the jump
      to the end, the else label, the else code and the end label. */
  lemma IfElseLayout(b: State, l0: int, l1: int, e: PyVal, si: int, env: Env)
    requires b.err.None?
    ensures var d := Run(e, si, env, b.counter);
      IfElseSt(b, l0, l1, e, si, env) ==
        if d.err.Some? then Shift(b.out + [Jmp(l1), Label(l0)], d)
        else State(b.out + [Jmp(l1), Label(l0)] + d.out + [Label(l1)], d.counter, None)
  {
    var s4 := EmitAll(b, [Jmp(l1), Label(l0)]);
    Compositional(s4, e, si, env);
    IfElseStBranch(b, l0, l1, e, si, env, Shift(s4.out, Run(e, si, env, b.counter)));
  }

  /** The then branch of an `if` after the condition succeeded. */
  lemma IfThenLayout(a: State, l0: int, l1: int, t: PyVal, e: PyVal, si: int, env: Env)
    requires a.err.None?
    ensures var b := Run(t, si, env, a.counter);
      var d := Run(e, si, env, b.counter);
      var head := a.out + [CmpImm(BOOL_TAG), Je(l0)];
      IfThenSt(a, l0, l1, t, e, si, env) ==
        if b.err.Some? then Shift(head, b)
        else if d.err.Some? then Shift(head + b.out + [Jmp(l1), Label(l0)], d)
        else State(head + b.out + [Jmp(l1), Label(l0)] + d.out + [Label(l1)], d.counter, None)
  {
    var s3 := EmitAll(a, [CmpImm(BOOL_TAG), Je(l0)]);
    var b := Run(t, si, env, a.counter);
    Compositional(s3, t, si, env);
    IfThenStBranch(a, l0, l1, t, e, si, env, Shift(s3.out, b));
    if b.err.None? {
      IfElseLayout(Shift(s3.out, b), l0, l1, e, si, env);
    }
  }

  /** `(if c t e)`: both labels are taken first, so the condition is
      compiled with the counter two higher, then the comparison with the
      false word and the jumps around the two branches. */
  lemma IfLayout(s: State, c: PyVal, t: PyVal, e: PyVal, si: int, env: Env)
    requires s.err.None?
    ensures var l0, l1 := s.counter + 1, s.counter + 2;
      var a := Run(c, si, env, s.counter + 2);
      var b := Run(t, si, env, a.counter);
      var d := Run(e, si, env, b.counter);
      ExprSt(s, PList([PStr("if"), c, t, e]), si, env) ==
        if a.err.Some? then Shift(s.out, a)
        else if b.err.Some? then Shift(s.out + a.out + [CmpImm(BOOL_TAG), Je(l0)], b)
        else if d.err.Some? then Shift(s.out + a.out + [CmpImm(BOOL_TAG), Je(l0)] + b.out + [Jmp(l1), Label(l0)], d)
        else State(s.out + a.out + [CmpImm(BOOL_TAG), Je(l0)] + b.out + [Jmp(l1), Label(l0)] + d.out + [Label(l1)], d.counter, None)
  {
    var x := PList([PStr("if"), c, t, e]);
    assert IsPrimcall(x) == Ok(false) by { TableNamesNone("if"); }
    SizeSeq4(x.items);
    assert ExprSt(s, x, si, env) == IfSt(s, c, t, e, si, env);
    var a := Run(c, si, env, s.counter + 2);
    Compositional(State(s.out, s.counter + 2, None), c, si, env);
    IfStCond(s, c, t, e, si, env, Shift(s.out, a));
    if a.err.None? {
      IfThenLayout(Shift(s.out, a), s.counter + 1, s.counter + 2, t, e, si, env);
    }
  }

  /** The two labels of an `if` are distinct, and no code compiled inside it
      defines either of them. */
  lemma IfLabelsFresh(c: PyVal, t: PyVal, e: PyVal, si: int, env: Env, n: int)
    ensures var a := Run(c, si, env, n + 2);
      var b := Run(t, si, env, a.counter);
      var d := Run(e, si, env, b.counter);
      forall l :: l == n + 1 || l == n + 2 ==> l !in Labels(a.out) && l !in Labels(b.out) && l !in Labels(d.out)
  {
    var a := Run(c, si, env, n + 2);
    var b := Run(t, si, env, a.counter);
    var d := Run(e, si, env, b.counter);
    DisciplineExpr(c, si, env, n + 2);
    DisciplineExpr(t, si, env, a.counter);
    DisciplineExpr(e, si, env, b.counter);
    forall l | l == n + 1 || l == n + 2
      ensures l !in Labels(a.out) && l !in Labels(b.out) && l !in Labels(d.out)
    {
      Fresh(Labels(a.out), n + 2, a.counter, l);
      Fresh(Labels(b.out), a.counter, b.counter, l);
      Fresh(Labels(d.out), b.counter, d.counter, l);
    }
  }

  /** A label at or below the range of fresh labels is not among them. */
  lemma {:induction false} Fresh(ls: seq<int>, lo: int, hi: int, l: int)
    requires InRange(ls, lo, hi) && l <= lo
    ensures l !in ls
  {
    forall i | 0 <= i < |ls|
      ensures ls[i] != l
    {
    }
  }

  /** Strings that are not operator names. */
  lemma TableNamesNone(name: string)
    requires name == "if" || name == "let"
    ensures PrimitiveTable(name).None?
  {
  }

  /** A `let` binding list as the source writes it: two-item lists of a
      name and an expression. */
  function Binding(name: string, e: PyVal): PyVal {
    PList([PStr(name), e])
  }

  /** `(let () body)` is `body`. */
  lemma LetEmpty(s: State, body: PyVal, si: int, env: Env)
    requires s.err.None?
    ensures ExprSt(s, PList([PStr("let"), PList([]), body]), si, env) == ExprSt(s, body, si, env)
  {
    var x := PList([PStr("let"), PList([]), body]);
    assert IsPrimcall(x) == Ok(false) by { TableNamesNone("let"); }
    SizeSeq3(x.items);
    assert DispatchSt(s, x, si, env) == LetSt(s, PList([]), body, si, env);
  }

  /** The first binding of a `let`: its expression's code at `si`, a store
      to `[rsp-si]`, then the remaining bindings and the body at
      `si + WORD_SIZE` with the name bound to `si`. */
  lemma LetFirstLayout(s: State, name: string, e: PyVal, rest: seq<PyVal>, body: PyVal, si: int, env: Env)
    requires s.err.None?
    ensures var a := Run(e, si, env, s.counter);
      LetSt(s, PList([Binding(name, e)] + rest), body, si, env) ==
        if a.err.Some? then Shift(s.out, a)
        else LetSt(State(s.out + a.out + [StoreStack(si)], a.counter, None), PList(rest), body, si + WORD_SIZE, env[PStr(name) := si])
  {
    var bs := PList([Binding(name, e)] + rest);
    assert bs.items[0] == Binding(name, e);
    assert Unpack2(bs.items[0]) == Ok((PStr(name), e));
    assert bs.items[1..] == rest;
    var a := Run(e, si, env, s.counter);
    Compositional(s, e, si, env);
    LetStFirst(s, bs, body, si, env, Shift(s.out, a));
  }

  /** A three-item list headed by `let` is compiled by `compile_let`. */
  lemma LetDispatch(s: State, bindings: PyVal, body: PyVal, si: int, env: Env)
    requires s.err.None?
    ensures ExprSt(s, PList([PStr("let"), bindings, body]), si, env) == LetSt(s, bindings, body, si, env)
  {
    var x := PList([PStr("let"), bindings, body]);
    assert IsPrimcall(x) == Ok(false) by { TableNamesNone("let"); }
    SizeSeq3(x.items);
  }

  /** A `let` of one binding around a `let` of more bindings. */
  lemma LetNestedLayout(s: State, name: string, e: PyVal, rest: seq<PyVal>, body: PyVal, si: int, env: Env)
    requires s.err.None?
    ensures var a := Run(e, si, env, s.counter);
      ExprSt(s, PList([PStr("let"), PList([Binding(name, e)]), PList([PStr("let"), PList(rest), body])]), si, env) ==
        if a.err.Some? then Shift(s.out, a)
        else LetSt(State(s.out + a.out + [StoreStack(si)], a.counter, None), PList(rest), body, si + WORD_SIZE, env[PStr(name) := si])
  {
    var inner := PList([PStr("let"), PList(rest), body]);
    LetDispatch(s, PList([Binding(name, e)]), inner, si, env);
    LetFirstLayout(s, name, e, [], inner, si, env);
    assert [Binding(name, e)] + [] == [Binding(name, e)];
    var a := Run(e, si, env, s.counter);
    if a.err.None? {
      var b := State(s.out + a.out + [StoreStack(si)], a.counter, None);
      var env' := env[PStr(name) := si];
      assert LetSt(b, PList([]), inner, si + WORD_SIZE, env') == ExprSt(b, inner, si + WORD_SIZE, env');
      LetDispatch(b, PList(rest), body, si + WORD_SIZE, env');
    }
  }

  /** `let` binds sequentially: a list of bindings is the first binding
      around a `let` of the rest, so each expression already sees the names
      bound before it. */
  lemma LetSequential(s: State, name: string, e: PyVal, rest: seq<PyVal>, body: PyVal, si: int, env: Env)
    requires s.err.None?
    ensures ExprSt(s, PList([PStr("let"), PList([Binding(name, e)] + rest), body]), si, env) ==
            ExprSt(s, PList([PStr("let"), PList([Binding(name, e)]), PList([PStr("let"), PList(rest), body])]), si, env)
  {
    LetDispatch(s, PList([Binding(name, e)] + rest), body, si, env);
    LetFirstLayout(s, name, e, rest, body, si, env);
    LetNestedLayout(s, name, e, rest, body, si, env);
  }

  /** The environment `compile_program` starts from: the one given, or an
      empty one. */
  function TopEnv(env: Option<Env>): Env {
    if env.None? then map[] else env.value
  }

  /** An immediate that encodes, compiled on its own. */
  lemma ImmediateRun(x: PyVal, si: int, env: Env, c: int)
    requires IsImmediate(x) && Imm(x).Ok?
    ensures Run(x, si, env, c) == State([MovImm(Imm(x).value)], c, None)
  {
    ImmediateCode(State([], c, None), x, si, env);
  }

  /** `compile_program` from an empty output with the counter at its
      initial -1: the prologue, the expression's code at `si = WORD_SIZE`,
      and `ret`. */
  lemma ProgramLayout(x: PyVal, env: Option<Env>)
    ensures var a := Run(x, WORD_SIZE, TopEnv(env), -1);
      ProgramSt(State([], -1, None), x, env) ==
        if a.err.Some? then Shift([Prologue], a) else State([Prologue] + a.out + [Ret], a.counter, None)
  {
    var s1 := State([Prologue], -1, None);
    assert Emit(State([], -1, None), Prologue) == s1;
    Compositional(s1, x, WORD_SIZE, TopEnv(env));
    var a := Run(x, WORD_SIZE, TopEnv(env), -1);
    assert ExprSt(s1, x, WORD_SIZE, TopEnv(env)) == Shift([Prologue], a);
  }

  /** A whole program that compiles is well formed: its label names are
      distinct and non-negative, every jump goes to a label it defines, and
      every stack store is at `[rsp-si]` with `si >= WORD_SIZE`, below the
      return address. */
  lemma ProgramWellFormed(x: PyVal, env: Option<Env>)
    ensures var r := ProgramSt(State([], -1, None), x, env);
      r.err.None? ==>
        NoDup(Labels(r.out)) && (forall l :: l in Labels(r.out) ==> l >= 0) &&
        Closed(r.out) && StoresFrom(r.out, WORD_SIZE)
  {
    var a := Run(x, WORD_SIZE, TopEnv(env), -1);
    ProgramLayout(x, env);
    DisciplineExpr(x, WORD_SIZE, TopEnv(env), -1);
    if a.err.None? {
      var code := [Prologue] + a.out + [Ret];
      CodeConcat([Prologue], a.out);
      CodeConcat([Prologue] + a.out, [Ret]);
      assert Labels([Prologue]) == [] && Labels([Ret]) == [];
      assert Targets([Prologue]) == {} && Targets([Ret]) == {};
      assert Stores([Prologue]) == {} && Stores([Ret]) == {};
      assert Labels(code) == Labels(a.out);
      assert Targets(code) == Targets(a.out);
      assert Stores(code) == Stores(a.out);
      forall l | l in Labels(code)
        ensures l >= 0
      {
        var i :| 0 <= i < |Labels(a.out)| && Labels(a.out)[i] == l;
      }
    }
  }
}
