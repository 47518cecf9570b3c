/** Properties of the text-emitting compiler (compiler.py): the emitted code
    of an expression does not depend on what was emitted before it, and the
    code keeps the stack, label and environment disciplines the design
    relies on. */
module PyProperties {
  import opened Util
  import opened PyValues
  import opened PyCompiler

  /** A state whose stream has `p` in front of it. */
  function Shift(p: seq<Instr>, r: State): State {
    State(p + r.out, r.counter, r.err)
  }

  /** What compiling `x` emits on an empty stream with the counter at `c`. */
  function Run(x: PyVal, si: int, env: Env, c: int): State {
    ExprSt(State([], c, None), x, si, env)
  }

  // ---------------------------------------------------------------------
  // Compositionality: code already in the stream is kept, and it does not
  // change what is appended after it.
  // ---------------------------------------------------------------------

  lemma {:induction false} ShiftEmitAll(p: seq<Instr>, s: State, lines: seq<Instr>)
    ensures EmitAll(Shift(p, s), lines) == Shift(p, EmitAll(s, lines))
  {
    assert p + s.out + lines == p + (s.out + lines);
  }

  lemma {:induction false} ShiftEmit(p: seq<Instr>, s: State, i: Instr)
    ensures Emit(Shift(p, s), i) == Shift(p, Emit(s, i))
  {
    assert p + s.out + [i] == p + (s.out + [i]);
  }

  lemma {:induction false} FrameExpr(p: seq<Instr>, s: State, x: PyVal, si: int, env: Env)
    requires s.err.None?
    ensures ExprSt(Shift(p, s), x, si, env) == Shift(p, ExprSt(s, x, si, env))
    decreases Size(x), 1
  {
    FrameDispatch(p, s, x, si, env);
  }

  lemma {:induction false} FrameDispatch(p: seq<Instr>, s: State, x: PyVal, si: int, env: Env)
    requires s.err.None?
    ensures DispatchSt(Shift(p, s), x, si, env) == Shift(p, DispatchSt(s, x, si, env))
    decreases Size(x), 0
  {
    if IsImmediate(x) {
      if Imm(x).Ok? {
        ShiftEmit(p, s, MovImm(Imm(x).value));
      }
    } else if IsPrimcall(x) == Ok(true) {
      FramePrimcall(p, s, x.items, si, env);
    } else if IsPrimcall(x).Ok? && x.PVar? {
      if PStr(x.name) in env {
        ShiftEmit(p, s, LoadStack(env[PStr(x.name)]));
      }
    } else if IsPrimcall(x).Ok? && IsLet(x) {
      SizeSeq3(x.items);
      FrameLet(p, s, x.items[1], x.items[2], si, env);
    } else if IsPrimcall(x).Ok? && IsIf(x) {
      SizeSeq4(x.items);
      FrameIf(p, s, x.items[1], x.items[2], x.items[3], si, env);
    }
  }

  lemma {:induction false} FramePrimcall(p: seq<Instr>, s: State, items: seq<PyVal>, si: int, env: Env)
    requires s.err.None?
    requires |items| >= 2 && items[0].PStr? && PrimitiveTable(items[0].s).Some?
    ensures PrimcallSt(Shift(p, s), items, si, env) == Shift(p, PrimcallSt(s, items, si, env))
    decreases SizeSeq(items), -1
  {
    var pr := PrimitiveTable(items[0].s).value;
    if |items| - 1 == Arity(pr) {
      if Arity(pr) == 1 {
        SizeSeqElem(items, 1);
        FrameUnary(p, s, pr, items[1], si, env);
      } else {
        SizeSeq3(items);
        if pr == Cons {
          FrameCons(p, s, items[1], items[2], si, env);
        } else {
          FrameBinary(p, s, pr == Plus, items[1], items[2], si, env);
        }
      }
    }
  }

  lemma {:induction false} FrameUnary(p: seq<Instr>, s: State, pr: Prim, arg: PyVal, si: int, env: Env)
    requires s.err.None? && Arity(pr) == 1
    ensures UnarySt(Shift(p, s), pr, arg, si, env) == Shift(p, UnarySt(s, pr, arg, si, env))
    decreases Size(arg), 2
  {
    var a := ExprSt(s, arg, si, env);
    FrameExpr(p, s, arg, si, env);
    UnaryStOperand(Shift(p, s), pr, arg, si, env, Shift(p, a));
    UnaryStOperand(s, pr, arg, si, env, a);
    ShiftEmitAll(p, a, UnaryTail(pr));
  }

  lemma {:induction false} FrameBinary(p: seq<Instr>, s: State, plus: bool, left: PyVal, right: PyVal, si: int, env: Env)
    requires s.err.None?
    ensures BinarySt(Shift(p, s), plus, left, right, si, env) == Shift(p, BinarySt(s, plus, left, right, si, env))
    decreases Size(left) + Size(right), 2
  {
    var a := ExprSt(s, right, si, env);
    FrameExpr(p, s, right, si, env);
    BinaryStRight(s, plus, left, right, si, env, a);
    BinaryStRight(Shift(p, s), plus, left, right, si, env, Shift(p, a));
    if a.err.None? {
      ShiftEmit(p, a, StoreStack(si));
      FrameBinaryLeft(p, Emit(a, StoreStack(si)), plus, left, si, env);
    }
  }

  lemma {:induction false} FrameBinaryLeft(p: seq<Instr>, a: State, plus: bool, left: PyVal, si: int, env: Env)
    requires a.err.None?
    ensures BinaryLeftSt(Shift(p, a), plus, left, si, env) == Shift(p, BinaryLeftSt(a, plus, left, si, env))
    decreases Size(left), 2
  {
    var b := ExprSt(a, left, si + WORD_SIZE, env);
    FrameExpr(p, a, left, si + WORD_SIZE, env);
    ShiftEmit(p, b, if plus then AddStack(si) else SubStack(si));
  }

  lemma {:induction false} FrameCons(p: seq<Instr>, s: State, car: PyVal, cdr: PyVal, si: int, env: Env)
    requires s.err.None?
    ensures ConsSt(Shift(p, s), car, cdr, si, env) == Shift(p, ConsSt(s, car, cdr, si, env))
    decreases Size(car) + Size(cdr), 2
  {
    var a := ExprSt(s, car, si, env);
    FrameExpr(p, s, car, si, env);
    ConsStCar(s, car, cdr, si, env, a);
    ConsStCar(Shift(p, s), car, cdr, si, env, Shift(p, a));
    if a.err.None? {
      ShiftEmit(p, a, StoreHeap(0));
      FrameConsCdr(p, Emit(a, StoreHeap(0)), cdr, si, env);
    }
  }

  lemma {:induction false} FrameConsCdr(p: seq<Instr>, a: State, cdr: PyVal, si: int, env: Env)
    requires a.err.None?
    ensures ConsCdrSt(Shift(p, a), cdr, si, env) == Shift(p, ConsCdrSt(a, cdr, si, env))
    decreases Size(cdr), 2
  {
    var b := ExprSt(a, cdr, si, env);
    FrameExpr(p, a, cdr, si, env);
    ShiftEmitAll(p, b, ConsTail);
  }

  lemma {:induction false} FrameLet(p: seq<Instr>, s: State, bindings: PyVal, body: PyVal, si: int, env: Env)
    requires s.err.None?
    ensures LetSt(Shift(p, s), bindings, body, si, env) == Shift(p, LetSt(s, bindings, body, si, env))
    decreases Size(bindings) + Size(body), 2
  {
    if !Truthy(bindings) {
      FrameExpr(p, s, body, si, env);
    } else if bindings.PList? && Unpack2(bindings.items[0]).Ok? {
      var bs := bindings.items;
      SizeSeqElem(bs, 0);
      var pair := Unpack2(bs[0]).value;
      assert Size(pair.1) <= Size(bs[0]) by {
        if bs[0].PList? { SizeSeqElem(bs[0].items, 1); }
      }
      var a := ExprSt(s, pair.1, si, env);
      FrameExpr(p, s, pair.1, si, env);
      LetStFirst(Shift(p, s), bindings, body, si, env, Shift(p, a));
      LetStFirst(s, bindings, body, si, env, a);
      if a.err.None? {
        ShiftEmit(p, a, StoreStack(si));
        if !pair.0.PList? {
          assert SizeSeq(bs) == Size(bs[0]) + SizeSeq(bs[1..]);
          FrameLet(p, Emit(a, StoreStack(si)), PList(bs[1..]), body, si + WORD_SIZE, env[pair.0 := si]);
        }
      }
    }
  }

  lemma {:induction false} FrameIf(p: seq<Instr>, s: State, c: PyVal, t: PyVal, e: PyVal, si: int, env: Env)
    requires s.err.None?
    ensures IfSt(Shift(p, s), c, t, e, si, env) == Shift(p, IfSt(s, c, t, e, si, env))
    decreases Size(c) + Size(t) + Size(e), 2
  {
    var s2 := State(s.out, s.counter + 2, None);
    var a := ExprSt(s2, c, si, env);
    FrameExpr(p, s2, c, si, env);
    IfStCond(s, c, t, e, si, env, a);
    IfStCond(Shift(p, s), c, t, e, si, env, Shift(p, a));
    if a.err.None? {
      FrameIfThen(p, a, s.counter + 1, s.counter + 2, t, e, si, env);
    }
  }

  lemma {:induction false} FrameIfThen(p: seq<Instr>, a: State, l0: int, l1: int, t: PyVal, e: PyVal, si: int, env: Env)
    requires a.err.None?
    ensures IfThenSt(Shift(p, a), l0, l1, t, e, si, env) == Shift(p, IfThenSt(a, l0, l1, t, e, si, env))
    decreases Size(t) + Size(e), 2
  {
    var a' := EmitAll(a, [CmpImm(BOOL_TAG), Je(l0)]);
    var b := ExprSt(a', t, si, env);
    ShiftEmitAll(p, a, [CmpImm(BOOL_TAG), Je(l0)]);
    FrameExpr(p, a', t, si, env);
    IfThenStBranch(a, l0, l1, t, e, si, env, b);
    IfThenStBranch(Shift(p, a), l0, l1, t, e, si, env, Shift(p, b));
    if b.err.None? {
      FrameIfElse(p, b, l0, l1, e, si, env);
    }
  }

  lemma {:induction false} FrameIfElse(p: seq<Instr>, b: State, l0: int, l1: int, e: PyVal, si: int, env: Env)
    requires b.err.None?
    ensures IfElseSt(Shift(p, b), l0, l1, e, si, env) == Shift(p, IfElseSt(b, l0, l1, e, si, env))
    decreases Size(e), 2
  {
    var b' := EmitAll(b, [Jmp(l1), Label(l0)]);
    var d := ExprSt(b', e, si, env);
    ShiftEmitAll(p, b, [Jmp(l1), Label(l0)]);
    FrameExpr(p, b', e, si, env);
    ShiftEmit(p, d, Label(l1));
  }

  /** Compiling `x` after any code keeps that code unchanged and appends
      exactly what compiling `x` on its own emits, with the same labels and
      the same outcome. */
  lemma Compositional(s: State, x: PyVal, si: int, env: Env)
    requires s.err.None?
    ensures ExprSt(s, x, si, env) == Shift(s.out, Run(x, si, env, s.counter))
  {
    FrameExpr(s.out, State([], s.counter, None), x, si, env);
    assert s.out + [] == s.out;
  }

  /** A state holding `q` with no exception pending is `q` in front of an
      empty one. */
  lemma {:induction false} ShiftEmpty(q: seq<Instr>, c: int)
    ensures Shift(q, State([], c, None)) == State(q, c, None)
  {
    assert q + [] == q;
  }

  lemma {:induction false} EmitAllEmpty(q: seq<Instr>, c: int)
    ensures EmitAll(State([], c, None), q) == State(q, c, None)
  {
    assert [] + q == q;
  }

  // ---------------------------------------------------------------------
  // What a stretch of code defines, jumps to and writes on the stack.
  // ---------------------------------------------------------------------

  /** The labels `code` defines, in order. */
  function Labels(code: seq<Instr>): seq<int> {
    if code == [] then []
    else (if code[0].Label? then [code[0].name] else []) + Labels(code[1..])
  }

  /** The labels `code` jumps to. */
  function Targets(code: seq<Instr>): set<int> {
    if code == [] then {}
    else (if code[0].Je? || code[0].Jmp? then {code[0].target} else {}) + Targets(code[1..])
  }

  /** The stack offsets `code` stores to. */
  function Stores(code: seq<Instr>): set<int> {
    if code == [] then {}
    else (if code[0].StoreStack? then {code[0].off} else {}) + Stores(code[1..])
  }

  lemma {:induction false} CodeConcat(x: seq<Instr>, y: seq<Instr>)
    ensures Labels(x + y) == Labels(x) + Labels(y)
    ensures Targets(x + y) == Targets(x) + Targets(y)
    ensures Stores(x + y) == Stores(x) + Stores(y)
    decreases |x|
  {
    if x == [] {
      assert x + y == y;
    } else {
      assert (x + y)[0] == x[0];
      assert (x + y)[1..] == x[1..] + y;
      CodeConcat(x[1..], y);
    }
  }

  /** Every label in `ls` lies in `(lo, hi]`. */
  predicate InRange(ls: seq<int>, lo: int, hi: int) {
    forall i :: 0 <= i < |ls| ==> lo < ls[i] <= hi
  }

  predicate NoDup(ls: seq<int>) {
    forall i, j :: 0 <= i < j < |ls| ==> ls[i] != ls[j]
  }

  /** Every jump in `code` goes to a label `code` defines. */
  predicate Closed(code: seq<Instr>) {
    forall t :: t in Targets(code) ==> t in Labels(code)
  }

  /** Every stack store in `code` is at offset `si` or deeper. */
  predicate StoresFrom(code: seq<Instr>, si: int) {
    forall o :: o in Stores(code) ==> si <= o
  }

  /** Code that defines no label, jumps nowhere, and stores on the stack
      only from `si` on. */
  predicate Plain(code: seq<Instr>, si: int) {
    Labels(code) == [] && Targets(code) == {} && StoresFrom(code, si)
  }

  /** The discipline of the code in `r`, compiled with the counter at `c0`
      and the stack index at `si`: the counter has not gone back, every
      label is fresh (above `c0`, at most the final counter) and defined
      once, every stack store is at `si` or deeper, and when no exception
      is pending every jump has its label. */
  predicate Disciplined(r: State, c0: int, si: int) {
    c0 <= r.counter && StoresFrom(r.out, si) &&
    InRange(Labels(r.out), c0, r.counter) && NoDup(Labels(r.out)) &&
    (r.err.None? ==> Closed(r.out))
  }

  /** `Disciplined`, except that the labels `l0` and `l1` taken before
      `c0` may also be defined (the rest of an `if`). */
  predicate DisciplinedIf(r: State, c0: int, si: int, l0: int, l1: int) {
    c0 <= r.counter && StoresFrom(r.out, si) &&
    (forall i :: 0 <= i < |Labels(r.out)| ==>
      (c0 < Labels(r.out)[i] <= r.counter) || Labels(r.out)[i] == l0 || Labels(r.out)[i] == l1) &&
    NoDup(Labels(r.out)) &&
    (r.err.None? ==> Closed(r.out))
  }

  lemma {:induction false} PlainSnippet(code: seq<Instr>, si: int)
    requires forall i :: 0 <= i < |code| ==>
      !code[i].Label? && !code[i].Je? && !code[i].Jmp? && (code[i].StoreStack? ==> si <= code[i].off)
    ensures Plain(code, si)
    decreases |code|
  {
    if code != [] {
      PlainSnippet(code[1..], si);
    }
  }

  lemma {:induction false} TailPlain(p: Prim, si: int)
    requires Arity(p) == 1
    ensures Plain(UnaryTail(p), si)
  {
    PlainSnippet(UnaryTail(p), si);
  }

  lemma {:induction false} NoDupJoin(x: seq<int>, y: seq<int>)
    requires NoDup(x) && NoDup(y)
    requires forall i, j :: 0 <= i < |x| && 0 <= j < |y| ==> x[i] != y[j]
    ensures NoDup(x + y)
  {
    forall i, j | 0 <= i < j < |x + y|
      ensures (x + y)[i] != (x + y)[j]
    {
      if j < |x| {
        assert (x + y)[i] == x[i] && (x + y)[j] == x[j];
      } else if i < |x| {
        assert (x + y)[i] == x[i] && (x + y)[j] == y[j - |x|];
      } else {
        assert (x + y)[i] == y[i - |x|] && (x + y)[j] == y[j - |x|];
      }
    }
  }

  lemma {:induction false} NoDupConcat(x: seq<int>, y: seq<int>, lo: int, mid: int, hi: int)
    requires lo <= mid <= hi
    requires InRange(x, lo, mid) && InRange(y, mid, hi) && NoDup(x) && NoDup(y)
    ensures InRange(x + y, lo, hi) && NoDup(x + y)
  {
    forall i | 0 <= i < |x + y|
      ensures lo < (x + y)[i] <= hi
    {
      if i < |x| {
        assert (x + y)[i] == x[i];
      } else {
        assert (x + y)[i] == y[i - |x|];
      }
    }
    forall i, j | 0 <= i < |x| && 0 <= j < |y|
      ensures x[i] != y[j]
    {
      assert x[i] <= mid < y[j];
    }
    NoDupJoin(x, y);
  }

  /** Disciplined code, then plain code, then disciplined code compiled
      from the counter the first part ended with. */
  lemma {:induction false} JoinDisciplined(a: State, mid: seq<Instr>, r: State, c0: int, si: int, si2: int)
    requires Disciplined(a, c0, si) && a.err.None? && Plain(mid, si)
    requires Disciplined(r, a.counter, si2) && si <= si2
    ensures Disciplined(Shift(a.out + mid, r), c0, si)
  {
    CodeConcat(a.out, mid);
    CodeConcat(a.out + mid, r.out);
    assert Labels(a.out + mid) == Labels(a.out);
    NoDupConcat(Labels(a.out), Labels(r.out), c0, a.counter, r.counter);
  }

  /** Disciplined code followed by plain code. */
  lemma {:induction false} TailDisciplined(b: State, tail: seq<Instr>, c0: int, si: int)
    requires Disciplined(b, c0, si) && Plain(tail, si)
    ensures Disciplined(EmitAll(b, tail), c0, si)
  {
    CodeConcat(b.out, tail);
    assert Labels(b.out + tail) == Labels(b.out);
  }

  lemma {:induction false} EmitOne(b: State, i: Instr)
    ensures Emit(b, i) == EmitAll(b, [i])
  {
  }

  // ---------------------------------------------------------------------
  // The discipline holds for every expression.
  // ---------------------------------------------------------------------

  lemma {:induction false} DisciplineExpr(x: PyVal, si: int, env: Env, c: int)
    ensures Disciplined(Run(x, si, env, c), c, si)
    decreases Size(x), 1
  {
    DisciplineDispatch(x, si, env, c);
  }

  lemma {:induction false} DisciplineDispatch(x: PyVal, si: int, env: Env, c: int)
    ensures Disciplined(DispatchSt(State([], c, None), x, si, env), c, si)
    decreases Size(x), 0
  {
    var s := State([], c, None);
    if IsImmediate(x) {
      if Imm(x).Ok? {
        PlainSnippet([MovImm(Imm(x).value)], si);
        TailDisciplined(s, [MovImm(Imm(x).value)], c, si);
        EmitOne(s, MovImm(Imm(x).value));
      }
    } else if IsPrimcall(x) == Ok(true) {
      DisciplinePrimcall(x.items, si, env, c);
    } else if IsPrimcall(x).Ok? && x.PVar? {
      if PStr(x.name) in env {
        PlainSnippet([LoadStack(env[PStr(x.name)])], si);
        TailDisciplined(s, [LoadStack(env[PStr(x.name)])], c, si);
        EmitOne(s, LoadStack(env[PStr(x.name)]));
      }
    } else if IsPrimcall(x).Ok? && IsLet(x) {
      SizeSeq3(x.items);
      DisciplineLet(x.items[1], x.items[2], si, env, c);
    } else if IsPrimcall(x).Ok? && IsIf(x) {
      SizeSeq4(x.items);
      DisciplineIf(x.items[1], x.items[2], x.items[3], si, env, c);
    }
  }

  lemma {:induction false} DisciplinePrimcall(items: seq<PyVal>, si: int, env: Env, c: int)
    requires |items| >= 2 && items[0].PStr? && PrimitiveTable(items[0].s).Some?
    ensures Disciplined(PrimcallSt(State([], c, None), items, si, env), c, si)
    decreases SizeSeq(items), -1
  {
    var pr := PrimitiveTable(items[0].s).value;
    if |items| - 1 == Arity(pr) {
      if Arity(pr) == 1 {
        SizeSeqElem(items, 1);
        DisciplineUnary(pr, items[1], si, env, c);
      } else {
        SizeSeq3(items);
        if pr == Cons {
          DisciplineCons(items[1], items[2], si, env, c);
        } else {
          DisciplineBinary(pr == Plus, items[1], items[2], si, env, c);
        }
      }
    }
  }

  lemma {:induction false} DisciplineUnary(pr: Prim, arg: PyVal, si: int, env: Env, c: int)
    requires Arity(pr) == 1
    ensures Disciplined(UnarySt(State([], c, None), pr, arg, si, env), c, si)
    decreases Size(arg), 2
  {
    var a := ExprSt(State([], c, None), arg, si, env);
    DisciplineExpr(arg, si, env, c);
    UnaryStOperand(State([], c, None), pr, arg, si, env, a);
    TailPlain(pr, si);
    TailDisciplined(a, UnaryTail(pr), c, si);
  }

  lemma {:induction false} DisciplineBinary(plus: bool, left: PyVal, right: PyVal, si: int, env: Env, c: int)
    ensures Disciplined(BinarySt(State([], c, None), plus, left, right, si, env), c, si)
    decreases Size(left) + Size(right), 2
  {
    var a := ExprSt(State([], c, None), right, si, env);
    DisciplineExpr(right, si, env, c);
    BinaryStRight(State([], c, None), plus, left, right, si, env, a);
    if a.err.None? {
      var q := a.out + [StoreStack(si)];
      ShiftEmpty(q, a.counter);
      FrameBinaryLeft(q, State([], a.counter, None), plus, left, si, env);
      DisciplineBinaryLeft(plus, left, si, env, a.counter);
      PlainSnippet([StoreStack(si)], si);
      JoinDisciplined(a, [StoreStack(si)], BinaryLeftSt(State([], a.counter, None), plus, left, si, env), c, si, si);
    }
  }

  lemma {:induction false} DisciplineBinaryLeft(plus: bool, left: PyVal, si: int, env: Env, c: int)
    ensures Disciplined(BinaryLeftSt(State([], c, None), plus, left, si, env), c, si)
    decreases Size(left), 2
  {
    var b := ExprSt(State([], c, None), left, si + WORD_SIZE, env);
    DisciplineExpr(left, si + WORD_SIZE, env, c);
    if b.err.None? {
      var i := if plus then AddStack(si) else SubStack(si);
      PlainSnippet([i], si);
      TailDisciplined(b, [i], c, si);
      EmitOne(b, i);
    }
  }

  lemma {:induction false} DisciplineCons(car: PyVal, cdr: PyVal, si: int, env: Env, c: int)
    ensures Disciplined(ConsSt(State([], c, None), car, cdr, si, env), c, si)
    decreases Size(car) + Size(cdr), 2
  {
    var a := ExprSt(State([], c, None), car, si, env);
    DisciplineExpr(car, si, env, c);
    ConsStCar(State([], c, None), car, cdr, si, env, a);
    if a.err.None? {
      var q := a.out + [StoreHeap(0)];
      ShiftEmpty(q, a.counter);
      FrameConsCdr(q, State([], a.counter, None), cdr, si, env);
      DisciplineConsCdr(cdr, si, env, a.counter);
      PlainSnippet([StoreHeap(0)], si);
      JoinDisciplined(a, [StoreHeap(0)], ConsCdrSt(State([], a.counter, None), cdr, si, env), c, si, si);
    }
  }

  lemma {:induction false} DisciplineConsCdr(cdr: PyVal, si: int, env: Env, c: int)
    ensures Disciplined(ConsCdrSt(State([], c, None), cdr, si, env), c, si)
    decreases Size(cdr), 2
  {
    var b := ExprSt(State([], c, None), cdr, si, env);
    DisciplineExpr(cdr, si, env, c);
    if b.err.None? {
      PlainSnippet(ConsTail, si);
      TailDisciplined(b, ConsTail, c, si);
    }
  }

  lemma {:induction false} DisciplineLet(bindings: PyVal, body: PyVal, si: int, env: Env, c: int)
    ensures Disciplined(LetSt(State([], c, None), bindings, body, si, env), c, si)
    decreases Size(bindings) + Size(body), 2
  {
    var s := State([], c, None);
    if !Truthy(bindings) {
      DisciplineExpr(body, si, env, c);
    } else if bindings.PList? && Unpack2(bindings.items[0]).Ok? {
      var bs := bindings.items;
      SizeSeqElem(bs, 0);
      var pair := Unpack2(bs[0]).value;
      assert Size(pair.1) <= Size(bs[0]) by {
        if bs[0].PList? { SizeSeqElem(bs[0].items, 1); }
      }
      var a := ExprSt(s, pair.1, si, env);
      DisciplineExpr(pair.1, si, env, c);
      LetStFirst(s, bindings, body, si, env, a);
      if a.err.None? {
        PlainSnippet([StoreStack(si)], si);
        if pair.0.PList? {
          TailDisciplined(a, [StoreStack(si)], c, si);
          EmitOne(a, StoreStack(si));
        } else {
          assert SizeSeq(bs) == Size(bs[0]) + SizeSeq(bs[1..]);
          var q := a.out + [StoreStack(si)];
          ShiftEmpty(q, a.counter);
          FrameLet(q, State([], a.counter, None), PList(bs[1..]), body, si + WORD_SIZE, env[pair.0 := si]);
          DisciplineLet(PList(bs[1..]), body, si + WORD_SIZE, env[pair.0 := si], a.counter);
          JoinDisciplined(a, [StoreStack(si)], LetSt(State([], a.counter, None), PList(bs[1..]), body, si + WORD_SIZE, env[pair.0 := si]), c, si, si + WORD_SIZE);
        }
      }
    }
  }

  lemma {:induction false} DisciplineIf(cnd: PyVal, t: PyVal, e: PyVal, si: int, env: Env, c: int)
    ensures Disciplined(IfSt(State([], c, None), cnd, t, e, si, env), c, si)
    decreases Size(cnd) + Size(t) + Size(e), 2
  {
    var s := State([], c, None);
    var a := ExprSt(State([], c + 2, None), cnd, si, env);
    DisciplineExpr(cnd, si, env, c + 2);
    IfStCond(s, cnd, t, e, si, env, a);
    if a.err.None? {
      ShiftEmpty(a.out, a.counter);
      FrameIfThen(a.out, State([], a.counter, None), c + 1, c + 2, t, e, si, env);
      DisciplineIfThen(c + 1, c + 2, t, e, si, env, a.counter);
      IfJoin(a, IfThenSt(State([], a.counter, None), c + 1, c + 2, t, e, si, env), c, si);
    }
  }

  lemma {:induction false} DisciplineIfThen(l0: int, l1: int, t: PyVal, e: PyVal, si: int, env: Env, c: int)
    requires l0 <= c && l1 <= c && l0 != l1
    ensures DisciplinedIf(IfThenSt(State([], c, None), l0, l1, t, e, si, env), c, si, l0, l1)
    decreases Size(t) + Size(e), 2
  {
    var head := [CmpImm(BOOL_TAG), Je(l0)];
    ShiftEmpty(head, c);
    EmitAllEmpty(head, c);
    FrameExpr(head, State([], c, None), t, si, env);
    var bt := ExprSt(State([], c, None), t, si, env);
    DisciplineExpr(t, si, env, c);
    IfThenStBranch(State([], c, None), l0, l1, t, e, si, env, Shift(head, bt));
    if bt.err.Some? {
      IfThenFails(l0, l1, bt, c, si);
    } else {
      var b := Shift(head, bt);
      ShiftEmpty(b.out, b.counter);
      FrameIfElse(b.out, State([], b.counter, None), l0, l1, e, si, env);
      DisciplineIfElse(l0, l1, e, si, env, b.counter);
      IfThenJoin(l0, l1, bt, IfElseSt(State([], b.counter, None), l0, l1, e, si, env), c, si);
    }
  }

  lemma {:induction false} DisciplineIfElse(l0: int, l1: int, e: PyVal, si: int, env: Env, c: int)
    requires l0 <= c && l1 <= c && l0 != l1
    ensures var r := IfElseSt(State([], c, None), l0, l1, e, si, env);
      DisciplinedIf(r, c, si, l0, l1) && l0 in Labels(r.out)
    decreases Size(e), 2
  {
    var head := [Jmp(l1), Label(l0)];
    ShiftEmpty(head, c);
    EmitAllEmpty(head, c);
    FrameExpr(head, State([], c, None), e, si, env);
    DisciplineExpr(e, si, env, c);
    IfElseStBranch(State([], c, None), l0, l1, e, si, env, Shift(head, ExprSt(State([], c, None), e, si, env)));
    IfElseJoin(l0, l1, ExprSt(State([], c, None), e, si, env), c, si);
  }

  /** The facts about the few fixed lines of an `if`. */
  lemma {:induction false} Single(i: Instr)
    ensures Labels([i]) == (if i.Label? then [i.name] else [])
    ensures Targets([i]) == (if i.Je? || i.Jmp? then {i.target} else {})
    ensures Stores([i]) == (if i.StoreStack? then {i.off} else {})
  {
    assert [i][1..] == [];
  }

  lemma {:induction false} Pair(i: Instr, j: Instr)
    ensures Labels([i, j]) == Labels([i]) + Labels([j])
    ensures Targets([i, j]) == Targets([i]) + Targets([j])
    ensures Stores([i, j]) == Stores([i]) + Stores([j])
  {
    assert [i, j] == [i] + [j];
    CodeConcat([i], [j]);
  }

  /** Fresh labels in `(lo, mid]` followed by labels that are fresh in
      `(mid, hi]` or one of two labels at most `lo`. */
  lemma {:induction false} MixJoin(x: seq<int>, y: seq<int>, lo: int, mid: int, hi: int, l0: int, l1: int)
    requires lo <= mid <= hi && l0 <= lo && l1 <= lo
    requires InRange(x, lo, mid) && NoDup(x) && NoDup(y)
    requires forall i :: 0 <= i < |y| ==> (mid < y[i] <= hi) || y[i] == l0 || y[i] == l1
    ensures NoDup(x + y)
    ensures forall i :: 0 <= i < |x + y| ==> (lo < (x + y)[i] <= hi) || (x + y)[i] == l0 || (x + y)[i] == l1
  {
    forall i, j | 0 <= i < |x| && 0 <= j < |y|
      ensures x[i] != y[j]
    {
      assert lo < x[i] <= mid;
      assert (mid < y[j] <= hi) || y[j] == l0 || y[j] == l1;
    }
    NoDupJoin(x, y);
    forall i | 0 <= i < |x + y|
      ensures (lo < (x + y)[i] <= hi) || (x + y)[i] == l0 || (x + y)[i] == l1
    {
      if i < |x| {
        assert (x + y)[i] == x[i];
      } else {
        assert (x + y)[i] == y[i - |x|];
      }
    }
  }

  /** The condition's code joined with the rest of an `if`. */
  lemma {:induction false} IfJoin(a: State, r: State, c: int, si: int)
    requires Disciplined(a, c + 2, si) && a.err.None?
    requires DisciplinedIf(r, a.counter, si, c + 1, c + 2)
    ensures Disciplined(Shift(a.out, r), c, si)
  {
    CodeConcat(a.out, r.out);
    MixJoin(Labels(a.out), Labels(r.out), c + 2, a.counter, r.counter, c + 1, c + 2);
  }

  /** `cmp`, `je` and a consequent that raises. */
  lemma {:induction false} IfThenFails(l0: int, l1: int, bt: State, c: int, si: int)
    requires Disciplined(bt, c, si) && bt.err.Some?
    ensures DisciplinedIf(Shift([CmpImm(BOOL_TAG), Je(l0)], bt), c, si, l0, l1)
  {
    var head := [CmpImm(BOOL_TAG), Je(l0)];
    Pair(CmpImm(BOOL_TAG), Je(l0));
    Single(CmpImm(BOOL_TAG));
    Single(Je(l0));
    CodeConcat(head, bt.out);
    assert Labels(head + bt.out) == Labels(bt.out);
  }

  /** `cmp`, `je`, a consequent that succeeds, and the rest. */
  lemma {:induction false} IfThenJoin(l0: int, l1: int, bt: State, r: State, c: int, si: int)
    requires l0 <= c && l1 <= c
    requires Disciplined(bt, c, si) && bt.err.None?
    requires DisciplinedIf(r, bt.counter, si, l0, l1) && l0 in Labels(r.out)
    ensures DisciplinedIf(Shift([CmpImm(BOOL_TAG), Je(l0)] + bt.out, r), c, si, l0, l1)
  {
    var head := [CmpImm(BOOL_TAG), Je(l0)];
    Pair(CmpImm(BOOL_TAG), Je(l0));
    Single(CmpImm(BOOL_TAG));
    Single(Je(l0));
    CodeConcat(head, bt.out);
    CodeConcat(head + bt.out, r.out);
    var x, y := Labels(bt.out), Labels(r.out);
    assert Labels(head) == [] && Targets(head) == {l0};
    assert [] + x == x;
    assert Labels(head + bt.out) == x;
    assert Targets(head + bt.out) == {l0} + Targets(bt.out);
    MixJoin(x, y, c, bt.counter, r.counter, l0, l1);
  }

  /** The else label in front of fresh labels. */
  lemma {:induction false} PrefixLabel(l0: int, x: seq<int>, lo: int, hi: int)
    requires InRange(x, lo, hi) && NoDup(x) && l0 <= lo
    ensures NoDup([l0] + x)
    ensures forall i :: 0 <= i < |[l0] + x| ==> (lo < ([l0] + x)[i] <= hi) || ([l0] + x)[i] == l0
  {
    forall i | 0 <= i < |[l0] + x| && i > 0
      ensures lo < ([l0] + x)[i] <= hi
    {
      assert ([l0] + x)[i] == x[i - 1];
    }
    NoDupJoin([l0], x);
  }

  /** The end label after labels that are fresh or the else label. */
  lemma {:induction false} SuffixLabel(y: seq<int>, l1: int, lo: int, hi: int, l0: int)
    requires NoDup(y) && l1 <= lo && l1 != l0
    requires forall i :: 0 <= i < |y| ==> (lo < y[i] <= hi) || y[i] == l0
    ensures NoDup(y + [l1])
    ensures forall i :: 0 <= i < |y + [l1]| ==> (lo < (y + [l1])[i] <= hi) || (y + [l1])[i] == l0 || (y + [l1])[i] == l1
  {
    forall i | 0 <= i < |y + [l1]|
      ensures (lo < (y + [l1])[i] <= hi) || (y + [l1])[i] == l0 || (y + [l1])[i] == l1
    {
      if i < |y| {
        assert (y + [l1])[i] == y[i];
      }
    }
    NoDupJoin(y, [l1]);
  }

  /** `jmp` and the else label in front of the alternative. */
  lemma {:induction false} IfElseHead(l0: int, l1: int, dt: State, c: int, si: int)
    requires l0 <= c
    requires Disciplined(dt, c, si)
    ensures var d := Shift([Jmp(l1), Label(l0)], dt);
      Labels(d.out) == [l0] + Labels(dt.out) && Targets(d.out) == {l1} + Targets(dt.out) &&
      c <= d.counter && StoresFrom(d.out, si) && NoDup(Labels(d.out)) &&
      (forall i :: 0 <= i < |Labels(d.out)| ==> (c < Labels(d.out)[i] <= d.counter) || Labels(d.out)[i] == l0)
  {
    var head := [Jmp(l1), Label(l0)];
    Pair(Jmp(l1), Label(l0));
    Single(Jmp(l1));
    Single(Label(l0));
    CodeConcat(head, dt.out);
    PrefixLabel(l0, Labels(dt.out), c, dt.counter);
  }

  /** `jmp`, the else label, the alternative and the end label. */
  lemma {:induction false} IfElseJoin(l0: int, l1: int, dt: State, c: int, si: int)
    requires l0 <= c && l1 <= c && l0 != l1
    requires Disciplined(dt, c, si)
    ensures var d := Shift([Jmp(l1), Label(l0)], dt);
      var r := if d.err.Some? then d else Emit(d, Label(l1));
      DisciplinedIf(r, c, si, l0, l1) && l0 in Labels(r.out)
  {
    var d := Shift([Jmp(l1), Label(l0)], dt);
    IfElseHead(l0, l1, dt, c, si);
    assert Labels(d.out)[0] == l0;
    if d.err.None? {
      Single(Label(l1));
      CodeConcat(d.out, [Label(l1)]);
      SuffixLabel(Labels(d.out), l1, c, d.counter, l0);
      assert Labels(d.out + [Label(l1)])[0] == l0;
      EmitOne(d, Label(l1));
    }
  }
}
