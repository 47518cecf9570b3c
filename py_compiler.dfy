/** The text-emitting compiler (compiler.py): the primitive table, the
    expression dispatcher, `let`, `if`, the label counter and the program
    wrapper.

    The output stream is a sequence of `Instr`, one per emitted line; how a
    line is rendered as text is not modelled. A `State` is the stream, the
    global label counter and the exception raised, if any (lines written
    before an exception stay in the stream). Pure functions (`ExprSt` and
    its helpers) say what each compilation step does to a `State`; the class
    `Emitter` performs the same steps on its fields, the way the source
    does, and each of its methods is proved to end in exactly the `State`
    its function describes. */
module PyCompiler {
  import opened Util
  import opened PyValues

  const WORD_SIZE := 4
  const PAIR_TAG := 1

  /** One emitted line of assembly. */
  datatype Instr =
    | Prologue               // section .text / global scheme_entry / scheme_entry: / mov rsi, rdi
    | MovImm(v: int)         // mov rax, v
    | AddImm(v: int)         // add rax, v
    | SubImm(v: int)         // sub rax, v
    | ShlImm(v: int)         // shl rax, v
    | ShrImm(v: int)         // shr rax, v
    | CmpImm(v: int)         // cmp rax, v
    | XorImm(v: int)         // xor rax, v
    | AndImm(v: int)         // and rax, v
    | OrImm(v: int)          // or rax, v
    | SetE                   // sete al
    | StoreStack(off: int)   // mov [rsp-off], rax
    | LoadStack(off: int)    // mov rax, [rsp-off]
    | AddStack(off: int)     // add rax, [rsp-off]
    | SubStack(off: int)     // sub rax, [rsp-off]
    | StoreHeap(off: int)    // mov [rsi+off], rax
    | MovRaxHeap             // mov rax, rsi
    | AddHeap(v: int)        // add rsi, v
    | LoadField(off: int)    // mov rax, [rax+off]
    | Je(target: int)        // je L<target>
    | Jmp(target: int)       // jmp L<target>
    | Label(name: int)       // L<name>:
    | Ret                    // ret

  /** The entries of `PRIMITIVE_TABLE`. */
  datatype Prim =
    | Add1 | Sub1 | IntToChar | CharToInt | ZeroP | NullP | Not | IntegerP | BooleanP
    | Plus | Minus | Cons | Car | Cdr

  /** The key under which each primitive is registered. */
  function PrimName(p: Prim): string {
    match p
    case Add1 => "add1"
    case Sub1 => "sub1"
    case IntToChar => "integer->char"
    case CharToInt => "char->integer"
    case ZeroP => "zero?"
    case NullP => "null?"
    case Not => "not"
    case IntegerP => "integer?"
    case BooleanP => "boolean?"
    case Plus => "+"
    case Minus => "-"
    case Cons => "cons"
    case Car => "car"
    case Cdr => "cdr"
  }

  /** `PRIMITIVE_TABLE`: the dict from operator names to primitives. */
  const PRIMITIVE_TABLE: map<string, Prim> := map[
    "add1" := Add1, "sub1" := Sub1, "integer->char" := IntToChar, "char->integer" := CharToInt,
    "zero?" := ZeroP, "null?" := NullP, "not" := Not, "integer?" := IntegerP, "boolean?" := BooleanP,
    "+" := Plus, "-" := Minus, "cons" := Cons, "car" := Car, "cdr" := Cdr]

  /** Looking a string up in `PRIMITIVE_TABLE`. */
  function PrimitiveTable(name: string): Option<Prim> {
    if name in PRIMITIVE_TABLE then Some(PRIMITIVE_TABLE[name]) else None
  }

  /** The number of operands each `prim_*` function takes besides the
      stream, `si` and `env`. */
  function Arity(p: Prim): nat {
    if p == Plus || p == Minus || p == Cons then 2 else 1
  }

  /** Materialising the zero flag as an encoded boolean (`mov rax, 0`,
      `sete al`, `shl rax, BOOL_SHIFT`, `or rax, BOOL_TAG`). */
  const SetBool: seq<Instr> := [MovImm(0), SetE, ShlImm(BOOL_SHIFT), OrImm(BOOL_TAG)]

  /** What a one-operand primitive emits after compiling its operand. */
  function UnaryTail(p: Prim): seq<Instr>
    requires Arity(p) == 1
  {
    match p
    case Add1 => [AddImm(Shl(1, FIXNUM_SHIFT))]
    case Sub1 => [SubImm(Shl(1, FIXNUM_SHIFT))]
    case IntToChar => [ShlImm(6), AddImm(CHAR_TAG)]
    case CharToInt => [ShrImm(6)]
    case ZeroP => [CmpImm(0)] + SetBool
    case NullP => [CmpImm(NIL_TAG)] + SetBool
    case Not => [XorImm(BOOL_TAG)] + SetBool
    case IntegerP => [AndImm(FIXNUM_MASK), CmpImm(0)] + SetBool
    case BooleanP => [AndImm(BOOL_MASK), CmpImm(BOOL_TAG)] + SetBool
    case Car => [LoadField(-1)]
    case Cdr => [LoadField(3)]
  }

  /** The environment dict: binding names to stack offsets. Variable lookups
      always use a string key, so only string keys are ever found. */
  type Env = map<PyVal, int>

  /** The size of a program tree, for termination. */
  function Size(x: PyVal): (n: nat)
    ensures n >= 1
  {
    match x
    case PList(items) => 1 + SizeSeq(items)
    case _ => 1
  }

  function SizeSeq(s: seq<PyVal>): nat {
    if s == [] then 0 else Size(s[0]) + SizeSeq(s[1..])
  }

  lemma {:induction false} SizeSeqElem(s: seq<PyVal>, i: nat)
    requires i < |s|
    ensures Size(s[i]) <= SizeSeq(s)
    ensures 0 < i ==> Size(s[i]) < SizeSeq(s)
  {
    if i > 0 {
      SizeSeqElem(s[1..], i - 1);
    }
  }

  lemma SizeSeq3(s: seq<PyVal>)
    requires |s| == 3
    ensures SizeSeq(s) == Size(s[0]) + Size(s[1]) + Size(s[2])
  {
    assert s[1..][0] == s[1] && s[1..][1..] == s[2..];
    assert s[2..][0] == s[2] && s[2..][1..] == [];
    assert SizeSeq(s[2..]) == Size(s[2]);
  }

  lemma SizeSeq4(s: seq<PyVal>)
    requires |s| == 4
    ensures SizeSeq(s) == Size(s[0]) + Size(s[1]) + Size(s[2]) + Size(s[3])
  {
    assert s[1..][1..] == s[2..];
    SizeSeq3(s[1..]);
  }

  /** The output stream, the label counter and the pending exception. */
  datatype State = State(out: seq<Instr>, counter: int, err: Option<PyError>)

  /** `emit`: one line appended. */
  function Emit(s: State, i: Instr): State {
    State(s.out + [i], s.counter, s.err)
  }

  /** Several lines appended, in order. */
  function EmitAll(s: State, lines: seq<Instr>): State {
    State(s.out + lines, s.counter, s.err)
  }

  /** Raising `e`: the stream keeps what was written so far. */
  function Raise(s: State, e: PyError): State {
    State(s.out, s.counter, Some(e))
  }

  /** `is_primcall`: a list of at least two items whose head is a key of the
      table. Testing a list head for membership raises TypeError (lists are
      unhashable); other heads are simply not keys. */
  function IsPrimcall(x: PyVal): Result<bool> {
    if x.PList? && |x.items| >= 2 then
      match x.items[0]
      case PList(_) => Err(TypeError)
      case PStr(s) => Ok(PrimitiveTable(s).Some?)
      case _ => Ok(false)
    else Ok(false)
  }

  /** `is_let`. */
  predicate IsLet(x: PyVal) {
    x.PList? && |x.items| == 3 && x.items[0] == PStr("let")
  }

  /** `is_if`. */
  predicate IsIf(x: PyVal) {
    x.PList? && |x.items| == 4 && x.items[0] == PStr("if")
  }

  /** `name, expr = item`: unpacking exactly two values. A string unpacks
      into its characters; a bool, an int or a `Var` is not iterable. */
  function Unpack2(item: PyVal): Result<(PyVal, PyVal)> {
    match item
    case PList(xs) => if |xs| == 2 then Ok((xs[0], xs[1])) else Err(ValueError)
    case PStr(s) => if |s| == 2 then Ok((PStr([s[0]]), PStr([s[1]]))) else Err(ValueError)
    case _ => Err(TypeError)
  }

  /** `compile_expr`. Its case analysis is `DispatchSt`, one layer below, so
      that a proof about a caller sees the case analysis only where it asks
      for it. */
  function ExprSt(s: State, x: PyVal, si: int, env: Env): State
    requires s.err.None?
    decreases Size(x), 1
  {
    DispatchSt(s, x, si, env)
  }

  /** The cases of `compile_expr`, tried in the order immediate, primitive
      call, variable, `let`, `if`; anything else raises ValueError. */
  function DispatchSt(s: State, x: PyVal, si: int, env: Env): State
    requires s.err.None?
    decreases Size(x), 0
  {
    if IsImmediate(x) then
      match Imm(x)
      case Ok(v) => Emit(s, MovImm(v))
      case Err(e) => Raise(s, e)
    else
      match IsPrimcall(x)
      case Err(e) => Raise(s, e)
      case Ok(isPrim) =>
        if isPrim then
          PrimcallSt(s, x.items, si, env)
        else if x.PVar? then
          VarSt(s, x.name, env)
        else if IsLet(x) then
          SizeSeq3(x.items);
          LetSt(s, x.items[1], x.items[2], si, env)
        else if IsIf(x) then
          SizeSeq4(x.items);
          IfSt(s, x.items[1], x.items[2], x.items[3], si, env)
        else
          Raise(s, ValueError)
  }

  /** A variable reference: one load from the slot the environment records
      for the name, or KeyError. */
  function VarSt(s: State, name: string, env: Env): State {
    if PStr(name) in env then Emit(s, LoadStack(env[PStr(name)])) else Raise(s, KeyError)
  }

  /** `emit_primcall`: looking the operator up and calling its function with
      the remaining items, which raises TypeError when their number does not
      match the function's parameters. */
  function PrimcallSt(s: State, items: seq<PyVal>, si: int, env: Env): State
    requires s.err.None?
    requires |items| >= 2 && items[0].PStr? && PrimitiveTable(items[0].s).Some?
    decreases SizeSeq(items), -1
  {
    var p := PrimitiveTable(items[0].s).value;
    if |items| - 1 != Arity(p) then
      Raise(s, TypeError)
    else if Arity(p) == 1 then
      SizeSeqElem(items, 1);
      UnarySt(s, p, items[1], si, env)
    else
      SizeSeq3(items);
      if p == Cons then ConsSt(s, items[1], items[2], si, env)
      else BinarySt(s, p == Plus, items[1], items[2], si, env)
  }

  /** The one-operand `prim_*` functions: compile the operand at the same
      `si`, then emit the primitive's own lines. */
  function UnarySt(s: State, p: Prim, arg: PyVal, si: int, env: Env): State
    requires s.err.None? && Arity(p) == 1
    decreases Size(arg), 2
  {
    var a := ExprSt(s, arg, si, env);
    if a.err.Some? then a else EmitAll(a, UnaryTail(p))
  }

  /** `UnarySt` in terms of the state its operand leaves. */
  lemma {:induction false} UnaryStOperand(s: State, p: Prim, arg: PyVal, si: int, env: Env, a: State)
    requires s.err.None? && Arity(p) == 1
    requires a == ExprSt(s, arg, si, env)
    ensures UnarySt(s, p, arg, si, env) == if a.err.Some? then a else EmitAll(a, UnaryTail(p))
  {
  }

  /** `prim_binplus` (plus) and `prim_binminus`: the right operand is
      compiled at `si` and saved at `[rsp-si]`, the left one at
      `si + WORD_SIZE`, then the saved value is added or subtracted. */
  function BinarySt(s: State, plus: bool, left: PyVal, right: PyVal, si: int, env: Env): State
    requires s.err.None?
    decreases Size(left) + Size(right), 2
  {
    var a := ExprSt(s, right, si, env);
    if a.err.Some? then a else BinaryLeftSt(Emit(a, StoreStack(si)), plus, left, si, env)
  }

  /** `BinarySt` in terms of the state the right operand leaves. */
  lemma {:induction false} BinaryStRight(s: State, plus: bool, left: PyVal, right: PyVal, si: int, env: Env, a: State)
    requires s.err.None?
    requires a == ExprSt(s, right, si, env)
    ensures BinarySt(s, plus, left, right, si, env) == if a.err.Some? then a else BinaryLeftSt(Emit(a, StoreStack(si)), plus, left, si, env)
  {
  }

  /** The rest of `BinarySt` once the right operand is saved. */
  function BinaryLeftSt(a: State, plus: bool, left: PyVal, si: int, env: Env): State
    requires a.err.None?
    decreases Size(left), 2
  {
    var b := ExprSt(a, left, si + WORD_SIZE, env);
    if b.err.Some? then b else Emit(b, if plus then AddStack(si) else SubStack(si))
  }

  /** The lines `prim_cons` emits after both operands. */
  const ConsTail: seq<Instr> := [StoreHeap(4), MovRaxHeap, OrImm(PAIR_TAG), AddHeap(WORD_SIZE)]

  /** `prim_cons`: car to `[rsi]`, cdr to `[rsi+4]`, the tagged pointer to
      rax, then rsi moves on by WORD_SIZE. Both operands are compiled at the
      same `si`, and rsi is not bumped before the cdr operand runs. */
  function ConsSt(s: State, car: PyVal, cdr: PyVal, si: int, env: Env): State
    requires s.err.None?
    decreases Size(car) + Size(cdr), 2
  {
    var a := ExprSt(s, car, si, env);
    if a.err.Some? then a else ConsCdrSt(Emit(a, StoreHeap(0)), cdr, si, env)
  }

  /** `ConsSt` in terms of the state the car operand leaves. */
  lemma {:induction false} ConsStCar(s: State, car: PyVal, cdr: PyVal, si: int, env: Env, a: State)
    requires s.err.None?
    requires a == ExprSt(s, car, si, env)
    ensures ConsSt(s, car, cdr, si, env) == if a.err.Some? then a else ConsCdrSt(Emit(a, StoreHeap(0)), cdr, si, env)
  {
  }

  /** The rest of `ConsSt` once the car is stored. */
  function ConsCdrSt(a: State, cdr: PyVal, si: int, env: Env): State
    requires a.err.None?
    decreases Size(cdr), 2
  {
    var b := ExprSt(a, cdr, si, env);
    if b.err.Some? then b else EmitAll(b, ConsTail)
  }

  /** `compile_let`. Falsy bindings compile the body. Otherwise the first
      binding is unpacked, its expression compiled under the current
      environment and stored at `[rsp-si]`; only then is the name entered
      (a list name is unhashable and raises TypeError after the store), and
      the remaining bindings follow at `si + WORD_SIZE`. A non-empty string
      as the bindings yields a one-character first item, which cannot be
      unpacked into two names; a bool, int or `Var` is not subscriptable.
      Python dicts identify `True` with `1`; since lookups use string keys
      only, that does not change what any lookup finds. */
  function LetSt(s: State, bindings: PyVal, body: PyVal, si: int, env: Env): State
    requires s.err.None?
    decreases Size(bindings) + Size(body), 2
  {
    if !Truthy(bindings) then
      ExprSt(s, body, si, env)
    else if bindings.PStr? then
      Raise(s, ValueError)
    else if !bindings.PList? then
      Raise(s, TypeError)
    else
      var bs := bindings.items;
      SizeSeqElem(bs, 0);
      match Unpack2(bs[0])
      case Err(e) => Raise(s, e)
      case Ok(pair) =>
        assert Size(pair.1) <= Size(bs[0]) by {
          if bs[0].PList? { SizeSeqElem(bs[0].items, 1); }
        }
        var a := ExprSt(s, pair.1, si, env);
        if a.err.Some? then a
        else
          var b := Emit(a, StoreStack(si));
          if pair.0.PList? then Raise(b, TypeError)
          else LetSt(b, PList(bs[1..]), body, si + WORD_SIZE, env[pair.0 := si])
  }

  /** `LetSt` for a list of bindings whose first item unpacks, in terms of
      the state the first expression leaves. */
  lemma {:induction false} LetStFirst(s: State, bindings: PyVal, body: PyVal, si: int, env: Env, a: State)
    requires s.err.None? && Truthy(bindings) && bindings.PList?
    requires Unpack2(bindings.items[0]).Ok?
    requires a == ExprSt(s, Unpack2(bindings.items[0]).value.1, si, env)
    ensures var name := Unpack2(bindings.items[0]).value.0;
      LetSt(s, bindings, body, si, env) ==
        if a.err.Some? then a
        else if name.PList? then Raise(Emit(a, StoreStack(si)), TypeError)
        else LetSt(Emit(a, StoreStack(si)), PList(bindings.items[1..]), body, si + WORD_SIZE, env[name := si])
  {
  }

  /** `compile_if`: both labels are taken from the counter first, then the
      condition, `cmp rax, imm(False)` (`imm(False)` is `BOOL_TAG`), `je`
      else, the consequent, `jmp` end, the else label, the alternative and
      the end label. */
  function IfSt(s: State, c: PyVal, t: PyVal, e: PyVal, si: int, env: Env): State
    requires s.err.None?
    decreases Size(c) + Size(t) + Size(e), 2
  {
    var a := ExprSt(State(s.out, s.counter + 2, None), c, si, env);
    if a.err.Some? then a else IfThenSt(a, s.counter + 1, s.counter + 2, t, e, si, env)
  }

  /** `IfSt` in terms of the state the condition leaves. */
  lemma {:induction false} IfStCond(s: State, c: PyVal, t: PyVal, e: PyVal, si: int, env: Env, a: State)
    requires s.err.None?
    requires a == ExprSt(State(s.out, s.counter + 2, None), c, si, env)
    ensures IfSt(s, c, t, e, si, env) == if a.err.Some? then a else IfThenSt(a, s.counter + 1, s.counter + 2, t, e, si, env)
  {
  }

  /** The rest of `compile_if` once the condition has succeeded, with the
      else label `l0` and the end label `l1`. */
  function IfThenSt(a: State, l0: int, l1: int, t: PyVal, e: PyVal, si: int, env: Env): State
    requires a.err.None?
    decreases Size(t) + Size(e), 2
  {
    var b := ExprSt(EmitAll(a, [CmpImm(BOOL_TAG), Je(l0)]), t, si, env);
    if b.err.Some? then b else IfElseSt(b, l0, l1, e, si, env)
  }

  /** `IfThenSt` in terms of the state the consequent leaves. */
  lemma {:induction false} IfThenStBranch(a: State, l0: int, l1: int, t: PyVal, e: PyVal, si: int, env: Env, b: State)
    requires a.err.None?
    requires b == ExprSt(EmitAll(a, [CmpImm(BOOL_TAG), Je(l0)]), t, si, env)
    ensures IfThenSt(a, l0, l1, t, e, si, env) == if b.err.Some? then b else IfElseSt(b, l0, l1, e, si, env)
  {
  }

  /** The rest of `compile_if` once the consequent has succeeded. */
  function IfElseSt(b: State, l0: int, l1: int, e: PyVal, si: int, env: Env): State
    requires b.err.None?
    decreases Size(e), 2
  {
    var d := ExprSt(EmitAll(b, [Jmp(l1), Label(l0)]), e, si, env);
    if d.err.Some? then d else Emit(d, Label(l1))
  }

  /** `compile_program`: the prologue, the expression at `si = WORD_SIZE`
      under the given environment (empty when none is given), then `ret`. */
  function ProgramSt(s: State, x: PyVal, env: Option<Env>): State
    requires s.err.None?
  {
    var a := ExprSt(Emit(s, Prologue), x, WORD_SIZE, if env.None? then map[] else env.value);
    if a.err.Some? then a else Emit(a, Ret)
  }

  /** `IfElseSt` in terms of the state the alternative leaves. */
  lemma {:induction false} IfElseStBranch(b: State, l0: int, l1: int, e: PyVal, si: int, env: Env, d: State)
    requires b.err.None?
    requires d == ExprSt(EmitAll(b, [Jmp(l1), Label(l0)]), e, si, env)
    ensures IfElseSt(b, l0, l1, e, si, env) == if d.err.Some? then d else Emit(d, Label(l1))
  {
  }

  /** The output stream and the global `LABEL_COUNTER`. */
  class Emitter {
    var out: seq<Instr>
    var labelCounter: int

    /** The fields as a `State` with no exception pending. */
    function Now(): State
      reads this
    {
      State(out, labelCounter, None)
    }

    /** A fresh stream, with the counter at its initial -1. */
    constructor ()
      ensures out == [] && labelCounter == -1
    {
      out := [];
      labelCounter := -1;
    }

    /** `emit`: one line appended. */
    method Emit1(i: Instr)
      modifies this
      ensures Now() == Emit(old(Now()), i)
    {
      out := out + [i];
    }

    /** Several lines, one `emit` each. */
    method EmitLines(lines: seq<Instr>)
      modifies this
      ensures Now() == EmitAll(old(Now()), lines)
    {
      var i := 0;
      while i < |lines|
        invariant 0 <= i <= |lines|
        invariant Now() == EmitAll(old(Now()), lines[..i])
      {
        Emit1(lines[i]);
        assert lines[..i + 1] == lines[..i] + [lines[i]];
        i := i + 1;
      }
      assert lines[..i] == lines;
    }

    /** `unique_label`: the counter moves up by one and names the label. */
    method UniqueLabel() returns (l: int)
      modifies this
      ensures l == old(labelCounter) + 1 && labelCounter == l
      ensures out == old(out)
    {
      labelCounter := labelCounter + 1;
      l := labelCounter;
    }

    /** `emit_label`. */
    method EmitLabel(l: int)
      modifies this
      ensures Now() == Emit(old(Now()), Label(l))
    {
      Emit1(Label(l));
    }

    /** `compile_expr`. */
    method CompileExpr(x: PyVal, si: int, env: Env) returns (err: Option<PyError>)
      modifies this
      decreases Size(x), 1
      ensures State(out, labelCounter, err) == ExprSt(old(Now()), x, si, env)
    {
      if IsImmediate(x) {
        var v := Imm(x);
        if v.Ok? {
          Emit1(MovImm(v.value));
          err := None;
        } else {
          err := Some(v.error);
        }
        return;
      }
      var isPrim := IsPrimcall(x);
      if isPrim.Err? {
        err := Some(isPrim.error);
        return;
      }
      if isPrim.value {
        err := EmitPrimcall(x.items, si, env);
      } else if x.PVar? {
        if PStr(x.name) in env {
          Emit1(LoadStack(env[PStr(x.name)]));
          err := None;
        } else {
          err := Some(KeyError);
        }
      } else if IsLet(x) {
        SizeSeq3(x.items);
        err := CompileLet(x.items[1], x.items[2], si, env);
      } else if IsIf(x) {
        SizeSeq4(x.items);
        err := CompileIf(x.items[1], x.items[2], x.items[3], si, env);
      } else {
        err := Some(ValueError);
      }
    }

    /** `emit_primcall`. */
    method EmitPrimcall(items: seq<PyVal>, si: int, env: Env) returns (err: Option<PyError>)
      requires |items| >= 2 && items[0].PStr? && PrimitiveTable(items[0].s).Some?
      modifies this
      decreases SizeSeq(items), -1
      ensures State(out, labelCounter, err) == PrimcallSt(old(Now()), items, si, env)
    {
      var p := PrimitiveTable(items[0].s).value;
      if |items| - 1 != Arity(p) {
        err := Some(TypeError);
      } else if Arity(p) == 1 {
        SizeSeqElem(items, 1);
        err := PrimUnary(p, items[1], si, env);
      } else {
        SizeSeq3(items);
        if p == Cons {
          err := PrimCons(items[1], items[2], si, env);
        } else {
          err := PrimBinary(p == Plus, items[1], items[2], si, env);
        }
      }
    }

    /** `prim_add1`, `prim_sub1`, `prim_int_to_char`, `prim_char_to_int`,
        the five predicates, `prim_car` and `prim_cdr`. */
    method PrimUnary(p: Prim, arg: PyVal, si: int, env: Env) returns (err: Option<PyError>)
      requires Arity(p) == 1
      modifies this
      decreases Size(arg), 2
      ensures State(out, labelCounter, err) == UnarySt(old(Now()), p, arg, si, env)
    {
      ghost var s0 := Now();
      err := CompileExpr(arg, si, env);
      UnaryStOperand(s0, p, arg, si, env, State(out, labelCounter, err));
      if err.None? {
        EmitLines(UnaryTail(p));
      }
    }

    /** `prim_binplus` and `prim_binminus`. */
    method PrimBinary(plus: bool, left: PyVal, right: PyVal, si: int, env: Env) returns (err: Option<PyError>)
      modifies this
      decreases Size(left) + Size(right), 2
      ensures State(out, labelCounter, err) == BinarySt(old(Now()), plus, left, right, si, env)
    {
      ghost var s0 := Now();
      err := CompileExpr(right, si, env);
      BinaryStRight(s0, plus, left, right, si, env, State(out, labelCounter, err));
      if err.Some? {
        return;
      }
      Emit1(StoreStack(si));
      err := CompileExpr(left, si + WORD_SIZE, env);
      if err.None? {
        Emit1(if plus then AddStack(si) else SubStack(si));
      }
    }

    /** `prim_cons`. */
    method PrimCons(car: PyVal, cdr: PyVal, si: int, env: Env) returns (err: Option<PyError>)
      modifies this
      decreases Size(car) + Size(cdr), 2
      ensures State(out, labelCounter, err) == ConsSt(old(Now()), car, cdr, si, env)
    {
      ghost var s0 := Now();
      err := CompileExpr(car, si, env);
      ConsStCar(s0, car, cdr, si, env, State(out, labelCounter, err));
      if err.Some? {
        return;
      }
      Emit1(StoreHeap(0));
      err := CompileExpr(cdr, si, env);
      if err.None? {
        EmitLines(ConsTail);
      }
    }

    /** `compile_let`; the environment is a value, so the copy taken before
        the new name is entered leaves the caller's environment as it was. */
    method CompileLet(bindings: PyVal, body: PyVal, si: int, env: Env) returns (err: Option<PyError>)
      modifies this
      decreases Size(bindings) + Size(body), 2
      ensures State(out, labelCounter, err) == LetSt(old(Now()), bindings, body, si, env)
    {
      if !Truthy(bindings) {
        err := CompileExpr(body, si, env);
        return;
      }
      var newEnv := env;
      if !bindings.PList? {
        err := Some(if bindings.PStr? then ValueError else TypeError);
        return;
      }
      var bs := bindings.items;
      SizeSeqElem(bs, 0);
      var pair := Unpack2(bs[0]);
      if pair.Err? {
        err := Some(pair.error);
        return;
      }
      var (name, expr) := pair.value;
      assert Size(expr) <= Size(bs[0]) by {
        if bs[0].PList? { SizeSeqElem(bs[0].items, 1); }
      }
      ghost var s0 := Now();
      err := CompileExpr(expr, si, env);
      ghost var a := State(out, labelCounter, err);
      LetStFirst(s0, bindings, body, si, env, a);
      if err.Some? {
        return;
      }
      Emit1(StoreStack(si));
      assert Now() == Emit(a, StoreStack(si));
      if name.PList? {
        err := Some(TypeError);
        return;
      }
      newEnv := newEnv[name := si];
      err := CompileLet(PList(bs[1..]), body, si + WORD_SIZE, newEnv);
    }

    /** `compile_if`. */
    method CompileIf(c: PyVal, t: PyVal, e: PyVal, si: int, env: Env) returns (err: Option<PyError>)
      modifies this
      decreases Size(c) + Size(t) + Size(e), 2
      ensures State(out, labelCounter, err) == IfSt(old(Now()), c, t, e, si, env)
    {
      ghost var s0 := Now();
      var l0 := UniqueLabel();
      var l1 := UniqueLabel();
      assert Now() == State(s0.out, s0.counter + 2, None);
      err := CompileExpr(c, si, env);
      IfStCond(s0, c, t, e, si, env, State(out, labelCounter, err));
      if err.None? {
        err := CompileBranches(l0, l1, t, e, si, env);
      }
    }

    /** The part of `compile_if` after the condition: the test, the
        consequent, the jump, the alternative and both labels. */
    method CompileBranches(l0: int, l1: int, t: PyVal, e: PyVal, si: int, env: Env) returns (err: Option<PyError>)
      modifies this
      decreases Size(t) + Size(e), 2
      ensures State(out, labelCounter, err) == IfThenSt(old(Now()), l0, l1, t, e, si, env)
    {
      ghost var a := Now();
      EmitLines([CmpImm(BOOL_TAG), Je(l0)]);
      assert Now() == EmitAll(a, [CmpImm(BOOL_TAG), Je(l0)]);
      err := CompileExpr(t, si, env);
      IfThenStBranch(a, l0, l1, t, e, si, env, State(out, labelCounter, err));
      if err.Some? {
        return;
      }
      ghost var b := Now();
      EmitLines([Jmp(l1), Label(l0)]);
      assert Now() == EmitAll(b, [Jmp(l1), Label(l0)]);
      err := CompileExpr(e, si, env);
      IfElseStBranch(b, l0, l1, e, si, env, State(out, labelCounter, err));
      if err.None? {
        EmitLabel(l1);
      }
    }

    /** `compile_program`. */
    method CompileProgram(x: PyVal, env: Option<Env>) returns (err: Option<PyError>)
      modifies this
      ensures State(out, labelCounter, err) == ProgramSt(old(Now()), x, env)
    {
      Emit1(Prologue);
      var e: Env := if env.None? then map[] else env.value;
      err := CompileExpr(x, WORD_SIZE, e);
      if err.None? {
        Emit1(Ret);
      }
    }
  }
}
