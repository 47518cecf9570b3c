/** What each `AST_compile_*` function of compiler.c leaves in the code
    buffer and returns, as functions of the node, the stack index and the
    cursor position at which it starts. `None` is an abort: a failed
    assertion (or, in `AST_compile_code`, the undefined behaviour of
    reading a non-atom formal as an atom). A forward jump appears with the
    displacement its backpatch writes. */
module CCodegen {
  import opened Util
  import opened CBytes
  import opened CX86
  import opened CAst

  /** The bytes a compile function appends and the status it returns
      (0, or -1 for an unbound name). */
  datatype Out = Out(code: seq<byte>, status: int)

  /** The stack encoders take an `int8_t` offset and assert it negative. */
  function StackOffset(si: int): (r: Option<Int8>)
    ensures r.Some? <==> ToInt8(si) < 0
    ensures r.Some? ==> r.value == ToInt8(si)
  {
    var off := ToInt8(si);
    if off < 0 then Some(off) else None
  }

  /** `AST_compile_expr`. */
  function Expr(ctx: Context, node: Node, si: int, pos: nat): Option<Out>
    decreases Size(node), 1
  {
    match node
    case Fixnum(f) =>
      if FixnumInRange(f) then Some(Out(MovRegImm32(Rax, EncodeFixnum(f)), 0)) else None
    case Atom(name) =>
      (match Lookup(ctx.locals, name)
       case None => Some(Out([], -1))
       case Some(index) =>
         var off :- StackOffset(index);
         Some(Out(MovStackToReg(Rax, off), 0)))
    case Pair(fn, args) => Call(ctx, fn, args, si, pos)
    case Nil => None
  }

  /** The code the unary primitives append after their operand. */
  const ADD1_TAIL: seq<byte> := AddRegImm32(Rax, EncodeFixnum(1))
  const SUB1_TAIL: seq<byte> := SubRegImm32(Rax, EncodeFixnum(1))
  const CHAR_TAIL: seq<byte> := ShlReg(Rax, CHAR_SHIFT - FIXNUM_SHIFT) + OrRegImm32(Rax, CHAR_TAG)
  const ZEROP_TAIL: seq<byte> :=
    CmpRegImm32(Rax, 0) + MovRegImm32(Rax, 0) + SetccReg(Equal, Al) + ShlReg(Rax, BOOL_SHIFT) + OrRegImm32(Rax, BOOL_TAG)
  const CAR_TAIL: seq<byte> := MovRegDispToRax(Rax, -1)
  const CDR_TAIL: seq<byte> := MovRegDispToRax(Rax, WORD_SIZE - 1)

  /** The primitives of one operand: `add1`, `sub1`, `integer->char`,
      `zero?`, `car` and `cdr`. */
  predicate IsUnary(name: string) {
    name in {"add1", "sub1", "integer->char", "zero?", "car", "cdr"}
  }

  /** What a primitive of one operand appends after its operand. */
  function UnaryTail(name: string): seq<byte>
    requires IsUnary(name)
  {
    if name == "add1" then ADD1_TAIL
    else if name == "sub1" then SUB1_TAIL
    else if name == "integer->char" then CHAR_TAIL
    else if name == "zero?" then ZEROP_TAIL
    else if name == "car" then CAR_TAIL
    else CDR_TAIL
  }

  /** `AST_compile_call`: the head must be an atom naming a primitive or
      one of the special forms. */
  function Call(ctx: Context, fn: Node, args: Node, si: int, pos: nat): Option<Out>
    decreases Size(fn) + Size(args), 1
  {
    if !fn.Atom? then None
    else if IsUnary(fn.name) then Unary(ctx, args, si, pos, UnaryTail(fn.name))
    else if fn.name == "+" then Plus(ctx, args, si, pos)
    else if fn.name == "let" then
      var bindings :- Operand1(args);
      var body :- Operand2(args);
      Let(ctx, bindings, body, si, pos)
    else if fn.name == "if" then
      var test :- Operand1(args);
      var consequent :- Operand2(args);
      var alternative :- Operand3(args);
      If(ctx, test, consequent, alternative, si, pos)
    else if fn.name == "cons" then
      var car :- Operand1(args);
      var cdr :- Operand2(args);
      Cons(ctx, car, cdr, si, pos)
    else if fn.name == "code" then
      var formals :- Operand1(args);
      var body :- Operand2(args);
      Code(ctx, formals, body, -WORD_SIZE, pos)
    else if fn.name == "labelcall" then
      var target :- Operand1(args);
      if !target.Atom? then None
      else
        match Lookup(ctx.labels, target.name)
        case None => Some(Out([], -1))
        case Some(codePos) =>
          var rest :- Cdr(args);
          LabelCall(ctx, codePos, rest, si, pos)
    else None
  }

  /** A primitive of one operand: the operand, then `tail`; the operand's
      status is ignored. */
  function Unary(ctx: Context, args: Node, si: int, pos: nat, tail: seq<byte>): Option<Out>
    decreases Size(args), 2
  {
    var x :- Operand1(args);
    var a :- Expr(ctx, x, si, pos);
    Some(Out(a.code + tail, 0))
  }

  /** `+`: the second operand at `si`, stored at `[rsp+si]`, the first
      operand at `si - 8`, then added from `[rsp+si]`. */
  function Plus(ctx: Context, args: Node, si: int, pos: nat): Option<Out>
    decreases Size(args), 2
  {
    var left :- Operand1(args);
    var right :- Operand2(args);
    var b :- Expr(ctx, right, si, pos);
    var off :- StackOffset(si);
    var a :- Expr(ctx, left, si - WORD_SIZE, pos + |b.code| + 5);
    Some(Out(b.code + MovRegToStack(Rax, off) + a.code + AddRegStack(Rax, off), 0))
  }

  /** `AST_compile_let`: each binding's expression at `si`, stored at
      `[rsp+si]` and bound there for the later bindings and the body. */
  function Let(ctx: Context, bindings: Node, body: Node, si: int, pos: nat): Option<Out>
    decreases Size(bindings) + Size(body), 0
  {
    match bindings
    case Nil =>
      var b :- Expr(ctx, body, si, pos);
      Some(Out(b.code, 0))
    case Pair(first, rest) =>
      var name :- Car(first);
      if !name.Atom? then None
      else
        var tail :- Cdr(first);
        var e :- Car(tail);
        var x :- Expr(ctx, e, si, pos);
        var off :- StackOffset(si);
        var r :- Let(WithLocals(ctx, EnvNode(name.name, si, ctx.locals)), rest, body, si - WORD_SIZE, pos + |x.code| + 5);
        Some(Out(x.code + MovRegToStack(Rax, off) + r.code, r.status))
    case _ => None
  }

  /** `AST_compile_if`: the test, `cmp rax, #f`, `je` over the consequent
      and its `jmp`, the consequent, `jmp` over the alternative, the
      alternative. */
  function If(ctx: Context, test: Node, consequent: Node, alternative: Node, si: int, pos: nat): Option<Out>
    decreases Size(test) + Size(consequent) + Size(alternative), 0
  {
    var c :- Expr(ctx, test, si, pos);
    var thenPos := pos + |c.code| + 12;
    var a :- Expr(ctx, consequent, si, thenPos);
    var elsePos := thenPos + |a.code| + 5;
    var b :- Expr(ctx, alternative, si, elsePos);
    Some(Out(c.code + CmpRegImm32(Rax, EncodeBool(false)) + [0x0f, 0x84] + Le32(|a.code| + 5)
             + a.code + [0xe9] + Le32(|b.code|) + b.code, 0))
  }

  /** The code `cons` appends after its two operands: tag the heap pointer
      and bump it by two words. */
  const CONS_TAIL: seq<byte> := MovRegReg(Rax, Rsi) + OrRegImm32(Rax, PAIR_TAG) + AddRegImm32(Rsi, 2 * WORD_SIZE)

  /** `AST_compile_cons`: the car at `si - 8` stored at `[rsi]`, the cdr at
      `si` stored at `[rsi+8]`, then the tagged pointer and the bump. */
  function Cons(ctx: Context, car: Node, cdr: Node, si: int, pos: nat): Option<Out>
    decreases Size(car) + Size(cdr), 0
  {
    var a :- Expr(ctx, car, si - WORD_SIZE, pos);
    var b :- Expr(ctx, cdr, si, pos + |a.code| + 4);
    Some(Out((a.code + MovRaxToRegDisp(Rsi, 0)) + (b.code + MovRaxToRegDisp(Rsi, WORD_SIZE)) + CONS_TAIL, 0))
  }

  /** `AST_compile_code`: the formals are bound at `si`, `si - 8`, ... and
      the body follows at the next index, then `ret`. */
  function Code(ctx: Context, formals: Node, body: Node, si: int, pos: nat): Option<Out>
    decreases Size(formals) + Size(body), 0
  {
    match formals
    case Nil =>
      var b :- Expr(ctx, body, si, pos);
      if b.status != 0 then Some(b) else Some(Out(b.code + Ret(), 0))
    case Pair(name, rest) =>
      if !name.Atom? then None
      else Code(WithLocals(ctx, EnvNode(name.name, si, ctx.locals)), rest, body, si - WORD_SIZE, pos)
    case _ => None
  }

  /** `AST_compile_labelcall`: each argument at `si`, stored at
      `[rsp+si]`, then a `call` to the label's code position. */
  function LabelCall(ctx: Context, codePos: int, args: Node, si: int, pos: nat): Option<Out>
    decreases Size(args), 0
  {
    match args
    case Nil => Some(Out(CallImm32(Wrap32(codePos - pos)), 0))
    case Pair(arg, rest) =>
      var a :- Expr(ctx, arg, si, pos);
      if a.status != 0 then Some(a)
      else
        var off :- StackOffset(si);
        var r :- LabelCall(ctx, codePos, rest, si - WORD_SIZE, pos + |a.code| + 5);
        Some(Out(a.code + MovRegToStack(Rax, off) + r.code, r.status))
    case _ => None
  }

  /** `AST_compile_function`: the expression at `-8`, then `ret` unless it
      failed. */
  function Function(ctx: Context, node: Node, pos: nat): Option<Out> {
    var e :- Expr(ctx, node, -WORD_SIZE, pos);
    if e.status != 0 then Some(e) else Some(Out(e.code + Ret(), 0))
  }

  /** `AST_compile_entry`: keep the heap pointer in rsi, then the function. */
  function Entry(ctx: Context, node: Node, pos: nat): Option<Out> {
    var f :- Function(ctx, node, pos + 3);
    Some(Out(MovRegReg(Rsi, Rdi) + f.code, f.status))
  }

  /** What `AST_compile_labels` appends and returns, and where the entry
      code starts when it gets there (the position the jump over the label
      codes is backpatched to). */
  datatype LabelsOut = LabelsOut(code: seq<byte>, status: int, entry: Option<nat>)

  /** `AST_compile_labels`: each label is bound to the cursor position and
      its expression compiled there (so a label can call itself and the
      labels before it); then the entry code. */
  function Labels(ctx: Context, bindings: Node, body: Node, si: int, pos: nat): Option<LabelsOut>
    decreases Size(bindings)
  {
    match bindings
    case Nil =>
      var en :- Entry(ctx, body, pos);
      Some(LabelsOut(en.code, en.status, Some(pos)))
    case Pair(binding, rest) =>
      var name :- Car(binding);
      if !name.Atom? then None
      else
        var tail :- Cdr(binding);
        var exp :- Car(tail);
        var inner := WithLabels(ctx, EnvNode(name.name, pos, ctx.labels));
        var x :- Expr(inner, exp, si, pos);
        if x.status != 0 then Some(LabelsOut(x.code, x.status, None))
        else
          var r :- Labels(inner, rest, body, si, pos + |x.code|);
          Some(LabelsOut(x.code + r.code, r.status, r.entry))
    case _ => None
  }

  /** The placeholder displacement of the jump over the label codes. */
  const JUMP_PLACEHOLDER: Int32 := 0x12345678

  /** The displacement of the jump over the label codes: the distance to
      the entry code when it was reached, else the placeholder. */
  function JumpDisplacement(bodyPos: nat, entry: Option<nat>): seq<byte> {
    if entry.Some? then Le32(entry.value - bodyPos) else Le32(JUMP_PLACEHOLDER)
  }

  /** `AST_compile_prog`: `(labels <bindings> <body>)`: a jump, the label
      codes, the entry code; the jump is backpatched to the entry code
      when every label compiled. */
  function Prog(ctx: Context, prog: Node, pos: nat): Option<Out> {
    match prog
    case Pair(tag, args) =>
      if !(tag.Atom? && tag.name == "labels") then None
      else
        var body :- Operand2(args);
        var bindings :- Operand1(args);
        var bodyPos := pos + 5;
        var l :- Labels(ctx, bindings, body, -WORD_SIZE, bodyPos);
        Some(Out([0xe9] + JumpDisplacement(bodyPos, l.entry) + l.code, l.status))
    case _ => None
  }
}
