/** Properties of the code compiler.c emits, stated over the functions of
    `CCodegen`: the statuses the compile functions return, what a name
    compiles to, where the forward jumps and the calls land, and which
    stack slots the bindings of `let` and the formals of `code` occupy. */
module CProperties {
  import opened Util
  import opened CBytes
  import opened CX86
  import opened CAst
  import opened CCodegen
  import CCompiler

  /** A status a compile function returns: 0, or -1 for an unbound name. */
  predicate StatusOk(o: Option<Out>) {
    o.Some? ==> o.value.status == 0 || o.value.status == -1
  }

  /** `AST_compile_expr` returns 0 or -1 and nothing else. */
  lemma {:induction false} ExprStatus(ctx: Context, node: Node, si: int, pos: nat)
    ensures StatusOk(Expr(ctx, node, si, pos))
    decreases Size(node), 1
  {
    match node
    case Pair(fn, args) => CallStatus(ctx, fn, args, si, pos);
    case _ =>
  }

  /** `AST_compile_call` returns 0 or -1: the primitives, `if` and `cons`
      return 0, the others pass on a status of their parts. */
  lemma {:induction false} CallStatus(ctx: Context, fn: Node, args: Node, si: int, pos: nat)
    ensures StatusOk(Call(ctx, fn, args, si, pos))
    decreases Size(fn) + Size(args), 0
  {
    if fn.Atom? && !IsUnary(fn.name) && Operand1(args).Some? && Operand2(args).Some? {
      var first, second := Operand1(args).value, Operand2(args).value;
      if fn.name == "let" {
        LetStatus(ctx, first, second, si, pos);
      } else if fn.name == "code" {
        CodeStatus(ctx, first, second, -WORD_SIZE, pos);
      }
    }
    if fn.Atom? && fn.name == "labelcall" && Operand1(args).Some? && Operand1(args).value.Atom?
       && Lookup(ctx.labels, Operand1(args).value.name).Some? && Cdr(args).Some? {
      LabelCallStatus(ctx, Lookup(ctx.labels, Operand1(args).value.name).value, Cdr(args).value, si, pos);
    }
  }

  /** `AST_compile_let` always returns 0: the status of its body is
      dropped, so an unbound name in the body goes unreported. */
  lemma {:induction false} LetStatus(ctx: Context, bindings: Node, body: Node, si: int, pos: nat)
    ensures Let(ctx, bindings, body, si, pos).Some? ==> Let(ctx, bindings, body, si, pos).value.status == 0
    decreases Size(bindings) + Size(body)
  {
    if bindings.Pair? && Let(ctx, bindings, body, si, pos).Some? {
      var first := bindings.car;
      var x := Expr(ctx, first.cdr.car, si, pos).value;
      LetStatus(WithLocals(ctx, EnvNode(first.car.name, si, ctx.locals)), bindings.cdr, body, si - WORD_SIZE,
                pos + |x.code| + 5);
    }
  }

  /** `AST_compile_code` returns its body's status. */
  lemma {:induction false} CodeStatus(ctx: Context, formals: Node, body: Node, si: int, pos: nat)
    ensures StatusOk(Code(ctx, formals, body, si, pos))
    decreases Size(formals) + Size(body)
  {
    match formals
    case Nil => ExprStatus(ctx, body, si, pos);
    case Pair(name, rest) =>
      if name.Atom? {
        CodeStatus(WithLocals(ctx, EnvNode(name.name, si, ctx.locals)), rest, body, si - WORD_SIZE, pos);
      }
    case _ =>
  }

  /** `AST_compile_labelcall` returns 0, or the -1 of an argument. */
  lemma {:induction false} LabelCallStatus(ctx: Context, codePos: int, args: Node, si: int, pos: nat)
    ensures StatusOk(LabelCall(ctx, codePos, args, si, pos))
    decreases Size(args)
  {
    match args
    case Pair(arg, rest) =>
      ExprStatus(ctx, arg, si, pos);
      var a := Expr(ctx, arg, si, pos);
      if a.Some? && a.value.status == 0 {
        LabelCallStatus(ctx, codePos, rest, si - WORD_SIZE, pos + |a.value.code| + 5);
      }
    case _ =>
  }

  /** `AST_compile_labels` returns 0 or -1, and it reaches the entry code
      (and so backpatches the jump to it) whenever it returns 0. */
  lemma {:induction false} LabelsStatus(ctx: Context, bindings: Node, body: Node, si: int, pos: nat)
    requires Labels(ctx, bindings, body, si, pos).Some?
    ensures var l := Labels(ctx, bindings, body, si, pos).value;
            (l.status == 0 || l.status == -1) && (l.status == 0 ==> l.entry.Some?)
    decreases Size(bindings)
  {
    match bindings
    case Nil => ExprStatus(ctx, body, -WORD_SIZE, pos + 3);
    case Pair(binding, rest) =>
      var inner := WithLabels(ctx, EnvNode(binding.car.name, pos, ctx.labels));
      var x := Expr(inner, binding.cdr.car, si, pos).value;
      ExprStatus(inner, binding.cdr.car, si, pos);
      if x.status == 0 {
        LabelsStatus(inner, rest, body, si, pos + |x.code|);
      }
  }

  /** `AST_compile_prog` returns 0 or -1. */
  lemma ProgStatus(ctx: Context, prog: Node, pos: nat)
    ensures StatusOk(Prog(ctx, prog, pos))
  {
    if Prog(ctx, prog, pos).Some? {
      var args := prog.cdr;
      LabelsStatus(ctx, Operand1(args).value, Operand2(args).value, -WORD_SIZE, pos + 5);
    }
  }

  /** A name compiles to one load from its stack slot, the same wherever
      and whenever it is compiled; an unbound name emits nothing and
      returns -1; a slot that is not a negative `int8_t` offset aborts. */
  lemma AtomCode(ctx: Context, name: string, si: int, pos: nat, si': int, pos': nat)
    ensures Expr(ctx, Atom(name), si, pos) == Expr(ctx, Atom(name), si', pos')
    ensures Lookup(ctx.locals, name).None? ==> Expr(ctx, Atom(name), si, pos) == Some(Out([], -1))
    ensures Lookup(ctx.locals, name).Some? ==>
              var off := ToInt8(Lookup(ctx.locals, name).value);
              Expr(ctx, Atom(name), si, pos) == if off < 0 then Some(Out(MovStackToReg(Rax, off), 0)) else None
  {
  }

  /** A `labelcall` of an unbound label emits nothing and returns -1,
      whatever its arguments. */
  lemma UnboundLabel(ctx: Context, target: string, args: Node, si: int, pos: nat)
    requires Lookup(ctx.labels, target).None?
    ensures Expr(ctx, Pair(Atom("labelcall"), Pair(Atom(target), args)), si, pos) == Some(Out([], -1))
  {
  }

  /** Where a `rel32` jump or call whose instruction ends at `end` lands:
      the end plus the signed displacement in its last four bytes. */
  function Target(code: seq<byte>, end: nat): int
    requires 4 <= end <= |code|
  {
    end + Wrap32(DecodeLe32(code[end - 4..end]))
  }

  /** A word in the middle of a concatenation, and what follows it. */
  lemma Middle(p: seq<byte>, w: seq<byte>, q: seq<byte>)
    ensures (p + w + q)[..|p|] == p
    ensures (p + w + q)[|p|..|p| + |w|] == w
    ensures (p + w + q)[|p| + |w|..] == q
  {
    assert (p + w + q)[|p|..|p| + |w|] == w;
  }

  /** The displacement a displacement word holds, in range. */
  lemma WordTarget(p: seq<byte>, d: int, q: seq<byte>)
    requires 0 <= d < 0x8000_0000
    ensures Target(p + Le32(d) + q, |p| + 4) == |p| + 4 + d
  {
    Le32RoundTrip(d);
    Middle(p, Le32(d), q);
  }

  /** The code of `if` around a test `c`, a consequent `a` and an
      alternative `b` starts with the test and `cmp rax, #f`. */
  lemma {:induction false} IfTestLayout(c: seq<byte>, a: seq<byte>, b: seq<byte>)
    ensures var code := c + CmpRegImm32(Rax, EncodeBool(false)) + [0x0f, 0x84] + Le32(|a| + 5) + a + [0xe9] + Le32(|b|) + b;
            && |code| == |c| + 12 + |a| + 5 + |b|
            && code[..|c|] == c
            && code[|c|..|c| + 8] == CmpRegImm32(Rax, BOOL_TAG) + [0x0f, 0x84]
  {
    var cmp := CmpRegImm32(Rax, EncodeBool(false)) + [0x0f, 0x84];
    var tail := Le32(|a| + 5) + a + [0xe9] + Le32(|b|) + b;
    assert c + CmpRegImm32(Rax, EncodeBool(false)) + [0x0f, 0x84] + Le32(|a| + 5) + a + [0xe9] + Le32(|b|) + b
        == c + cmp + tail;
    Middle(c, cmp, tail);
  }

  /** ... the `je` after it lands on the first byte of the alternative,
      skipping the consequent and its `jmp`. */
  lemma {:induction false} IfJeLayout(c: seq<byte>, a: seq<byte>, b: seq<byte>)
    requires |a| + 5 < 0x8000_0000
    ensures var code := c + CmpRegImm32(Rax, EncodeBool(false)) + [0x0f, 0x84] + Le32(|a| + 5) + a + [0xe9] + Le32(|b|) + b;
            && |code| == |c| + 12 + |a| + 5 + |b|
            && code[|c| + 12..|c| + 12 + |a|] == a
            && Target(code, |c| + 12) == |c| + 12 + |a| + 5
  {
    var head := c + CmpRegImm32(Rax, EncodeBool(false)) + [0x0f, 0x84];
    var tail := a + [0xe9] + Le32(|b|) + b;
    assert c + CmpRegImm32(Rax, EncodeBool(false)) + [0x0f, 0x84] + Le32(|a| + 5) + a + [0xe9] + Le32(|b|) + b
        == head + Le32(|a| + 5) + tail;
    WordTarget(head, |a| + 5, tail);
    Middle(head + Le32(|a| + 5), a, [0xe9] + Le32(|b|) + b);
    assert head + Le32(|a| + 5) + tail == (head + Le32(|a| + 5)) + a + ([0xe9] + Le32(|b|) + b);
  }

  /** ... and the `jmp` after the consequent lands just after the
      alternative, which follows it. */
  lemma {:induction false} IfJmpLayout(c: seq<byte>, a: seq<byte>, b: seq<byte>)
    requires |b| < 0x8000_0000
    ensures var code := c + CmpRegImm32(Rax, EncodeBool(false)) + [0x0f, 0x84] + Le32(|a| + 5) + a + [0xe9] + Le32(|b|) + b;
            var jmpEnd := |c| + 12 + |a| + 5;
            && |code| == jmpEnd + |b|
            && code[jmpEnd - 5] == 0xe9
            && code[jmpEnd..] == b
            && Target(code, jmpEnd) == |code|
  {
    var front := c + CmpRegImm32(Rax, EncodeBool(false)) + [0x0f, 0x84] + Le32(|a| + 5) + a + [0xe9];
    WordTarget(front, |b|, b);
    Middle(front, Le32(|b|), b);
  }

  /** `AST_compile_if`: the test, then `cmp rax, #f` and a `je` that lands
      on the first byte of the alternative `b`, then the consequent `a`
      and a `jmp` that lands just after the alternative. */
  lemma IfJumps(ctx: Context, test: Node, consequent: Node, alternative: Node, si: int, pos: nat)
    returns (c: seq<byte>, a: seq<byte>, b: seq<byte>)
    requires If(ctx, test, consequent, alternative, si, pos).Some?
    requires |If(ctx, test, consequent, alternative, si, pos).value.code| < 0x8000_0000
    ensures Expr(ctx, test, si, pos) == Some(Out(c, Expr(ctx, test, si, pos).value.status))
    ensures Expr(ctx, consequent, si, pos + |c| + 12).Some? && Expr(ctx, consequent, si, pos + |c| + 12).value.code == a
    ensures Expr(ctx, alternative, si, pos + |c| + 12 + |a| + 5).Some?
            && Expr(ctx, alternative, si, pos + |c| + 12 + |a| + 5).value.code == b
    ensures var code := If(ctx, test, consequent, alternative, si, pos).value.code;
            var jeEnd := |c| + 12;
            var jmpEnd := jeEnd + |a| + 5;
            && |code| == jmpEnd + |b|
            && code[..|c|] == c
            && code[|c|..jeEnd - 4] == CmpRegImm32(Rax, BOOL_TAG) + [0x0f, 0x84]
            && code[jeEnd..jeEnd + |a|] == a
            && code[jmpEnd - 5] == 0xe9
            && code[jmpEnd..] == b
            && Target(code, jeEnd) == jmpEnd
            && Target(code, jmpEnd) == |code|
  {
    c, a, b := CCompiler.IfParts(ctx, test, consequent, alternative, si, pos);
    IfTestLayout(c, a, b);
    IfJeLayout(c, a, b);
    IfJmpLayout(c, a, b);
  }

  /** Code positions in a buffer shorter than 1 GiB: every distance between
      two of them is a 32-bit displacement. */
  const CODE_LIMIT: int := 0x4000_0000

  /** The last rel32 word of a code that ends in another code is that
      code's last word. */
  lemma {:induction false} SuffixTarget(p: seq<byte>, r: seq<byte>)
    requires |r| >= 5
    ensures (p + r)[|p + r| - 5] == r[|r| - 5]
    ensures Target(p + r, |p + r|) == |p| + Target(r, |r|)
  {
    assert (p + r)[|p + r| - 4..] == r[|r| - 4..];
  }

  /** A value in the `int32_t` range is its own conversion. */
  lemma Wrap32InRange(v: int)
    requires -0x8000_0000 <= v < 0x8000_0000
    ensures Wrap32(v) == v
  {
    if v < 0 {
      assert v % TWO_32 == v + TWO_32;
    } else {
      assert v % TWO_32 == v;
    }
  }

  /** The displacement word of a `call` decodes to the displacement. */
  lemma CallWord(disp: Int32)
    ensures var code := [0xe8] + Le32(EncodeDisp32(disp));
            |code| == 5 && code[0] == 0xe8 && Target(code, 5) == 5 + disp
  {
    var u := EncodeDisp32(disp);
    Le32RoundTrip(u);
    assert U32(u) == u;
    var code := [0xe8] + Le32(u);
    assert code[1..5] == Le32(u);
  }

  /** The `call` that ends a `labelcall` at `callPos` lands on the label's
      code. */
  lemma CallLands(codePos: int, callPos: nat)
    requires 0 <= codePos < CODE_LIMIT && callPos < CODE_LIMIT
    ensures var code := CallImm32(Wrap32(codePos - callPos));
            |code| == 5 && code[0] == 0xe8 && callPos + Target(code, 5) == codePos
  {
    var d := codePos - callPos;
    Wrap32InRange(d);
    Wrap32InRange(d - 5);
    assert CallImm32(Wrap32(d)) == [0xe8] + Le32(EncodeDisp32(d - 5));
    CallWord(d - 5);
  }

  /** `AST_compile_labelcall`: a call that returns 0 stores its arguments
      and ends with a `call` that lands on the label's code position. */
  lemma {:induction false} LabelCallTarget(ctx: Context, codePos: int, args: Node, si: int, pos: nat)
    requires LabelCall(ctx, codePos, args, si, pos).Some? && LabelCall(ctx, codePos, args, si, pos).value.status == 0
    requires 0 <= codePos < CODE_LIMIT && pos + |LabelCall(ctx, codePos, args, si, pos).value.code| < CODE_LIMIT
    ensures var code := LabelCall(ctx, codePos, args, si, pos).value.code;
            |code| >= 5 && code[|code| - 5] == 0xe8 && pos + Target(code, |code|) == codePos
    decreases Size(args)
  {
    match args
    case Nil => CallLands(codePos, pos);
    case Pair(arg, rest) =>
      var a := Expr(ctx, arg, si, pos).value.code;
      var off := StackOffset(si).value;
      var next := pos + |a| + 5;
      var r := LabelCall(ctx, codePos, rest, si - WORD_SIZE, next).value.code;
      assert LabelCall(ctx, codePos, args, si, pos).value.code == (a + MovRegToStack(Rax, off)) + r;
      LabelCallTarget(ctx, codePos, rest, si - WORD_SIZE, next);
      SuffixTarget(a + MovRegToStack(Rax, off), r);
  }

  /** `AST_compile_labels` reaches its entry code, when it does, at a
      position inside its code: from there on its code is the entry code,
      compiled with the label environment `labels` it has built and the
      caller's locals, and the status is the entry code's. */
  lemma {:induction false} LabelsEntry(ctx: Context, bindings: Node, body: Node, si: int, pos: nat)
    returns (labels: Env)
    requires Labels(ctx, bindings, body, si, pos).Some? && Labels(ctx, bindings, body, si, pos).value.entry.Some?
    ensures var l := Labels(ctx, bindings, body, si, pos).value;
            var e := l.entry.value;
            && pos <= e <= pos + |l.code|
            && Entry(Context(labels, ctx.locals), body, e) == Some(Out(l.code[e - pos..], l.status))
    decreases Size(bindings)
  {
    match bindings
    case Nil =>
      assert Context(ctx.labels, ctx.locals) == ctx;
      assert Labels(ctx, bindings, body, si, pos).value.code[0..] == Labels(ctx, bindings, body, si, pos).value.code;
      labels := ctx.labels;
    case Pair(binding, rest) =>
      var inner := WithLabels(ctx, EnvNode(binding.car.name, pos, ctx.labels));
      var x := Expr(inner, binding.cdr.car, si, pos).value;
      var next := pos + |x.code|;
      var r := Labels(inner, rest, body, si, next).value;
      labels := LabelsEntry(inner, rest, body, si, next);
      var e := r.entry.value;
      assert (x.code + r.code)[e - pos..] == r.code[e - next..];
  }

  /** `AST_compile_prog`: the program starts with a `jmp` over the label
      codes; when it returns 0 the jump has been backpatched to land on
      the entry code, compiled with the label environment `labels`, which
      keeps the heap pointer in rsi and is followed by nothing else. */
  lemma ProgJump(ctx: Context, prog: Node, pos: nat) returns (labels: Env)
    requires Prog(ctx, prog, pos).Some? && Prog(ctx, prog, pos).value.status == 0
    requires |Prog(ctx, prog, pos).value.code| < 0x8000_0000
    ensures var code := Prog(ctx, prog, pos).value.code;
            && |code| >= 5 && code[0] == 0xe9 && 5 <= Target(code, 5) <= |code|
            && Entry(Context(labels, ctx.locals), Operand2(prog.cdr).value, pos + Target(code, 5))
               == Some(Out(code[Target(code, 5)..], 0))
  {
    CCompiler.ProgParts(ctx, prog, pos);
    var code := Prog(ctx, prog, pos).value.code;
    var bindings, body := Operand1(prog.cdr).value, Operand2(prog.cdr).value;
    var l := Labels(ctx, bindings, body, -WORD_SIZE, pos + 5).value;
    assert l.status == 0;
    LabelsStatus(ctx, bindings, body, -WORD_SIZE, pos + 5);
    labels := LabelsEntry(ctx, bindings, body, -WORD_SIZE, pos + 5);
    var e := l.entry.value;
    assert code == [0xe9] + Le32(e - (pos + 5)) + l.code;
    WordTarget([0xe9], e - (pos + 5), l.code);
    assert code[e - pos..] == l.code[e - (pos + 5)..];
  }

  /** The locals after binding `names` at `si`, `si - 8`, ... in front of
      `env`, as `let` and `code` bind them one node at a time. */
  function Frame(names: seq<string>, si: int, env: Env): Env
    decreases |names|
  {
    if names == [] then env else Frame(names[1..], si - WORD_SIZE, EnvNode(names[0], si, env))
  }

  /** Names outside a frame are found as they were before it. */
  lemma {:induction false} FrameOutside(names: seq<string>, si: int, env: Env, name: string)
    requires name !in names
    ensures Lookup(Frame(names, si, env), name) == Lookup(env, name)
    decreases |names|
  {
    if names != [] {
      FrameOutside(names[1..], si - WORD_SIZE, EnvNode(names[0], si, env), name);
    }
  }

  /** Name `k` of a frame is found at `si - 8k` unless a later name of the
      frame shadows it. */
  lemma {:induction false} FrameSlot(names: seq<string>, si: int, env: Env, k: nat)
    requires k < |names| && names[k] !in names[k + 1..]
    ensures Lookup(Frame(names, si, env), names[k]) == Some(si - WORD_SIZE * k)
    decreases |names|
  {
    var inner := EnvNode(names[0], si, env);
    if k == 0 {
      FrameOutside(names[1..], si - WORD_SIZE, inner, names[0]);
    } else {
      assert names[1..][k - 1] == names[k] && names[1..][k..] == names[k + 1..];
      FrameSlot(names[1..], si - WORD_SIZE, inner, k - 1);
    }
  }

  /** The names a `let` binds, up to its first malformed binding. */
  function LetNames(bindings: Node): seq<string>
    decreases Size(bindings)
  {
    match bindings
    case Pair(first, rest) =>
      if first.Pair? && first.car.Atom? then [first.car.name] + LetNames(rest) else []
    case _ => []
  }

  /** The formals of a `code`, up to its first non-atom. */
  function FormalNames(formals: Node): seq<string>
    decreases Size(formals)
  {
    match formals
    case Pair(name, rest) => if name.Atom? then [name.name] + FormalNames(rest) else []
    case _ => []
  }

  /** The pieces a `let` with a first binding puts together. */
  lemma LetPairParts(ctx: Context, bindings: Node, body: Node, si: int, pos: nat)
    returns (name: string, x: seq<byte>, r: seq<byte>)
    requires bindings.Pair? && Let(ctx, bindings, body, si, pos).Some?
    ensures LetNames(bindings) == [name] + LetNames(bindings.cdr) && ToInt8(si) < 0
    ensures var inner := WithLocals(ctx, EnvNode(name, si, ctx.locals));
            && Let(inner, bindings.cdr, body, si - WORD_SIZE, pos + |x| + 5).Some?
            && Let(inner, bindings.cdr, body, si - WORD_SIZE, pos + |x| + 5).value.code == r
    ensures Let(ctx, bindings, body, si, pos).value.code == (x + MovRegToStack(Rax, ToInt8(si))) + r
  {
    var first := bindings.car;
    name := first.car.name;
    x := Expr(ctx, first.cdr.car, si, pos).value.code;
    r := Let(WithLocals(ctx, EnvNode(name, si, ctx.locals)), bindings.cdr, body, si - WORD_SIZE, pos + |x| + 5).value.code;
  }

  /** `AST_compile_let`: the body comes last, at `p`, compiled under the
      caller's locals with binding k stored at `si - 8k`, at the stack
      index after the last binding. */
  lemma {:induction false} LetBody(ctx: Context, bindings: Node, body: Node, si: int, pos: nat)
    returns (p: nat, bodyCtx: Context, bodySi: int)
    requires Let(ctx, bindings, body, si, pos).Some?
    ensures bodyCtx == WithLocals(ctx, Frame(LetNames(bindings), si, ctx.locals))
    ensures bodySi == si - WORD_SIZE * |LetNames(bindings)|
    ensures var code := Let(ctx, bindings, body, si, pos).value.code;
            pos <= p <= pos + |code| && Expr(bodyCtx, body, bodySi, p).Some?
            && Expr(bodyCtx, body, bodySi, p).value.code == code[p - pos..]
    decreases Size(bindings)
  {
    if bindings.Nil? {
      assert WithLocals(ctx, ctx.locals) == ctx;
      return pos, ctx, si;
    }
    var name, x, r := LetPairParts(ctx, bindings, body, si, pos);
    var inner := WithLocals(ctx, EnvNode(name, si, ctx.locals));
    var next := pos + |x| + 5;
    p, bodyCtx, bodySi := LetBody(inner, bindings.cdr, body, si - WORD_SIZE, next);
    FrameStep(ctx, name, LetNames(bindings.cdr), si);
    assert |MovRegToStack(Rax, ToInt8(si))| == 5;
    assert (x + MovRegToStack(Rax, ToInt8(si)) + r)[p - pos..] == r[p - next..];
  }

  /** The frame of a `let` is its first binding's slot followed by the
      frame of the other bindings. */
  lemma FrameStep(ctx: Context, name: string, rest: seq<string>, si: int)
    ensures var inner := WithLocals(ctx, EnvNode(name, si, ctx.locals));
            WithLocals(inner, Frame(rest, si - WORD_SIZE, inner.locals))
            == WithLocals(ctx, Frame([name] + rest, si, ctx.locals))
    ensures si - WORD_SIZE - WORD_SIZE * |rest| == si - WORD_SIZE * |[name] + rest|
  {
    var names := [name] + rest;
    assert names[1..] == rest;
  }

  /** `AST_compile_code`: formal k is bound at `si - 8k`, and the code is
      the body, compiled at the index after the last formal, then `ret`
      unless the body returned -1. */
  lemma {:induction false} CodeBody(ctx: Context, formals: Node, body: Node, si: int, pos: nat)
    requires Code(ctx, formals, body, si, pos).Some?
    ensures var names := FormalNames(formals);
            var e := Expr(WithLocals(ctx, Frame(names, si, ctx.locals)), body, si - WORD_SIZE * |names|, pos);
            && e.Some?
            && Code(ctx, formals, body, si, pos).value == if e.value.status != 0 then e.value else Out(e.value.code + Ret(), 0)
    decreases Size(formals)
  {
    match formals
    case Nil =>
      assert WithLocals(ctx, ctx.locals) == ctx;
    case Pair(name, rest) =>
      var inner := WithLocals(ctx, EnvNode(name.name, si, ctx.locals));
      CodeBody(inner, rest, body, si - WORD_SIZE, pos);
      var names := FormalNames(formals);
      assert names[1..] == FormalNames(rest);
      assert WithLocals(inner, Frame(FormalNames(rest), si - WORD_SIZE, inner.locals)) == WithLocals(ctx, Frame(names, si, ctx.locals));
      assert si - WORD_SIZE - WORD_SIZE * |FormalNames(rest)| == si - WORD_SIZE * |names|;
  }
}
