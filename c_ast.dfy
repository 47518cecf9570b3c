/** The s-expression tree of compiler.c (`ASTNode`), its accessors, the
    linked-list environment (`EnvNode`, `Env_lookup`) and the compiler
    context's label and local environments. */
module CAst {
  import opened Util
  import opened CBytes

  /** `kFixnum`, `kAtom` and `kCons` nodes; `Nil` is the one shared
      `nil_struct`, a `kCons` node with no car and no cdr. */
  datatype Node = Fixnum(value: Int32) | Atom(name: string) | Pair(car: Node, cdr: Node) | Nil

  /** The number of nodes reachable from `n`, counting `nil`. */
  function Size(n: Node): (r: nat)
    ensures r >= 1
  {
    match n
    case Pair(a, d) => 1 + Size(a) + Size(d)
    case _ => 1
  }

  /** `AST_new_cons`: two missing halves make `nil`, one missing half is
      refused (`None`). */
  function NewCons(car: Option<Node>, cdr: Option<Node>): (r: Option<Node>)
    ensures car.None? && cdr.None? ==> r == Some(Nil)
    ensures car.Some? && cdr.Some? ==> r == Some(Pair(car.value, cdr.value))
    ensures car.None? != cdr.None? ==> r.None?
  {
    match (car, cdr)
    case (None, None) => Some(Nil)
    case (Some(a), Some(d)) => Some(Pair(a, d))
    case _ => None
  }

  /** `AST_car` and `AST_cdr` assert a non-nil `kCons` node. */
  function Car(n: Node): (r: Option<Node>)
    ensures r.Some? <==> n.Pair?
    ensures r.Some? ==> Size(r.value) < Size(n)
  {
    if n.Pair? then Some(n.car) else None
  }

  function Cdr(n: Node): (r: Option<Node>)
    ensures r.Some? <==> n.Pair?
    ensures r.Some? ==> Size(r.value) < Size(n)
  {
    if n.Pair? then Some(n.cdr) else None
  }

  /** `operand1`, `operand2` and `operand3`: the first three elements of an
      argument list; a shorter list makes `AST_car` or `AST_cdr` fail. */
  function Operand1(args: Node): (r: Option<Node>)
    ensures r.Some? ==> Size(r.value) < Size(args)
  {
    Car(args)
  }

  function Operand2(args: Node): (r: Option<Node>)
    ensures r.Some? ==> Size(r.value) + 1 < Size(args)
  {
    var d :- Cdr(args);
    Car(d)
  }

  function Operand3(args: Node): (r: Option<Node>)
    ensures r.Some? ==> Size(r.value) + 2 < Size(args)
  {
    var d :- Cdr(args);
    var dd :- Cdr(d);
    Car(dd)
  }

  /** The proper list of `items`, as the reader and the tests' `list2`
      and `list3` build it. */
  function List(items: seq<Node>): Node
    decreases |items|
  {
    if |items| == 0 then Nil else Pair(items[0], List(items[1..]))
  }

  /** The operands of a proper list are its elements, and a too-short list
      has none. */
  lemma {:induction false} ListOperands(items: seq<Node>)
    ensures Operand1(List(items)) == (if |items| >= 1 then Some(items[0]) else None)
    ensures Operand2(List(items)) == (if |items| >= 2 then Some(items[1]) else None)
    ensures Operand3(List(items)) == (if |items| >= 3 then Some(items[2]) else None)
  {
    if |items| >= 1 {
      var t := items[1..];
      assert List(items) == Pair(items[0], List(t));
      if |t| >= 1 {
        assert List(t) == Pair(t[0], List(t[1..]));
        if |t| >= 2 {
          assert List(t[1..]) == Pair(t[1], List(t[2..]));
        }
      }
    }
  }

  /** `EnvNode`: a name bound to a stack index (or, in the label
      environment, to a code position), in front of the rest. */
  datatype Env = EnvNil | EnvNode(name: string, index: int, next: Env)

  /** `Env_lookup`: the index of the first node with that name. */
  function Lookup(env: Env, name: string): Option<int> {
    match env
    case EnvNil => None
    case EnvNode(n, i, next) => if n == name then Some(i) else Lookup(next, name)
  }

  /** The environment as a map: later (outer) nodes are overridden by
      earlier (inner) ones. */
  function Bindings(env: Env): map<string, int> {
    match env
    case EnvNil => map[]
    case EnvNode(n, i, next) => Bindings(next)[n := i]
  }

  /** `Env_lookup` finds a name exactly when the environment binds it, and
      then returns the innermost binding. */
  lemma {:induction false} LookupBindings(env: Env, name: string)
    ensures Lookup(env, name).Some? <==> name in Bindings(env)
    ensures Lookup(env, name).Some? ==> Lookup(env, name).value == Bindings(env)[name]
  {
    match env
    case EnvNil =>
    case EnvNode(n, i, next) =>
      if n != name {
        LookupBindings(next, name);
      }
  }

  /** Shadowing: a new node hides every older binding of its name and
      leaves every other name's lookup as it was. */
  lemma Shadowing(env: Env, n: string, i: int, name: string)
    ensures Lookup(EnvNode(n, i, env), n) == Some(i)
    ensures name != n ==> Lookup(EnvNode(n, i, env), name) == Lookup(env, name)
  {
  }

  /** `CompilerContext` without its writer: the label environment (names
      to code positions) and the local environment (names to stack
      indices). */
  datatype Context = Context(labels: Env, locals: Env)

  /** `CompilerContext_with_labels` and `CompilerContext_with_locals`. */
  function WithLabels(ctx: Context, labels: Env): (r: Context)
    ensures r.labels == labels && r.locals == ctx.locals
  {
    ctx.(labels := labels)
  }

  function WithLocals(ctx: Context, locals: Env): (r: Context)
    ensures r.locals == locals && r.labels == ctx.labels
  {
    ctx.(locals := locals)
  }
}
