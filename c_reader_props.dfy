/** What the reader of compiler.c promises: whitespace is skipped, a digit
    run is a fixnum, an atom is at most 32 atom characters, a parenthesis
    opens a list, any other character is `NULL`; and the reader's own
    tests. */
module CReaderProperties {
  import opened Util
  import opened CBytes
  import opened CAst
  import opened CReader

  /** Leading whitespace does not change what is read. */
  lemma SkipsWhitespace(input: string, pos: nat)
    requires pos < |input| && IsSpace(input[pos])
    ensures ReadRec(input, pos) == ReadRec(input, pos + 1)
  {
  }

  /** After the whitespace, a digit starts a fixnum: the whole digit run,
      wrapped to an `int`, and exact when it is below 2^31. */
  lemma ReadsNumber(input: string, pos: nat)
    requires pos <= |input| && IsDigit(CharAt(input, SkipSpace(input, pos)))
    ensures var p := SkipSpace(input, pos);
            var e := DigitsEnd(input, p);
            && ReadRec(input, pos) == Parsed(Fixnum(Wrap32(Decimal(input[p..e]))), e)
            && p < e && !IsDigit(CharAt(input, e))
            && (Decimal(input[p..e]) < 0x8000_0000 ==> ReadRec(input, pos).node.value == Decimal(input[p..e]))
  {
    var p := SkipSpace(input, pos);
    var e := DigitsEnd(input, p);
    if Decimal(input[p..e]) < 0x8000_0000 {
      Wrap32Exact(Decimal(input[p..e]));
    }
  }

  /** After the whitespace, an atom character starts an atom: the longest
      run of atom characters, cut at 32. */
  lemma ReadsAtom(input: string, pos: nat)
    requires pos <= |input|
    requires var c := CharAt(input, SkipSpace(input, pos)); IsAtomChar(c)
    ensures var p := SkipSpace(input, pos);
            && ReadRec(input, pos).Parsed?
            && var r := ReadRec(input, pos);
            && r.node.Atom? && r.node.name == input[p..r.next]
            && 1 <= |r.node.name| <= ATOM_MAX
            && (forall i :: 0 <= i < |r.node.name| ==> IsAtomChar(r.node.name[i]))
            && (|r.node.name| == ATOM_MAX || !IsAtomChar(CharAt(input, r.next)))
  {
    var p := SkipSpace(input, pos);
    var e := AtomEnd(input, p, ATOM_MAX);
    assert e == AtomEnd(input, p + 1, ATOM_MAX - 1);
    assert forall i :: 0 <= i < e - p ==> input[p..e][i] == input[p + i];
  }

  /** After the whitespace, `(` starts a list that ends at the matching `)`. */
  lemma ReadsList(input: string, pos: nat)
    requires pos <= |input| && CharAt(input, SkipSpace(input, pos)) == '('
    ensures ReadRec(input, pos) == ReadList(input, SkipSpace(input, pos) + 1)
  {
  }

  /** Any other first character (a `)`, the end of the string, a digit-less
      sign-less punctuation mark) reads as `NULL`. */
  lemma ReadsNull(input: string, pos: nat)
    requires pos <= |input|
    requires var c := CharAt(input, SkipSpace(input, pos)); !IsDigit(c) && !IsAtomChar(c) && c != '('
    ensures ReadRec(input, pos) == Null
  {
  }

  /** A list reads as `nil` at `)`, and as its first element followed by
      the rest otherwise; an element that reads as `NULL` (whitespace
      before the `)` among them) aborts. */
  lemma ListShape(input: string, pos: nat)
    requires pos <= |input|
    ensures CharAt(input, pos) == ')' ==> ReadList(input, pos) == Parsed(Nil, pos + 1)
    ensures CharAt(input, pos) != ')' && ReadRec(input, pos).Null? ==> ReadList(input, pos) == Aborted
    ensures CharAt(input, pos) != ')' && ReadRec(input, pos).Parsed? ==>
              var first := ReadRec(input, pos);
              var rest := ReadList(input, first.next);
              ReadList(input, pos) == (if rest.Parsed? then Parsed(Pair(first.node, rest.node), rest.next) else Aborted)
  {
  }

  /** Whitespace before a closing parenthesis aborts the reader. */
  lemma SpaceBeforeCloseAborts(input: string, pos: nat)
    requires pos + 1 < |input| && input[pos] == ' ' && input[pos + 1] == ')'
    ensures ReadList(input, pos) == Aborted
  {
    assert SkipSpace(input, pos) == pos + 1 by {
      assert SkipSpace(input, pos + 1) == pos + 1;
    }
  }

  // The reader's tests.

  lemma DigitsOf1234()
    ensures DigitsEnd("1234", 0) == 4 && Decimal("1234") == 1234
  {
    var s := "1234";
    assert DigitsEnd(s, 4) == 4;
    assert Decimal("1") == 1 by {
      assert "1"[..0] == "";
    }
    assert Decimal("12") == 12 by {
      assert "12"[..1] == "1";
    }
    assert Decimal("123") == 123 by {
      assert "123"[..2] == "12";
    }
    assert s[..3] == "123";
  }

  lemma GoldenNumber()
    ensures Read("1234") == Parsed(Fixnum(1234), 4)
  {
    DigitsOf1234();
    assert "1234"[0..4] == "1234";
  }

  lemma GoldenLeadingWhitespace()
    ensures Read("  \t \n 1234") == Parsed(Fixnum(1234), 10)
  {
    var s := "  \t \n 1234";
    assert SkipSpace(s, 0) == 6 by {
      assert SkipSpace(s, 6) == 6;
    }
    assert DigitsEnd(s, 6) == 10 by {
      assert DigitsEnd(s, 10) == 10;
    }
    assert s[6..10] == "1234";
    DigitsOf1234();
  }

  lemma GoldenAtom()
    ensures Read("hello") == Parsed(Atom("hello"), 5)
  {
    var s := "hello";
    assert AtomEnd(s, 0, ATOM_MAX) == 5 by {
      assert AtomEnd(s, 5, ATOM_MAX - 5) == 5;
    }
    assert s[0..5] == s;
  }

  lemma GoldenNil()
    ensures Read("()") == Parsed(Nil, 2)
  {
  }

  /** A lone digit reads as its value. */
  lemma SingleDigit(s: string, pos: nat, q: nat)
    requires pos <= q < |s| && SkipSpace(s, pos) == q && IsDigit(s[q]) && !IsDigit(CharAt(s, q + 1))
    ensures ReadRec(s, pos) == Parsed(Fixnum(s[q] as int - '0' as int), q + 1)
  {
    assert DigitsEnd(s, q) == q + 1 by {
      assert DigitsEnd(s, q + 1) == q + 1;
    }
    var run := s[q..q + 1];
    assert run[..0] == [] && run[0] == s[q];
    assert Decimal(run) == s[q] as int - '0' as int;
    Wrap32Exact(Decimal(run));
  }

  lemma GoldenList()
    ensures Read("(1 2 3)") == Parsed(List([Fixnum(1), Fixnum(2), Fixnum(3)]), 7)
  {
    var s := "(1 2 3)";
    assert ReadList(s, 6) == Parsed(Nil, 7);
    assert SkipSpace(s, 4) == 5 by {
      assert SkipSpace(s, 5) == 5;
    }
    SingleDigit(s, 5, 5);
    assert SkipSpace(s, 2) == 3 by {
      assert SkipSpace(s, 3) == 3;
    }
    SingleDigit(s, 2, 3);
    SingleDigit(s, 1, 1);
    assert List([Fixnum(1), Fixnum(2), Fixnum(3)]) == Pair(Fixnum(1), Pair(Fixnum(2), Pair(Fixnum(3), Nil)));
  }

  /** An atom that ends before a non-atom character, no longer than 32. */
  lemma {:induction false} AtomEndAt(s: string, p: nat, e: nat, limit: nat)
    requires p <= e <= |s| && e - p <= limit
    requires forall i :: p <= i < e ==> IsAtomChar(s[i])
    requires !IsAtomChar(CharAt(s, e))
    ensures AtomEnd(s, p, limit) == e
    decreases e - p
  {
    if p < e {
      AtomEndAt(s, p + 1, e, limit - 1);
    }
  }

  /** A word of atom characters after whitespace reads as that atom. */
  lemma WordAt(s: string, pos: nat, q: nat, e: nat)
    requires pos <= q < e <= |s| && e - q <= ATOM_MAX && SkipSpace(s, pos) == q
    requires forall i :: q <= i < e ==> IsAtomChar(s[i])
    requires !IsAtomChar(CharAt(s, e))
    ensures ReadRec(s, pos) == Parsed(Atom(s[q..e]), e)
  {
    AtomEndAt(s, q, e, ATOM_MAX);
  }

  /** A word: one to 32 letters. */
  predicate Word(w: string) {
    1 <= |w| <= ATOM_MAX && forall i :: 0 <= i < |w| ==> IsAlpha(w[i])
  }

  /** One element read at `pos`, then the rest of the list: the pair of the two. */
  lemma ListCons(s: string, pos: nat, first: Node, mid: nat, rest: Node, end: nat)
    requires pos <= |s| && CharAt(s, pos) != ')'
    requires ReadRec(s, pos) == Parsed(first, mid) && ReadList(s, mid) == Parsed(rest, end)
    ensures ReadList(s, pos) == Parsed(Pair(first, rest), end)
  {
    ListShape(s, pos);
  }

  /** A `(` after whitespace opens a list that reads as its elements. */
  lemma ListOpen(s: string, pos: nat, q: nat, node: Node, end: nat)
    requires pos <= q < |s| && SkipSpace(s, pos) == q && s[q] == '('
    requires ReadList(s, q + 1) == Parsed(node, end)
    ensures ReadRec(s, pos) == Parsed(node, end)
  {
    ReadsList(s, pos);
  }

  /** Two atoms separated by one space, then `)`, read inside a list. */
  lemma TwoAtoms(s: string, p: nat, m: nat, e: nat)
    requires p < m && m + 1 < e < |s| && m - p <= ATOM_MAX && e - (m + 1) <= ATOM_MAX
    requires forall i :: p <= i < m ==> IsAtomChar(s[i])
    requires forall i :: m + 1 <= i < e ==> IsAtomChar(s[i])
    requires s[m] == ' ' && s[e] == ')'
    ensures ReadList(s, p) == Parsed(Pair(Atom(s[p..m]), Pair(Atom(s[m + 1..e]), Nil)), e + 1)
  {
    WordAt(s, p, p, m);
    assert SkipSpace(s, m) == m + 1 by {
      assert SkipSpace(s, m + 1) == m + 1;
    }
    WordAt(s, m, m + 1, e);
    ListShape(s, e);
    ListCons(s, m, Atom(s[m + 1..e]), e, Nil, e + 1);
    ListCons(s, p, Atom(s[p..m]), m, Pair(Atom(s[m + 1..e]), Nil), e + 1);
  }

  /** Where the characters of `a b)` lie. */
  lemma PairTextLayout(a: string, b: string)
    ensures var w := a + " " + b + ")";
            && |w| == |a| + |b| + 2 && w[|a|] == ' ' && w[|a| + 1 + |b|] == ')'
            && w[..|a|] == a && w[|a| + 1..|a| + 1 + |b|] == b
  {
    var w := a + " " + b + ")";
    assert w == (a + " ") + (b + ")");
    assert (a + " ")[|a|] == ' ';
    assert (b + ")")[|b|] == ')';
  }

  /** `a b)` read inside a list: the list of the two atoms, after the `)`. */
  lemma TwoWords(s: string, p: nat, a: string, b: string)
    requires Word(a) && Word(b)
    requires p + |a| + |b| + 2 <= |s| && s[p..p + |a| + |b| + 2] == a + " " + b + ")"
    ensures ReadList(s, p) == Parsed(Pair(Atom(a), Pair(Atom(b), Nil)), p + |a| + |b| + 2)
  {
    var m := p + |a|;
    var e := m + 1 + |b|;
    var w := s[p..e + 1];
    PairTextLayout(a, b);
    assert s[p..m] == w[..|a|] == a;
    assert s[m + 1..e] == w[|a| + 1..|a| + 1 + |b|] == b;
    assert s[m] == w[|a|] == ' ';
    assert s[e] == w[|a| + 1 + |b|] == ')';
    assert forall i :: p <= i < m ==> s[i] == a[i - p];
    assert forall i :: m + 1 <= i < e ==> s[i] == b[i - m - 1];
    TwoAtoms(s, p, m, e);
  }

  /** `(c d))` after the space at `k`: the last element of the outer list. */
  lemma LastList(s: string, k: nat, second: Node, n: nat)
    requires k + 1 < n < |s| && s[k] == ' ' && s[k + 1] == '(' && s[n] == ')'
    requires ReadList(s, k + 2) == Parsed(second, n)
    ensures ReadList(s, k) == Parsed(Pair(second, Nil), n + 1)
  {
    assert SkipSpace(s, k) == k + 1 by {
      assert SkipSpace(s, k + 1) == k + 1;
    }
    ListOpen(s, k, k + 1, second, n);
    ListShape(s, n);
    ListCons(s, k, second, n, Nil, n + 1);
  }

  /** `((`, a first list ending at `k`, then the rest of the outer list. */
  lemma OuterList(s: string, first: Node, k: nat, rest: Node, end: nat)
    requires 2 <= k <= |s| && s[0] == '(' && s[1] == '('
    requires ReadList(s, 2) == Parsed(first, k) && ReadList(s, k) == Parsed(rest, end)
    ensures Read(s) == Parsed(Pair(first, rest), end)
  {
    assert SkipSpace(s, 1) == 1;
    ListOpen(s, 1, 1, first, k);
    ListCons(s, 1, first, k, rest, end);
    assert SkipSpace(s, 0) == 0;
    ListOpen(s, 0, 0, Pair(first, rest), end);
  }

  /** Where the pieces of `((a b) (c d))` lie. */
  lemma NestedLayout(s: string, a: string, b: string, c: string, d: string)
    requires s == "((" + a + " " + b + ") (" + c + " " + d + "))"
    ensures var k := 2 + |a| + |b| + 2;
            var n := k + 2 + |c| + |d| + 2;
            && |s| == n + 1
            && s[0] == '(' && s[1] == '(' && s[k] == ' ' && s[k + 1] == '(' && s[n] == ')'
            && s[2..k] == a + " " + b + ")" && s[k + 2..n] == c + " " + d + ")"
  {
    var k := 2 + |a| + |b| + 2;
    var x := a + " " + b + ")";
    var y := c + " " + d + ")";
    assert s == "((" + x + " (" + y + ")";
  }

  /** Two lists of two words each, inside a list: `((a b) (c d))` with
      the second list at `k + 1` and the closing parenthesis at `n`. */
  lemma NestedPairs(s: string, a: string, b: string, c: string, d: string, k: nat, n: nat)
    requires Word(a) && Word(b) && Word(c) && Word(d)
    requires k == 2 + |a| + |b| + 2 && n == k + 2 + |c| + |d| + 2 && |s| == n + 1
    requires s[0] == '(' && s[1] == '(' && s[k] == ' ' && s[k + 1] == '(' && s[n] == ')'
    requires s[2..k] == a + " " + b + ")" && s[k + 2..n] == c + " " + d + ")"
    ensures Read(s) == Parsed(Pair(Pair(Atom(a), Pair(Atom(b), Nil)), Pair(Pair(Atom(c), Pair(Atom(d), Nil)), Nil)), |s|)
  {
    TwoWords(s, 2, a, b);
    TwoWords(s, k + 2, c, d);
    var second := Pair(Atom(c), Pair(Atom(d), Nil));
    LastList(s, k, second, n);
    OuterList(s, Pair(Atom(a), Pair(Atom(b), Nil)), k, Pair(second, Nil), n + 1);
  }

  /** `read_with_nested_list_returns_list`: two lists of two atoms each. */
  lemma GoldenNestedList()
    ensures Read("((hello world) (foo bar))")
            == Parsed(List([List([Atom("hello"), Atom("world")]), List([Atom("foo"), Atom("bar")])]), 25)
  {
    assert "((hello world) (foo bar))" == "((" + "hello" + " " + "world" + ") (" + "foo" + " " + "bar" + "))";
    assert Word("hello") && Word("world") && Word("foo") && Word("bar");
    NestedLayout("((hello world) (foo bar))", "hello", "world", "foo", "bar");
    NestedPairs("((hello world) (foo bar))", "hello", "world", "foo", "bar", 14, 24);
    assert List([Atom("hello"), Atom("world")]) == Pair(Atom("hello"), Pair(Atom("world"), Nil));
    assert List([Atom("foo"), Atom("bar")]) == Pair(Atom("foo"), Pair(Atom("bar"), Nil));
    assert List([List([Atom("hello"), Atom("world")]), List([Atom("foo"), Atom("bar")])])
           == Pair(List([Atom("hello"), Atom("world")]), Pair(List([Atom("foo"), Atom("bar")]), Nil));
  }
}
