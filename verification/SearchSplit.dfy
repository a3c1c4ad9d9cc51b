/** Where REGEXP_TEXT_SEARCH cuts its arguments: at the first " IN " of their text, in any letter case, wherever it
    stands. */
module SearchSplit {
  import opened Errors
  import opened Decimal
  import opened Lexer
  import opened Expansion
  import opened Balance

  const SEARCH := Balance.SEARCH

  /** strings.ToUpper on bytes. */
  function UpperByte(c: char): char {
    if 'a' <= c <= 'z' then 'A' + (c - 'a') else c
  }

  function Upper(u: string): (v: string)
    ensures |v| == |u| && forall i :: 0 <= i < |u| ==> v[i] == UpperByte(u[i])
  {
    seq(|u|, i requires 0 <= i < |u| => UpperByte(u[i]))
  }

  /** " IN " stands at k, in any letter case. */
  predicate InAt(u: string, k: int) {
    0 <= k && k + 4 <= |u| && u[k] == ' ' && UpperByte(u[k + 1]) == 'I' && UpperByte(u[k + 2]) == 'N' && u[k + 3] == ' '
  }

  /** Where the handler cuts. */
  function Cut(args: string): (i: Option<nat>) {
    Find(Upper(args), " IN ")
  }

  predicate Occurs(u: string, pat: string, k: int) {
    0 <= k && k + |pat| <= |u| && u[k..k + |pat|] == pat
  }

  lemma {:induction false} FindFirst(u: string, pat: string)
    ensures var at := Find(u, pat);
      && (at.Some? ==> Occurs(u, pat, at.value))
      && forall k :: Occurs(u, pat, k) ==> at.Some? && at.value <= k
  {
    assert |pat| <= |u| ==> u[0..|pat|] == u[..|pat|];
    if !Occurs(u, pat, 0) && u != "" {
      FindFirst(u[1..], pat);
      OccursNext(u, pat);
    }
  }

  lemma OccursNext(u: string, pat: string)
    requires u != ""
    ensures forall k :: 0 < k ==> (Occurs(u, pat, k) <==> Occurs(u[1..], pat, k - 1))
  {
    forall k | 0 < k
      ensures Occurs(u, pat, k) <==> Occurs(u[1..], pat, k - 1)
    {
      assert k + |pat| <= |u| ==> u[k..k + |pat|] == u[1..][k - 1..k - 1 + |pat|];
    }
  }

  lemma InOccurs(u: string, k: int)
    ensures InAt(u, k) <==> Occurs(Upper(u), " IN ", k)
  {
    if 0 <= k && k + 4 <= |u| {
      var v := Upper(u)[k..k + 4];
      assert v == [UpperByte(u[k]), UpperByte(u[k + 1]), UpperByte(u[k + 2]), UpperByte(u[k + 3])];
      assert " IN " == [' ', 'I', 'N', ' '];
      assert v == " IN " <==> v[0] == ' ' && v[1] == 'I' && v[2] == 'N' && v[3] == ' ';
    }
  }

  /** Cut finds the first " IN ". */
  lemma CutIsFirst(u: string, k: nat)
    ensures Cut(u) == Some(k) <==> InAt(u, k) && forall j :: 0 <= j < k ==> !InAt(u, j)
  {
    FindFirst(Upper(u), " IN ");
    forall j
      ensures InAt(u, j) <==> Occurs(Upper(u), " IN ", j)
    {
      InOccurs(u, j);
    }
    if Cut(u).Some? {
      assert Occurs(Upper(u), " IN ", Cut(u).value);
    }
  }

  // ----- Scanning for " IN " from left to right -----

  /** How many bytes of " IN " the text read so far ends with; 4 once it was seen. */
  function Feed(q: nat, c: char): (r: nat)
    ensures q <= 4 ==> r <= 4
  {
    if q >= 4 then q
    else if q == 3 && c == ' ' then 4
    else if c == ' ' then 1
    else if q == 1 && UpperByte(c) == 'I' then 2
    else if q == 2 && UpperByte(c) == 'N' then 3
    else 0
  }

  function Scan(q: nat, u: string): (r: nat)
    ensures q <= 4 ==> r <= 4
    ensures q >= 4 ==> r == q
    decreases |u|
  {
    if u == "" then q else Scan(Feed(q, u[0]), u[1..])
  }

  lemma {:induction false} ScanAppend(q: nat, a: string, b: string)
    ensures Scan(q, a + b) == Scan(Scan(q, a), b)
    decreases |a|
  {
    if a == "" {
      assert a + b == b;
    } else {
      ScanAppend(Feed(q, a[0]), a[1..], b);
      assert (a + b)[1..] == a[1..] + b;
    }
  }

  predicate EndsWith(u: string, n: nat)
    requires n <= 3
  {
    && |u| >= n
    && (n >= 1 ==> u[|u| - n] == ' ') && (n >= 2 ==> UpperByte(u[|u| - n + 1]) == 'I')
    && (n >= 3 ==> UpperByte(u[|u| - 1]) == 'N')
  }

  /** The scan knows whether " IN " was seen, and what the text ends with. */
  lemma {:induction false} ScanMeans(u: string)
    ensures var q := Scan(0, u);
      && (q == 4 <==> exists k :: InAt(u, k))
      && (q < 4 ==> forall n: nat :: 1 <= n <= 3 ==> (EndsWith(u, n) <==> q == n))
    decreases |u|
  {
    if u != "" {
      var v, c := u[..|u| - 1], u[|u| - 1];
      ScanMeans(v);
      ScanAppend(0, v, [c]);
      assert u == v + [c] && [c][1..] == "";
      assert Scan(0, u) == Feed(Scan(0, v), c);
      SeenLater(v, c);
      var q := Scan(0, v);
      if q < 4 {
        assert EndsWith(v, 1) <==> q == 1;
        assert EndsWith(v, 2) <==> q == 2;
        assert EndsWith(v, 3) <==> q == 3;
      }
    }
  }

  lemma SeenLater(v: string, c: char)
    ensures (exists k :: InAt(v + [c], k)) <==> (exists k :: InAt(v, k)) || (EndsWith(v, 3) && c == ' ')
  {
    var u := v + [c];
    if k :| InAt(v, k) {
      assert InAt(u, k);
    }
    if k :| InAt(u, k) {
      if k + 4 <= |v| {
        assert InAt(v, k);
      }
    }
    if EndsWith(v, 3) && c == ' ' {
      assert InAt(u, |v| - 3);
    }
  }

  // ----- Trees -----

  /** The scan over the text of a tree, which no placeholder takes part in. */
  function NodesState(ns: Sql, q: nat): (r: nat)
    ensures q >= 4 ==> r == q
    decreases ns, 1
  {
    if ns == [] then q else NodesState(ns[1..], NodeState(ns[0], q))
  }

  function NodeState(n: Node, q: nat): (r: nat)
    ensures q >= 4 ==> r == q
    decreases n, 2
  {
    match n
    case Text(s) => Scan(q, s)
    case Ph(_) => if q >= 4 then q else 0
    case Call(name, args) => Scan(CallState(name, args, Scan(Scan(q, name), "(")), ")")
  }

  function CallState(name: string, args: seq<Expr>, q: nat): (r: nat)
    ensures q >= 4 ==> r == q
    decreases args, 1
  {
    if name == SEARCH && args != [] then ArgsState(args[1..], Scan(NodesState(args[0].nodes, q), " IN "))
    else ArgsState(args, q)
  }

  function ArgsState(args: seq<Expr>, q: nat): (r: nat)
    ensures q >= 4 ==> r == q
    decreases args, 0
  {
    if args == [] then q
    else if |args| == 1 then NodesState(args[0].nodes, q)
    else ArgsState(args[1..], Scan(NodesState(args[0].nodes, q), ","))
  }

  /** An expression whose text, with the blank that follows it, holds an " IN " of its own. */
  predicate HidesIn(ns: Sql) {
    NodesState(ns, 0) >= 3
  }

  lemma {:induction false} ScanPlain(q: nat, u: string)
    requires u != "" && forall i :: 0 <= i < |u| ==> u[i] == '?' || u[i] == '$' || IsDigit(u[i])
    ensures Scan(q, u) == if q >= 4 then q else 0
  {
    if |u| > 1 {
      ScanPlain(Feed(q, u[0]), u[1..]);
    } else {
      assert u[1..] == "";
    }
  }

  /** The scan of a tree is the scan of its text. */
  lemma {:induction false} NodesScan(ns: Sql, q: nat)
    ensures NodesState(ns, q) == Scan(q, Render(ns))
    decreases ns, 1
  {
    if ns != [] {
      NodeScan(ns[0], q);
      NodesScan(ns[1..], NodeState(ns[0], q));
      ScanAppend(q, RenderNode(ns[0]), Render(ns[1..]));
    }
  }

  lemma {:induction false} NodeScan(n: Node, q: nat)
    ensures NodeState(n, q) == Scan(q, RenderNode(n))
    decreases n, 2
  {
    match n {
      case Text(_) =>
      case Ph(p) => ScanPlain(q, RenderPh(p));
      case Call(name, args) =>
        var a := RenderCall(name, args);
        CallScan(name, args, Scan(Scan(q, name), "("));
        ScanAppend(q, name, "(" + a + ")");
        ScanAppend(Scan(q, name), "(" + a, ")");
        ScanAppend(Scan(q, name), "(", a);
    }
  }

  lemma {:induction false} CallScan(name: string, args: seq<Expr>, q: nat)
    ensures CallState(name, args, q) == Scan(q, RenderCall(name, args))
    decreases args, 1
  {
    if name == SEARCH && args != [] {
      var u, v := Render(args[0].nodes), RenderArgs(args[1..]);
      NodesScan(args[0].nodes, q);
      ScanAppend(q, u, " IN " + v);
      ScanAppend(Scan(q, u), " IN ", v);
      ArgsScan(args[1..], Scan(Scan(q, u), " IN "));
    } else {
      ArgsScan(args, q);
    }
  }

  lemma {:induction false} ArgsScan(args: seq<Expr>, q: nat)
    ensures ArgsState(args, q) == Scan(q, RenderArgs(args))
    decreases args, 0
  {
    if args != [] {
      var u := Render(args[0].nodes);
      NodesScan(args[0].nodes, q);
      if |args| == 1 {
        assert u + "" == u;
      } else {
        var v := RenderArgs(args[1..]);
        ScanAppend(q, u, "," + v);
        ScanAppend(Scan(q, u), ",", v);
        ArgsScan(args[1..], Scan(Scan(q, u), ","));
      }
    }
  }

  // ----- The cut -----

  /** An " IN " before a separator is one of the text before it and the blank. */
  lemma InBefore(u: string, v: string, j: int)
    requires j < |u|
    ensures InAt(u + (" IN " + v), j) <==> InAt(u, j) || (j == |u| - 3 && EndsWith(u, 3))
  {
  }

  /** The handler cuts a call's text where its columns start if and only if what it searches for hides no " IN ". */
  lemma CutsAtSeparator(search: Expr, cols: seq<Expr>)
    ensures var (u, text) := (Render(search.nodes), RenderCall(SEARCH, [search] + cols));
      && (Cut(text) == Some(|u|) <==> !HidesIn(search.nodes))
      && text[..|u|] == u && text[|u| + 4..] == RenderArgs(cols)
  {
    var u, v := Render(search.nodes), RenderArgs(cols);
    assert ([search] + cols)[1..] == cols;
    var text := u + (" IN " + v);
    CutIsFirst(text, |u|);
    SeparatorAt(u, v);
    NodesScan(search.nodes, 0);
    NoneBefore(u, v);
  }

  lemma SeparatorAt(u: string, v: string)
    ensures InAt(u + (" IN " + v), |u|)
  {
    var text := u + (" IN " + v);
    assert text[|u|..|u| + 4] == " IN ";
    assert text[|u|] == ' ' && text[|u| + 1] == 'I' && text[|u| + 2] == 'N' && text[|u| + 3] == ' ';
  }

  lemma NoneBefore(u: string, v: string)
    ensures (forall j :: 0 <= j < |u| ==> !InAt(u + (" IN " + v), j)) <==> Scan(0, u) < 3
  {
    var text := u + (" IN " + v);
    ScanMeans(u);
    forall j | 0 <= j < |u|
      ensures InAt(text, j) <==> InAt(u, j) || (j == |u| - 3 && EndsWith(u, 3))
    {
      InBefore(u, v, j);
    }
    if Scan(0, u) == 3 {
      assert EndsWith(u, 3) && InAt(text, |u| - 3);
    } else if Scan(0, u) == 4 {
      var k :| InAt(u, k);
      assert InAt(text, k);
    } else {
      assert !EndsWith(u, 3);
    }
  }

  /** A call of REGEXP_TEXT_SEARCH inside the expression of another is cut in the wrong place. */
  lemma NestedSearchHides(args: seq<Expr>, before: Sql, after: Sql)
    requires args != []
    ensures HidesIn(before + [Call(SEARCH, args)] + after)
  {
    var inner := Call(SEARCH, args);
    StateAppend(before + [inner], after, 0);
    StateAppend(before, [inner], 0);
    NodeSeen(SEARCH, args, NodesState(before, 0));
    NodesOne(inner, NodesState(before, 0));
  }

  lemma NodesOne(n: Node, q: nat)
    ensures NodesState([n], q) == NodeState(n, q)
  {
    assert [n][1..] == [];
  }

  lemma NodeSeen(name: string, args: seq<Expr>, q: nat)
    requires name == SEARCH && args != []
    ensures NodeState(Call(name, args), q) >= 4
  {
    InIsSeen(NodesState(args[0].nodes, Scan(Scan(q, name), "(")));
  }

  lemma {:induction false} StateAppend(a: Sql, b: Sql, q: nat)
    ensures NodesState(a + b, q) == NodesState(b, NodesState(a, q))
    decreases |a|
  {
    if a == [] {
      assert a + b == b;
    } else {
      StateAppend(a[1..], b, NodeState(a[0], q));
      assert (a + b)[1..] == a[1..] + b;
    }
  }

  lemma InIsSeen(q: nat)
    ensures Scan(q, " IN ") >= 4
  {
    var u := " IN ";
    assert u[1..] == "IN " && "IN "[1..] == "N " && "N "[1..] == " " && " "[1..] == "";
  }

  /** The cut is at an " IN " in any letter case. */
  lemma AnyCase(i: char, n: char)
    ensures InAt([' ', i, n, ' '], 0) <==> (i == 'I' || i == 'i') && (n == 'N' || n == 'n')
  {
  }
}
