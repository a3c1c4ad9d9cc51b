/** When every pass over the text of a statement stays the pass over its tree: calls and arguments stand between bytes
    that join with nothing. */
module Separation {
  import opened Errors
  import opened Decimal
  import opened Lexer
  import opened Expansion
  import opened Balance
  import opened TextExpansion
  import opened TreeText

  // ----- Bytes that join with nothing -----

  /** A byte that joins with nothing before it, and reads the same behind anything. */
  predicate StartsApart(b: char) {
    !IsWordByte(b) && b !in "'\"`]-*("
  }

  /** A byte that joins with nothing behind it, and behind which everything reads as at the start of a statement. */
  predicate EndsApart(a: char) {
    !IsIdentByte(a) && a !in "'\"`]-/"
  }

  predicate Front(u: string) {
    u == "" || StartsApart(u[0])
  }

  predicate Back(u: string) {
    u == "" || EndsApart(u[|u| - 1])
  }

  /** Joined from where a tree's first node starts, if it has one, to what follows. */
  predicate NodeFront(n: Node) {
    match n
    case Text(s) => s != "" && StartsApart(s[0])
    case Ph(_) => true
    case Call(_, _) => false
  }

  /** A registered call may be replaced by anything. */
  predicate NodeBack(reg: Registry, n: Node) {
    match n
    case Text(s) => s != "" && EndsApart(s[|s| - 1])
    case Ph(_) => false
    case Call(name, _) => name !in reg
  }

  predicate SqlFront(ns: Sql, r: bool) {
    if ns == [] then r else NodeFront(ns[0])
  }

  predicate SqlBack(reg: Registry, l: bool, ns: Sql) {
    if ns == [] then l else NodeBack(reg, ns[|ns| - 1])
  }

  // ----- Separate trees -----

  /** Text that is closed by itself, with an apart byte on each side, its own or its neighbour's. */
  ghost predicate SeparateText(d: Driver, vfs: TextRegistry, l: bool, s: string, r: bool) {
    s != "" && (l || StartsApart(s[0])) && (r || EndsApart(s[|s| - 1])) && ClosedAlone(d, vfs, "", s)
  }

  /** Calls and texts stand apart; l and r say whether what is before and behind does. */
  ghost predicate Separate(d: Driver, vfs: TextRegistry, reg: Registry, l: bool, ns: Sql, r: bool)
    decreases ns, 1
  {
    ns == [] ||
    (SeparateNode(d, vfs, reg, l, ns[0], SqlFront(ns[1..], r))
      && Separate(d, vfs, reg, NodeBack(reg, ns[0]), ns[1..], r))
  }

  ghost predicate SeparateNode(d: Driver, vfs: TextRegistry, reg: Registry, l: bool, n: Node, r: bool)
    decreases n, 2
  {
    match n
    case Text(s) => SeparateText(d, vfs, l, s, r)
    case Ph(_) => true
    case Call(name, args) =>
      && l && (forall i :: 0 <= i < |name| ==> IsWordByte(name[i]))
      && (name in reg <==> Key(name) in vfs)
      && (name in reg ==> r && Registered(d, vfs, reg, name, args))
      && SeparateArgs(d, vfs, reg, args)
  }

  ghost predicate SeparateArgs(d: Driver, vfs: TextRegistry, reg: Registry, args: seq<Expr>)
    decreases args, 0
  {
    args == [] || (Separate(d, vfs, reg, true, args[0].nodes, true) && SeparateArgs(d, vfs, reg, args[1..]))
  }

  /** A registered call whose handler writes its arguments apart from the text around them. */
  ghost predicate Registered(d: Driver, vfs: TextRegistry, reg: Registry, name: string, args: seq<Expr>)
    requires name in reg && Key(name) in vfs
  {
    && name != "" && !IsDigitByte(name[0]) && ParsedCall(name, args) && Answers(vfs, reg, name, args)
    && (reg[name](args).Some? ==> SeparatePieces(d, vfs, true, reg[name](args).value, true))
  }

  predicate PiecesFront(pieces: seq<Piece>, r: bool) {
    if pieces == [] then r else pieces[0].Lit? && NodeFront(Text(pieces[0].s))
  }

  predicate PieceBack(piece: Piece) {
    piece.Lit? && piece.s != "" && EndsApart(piece.s[|piece.s| - 1])
  }

  ghost predicate SeparatePieces(d: Driver, vfs: TextRegistry, l: bool, pieces: seq<Piece>, r: bool)
    decreases |pieces|
  {
    pieces == [] ||
    (var r1 := PiecesFront(pieces[1..], r);
      && (if pieces[0].Lit? then SeparateText(d, vfs, l, pieces[0].s, r1) else l && r1)
      && SeparatePieces(d, vfs, PieceBack(pieces[0]), pieces[1..], r))
  }

  // ----- A separate tree is what its text reads as -----

  /** Text reads the same behind any two texts with the same end, if what is before that end is apart. */
  lemma HopHere(d: Driver, vfs: TextRegistry, f: string, g: string, x: string, u: string)
    requires u != "" && ((Back(f) && Back(g)) || (x != "" && StartsApart(x[0])))
    ensures Hop(d, vfs, f + x, u) == Hop(d, vfs, g + x, u)
  {
    SameEnd(d, f, g, x);
  }

  lemma SameEnd(d: Driver, f: string, g: string, x: string)
    requires (Back(f) && Back(g)) || (x != "" && StartsApart(x[0]))
    ensures EscapeString(d, f + x) == EscapeString(d, g + x)
    ensures (f + x == "" || !IsIdentByte((f + x)[|f + x| - 1])) == (g + x == "" || !IsIdentByte((g + x)[|g + x| - 1]))
  {
  }

  lemma {:induction false} ClosedHere(d: Driver, vfs: TextRegistry, f: string, g: string, x: string, s: string)
    requires (Back(f) && Back(g)) || (x != "" && StartsApart(x[0]))
    requires ClosedAlone(d, vfs, f + x, s)
    ensures ClosedAlone(d, vfs, g + x, s)
    decreases |s|
  {
    if s != "" {
      var n := Hop(d, vfs, f + x, s + " ");
      HopHere(d, vfs, f, g, x, s + " ");
      assert f + x + s[..n] == f + (x + s[..n]) && g + x + s[..n] == g + (x + s[..n]);
      ClosedHere(d, vfs, f, g, x + s[..n], s[n..]);
    }
  }

  lemma TextHere(d: Driver, vfs: TextRegistry, before: string, s: string)
    requires ClosedAlone(d, vfs, "", s) && s != "" && (Back(before) || StartsApart(s[0]))
    ensures ClosedAlone(d, vfs, before, s)
  {
    assert before + "" == before && "" + "" == "";
    if Back(before) {
      ClosedHere(d, vfs, "", before, "", s);
    } else {
      var n := Hop(d, vfs, "", s + " ");
      assert Hop(d, vfs, before, s + " ") == n;
      assert "" + s[..n] == s[..n];
      ClosedHere(d, vfs, "", before, s[..n], s[n..]);
    }
  }

  lemma TextReads(d: Driver, vfs: TextRegistry, l: bool, before: string, s: string, rest: string, r: bool)
    requires SeparateText(d, vfs, l, s, r) && (l ==> Back(before)) && (r ==> Front(rest))
    ensures Closed(Turns(d, vfs), before, s, rest)
  {
    TextHere(d, vfs, before, s);
    ClosedByItself(d, vfs, before, s, rest);
  }

  lemma FrontRendered(ns: Sql, r: bool, rest: string)
    requires SqlFront(ns, r) && (r ==> Front(rest))
    ensures Front(Render(ns) + rest)
  {
    if ns == [] {
      assert Render(ns) + rest == rest;
    } else {
      assert RenderNode(ns[0]) != "" && (Render(ns) + rest)[0] == RenderNode(ns[0])[0];
    }
  }

  lemma BackRendered(reg: Registry, before: string, n: Node)
    requires NodeBack(reg, n)
    ensures Back(before + RenderNode(n))
  {
  }

  lemma {:induction false} SeparateReads(d: Driver, vfs: TextRegistry, reg: Registry, l: bool, before: string, ns: Sql,
                                         rest: string, r: bool)
    requires Separate(d, vfs, reg, l, ns, r) && (l ==> Back(before)) && (r ==> Front(rest))
    ensures Reads(d, vfs, reg, before, ns, rest)
    decreases ns, 1
  {
    if ns != [] {
      var n, more := ns[0], ns[1..];
      var r1, l1 := SqlFront(more, r), NodeBack(reg, n);
      if r1 {
        FrontRendered(more, r, rest);
      }
      if l1 {
        BackRendered(reg, before, n);
      }
      NodeReads(d, vfs, reg, l, before, n, Render(more) + rest, r1);
      SeparateReads(d, vfs, reg, l1, before + RenderNode(n), more, rest, r);
    }
  }

  lemma {:induction false} NodeReads(d: Driver, vfs: TextRegistry, reg: Registry, l: bool, before: string, n: Node,
                                     rest: string, r: bool)
    requires SeparateNode(d, vfs, reg, l, n, r) && (l ==> Back(before)) && (r ==> Front(rest))
    ensures ReadsNode(d, vfs, reg, before, n, rest)
    decreases n, 2
  {
    match n {
      case Text(s) => TextReads(d, vfs, l, before, s, rest, r);
      case Ph(_) =>
      case Call(name, args) =>
        if name !in reg {
          CallReads(d, vfs, reg, before + name + "(", name, args, ")" + rest);
        }
    }
  }

  lemma {:induction false} CallReads(d: Driver, vfs: TextRegistry, reg: Registry, before: string, name: string,
                                     args: seq<Expr>, rest: string)
    requires SeparateArgs(d, vfs, reg, args) && Back(before) && Front(rest)
    ensures ReadsCall(d, vfs, reg, before, name, args, rest)
    decreases args, 1
  {
    if name == SEARCH && args != [] {
      var u, v := Render(args[0].nodes), RenderArgs(args[1..]);
      assert (" IN " + v + rest)[0] == ' ';
      SeparateReads(d, vfs, reg, true, before, args[0].nodes, " IN " + v + rest, true);
      ArgsRead(d, vfs, reg, before + u + " IN ", args[1..], rest);
    } else {
      ArgsRead(d, vfs, reg, before, args, rest);
    }
  }

  lemma {:induction false} ArgsRead(d: Driver, vfs: TextRegistry, reg: Registry, before: string, args: seq<Expr>,
                                    rest: string)
    requires SeparateArgs(d, vfs, reg, args) && Back(before) && Front(rest)
    ensures ReadsArgs(d, vfs, reg, before, args, rest)
    decreases args, 0
  {
    if |args| == 1 {
      SeparateReads(d, vfs, reg, true, before, args[0].nodes, rest, true);
    } else if args != [] {
      var u, v := Render(args[0].nodes), "," + RenderArgs(args[1..]) + rest;
      assert v[0] == ',';
      SeparateReads(d, vfs, reg, true, before, args[0].nodes, v, true);
      ArgsRead(d, vfs, reg, before + u + ",", args[1..], rest);
    }
  }

  // ----- A pass keeps a tree separate -----

  lemma {:induction false} Looser(d: Driver, vfs: TextRegistry, reg: Registry, l: bool, ns: Sql, r: bool, l': bool,
                                  r': bool)
    requires Separate(d, vfs, reg, l, ns, r) && (l ==> l') && (r ==> r')
    ensures Separate(d, vfs, reg, l', ns, r')
    decreases |ns|
  {
    if ns != [] {
      Looser(d, vfs, reg, NodeBack(reg, ns[0]), ns[1..], r, NodeBack(reg, ns[0]), r');
    }
  }

  lemma EdgesJoin(reg: Registry, l: bool, a: Sql, b: Sql, r: bool)
    ensures SqlFront(a + b, r) == SqlFront(a, SqlFront(b, r))
    ensures SqlBack(reg, l, a + b) == SqlBack(reg, SqlBack(reg, l, a), b)
  {
    assert a + [] == a && [] + b == b;
  }

  lemma {:induction false} SeparateJoin(d: Driver, vfs: TextRegistry, reg: Registry, l: bool, a: Sql, b: Sql, r: bool)
    requires Separate(d, vfs, reg, l, a, SqlFront(b, r)) && Separate(d, vfs, reg, SqlBack(reg, l, a), b, r)
    ensures Separate(d, vfs, reg, l, a + b, r)
    decreases |a|
  {
    if a == [] {
      assert a + b == b;
    } else {
      var l1, more := NodeBack(reg, a[0]), a[1..];
      assert SqlBack(reg, l1, more) == SqlBack(reg, l, a);
      SeparateJoin(d, vfs, reg, l1, more, b, r);
      EdgesJoin(reg, l1, more, b, r);
      SeparateMore(d, vfs, reg, l, a[0], more + b, r);
      assert a + b == [a[0]] + (more + b);
    }
  }

  lemma SeparateMore(d: Driver, vfs: TextRegistry, reg: Registry, l: bool, n: Node, ns: Sql, r: bool)
    requires SeparateNode(d, vfs, reg, l, n, SqlFront(ns, r)) && Separate(d, vfs, reg, NodeBack(reg, n), ns, r)
    ensures Separate(d, vfs, reg, l, [n] + ns, r)
  {
    assert ([n] + ns)[1..] == ns;
  }

  /** What replaces a separate piece of a tree is separate in the same place, and stands apart where it did. */
  ghost predicate Replaces(d: Driver, vfs: TextRegistry, reg: Registry, l: bool, front: bool, back: bool, out: Sql,
                           r: bool)
  {
    Separate(d, vfs, reg, l, out, r) && (front ==> SqlFront(out, r)) && (back ==> SqlBack(reg, l, out))
  }

  lemma ReplacesJoin(d: Driver, vfs: TextRegistry, reg: Registry, l: bool, front: bool, back: bool, a: Sql,
                     front': bool, back': bool, b: Sql, r: bool)
    requires Replaces(d, vfs, reg, l, front, back, a, front') && Replaces(d, vfs, reg, back, front', back', b, r)
    ensures Replaces(d, vfs, reg, l, front, back', a + b, r)
  {
    Looser(d, vfs, reg, l, a, front', l, SqlFront(b, r));
    Looser(d, vfs, reg, back, b, r, SqlBack(reg, l, a), r);
    SeparateJoin(d, vfs, reg, l, a, b, r);
    EdgesJoin(reg, l, a, b, r);
  }

  lemma {:induction false} ArgSeparate(d: Driver, vfs: TextRegistry, reg: Registry, args: seq<Expr>, i: nat)
    requires SeparateArgs(d, vfs, reg, args) && i < |args|
    ensures Separate(d, vfs, reg, true, args[i].nodes, true)
    decreases |args|
  {
    if i > 0 {
      ArgSeparate(d, vfs, reg, args[1..], i - 1);
    }
  }

  /** What a handler writes is separate. */
  lemma {:induction false} FillSeparate(d: Driver, vfs: TextRegistry, reg: Registry, l: bool, pieces: seq<Piece>,
                                        args: seq<Expr>, r: bool)
    requires SeparatePieces(d, vfs, l, pieces, r) && SeparateArgs(d, vfs, reg, args)
    ensures Replaces(d, vfs, reg, l, PiecesFront(pieces, r), false, Fill(pieces, args), r)
    decreases |pieces|
  {
    if pieces != [] {
      var piece, r1 := pieces[0], PiecesFront(pieces[1..], r);
      PieceSeparate(d, vfs, reg, l, piece, args, r1);
      FillSeparate(d, vfs, reg, PieceBack(piece), pieces[1..], args, r);
      ReplacesJoin(d, vfs, reg, l, PiecesFront(pieces, r), PieceBack(piece), PieceSql(piece, args), r1, false,
        Fill(pieces[1..], args), r);
    }
  }

  lemma PieceSeparate(d: Driver, vfs: TextRegistry, reg: Registry, l: bool, piece: Piece, args: seq<Expr>, r: bool)
    requires SeparateArgs(d, vfs, reg, args)
    requires if piece.Lit? then SeparateText(d, vfs, l, piece.s, r) else l && r
    ensures Replaces(d, vfs, reg, l, piece.Lit? && NodeFront(Text(piece.s)), PieceBack(piece), PieceSql(piece, args), r)
  {
    if piece.Lit? {
      OneSeparate(d, vfs, reg, l, Text(piece.s), r);
    } else if piece.i < |args| {
      ArgSeparate(d, vfs, reg, args, piece.i);
    }
  }

  lemma OneSeparate(d: Driver, vfs: TextRegistry, reg: Registry, l: bool, n: Node, r: bool)
    requires SeparateNode(d, vfs, reg, l, n, r)
    ensures Replaces(d, vfs, reg, l, NodeFront(n), NodeBack(reg, n), [n], r)
  {
    assert [n][1..] == [];
  }

  lemma {:induction false} PassSeparate(d: Driver, vfs: TextRegistry, reg: Registry, l: bool, ns: Sql, r: bool)
    requires Separate(d, vfs, reg, l, ns, r) && ExpandOnce(reg, ns).Some?
    ensures Replaces(d, vfs, reg, l, SqlFront(ns, r), SqlBack(reg, l, ns), ExpandOnce(reg, ns).value, r)
    decreases ns, 1
  {
    if ns != [] {
      var n, more := ns[0], ns[1..];
      var l1, r1 := NodeBack(reg, n), SqlFront(more, r);
      PassNodeSeparate(d, vfs, reg, l, n, r1);
      PassSeparate(d, vfs, reg, l1, more, r);
      assert SqlBack(reg, l1, more) == SqlBack(reg, l, ns);
      ReplacesJoin(d, vfs, reg, l, NodeFront(n), l1, ExpandNode(reg, n).value, r1, SqlBack(reg, l, ns),
        ExpandOnce(reg, more).value, r);
    }
  }

  lemma {:induction false} PassNodeSeparate(d: Driver, vfs: TextRegistry, reg: Registry, l: bool, n: Node, r: bool)
    requires SeparateNode(d, vfs, reg, l, n, r) && ExpandNode(reg, n).Some?
    ensures Replaces(d, vfs, reg, l, NodeFront(n), NodeBack(reg, n), ExpandNode(reg, n).value, r)
    decreases n, 2
  {
    if n.Call? && n.name in reg {
      FillSeparate(d, vfs, reg, true, reg[n.name](n.args).value, n.args, true);
    } else if n.Call? {
      PassArgsSeparate(d, vfs, reg, n.args);
      OneSeparate(d, vfs, reg, l, Call(n.name, ExpandArgs(reg, n.args).value), r);
    } else {
      OneSeparate(d, vfs, reg, l, n, r);
    }
  }

  lemma {:induction false} PassArgsSeparate(d: Driver, vfs: TextRegistry, reg: Registry, args: seq<Expr>)
    requires SeparateArgs(d, vfs, reg, args) && ExpandArgs(reg, args).Some?
    ensures SeparateArgs(d, vfs, reg, ExpandArgs(reg, args).value)
    decreases args, 0
  {
    if args != [] {
      PassSeparate(d, vfs, reg, true, args[0].nodes, true);
      PassArgsSeparate(d, vfs, reg, args[1..]);
      FirstArg(reg, args);
    }
  }

  /** A statement whose calls and texts stand apart, with handlers that write their arguments apart, reads as its text
      does in every pass; so the loop over its text ends with its full expansion. */
  lemma {:induction false} SeparateEveryPass(d: Driver, vfs: TextRegistry, reg: Registry, ns: Sql)
    requires Separate(d, vfs, reg, true, ns, true)
    ensures EveryPassReads(d, vfs, reg, ns)
    decreases Depth(reg, ns)
  {
    SeparateReads(d, vfs, reg, true, "", ns, "", true);
    if Depth(reg, ns) > 0 && ExpandOnce(reg, ns).Some? {
      PassDepth(reg, ns);
      PassSeparate(d, vfs, reg, true, ns, true);
      SeparateEveryPass(d, vfs, reg, ExpandOnce(reg, ns).value);
    }
  }

  // ----- Such statements exist -----

  /** A handler that puts another function in place of its own, on trees and on text. */
  function Renaming(args: seq<Expr>): Option<seq<Piece>> {
    if |args| == 1 then Some([Lit("G("), Arg(0), Lit(")")]) else None
  }

  function RenamingText(args: string): Option<string> {
    Some("G(" + args + ")")
  }

  const TREES: Registry := map["F" := Renaming]
  const TEXTS: TextRegistry := map["F" := RenamingText]

  lemma RenamingAnswers(args: seq<Expr>)
    requires |args| == 1 && Key("F") == "F"
    ensures Answers(TEXTS, TREES, "F", args)
  {
    var x := args[0].nodes;
    var pieces := [Lit("G("), Arg(0), Lit(")")];
    assert pieces[1..] == [Arg(0), Lit(")")] && pieces[1..][1..] == [Lit(")")] && pieces[1..][1..][1..] == [];
    var close: Sql := [Text(")")];
    assert Fill(pieces[1..][1..], args) == close + [] == close;
    assert Fill(pieces, args) == [Text("G(")] + (x + close);
    RenderAppend([Text("G(")], x + close);
    RenderAppend(x, close);
    RenderSingle(Text("G("));
    RenderSingle(Text(")"));
    assert Render(x) + "" == Render(x);
    assert "G(" + (Render(x) + ")") == "G(" + Render(x) + ")";
  }

  lemma LiteralsClosed(d: Driver, vfs: TextRegistry)
    requires "G" !in vfs
    ensures ClosedAlone(d, vfs, "", "G(") && ClosedAlone(d, vfs, "", ")")
  {
    var u := "G(" + " ";
    assert u[0] == 'G' && u[1] == '(' && u[1..] == "( ";
    assert WordLen("( ") == 0 && WordLen(u) == 1;
    assert u[..1] == "G" && Key("G") == "G";
    assert Hop(d, vfs, "", u) == 2 && "G("[2..] == "";
    assert Hop(d, vfs, "", ")" + " ") == 1 && ")"[1..] == "";
  }

  lemma RenamingSeparate(d: Driver, vfs: TextRegistry)
    requires "G" !in vfs
    ensures SeparatePieces(d, vfs, true, [Lit("G("), Arg(0), Lit(")")], true)
  {
    LiteralsClosed(d, vfs);
    var pieces := [Lit("G("), Arg(0), Lit(")")];
    assert pieces[1..] == [Arg(0), Lit(")")] && pieces[1..][1..] == [Lit(")")] && pieces[1..][1..][1..] == [];
    assert SeparatePieces(d, vfs, false, [Lit(")")], true);
    assert SeparatePieces(d, vfs, true, [Arg(0), Lit(")")], true);
  }

  /** A call of F around a tree. */
  function Wrapped(x: Sql): Sql {
    [Call("F", [Expr(x)])]
  }

  lemma WrappedSeparate(d: Driver, x: Sql)
    requires Separate(d, TEXTS, TREES, true, x, true) && Parsed(x, true)
    ensures Separate(d, TEXTS, TREES, true, Wrapped(x), true)
  {
    var args := [Expr(x)];
    assert Key("F") == "F" && args[1..] == [];
    RenamingAnswers(args);
    RenamingSeparate(d, TEXTS);
    WrappedParsed(x);
    assert SeparateArgs(d, TEXTS, TREES, args);
    assert SeparateNode(d, TEXTS, TREES, true, Call("F", args), true);
    OneSeparate(d, TEXTS, TREES, true, Call("F", args), true);
  }

  lemma {:induction false} WrappedParsed(x: Sql)
    requires Parsed(x, true)
    ensures ParsedCall("F", [Expr(x)]) && Parsed(Wrapped(x), true)
  {
    var args, y := [Expr(x)], Wrapped(x);
    assert args[1..] == [] && y[1..] == [] && |"F"| != |SEARCH|;
    assert ParsedArgs(args);
    assert ParsedNode(y[0], true);
  }

  lemma WrappedDepth(x: Sql)
    ensures Depth(TREES, Wrapped(x)) == Depth(TREES, x) + 1
  {
    var args := [Expr(x)];
    assert args[1..] == [] && Wrapped(x)[1..] == [];
    assert ArgsDepth(TREES, args) == Depth(TREES, x);
    assert NodeDepth(TREES, Call("F", args)) == Depth(TREES, x) + 1;
  }

  function Nested(n: nat): Sql {
    if n == 0 then [Ph(Bare)] else Wrapped(Nested(n - 1))
  }

  /** A statement with calls nested n deep, which takes n passes: F(F(...F(?)...)). */
  lemma {:induction false} SomeStatementsAreSeparate(d: Driver, n: nat)
    ensures Separate(d, TEXTS, TREES, true, Nested(n), true) && Parsed(Nested(n), true)
    ensures Depth(TREES, Nested(n)) == n
    decreases n
  {
    if n == 0 {
      OneSeparate(d, TEXTS, TREES, true, Ph(Bare), true);
      assert Nested(0)[1..] == [];
    } else {
      SomeStatementsAreSeparate(d, n - 1);
      WrappedSeparate(d, Nested(n - 1));
      WrappedParsed(Nested(n - 1));
      WrappedDepth(Nested(n - 1));
    }
  }
}
