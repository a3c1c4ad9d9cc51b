/** What a pass over the text of a call tree does: it is the pass over the tree, as long as the tree is what its text
    reads as. */
module TreeText {
  import opened Errors
  import opened Decimal
  import opened Lexer
  import opened Expansion
  import opened Balance
  import opened TextExpansion
  import SearchSplit

  /** A pass over a tree, as text: the tree's own pass, and whether it has a registered call. */
  function PassOf(reg: Registry, ns: Sql): Pass {
    var next := ExpandOnce(reg, ns);
    if next.None? then Broken else Passed(Render(next.value), Depth(reg, ns) > 0)
  }

  function PassOfNode(reg: Registry, n: Node): Pass {
    var next := ExpandNode(reg, n);
    if next.None? then Broken else Passed(Render(next.value), NodeDepth(reg, n) > 0)
  }

  function PassOfCall(reg: Registry, name: string, args: seq<Expr>): Pass {
    var next := ExpandArgs(reg, args);
    if next.None? then Broken else Passed(RenderCall(name, next.value), ArgsDepth(reg, args) > 0)
  }

  function PassOfArgs(reg: Registry, args: seq<Expr>): Pass {
    var next := ExpandArgs(reg, args);
    if next.None? then Broken else Passed(RenderArgs(next.value), ArgsDepth(reg, args) > 0)
  }

  /** A piece of text becomes p, whatever the loop makes of the text behind it. */
  ghost predicate Yields(turn: (string, string) -> Turn, before: string, s: string, rest: string, p: Pass) {
    Loop(turn, before, s + rest) == Then(p, Loop(turn, before + s, rest))
  }

  /** Lexically closed text: the loop moves over it as it is and stops at its end, so that no string, comment or name
      that starts in it reaches into what follows. */
  ghost predicate Closed(turn: (string, string) -> Turn, before: string, s: string, rest: string)
    decreases |s|
  {
    s == "" ||
    (var t := turn(before, s + rest);
      0 < t.n <= |s| && t.pass == Passed(s[..t.n], false) && Closed(turn, before + s[..t.n], s[t.n..], rest))
  }

  /** The text handler does to the text of these arguments what the tree handler does to the arguments. */
  ghost predicate Answers(vfs: TextRegistry, reg: Registry, name: string, args: seq<Expr>)
    requires name in reg && Key(name) in vfs
  {
    var pieces := reg[name](args);
    vfs[Key(name)](RenderCall(name, args)) == if pieces.Some? then Some(Render(Fill(pieces.value, args))) else None
  }

  /** The tree is what its text reads as, between some text before it and the rest: text between calls is closed, and
      the registered calls are the known names that stand by themselves, with arguments as Parsed has them. */
  ghost predicate Reads(d: Driver, vfs: TextRegistry, reg: Registry, before: string, ns: Sql, rest: string)
    decreases ns, 1
  {
    ns == [] ||
    (ReadsNode(d, vfs, reg, before, ns[0], Render(ns[1..]) + rest)
      && Reads(d, vfs, reg, before + RenderNode(ns[0]), ns[1..], rest))
  }

  ghost predicate ReadsNode(d: Driver, vfs: TextRegistry, reg: Registry, before: string, n: Node, rest: string)
    decreases n, 2
  {
    match n
    case Text(s) => Closed(Turns(d, vfs), before, s, rest)
    case Ph(_) => true
    case Call(name, args) =>
      && (forall i :: 0 <= i < |name| ==> IsWordByte(name[i]))
      && (name in reg <==> Key(name) in vfs)
      && if name in reg then StartsName(before, name) && ParsedCall(name, args) && Answers(vfs, reg, name, args)
         else ReadsCall(d, vfs, reg, before + name + "(", name, args, ")" + rest)
  }

  ghost predicate ReadsCall(d: Driver, vfs: TextRegistry, reg: Registry, before: string, name: string, args: seq<Expr>,
                            rest: string)
    decreases args, 1
  {
    if name == SEARCH && args != [] then
      var u := Render(args[0].nodes);
      && Reads(d, vfs, reg, before, args[0].nodes, " IN " + RenderArgs(args[1..]) + rest)
      && ReadsArgs(d, vfs, reg, before + u + " IN ", args[1..], rest)
    else ReadsArgs(d, vfs, reg, before, args, rest)
  }

  ghost predicate ReadsArgs(d: Driver, vfs: TextRegistry, reg: Registry, before: string, args: seq<Expr>, rest: string)
    decreases args, 0
  {
    if args == [] then true
    else if |args| == 1 then Reads(d, vfs, reg, before, args[0].nodes, rest)
    else
      var u := Render(args[0].nodes);
      && Reads(d, vfs, reg, before, args[0].nodes, "," + RenderArgs(args[1..]) + rest)
      && ReadsArgs(d, vfs, reg, before + u + ",", args[1..], rest)
  }

  lemma YieldsThen(turn: (string, string) -> Turn, before: string, a: string, b: string, rest: string, p: Pass, q: Pass)
    requires Yields(turn, before, a, b + rest, p) && Yields(turn, before + a, b, rest, q)
    ensures Yields(turn, before, a + b, rest, Then(p, q))
  {
    assert a + b + rest == a + (b + rest) && before + a + b == before + (a + b);
    ThenAssoc(p, q, Loop(turn, before + (a + b), rest));
  }

  lemma YieldsNothing(turn: (string, string) -> Turn, before: string, rest: string)
    ensures Yields(turn, before, "", rest, Passed("", false))
  {
    assert "" + rest == rest && before + "" == before;
    var p := Loop(turn, before, rest);
    if p.Passed? {
      assert "" + p.text == p.text;
    }
  }

  lemma YieldsTurn(turn: (string, string) -> Turn, before: string, s: string, rest: string)
    requires var t := turn(before, s + rest); 0 < t.n == |s|
    ensures Yields(turn, before, s, rest, turn(before, s + rest).pass)
  {
    assert (s + rest)[..|s|] == s && (s + rest)[|s|..] == rest;
  }

  /** Closed text stays as it is. */
  lemma {:induction false} ClosedYields(turn: (string, string) -> Turn, before: string, s: string, rest: string)
    requires Closed(turn, before, s, rest)
    ensures Yields(turn, before, s, rest, Passed(s, false))
    decreases |s|
  {
    if s == "" {
      YieldsNothing(turn, before, rest);
    } else {
      var t := turn(before, s + rest);
      var a, b := s[..t.n], s[t.n..];
      assert a + b == s && s + rest == a + (b + rest);
      YieldsTurn(turn, before, a, b + rest);
      ClosedYields(turn, before + a, b, rest);
      YieldsThen(turn, before, a, b, rest, Passed(a, false), Passed(b, false));
    }
  }

  // ----- Text around calls that the loop moves over -----

  predicate Punctuation(c: char) {
    c in "()?$, " || IsDigitByte(c)
  }

  lemma PunctuationTurn(d: Driver, vfs: TextRegistry, before: string, u: string)
    requires u != "" && Punctuation(u[0])
    ensures TurnAt(d, vfs, before, u) == Copied(u, 1)
  {
  }

  lemma {:induction false} PunctuationClosed(d: Driver, vfs: TextRegistry, before: string, s: string, rest: string)
    requires forall i :: 0 <= i < |s| ==> Punctuation(s[i])
    ensures Closed(Turns(d, vfs), before, s, rest)
    decreases |s|
  {
    if s != "" {
      PunctuationTurn(d, vfs, before, s + rest);
      assert (s + rest)[..1] == s[..1];
      PunctuationClosed(d, vfs, before + s[..1], s[1..], rest);
    }
  }

  lemma {:induction false} WordAhead(name: string, rest: string)
    requires (forall i :: 0 <= i < |name| ==> IsWordByte(name[i])) && (rest == "" || !IsWordByte(rest[0]))
    ensures WordLen(name + rest) == |name|
    decreases |name|
  {
    if name == "" {
      assert name + rest == rest;
    } else {
      WordAhead(name[1..], rest);
      assert (name + rest)[1..] == name[1..] + rest;
    }
  }

  /** The bytes of a word that do not start a name are moved over one by one. */
  lemma {:induction false} GluedClosed(d: Driver, vfs: TextRegistry, before: string, name: string, rest: string)
    requires forall i :: 0 <= i < |name| ==> IsWordByte(name[i])
    requires !StartsName(before, name)
    ensures Closed(Turns(d, vfs), before, name, rest)
    decreases |name|
  {
    if name != "" {
      var u := name + rest;
      assert TurnAt(d, vfs, before, u) == Copied(u, 1);
      assert u[..1] == name[..1];
      GluedClosed(d, vfs, before + name[..1], name[1..], rest);
    }
  }

  lemma ClosedJoin(turn: (string, string) -> Turn, before: string, a: string, b: string, rest: string)
    requires Closed(turn, before, a, b + rest) && Closed(turn, before + a, b, rest)
    ensures Yields(turn, before, a + b, rest, Passed(a + b, false))
  {
    ClosedYields(turn, before, a, b + rest);
    ClosedYields(turn, before + a, b, rest);
    YieldsThen(turn, before, a, b, rest, Passed(a, false), Passed(b, false));
  }

  /** An unknown name and its parenthesis. */
  lemma NameYields(d: Driver, vfs: TextRegistry, before: string, name: string, rest: string)
    requires (forall i :: 0 <= i < |name| ==> IsWordByte(name[i])) && Key(name) !in vfs
    ensures Yields(Turns(d, vfs), before, name + "(", rest, Passed(name + "(", false))
  {
    var s := name + "(";
    if StartsName(before, name) {
      var u := s + rest;
      assert u == name + ("(" + rest);
      WordAhead(name, "(" + rest);
      assert u[..|name|] == name && u[..|s|] == s;
      assert TurnAt(d, vfs, before, u) == Copied(u, |s|);
      YieldsTurn(Turns(d, vfs), before, s, rest);
    } else {
      GluedClosed(d, vfs, before, name, "(" + rest);
      PunctuationClosed(d, vfs, before + name, "(", rest);
      ClosedJoin(Turns(d, vfs), before, name, "(", rest);
    }
  }

  lemma SeparatorYields(d: Driver, vfs: TextRegistry, before: string, rest: string)
    ensures Yields(Turns(d, vfs), before, " IN ", rest, Passed(" IN ", false))
  {
    var turn := Turns(d, vfs);
    assert " IN " == " " + ("IN" + " ");
    PunctuationClosed(d, vfs, before, " ", "IN" + " " + rest);
    var u := "IN" + (" " + rest);
    WordAhead("IN", " " + rest);
    assert u[..2] == "IN";
    assert TurnAt(d, vfs, before + " ", u) == Copied(u, 2);
    YieldsTurn(turn, before + " ", "IN", " " + rest);
    PunctuationClosed(d, vfs, before + " " + "IN", " ", rest);
    ClosedYields(turn, before, " ", "IN" + " " + rest);
    ClosedYields(turn, before + " " + "IN", " ", rest);
    YieldsThen(turn, before + " ", "IN", " ", rest, Passed("IN", false), Passed(" ", false));
    assert "IN" + " " + rest == ("IN" + " ") + rest;
    YieldsThen(turn, before, " ", "IN" + " ", rest, Passed(" ", false), Passed("IN" + " ", false));
  }

  /** The turn at a known name that stands by itself. */
  lemma NameTurn(d: Driver, vfs: TextRegistry, before: string, name: string, a: string, rest: string)
    requires (forall i :: 0 <= i < |name| ==> IsWordByte(name[i])) && Key(name) in vfs && StartsName(before, name)
    requires CloseFrom(TOP, a + ")" + rest) == Some(|a|)
    ensures var s, result := name + ("(" + a + ")"), vfs[Key(name)](a);
      TurnAt(d, vfs, before, s + rest) == Turn(if result.Some? then Passed(result.value, true) else Broken, |s|)
  {
    var s := name + ("(" + a + ")");
    var u, args := s + rest, a + ")" + rest;
    assert u == name + ("(" + args);
    WordAhead(name, "(" + args);
    assert u[..|name|] == name && u[|name|] == '(';
    assert u[|name| + 1..] == args && args[..|a|] == a;
    assert Hop(d, vfs, before, u) == 0;
  }

  /** A known name that stands by itself is replaced by what its handler makes of its arguments. */
  lemma CallYields(d: Driver, vfs: TextRegistry, reg: Registry, before: string, name: string, args: seq<Expr>,
                   rest: string)
    requires (forall i :: 0 <= i < |name| ==> IsWordByte(name[i])) && name in reg && Key(name) in vfs
    requires StartsName(before, name) && ParsedCall(name, args) && Answers(vfs, reg, name, args)
    ensures Yields(Turns(d, vfs), before, RenderNode(Call(name, args)), rest, PassOfNode(reg, Call(name, args)))
  {
    var a := RenderCall(name, args);
    CallCloseFrom(name, args, rest);
    NameTurn(d, vfs, before, name, a, rest);
    YieldsTurn(Turns(d, vfs), before, name + ("(" + a + ")"), rest);
  }

  lemma CallCloseFrom(name: string, args: seq<Expr>, rest: string)
    requires ParsedCall(name, args)
    ensures CloseFrom(TOP, RenderCall(name, args) + ")" + rest) == Some(|RenderCall(name, args)|)
  {
    var a := RenderCall(name, args);
    var u := a + ")" + rest;
    CallCloses("", name, args, rest);
    assert "" + a + ")" + rest == u;
    OnlyOne(u, 0, |a|);
    assert u[0..0] == "" && u[0..] == u;
    ClosesHere(u, 0, 0, |a|);
  }

  // ----- The pass over the text is the pass over the tree -----

  lemma {:induction false} RenderAppend(a: Sql, b: Sql)
    ensures Render(a + b) == Render(a) + Render(b)
    decreases |a|
  {
    if a == [] {
      assert a + b == b;
    } else {
      RenderAppend(a[1..], b);
      assert (a + b)[1..] == a[1..] + b;
    }
  }

  lemma RenderSingle(n: Node)
    ensures Render([n]) == RenderNode(n)
  {
    assert [n][1..] == [] && RenderNode(n) + "" == RenderNode(n);
  }

  lemma PassJoins(reg: Registry, ns: Sql)
    requires ns != []
    ensures PassOf(reg, ns) == Then(PassOfNode(reg, ns[0]), PassOf(reg, ns[1..]))
  {
    if ExpandOnce(reg, ns).Some? {
      RenderAppend(ExpandNode(reg, ns[0]).value, ExpandOnce(reg, ns[1..]).value);
    }
  }

  lemma {:induction false} TreePass(d: Driver, vfs: TextRegistry, reg: Registry, before: string, ns: Sql, rest: string)
    requires Reads(d, vfs, reg, before, ns, rest)
    ensures Yields(Turns(d, vfs), before, Render(ns), rest, PassOf(reg, ns))
    decreases ns, 1
  {
    if ns == [] {
      YieldsNothing(Turns(d, vfs), before, rest);
    } else {
      NodePass(d, vfs, reg, before, ns[0], Render(ns[1..]) + rest);
      TreePass(d, vfs, reg, before + RenderNode(ns[0]), ns[1..], rest);
      YieldsThen(Turns(d, vfs), before, RenderNode(ns[0]), Render(ns[1..]), rest,
        PassOfNode(reg, ns[0]), PassOf(reg, ns[1..]));
      PassJoins(reg, ns);
    }
  }

  lemma {:induction false} NodePass(d: Driver, vfs: TextRegistry, reg: Registry, before: string, n: Node, rest: string)
    requires ReadsNode(d, vfs, reg, before, n, rest)
    ensures Yields(Turns(d, vfs), before, RenderNode(n), rest, PassOfNode(reg, n))
    decreases n, 2
  {
    var turn := Turns(d, vfs);
    match n {
      case Text(s) =>
        ClosedYields(turn, before, s, rest);
        RenderSingle(n);
      case Ph(p) =>
        PunctuationClosed(d, vfs, before, RenderPh(p), rest);
        ClosedYields(turn, before, RenderPh(p), rest);
        RenderSingle(n);
      case Call(name, args) =>
        if name in reg {
          CallYields(d, vfs, reg, before, name, args, rest);
        } else {
          UnknownYields(d, vfs, reg, before, name, args, rest);
        }
    }
  }

  lemma {:induction false} UnknownYields(d: Driver, vfs: TextRegistry, reg: Registry, before: string, name: string,
                                         args: seq<Expr>, rest: string)
    requires ReadsNode(d, vfs, reg, before, Call(name, args), rest) && name !in reg
    ensures Yields(Turns(d, vfs), before, RenderNode(Call(name, args)), rest, PassOfNode(reg, Call(name, args)))
    decreases args, 2
  {
    var a, open := RenderCall(name, args), name + "(";
    assert before + name + "(" == before + open && a + ")" + rest == a + (")" + rest);
    NameYields(d, vfs, before, name, a + ")" + rest);
    CallPass(d, vfs, reg, before + open, name, args, ")" + rest);
    PunctuationClosed(d, vfs, before + open + a, ")", rest);
    Enclosed(Turns(d, vfs), before, open, a, rest, PassOfCall(reg, name, args));
    UnknownPass(reg, name, args);
  }

  lemma Enclosed(turn: (string, string) -> Turn, before: string, open: string, a: string, rest: string, p: Pass)
    requires Yields(turn, before, open, a + ")" + rest, Passed(open, false))
    requires Yields(turn, before + open, a, ")" + rest, p) && Closed(turn, before + open + a, ")", rest)
    ensures Yields(turn, before, open + (a + ")"), rest, Then(Passed(open, false), Then(p, Passed(")", false))))
  {
    ClosedYields(turn, before + open + a, ")", rest);
    YieldsThen(turn, before + open, a, ")", rest, p, Passed(")", false));
    YieldsThen(turn, before, open, a + ")", rest, Passed(open, false), Then(p, Passed(")", false)));
  }

  lemma UnknownPass(reg: Registry, name: string, args: seq<Expr>)
    requires name !in reg
    ensures PassOfNode(reg, Call(name, args))
      == Then(Passed(name + "(", false), Then(PassOfCall(reg, name, args), Passed(")", false)))
    ensures RenderNode(Call(name, args)) == name + "(" + (RenderCall(name, args) + ")")
  {
    var args' := ExpandArgs(reg, args);
    if args'.Some? {
      RenderSingle(Call(name, args'.value));
    }
  }

  lemma {:induction false} CallPass(d: Driver, vfs: TextRegistry, reg: Registry, before: string, name: string,
                                    args: seq<Expr>, rest: string)
    requires ReadsCall(d, vfs, reg, before, name, args, rest)
    ensures Yields(Turns(d, vfs), before, RenderCall(name, args), rest, PassOfCall(reg, name, args))
    decreases args, 1
  {
    if name == SEARCH && args != [] {
      var turn := Turns(d, vfs);
      var u, v := Render(args[0].nodes), RenderArgs(args[1..]);
      TreePass(d, vfs, reg, before, args[0].nodes, " IN " + v + rest);
      SeparatorYields(d, vfs, before + u, v + rest);
      ArgsPass(d, vfs, reg, before + u + " IN ", args[1..], rest);
      PutTogether(turn, before, u, " IN ", v, rest, PassOf(reg, args[0].nodes), PassOfArgs(reg, args[1..]));
      SearchArgs(reg, args);
    } else {
      ArgsPass(d, vfs, reg, before, args, rest);
    }
  }

  lemma PutTogether(turn: (string, string) -> Turn, before: string, u: string, mid: string, v: string, rest: string,
                    p: Pass, q: Pass)
    requires Yields(turn, before, u, mid + v + rest, p)
    requires Yields(turn, before + u, mid, v + rest, Passed(mid, false))
    requires Yields(turn, before + u + mid, v, rest, q)
    ensures Yields(turn, before, u + (mid + v), rest, Then(p, Then(Passed(mid, false), q)))
  {
    YieldsThen(turn, before + u, mid, v, rest, Passed(mid, false), q);
    YieldsThen(turn, before, u, mid + v, rest, p, Then(Passed(mid, false), q));
  }

  lemma {:induction false} ArgsPass(d: Driver, vfs: TextRegistry, reg: Registry, before: string, args: seq<Expr>,
                                    rest: string)
    requires ReadsArgs(d, vfs, reg, before, args, rest)
    ensures Yields(Turns(d, vfs), before, RenderArgs(args), rest, PassOfArgs(reg, args))
    decreases args, 0
  {
    var turn := Turns(d, vfs);
    if args == [] {
      YieldsNothing(turn, before, rest);
    } else if |args| == 1 {
      TreePass(d, vfs, reg, before, args[0].nodes, rest);
      OneArg(reg, args);
    } else {
      var u, v := Render(args[0].nodes), RenderArgs(args[1..]);
      TreePass(d, vfs, reg, before, args[0].nodes, "," + v + rest);
      PunctuationClosed(d, vfs, before + u, ",", v + rest);
      ClosedYields(turn, before + u, ",", v + rest);
      ArgsPass(d, vfs, reg, before + u + ",", args[1..], rest);
      PutTogether(turn, before, u, ",", v, rest, PassOf(reg, args[0].nodes), PassOfArgs(reg, args[1..]));
      MoreArgs(reg, args);
    }
  }

  lemma {:induction false} ArgsKept(reg: Registry, args: seq<Expr>)
    ensures ExpandArgs(reg, args).Some? ==> |ExpandArgs(reg, args).value| == |args|
  {
    if args != [] {
      ArgsKept(reg, args[1..]);
    }
  }

  /** The arguments of a pass, the first and the others. */
  lemma FirstArg(reg: Registry, args: seq<Expr>)
    requires args != [] && ExpandArgs(reg, args).Some?
    ensures ExpandOnce(reg, args[0].nodes).Some? && ExpandArgs(reg, args[1..]).Some?
    ensures var next := ExpandArgs(reg, args).value;
      && |next| == |args| && next[0].nodes == ExpandOnce(reg, args[0].nodes).value
      && next[1..] == ExpandArgs(reg, args[1..]).value
  {
    ArgsKept(reg, args);
  }

  lemma OneArg(reg: Registry, args: seq<Expr>)
    requires |args| == 1
    ensures PassOfArgs(reg, args) == PassOf(reg, args[0].nodes) && RenderArgs(args) == Render(args[0].nodes)
  {
    assert args[1..] == [] && ExpandArgs(reg, args[1..]) == Some([]) && ArgsDepth(reg, args[1..]) == 0;
    assert Render(args[0].nodes) + "" == Render(args[0].nodes);
    if ExpandArgs(reg, args).Some? {
      FirstArg(reg, args);
      var u := Render(ExpandArgs(reg, args).value[0].nodes);
      assert u + "" == u;
    }
  }

  lemma MoreArgs(reg: Registry, args: seq<Expr>)
    requires |args| > 1
    ensures PassOfArgs(reg, args)
      == Then(PassOf(reg, args[0].nodes), Then(Passed(",", false), PassOfArgs(reg, args[1..])))
  {
    if ExpandArgs(reg, args).Some? {
      FirstArg(reg, args);
    }
  }

  lemma SearchArgs(reg: Registry, args: seq<Expr>)
    requires args != []
    ensures PassOfCall(reg, SEARCH, args)
      == Then(PassOf(reg, args[0].nodes), Then(Passed(" IN ", false), PassOfArgs(reg, args[1..])))
  {
    if ExpandArgs(reg, args).Some? {
      FirstArg(reg, args);
    }
  }

  /** expandOnce on the text of a tree gives the text of the tree's pass, fails when that fails, and reports a change
      exactly when the tree has a registered call. */
  lemma OnceIsPass(d: Driver, vfs: TextRegistry, reg: Registry, ns: Sql)
    requires Reads(d, vfs, reg, "", ns, "")
    ensures Once(d, vfs, Render(ns)) == PassOf(reg, ns)
  {
    var p := PassOf(reg, ns);
    TreePass(d, vfs, reg, "", ns, "");
    assert Render(ns) + "" == Render(ns);
    if p.Passed? {
      assert p.text + "" == p.text;
    }
  }

  // ----- All passes -----

  /** Every tree that the passes go through is what its text reads as. */
  ghost predicate EveryPassReads(d: Driver, vfs: TextRegistry, reg: Registry, ns: Sql)
    decreases Depth(reg, ns)
  {
    && Reads(d, vfs, reg, "", ns, "")
    && (Depth(reg, ns) > 0 && ExpandOnce(reg, ns).Some? ==>
         (PassDepth(reg, ns); EveryPassReads(d, vfs, reg, ExpandOnce(reg, ns).value)))
  }

  /** expandVirtualFuncs on text: passes until one reports no change. It ends with the text of the tree in which every
      call is expanded where it stands, or fails when that does not exist. */
  method ExpandText(d: Driver, query: string, vfs: TextRegistry, ghost reg: Registry, ghost ns: Sql)
    returns (r: Option<string>)
    requires query == Render(ns) && EveryPassReads(d, vfs, reg, ns)
    ensures r == if Full(reg, ns).Some? then Some(Render(Full(reg, ns).value)) else None
  {
    var q := query;
    ghost var tree := ns;
    while true
      invariant q == Render(tree) && EveryPassReads(d, vfs, reg, tree) && Full(reg, tree) == Full(reg, ns)
      decreases Depth(reg, tree)
    {
      var p := ExpandOnceText(d, q, vfs);
      OnceIsPass(d, vfs, reg, tree);
      PassKeepsMeaning(reg, tree);
      if p.Broken? {
        return None;
      }
      PassDepth(reg, tree);
      if !p.changed {
        FlatUnchanged(reg, tree);
        FlatIsFull(reg, tree);
        return Some(p.text);
      }
      q := p.text;
      tree := ExpandOnce(reg, tree).value;
    }
  }

  // ----- What makes text closed -----

  /** The text, with a blank behind it, is moved over up to the blank, and holds no known name before a parenthesis. */
  ghost predicate ClosedAlone(d: Driver, vfs: TextRegistry, before: string, s: string)
    decreases |s|
  {
    s == "" ||
    (var n := Hop(d, vfs, before, s + " "); 0 < n <= |s| && ClosedAlone(d, vfs, before + s[..n], s[n..]))
  }

  /** Two bytes that read as one thing when they meet: a doubled quote, the start of a comment, a longer name, a
      call. */
  predicate Touch(a: char, b: char) {
    (a == b && a in "'\"`]-") || (a == '/' && b == '*') || (IsWordByte(a) && (IsWordByte(b) || b == '('))
  }

  predicate Apart(s: string, rest: string) {
    s == "" || rest == "" || !Touch(s[|s| - 1], rest[0])
  }

  lemma {:induction false} QuotedStays(s: string, q: char, backslash: bool, rest: string)
    requires QuotedLen(s + " ", q, backslash) <= |s| && q != ' ' && (rest == "" || !(s[|s| - 1] == q && rest[0] == q))
    ensures QuotedLen(s + rest, q, backslash) == QuotedLen(s + " ", q, backslash)
    decreases |s|
  {
    var u, v := s + " ", s + rest;
    if s != "" {
      if |s| > 1 {
        assert u[1..] == s[1..] + " " && v[1..] == s[1..] + rest;
        assert u[2..] == s[2..] + " " && v[2..] == s[2..] + rest;
      }
      if (backslash && s[0] == '\\') || (s[0] == q && |s| > 1 && s[1] == q) {
        if |s| > 2 {
          QuotedStays(s[2..], q, backslash, rest);
        }
      } else if s[0] != q {
        QuotedStays(s[1..], q, backslash, rest);
      }
    }
  }

  lemma {:induction false} FindStays(s: string, pat: string, rest: string)
    requires Find(s + " ", pat).Some? && Find(s + " ", pat).value + |pat| <= |s|
    ensures Find(s + rest, pat) == Find(s + " ", pat)
    decreases |s|
  {
    var u, v := s + " ", s + rest;
    assert u[..|pat|] == s[..|pat|] == v[..|pat|];
    if u[..|pat|] != pat {
      assert u[1..] == s[1..] + " " && v[1..] == s[1..] + rest;
      FindStays(s[1..], pat, rest);
    }
  }

  /** A region that ends in the text does not depend on what follows. */
  lemma ThroughStays(s: string, pat: string, rest: string)
    requires Through(s + " ", pat) <= |s|
    ensures Through(s + rest, pat) == Through(s + " ", pat)
  {
    FindStays(s, pat, rest);
  }

  lemma {:induction false} WordStays(s: string, rest: string)
    requires Apart(s, rest) && s != "" && IsWordByte(s[0])
    ensures WordLen(s + rest) == WordLen(s + " ") <= |s| && (WordLen(s + " ") == |s| ==> IsWordByte(s[|s| - 1]))
    decreases |s|
  {
    assert (s + rest)[1..] == s[1..] + rest && (s + " ")[1..] == s[1..] + " ";
    if |s| == 1 {
      assert s[1..] + rest == rest && s[1..] + " " == " ";
    } else if IsWordByte(s[1]) {
      WordStays(s[1..], rest);
    }
  }

  lemma SkipStays(d: Driver, before: string, s: string, rest: string)
    requires s != "" && Apart(s, rest) && SkipLen(d, before, s + " ", false) <= |s|
    ensures SkipLen(d, before, s + rest, false) == SkipLen(d, before, s + " ", false)
  {
    var u, v, t := s + " ", s + rest, s[1..];
    assert u[1..] == t + " " && v[1..] == t + rest;
    if s[0] in "'\"`[" {
      RegionStays(d, before, s, rest);
    } else if s[0] == '-' && |s| > 1 && s[1] == '-' {
      ThroughStays(s, "\n", rest);
    } else if s[0] == '/' && |s| > 1 && s[1] == '*' {
      assert u[2..] == s[2..] + " " && v[2..] == s[2..] + rest;
      ThroughStays(s[2..], "*/", rest);
    }
  }

  lemma RegionStays(d: Driver, before: string, s: string, rest: string)
    requires s != "" && s[0] in "'\"`[" && Apart(s, rest) && SkipLen(d, before, s + " ", false) <= |s|
    ensures SkipLen(d, before, s + rest, false) == SkipLen(d, before, s + " ", false)
  {
    var q, t := if s[0] == '[' then ']' else s[0], s[1..];
    var backslash := (s[0] == '\'' && (Mysqlish(d) || EscapeString(d, before))) || (s[0] == '"' && Mysqlish(d));
    RegionLen(d, before, s, " ", q, backslash);
    RegionLen(d, before, s, rest, q, backslash);
    if QuotedLen(t + " ", q, backslash) <= |t| {
      QuotedStays(t, q, backslash, rest);
    }
  }

  lemma RegionLen(d: Driver, before: string, s: string, rest: string, q: char, backslash: bool)
    requires s != "" && s[0] in "'\"`[" && q == if s[0] == '[' then ']' else s[0]
    requires backslash <==> (s[0] == '\'' && (Mysqlish(d) || EscapeString(d, before))) || (s[0] == '"' && Mysqlish(d))
    ensures SkipLen(d, before, s + rest, false) ==
      if (s[0] == '`' && !Mysqlish(d) && !d.SQLite?) || (s[0] == '[' && !d.MSSQL? && !d.SQLite?) then 0
      else 1 + QuotedLen(s[1..] + rest, q, backslash)
  {
    assert (s + rest)[1..] == s[1..] + rest;
  }

  lemma HopStays(d: Driver, vfs: TextRegistry, before: string, s: string, rest: string)
    requires s != "" && Apart(s, rest) && 0 < Hop(d, vfs, before, s + " ") <= |s|
    ensures Hop(d, vfs, before, s + rest) == Hop(d, vfs, before, s + " ")
  {
    var u, v := s + " ", s + rest;
    SkipStays(d, before, s, rest);
    assert u[0] == v[0] == s[0];
    if StartsName(before, s) {
      WordStays(s, rest);
      var w := WordLen(v);
      assert v[..w] == s[..w] == u[..w];
    } else {
      assert !StartsName(before, u) && !StartsName(before, v);
    }
  }

  /** Whether a text is closed can be told from the text, what stands before it and the first byte behind it. */
  lemma {:induction false} ClosedByItself(d: Driver, vfs: TextRegistry, before: string, s: string, rest: string)
    requires ClosedAlone(d, vfs, before, s) && Apart(s, rest)
    ensures Closed(Turns(d, vfs), before, s, rest)
    decreases |s|
  {
    if s != "" {
      var n := Hop(d, vfs, before, s + " ");
      HopStays(d, vfs, before, s, rest);
      assert (s + rest)[..n] == s[..n];
      ClosedByItself(d, vfs, before + s[..n], s[n..], rest);
    }
  }
}
