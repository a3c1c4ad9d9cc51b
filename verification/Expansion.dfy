/** Virtual function expansion on call trees: outermost first, pass after pass, until nothing is left to expand. */
module Expansion {
  import opened Errors

  /** A placeholder: bare as written, numbered, or with its argument in place. */
  datatype Placeholder = Bare | Ordinal(k: nat) | Value(v: int)

  /** A statement is a sequence of text, placeholders and function calls; a call's arguments are statements too. */
  datatype Node = Text(s: string) | Ph(p: Placeholder) | Call(name: string, args: seq<Expr>)
  datatype Expr = Expr(nodes: seq<Node>)
  type Sql = seq<Node>

  /** What a handler returns: text of its own around its arguments, each copied as a whole, any number of times. */
  datatype Piece = Lit(s: string) | Arg(i: nat)
  type Handler = seq<Expr> -> Option<seq<Piece>>
  type Registry = map<string, Handler>

  // ----- One pass -----

  /** The replacement a handler's pieces stand for. */
  function Fill(pieces: seq<Piece>, args: seq<Expr>): Sql {
    if pieces == [] then []
    else PieceSql(pieces[0], args) + Fill(pieces[1..], args)
  }

  function PieceSql(piece: Piece, args: seq<Expr>): Sql {
    match piece
    case Lit(s) => [Text(s)]
    case Arg(i) => if i < |args| then args[i].nodes else []
  }

  /** expandOnce: every outermost registered call is replaced; calls of other functions are scanned inside. None when a
      handler fails. */
  function ExpandOnce(reg: Registry, ns: Sql): Option<Sql>
    decreases ns, 1
  {
    if ns == [] then Some([])
    else
      var (a, b) := (ExpandNode(reg, ns[0]), ExpandOnce(reg, ns[1..]));
      if a.Some? && b.Some? then Some(a.value + b.value) else None
  }

  function ExpandNode(reg: Registry, n: Node): Option<Sql>
    decreases n, 2
  {
    match n
    case Text(_) => Some([n])
    case Ph(_) => Some([n])
    case Call(name, args) =>
      if name in reg then
        var pieces := reg[name](args);
        if pieces.Some? then Some(Fill(pieces.value, args)) else None
      else
        var args' := ExpandArgs(reg, args);
        if args'.Some? then Some([Call(name, args'.value)]) else None
  }

  function ExpandArgs(reg: Registry, args: seq<Expr>): (r: Option<seq<Expr>>)
    decreases args, 0
  {
    if args == [] then Some([])
    else
      var (a, b) := (ExpandOnce(reg, args[0].nodes), ExpandArgs(reg, args[1..]));
      if a.Some? && b.Some? then Some([Expr(a.value)] + b.value) else None
  }

  // ----- Nesting depth -----

  function Max(a: nat, b: nat): nat {
    if a < b then b else a
  }

  /** How deep registered calls are nested; zero when there is none. */
  function Depth(reg: Registry, ns: Sql): nat
    decreases ns, 1
  {
    if ns == [] then 0 else Max(NodeDepth(reg, ns[0]), Depth(reg, ns[1..]))
  }

  function NodeDepth(reg: Registry, n: Node): nat
    decreases n, 2
  {
    match n
    case Text(_) => 0
    case Ph(_) => 0
    case Call(name, args) => ArgsDepth(reg, args) + if name in reg then 1 else 0
  }

  function ArgsDepth(reg: Registry, args: seq<Expr>): nat
    decreases args, 0
  {
    if args == [] then 0 else Max(Depth(reg, args[0].nodes), ArgsDepth(reg, args[1..]))
  }

  lemma {:induction false} DepthAppend(reg: Registry, a: Sql, b: Sql)
    ensures Depth(reg, a + b) == Max(Depth(reg, a), Depth(reg, b))
    decreases |a|
  {
    if a == [] {
      assert a + b == b;
    } else {
      DepthAppend(reg, a[1..], b);
      assert (a + b)[1..] == a[1..] + b;
    }
  }

  lemma {:induction false} ArgDepth(reg: Registry, args: seq<Expr>, i: nat)
    requires i < |args|
    ensures Depth(reg, args[i].nodes) <= ArgsDepth(reg, args)
    decreases |args|
  {
    if i > 0 {
      ArgDepth(reg, args[1..], i - 1);
    }
  }

  lemma {:induction false} FillDepth(reg: Registry, pieces: seq<Piece>, args: seq<Expr>)
    ensures Depth(reg, Fill(pieces, args)) <= ArgsDepth(reg, args)
    decreases |pieces|
  {
    if pieces != [] {
      FillDepth(reg, pieces[1..], args);
      var head := PieceSql(pieces[0], args);
      if pieces[0].Arg? && pieces[0].i < |args| {
        ArgDepth(reg, args, pieces[0].i);
      } else if pieces[0].Lit? {
        assert head[1..] == [];
      }
      DepthAppend(reg, head, Fill(pieces[1..], args));
    }
  }

  /** A pass takes one level off, however often a handler repeats its arguments. */
  lemma {:induction false} PassDepth(reg: Registry, ns: Sql)
    requires ExpandOnce(reg, ns).Some?
    ensures Depth(reg, ExpandOnce(reg, ns).value) <= if Depth(reg, ns) > 0 then Depth(reg, ns) - 1 else 0
    decreases ns, 1
  {
    if ns != [] {
      PassNodeDepth(reg, ns[0]);
      PassDepth(reg, ns[1..]);
      DepthAppend(reg, ExpandNode(reg, ns[0]).value, ExpandOnce(reg, ns[1..]).value);
    }
  }

  lemma {:induction false} PassNodeDepth(reg: Registry, n: Node)
    requires ExpandNode(reg, n).Some?
    ensures Depth(reg, ExpandNode(reg, n).value) <= if NodeDepth(reg, n) > 0 then NodeDepth(reg, n) - 1 else 0
    decreases n, 2
  {
    var out := ExpandNode(reg, n).value;
    match n {
      case Text(_) => assert out[1..] == [];
      case Ph(_) => assert out[1..] == [];
      case Call(name, args) =>
        if name in reg {
          FillDepth(reg, reg[name](args).value, args);
        } else {
          PassArgsDepth(reg, args);
          assert out[1..] == [];
        }
    }
  }

  lemma {:induction false} PassArgsDepth(reg: Registry, args: seq<Expr>)
    requires ExpandArgs(reg, args).Some?
    ensures ArgsDepth(reg, ExpandArgs(reg, args).value) <=
      if ArgsDepth(reg, args) > 0 then ArgsDepth(reg, args) - 1 else 0
    decreases args, 0
  {
    if args != [] {
      PassDepth(reg, args[0].nodes);
      PassArgsDepth(reg, args[1..]);
      var out := ExpandArgs(reg, args).value;
      assert out[0].nodes == ExpandOnce(reg, args[0].nodes).value && out[1..] == ExpandArgs(reg, args[1..]).value;
    }
  }

  /** Without a registered call a pass changes nothing, which is how the loop notices that it is done. */
  lemma {:induction false} FlatUnchanged(reg: Registry, ns: Sql)
    requires Depth(reg, ns) == 0
    ensures ExpandOnce(reg, ns) == Some(ns)
    decreases ns, 1
  {
    if ns != [] {
      FlatNodeUnchanged(reg, ns[0]);
      FlatUnchanged(reg, ns[1..]);
      assert [ns[0]] + ns[1..] == ns;
    }
  }

  lemma {:induction false} FlatNodeUnchanged(reg: Registry, n: Node)
    requires NodeDepth(reg, n) == 0
    ensures ExpandNode(reg, n) == Some([n])
    decreases n, 2
  {
    if n.Call? {
      FlatArgsUnchanged(reg, n.args);
    }
  }

  lemma {:induction false} FlatArgsUnchanged(reg: Registry, args: seq<Expr>)
    requires ArgsDepth(reg, args) == 0
    ensures ExpandArgs(reg, args) == Some(args)
    decreases args, 0
  {
    if args != [] {
      FlatUnchanged(reg, args[0].nodes);
      FlatArgsUnchanged(reg, args[1..]);
      assert [args[0]] + args[1..] == args;
    }
  }

  // ----- What expansion means: every call replaced where it stands -----

  /** The expansion of each part by itself, put together as the handlers say. */
  function Full(reg: Registry, ns: Sql): Option<Sql>
    decreases ns, 1
  {
    if ns == [] then Some([])
    else
      var (a, b) := (FullNode(reg, ns[0]), Full(reg, ns[1..]));
      if a.Some? && b.Some? then Some(a.value + b.value) else None
  }

  function FullNode(reg: Registry, n: Node): Option<Sql>
    decreases n, 2
  {
    match n
    case Text(_) => Some([n])
    case Ph(_) => Some([n])
    case Call(name, args) =>
      if name in reg then
        var pieces := reg[name](args);
        if pieces.Some? then FullPieces(reg, pieces.value, args) else None
      else
        var args' := FullArgs(reg, args);
        if args'.Some? then Some([Call(name, args'.value)]) else None
  }

  function FullPieces(reg: Registry, pieces: seq<Piece>, args: seq<Expr>): Option<Sql>
    decreases args, 1, |pieces|
  {
    if pieces == [] then Some([])
    else
      var (a, b) := (FullPiece(reg, pieces[0], args), FullPieces(reg, pieces[1..], args));
      if a.Some? && b.Some? then Some(a.value + b.value) else None
  }

  function FullPiece(reg: Registry, piece: Piece, args: seq<Expr>): Option<Sql>
    decreases args, 0
  {
    match piece
    case Lit(s) => Some([Text(s)])
    case Arg(i) => if i < |args| then Full(reg, args[i].nodes) else Some([])
  }

  function FullArgs(reg: Registry, args: seq<Expr>): Option<seq<Expr>>
    decreases args, 0
  {
    if args == [] then Some([])
    else
      var (a, b) := (Full(reg, args[0].nodes), FullArgs(reg, args[1..]));
      if a.Some? && b.Some? then Some([Expr(a.value)] + b.value) else None
  }

  function Join(a: Option<Sql>, b: Option<Sql>): Option<Sql> {
    if a.Some? && b.Some? then Some(a.value + b.value) else None
  }

  lemma Assoc(a: Sql, b: Sql, c: Sql)
    ensures (a + b) + c == a + (b + c)
  {
  }

  lemma {:induction false} FullAppend(reg: Registry, a: Sql, b: Sql)
    ensures Full(reg, a + b) == Join(Full(reg, a), Full(reg, b))
    decreases |a|
  {
    if a == [] {
      assert a + b == b;
      if Full(reg, b).Some? {
        assert [] + Full(reg, b).value == Full(reg, b).value;
      }
    } else {
      FullAppend(reg, a[1..], b);
      assert (a + b)[1..] == a[1..] + b;
      if Full(reg, a + b).Some? {
        Assoc(FullNode(reg, a[0]).value, Full(reg, a[1..]).value, Full(reg, b).value);
      }
    }
  }

  lemma FullOne(reg: Registry, n: Node)
    ensures Full(reg, [n]) == FullNode(reg, n)
  {
    assert [n][1..] == [];
    if FullNode(reg, n).Some? {
      assert FullNode(reg, n).value + [] == FullNode(reg, n).value;
    }
  }

  lemma {:induction false} FullFill(reg: Registry, pieces: seq<Piece>, args: seq<Expr>)
    ensures Full(reg, Fill(pieces, args)) == FullPieces(reg, pieces, args)
    decreases |pieces|
  {
    if pieces != [] {
      var head := PieceSql(pieces[0], args);
      FullFill(reg, pieces[1..], args);
      FullAppend(reg, head, Fill(pieces[1..], args));
      if pieces[0].Lit? {
        FullOne(reg, head[0]);
      }
    }
  }

  /** A pass keeps the meaning: an error stays an error, and anything else still expands to the same statement. */
  lemma {:induction false} PassKeepsMeaning(reg: Registry, ns: Sql)
    ensures var next := ExpandOnce(reg, ns);
      if next.None? then Full(reg, ns).None? else Full(reg, next.value) == Full(reg, ns)
    decreases ns, 1
  {
    if ns != [] {
      PassNodeKeepsMeaning(reg, ns[0]);
      PassKeepsMeaning(reg, ns[1..]);
      if ExpandOnce(reg, ns).Some? {
        FullAppend(reg, ExpandNode(reg, ns[0]).value, ExpandOnce(reg, ns[1..]).value);
      }
    }
  }

  lemma {:induction false} PassNodeKeepsMeaning(reg: Registry, n: Node)
    ensures var next := ExpandNode(reg, n);
      if next.None? then FullNode(reg, n).None? else Full(reg, next.value) == FullNode(reg, n)
    decreases n, 2
  {
    match n {
      case Text(_) => FullOne(reg, n);
      case Ph(_) => FullOne(reg, n);
      case Call(name, args) =>
        if name in reg {
          if reg[name](args).Some? {
            FullFill(reg, reg[name](args).value, args);
          }
        } else {
          PassArgsKeepMeaning(reg, args);
          if ExpandArgs(reg, args).Some? {
            FullOne(reg, Call(name, ExpandArgs(reg, args).value));
          }
        }
    }
  }

  lemma {:induction false} PassArgsKeepMeaning(reg: Registry, args: seq<Expr>)
    ensures var next := ExpandArgs(reg, args);
      if next.None? then FullArgs(reg, args).None? else FullArgs(reg, next.value) == FullArgs(reg, args)
    decreases args, 0
  {
    if args != [] {
      PassKeepsMeaning(reg, args[0].nodes);
      PassArgsKeepMeaning(reg, args[1..]);
      if ExpandArgs(reg, args).Some? {
        var next := ExpandArgs(reg, args).value;
        assert next[0].nodes == ExpandOnce(reg, args[0].nodes).value && next[1..] == ExpandArgs(reg, args[1..]).value;
      }
    }
  }

  lemma {:induction false} FlatIsFull(reg: Registry, ns: Sql)
    requires Depth(reg, ns) == 0
    ensures Full(reg, ns) == Some(ns)
    decreases ns, 1
  {
    if ns != [] {
      FlatNodeIsFull(reg, ns[0]);
      FlatIsFull(reg, ns[1..]);
      assert [ns[0]] + ns[1..] == ns;
    }
  }

  lemma {:induction false} FlatNodeIsFull(reg: Registry, n: Node)
    requires NodeDepth(reg, n) == 0
    ensures FullNode(reg, n) == Some([n])
    decreases n, 2
  {
    if n.Call? {
      FlatArgsAreFull(reg, n.args);
    }
  }

  lemma {:induction false} FlatArgsAreFull(reg: Registry, args: seq<Expr>)
    requires ArgsDepth(reg, args) == 0
    ensures FullArgs(reg, args) == Some(args)
    decreases args, 0
  {
    if args != [] {
      FlatIsFull(reg, args[0].nodes);
      FlatArgsAreFull(reg, args[1..]);
      assert [args[0]] + args[1..] == args;
    }
  }

  /** expandVirtualFuncs: passes until none changes anything. It ends, leaves no registered call, and what it leaves is
      the statement with every call expanded where it stands. */
  method ExpandVirtualFuncs(reg: Registry, query: Sql) returns (r: Option<Sql>)
    ensures r == Full(reg, query)
    ensures r.Some? ==> Depth(reg, r.value) == 0
  {
    var q := query;
    while true
      invariant Full(reg, q) == Full(reg, query)
      decreases Depth(reg, q)
    {
      var next := ExpandOnce(reg, q);
      PassKeepsMeaning(reg, q);
      if next.None? {
        return None;
      }
      PassDepth(reg, q);
      if Depth(reg, q) == 0 {
        FlatUnchanged(reg, q);
        FlatIsFull(reg, q);
        return next;
      }
      q := next.value;
    }
  }
}
