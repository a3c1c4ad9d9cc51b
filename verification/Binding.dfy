/** Argument binding through expansion: which argument each placeholder of the unpacked statement receives. */
module Binding {
  import opened Errors
  import opened Lexer
  import opened Expansion
  import opened Intervals

  // ----- Placeholders of a statement -----

  /** The placeholders in the order they stand in the text. */
  function Phs(ns: Sql): seq<Placeholder>
    decreases ns, 1
  {
    if ns == [] then [] else NodePhs(ns[0]) + Phs(ns[1..])
  }

  function NodePhs(n: Node): seq<Placeholder>
    decreases n, 2
  {
    match n
    case Text(_) => []
    case Ph(p) => [p]
    case Call(_, args) => ArgsPhs(args)
  }

  function ArgsPhs(args: seq<Expr>): seq<Placeholder>
    decreases args, 0
  {
    if args == [] then [] else Phs(args[0].nodes) + ArgsPhs(args[1..])
  }

  /** Every placeholder replaced on its own. */
  function Map(ns: Sql, g: Placeholder -> Placeholder): (r: Sql)
    ensures |r| == |ns|
    decreases ns, 1
  {
    if ns == [] then [] else [MapNode(ns[0], g)] + Map(ns[1..], g)
  }

  function MapNode(n: Node, g: Placeholder -> Placeholder): Node
    decreases n, 2
  {
    match n
    case Text(_) => n
    case Ph(p) => Ph(g(p))
    case Call(name, args) => Call(name, MapArgs(args, g))
  }

  function MapArgs(args: seq<Expr>, g: Placeholder -> Placeholder): (r: seq<Expr>)
    ensures |r| == |args|
    decreases args, 0
  {
    if args == [] then [] else [Expr(Map(args[0].nodes, g))] + MapArgs(args[1..], g)
  }

  /** The placeholders replaced, in text order, by f(k), f(k + 1), ... */
  function Relabel(ns: Sql, f: nat -> Placeholder, k: nat): (r: Sql)
    decreases ns, 1
  {
    if ns == [] then [] else [RelabelNode(ns[0], f, k)] + Relabel(ns[1..], f, k + |NodePhs(ns[0])|)
  }

  function RelabelNode(n: Node, f: nat -> Placeholder, k: nat): Node
    decreases n, 2
  {
    match n
    case Text(_) => n
    case Ph(_) => Ph(f(k))
    case Call(name, args) => Call(name, RelabelArgs(args, f, k))
  }

  function RelabelArgs(args: seq<Expr>, f: nat -> Placeholder, k: nat): (r: seq<Expr>)
    ensures |r| == |args|
    decreases args, 0
  {
    if args == [] then []
    else [Expr(Relabel(args[0].nodes, f, k))] + RelabelArgs(args[1..], f, k + |Phs(args[0].nodes)|)
  }

  // ----- Laws -----

  lemma {:induction false} PhsAppend(a: Sql, b: Sql)
    ensures Phs(a + b) == Phs(a) + Phs(b)
    decreases |a|
  {
    if a == [] {
      assert a + b == b;
    } else {
      PhsAppend(a[1..], b);
      assert (a + b)[1..] == a[1..] + b;
    }
  }

  lemma {:induction false} MapAppend(a: Sql, b: Sql, g: Placeholder -> Placeholder)
    ensures Map(a + b, g) == Map(a, g) + Map(b, g)
    decreases |a|
  {
    if a == [] {
      assert a + b == b;
    } else {
      MapAppend(a[1..], b, g);
      assert (a + b)[1..] == a[1..] + b && (a + b)[0] == a[0];
      assert Map(a + b, g) == [MapNode(a[0], g)] + (Map(a[1..], g) + Map(b, g));
    }
  }

  /** Mapping after relabelling is relabelling with the composition. */
  lemma {:induction false} MapRelabel(ns: Sql, f: nat -> Placeholder, g: Placeholder -> Placeholder,
                                      h: nat -> Placeholder, k: nat)
    requires forall i :: k <= i < k + |Phs(ns)| ==> h(i) == g(f(i))
    ensures Map(Relabel(ns, f, k), g) == Relabel(ns, h, k)
    decreases ns, 1
  {
    if ns != [] {
      MapRelabelNode(ns[0], f, g, h, k);
      MapRelabel(ns[1..], f, g, h, k + |NodePhs(ns[0])|);
      var r := Relabel(ns, f, k);
      assert r[0] == RelabelNode(ns[0], f, k) && r[1..] == Relabel(ns[1..], f, k + |NodePhs(ns[0])|);
    }
  }

  lemma {:induction false} MapRelabelNode(n: Node, f: nat -> Placeholder, g: Placeholder -> Placeholder,
                                          h: nat -> Placeholder, k: nat)
    requires forall i :: k <= i < k + |NodePhs(n)| ==> h(i) == g(f(i))
    ensures MapNode(RelabelNode(n, f, k), g) == RelabelNode(n, h, k)
    decreases n, 2
  {
    if n.Call? {
      MapRelabelArgs(n.args, f, g, h, k);
    }
  }

  lemma {:induction false} MapRelabelArgs(args: seq<Expr>, f: nat -> Placeholder, g: Placeholder -> Placeholder,
                                          h: nat -> Placeholder, k: nat)
    requires forall i :: k <= i < k + |ArgsPhs(args)| ==> h(i) == g(f(i))
    ensures MapArgs(RelabelArgs(args, f, k), g) == RelabelArgs(args, h, k)
    decreases args, 0
  {
    if args != [] {
      MapRelabel(args[0].nodes, f, g, h, k);
      MapRelabelArgs(args[1..], f, g, h, k + |Phs(args[0].nodes)|);
      var r := RelabelArgs(args, f, k);
      assert r[0].nodes == Relabel(args[0].nodes, f, k);
      assert r[1..] == RelabelArgs(args[1..], f, k + |Phs(args[0].nodes)|);
    }
  }

  /** A count of placeholders is all that relabelling looks at. */
  lemma {:induction false} RelabelMap(ns: Sql, g: Placeholder -> Placeholder, f: nat -> Placeholder, k: nat)
    ensures Relabel(Map(ns, g), f, k) == Relabel(ns, f, k) && |Phs(Map(ns, g))| == |Phs(ns)|
    decreases ns, 1
  {
    if ns != [] {
      RelabelMapNode(ns[0], g, f, k);
      RelabelMap(ns[1..], g, f, k + |NodePhs(ns[0])|);
      var m := Map(ns, g);
      assert m[0] == MapNode(ns[0], g) && m[1..] == Map(ns[1..], g);
    }
  }

  lemma {:induction false} RelabelMapNode(n: Node, g: Placeholder -> Placeholder, f: nat -> Placeholder, k: nat)
    ensures RelabelNode(MapNode(n, g), f, k) == RelabelNode(n, f, k) && |NodePhs(MapNode(n, g))| == |NodePhs(n)|
    decreases n, 2
  {
    if n.Call? {
      RelabelMapArgs(n.args, g, f, k);
    }
  }

  lemma {:induction false} RelabelMapArgs(args: seq<Expr>, g: Placeholder -> Placeholder, f: nat -> Placeholder, k: nat)
    ensures RelabelArgs(MapArgs(args, g), f, k) == RelabelArgs(args, f, k)
    ensures |ArgsPhs(MapArgs(args, g))| == |ArgsPhs(args)|
    decreases args, 0
  {
    if args != [] {
      RelabelMap(args[0].nodes, g, f, k);
      RelabelMapArgs(args[1..], g, f, k + |Phs(args[0].nodes)|);
      var m := MapArgs(args, g);
      assert m[0].nodes == Map(args[0].nodes, g) && m[1..] == MapArgs(args[1..], g);
    }
  }

  /** The placeholders a relabelling leaves. */
  lemma {:induction false} RelabelPhs(ns: Sql, f: nat -> Placeholder, k: nat)
    ensures |Phs(Relabel(ns, f, k))| == |Phs(ns)|
    ensures forall i :: 0 <= i < |Phs(ns)| ==> Phs(Relabel(ns, f, k))[i] == f(k + i)
    decreases ns, 1
  {
    if ns != [] {
      RelabelNodePhs(ns[0], f, k);
      RelabelPhs(ns[1..], f, k + |NodePhs(ns[0])|);
      var r := Relabel(ns, f, k);
      assert r[0] == RelabelNode(ns[0], f, k) && r[1..] == Relabel(ns[1..], f, k + |NodePhs(ns[0])|);
    }
  }

  lemma {:induction false} RelabelNodePhs(n: Node, f: nat -> Placeholder, k: nat)
    ensures |NodePhs(RelabelNode(n, f, k))| == |NodePhs(n)|
    ensures forall i :: 0 <= i < |NodePhs(n)| ==> NodePhs(RelabelNode(n, f, k))[i] == f(k + i)
    decreases n, 2
  {
    if n.Call? {
      RelabelArgsPhs(n.args, f, k);
    }
  }

  lemma {:induction false} RelabelArgsPhs(args: seq<Expr>, f: nat -> Placeholder, k: nat)
    ensures |ArgsPhs(RelabelArgs(args, f, k))| == |ArgsPhs(args)|
    ensures forall i :: 0 <= i < |ArgsPhs(args)| ==> ArgsPhs(RelabelArgs(args, f, k))[i] == f(k + i)
    decreases args, 0
  {
    if args != [] {
      var r, mid := RelabelArgs(args, f, k), k + |Phs(args[0].nodes)|;
      assert r[0].nodes == Relabel(args[0].nodes, f, k) && r[1..] == RelabelArgs(args[1..], f, mid);
      var a, b := Phs(r[0].nodes), ArgsPhs(r[1..]);
      RelabelPhs(args[0].nodes, f, k);
      RelabelArgsPhs(args[1..], f, mid);
      assert ArgsPhs(r) == a + b;
      assert forall i :: 0 <= i < |b| ==> b[i] == f(mid + i);
    }
  }

  lemma BothParts(a: seq<Placeholder>, b: seq<Placeholder>, f: nat -> Placeholder, k: nat)
    requires forall i :: 0 <= i < |a + b| ==> (a + b)[i] == f(k + i)
    ensures forall i :: 0 <= i < |a| ==> a[i] == f(k + i)
    ensures forall i :: 0 <= i < |b| ==> b[i] == f(k + |a| + i)
  {
    forall i | 0 <= i < |a|
      ensures a[i] == f(k + i)
    {
      assert (a + b)[i] == a[i];
    }
    forall i | 0 <= i < |b|
      ensures b[i] == f(k + |a| + i)
    {
      assert (a + b)[|a| + i] == b[i];
    }
  }

  /** A statement whose placeholders already are f(k), f(k + 1), ... is its own relabelling. */
  lemma {:induction false} RelabelSame(ns: Sql, f: nat -> Placeholder, k: nat)
    requires forall i :: 0 <= i < |Phs(ns)| ==> Phs(ns)[i] == f(k + i)
    ensures Relabel(ns, f, k) == ns
    decreases ns, 1
  {
    if ns != [] {
      var a, b := NodePhs(ns[0]), Phs(ns[1..]);
      assert Phs(ns) == a + b;
      BothParts(a, b, f, k);
      RelabelSameNode(ns[0], f, k);
      RelabelSame(ns[1..], f, k + |a|);
      assert ns == [ns[0]] + ns[1..];
    }
  }

  lemma {:induction false} RelabelSameNode(n: Node, f: nat -> Placeholder, k: nat)
    requires forall i :: 0 <= i < |NodePhs(n)| ==> NodePhs(n)[i] == f(k + i)
    ensures RelabelNode(n, f, k) == n
    decreases n, 2
  {
    if n.Call? {
      assert NodePhs(n) == ArgsPhs(n.args);
      RelabelSameArgs(n.args, f, k);
    } else if n.Ph? {
      assert NodePhs(n)[0] == f(k + 0);
    }
  }

  lemma {:induction false} RelabelSameArgs(args: seq<Expr>, f: nat -> Placeholder, k: nat)
    requires forall i :: 0 <= i < |ArgsPhs(args)| ==> ArgsPhs(args)[i] == f(k + i)
    ensures RelabelArgs(args, f, k) == args
    decreases args, 0
  {
    if args != [] {
      var a, b := Phs(args[0].nodes), ArgsPhs(args[1..]);
      assert ArgsPhs(args) == a + b;
      BothParts(a, b, f, k);
      RelabelSame(args[0].nodes, f, k);
      RelabelSameArgs(args[1..], f, k + |a|);
      assert args == [Expr(args[0].nodes)] + args[1..];
    }
  }

  lemma {:induction false} MapPhs(ns: Sql, g: Placeholder -> Placeholder)
    ensures |Phs(Map(ns, g))| == |Phs(ns)| && forall i :: 0 <= i < |Phs(ns)| ==> Phs(Map(ns, g))[i] == g(Phs(ns)[i])
    decreases ns, 1
  {
    if ns != [] {
      MapNodePhs(ns[0], g);
      MapPhs(ns[1..], g);
      var m := Map(ns, g);
      assert m[0] == MapNode(ns[0], g) && m[1..] == Map(ns[1..], g);
    }
  }

  lemma {:induction false} MapNodePhs(n: Node, g: Placeholder -> Placeholder)
    ensures |NodePhs(MapNode(n, g))| == |NodePhs(n)|
    ensures forall i :: 0 <= i < |NodePhs(n)| ==> NodePhs(MapNode(n, g))[i] == g(NodePhs(n)[i])
    decreases n, 2
  {
    if n.Call? {
      MapArgsPhs(n.args, g);
    }
  }

  lemma {:induction false} MapArgsPhs(args: seq<Expr>, g: Placeholder -> Placeholder)
    ensures |ArgsPhs(MapArgs(args, g))| == |ArgsPhs(args)|
    ensures forall i :: 0 <= i < |ArgsPhs(args)| ==> ArgsPhs(MapArgs(args, g))[i] == g(ArgsPhs(args)[i])
    decreases args, 0
  {
    if args != [] {
      MapPhs(args[0].nodes, g);
      MapArgsPhs(args[1..], g);
      var m := MapArgs(args, g);
      assert m[0].nodes == Map(args[0].nodes, g) && m[1..] == MapArgs(args[1..], g);
    }
  }

  // ----- Expansion does not look at placeholders -----

  /** A handler that treats every placeholder alike. */
  ghost predicate Blind(handler: Handler) {
    forall args, g {:trigger handler(MapArgs(args, g))} :: handler(MapArgs(args, g)) == handler(args)
  }

  ghost predicate AllBlind(reg: Registry) {
    forall name :: name in reg ==> Blind(reg[name])
  }

  function MapOpt(ns: Option<Sql>, g: Placeholder -> Placeholder): Option<Sql> {
    if ns.Some? then Some(Map(ns.value, g)) else None
  }

  lemma {:induction false} FullMap(reg: Registry, ns: Sql, g: Placeholder -> Placeholder)
    requires AllBlind(reg)
    ensures Full(reg, Map(ns, g)) == MapOpt(Full(reg, ns), g)
    decreases ns, 1
  {
    if ns != [] {
      FullMapNode(reg, ns[0], g);
      FullMap(reg, ns[1..], g);
      var m := Map(ns, g);
      assert m[0] == MapNode(ns[0], g) && m[1..] == Map(ns[1..], g);
      if Full(reg, ns).Some? {
        MapAppend(FullNode(reg, ns[0]).value, Full(reg, ns[1..]).value, g);
      }
    }
  }

  lemma {:induction false} FullMapNode(reg: Registry, n: Node, g: Placeholder -> Placeholder)
    requires AllBlind(reg)
    ensures FullNode(reg, MapNode(n, g)) == MapOpt(FullNode(reg, n), g)
    decreases n, 2
  {
    match n {
      case Text(_) => assert Map([n], g) == [n];
      case Ph(p) => assert Map([n], g) == [Ph(g(p))];
      case Call(name, args) =>
        if name in reg {
          assert reg[name](MapArgs(args, g)) == reg[name](args);
          if reg[name](args).Some? {
            FullMapPieces(reg, reg[name](args).value, args, g);
          }
        } else {
          FullMapArgs(reg, args, g);
          if FullArgs(reg, args).Some? {
            assert Map([Call(name, FullArgs(reg, args).value)], g) ==
              [Call(name, MapArgs(FullArgs(reg, args).value, g))];
          }
        }
    }
  }

  lemma {:induction false} MapArgsAt(args: seq<Expr>, g: Placeholder -> Placeholder, i: nat)
    requires i < |args|
    ensures MapArgs(args, g)[i].nodes == Map(args[i].nodes, g)
    decreases |args|
  {
    if i > 0 {
      MapArgsAt(args[1..], g, i - 1);
    }
  }

  lemma {:induction false} FullMapPieces(reg: Registry, pieces: seq<Piece>, args: seq<Expr>,
                                         g: Placeholder -> Placeholder)
    requires AllBlind(reg)
    ensures FullPieces(reg, pieces, MapArgs(args, g)) == MapOpt(FullPieces(reg, pieces, args), g)
    decreases args, 1, |pieces|
  {
    if pieces != [] {
      FullMapPieces(reg, pieces[1..], args, g);
      match pieces[0] {
        case Lit(s) => assert Map([Text(s)], g) == [Text(s)];
        case Arg(i) =>
          if i < |args| {
            MapArgsAt(args, g, i);
            FullMap(reg, args[i].nodes, g);
          }
      }
      if FullPieces(reg, pieces, args).Some? {
        MapAppend(FullPiece(reg, pieces[0], args).value, FullPieces(reg, pieces[1..], args).value, g);
      }
    }
  }

  lemma {:induction false} FullMapArgs(reg: Registry, args: seq<Expr>, g: Placeholder -> Placeholder)
    requires AllBlind(reg)
    ensures FullArgs(reg, MapArgs(args, g)) ==
      if FullArgs(reg, args).Some? then Some(MapArgs(FullArgs(reg, args).value, g)) else None
    decreases args, 0
  {
    if args != [] {
      FullMap(reg, args[0].nodes, g);
      FullMapArgs(reg, args[1..], g);
      var m := MapArgs(args, g);
      assert m[0].nodes == Map(args[0].nodes, g) && m[1..] == MapArgs(args[1..], g);
      if FullArgs(reg, args).Some? {
        var r := FullArgs(reg, args).value;
        assert r[0].nodes == Full(reg, args[0].nodes).value && r[1..] == FullArgs(reg, args[1..]).value;
      }
    }
  }

  // ----- When the order of placeholders survives -----

  /** The indices of the arguments a handler copies, in order. */
  function Copied(pieces: seq<Piece>, n: nat): (ix: seq<nat>)
    ensures forall p :: 0 <= p < |ix| ==> ix[p] < n
  {
    if pieces == [] then []
    else (if pieces[0].Arg? && pieces[0].i < n then [pieces[0].i] else []) + Copied(pieces[1..], n)
  }

  predicate HasPh(args: seq<Expr>, i: nat) {
    i < |args| && Phs(args[i].nodes) != []
  }

  /** The arguments that hold placeholders are each copied exactly once, in order. */
  ghost predicate KeepsOrder(pieces: seq<Piece>, args: seq<Expr>) {
    Ordered(Copied(pieces, |args|), args)
  }

  ghost predicate Ordered(ix: seq<nat>, args: seq<Expr>) {
    && (forall p, q :: 0 <= p < q < |ix| && HasPh(args, ix[p]) && HasPh(args, ix[q]) ==> ix[p] < ix[q])
    && (forall i :: 0 <= i < |args| && HasPh(args, i) ==> i in ix)
  }

  /** Every registered call of the statement keeps the order of its placeholders. */
  ghost predicate Aligned(reg: Registry, ns: Sql)
    decreases ns, 1
  {
    ns == [] || (AlignedNode(reg, ns[0]) && Aligned(reg, ns[1..]))
  }

  ghost predicate AlignedNode(reg: Registry, n: Node)
    decreases n, 2
  {
    match n
    case Text(_) => true
    case Ph(_) => true
    case Call(name, args) =>
      && (name in reg && reg[name](args).Some? ==> KeepsOrder(reg[name](args).value, args))
      && AlignedArgs(reg, args)
  }

  /** An argument without placeholders cannot misplace any. */
  ghost predicate AlignedArgs(reg: Registry, args: seq<Expr>)
    decreases args, 0
  {
    args == [] || ((Phs(args[0].nodes) != [] ==> Aligned(reg, args[0].nodes)) && AlignedArgs(reg, args[1..]))
  }

  // ----- Counting through -----

  /** Placeholders numbered from 1, and a number read back from 0. */
  function Numbering(): nat -> Placeholder {
    (i: nat) => Ordinal(i + 1)
  }

  function Tag(p: Placeholder): nat {
    if p.Ordinal? && p.k > 0 then p.k - 1 else 0
  }

  function Tags(ps: seq<Placeholder>): (r: seq<nat>)
    ensures |r| == |ps| && forall i :: 0 <= i < |ps| ==> r[i] == Tag(ps[i])
  {
    seq(|ps|, i requires 0 <= i < |ps| => Tag(ps[i]))
  }

  lemma TagsAppend(a: seq<Placeholder>, b: seq<Placeholder>)
    ensures Tags(a + b) == Tags(a) + Tags(b)
  {
  }

  /** Numbers that stay in an interval. */
  ghost predicate In(t: seq<nat>, lo: nat, hi: nat) {
    lo <= hi && forall j :: 0 <= j < |t| ==> lo <= t[j] < hi
  }

  ghost predicate Counts(t: seq<nat>, lo: nat, hi: nat) {
    lo <= hi && t == Range(lo, hi)
  }

  lemma AtMost(a: seq<nat>, lo: nat, hi: nat)
    requires In(a, lo, hi) && forall j :: 0 <= j < |a| ==> a[j] == lo + j
    ensures |a| <= hi - lo
  {
    if a != [] {
      assert a[|a| - 1] < hi;
    }
  }

  /** Two blocks count through two adjacent intervals exactly when each counts through its own. */
  lemma SplitRange(a: seq<nat>, b: seq<nat>, lo: nat, mid: nat, hi: nat)
    requires In(a, lo, mid) && In(b, mid, hi)
    ensures In(a + b, lo, hi)
    ensures Counts(a + b, lo, hi) <==> Counts(a, lo, mid) && Counts(b, mid, hi)
  {
    if Counts(a, lo, mid) && Counts(b, mid, hi) {
      RangeJoin(lo, mid, hi);
    }
    if Counts(a + b, lo, hi) {
      var r := Range(lo, hi);
      assert forall j :: 0 <= j < |a| ==> a[j] == (a + b)[j] == r[j];
      assert forall j :: 0 <= j < |b| ==> b[j] == (a + b)[|a| + j] == r[|a| + j];
      AtMost(a, lo, mid);
      if b != [] {
        assert b[0] >= mid;
      }
    }
  }

  function Offset(args: seq<Expr>, i: nat): nat
    requires i <= |args|
  {
    if i == 0 then 0 else |Phs(args[0].nodes)| + Offset(args[1..], i - 1)
  }

  lemma {:induction false} OffsetNext(args: seq<Expr>, i: nat)
    requires i < |args|
    ensures Offset(args, i + 1) == Offset(args, i) + |Phs(args[i].nodes)|
  {
    if i > 0 {
      OffsetNext(args[1..], i - 1);
    }
  }

  lemma {:induction false} OffsetAll(args: seq<Expr>)
    ensures Offset(args, |args|) == |ArgsPhs(args)|
  {
    if args != [] {
      OffsetAll(args[1..]);
    }
  }

  lemma {:induction false} RelabelArgsAt(args: seq<Expr>, f: nat -> Placeholder, k: nat, i: nat)
    requires i < |args|
    ensures RelabelArgs(args, f, k)[i].nodes == Relabel(args[i].nodes, f, k + Offset(args, i))
  {
    if i > 0 {
      RelabelArgsAt(args[1..], f, k + |Phs(args[0].nodes)|, i - 1);
    }
  }

  lemma {:induction false} AlignedArgsEach(reg: Registry, args: seq<Expr>)
    ensures AlignedArgs(reg, args) <==> forall i :: 0 <= i < |args| && HasPh(args, i) ==> Aligned(reg, args[i].nodes)
    decreases |args|
  {
    if args != [] {
      AlignedArgsEach(reg, args[1..]);
      assert forall i :: 0 < i < |args| ==> args[i] == args[1..][i - 1] && HasPh(args, i) == HasPh(args[1..], i - 1);
      assert forall i :: 0 <= i < |args| - 1 ==>
        args[1..][i] == args[i + 1] && HasPh(args[1..], i) == HasPh(args, i + 1);
    }
  }

  /** Whatever a handler copies expands by itself. */
  lemma {:induction false} CopiedExpand(reg: Registry, pieces: seq<Piece>, args: seq<Expr>, i: nat)
    requires FullPieces(reg, pieces, args).Some? && i in Copied(pieces, |args|)
    ensures i < |args| && Full(reg, args[i].nodes).Some?
    decreases |pieces|
  {
    if !(pieces[0].Arg? && pieces[0].i == i) {
      CopiedExpand(reg, pieces[1..], args, i);
    }
  }

  /** The blocks of numbers that the copied arguments contribute. */
  ghost function BlocksOf(reg: Registry, ix: seq<nat>, args: seq<Expr>): (ts: seq<seq<nat>>)
    ensures |ts| == |args|
  {
    seq(|args|, i requires 0 <= i < |args| =>
      if i in ix && Full(reg, args[i].nodes).Some? then Tags(Phs(Full(reg, args[i].nodes).value)) else [])
  }

  lemma PieceTags(reg: Registry, piece: Piece, args: seq<Expr>, ix: seq<nat>)
    requires FullPiece(reg, piece, args).Some? && (piece.Arg? && piece.i < |args| ==> piece.i in ix)
    ensures Tags(Phs(FullPiece(reg, piece, args).value)) ==
      if piece.Arg? && piece.i < |args| then BlocksOf(reg, ix, args)[piece.i] else []
  {
    if piece.Lit? {
      assert FullPiece(reg, piece, args).value[1..] == [];
    }
  }

  lemma {:induction false} PiecesTags(reg: Registry, pieces: seq<Piece>, args: seq<Expr>, ix: seq<nat>)
    requires FullPieces(reg, pieces, args).Some?
    requires forall i :: i in Copied(pieces, |args|) ==> i in ix
    ensures Indices(Copied(pieces, |args|), BlocksOf(reg, ix, args))
    ensures Tags(Phs(FullPieces(reg, pieces, args).value)) == Cat(Copied(pieces, |args|), BlocksOf(reg, ix, args))
    decreases |pieces|
  {
    var ts := BlocksOf(reg, ix, args);
    if pieces != [] {
      var a, b := FullPiece(reg, pieces[0], args).value, FullPieces(reg, pieces[1..], args).value;
      var rest := Copied(pieces[1..], |args|);
      var all := Copied(pieces, |args|);
      assert pieces[0].Arg? && pieces[0].i < |args| ==> all[0] in all && all[1..] == rest;
      assert forall i :: i in rest ==> i in all;
      PiecesTags(reg, pieces[1..], args, ix);
      PieceTags(reg, pieces[0], args, ix);
      PhsAppend(a, b);
      TagsAppend(Phs(a), Phs(b));
      assert Tags(Phs(a)) + Tags(Phs(b)) == Cat(all, ts) by {
        if !(pieces[0].Arg? && pieces[0].i < |args|) {
          assert all == rest;
        }
      }
    }
  }

  // ----- The exact condition -----

  /** The expansion of a numbered statement counts through its numbers exactly when the statement is aligned; in any
      case it uses no numbers but its own. */
  ghost predicate CountsIff(reg: Registry, ns: Sql, k: nat) {
    var full := Full(reg, Relabel(ns, Numbering(), k));
    full.Some? ==>
      && In(Tags(Phs(full.value)), k, k + |Phs(ns)|)
      && (Counts(Tags(Phs(full.value)), k, k + |Phs(ns)|) <==> Aligned(reg, ns))
  }

  ghost predicate NodeCountsIff(reg: Registry, n: Node, k: nat) {
    var full := FullNode(reg, RelabelNode(n, Numbering(), k));
    full.Some? ==>
      && In(Tags(Phs(full.value)), k, k + |NodePhs(n)|)
      && (Counts(Tags(Phs(full.value)), k, k + |NodePhs(n)|) <==> AlignedNode(reg, n))
  }

  lemma {:induction false} StatementCounts(reg: Registry, ns: Sql, k: nat)
    requires AllBlind(reg)
    ensures CountsIff(reg, ns, k)
    decreases ns, 1
  {
    var r := Relabel(ns, Numbering(), k);
    if ns != [] && Full(reg, r).Some? {
      var mid := k + |NodePhs(ns[0])|;
      assert r[0] == RelabelNode(ns[0], Numbering(), k) && r[1..] == Relabel(ns[1..], Numbering(), mid);
      NodeCounts(reg, ns[0], k);
      StatementCounts(reg, ns[1..], mid);
      var a, b := FullNode(reg, r[0]).value, Full(reg, r[1..]).value;
      PhsAppend(a, b);
      TagsAppend(Phs(a), Phs(b));
      SplitRange(Tags(Phs(a)), Tags(Phs(b)), k, mid, k + |Phs(ns)|);
    }
  }

  lemma {:induction false} NodeCounts(reg: Registry, n: Node, k: nat)
    requires AllBlind(reg)
    ensures NodeCountsIff(reg, n, k)
    decreases n, 2
  {
    var r := RelabelNode(n, Numbering(), k);
    if FullNode(reg, r).Some? {
      match n {
        case Text(_) => assert Phs([n]) == [] by { assert [n][1..] == []; }
        case Ph(_) =>
          assert Phs([r]) == [Ordinal(k + 1)] by { assert [r][1..] == []; }
        case Call(name, args) =>
          if name in reg {
            CallCounts(reg, n, k);
          } else {
            ArgsCount(reg, args, k);
            var c := Call(name, FullArgs(reg, r.args).value);
            assert Phs([c]) == ArgsPhs(c.args) by { assert [c][1..] == []; }
          }
      }
    }
  }

  ghost predicate ArgsCountIff(reg: Registry, args: seq<Expr>, k: nat) {
    var full := FullArgs(reg, RelabelArgs(args, Numbering(), k));
    full.Some? ==>
      && In(Tags(ArgsPhs(full.value)), k, k + |ArgsPhs(args)|)
      && (Counts(Tags(ArgsPhs(full.value)), k, k + |ArgsPhs(args)|) <==> AlignedArgs(reg, args))
  }

  lemma {:induction false} ArgsCount(reg: Registry, args: seq<Expr>, k: nat)
    requires AllBlind(reg)
    ensures ArgsCountIff(reg, args, k)
    decreases args, 0
  {
    var r := RelabelArgs(args, Numbering(), k);
    if args != [] && FullArgs(reg, r).Some? {
      var mid := k + |Phs(args[0].nodes)|;
      assert r[0].nodes == Relabel(args[0].nodes, Numbering(), k) && r[1..] == RelabelArgs(args[1..], Numbering(), mid);
      StatementCounts(reg, args[0].nodes, k);
      ArgsCount(reg, args[1..], mid);
      var all := FullArgs(reg, r).value;
      assert all[0].nodes == Full(reg, r[0].nodes).value && all[1..] == FullArgs(reg, r[1..]).value;
      JoinCounts(args, all, k, mid, mid + |ArgsPhs(args[1..])|,
                 Aligned(reg, args[0].nodes), AlignedArgs(reg, args[1..]));
    }
  }

  /** The tags of an argument list count through when those of its parts do, unless a part has none. */
  lemma JoinCounts(args: seq<Expr>, all: seq<Expr>, k: nat, mid: nat, hi: nat, left: bool, right: bool)
    requires args != [] && all != [] && mid == k + |Phs(args[0].nodes)|
    requires In(Tags(Phs(all[0].nodes)), k, mid) && (Counts(Tags(Phs(all[0].nodes)), k, mid) <==> left)
    requires hi == mid + |ArgsPhs(args[1..])|
    requires In(Tags(ArgsPhs(all[1..])), mid, hi) && (Counts(Tags(ArgsPhs(all[1..])), mid, hi) <==> right)
    ensures hi == k + |ArgsPhs(args)| && In(Tags(ArgsPhs(all)), k, hi)
    ensures Counts(Tags(ArgsPhs(all)), k, hi) <==> (k < mid ==> left) && right
  {
    var a, b := Tags(Phs(all[0].nodes)), Tags(ArgsPhs(all[1..]));
    assert Tags(ArgsPhs(all)) == a + b by { TagsAppend(Phs(all[0].nodes), ArgsPhs(all[1..])); }
    CountsJoined(a, b, k, mid, hi, left, right);
  }

  lemma CountsJoined(a: seq<nat>, b: seq<nat>, lo: nat, mid: nat, hi: nat, left: bool, right: bool)
    requires In(a, lo, mid) && In(b, mid, hi) && (Counts(a, lo, mid) <==> left) && (Counts(b, mid, hi) <==> right)
    ensures In(a + b, lo, hi) && (Counts(a + b, lo, hi) <==> (lo < mid ==> left) && right)
  {
    SplitRange(a, b, lo, mid, hi);
    NoneCounts(a, lo, mid);
  }

  lemma NoneCounts(t: seq<nat>, lo: nat, hi: nat)
    requires In(t, lo, hi)
    ensures lo == hi ==> Counts(t, lo, hi)
  {
    if lo == hi && t != [] {
      FirstIn(t, lo, hi);
      assert false;
    }
  }

  lemma FirstIn(t: seq<nat>, lo: nat, hi: nat)
    requires In(t, lo, hi) && t != []
    ensures lo < hi
  {
    assert t[0] < hi;
  }

  /** The bounds of the numbers of a call's arguments. */
  ghost function Bounds(args: seq<Expr>, k: nat): (lo: seq<nat>)
    ensures |lo| == |args| + 1 && forall i :: 0 <= i <= |args| ==> lo[i] == k + Offset(args, i)
  {
    seq(|args| + 1, i requires 0 <= i <= |args| => k + Offset(args, i))
  }

  lemma {:induction false} ArgBlockHolds(reg: Registry, args: seq<Expr>, k: nat, ix: seq<nat>, i: nat)
    requires AllBlind(reg) && i < |args|
    requires i in ix ==> Full(reg, RelabelArgs(args, Numbering(), k)[i].nodes).Some?
    ensures ArgBlock(reg, args, ix, BlocksOf(reg, ix, RelabelArgs(args, Numbering(), k)), Bounds(args, k), i)
    decreases args, 0
  {
    var r, lo, ns := RelabelArgs(args, Numbering(), k), Bounds(args, k), args[i].nodes;
    var t := BlocksOf(reg, ix, r)[i];
    OffsetNext(args, i);
    assert lo[i + 1] == lo[i] + |Phs(ns)|;
    RelabelArgsAt(args, Numbering(), k, i);
    assert r[i].nodes == Relabel(ns, Numbering(), lo[i]);
    StatementCounts(reg, ns, lo[i]);
    if i in ix {
      assert t == Tags(Phs(Full(reg, Relabel(ns, Numbering(), lo[i])).value));
      assert In(t, lo[i], lo[i + 1]);
    } else {
      assert t == [];
    }
  }

  lemma {:induction false} CallCounts(reg: Registry, n: Node, k: nat)
    requires AllBlind(reg) && n.Call? && n.name in reg
    ensures NodeCountsIff(reg, n, k)
    decreases n, 1
  {
    var args := n.args;
    var r := RelabelArgs(args, Numbering(), k);
    BlindRelabel(reg, n.name, args, k);
    if reg[n.name](args).Some? {
      var pieces := reg[n.name](args).value;
      if FullPieces(reg, pieces, r).Some? {
        AllArgBlocks(reg, pieces, args, k);
        PiecesCount(reg, pieces, args, k, r);
      }
    }
  }

  lemma {:induction false} AllArgBlocks(reg: Registry, pieces: seq<Piece>, args: seq<Expr>, k: nat)
    requires AllBlind(reg) && FullPieces(reg, pieces, RelabelArgs(args, Numbering(), k)).Some?
    ensures var ix := Copied(pieces, |args|);
      ArgBlocks(reg, args, ix, BlocksOf(reg, ix, RelabelArgs(args, Numbering(), k)), Bounds(args, k))
    decreases args, 1
  {
    var r, ix := RelabelArgs(args, Numbering(), k), Copied(pieces, |args|);
    forall i | 0 <= i < |args|
      ensures ArgBlock(reg, args, ix, BlocksOf(reg, ix, r), Bounds(args, k), i)
    {
      if i in ix {
        CopiedExpand(reg, pieces, r, i);
      }
      ArgBlockHolds(reg, args, k, ix, i);
    }
  }

  /** The numbers of a call's expansion stay in its interval, and count through it exactly when the order is kept. */
  ghost predicate OrderIs(reg: Registry, pieces: seq<Piece>, args: seq<Expr>, t: seq<nat>, lo: nat, hi: nat) {
    In(t, lo, hi) && (Counts(t, lo, hi) <==> KeepsOrder(pieces, args) && AlignedArgs(reg, args))
  }

  lemma PiecesCount(reg: Registry, pieces: seq<Piece>, args: seq<Expr>, k: nat, r: seq<Expr>)
    requires |r| == |args| && FullPieces(reg, pieces, r).Some?
    requires ArgBlocks(reg, args, Copied(pieces, |args|), BlocksOf(reg, Copied(pieces, |args|), r), Bounds(args, k))
    ensures OrderIs(reg, pieces, args, Tags(Phs(FullPieces(reg, pieces, r).value)), k, k + |ArgsPhs(args)|)
  {
    var ix, lo := Copied(pieces, |args|), Bounds(args, k);
    var ts := BlocksOf(reg, ix, r);
    PiecesTags(reg, pieces, r, ix);
    CallOrder(reg, pieces, args, ts, lo);
    EndsOf(args, k, lo);
  }

  lemma EndsOf(args: seq<Expr>, k: nat, lo: seq<nat>)
    requires lo == Bounds(args, k)
    ensures |lo| == |args| + 1 && lo[0] == k && lo[|args|] == k + |ArgsPhs(args)|
  {
    OffsetAll(args);
  }

  /** One argument of a call: its interval of numbers, and the block its copies contribute. */
  ghost predicate ArgBlock(reg: Registry, args: seq<Expr>, ix: seq<nat>, ts: seq<seq<nat>>, lo: seq<nat>, i: nat)
    requires i < |args| == |ts|
  {
    && Rises(lo, i) && Within(ts[i], lo, i)
    && Holey(lo, i) == HasPh(args, i)
    && (i in ix ==> (Whole(ts, lo, i) <==> Aligned(reg, args[i].nodes)))
  }

  ghost predicate ArgBlocks(reg: Registry, args: seq<Expr>, ix: seq<nat>, ts: seq<seq<nat>>, lo: seq<nat>) {
    |ts| == |args| && |lo| == |args| + 1 && forall i :: 0 <= i < |args| ==> ArgBlock(reg, args, ix, ts, lo, i)
  }

  lemma CallOrder(reg: Registry, pieces: seq<Piece>, args: seq<Expr>, ts: seq<seq<nat>>, lo: seq<nat>)
    requires ArgBlocks(reg, args, Copied(pieces, |args|), ts, lo)
    ensures OrderIs(reg, pieces, args, Cat(Copied(pieces, |args|), ts), lo[0], lo[|ts|])
  {
    var ix := Copied(pieces, |args|);
    assert forall i :: 0 <= i < |args| ==> Rises(lo, i) && Within(ts[i], lo, i) by {
      forall i | 0 <= i < |args|
        ensures Rises(lo, i) && Within(ts[i], lo, i)
      {
        assert ArgBlock(reg, args, ix, ts, lo, i);
      }
    }
    AlignedArgsEach(reg, args);
    OrderIff(ix, ts, lo);
    PiecesIn(ix, ts, lo);
    OrderIsKept(reg, pieces, args, ts, lo);
  }

  lemma OrderIsKept(reg: Registry, pieces: seq<Piece>, args: seq<Expr>, ts: seq<seq<nat>>, lo: seq<nat>)
    requires ArgBlocks(reg, args, Copied(pieces, |args|), ts, lo)
    ensures InOrder(Copied(pieces, |args|), ts, lo, 0) <==>
      KeepsOrder(pieces, args) && forall i :: 0 <= i < |args| && HasPh(args, i) ==> Aligned(reg, args[i].nodes)
  {
    var ix := Copied(pieces, |args|);
    forall i | 0 <= i < |args|
      ensures Holey(lo, i) == HasPh(args, i)
      ensures i in ix ==> (Whole(ts, lo, i) <==> Aligned(reg, args[i].nodes))
    {
      assert ArgBlock(reg, args, ix, ts, lo, i);
    }
  }

  /** Blocks put together stay within all the intervals. */
  lemma {:induction false} PiecesIn(ix: seq<nat>, ts: seq<seq<nat>>, lo: seq<nat>)
    requires Blocks(ts, lo) && Indices(ix, ts)
    ensures In(Cat(ix, ts), lo[0], lo[|ts|])
    decreases |ix|
  {
    Monotone(ts, lo, 0, |ts|);
    if ix != [] {
      PiecesIn(ix[1..], ts, lo);
      var i := ix[0];
      assert Within(ts[i], lo, i);
      Monotone(ts, lo, 0, i);
      Monotone(ts, lo, i + 1, |ts|);
    }
  }

  lemma OrderIff(ix: seq<nat>, ts: seq<seq<nat>>, lo: seq<nat>)
    requires Blocks(ts, lo) && Indices(ix, ts)
    ensures Counts(Cat(ix, ts), lo[0], lo[|ts|]) <==> InOrder(ix, ts, lo, 0)
  {
    if Counts(Cat(ix, ts), lo[0], lo[|ts|]) {
      CountsInOrder(ix, ts, lo, 0);
    }
    if InOrder(ix, ts, lo, 0) {
      InOrderCounts(ix, ts, lo, 0);
    }
  }

  /** Numbering changes placeholders only, which a handler does not look at. */
  lemma BlindRelabel(reg: Registry, name: string, args: seq<Expr>, k: nat)
    requires AllBlind(reg) && name in reg
    ensures reg[name](RelabelArgs(args, Numbering(), k)) == reg[name](args)
  {
    var bare, blank := (p: Placeholder) => Bare, (i: nat) => Bare;
    var r := RelabelArgs(args, Numbering(), k);
    MapRelabelArgs(args, Numbering(), bare, blank, k);
    RelabelMapArgs(args, bare, blank, k);
    MapArgsPhs(args, bare);
    RelabelSameArgs(MapArgs(args, bare), blank, k);
    assert reg[name](MapArgs(r, bare)) == reg[name](r);
    assert reg[name](MapArgs(args, bare)) == reg[name](args);
  }

  // ----- Unpacking and evaluation, driver by driver -----

  /** A statement as callers write it: every placeholder is bare. */
  predicate Written(src: Sql) {
    forall i :: 0 <= i < |Phs(src)| ==> Phs(src)[i] == Bare
  }

  function Args(vals: seq<int>): nat -> Placeholder {
    (i: nat) => if i < |vals| then Value(vals[i]) else Bare
  }

  function Bindings(vals: seq<int>): Placeholder -> Placeholder {
    (p: Placeholder) => if p.Ordinal? && 0 < p.k <= |vals| then Value(vals[p.k - 1]) else p
  }

  /** The statement with its arguments written in place of its placeholders: what the caller means. */
  function InPlace(src: Sql, vals: seq<int>): Sql {
    Relabel(src, Args(vals), 0)
  }

  /** newPreparedQuery: SQL Server's placeholders are numbered before expansion, PostgreSQL's after it, and the others
      stay bare. */
  function Unpacked(d: Driver, reg: Registry, src: Sql): Option<Sql> {
    if d.MSSQL? then Full(reg, Relabel(src, Numbering(), 0))
    else
      var full := Full(reg, src);
      if Pg(d) && full.Some? then Some(Relabel(full.value, Numbering(), 0)) else full
  }

  /** What the server evaluates: numbered placeholders take the argument of their number, bare ones the next argument in
      text order. Drivers that count placeholders refuse any other number of arguments. */
  function Evaluated(d: Driver, u: Sql, vals: seq<int>): Option<Sql> {
    if d.MSSQL? then Some(Map(u, Bindings(vals)))
    else if |Phs(u)| != |vals| then None
    else if Pg(d) then Some(Map(u, Bindings(vals)))
    else Some(Relabel(u, Args(vals), 0))
  }

  /** Numbered, then bound by number, is bound in place. */
  lemma NumberThenBind(ns: Sql, vals: seq<int>)
    requires |Phs(ns)| <= |vals|
    ensures Map(Relabel(ns, Numbering(), 0), Bindings(vals)) == InPlace(ns, vals)
  {
    MapRelabel(ns, Numbering(), Bindings(vals), Args(vals), 0);
  }

  /** SQL Server: numbered first, a placeholder keeps its argument wherever a virtual function puts it and however
      often, for every statement. */
  lemma NumberedFirstBinds(reg: Registry, src: Sql, vals: seq<int>)
    requires AllBlind(reg) && |vals| == |Phs(src)|
    ensures var u := Unpacked(MSSQL, reg, src);
      (if u.Some? then Evaluated(MSSQL, u.value, vals) else None) == Full(reg, InPlace(src, vals))
  {
    NumberThenBind(src, vals);
    FullMap(reg, Relabel(src, Numbering(), 0), Bindings(vals));
  }

  /** Expanding a numbered statement leaves numbers only. */
  lemma StillNumbered(reg: Registry, src: Sql)
    requires AllBlind(reg)
    ensures var full := Full(reg, Relabel(src, Numbering(), 0));
      full.Some? ==> forall i :: 0 <= i < |Phs(full.value)| ==> Phs(full.value)[i].Ordinal? && Phs(full.value)[i].k > 0
  {
    var g := (p: Placeholder) => if p.Ordinal? && p.k > 0 then p else Ordinal(1);
    var n := Relabel(src, Numbering(), 0);
    MapRelabel(src, Numbering(), g, Numbering(), 0);
    FullMap(reg, n, g);
    if Full(reg, n).Some? {
      MapPhs(Full(reg, n).value, g);
    }
  }

  /** The expansion of a statement as written is the expansion of the numbered one, stripped. */
  lemma StripNumbers(reg: Registry, src: Sql, f: nat -> Placeholder)
    requires AllBlind(reg) && Written(src)
    ensures var (full, num) := (Full(reg, src), Full(reg, Relabel(src, Numbering(), 0)));
      && full.Some? == num.Some?
      && (full.Some? ==> |Phs(full.value)| == |Phs(num.value)| && Relabel(full.value, f, 0) == Relabel(num.value, f, 0))
  {
    var bare, blank := (p: Placeholder) => Bare, (i: nat) => Bare;
    var n := Relabel(src, Numbering(), 0);
    MapRelabel(src, Numbering(), bare, blank, 0);
    RelabelSame(src, blank, 0);
    FullMap(reg, n, bare);
    if Full(reg, n).Some? {
      RelabelMap(Full(reg, n).value, bare, f, 0);
    }
  }

  /** Off SQL Server, evaluation binds in text order, on PostgreSQL by way of numbers. */
  lemma EvaluatedInOrder(d: Driver, reg: Registry, src: Sql, vals: seq<int>)
    requires !d.MSSQL? && AllBlind(reg) && Written(src) && Full(reg, src).Some?
    ensures var num := Full(reg, Relabel(src, Numbering(), 0));
      && num.Some?
      && Evaluated(d, Unpacked(d, reg, src).value, vals) ==
           if |Phs(num.value)| != |vals| then None else Some(Relabel(num.value, Args(vals), 0))
  {
    StripNumbers(reg, src, Args(vals));
    var full := Full(reg, src).value;
    if Pg(d) {
      RelabelPhs(full, Numbering(), 0);
      if |Phs(full)| == |vals| {
        NumberThenBind(full, vals);
      }
    }
  }

  /** The arguments reach their placeholders when the expansion counts through the numbers. */
  lemma CountedBinds(f: Sql, vals: seq<int>)
    requires |Phs(f)| == |vals| && forall i :: 0 <= i < |Phs(f)| ==> Phs(f)[i] == Ordinal(i + 1)
    ensures Relabel(f, Args(vals), 0) == Map(f, Bindings(vals))
  {
    var m := Map(f, Bindings(vals));
    MapPhs(f, Bindings(vals));
    RelabelSame(m, Args(vals), 0);
    RelabelMap(f, Bindings(vals), Args(vals), 0);
  }

  /** ... and only then. */
  lemma BindsCounted(f: Sql, n: nat)
    requires |Phs(f)| == n && In(Tags(Phs(f)), 0, n)
    requires forall i :: 0 <= i < |Phs(f)| ==> Phs(f)[i].Ordinal? && Phs(f)[i].k > 0
    requires var vals := seq(n, (i: nat) => i as int); Relabel(f, Args(vals), 0) == Map(f, Bindings(vals))
    ensures Counts(Tags(Phs(f)), 0, n)
  {
    var vals := seq(n, (i: nat) => i as int);
    RelabelPhs(f, Args(vals), 0);
    MapPhs(f, Bindings(vals));
    forall i | 0 <= i < n
      ensures Tags(Phs(f))[i] == i
    {
      assert Bindings(vals)(Phs(f)[i]) == Args(vals)(0 + i);
      assert Tags(Phs(f))[i] < n;
    }
  }

  /** The server evaluates what the caller meant. */
  ghost predicate Binds(d: Driver, reg: Registry, src: Sql, vals: seq<int>) {
    var u := Unpacked(d, reg, src);
    (if u.Some? then Evaluated(d, u.value, vals) else None) == Full(reg, InPlace(src, vals))
  }

  /** Both sides of the claim in terms of the expansion of the numbered statement. */
  lemma BindsByNumber(d: Driver, reg: Registry, src: Sql, vals: seq<int>)
    requires !d.MSSQL? && AllBlind(reg) && Written(src) && Full(reg, src).Some? && |vals| == |Phs(src)|
    ensures Full(reg, Relabel(src, Numbering(), 0)).Some?
    ensures var f := Full(reg, Relabel(src, Numbering(), 0)).value;
      Binds(d, reg, src, vals) <==> |Phs(f)| == |vals| && Relabel(f, Args(vals), 0) == Map(f, Bindings(vals))
  {
    EvaluatedInOrder(d, reg, src, vals);
    NumberThenBind(src, vals);
    FullMap(reg, Relabel(src, Numbering(), 0), Bindings(vals));
  }

  lemma AlignedBinds(d: Driver, reg: Registry, src: Sql, vals: seq<int>)
    requires !d.MSSQL? && AllBlind(reg) && Written(src) && Full(reg, src).Some? && |vals| == |Phs(src)|
    requires Aligned(reg, src)
    ensures Binds(d, reg, src, vals)
  {
    BindsByNumber(d, reg, src, vals);
    StatementCounts(reg, src, 0);
    StillNumbered(reg, src);
    var f := Full(reg, Relabel(src, Numbering(), 0)).value;
    assert forall i :: 0 <= i < |Phs(f)| ==> Tags(Phs(f))[i] == i;
    CountedBinds(f, vals);
  }

  lemma BindsAligned(d: Driver, reg: Registry, src: Sql)
    requires !d.MSSQL? && AllBlind(reg) && Written(src) && Full(reg, src).Some?
    requires Binds(d, reg, src, seq(|Phs(src)|, (i: nat) => i as int))
    ensures Aligned(reg, src)
  {
    var vals := seq(|Phs(src)|, (i: nat) => i as int);
    BindsByNumber(d, reg, src, vals);
    StatementCounts(reg, src, 0);
    StillNumbered(reg, src);
    BindsCounted(Full(reg, Relabel(src, Numbering(), 0)).value, |Phs(src)|);
  }

  /** On every driver but SQL Server: unpacking gives each placeholder the argument the caller meant, whatever the
      arguments are, exactly when every virtual function of the statement keeps the order of its placeholders. */
  lemma BindsIffAligned(d: Driver, reg: Registry, src: Sql)
    requires !d.MSSQL? && AllBlind(reg) && Written(src) && Full(reg, src).Some?
    ensures (forall vals: seq<int> :: |vals| == |Phs(src)| ==> Binds(d, reg, src, vals)) <==> Aligned(reg, src)
  {
    if Aligned(reg, src) {
      forall vals: seq<int> | |vals| == |Phs(src)|
        ensures Binds(d, reg, src, vals)
      {
        AlignedBinds(d, reg, src, vals);
      }
    }
    if Binds(d, reg, src, seq(|Phs(src)|, (i: nat) => i as int)) {
      BindsAligned(d, reg, src);
    }
  }
}
