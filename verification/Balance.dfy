/** Parentheses and quotes in the text of a call: where it closes and where its last argument starts. */
module Balance {
  import opened Errors
  import opened Decimal
  import opened Lexer
  import opened Expansion

  /** How deep in parentheses a point of the text is, and in which quotes. */
  datatype Level = Level(depth: int, quote: Option<char>)

  const TOP := Level(0, None)

  function Next(l: Level, c: char): Level {
    if l.quote.Some? then (if c == l.quote.value then l.(quote := None) else l)
    else if c == '\'' || c == '"' then l.(quote := Some(c))
    else if c == '(' then l.(depth := l.depth + 1)
    else if c == ')' then l.(depth := l.depth - 1)
    else l
  }

  /** The level at the end of a text that starts at the top. */
  function LevelOf(u: string): Level {
    if u == "" then TOP else Next(LevelOf(u[..|u| - 1]), u[|u| - 1])
  }

  /** The text up to k, from a start. */
  function Upto(s: string, start: nat, k: int): Level
    requires start <= k <= |s|
  {
    LevelOf(s[start..k])
  }

  /** A closing parenthesis that brings the text from a start below the level it started at, for the first time. */
  ghost predicate Closes(s: string, start: nat, k: int) {
    && start <= k < |s| && s[k] == ')' && Upto(s, start, k) == TOP
    && forall i :: start <= i <= k ==> Upto(s, start, i).depth >= 0
  }

  ghost predicate TopComma(s: string, k: int) {
    0 <= k < |s| && s[k] == ',' && Upto(s, 0, k) == TOP
  }

  lemma OneMore(s: string, start: nat, k: int)
    requires start <= k < |s|
    ensures Upto(s, start, k + 1) == Next(Upto(s, start, k), s[k])
  {
    assert s[start..k + 1][..k - start] == s[start..k];
  }

  /** findBalancedClose: the index where the call closes, or -1. */
  method FindBalancedClose(s: string, start: nat) returns (r: int)
    requires start <= |s|
    ensures r >= 0 ==> Closes(s, start, r)
    ensures forall k :: Closes(s, start, k) ==> k == r
  {
    var depth: int := 1;
    var i: nat := start;
    while i < |s|
      invariant start <= i <= |s| && depth >= 1 && Upto(s, start, i) == Level(depth - 1, None)
      invariant forall k :: start <= k <= i ==> Upto(s, start, k).depth >= 0
      invariant forall k :: start <= k < i ==> !Closes(s, start, k)
      decreases |s| - i
    {
      var ch := s[i];
      OneMore(s, start, i);
      if ch == '\'' || ch == '"' {
        i := i + 1;
        while i < |s| && s[i] != ch
          invariant start < i <= |s| && Upto(s, start, i) == Level(depth - 1, Some(ch))
          invariant forall k :: start <= k <= i ==> Upto(s, start, k).depth >= 0
          invariant forall k :: start <= k < i ==> !Closes(s, start, k)
          decreases |s| - i
        {
          OneMore(s, start, i);
          i := i + 1;
        }
        if i == |s| {
          return -1;
        }
        OneMore(s, start, i);
      } else if ch == '(' {
        depth := depth + 1;
      } else if ch == ')' {
        depth := depth - 1;
        if depth == 0 {
          OnlyOne(s, start, i);
          return i;
        }
      }
      i := i + 1;
    }
    r := -1;
  }

  /** A text closes once. */
  lemma OnlyOne(s: string, start: nat, r: int)
    requires Closes(s, start, r)
    ensures forall k :: Closes(s, start, k) ==> k == r
  {
    forall k | Closes(s, start, k)
      ensures k == r
    {
      OneMore(s, start, k);
      OneMore(s, start, r);
    }
  }

  /** lastTopLevelComma: the last comma outside parentheses and quotes, or -1. */
  method LastTopLevelComma(s: string) returns (r: int)
    ensures -1 <= r < |s| && (r >= 0 ==> TopComma(s, r))
    ensures forall k :: TopComma(s, k) ==> k <= r
  {
    var depth: int := 0;
    r := -1;
    var i: nat := 0;
    while i < |s|
      invariant i <= |s| && Upto(s, 0, i) == Level(depth, None)
      invariant -1 <= r < i && (r >= 0 ==> TopComma(s, r))
      invariant forall k :: k < i && TopComma(s, k) ==> k <= r
      decreases |s| - i
    {
      var ch := s[i];
      OneMore(s, 0, i);
      if ch == '\'' || ch == '"' {
        i := i + 1;
        while i < |s| && s[i] != ch
          invariant 0 < i <= |s| && Upto(s, 0, i) == Level(depth, Some(ch))
          invariant -1 <= r < i && (r >= 0 ==> TopComma(s, r))
          invariant forall k :: k < i && TopComma(s, k) ==> k <= r
          decreases |s| - i
        {
          OneMore(s, 0, i);
          i := i + 1;
        }
        if i == |s| {
          return;
        }
        OneMore(s, 0, i);
      } else if ch == '(' {
        depth := depth + 1;
      } else if ch == ')' {
        depth := depth - 1;
      } else if ch == ',' && depth == 0 {
        r := i;
      }
      i := i + 1;
    }
  }

  // ----- The text of a call tree -----

  /** Text that stays at or above its level and comes back to it. */
  ghost predicate Neutral(u: string) {
    LevelOf(u) == TOP && forall k :: 0 <= k <= |u| ==> LevelOf(u[..k]).depth >= 0
  }

  lemma {:induction false} LevelAfter(a: string, b: string)
    requires LevelOf(a).quote == None
    ensures LevelOf(a + b) == LevelOf(b).(depth := LevelOf(a).depth + LevelOf(b).depth)
    decreases |b|
  {
    if b == "" {
      assert a + b == a;
    } else {
      var b' := b[..|b| - 1];
      LevelAfter(a, b');
      assert (a + b)[..|a + b| - 1] == a + b';
    }
  }

  lemma NeutralJoin(a: string, b: string)
    requires Neutral(a) && Neutral(b)
    ensures Neutral(a + b)
  {
    LevelAfter(a, b);
    forall k | 0 <= k <= |a + b|
      ensures LevelOf((a + b)[..k]).depth >= 0
    {
      if k <= |a| {
        assert (a + b)[..k] == a[..k];
      } else {
        assert (a + b)[..k] == a + b[..k - |a|];
        LevelAfter(a, b[..k - |a|]);
      }
    }
  }

  lemma NeutralParens(a: string)
    requires Neutral(a)
    ensures Neutral("(" + a + ")")
  {
    var open := "(";
    assert open[..0] == "";
    assert LevelOf(open) == Level(1, None);
    LevelAfter(open, a);
    var s := open + a + ")";
    assert s[..|s| - 1] == open + a;
    forall k | 0 <= k <= |s|
      ensures LevelOf(s[..k]).depth >= 0
    {
      if k == 0 {
        assert s[..0] == "";
      } else if k <= |a| + 1 {
        assert s[..k] == open + a[..k - 1];
        LevelAfter(open, a[..k - 1]);
      } else {
        assert s[..k] == s;
      }
    }
  }

  /** Text without quotes and parentheses. */
  lemma {:induction false} NeutralPlain(u: string)
    requires forall i :: 0 <= i < |u| ==> u[i] !in "'\"()"
    ensures Neutral(u) && forall k :: 0 <= k <= |u| ==> LevelOf(u[..k]) == TOP
  {
    if u != "" {
      var v := u[..|u| - 1];
      NeutralPlain(v);
      forall k | 0 <= k <= |u|
        ensures LevelOf(u[..k]) == TOP
      {
        if k < |u| {
          assert u[..k] == v[..k];
        } else {
          assert u[..k] == u && v == v[..|v|];
        }
      }
    }
  }

  function RenderPh(p: Placeholder): string {
    if p.Ordinal? then "$" + Itoa(p.k) else "?"
  }

  function Render(ns: Sql): string
    decreases ns, 1
  {
    if ns == [] then "" else RenderNode(ns[0]) + Render(ns[1..])
  }

  function RenderNode(n: Node): string
    decreases n, 2
  {
    match n
    case Text(s) => s
    case Ph(p) => RenderPh(p)
    case Call(name, args) => name + ("(" + RenderCall(name, args) + ")")
  }

  const SEARCH := "REGEXP_TEXT_SEARCH"

  /** Commas stand between arguments, but IN between what REGEXP_TEXT_SEARCH searches for and the columns. */
  function RenderCall(name: string, args: seq<Expr>): string
    decreases args, 1
  {
    if name == SEARCH && args != [] then Render(args[0].nodes) + (" IN " + RenderArgs(args[1..])) else RenderArgs(args)
  }

  function RenderArgs(args: seq<Expr>): string
    decreases args, 0
  {
    if args == [] then ""
    else Render(args[0].nodes) + if |args| == 1 then "" else "," + RenderArgs(args[1..])
  }

  ghost predicate NoTopComma(u: string) {
    forall k :: !TopComma(u, k)
  }

  /** A tree as reading a text gives it: names are words, and text between calls has balanced parentheses and closed
      quotes; the text in an argument holds no comma that would end the argument. */
  ghost predicate Parsed(ns: Sql, arg: bool)
    decreases ns, 1
  {
    ns == [] || (ParsedNode(ns[0], arg) && Parsed(ns[1..], arg))
  }

  ghost predicate ParsedNode(n: Node, arg: bool)
    decreases n, 2
  {
    match n
    case Text(s) => Neutral(s) && (arg ==> NoTopComma(s))
    case Ph(_) => true
    case Call(name, args) => (forall i :: 0 <= i < |name| ==> IsWordByte(name[i])) && ParsedCall(name, args)
  }

  ghost predicate ParsedCall(name: string, args: seq<Expr>)
    decreases args, 1
  {
    if name == SEARCH && args != [] then Parsed(args[0].nodes, false) && ParsedArgs(args[1..]) else ParsedArgs(args)
  }

  ghost predicate ParsedArgs(args: seq<Expr>)
    decreases args, 0
  {
    args == [] || (Parsed(args[0].nodes, true) && ParsedArgs(args[1..]))
  }

  lemma TopCommaOf(a: string, b: string, k: int)
    requires Neutral(a) && TopComma(a + b, k)
    ensures TopComma(a, k) || TopComma(b, k - |a|)
  {
    if k < |a| {
      assert (a + b)[0..k] == a[0..k];
    } else {
      assert (a + b)[0..k] == a + b[0..k - |a|];
      LevelAfter(a, b[0..k - |a|]);
    }
  }

  lemma NoTopCommaJoin(a: string, b: string)
    requires Neutral(a) && NoTopComma(a) && NoTopComma(b)
    ensures NoTopComma(a + b)
  {
    forall k
      ensures !TopComma(a + b, k)
    {
      if TopComma(a + b, k) {
        TopCommaOf(a, b, k);
        assert false;
      }
    }
  }

  lemma NoTopCommaParens(a: string)
    requires Neutral(a)
    ensures NoTopComma("(" + a + ")")
  {
    var open := "(";
    assert open[..0] == "";
    var s := open + a + ")";
    forall k | 0 < k <= |a|
      ensures Upto(s, 0, k) != TOP
    {
      assert s[0..k] == open + a[..k - 1];
      LevelAfter(open, a[..k - 1]);
    }
  }

  lemma {:induction false} RenderNeutral(ns: Sql, arg: bool)
    requires Parsed(ns, arg)
    ensures Neutral(Render(ns)) && (arg ==> NoTopComma(Render(ns)))
    decreases ns, 1
  {
    if ns != [] {
      RenderNodeNeutral(ns[0], arg);
      RenderNeutral(ns[1..], arg);
      NeutralJoin(RenderNode(ns[0]), Render(ns[1..]));
      if arg {
        NoTopCommaJoin(RenderNode(ns[0]), Render(ns[1..]));
      }
    }
  }

  lemma {:induction false} RenderNodeNeutral(n: Node, arg: bool)
    requires ParsedNode(n, arg)
    ensures Neutral(RenderNode(n)) && (arg ==> NoTopComma(RenderNode(n)))
    decreases n, 2
  {
    match n {
      case Text(_) =>
      case Ph(p) => NeutralPlain(RenderPh(p));
      case Call(name, args) =>
        var a := RenderCall(name, args);
        RenderCallNeutral(name, args);
        NeutralPlain(name);
        NeutralParens(a);
        NoTopCommaParens(a);
        NeutralJoin(name, "(" + a + ")");
        NoTopCommaJoin(name, "(" + a + ")");
    }
  }

  lemma NeutralAround(a: string, u: string, b: string)
    requires Neutral(a) && Neutral(b) && forall i :: 0 <= i < |u| ==> u[i] !in "'\"()"
    ensures Neutral(a + (u + b))
  {
    NeutralPlain(u);
    NeutralJoin(u, b);
    NeutralJoin(a, u + b);
  }

  lemma {:induction false} RenderCallNeutral(name: string, args: seq<Expr>)
    requires ParsedCall(name, args)
    ensures Neutral(RenderCall(name, args))
    decreases args, 1
  {
    if name == SEARCH && args != [] {
      RenderNeutral(args[0].nodes, false);
      RenderArgsNeutral(args[1..]);
      NeutralAround(Render(args[0].nodes), " IN ", RenderArgs(args[1..]));
    } else {
      RenderArgsNeutral(args);
    }
  }

  lemma {:induction false} RenderArgsNeutral(args: seq<Expr>)
    requires ParsedArgs(args)
    ensures Neutral(RenderArgs(args))
    decreases args, 0
  {
    if args != [] {
      RenderNeutral(args[0].nodes, true);
      RenderArgsNeutral(args[1..]);
      if |args| == 1 {
        RenderOne(args[0]);
        assert args == [args[0]];
      } else {
        NeutralAround(Render(args[0].nodes), ",", RenderArgs(args[1..]));
      }
    }
  }

  /** findBalancedClose finds the end of a call's own arguments, whatever they nest and whatever follows. */
  lemma CallCloses(before: string, name: string, args: seq<Expr>, rest: string)
    requires ParsedCall(name, args)
    ensures Closes(before + RenderCall(name, args) + ")" + rest, |before|, |before| + |RenderCall(name, args)|)
  {
    var a := RenderCall(name, args);
    var s, start := before + a + ")" + rest, |before|;
    RenderCallNeutral(name, args);
    forall k | start <= k <= start + |a|
      ensures s[start..k] == a[..k - start]
    {
    }
    assert a[..|a|] == a;
  }

  /** A neutral text without top-level commas put before a comma moves the top-level commas of what follows. */
  lemma SplitsAt(a: string, b: string, k: int)
    requires Neutral(a) && NoTopComma(a)
    requires -1 <= k && (k >= 0 ==> TopComma(b, k)) && forall j :: TopComma(b, j) ==> j <= k
    ensures var s := a + ("," + b);
      TopComma(s, |a| + 1 + k) && forall j :: TopComma(s, j) ==> j <= |a| + 1 + k
  {
    var s, comma := a + ("," + b), a + ",";
    assert comma[..|a|] == a;
    assert LevelOf(comma) == TOP;
    forall i | 0 <= i <= |b|
      ensures Upto(s, 0, |a| + 1 + i) == Upto(b, 0, i)
    {
      assert s[0..|a| + 1 + i] == comma + b[0..i];
      LevelAfter(comma, b[0..i]);
    }
    assert s[0..|a|] == a;
    forall j | TopComma(s, j)
      ensures j <= |a| + 1 + k
    {
      if j > |a| {
        assert TopComma(b, j - |a| - 1);
      }
    }
  }

  /** The last top-level comma of a text, and what follows it. */
  ghost predicate LastIs(s: string, k: int, last: string) {
    TopComma(s, k) && s[k + 1..] == last && forall j :: TopComma(s, j) ==> j <= k
  }

  lemma LastStarts(a: string, b: string)
    requires Neutral(a) && NoTopComma(a) && NoTopComma(b)
    ensures LastIs(a + ("," + b), |a|, b)
  {
    SplitsAt(a, b, -1);
    assert (a + ("," + b))[|a| + 1..] == b;
  }

  lemma LastMoves(a: string, b: string, k: int, last: string)
    requires Neutral(a) && NoTopComma(a) && LastIs(b, k, last)
    ensures LastIs(a + ("," + b), |a| + 1 + k, last)
  {
    SplitsAt(a, b, k);
    assert (a + ("," + b))[|a| + 1 + k + 1..] == b[k + 1..];
  }

  lemma RenderOne(e: Expr)
    ensures RenderArgs([e]) == Render(e.nodes)
  {
    assert Render(e.nodes) + "" == Render(e.nodes);
  }

  lemma RenderMore(e: Expr, rest: seq<Expr>)
    requires rest != []
    ensures RenderArgs([e] + rest) == Render(e.nodes) + ("," + RenderArgs(rest))
  {
    assert ([e] + rest)[1..] == rest;
  }

  lemma LastOfTwo(x: Expr, y: Expr)
    requires Parsed(x.nodes, true) && Parsed(y.nodes, true)
    ensures LastIs(RenderArgs([x, y]), |RenderArgs([x])|, Render(y.nodes))
  {
    RenderNeutral(x.nodes, true);
    RenderNeutral(y.nodes, true);
    RenderMore(x, [y]);
    RenderOne(x);
    RenderOne(y);
    LastStarts(Render(x.nodes), Render(y.nodes));
    assert [x] + [y] == [x, y];
  }

  lemma LastOfMore(x: Expr, init: seq<Expr>, y: Expr)
    requires Parsed(x.nodes, true) && init != [] && LastIs(RenderArgs(init + [y]), |RenderArgs(init)|, Render(y.nodes))
    ensures LastIs(RenderArgs([x] + (init + [y])), |RenderArgs([x] + init)|, Render(y.nodes))
  {
    RenderNeutral(x.nodes, true);
    RenderMore(x, init + [y]);
    RenderMore(x, init);
    LastMoves(Render(x.nodes), RenderArgs(init + [y]), |RenderArgs(init)|, Render(y.nodes));
  }

  /** lastTopLevelComma finds the comma before a call's last argument. */
  lemma {:induction false} LastArgument(init: seq<Expr>, last: Expr)
    requires ParsedArgs(init + [last]) && init != []
    ensures LastIs(RenderArgs(init + [last]), |RenderArgs(init)|, Render(last.nodes))
    decreases |init|
  {
    var x, rest := init[0], init[1..];
    assert (init + [last])[1..] == rest + [last];
    if rest == [] {
      LastOfTwo(x, last);
      assert init == [x] && init + [last] == [x, last];
    } else {
      LastArgument(rest, last);
      LastOfMore(x, rest, last);
      assert init == [x] + rest && init + [last] == [x] + (rest + [last]);
    }
  }

  // ----- Quotes -----

  lemma {:induction false} QuoteStays(u: string, body: string, q: char)
    requires LevelOf(u).quote == Some(q) && q !in body
    ensures LevelOf(u + body) == LevelOf(u)
    decreases |body|
  {
    if body == "" {
      assert u + body == u;
    } else {
      var init := body[..|body| - 1];
      QuoteStays(u, init, q);
      assert (u + body)[..|u + body| - 1] == u + init;
    }
  }

  /** A literal in single or double quotes is neutral, whatever parentheses and commas it holds. */
  lemma LiteralNeutral(body: string, q: char)
    requires (q == '\'' || q == '"') && q !in body
    ensures Neutral([q] + body + [q]) && NoTopComma([q] + body + [q])
  {
    var open, s := [q], [q] + body + [q];
    assert open[..0] == "" && LevelOf(open) == Level(0, Some(q));
    QuoteStays(open, body, q);
    assert s[..|s| - 1] == open + body;
    forall k | 0 <= k <= |s|
      ensures LevelOf(s[..k]).depth == 0 && (0 < k < |s| ==> LevelOf(s[..k]).quote == Some(q))
    {
      if k == 0 {
        assert s[..0] == "";
      } else if k < |s| {
        assert s[..k] == open + body[..k - 1];
        QuoteStays(open, body[..k - 1], q);
      } else {
        assert s[..k] == s;
      }
    }
    assert s[..|s|] == s;
    forall k
      ensures !TopComma(s, k)
    {
      if 0 <= k < |s| {
        assert s[0..k] == s[..k];
      }
    }
  }
}
