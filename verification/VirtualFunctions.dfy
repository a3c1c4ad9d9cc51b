/** The built-in virtual functions, and what they do to the order of placeholders. */
module VirtualFunctions {
  import opened Errors
  import opened Lexer
  import opened Expansion
  import opened Binding
  import opened Intervals
  import opened TimeArithmetic
  import opened SearchSplit
  import D = Decimal
  import J = JsonPath

  // ----- Reading arguments -----

  predicate IsSpace(c: char) {
    c == ' ' || '\t' <= c <= '\r'
  }

  /** strings.TrimSpace. */
  function Trim(s: string): string
    decreases |s|
  {
    if s == "" then ""
    else if IsSpace(s[0]) then Trim(s[1..])
    else if IsSpace(s[|s| - 1]) then Trim(s[..|s| - 1])
    else s
  }

  /** An expression that is text and nothing else. */
  function TextOf(ns: Sql): Option<string> {
    if ns == [] then Some("")
    else if !ns[0].Text? then None
    else
      var rest := TextOf(ns[1..]);
      if rest.Some? then Some(ns[0].s + rest.value) else None
  }

  /** The trimmed text of an argument that is text only. */
  function Literal(e: Expr): Option<string> {
    var t := TextOf(e.nodes);
    if t.Some? then Some(Trim(t.value)) else None
  }

  /** Whether a comma stands anywhere in an expression, inside calls and literals too. */
  predicate Commas(ns: Sql)
    decreases ns, 1
  {
    ns != [] && (NodeCommas(ns[0]) || Commas(ns[1..]))
  }

  predicate NodeCommas(n: Node)
    decreases n, 2
  {
    match n
    case Text(s) => ',' in s
    case Ph(_) => false
    case Call(_, args) => |args| > 1 || ArgsCommas(args)
  }

  predicate ArgsCommas(args: seq<Expr>)
    decreases args, 0
  {
    args != [] && (Commas(args[0].nodes) || ArgsCommas(args[1..]))
  }

  /** The argument of NOW_UTC, as a literal: nothing for three digits, or a number from 0 to 6. */
  function Digits(args: seq<Option<string>>): (p: Option<nat>)
    ensures p.Some? ==> p.value <= 6
  {
    if args == [] then Some(3)
    else if |args| > 1 || args[0].None? then None
    else if args[0].value == "" then Some(3)
    else
      var n := D.Atoi(args[0].value);
      if n.Some? && 0 <= n.value <= 6 then Some(n.value) else None
  }

  function Literals(args: seq<Expr>): (ls: seq<Option<string>>)
    ensures |ls| == |args| && forall i :: 0 <= i < |ls| ==> ls[i] == Literal(args[i])
  {
    seq(|args|, i requires 0 <= i < |args| => Literal(args[i]))
  }

  /** The nodes that are not blank text. */
  function Solid(ns: Sql): Sql {
    if ns == [] then []
    else (if ns[0].Text? && Trim(ns[0].s) == "" then [] else [ns[0]]) + Solid(ns[1..])
  }

  /** isCoarseNowUTC: exactly one NOW_UTC call with fewer than three digits. */
  predicate CoarseNow(e: Expr) {
    var ns := Solid(e.nodes);
    && |ns| == 1 && ns[0].Call? && ns[0].name == "NOW_UTC"
    && Digits(Literals(ns[0].args)).Some? && Digits(Literals(ns[0].args)).value < 3
  }

  /** All a handler reads of an argument: its text if it is text only, whether it is a coarse NOW_UTC, whether it holds
      a comma, and whether it holds an IN. */
  datatype Look = Look(literal: Option<string>, coarse: bool, commas: bool, hidesIn: bool)

  function LookOf(e: Expr): Look {
    Look(Literal(e), CoarseNow(e), Commas(e.nodes), HidesIn(e.nodes))
  }

  function Looks(args: seq<Expr>): (ls: seq<Look>)
    ensures |ls| == |args| && forall i :: 0 <= i < |ls| ==> ls[i] == LookOf(args[i])
  {
    seq(|args|, i requires 0 <= i < |args| => LookOf(args[i]))
  }

  predicate Blank(l: Look) {
    l.literal == Some("")
  }

  /** A last argument, and something before it, both not blank. */
  predicate TwoParts(args: seq<Look>) {
    |args| >= 2 && !(|args| == 2 && Blank(args[0])) && !Blank(args[|args| - 1])
  }

  /** Arguments lo to hi as they stand, commas between them. */
  function Joined(lo: nat, hi: nat): seq<Piece>
    requires lo < hi
    decreases hi - lo
  {
    var rest := if lo + 1 == hi then [] else [Lit(",")] + Joined(lo + 1, hi);
    [Arg(lo)] + rest
  }

  // ----- Handlers -----

  function NowUtc(d: Driver, args: seq<Look>): (r: Option<seq<Piece>>)
    ensures r.Some? ==> |r.value| == 1 && r.value[0].Lit? && (args == [] || (|args| == 1 && args[0].literal.Some?))
  {
    var digits := Digits(seq(|args|, i requires 0 <= i < |args| => args[i].literal));
    if digits.None? then None
    else
      var sql := NowSqlOf(d, digits.value);
      if sql.Some? then Some([Lit(NowText(sql.value))]) else None
  }

  /** REGEXP_TEXT_SEARCH(expr IN col1, col2, ...): the first argument is the expression and the others the columns. The
      text is cut at its first IN, so an expression with an IN of its own has no expansion as a call tree. */
  function RegexpTextSearch(d: Driver, args: seq<Look>): Option<seq<Piece>> {
    if args == [] || args[0].hidesIn then None
    else
      var cols := Columns(args, 1);
      match d
      case MySQL => Some([Lit("(")] + cols + [Lit(" REGEXP "), Arg(0), Lit(")")])
      case MariaDB => Some([Lit("(")] + cols + [Lit(" REGEXP "), Arg(0), Lit(")")])
      case Pgx => Some([Lit("REGEXP_LIKE(")] + cols + [Lit(", "), Arg(0), Lit(", 'i')")])
      case CockroachDB => Some([Lit("REGEXP_LIKE(")] + cols + [Lit(", "), Arg(0), Lit(", 'i')")])
      case MSSQL => Some([Lit("REGEXP_LIKE(")] + cols + [Lit(", "), Arg(0), Lit(", 'i')")])
      case SQLite => Some([Lit("(")] + cols + [Lit(" LIKE ('%' || "), Arg(0), Lit(" || '%'))")])
      case Unknown => None
  }

  /** The columns concatenated: an empty literal for none, one as it stands, more through CONCAT_WS. A column counts as
      several when a comma stands anywhere in it. */
  function Columns(args: seq<Look>, from: nat): seq<Piece> {
    var ix := Filled(args, from);
    if ix == [] then [Lit("''")]
    else if |ix| == 1 && !args[ix[0]].commas then [Arg(ix[0])]
    else [Lit("CONCAT_WS(' ',")] + Listed(ix) + [Lit(")")]
  }

  /** The arguments that are not blank, from one on. */
  function Filled(args: seq<Look>, from: nat): (ix: seq<nat>)
    ensures forall p :: 0 <= p < |ix| ==> from <= ix[p] < |args|
    decreases |args| - from
  {
    if from >= |args| then []
    else (if Blank(args[from]) then [] else [from]) + Filled(args, from + 1)
  }

  function Listed(ix: seq<nat>): seq<Piece> {
    if ix == [] then [] else [Arg(ix[0])] + (if |ix| == 1 then [] else [Lit(",")]) + Listed(ix[1..])
  }

  function DateAddMillis(d: Driver, args: seq<Look>): Option<seq<Piece>> {
    if !TwoParts(args) then None
    else
      var (base, last) := (Joined(0, |args| - 1), Arg(|args| - 1));
      match d
      case MySQL => Some([Lit("DATE_ADD(")] + base + [Lit(", INTERVAL ("), last, Lit(") * 1000 MICROSECOND)")])
      case MariaDB => Some([Lit("DATE_ADD(")] + base + [Lit(", INTERVAL ("), last, Lit(") * 1000 MICROSECOND)")])
      case Pgx => Some([Lit("(")] + base + [Lit(" + MAKE_INTERVAL(secs => ("), last, Lit(") / 1000.0))")])
      case CockroachDB =>
        Some([Lit("(")] + base + [Lit(" + CAST(("), last, Lit(") AS FLOAT8) * INTERVAL '1 millisecond')")])
      case MSSQL => Some(MssqlDateAddMillis(args))
      case SQLite =>
        Some([Lit("(STRFTIME('%Y-%m-%d %H:%M:%f', ")] + base + [Lit(", (("), last, Lit(") / 1000.0) || ' seconds'))")])
      case Unknown => None
  }

  function FormatInt(n: int): string {
    if n < 0 then "-" + D.Itoa(-n) else D.Itoa(n)
  }

  function MssqlDateAddMillis(args: seq<Look>): seq<Piece>
    requires |args| >= 2
  {
    var (joined, last) := (Joined(0, |args| - 1), |args| - 1);
    var base := if |args| == 2 && args[0].coarse then [Lit("CAST(")] + joined + [Lit(" AS DATETIME2(7))")] else joined;
    var millis := args[last].literal;
    var n := if millis.Some? then D.Atoi(millis.value) else None;
    if n.Some? then
      if -HOUR < n.value < HOUR then [Lit("DATEADD(MILLISECOND, "), Arg(last), Lit(", ")] + base + [Lit(")")]
      else
        [Lit("DATEADD(MILLISECOND, " + FormatInt(TruncMod(n.value, HOUR)) + ", DATEADD(HOUR, " +
             FormatInt(TruncDiv(n.value, HOUR)) + ", ")] + base + [Lit("))")]
    else
      [Lit("DATEADD(MILLISECOND, CAST("), Arg(last), Lit(" AS BIGINT) % 3600000, DATEADD(HOUR, CAST("), Arg(last),
       Lit(" AS BIGINT) / 3600000, ")] + base + [Lit("))")]
  }

  /** SQL Server counts from the second argument to the first; MySQL's swap is undone by a sign, to keep the order. */
  function DateDiffMillis(d: Driver, args: seq<Look>): Option<seq<Piece>> {
    if !TwoParts(args) then None
    else
      var (a, b) := (Joined(0, |args| - 1), Arg(|args| - 1));
      match d
      case MySQL => Some([Lit("(-TIMESTAMPDIFF(MICROSECOND, ")] + a + [Lit(", "), b, Lit(") / 1000.0)")])
      case MariaDB => Some([Lit("(-TIMESTAMPDIFF(MICROSECOND, ")] + a + [Lit(", "), b, Lit(") / 1000.0)")])
      case Pgx => Some([Lit("(EXTRACT(EPOCH FROM (")] + a + [Lit(" - "), b, Lit(")) * 1000.0)")])
      case CockroachDB => Some([Lit("(EXTRACT(EPOCH FROM (")] + a + [Lit(" - "), b, Lit(")) * 1000.0)")])
      case MSSQL => Some([Lit("DATEDIFF_BIG(MILLISECOND, "), b, Lit(", ")] + a + [Lit(")")])
      case SQLite => Some([Lit("((JULIANDAY(")] + a + [Lit(") - JULIANDAY("), b, Lit(")) * 86400000.0)")])
      case Unknown => None
  }

  function LimitOffset(d: Driver, args: seq<Look>): Option<seq<Piece>> {
    if !TwoParts(args) || d.Unknown? then None
    else
      var (limit, offset) := (Joined(0, |args| - 1), Arg(|args| - 1));
      if d.MSSQL? then Some([Lit("OFFSET "), offset, Lit(" ROWS FETCH NEXT ")] + limit + [Lit(" ROWS ONLY")])
      else Some([Lit("LIMIT ")] + limit + [Lit(" OFFSET "), offset])
  }

  /** The path between the quotes of a literal. */
  function PathOf(l: Look): Option<seq<J.Elem>> {
    var t := l.literal;
    if t.None? || |t.value| < 2 || t.value[0] != '\'' || t.value[|t.value| - 1] != '\'' then None
    else J.Parse(t.value[1..|t.value| - 1])
  }

  function JsonField(d: Driver, args: seq<Look>): Option<seq<Piece>> {
    if !TwoParts(args) || PathOf(args[|args| - 1]).None? then None
    else
      var elems := PathOf(args[|args| - 1]).value;
      var (col, p) := (Joined(0, |args| - 1), "'" + J.Render(elems) + "'");
      match d
      case MySQL => Some(MysqlField(col, p))
      case MariaDB => Some(MysqlField(col, p))
      case Pgx => Some([Lit("((")] + col + [Lit(")::jsonb #>> '{" + J.Keys(elems) + "}')")])
      case CockroachDB => Some([Lit("((")] + col + [Lit(")::jsonb #>> '{" + J.Keys(elems) + "}')")])
      case MSSQL =>
        Some([Lit("(COALESCE(JSON_QUERY(")] + col + [Lit(", " + p + "), JSON_VALUE(")] + col + [Lit(", " + p + ")))")])
      case SQLite => Some([Lit("(JSON_EXTRACT(")] + col + [Lit(", " + p + "))")])
      case Unknown => None
  }

  function MysqlField(col: seq<Piece>, p: string): seq<Piece> {
    var extract := [Lit("JSON_EXTRACT(")] + col + [Lit(", " + p + ")")];
    [Lit("(CASE WHEN JSON_TYPE(")] + extract
    + [Lit(") = 'NULL' THEN NULL ELSE JSON_UNQUOTE(")] + extract + [Lit(") END)")]
  }

  const NAMES := {"NOW_UTC", "REGEXP_TEXT_SEARCH", "DATE_ADD_MILLIS", "DATE_DIFF_MILLIS", "LIMIT_OFFSET", "JSON_FIELD"}

  function Handle(d: Driver, name: string, args: seq<Look>): Option<seq<Piece>> {
    if name == "NOW_UTC" then NowUtc(d, args)
    else if name == "REGEXP_TEXT_SEARCH" then RegexpTextSearch(d, args)
    else if name == "DATE_ADD_MILLIS" then DateAddMillis(d, args)
    else if name == "DATE_DIFF_MILLIS" then DateDiffMillis(d, args)
    else if name == "LIMIT_OFFSET" then LimitOffset(d, args)
    else if name == "JSON_FIELD" then JsonField(d, args)
    else None
  }

  function Builtins(d: Driver): Registry {
    map name | name in NAMES :: (args: seq<Expr>) => Handle(d, name, Looks(args))
  }

  // ----- No handler looks at placeholders -----

  lemma {:induction false} TextOfMap(ns: Sql, g: Placeholder -> Placeholder)
    ensures TextOf(Map(ns, g)) == TextOf(ns)
    decreases |ns|
  {
    if ns != [] {
      TextOfMap(ns[1..], g);
    }
  }

  lemma {:induction false} CommasMap(ns: Sql, g: Placeholder -> Placeholder)
    ensures Commas(Map(ns, g)) == Commas(ns)
    decreases ns, 1
  {
    if ns != [] {
      NodeCommasMap(ns[0], g);
      CommasMap(ns[1..], g);
    }
  }

  lemma {:induction false} NodeCommasMap(n: Node, g: Placeholder -> Placeholder)
    ensures NodeCommas(MapNode(n, g)) == NodeCommas(n)
    decreases n, 2
  {
    if n.Call? {
      ArgsCommasMap(n.args, g);
    }
  }

  lemma {:induction false} ArgsCommasMap(args: seq<Expr>, g: Placeholder -> Placeholder)
    ensures ArgsCommas(MapArgs(args, g)) == ArgsCommas(args)
    decreases args, 0
  {
    if args != [] {
      CommasMap(args[0].nodes, g);
      ArgsCommasMap(args[1..], g);
    }
  }

  lemma {:induction false} StateMap(ns: Sql, g: Placeholder -> Placeholder, q: nat)
    ensures NodesState(Map(ns, g), q) == NodesState(ns, q)
    decreases ns, 1
  {
    if ns != [] {
      NodeStateMap(ns[0], g, q);
      StateMap(ns[1..], g, NodeState(ns[0], q));
      assert Map(ns, g)[1..] == Map(ns[1..], g);
    }
  }

  lemma {:induction false} NodeStateMap(n: Node, g: Placeholder -> Placeholder, q: nat)
    ensures NodeState(MapNode(n, g), q) == NodeState(n, q)
    decreases n, 2
  {
    if n.Call? {
      CallStateMap(n.name, n.args, g, Scan(Scan(q, n.name), "("));
    }
  }

  lemma {:induction false} CallStateMap(name: string, args: seq<Expr>, g: Placeholder -> Placeholder, q: nat)
    ensures CallState(name, MapArgs(args, g), q) == CallState(name, args, q)
    decreases args, 1
  {
    if name == SEARCH && args != [] {
      StateMap(args[0].nodes, g, q);
      ArgsStateMap(args[1..], g, Scan(NodesState(args[0].nodes, q), " IN "));
      assert MapArgs(args, g)[1..] == MapArgs(args[1..], g);
    } else {
      ArgsStateMap(args, g, q);
    }
  }

  lemma {:induction false} ArgsStateMap(args: seq<Expr>, g: Placeholder -> Placeholder, q: nat)
    ensures ArgsState(MapArgs(args, g), q) == ArgsState(args, q)
    decreases args, 0
  {
    if args != [] {
      StateMap(args[0].nodes, g, q);
      ArgsStateMap(args[1..], g, Scan(NodesState(args[0].nodes, q), ","));
      assert MapArgs(args, g)[1..] == MapArgs(args[1..], g);
    }
  }

  lemma LiteralsMap(args: seq<Expr>, g: Placeholder -> Placeholder)
    ensures Literals(MapArgs(args, g)) == Literals(args)
  {
    forall i | 0 <= i < |args|
      ensures Literal(MapArgs(args, g)[i]) == Literal(args[i])
    {
      MapArgsAt(args, g, i);
      TextOfMap(args[i].nodes, g);
    }
  }

  lemma {:induction false} SolidMap(ns: Sql, g: Placeholder -> Placeholder)
    ensures Solid(Map(ns, g)) == Map(Solid(ns), g)
    decreases |ns|
  {
    if ns != [] {
      SolidMap(ns[1..], g);
      var head := if ns[0].Text? && Trim(ns[0].s) == "" then [] else [ns[0]];
      MapAppend(head, Solid(ns[1..]), g);
      assert Map([ns[0]], g) == [MapNode(ns[0], g)] + Map([], g);
    }
  }

  lemma LookMap(e: Expr, g: Placeholder -> Placeholder)
    ensures LookOf(Expr(Map(e.nodes, g))) == LookOf(e)
  {
    var ns := e.nodes;
    TextOfMap(ns, g);
    CommasMap(ns, g);
    StateMap(ns, g, 0);
    SolidMap(ns, g);
    var s := Solid(ns);
    if |s| == 1 && s[0].Call? {
      assert Map(s, g)[0] == MapNode(s[0], g);
      LiteralsMap(s[0].args, g);
    }
  }

  lemma LooksMap(args: seq<Expr>, g: Placeholder -> Placeholder)
    ensures Looks(MapArgs(args, g)) == Looks(args)
  {
    forall i | 0 <= i < |args|
      ensures LookOf(MapArgs(args, g)[i]) == LookOf(args[i])
    {
      MapArgsAt(args, g, i);
      LookMap(args[i], g);
    }
  }

  /** The built-in functions rewrite statements by their calls and literals only. */
  lemma BuiltinsBlind(d: Driver)
    ensures AllBlind(Builtins(d))
  {
    forall name | name in Builtins(d)
      ensures Blind(Builtins(d)[name])
    {
      forall args, g
        ensures Builtins(d)[name](MapArgs(args, g)) == Builtins(d)[name](args)
      {
        LooksMap(args, g);
      }
    }
  }

  // ----- What the handlers do to the order of placeholders -----

  lemma {:induction false} CopiedAppend(a: seq<Piece>, b: seq<Piece>, n: nat)
    ensures Copied(a + b, n) == Copied(a, n) + Copied(b, n)
    decreases |a|
  {
    if a == [] {
      assert a + b == b;
    } else {
      CopiedAppend(a[1..], b, n);
      assert (a + b)[1..] == a[1..] + b;
    }
  }

  lemma {:induction false} CopiedJoined(lo: nat, hi: nat, n: nat)
    requires lo < hi <= n
    ensures Copied(Joined(lo, hi), n) == Range(lo, hi)
    decreases hi - lo
  {
    var s := Joined(lo, hi);
    if lo + 1 == hi {
      assert s[1..] == [];
    } else {
      CopiedJoined(lo + 1, hi, n);
      assert s[1..] == [Lit(",")] + Joined(lo + 1, hi);
      assert s[1..][1..] == Joined(lo + 1, hi);
    }
  }

  lemma {:induction false} CopiedListed(ix: seq<nat>, n: nat)
    requires forall p :: 0 <= p < |ix| ==> ix[p] < n
    ensures Copied(Listed(ix), n) == ix
  {
    if ix != [] {
      var s := Listed(ix);
      CopiedListed(ix[1..], n);
      if |ix| == 1 {
        assert s[1..] == Listed(ix[1..]);
      } else {
        assert s[1..] == [Lit(",")] + Listed(ix[1..]);
        assert s[1..][1..] == Listed(ix[1..]);
      }
    }
  }

  lemma CopiedLit(s: string, n: nat)
    ensures Copied([Lit(s)], n) == []
  {
    assert [Lit(s)][1..] == [];
  }

  lemma CopiedArg(i: nat, n: nat)
    requires i < n
    ensures Copied([Arg(i)], n) == [i]
  {
    assert [Arg(i)][1..] == [];
  }

  lemma CopiedOne(b: string, i: nat, c: string, n: nat)
    requires i < n
    ensures Copied([Lit(b), Arg(i), Lit(c)], n) == [i] && Copied([Lit(b), Arg(i)], n) == [i]
  {
    CopiedLit(b, n);
    CopiedArg(i, n);
    CopiedLit(c, n);
    CopiedAppend([Lit(b)], [Arg(i)], n);
    CopiedAppend([Lit(b), Arg(i)], [Lit(c)], n);
    assert [Lit(b)] + [Arg(i)] == [Lit(b), Arg(i)] && [Lit(b), Arg(i)] + [Lit(c)] == [Lit(b), Arg(i), Lit(c)];
  }

  lemma CopiedAfter(a: string, mid: seq<Piece>, tail: seq<Piece>, n: nat)
    ensures Copied([Lit(a)] + mid + tail, n) == Copied(mid, n) + Copied(tail, n)
  {
    CopiedAppend([Lit(a)] + mid, tail, n);
    CopiedAppend([Lit(a)], mid, n);
    CopiedLit(a, n);
    assert [] + Copied(mid, n) == Copied(mid, n);
  }

  /** A base and a last argument in their order. */
  lemma CopiedTwoParts(a: string, b: string, c: string, n: nat)
    requires n >= 2
    ensures Copied([Lit(a)] + Joined(0, n - 1) + [Lit(b), Arg(n - 1), Lit(c)], n) == Range(0, n)
    ensures Copied([Lit(a)] + Joined(0, n - 1) + [Lit(b), Arg(n - 1)], n) == Range(0, n)
    ensures Copied([Lit(a)] + Joined(0, n - 1) + [Lit(c)], n) == Range(0, n - 1)
  {
    CopiedJoined(0, n - 1, n);
    CopiedOne(b, n - 1, c, n);
    CopiedAfter(a, Joined(0, n - 1), [Lit(b), Arg(n - 1), Lit(c)], n);
    CopiedAfter(a, Joined(0, n - 1), [Lit(b), Arg(n - 1)], n);
    CopiedAfter(a, Joined(0, n - 1), [Lit(c)], n);
    CopiedLit(c, n);
    assert Range(0, n - 1) + [n - 1] == Range(0, n);
  }

  lemma DateAddOrder(d: Driver, args: seq<Look>)
    requires !d.MSSQL? && DateAddMillis(d, args).Some?
    ensures Copied(DateAddMillis(d, args).value, |args|) == Range(0, |args|)
  {
    var n := |args|;
    if Mysqlish(d) {
      CopiedTwoParts("DATE_ADD(", ", INTERVAL (", ") * 1000 MICROSECOND)", n);
    } else if d.Pgx? {
      CopiedTwoParts("(", " + MAKE_INTERVAL(secs => (", ") / 1000.0))", n);
    } else if d.CockroachDB? {
      CopiedTwoParts("(", " + CAST((", ") AS FLOAT8) * INTERVAL '1 millisecond')", n);
    } else if d.SQLite? {
      CopiedTwoParts("(STRFTIME('%Y-%m-%d %H:%M:%f', ", ", ((", ") / 1000.0) || ' seconds'))", n);
    }
  }

  lemma DateDiffOrder(d: Driver, args: seq<Look>)
    requires !d.MSSQL? && DateDiffMillis(d, args).Some?
    ensures Copied(DateDiffMillis(d, args).value, |args|) == Range(0, |args|)
  {
    var n := |args|;
    if Mysqlish(d) {
      CopiedTwoParts("(-TIMESTAMPDIFF(MICROSECOND, ", ", ", ") / 1000.0)", n);
    } else if Pg(d) {
      CopiedTwoParts("(EXTRACT(EPOCH FROM (", " - ", ")) * 1000.0)", n);
    } else if d.SQLite? {
      CopiedTwoParts("((JULIANDAY(", ") - JULIANDAY(", ")) * 86400000.0)", n);
    }
  }

  lemma LimitOrder(d: Driver, args: seq<Look>)
    requires !d.MSSQL? && LimitOffset(d, args).Some?
    ensures Copied(LimitOffset(d, args).value, |args|) == Range(0, |args|)
  {
    CopiedTwoParts("LIMIT ", " OFFSET ", "", |args|);
  }

  /** The indices JSON_FIELD copies: its column once, and twice on MySQL. */
  lemma FieldOrder(d: Driver, args: seq<Look>)
    requires !d.MSSQL? && JsonField(d, args).Some?
    ensures var col := Range(0, |args| - 1);
      Copied(JsonField(d, args).value, |args|) == if Mysqlish(d) then col + col else col
  {
    var n, elems := |args|, PathOf(args[|args| - 1]).value;
    var p := "'" + J.Render(elems) + "'";
    if Mysqlish(d) {
      MysqlFieldOrder(n, p);
    } else if Pg(d) {
      CopiedTwoParts("((", "", ")::jsonb #>> '{" + J.Keys(elems) + "}')", n);
    } else if d.SQLite? {
      CopiedTwoParts("(JSON_EXTRACT(", "", ", " + p + "))", n);
    }
  }

  lemma CopiedTwice(a: string, mid: seq<Piece>, b: string, c: string, n: nat)
    ensures Copied([Lit(a)] + mid + [Lit(b)] + mid + [Lit(c)], n) == Copied(mid, n) + Copied(mid, n)
  {
    var ix, start := Copied(mid, n), [Lit(a)] + mid + [Lit(b)];
    CopiedAfter(a, mid, [Lit(b)], n);
    CopiedLit(b, n);
    CopiedLit(c, n);
    assert ix + [] == ix;
    CopiedAppend(start, mid, n);
    CopiedAppend(start + mid, [Lit(c)], n);
    assert (ix + ix) + [] == ix + ix;
  }

  lemma MysqlFieldOrder(n: nat, p: string)
    requires n >= 2
    ensures Copied(MysqlField(Joined(0, n - 1), p), n) == Range(0, n - 1) + Range(0, n - 1)
  {
    var col := Joined(0, n - 1);
    var extract := [Lit("JSON_EXTRACT(")] + col + [Lit(", " + p + ")")];
    var type_, unquote, end := "(CASE WHEN JSON_TYPE(", ") = 'NULL' THEN NULL ELSE JSON_UNQUOTE(", ") END)";
    CopiedTwoParts("JSON_EXTRACT(", "", ", " + p + ")", n);
    CopiedTwice(type_, extract, unquote, end, n);
  }

  lemma ColumnsOrder(args: seq<Look>)
    requires args != []
    ensures Copied(Columns(args, 1), |args|) == Filled(args, 1)
  {
    var ix, n := Filled(args, 1), |args|;
    if ix == [] {
      CopiedLit("''", n);
    } else if |ix| == 1 && !args[ix[0]].commas {
      CopiedArg(ix[0], n);
      assert ix == [ix[0]];
    } else {
      CopiedListed(ix, n);
      CopiedAfter("CONCAT_WS(' ',", Listed(ix), [Lit(")")], n);
      CopiedLit(")", n);
      assert ix + [] == ix;
    }
  }

  /** REGEXP_TEXT_SEARCH copies its columns before its expression. */
  lemma SearchOrder(d: Driver, args: seq<Look>)
    requires RegexpTextSearch(d, args).Some?
    ensures Copied(RegexpTextSearch(d, args).value, |args|) == Filled(args, 1) + [0]
  {
    var cols, n := Columns(args, 1), |args|;
    ColumnsOrder(args);
    if Mysqlish(d) {
      CopiedOne(" REGEXP ", 0, ")", n);
      CopiedAfter("(", cols, [Lit(" REGEXP "), Arg(0), Lit(")")], n);
    } else if d.SQLite? {
      CopiedOne(" LIKE ('%' || ", 0, " || '%'))", n);
      CopiedAfter("(", cols, [Lit(" LIKE ('%' || "), Arg(0), Lit(" || '%'))")], n);
    } else {
      CopiedOne(", ", 0, ", 'i')", n);
      CopiedAfter("REGEXP_LIKE(", cols, [Lit(", "), Arg(0), Lit(", 'i')")], n);
    }
  }

  // ----- Which calls keep it -----

  lemma {:induction false} TextHasNoPh(ns: Sql)
    requires TextOf(ns).Some?
    ensures Phs(ns) == []
  {
    if ns != [] {
      TextHasNoPh(ns[1..]);
    }
  }

  lemma {:induction false} FilledIs(args: seq<Look>, from: nat)
    ensures forall p, q :: 0 <= p < q < |Filled(args, from)| ==> Filled(args, from)[p] < Filled(args, from)[q]
    ensures forall i :: from <= i < |args| && !Blank(args[i]) ==> i in Filled(args, from)
    decreases |args| - from
  {
    if from < |args| {
      FilledIs(args, from + 1);
    }
  }

  /** Whether a placeholder stands in any argument from one index to another. */
  predicate PhIn(args: seq<Expr>, lo: nat, hi: nat) {
    exists i :: lo <= i < hi && HasPh(args, i)
  }

  /** A call of a built-in function that keeps its placeholders in order, on a driver that binds them in text order:
      REGEXP_TEXT_SEARCH with placeholders on one side of its IN at most, and on MySQL JSON_FIELD of a column without
      any. Every other call does. */
  predicate Harmless(d: Driver, name: string, args: seq<Expr>) {
    && (name == "REGEXP_TEXT_SEARCH" ==> !HasPh(args, 0) || !PhIn(args, 1, |args|))
    && (name == "JSON_FIELD" && Mysqlish(d) ==> |args| == 0 || !PhIn(args, 0, |args| - 1))
  }

  lemma SearchHarmless(d: Driver, args: seq<Expr>)
    requires RegexpTextSearch(d, Looks(args)).Some?
    ensures KeepsOrder(RegexpTextSearch(d, Looks(args)).value, args) <==> Harmless(d, "REGEXP_TEXT_SEARCH", args)
  {
    var looks := Looks(args);
    SearchOrder(d, looks);
    FilledIs(looks, 1);
    forall i | 1 <= i < |args| && HasPh(args, i)
      ensures i in Filled(looks, 1)
    {
      if Blank(looks[i]) {
        TextHasNoPh(args[i].nodes);
      }
    }
    LastFirst(Filled(looks, 1), args);
  }

  /** Moving the first argument behind the others keeps the order when one side has no placeholder. */
  lemma LastFirst(cols: seq<nat>, args: seq<Expr>)
    requires args != [] && (forall p, q :: 0 <= p < q < |cols| ==> cols[p] < cols[q])
    requires forall p :: 0 <= p < |cols| ==> 1 <= cols[p] < |args|
    requires forall i :: 1 <= i < |args| && HasPh(args, i) ==> i in cols
    ensures Ordered(cols + [0], args) <==> !HasPh(args, 0) || !PhIn(args, 1, |args|)
  {
    var ix := cols + [0];
    assert ix[|cols|] == 0;
    if HasPh(args, 0) && PhIn(args, 1, |args|) {
      var i :| 1 <= i < |args| && HasPh(args, i);
      var p :| 0 <= p < |cols| && cols[p] == i;
      assert ix[p] == i && HasPh(args, ix[p]) && HasPh(args, ix[|cols|]);
    }
  }

  lemma LastIsText(d: Driver, args: seq<Expr>)
    requires JsonField(d, Looks(args)).Some?
    ensures !HasPh(args, |args| - 1)
  {
    TextHasNoPh(args[|args| - 1].nodes);
  }

  lemma FieldHarmless(d: Driver, args: seq<Expr>)
    requires !d.MSSQL? && JsonField(d, Looks(args)).Some?
    ensures KeepsOrder(JsonField(d, Looks(args)).value, args) <==> Harmless(d, "JSON_FIELD", args)
  {
    FieldOrder(d, Looks(args));
    LastIsText(d, args);
    Once(args);
    Twice(args);
  }

  lemma Once(args: seq<Expr>)
    requires args != [] && !HasPh(args, |args| - 1)
    ensures Ordered(Range(0, |args| - 1), args)
  {
    var col := Range(0, |args| - 1);
    forall i | 0 <= i < |args| && HasPh(args, i)
      ensures i in col
    {
      assert col[i] == i;
    }
  }

  lemma Twice(args: seq<Expr>)
    requires args != [] && !HasPh(args, |args| - 1)
    ensures var col := Range(0, |args| - 1);
      Ordered(col + col, args) <==> !PhIn(args, 0, |args| - 1)
  {
    var col, n := Range(0, |args| - 1), |args| - 1;
    var ix := col + col;
    if PhIn(args, 0, n) {
      var i :| 0 <= i < n && HasPh(args, i);
      assert ix[i] == i && ix[n + i] == i;
    }
  }

  lemma AllInOrder(pieces: seq<Piece>, args: seq<Expr>)
    requires Copied(pieces, |args|) == Range(0, |args|)
    ensures KeepsOrder(pieces, args)
  {
    var ix := Range(0, |args|);
    forall i | 0 <= i < |args|
      ensures i in ix
    {
      assert ix[i] == i;
    }
  }

  lemma NowHarmless(d: Driver, args: seq<Expr>)
    requires NowUtc(d, Looks(args)).Some?
    ensures KeepsOrder(NowUtc(d, Looks(args)).value, args)
  {
    if |args| == 1 {
      assert Looks(args)[0] == LookOf(args[0]);
      TextHasNoPh(args[0].nodes);
    }
    NoneToKeep(NowUtc(d, Looks(args)).value, args);
  }

  lemma NoneToKeep(pieces: seq<Piece>, args: seq<Expr>)
    requires |pieces| == 1 && pieces[0].Lit? && forall i :: 0 <= i < |args| ==> !HasPh(args, i)
    ensures KeepsOrder(pieces, args)
  {
    CopiedLit(pieces[0].s, |args|);
    assert pieces == [Lit(pieces[0].s)];
  }

  /** Exactly the harmless calls keep the order of their placeholders. */
  lemma CallKeepsOrder(d: Driver, name: string, args: seq<Expr>)
    requires !d.MSSQL? && Handle(d, name, Looks(args)).Some?
    ensures KeepsOrder(Handle(d, name, Looks(args)).value, args) <==> Harmless(d, name, args)
  {
    if name == "REGEXP_TEXT_SEARCH" {
      SearchHarmless(d, args);
    } else if name == "JSON_FIELD" {
      FieldHarmless(d, args);
    } else if name == "NOW_UTC" {
      NowHarmless(d, args);
    } else if name == "DATE_ADD_MILLIS" {
      DateAddOrder(d, Looks(args));
      AllInOrder(DateAddMillis(d, Looks(args)).value, args);
    } else if name == "DATE_DIFF_MILLIS" {
      DateDiffOrder(d, Looks(args));
      AllInOrder(DateDiffMillis(d, Looks(args)).value, args);
    } else {
      LimitOrder(d, Looks(args));
      AllInOrder(LimitOffset(d, Looks(args)).value, args);
    }
  }

  // ----- Whole statements -----

  /** Every call that expands is harmless. */
  predicate Careful(d: Driver, ns: Sql)
    decreases ns, 1
  {
    ns == [] || (CarefulNode(d, ns[0]) && Careful(d, ns[1..]))
  }

  predicate CarefulNode(d: Driver, n: Node)
    decreases n, 2
  {
    match n
    case Text(_) => true
    case Ph(_) => true
    case Call(name, args) =>
      && (Handle(d, name, Looks(args)).Some? ==> Harmless(d, name, args))
      && CarefulArgs(d, args)
  }

  predicate CarefulArgs(d: Driver, args: seq<Expr>)
    decreases args, 0
  {
    args == [] || (Careful(d, args[0].nodes) && CarefulArgs(d, args[1..]))
  }

  /** Without placeholders there is nothing to misplace. */
  lemma {:induction false} NoPhCareful(d: Driver, ns: Sql)
    requires Phs(ns) == []
    ensures Careful(d, ns)
    decreases ns, 1
  {
    if ns != [] {
      NoPhCarefulNode(d, ns[0]);
      NoPhCareful(d, ns[1..]);
    }
  }

  lemma {:induction false} NoPhCarefulNode(d: Driver, n: Node)
    requires NodePhs(n) == []
    ensures CarefulNode(d, n)
    decreases n, 2
  {
    if n.Call? {
      NoPhCarefulArgs(d, n.args);
    }
  }

  lemma {:induction false} NoPhCarefulArgs(d: Driver, args: seq<Expr>)
    requires ArgsPhs(args) == []
    ensures CarefulArgs(d, args) && forall i: nat :: !HasPh(args, i)
    decreases args, 0
  {
    if args != [] {
      NoPhCareful(d, args[0].nodes);
      NoPhCarefulArgs(d, args[1..]);
      forall i: nat
        ensures !HasPh(args, i)
      {
        if 0 < i < |args| {
          assert HasPh(args, i) == HasPh(args[1..], i - 1);
        }
      }
    }
  }

  lemma {:induction false} AlignedIffCareful(d: Driver, ns: Sql)
    requires !d.MSSQL?
    ensures Aligned(Builtins(d), ns) <==> Careful(d, ns)
    decreases ns, 1
  {
    if ns != [] {
      NodeAlignedIffCareful(d, ns[0]);
      AlignedIffCareful(d, ns[1..]);
    }
  }

  lemma {:induction false} NodeAlignedIffCareful(d: Driver, n: Node)
    requires !d.MSSQL?
    ensures AlignedNode(Builtins(d), n) <==> CarefulNode(d, n)
    decreases n, 2
  {
    if n.Call? {
      ArgsAlignedIffCareful(d, n.args);
      if Handle(d, n.name, Looks(n.args)).Some? {
        CallKeepsOrder(d, n.name, n.args);
      }
    }
  }

  lemma {:induction false} ArgsAlignedIffCareful(d: Driver, args: seq<Expr>)
    requires !d.MSSQL?
    ensures AlignedArgs(Builtins(d), args) <==> CarefulArgs(d, args)
    decreases args, 0
  {
    if args != [] {
      AlignedIffCareful(d, args[0].nodes);
      ArgsAlignedIffCareful(d, args[1..]);
      if Phs(args[0].nodes) == [] {
        NoPhCareful(d, args[0].nodes);
      }
    }
  }

  /** SQL Server: for every statement with nested built-in calls, each placeholder takes the argument the caller
      meant. */
  lemma MssqlBinds(src: Sql, vals: seq<int>)
    requires |vals| == |Phs(src)|
    ensures Binds(MSSQL, Builtins(MSSQL), src, vals)
  {
    BuiltinsBlind(MSSQL);
    NumberedFirstBinds(Builtins(MSSQL), src, vals);
  }

  /** The other drivers: it does, whatever the arguments are, exactly for the careful statements. */
  lemma BuiltinsBind(d: Driver, src: Sql)
    requires !d.MSSQL? && Written(src) && Full(Builtins(d), src).Some?
    ensures (forall vals: seq<int> :: |vals| == |Phs(src)| ==> Binds(d, Builtins(d), src, vals)) <==> Careful(d, src)
  {
    BuiltinsBlind(d);
    BindsIffAligned(d, Builtins(d), src);
    AlignedIffCareful(d, src);
  }

  /** A search for the outcome of another search is cut inside the inner call, and has no expansion here. */
  lemma NestedSearchFails(d: Driver, inner: seq<Expr>, cols: seq<Expr>)
    requires inner != []
    ensures Full(Builtins(d), [Call(SEARCH, [Expr([Call(SEARCH, inner)])] + cols)]).None?
  {
    var args := [Expr([Call(SEARCH, inner)])] + cols;
    NestedSearchHides(inner, [], []);
    assert [] + [Call(SEARCH, inner)] + [] == [Call(SEARCH, inner)];
    assert Looks(args)[0] == LookOf(args[0]);
    FullOne(Builtins(d), Call(SEARCH, args));
  }
}
