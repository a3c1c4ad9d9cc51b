/** What the SQL of the built-in functions computes, read the way each database reads it: the same on every driver. */
module HandlerMeaning {
  import opened Errors
  import opened Lexer
  import opened Expansion
  import opened TimeArithmetic
  import opened VirtualFunctions
  import D = Decimal
  import V = VirtualFunctions
  import J = JsonPath

  /** SQL around two expressions. */
  datatype Form = Form(before: string, between: string, behind: string)

  function Around(f: Form, x: seq<Piece>, y: seq<Piece>): seq<Piece> {
    [Lit(f.before)] + x + [Lit(f.between)] + y + if f.behind == "" then [] else [Lit(f.behind)]
  }

  // ----- LIMIT_OFFSET -----

  /** Which rows of a result are wanted. */
  datatype Window = Window(limit: nat, offset: nat)

  /** The window that a clause with two numbers asks for. */
  function WindowOf(f: Form, x: nat, y: nat): Option<Window> {
    if f == Form("LIMIT ", " OFFSET ", "") then Some(Window(x, y))
    else if f == Form("OFFSET ", " ROWS FETCH NEXT ", " ROWS ONLY") then Some(Window(y, x))
    else None
  }

  /** The limit is the first part of the arguments, the offset the last one, on every driver. */
  lemma LimitMeans(d: Driver, args: seq<Look>, val: seq<Piece> -> nat)
    returns (f: Form, x: seq<Piece>, y: seq<Piece>)
    requires LimitOffset(d, args).Some?
    ensures LimitOffset(d, args).value == Around(f, x, y)
    ensures WindowOf(f, val(x), val(y)) == Some(Window(val(Joined(0, |args| - 1)), val([Arg(|args| - 1)])))
  {
    var limit, offset := Joined(0, |args| - 1), [Arg(|args| - 1)];
    if d.MSSQL? {
      f, x, y := Form("OFFSET ", " ROWS FETCH NEXT ", " ROWS ONLY"), offset, limit;
    } else {
      f, x, y := Form("LIMIT ", " OFFSET ", ""), limit, offset;
    }
  }

  // ----- DATE_DIFF_MILLIS -----

  /** What each database computes of two instants, given in microseconds, as milliseconds: TIMESTAMPDIFF and
      DATEDIFF_BIG count from the first to the second, the latter in boundaries crossed; EXTRACT gives seconds,
      JULIANDAY days. */
  function DiffOf(f: Form, x: int, y: int): Option<real> {
    if f == Form("(-TIMESTAMPDIFF(MICROSECOND, ", ", ", ") / 1000.0)") then Some(-((y - x) as real) / 1000.0)
    else if f == Form("(EXTRACT(EPOCH FROM (", " - ", ")) * 1000.0)") then
      Some((x - y) as real / 1000000.0 * 1000.0)
    else if f == Form("DATEDIFF_BIG(MILLISECOND, ", ", ", ")") then Some((y / 1000 - x / 1000) as real)
    else if f == Form("((JULIANDAY(", ") - JULIANDAY(", ")) * 86400000.0)") then
      Some((x as real / 86400000000.0 - y as real / 86400000000.0) * 86400000.0)
    else None
  }

  function DiffForm(d: Driver): Form {
    if Mysqlish(d) then Form("(-TIMESTAMPDIFF(MICROSECOND, ", ", ", ") / 1000.0)")
    else if Pg(d) then Form("(EXTRACT(EPOCH FROM (", " - ", ")) * 1000.0)")
    else if d.MSSQL? then Form("DATEDIFF_BIG(MILLISECOND, ", ", ", ")")
    else Form("((JULIANDAY(", ") - JULIANDAY(", ")) * 86400000.0)")
  }

  /** The first argument less the second, exactly, but for SQL Server, which is off by less than a millisecond. */
  lemma DiffMeans(d: Driver, args: seq<Look>, val: seq<Piece> -> int) returns (f: Form, x: seq<Piece>, y: seq<Piece>)
    requires DateDiffMillis(d, args).Some?
    ensures DateDiffMillis(d, args).value == Around(f, x, y) && DiffOf(f, val(x), val(y)).Some?
    ensures var (a, b) := (val(Joined(0, |args| - 1)), val([Arg(|args| - 1)]));
      var (diff, exact) := (DiffOf(f, val(x), val(y)).value, (a - b) as real / 1000.0);
      if d.MSSQL? then -1.0 < diff - exact < 1.0 else diff == exact
  {
    var a, b := Joined(0, |args| - 1), [Arg(|args| - 1)];
    f := DiffForm(d);
    x, y := if d.MSSQL? then b else a, if d.MSSQL? then a else b;
    DiffIs(d, val(a), val(b));
  }

  lemma DiffIs(d: Driver, a: int, b: int)
    requires !d.Unknown?
    ensures var diff := if d.MSSQL? then DiffOf(DiffForm(d), b, a) else DiffOf(DiffForm(d), a, b);
      && diff.Some?
      && var exact := (a - b) as real / 1000.0;
        if d.MSSQL? then -1.0 < diff.value - exact < 1.0 else diff.value == exact
  {
    assert a == 1000 * (a / 1000) + a % 1000 && b == 1000 * (b / 1000) + b % 1000;
  }

  // ----- DATE_ADD_MILLIS -----

  /** What the databases other than SQL Server compute of an instant in microseconds and a number of milliseconds. */
  function AddOf(f: Form, x: int, y: int): Option<real> {
    if f == Form("DATE_ADD(", ", INTERVAL (", ") * 1000 MICROSECOND)") then Some((x + y * 1000) as real)
    else if f == Form("(", " + MAKE_INTERVAL(secs => (", ") / 1000.0))") then
      Some(x as real + y as real / 1000.0 * 1000000.0)
    else if f == Form("(", " + CAST((", ") AS FLOAT8) * INTERVAL '1 millisecond')") then
      Some(x as real + y as real * 1000.0)
    else if f == Form("(STRFTIME('%Y-%m-%d %H:%M:%f', ", ", ((", ") / 1000.0) || ' seconds'))") then
      Some(x as real + y as real / 1000.0 * 1000000.0)
    else None
  }

  function AddForm(d: Driver): Form {
    if Mysqlish(d) then Form("DATE_ADD(", ", INTERVAL (", ") * 1000 MICROSECOND)")
    else if d.Pgx? then Form("(", " + MAKE_INTERVAL(secs => (", ") / 1000.0))")
    else if d.CockroachDB? then Form("(", " + CAST((", ") AS FLOAT8) * INTERVAL '1 millisecond')")
    else Form("(STRFTIME('%Y-%m-%d %H:%M:%f', ", ", ((", ") / 1000.0) || ' seconds'))")
  }

  /** The instant and so many milliseconds later. */
  lemma AddMeans(d: Driver, args: seq<Look>, val: seq<Piece> -> int) returns (f: Form, x: seq<Piece>, y: seq<Piece>)
    requires DateAddMillis(d, args).Some? && !d.MSSQL?
    ensures DateAddMillis(d, args).value == Around(f, x, y)
    ensures AddOf(f, val(x), val(y)) == Some((val(Joined(0, |args| - 1)) + val([Arg(|args| - 1)]) * 1000) as real)
  {
    f, x, y := AddForm(d), Joined(0, |args| - 1), [Arg(|args| - 1)];
    AddIs(d, val(x), val(y));
  }

  lemma AddIs(d: Driver, a: int, n: int)
    requires !d.Unknown? && !d.MSSQL?
    ensures AddOf(AddForm(d), a, n) == Some((a + n * 1000) as real)
  {
  }

  /** SQL Server adds milliseconds to hours to the base: as an argument, in constants, or computed from the argument. */
  datatype Interval = Direct | Constants(millis: int, hours: int) | Computed

  function Around1(before: string, x: seq<Piece>, behind: string): seq<Piece> {
    [Lit(before)] + x + [Lit(behind)]
  }

  function MssqlAdd(i: Interval, base: seq<Piece>, n: nat): seq<Piece> {
    match i
    case Direct => [Lit("DATEADD(MILLISECOND, "), Arg(n), Lit(", ")] + base + [Lit(")")]
    case Constants(millis, hours) =>
      Around1("DATEADD(MILLISECOND, " + FormatInt(millis) + ", DATEADD(HOUR, " + FormatInt(hours) + ", ", base, "))")
    case Computed =>
      [Lit("DATEADD(MILLISECOND, CAST("), Arg(n), Lit(" AS BIGINT) % 3600000, DATEADD(HOUR, CAST("), Arg(n)]
      + Around1(" AS BIGINT) / 3600000, ", base, "))")
  }

  /** How much it adds, for an argument of so many milliseconds. */
  function Added(i: Interval, millis: int): int {
    match i
    case Direct => millis
    case Constants(ms, hours) => ms + hours * HOUR
    case Computed => TruncMod(millis, 3600000) + TruncDiv(millis, 3600000) * HOUR
  }

  /** The milliseconds of the last argument, whether it is a literal or an expression; the base is the first argument,
      widened when it is a coarse NOW_UTC. */
  lemma MssqlAddMeans(args: seq<Look>, millis: int) returns (i: Interval, base: seq<Piece>)
    requires DateAddMillis(MSSQL, args).Some?
    requires var n := Constant(args[|args| - 1]); n.Some? ==> n.value == millis
    ensures DateAddMillis(MSSQL, args).value == MssqlAdd(i, base, |args| - 1) && Added(i, millis) == millis
    ensures var first := Joined(0, |args| - 1);
      base == if |args| == 2 && args[0].coarse then Around1("CAST(", first, " AS DATETIME2(7))") else first
  {
    var joined, last := Joined(0, |args| - 1), |args| - 1;
    base := if |args| == 2 && args[0].coarse then Around1("CAST(", joined, " AS DATETIME2(7))") else joined;
    i := if Constant(args[last]).None? then Computed
         else if -HOUR < millis < HOUR then Direct
         else Constants(TruncMod(millis, HOUR), TruncDiv(millis, HOUR));
    AddedIs(i, millis);
    AddSql(args, base);
  }

  /** The interval as the handler writes it. */
  lemma {:induction false} AddSql(args: seq<Look>, base: seq<Piece>)
    requires |args| >= 2
    requires var first := Joined(0, |args| - 1);
      base == if |args| == 2 && args[0].coarse then Around1("CAST(", first, " AS DATETIME2(7))") else first
    ensures var n := Constant(args[|args| - 1]);
      var i := if n.None? then Computed
               else if -HOUR < n.value < HOUR then Direct
               else Constants(TruncMod(n.value, HOUR), TruncDiv(n.value, HOUR));
      MssqlDateAddMillis(args) == MssqlAdd(i, base, |args| - 1)
  {
    ComputedSql(base, |args| - 1);
  }

  lemma AddedIs(i: Interval, millis: int)
    requires i.Constants? ==> i == Constants(TruncMod(millis, HOUR), TruncDiv(millis, HOUR))
    ensures Added(i, millis) == millis
  {
    SplitSums(millis);
  }

  function Constant(l: Look): Option<int> {
    if l.literal.Some? then D.Atoi(l.literal.value) else None
  }

  lemma ComputedSql(base: seq<Piece>, n: nat)
    ensures MssqlAdd(Computed, base, n) ==
      [Lit("DATEADD(MILLISECOND, CAST("), Arg(n), Lit(" AS BIGINT) % 3600000, DATEADD(HOUR, CAST("), Arg(n),
       Lit(" AS BIGINT) / 3600000, ")] + base + [Lit("))")]
  {
  }

  // ----- REGEXP_TEXT_SEARCH -----

  /** A text and the pattern it is searched for. */
  datatype Search = Search(text: string, pattern: string)

  function SearchOf(f: Form, x: string, y: string): Option<Search> {
    if f == Form("(", " REGEXP ", ")") then Some(Search(x, y))
    else if f == Form("REGEXP_LIKE(", ", ", ", 'i')") then Some(Search(x, y))
    else if f == Form("(", " LIKE ('%' || ", " || '%'))") then Some(Search(x, y))
    else None
  }

  /** The columns that are not blank, with a blank between them. */
  function Spaced(ix: seq<nat>, env: nat -> string): string {
    if ix == [] then "" else env(ix[0]) + (if |ix| == 1 then "" else " " + Spaced(ix[1..], env))
  }

  /** The text of a column expression: an empty literal, a column, or CONCAT_WS with a blank of several. */
  ghost predicate TextIs(pieces: seq<Piece>, env: nat -> string, text: string) {
    || (pieces == [Lit("''")] && text == "")
    || (exists i :: pieces == [Arg(i)] && text == env(i))
    || (exists ix :: ix != [] && pieces == [Lit("CONCAT_WS(' ',")] + Listed(ix) + [Lit(")")] && text == Spaced(ix, env))
  }

  /** The columns in order are searched for the first argument, on every driver. */
  lemma SearchMeans(d: Driver, args: seq<Look>, env: nat -> string)
    returns (f: Form, x: seq<Piece>, y: seq<Piece>, text: string)
    requires RegexpTextSearch(d, args).Some?
    ensures RegexpTextSearch(d, args).value == Around(f, x, y) && y == [Arg(0)]
    ensures TextIs(x, env, text) && text == Spaced(Filled(args, 1), env)
    ensures SearchOf(f, text, env(0)) == Some(Search(text, env(0)))
  {
    var ix := Filled(args, 1);
    f := if Mysqlish(d) then Form("(", " REGEXP ", ")")
         else if d.SQLite? then Form("(", " LIKE ('%' || ", " || '%'))")
         else Form("REGEXP_LIKE(", ", ", ", 'i')");
    x, y, text := Columns(args, 1), [Arg(0)], Spaced(ix, env);
    if |ix| == 1 && !args[ix[0]].commas {
      assert env(ix[0]) + "" == env(ix[0]);
      assert x == [Arg(ix[0])];
    } else if ix != [] {
      assert x == [Lit("CONCAT_WS(' ',")] + Listed(ix) + [Lit(")")];
    }
  }

  // ----- JSON_FIELD -----

  /** A JSON value; a leaf has a text, and a string has one without quotes. */
  datatype Json = Null | Leaf(text: string) | Object(members: map<string, Json>) | Array(items: seq<Json>)

  /** What stands at a path. */
  function At(j: Json, path: seq<J.Elem>): Option<Json>
    decreases |path|
  {
    if path == [] then Some(j)
    else
      match path[0]
      case Member(name) => if j.Object? && name in j.members then At(j.members[name], path[1..]) else None
      case Index(n) => if j.Array? && n < |j.items| then At(j.items[n], path[1..]) else None
  }

  /** The contract: the text of a leaf, the JSON of anything bigger, NULL for a missing value and for a JSON null. */
  function Field(j: Json, path: seq<J.Elem>, write: Json -> string): Option<string> {
    Shown(At(j, path), write)
  }

  function Shown(v: Option<Json>, write: Json -> string): Option<string> {
    if v.None? || v.value.Null? then None else if v.value.Leaf? then Some(v.value.text) else Some(write(v.value))
  }

  /** The functions of the databases, on the value that JSON_EXTRACT or JSON_VALUE finds, if any. */
  function Unquote(v: Option<Json>, write: Json -> string): Option<string> {
    if v.None? then None
    else match v.value
      case Null => Some("null")
      case Leaf(text) => Some(text)
      case _ => Some(write(v.value))
  }

  function Coalesce(a: Option<string>, b: Option<string>): Option<string> {
    if a.Some? then a else b
  }

  function JsonQuery(v: Option<Json>, write: Json -> string): Option<string> {
    if v.Some? && (v.value.Object? || v.value.Array?) then Some(write(v.value)) else None
  }

  function JsonValue(v: Option<Json>): Option<string> {
    if v.Some? && v.value.Leaf? then Some(v.value.text) else None
  }

  /** How the expansion gets at a field: a path in each of its calls, or the keys of PostgreSQL's operator. */
  datatype Access = Guarded(typed: string, read: string) | Keyed(keys: string) | Either(query: string, value: string)
                  | Plainly(path: string)

  function Literal(path: string): string {
    "'" + path + "'"
  }

  function AccessSql(a: Access, col: seq<Piece>): seq<Piece> {
    match a
    case Guarded(typed, read) =>
      [Lit("(CASE WHEN JSON_TYPE(")] + Around1("JSON_EXTRACT(", col, ", " + Literal(typed) + ")")
      + [Lit(") = 'NULL' THEN NULL ELSE JSON_UNQUOTE(")] + Around1("JSON_EXTRACT(", col, ", " + Literal(read) + ")")
      + [Lit(") END)")]
    case Keyed(keys) => Around1("((", col, ")::jsonb #>> '{" + keys + "}')")
    case Either(query, value) =>
      [Lit("(COALESCE(JSON_QUERY(")] + col + [Lit(", " + Literal(query) + "), JSON_VALUE(")] + col
      + [Lit(", " + Literal(value) + ")))")]
    case Plainly(path) => Around1("(JSON_EXTRACT(", col, ", " + Literal(path) + "))")
  }

  /** The value at a path as it is written; none for a path that does not parse. */
  function AtText(j: Json, path: string): Option<Json> {
    var elems := J.Parse(path);
    if elems.Some? then At(j, elems.value) else None
  }

  function Get(a: Access, j: Json, write: Json -> string): Option<string> {
    match a
    case Guarded(typed, read) => if AtText(j, typed) == Some(Null) then None else Unquote(AtText(j, read), write)
    case Keyed(keys) => Field(j, J.Unkeys(keys), write)
    case Either(query, value) => Coalesce(JsonQuery(AtText(j, query), write), JsonValue(AtText(j, value)))
    case Plainly(path) => if AtText(j, path) == Some(Null) then None else Unquote(AtText(j, path), write)
  }

  function AccessOf(d: Driver, elems: seq<J.Elem>): Access {
    var path := J.Render(elems);
    if Mysqlish(d) then Guarded(path, path) else if Pg(d) then Keyed(J.Keys(elems))
    else if d.MSSQL? then Either(path, path) else Plainly(path)
  }

  /** Every driver gets the same of the same field, whatever the JSON, with NULL where there is nothing or a null. */
  lemma FieldMeans(d: Driver, args: seq<Look>, j: Json, write: Json -> string) returns (a: Access)
    requires JsonField(d, args).Some?
    ensures JsonField(d, args).value == AccessSql(a, Joined(0, |args| - 1))
    ensures PathOf(args[|args| - 1]).Some?
    ensures Get(a, j, write) == Field(j, PathOf(args[|args| - 1]).value, write)
  {
    var elems := PathOf(args[|args| - 1]).value;
    var t := args[|args| - 1].literal.value;
    a := AccessOf(d, elems);
    PathValid(t[1..|t| - 1]);
    GetsField(d, elems, j, write);
  }

  lemma PathValid(path: string)
    requires J.Parse(path).Some?
    ensures J.Valid(J.Parse(path).value) && J.Parse(path).value != []
  {
    J.ParsedIsValid(J.Rooted(path));
  }

  lemma AtRendered(j: Json, elems: seq<J.Elem>)
    requires J.Valid(elems) && elems != []
    ensures AtText(j, J.Render(elems)) == At(j, elems)
  {
    J.RoundTrip(elems);
  }

  lemma ShownAlike(v: Option<Json>, write: Json -> string)
    ensures (if v == Some(Null) then None else Unquote(v, write)) == Shown(v, write)
    ensures Coalesce(JsonQuery(v, write), JsonValue(v)) == Shown(v, write)
  {
  }

  lemma GetsAtPath(a: Access, elems: seq<J.Elem>, j: Json, write: Json -> string)
    requires J.Valid(elems) && elems != []
    requires var path := J.Render(elems); a == Guarded(path, path) || a == Either(path, path) || a == Plainly(path)
    ensures Get(a, j, write) == Field(j, elems, write)
  {
    AtRendered(j, elems);
    ShownAlike(At(j, elems), write);
  }

  lemma GetsAtKeys(elems: seq<J.Elem>, j: Json, write: Json -> string)
    requires J.Valid(elems)
    ensures Get(Keyed(J.Keys(elems)), j, write) == Field(j, elems, write)
  {
    J.UnkeysOfKeys(elems);
  }

  lemma GetsField(d: Driver, elems: seq<J.Elem>, j: Json, write: Json -> string)
    requires J.Valid(elems) && elems != []
    ensures Get(AccessOf(d, elems), j, write) == Field(j, elems, write)
  {
    if Pg(d) {
      GetsAtKeys(elems, j, write);
    } else {
      GetsAtPath(AccessOf(d, elems), elems, j, write);
    }
  }

  // ----- Blanks -----

  /** The bytes strings.TrimSpace takes for blanks. */
  const BLANKS := " \t\n\U{0b}\U{0c}\r"

  predicate Blanks(u: string) {
    forall i :: 0 <= i < |u| ==> u[i] in BLANKS
  }

  lemma {:induction false} TrimFront(before: string, u: string)
    requires Blanks(before)
    ensures Trim(before + u) == Trim(u)
    decreases |before|
  {
    if before == "" {
      assert before + u == u;
    } else {
      TrimFront(before[1..], u);
      assert (before + u)[1..] == before[1..] + u && (before + u)[0] == before[0];
    }
  }

  lemma {:induction false} TrimBack(u: string, after: string)
    requires Blanks(after) && u != "" && u[0] !in BLANKS
    ensures Trim(u + after) == Trim(u)
    decreases |after|
  {
    var n := |after|;
    if n == 0 {
      assert u + after == u;
    } else {
      TrimBack(u, after[..n - 1]);
      assert (u + after)[..|u + after| - 1] == u + after[..n - 1];
      assert (u + after)[0] == u[0] && (u + after)[|u + after| - 1] == after[n - 1];
    }
  }

  /** Arguments lose the blanks around them, and nothing else. */
  lemma TrimIs(before: string, core: string, after: string)
    requires Blanks(before) && Blanks(after)
    requires core == "" || (core[0] !in BLANKS && core[|core| - 1] !in BLANKS)
    ensures Trim(before + (core + after)) == core
  {
    TrimFront(before, core + after);
    if core == "" {
      TrimFront(after, "");
      assert core + after == after + "";
    } else {
      TrimBack(core, after);
      TrimNone(core);
    }
  }

  lemma TrimNone(core: string)
    requires core != "" && core[0] !in BLANKS && core[|core| - 1] !in BLANKS
    ensures Trim(core) == core
  {
    NotSpace(core[0]);
    NotSpace(core[|core| - 1]);
  }

  lemma NotSpace(c: char)
    ensures IsSpace(c) <==> c in BLANKS
  {
    var b := BLANKS;
    assert b[0] == ' ' && b[1] == '\t' && b[2] == '\n' && b[3] == '\U{0b}' && b[4] == '\U{0c}' && b[5] == '\r';
  }

  // ----- NOW_UTC -----

  /** The digits asked for: three by default, otherwise the number, up to six. */
  lemma NowDigits(p: nat)
    requires p <= D.INT_MAX
    ensures V.Digits([]) == Some(3) && V.Digits([Some("")]) == Some(3)
    ensures V.Digits([Some(D.Itoa(p))]) == if p <= 6 then Some(p) else None
  {
    D.AtoiOfItoa(p);
  }

  /** A NOW_UTC call counts as coarse when it asks for fewer than three digits, blanks around it or not. */
  lemma CoarseIs(args: seq<Expr>, before: string, after: string)
    requires Trim(before) == "" && Trim(after) == ""
    ensures CoarseNow(Expr([Text(before), Call("NOW_UTC", args), Text(after)])) <==>
      V.Digits(Literals(args)).Some? && V.Digits(Literals(args)).value < 3
  {
    var call := Call("NOW_UTC", args);
    var ns := [Text(before), call, Text(after)];
    assert ns[1..] == [call, Text(after)] && ns[1..][1..] == [Text(after)] && ns[1..][1..][1..] == [];
    assert Solid([Text(after)]) == [] && Solid([call, Text(after)]) == [call] + [] && Solid(ns) == [] + ([call] + []);
  }
}
