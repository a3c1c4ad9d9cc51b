/** What is code and what is not, said by the text: a statement as the sequence of literals, comments, dollar-quoted
    bodies and single bytes it is written as, and what numbering does to it. */
module Regions {
  import opened Errors
  import opened Lexer
  import opened Placeholders
  import Decimal
  import SearchSplit

  // ----- Statements as tokens -----

  /** A piece of quoted text: a byte, the quote written twice, or a backslash and whatever follows it. */
  datatype Unit = Plain(c: char) | Doubled | Slashed(c: char)

  /** How a region ends: as it should, with the statement, or with the statement behind a backslash. */
  datatype Ending = Closed | Open | Cut

  datatype Token =
    | Byte(c: char)
    | Line(body: string, ending: Ending)
    | Block(body: string, ending: Ending)
    | Quoted(open: char, units: seq<Unit>, ending: Ending)
    | Dollar(tag: string, body: string, ending: Ending)

  function UnitText(u: Unit, q: char): string {
    match u
    case Plain(c) => [c]
    case Doubled => [q, q]
    case Slashed(c) => ['\\', c]
  }

  function UnitsText(us: seq<Unit>, q: char): string {
    if us == [] then "" else UnitText(us[0], q) + UnitsText(us[1..], q)
  }

  function Closing(open: char): char {
    if open == '[' then ']' else open
  }

  function EndText(ending: Ending, q: char): string {
    match ending case Closed => [q] case Open => "" case Cut => "\\"
  }

  function Text(t: Token): string {
    match t
    case Byte(c) => [c]
    case Line(c, ending) => "--" + (c + if ending.Closed? then "\n" else "")
    case Block(c, ending) => "/*" + (c + if ending.Closed? then "*/" else "")
    case Quoted(open, units, ending) =>
      [open] + (UnitsText(units, Closing(open)) + EndText(ending, Closing(open)))
    case Dollar(tag, body, ending) =>
      "$" + (tag + ("$" + (body + if ending.Closed? then "$" + tag + "$" else "")))
  }

  // ----- Which tokens stand where -----

  /** The quotes of a dialect. */
  predicate Quotes(d: Driver, open: char) {
    || open == '\'' || open == '"'
    || (open == '`' && (d.MySQL? || d.MariaDB? || d.SQLite?))
    || (open == '[' && (d.MSSQL? || d.SQLite?))
  }

  /** A backslash escapes in strings on MySQL and MariaDB, and in E'...' on PostgreSQL. */
  predicate Slashes(d: Driver, before: string, open: char) {
    || ((d.MySQL? || d.MariaDB?) && (open == '\'' || open == '"'))
    || ((d.Pgx? || d.CockroachDB?) && open == '\'' && EPrefixed(before))
  }

  predicate EPrefixed(before: string) {
    before != "" && before[|before| - 1] in "Ee" && Apart(before[..|before| - 1])
  }

  /** The text does not end inside a name or a parameter. */
  predicate Apart(before: string) {
    before == "" || !IsIdentByte(before[|before| - 1])
  }

  predicate Proper(us: seq<Unit>, q: char, backslash: bool) {
    forall i :: 0 <= i < |us| ==>
      match us[i]
      case Plain(c) => c != q && !(backslash && c == '\\')
      case Doubled => true
      case Slashed(_) => backslash
  }

  /** pat stands nowhere in a text before its end. */
  ghost predicate NotIn(u: string, pat: string) {
    forall k :: !SearchSplit.Occurs(u, pat, k)
  }

  ghost predicate TagName(tag: string) {
    (forall i :: 0 <= i < |tag| ==> IsWordByte(tag[i])) && (tag == "" || !('0' <= tag[0] <= '9'))
  }

  /** A dollar, a tag and a dollar stand at the front of a text. */
  ghost predicate Tagged(u: string, tag: string) {
    TagName(tag) && "$" + tag + "$" <= u
  }

  /** Something that is no code starts here. */
  ghost predicate Starts(d: Driver, before: string, u: string) {
    && u != ""
    && (|| Quotes(d, u[0]) || "--" <= u || "/*" <= u
        || ((d.Pgx? || d.CockroachDB?) && Apart(before) && exists tag :: Tagged(u, tag)))
  }

  /** The token stands between these texts. */
  ghost predicate Stands(d: Driver, before: string, t: Token, rest: string) {
    && (!t.Byte? && !t.ending.Closed? ==> rest == "")
    && (!t.Byte? && t.ending.Cut? ==> t.Quoted?)
    && match t
       case Byte(c) => !Starts(d, before, [c] + rest)
       case Line(c, _) => '\n' !in c
       case Block(c, _) => NotIn(c, "*/")
       case Quoted(open, units, ending) =>
         && Quotes(d, open) && Proper(units, Closing(open), Slashes(d, before, open))
         && (ending.Closed? && rest != "" ==> rest[0] != Closing(open))
         && (ending.Cut? ==> Slashes(d, before, open))
       case Dollar(tag, body, ending) =>
         && (d.Pgx? || d.CockroachDB?) && Apart(before) && TagName(tag)
         && (if ending.Closed? then NotIn(body + "$" + tag, "$" + tag + "$") else NotIn(body, "$" + tag + "$"))
  }

  // ----- Where patterns and quotes end -----

  lemma OccursLater(u: string, v: string, pat: string, k: int)
    requires pat != "" && SearchSplit.Occurs(u + v, pat, k) && k + |pat| <= |u|
    ensures SearchSplit.Occurs(u, pat, k)
  {
    assert (u + v)[k..k + |pat|] == u[k..k + |pat|];
  }

  /** The first occurrence is the one a text without any ends with. */
  lemma FindEnd(u: string, pat: string, rest: string)
    requires pat != "" && NotIn(u + pat[..|pat| - 1], pat)
    ensures Find(u + pat + rest, pat) == Some(|u|) && Through(u + pat + rest, pat) == |u| + |pat|
  {
    var v, cut := u + pat + rest, u + pat[..|pat| - 1];
    SearchSplit.FindFirst(v, pat);
    assert v[|u|..|u| + |pat|] == pat;
    assert SearchSplit.Occurs(v, pat, |u|);
    var at := Find(v, pat).value;
    if at < |u| {
      assert v == cut + ([pat[|pat| - 1]] + rest);
      OccursLater(cut, [pat[|pat| - 1]] + rest, pat, at);
    }
  }

  lemma FindNone(u: string, pat: string)
    requires NotIn(u, pat)
    ensures Find(u, pat) == None && Through(u, pat) == |u|
  {
    SearchSplit.FindFirst(u, pat);
  }

  /** A quoted region is its units and the closing quote. */
  lemma {:induction false} UnitsClose(us: seq<Unit>, q: char, backslash: bool, rest: string)
    requires Proper(us, q, backslash) && q != '\\' && (rest == "" || rest[0] != q)
    ensures QuotedLen(UnitsText(us, q) + ([q] + rest), q, backslash) == |UnitsText(us, q)| + 1
    decreases |us|
  {
    var tail := [q] + rest;
    if us == [] {
      assert "" + tail == tail;
    } else {
      assert Proper(us[1..], q, backslash);
      UnitsClose(us[1..], q, backslash, rest);
      UnitStep(us[0], UnitsText(us[1..], q) + tail, q, backslash);
      assert UnitsText(us, q) + tail == UnitText(us[0], q) + (UnitsText(us[1..], q) + tail);
    }
  }

  lemma UnitStep(u: Unit, more: string, q: char, backslash: bool)
    requires Proper([u], q, backslash) && q != '\\'
    ensures QuotedLen(UnitText(u, q) + more, q, backslash) == |UnitText(u, q)| + QuotedLen(more, q, backslash)
  {
    assert [u][0] == u;
    var t := UnitText(u, q) + more;
    assert t[|UnitText(u, q)|..] == more && t[0] == UnitText(u, q)[0];
  }

  /** Without a closing quote it runs to the end. */
  lemma {:induction false} UnitsOpen(us: seq<Unit>, q: char, backslash: bool, cut: bool)
    requires Proper(us, q, backslash) && q != '\\' && (cut ==> backslash)
    ensures var u := UnitsText(us, q) + if cut then "\\" else ""; QuotedLen(u, q, backslash) == |u|
    decreases |us|
  {
    var tail := if cut then "\\" else "";
    if us == [] {
      assert "" + tail == tail;
    } else {
      assert Proper(us[1..], q, backslash);
      UnitsOpen(us[1..], q, backslash, cut);
      UnitStep(us[0], UnitsText(us[1..], q) + tail, q, backslash);
      assert UnitsText(us, q) + tail == UnitText(us[0], q) + (UnitsText(us[1..], q) + tail);
    }
  }

  // ----- The lexer skips each region, and nothing else -----

  lemma LineSkipped(d: Driver, before: string, c: string, rest: string, dollarQuotes: bool)
    requires '\n' !in c
    ensures SkipLen(d, before, "--" + c + "\n" + rest, dollarQuotes) == |c| + 3
    ensures SkipLen(d, before, "--" + c, dollarQuotes) == |c| + 2
  {
    var u := "--" + c;
    assert "\n"[..0] == "" && u + "" == u && '\n' !in u;
    NoNewline(u);
    FindEnd(u, "\n", rest);
    FindNone(u, "\n");
    assert (u + "\n" + rest)[0] == '-' && (u + "\n" + rest)[1] == '-';
  }

  lemma NoNewline(u: string)
    requires '\n' !in u
    ensures NotIn(u, "\n")
  {
    forall k
      ensures !SearchSplit.Occurs(u, "\n", k)
    {
      if 0 <= k < |u| {
        assert u[k..k + 1] == [u[k]];
      }
    }
  }

  lemma NoEndCut(c: string)
    requires NotIn(c, "*/")
    ensures NotIn(c + "*", "*/")
  {
    forall k
      ensures !SearchSplit.Occurs(c + "*", "*/", k)
    {
      if SearchSplit.Occurs(c + "*", "*/", k) {
        assert (c + "*")[k..k + 2][1] == '/';
        OccursLater(c, "*", "*/", k);
      }
    }
  }

  lemma BlockSkipped(d: Driver, before: string, c: string, rest: string, dollarQuotes: bool)
    requires NotIn(c, "*/")
    ensures SkipLen(d, before, "/*" + c + "*/" + rest, dollarQuotes) == |c| + 4
    ensures SkipLen(d, before, "/*" + c, dollarQuotes) == |c| + 2
  {
    var u, v := "/*" + c + "*/" + rest, "/*" + c;
    NoEndCut(c);
    assert "*/"[..1] == "*";
    FindEnd(c, "*/", rest);
    FindNone(c, "*/");
    assert u[2..] == c + "*/" + rest && v[2..] == c;
    assert u[0] == v[0] == '/' && u[1] == v[1] == '*';
  }

  lemma {:induction false} TagAhead(tag: string, rest: string)
    requires (forall i :: 0 <= i < |tag| ==> IsWordByte(tag[i])) && (rest == "" || !IsWordByte(rest[0]))
    ensures WordLen(tag + rest) == |tag|
    decreases |tag|
  {
    if tag == "" {
      assert tag + rest == rest;
    } else {
      TagAhead(tag[1..], rest);
      assert (tag + rest)[1..] == tag[1..] + rest;
    }
  }

  /** A tag is read as such. */
  lemma TagRead(tag: string, more: string)
    requires TagName(tag)
    ensures var u := "$" + (tag + ("$" + more));
      DollarLen(u) == |tag| + 2 + Through(more, "$" + tag + "$")
  {
    var u := "$" + (tag + ("$" + more));
    TagAhead(tag, "$" + more);
    assert u[1..] == tag + ("$" + more);
    assert u[|tag| + 2..] == more && u[..|tag| + 2] == "$" + tag + "$" && u[|tag| + 1] == '$';
    assert tag == "" ==> u[1] == '$';
    assert tag != "" ==> u[1] == tag[0];
  }

  /** A dollar-quoted body is skipped on PostgreSQL and CockroachDB, when such bodies are to be skipped at all. */
  lemma DollarSkipped(d: Driver, before: string, tag: string, body: string, rest: string)
    requires TagName(tag) && Apart(before)
    ensures var (mark, u) := ("$" + tag + "$", "$" + (tag + ("$" + (body + ("$" + tag + "$") + rest))));
      && (Pg(d) && NotIn(body + "$" + tag, mark) ==> SkipLen(d, before, u, true) == 2 * |mark| + |body|)
      && SkipLen(d, before, u, false) == 0 && (!Pg(d) ==> SkipLen(d, before, u, true) == 0)
    ensures Pg(d) && NotIn(body, "$" + tag + "$") ==>
      SkipLen(d, before, "$" + (tag + ("$" + body)), true) == |tag| + 2 + |body|
  {
    var mark := "$" + tag + "$";
    TagRead(tag, body + mark + rest);
    TagRead(tag, body);
    if NotIn(body + "$" + tag, mark) {
      assert body + "$" + tag == body + mark[..|mark| - 1];
      FindEnd(body, mark, rest);
    }
    if NotIn(body, mark) {
      FindNone(body, mark);
    }
  }

  lemma SlashesIs(d: Driver, before: string, open: char)
    ensures Slashes(d, before, open) <==>
      if open == '\'' then Mysqlish(d) || EscapeString(d, before) else open == '"' && Mysqlish(d)
  {
  }

  lemma QuotedSkipped(d: Driver, before: string, open: char, units: seq<Unit>, rest: string, dollarQuotes: bool)
    requires Quotes(d, open) && Proper(units, Closing(open), Slashes(d, before, open))
    requires rest == "" || rest[0] != Closing(open)
    ensures var body := UnitsText(units, Closing(open));
      && SkipLen(d, before, [open] + (body + ([Closing(open)] + rest)), dollarQuotes) == |body| + 2
      && SkipLen(d, before, [open] + body, dollarQuotes) == |body| + 1
      && (Slashes(d, before, open) ==> SkipLen(d, before, [open] + (body + "\\"), dollarQuotes) == |body| + 2)
  {
    var q, backslash := Closing(open), Slashes(d, before, open);
    var body := UnitsText(units, q);
    SlashesIs(d, before, open);
    UnitsClose(units, q, backslash, rest);
    UnitsOpen(units, q, backslash, false);
    assert body + "" == body;
    OpenLen(d, before, open, body + ([q] + rest), dollarQuotes);
    OpenLen(d, before, open, body, dollarQuotes);
    if backslash {
      UnitsOpen(units, q, backslash, true);
      OpenLen(d, before, open, body + "\\", dollarQuotes);
    }
  }

  lemma OpenLen(d: Driver, before: string, open: char, u: string, dollarQuotes: bool)
    requires Quotes(d, open)
    ensures SkipLen(d, before, [open] + u, dollarQuotes) == 1 + QuotedLen(u, Closing(open), Slashes(d, before, open))
  {
    SlashesIs(d, before, open);
    assert ([open] + u)[1..] == u;
  }

  lemma LineStands(d: Driver, before: string, t: Token, rest: string)
    requires t.Line? && Stands(d, before, t, rest)
    ensures SkipLen(d, before, Text(t) + rest, true) == |Text(t)|
  {
    LineSkipped(d, before, t.body, rest, true);
    assert Text(t) + rest == if t.ending.Closed? then "--" + t.body + "\n" + rest else "--" + t.body;
  }

  lemma BlockStands(d: Driver, before: string, t: Token, rest: string)
    requires t.Block? && Stands(d, before, t, rest)
    ensures SkipLen(d, before, Text(t) + rest, true) == |Text(t)|
  {
    BlockSkipped(d, before, t.body, rest, true);
    assert Text(t) + rest == if t.ending.Closed? then "/*" + t.body + "*/" + rest else "/*" + t.body;
  }

  lemma QuotedStands(d: Driver, before: string, t: Token, rest: string)
    requires t.Quoted? && Stands(d, before, t, rest)
    ensures SkipLen(d, before, Text(t) + rest, true) == |Text(t)|
  {
    QuotedText(t.open, t.units, rest);
    QuotedSkipped(d, before, t.open, t.units, if t.ending.Closed? then rest else "", true);
  }

  lemma QuotedText(open: char, units: seq<Unit>, rest: string)
    ensures var (q, body) := (Closing(open), UnitsText(units, Closing(open)));
      && Text(Quoted(open, units, Closed)) + rest == [open] + (body + ([q] + rest))
      && |Text(Quoted(open, units, Closed))| == |body| + 2
      && Text(Quoted(open, units, Open)) + "" == [open] + body && |Text(Quoted(open, units, Open))| == |body| + 1
      && Text(Quoted(open, units, Cut)) + "" == [open] + (body + "\\")
      && |Text(Quoted(open, units, Cut))| == |body| + 2
  {
  }

  lemma DollarText(tag: string, body: string, rest: string)
    ensures var (mark, closed, open) := ("$" + tag + "$", Dollar(tag, body, Closed), Dollar(tag, body, Open));
      && Text(closed) + rest == "$" + (tag + ("$" + (body + mark + rest)))
      && |Text(closed)| == 2 * |mark| + |body|
      && Text(open) + "" == "$" + (tag + ("$" + body)) && |Text(open)| == |mark| + |body|
  {
  }

  lemma DollarStands(d: Driver, before: string, t: Token, rest: string)
    requires t.Dollar? && Stands(d, before, t, rest)
    ensures SkipLen(d, before, Text(t) + rest, true) == |Text(t)|
  {
    DollarText(t.tag, t.body, rest);
    DollarSkipped(d, before, t.tag, t.body, rest);
  }

  /** A token that is no code is skipped as a whole. */
  lemma RegionSkipped(d: Driver, before: string, t: Token, rest: string)
    requires Stands(d, before, t, rest) && !t.Byte?
    ensures SkipLen(d, before, Text(t) + rest, true) == |Text(t)|
  {
    match t {
      case Line(_, _) => LineStands(d, before, t, rest);
      case Block(_, _) => BlockStands(d, before, t, rest);
      case Quoted(_, _, _) => QuotedStands(d, before, t, rest);
      case Dollar(_, _, _) => DollarStands(d, before, t, rest);
    }
  }

  lemma TagFound(u: string)
    requires u != "" && u[0] == '$' && DollarLen(u) > 0
    ensures exists tag :: Tagged(u, tag)
  {
    var n := WordLen(u[1..]);
    var tag := u[1..1 + n];
    WordBytes(u[1..]);
    assert u[1..][..n] == tag;
    assert "$" + tag + "$" == u[..n + 2];
    assert Tagged(u, tag);
  }

  lemma {:induction false} WordBytes(u: string)
    ensures forall i :: 0 <= i < WordLen(u) ==> IsWordByte(u[i])
    decreases |u|
  {
    if u != "" && IsWordByte(u[0]) {
      WordBytes(u[1..]);
      forall i | 0 <= i < WordLen(u)
        ensures IsWordByte(u[i])
      {
        if i > 0 {
          assert u[i] == u[1..][i - 1];
        }
      }
    }
  }

  lemma TagSkipped(u: string, tag: string)
    requires Tagged(u, tag)
    ensures DollarLen(u) > 0
  {
    var more := u[|tag| + 2..];
    assert u == "$" + tag + "$" + more;
    TagRead(tag, more);
    assert u == "$" + (tag + ("$" + more));
  }

  /** Something is skipped exactly where a region starts. */
  lemma SkipsIffStarts(d: Driver, before: string, u: string)
    requires u != ""
    ensures SkipLen(d, before, u, true) > 0 <==> Starts(d, before, u)
  {
    assert "--" <= u <==> |u| > 1 && u[0] == '-' && u[1] == '-';
    assert "/*" <= u <==> |u| > 1 && u[0] == '/' && u[1] == '*';
    if |u| > 1 && u[0] == '-' && u[1] == '-' {
      DashSkips(u);
    } else if u[0] == '$' {
      if DollarLen(u) > 0 {
        TagFound(u);
      }
      if tag :| Tagged(u, tag) {
        TagSkipped(u, tag);
      }
    } else {
      assert forall tag :: !Tagged(u, tag);
    }
  }

  lemma DashSkips(u: string)
    requires |u| > 1
    ensures Through(u, "\n") > 0
  {
  }

  // ----- Numbering a statement written as tokens -----

  function Written(ts: seq<Token>): string {
    if ts == [] then "" else Text(ts[0]) + Written(ts[1..])
  }

  /** Each token stands where it is written. */
  ghost predicate Lexed(d: Driver, before: string, ts: seq<Token>)
    decreases |ts|
  {
    ts == [] || (Stands(d, before, ts[0], Written(ts[1..])) && Lexed(d, before + Text(ts[0]), ts[1..]))
  }

  function Piece(t: Token, k: nat): string {
    if t == Byte('?') then "$" + Decimal.Itoa(k) else Text(t)
  }

  function Number(t: Token, k: nat): nat {
    if t == Byte('?') then k + 1 else k
  }

  /** The ? that are tokens take the numbers from k on; everything else is written as it was. */
  function NumberedFrom(ts: seq<Token>, k: nat): string {
    if ts == [] then ""
    else Piece(ts[0], k) + NumberedFrom(ts[1..], Number(ts[0], k))
  }

  /** One token, as the loop goes over it. */
  lemma ByteTurn(d: Driver, s: string, i: nat, c: char, rest: string, k: nat)
    requires i < |s| && s[i..] == [c] + rest && !Starts(d, s[..i], [c] + rest)
    ensures Splice(s, i, CodeMarks(d, s, i), k)
      == Piece(Byte(c), k) + Splice(s, i + 1, CodeMarks(d, s, i + 1), Number(Byte(c), k))
  {
    SkipsIffStarts(d, s[..i], s[i..]);
    SlowTurn(d, s, i, k, i);
    assert s[i] == s[i..][0] == c;
  }

  lemma RegionTurn(d: Driver, s: string, i: nat, j: nat, t: Token, rest: string, k: nat)
    requires i < j <= |s| && j - i == |Text(t)| && s[i..] == Text(t) + rest && Stands(d, s[..i], t, rest) && !t.Byte?
    ensures Splice(s, i, CodeMarks(d, s, i), k) == Text(t) + Splice(s, j, CodeMarks(d, s, j), k)
  {
    RegionSkipped(d, s[..i], t, rest);
    SkipTurn(d, s, i, j, k);
    assert s[i..j] == s[i..][..j - i];
  }

  lemma SkipTurn(d: Driver, s: string, i: nat, j: nat, k: nat)
    requires i < j <= |s| && SkipLen(d, s[..i], s[i..], true) == j - i
    ensures Splice(s, i, CodeMarks(d, s, i), k) == s[i..j] + Splice(s, j, CodeMarks(d, s, j), k)
  {
    SlowTurn(d, s, i, k, j);
  }

  lemma TokenTurn(d: Driver, s: string, i: nat, j: nat, t: Token, rest: string, k: nat)
    requires i < j <= |s| && j - i == |Text(t)| && s[i..] == Text(t) + rest && Stands(d, s[..i], t, rest)
    ensures Splice(s, i, CodeMarks(d, s, i), k) == Piece(t, k) + Splice(s, j, CodeMarks(d, s, j), Number(t, k))
  {
    if t.Byte? {
      ByteTurn(d, s, i, t.c, rest, k);
    } else {
      RegionTurn(d, s, i, j, t, rest, k);
    }
  }

  lemma Moved(s: string, i: nat, j: nat, text: string, rest: string)
    requires i <= |s| && s[i..] == text + rest && j == i + |text|
    ensures j <= |s| && s[j..] == rest && s[..i] + text == s[..j]
  {
    assert s == s[..i] + (text + rest);
  }

  lemma {:induction false} TokensNumbered(d: Driver, s: string, i: nat, ts: seq<Token>, k: nat)
    requires i <= |s| && s[i..] == Written(ts) && Lexed(d, s[..i], ts)
    ensures Splice(s, i, CodeMarks(d, s, i), k) == NumberedFrom(ts, k)
    decreases |ts|
  {
    if ts != [] {
      var t, rest := ts[0], Written(ts[1..]);
      var j := i + |Text(t)|;
      Moved(s, i, j, Text(t), rest);
      TokenTurn(d, s, i, j, t, rest, k);
      TokensNumbered(d, s, j, ts[1..], Number(t, k));
    }
  }

  /** Numbering puts the k-th ? that is code as $k, and leaves every literal, comment and dollar-quoted body, whatever ?
      it holds; on drivers that bind a bare ? it leaves everything. */
  lemma ConformNumbers(d: Driver, ts: seq<Token>)
    requires Lexed(d, "", ts)
    ensures Conform(d, Written(ts)) ==
      if d.Pgx? || d.CockroachDB? || d.MSSQL? then NumberedFrom(ts, 1) else Written(ts)
  {
    var s := Written(ts);
    assert s[0..] == s && s[..0] == "";
    TokensNumbered(d, s, 0, ts, 1);
  }

  // ----- Every statement is written as tokens -----

  /** These units and this ending are what a text is up to where it closes. */
  predicate ReadsAs(u: string, q: char, backslash: bool, us: seq<Unit>, ending: Ending) {
    var n := QuotedLen(u, q, backslash);
    && Proper(us, q, backslash) && (ending.Cut? ==> backslash)
    && u[..n] == UnitsText(us, q) + EndText(ending, q)
    && (if ending.Closed? then n == |u| || u[n] != q else n == |u|)
  }

  lemma NextUnit(u: string, q: char, backslash: bool) returns (unit: Unit)
    requires u != "" && q != '\\' && !(backslash && u == "\\") && !(u[0] == q && (|u| == 1 || u[1] != q))
    ensures Proper([unit], q, backslash) && |UnitText(unit, q)| <= |u|
    ensures u == UnitText(unit, q) + u[|UnitText(unit, q)|..]
  {
    unit := if backslash && u[0] == '\\' then Slashed(u[1]) else if u[0] == q then Doubled else Plain(u[0]);
  }

  lemma MoreUnits(u: string, q: char, backslash: bool, unit: Unit, rest: string, us: seq<Unit>, ending: Ending)
    requires q != '\\' && Proper([unit], q, backslash) && u == UnitText(unit, q) + rest
    requires ReadsAs(rest, q, backslash, us, ending)
    ensures ReadsAs(u, q, backslash, [unit] + us, ending)
  {
    var text, n := UnitText(unit, q), QuotedLen(rest, q, backslash);
    UnitStep(unit, rest, q, backslash);
    assert [unit][0] == unit && ([unit] + us)[1..] == us;
    assert u[..|text| + n] == text + rest[..n];
  }

  lemma NoUnits(u: string, q: char, backslash: bool, ending: Ending)
    requires q != '\\'
    requires match ending
             case Open => u == ""
             case Cut => backslash && u == "\\"
             case Closed => u != "" && u[0] == q && (|u| == 1 || u[1] != q)
    ensures ReadsAs(u, q, backslash, [], ending)
  {
    assert "" + "\\" == "\\" && "" + [q] == [q];
    assert u != "" ==> u[..1] == [u[0]];
  }

  /** A text with quotes in it up to where it closes. */
  lemma {:induction false} ReadUnits(u: string, q: char, backslash: bool) returns (us: seq<Unit>, ending: Ending)
    requires q != '\\'
    ensures ReadsAs(u, q, backslash, us, ending)
    decreases |u|
  {
    if u == "" || (backslash && u == "\\") || (u[0] == q && (|u| == 1 || u[1] != q)) {
      us, ending := [], if u == "" then Open else if backslash && u == "\\" then Cut else Closed;
      NoUnits(u, q, backslash, ending);
    } else {
      var unit := NextUnit(u, q, backslash);
      var rest := u[|UnitText(unit, q)|..];
      us, ending := ReadUnits(rest, q, backslash);
      MoreUnits(u, q, backslash, unit, rest, us, ending);
      us := [unit] + us;
    }
  }

  /** A text up to the first pattern and behind it. */
  lemma ReadThrough(u: string, pat: string) returns (body: string, ending: Ending, rest: string)
    requires pat != ""
    ensures u == body + ((if ending.Closed? then pat else "") + rest) && !ending.Cut?
    ensures if ending.Closed? then NotIn(body + pat[..|pat| - 1], pat) else rest == "" && NotIn(body, pat)
  {
    var at := Find(u, pat);
    SearchSplit.FindFirst(u, pat);
    if at.None? {
      body, ending, rest := u, Open, "";
    } else {
      var k := at.value;
      body, ending, rest := u[..k], Closed, u[k + |pat|..];
      var cut := body + pat[..|pat| - 1];
      assert u[k..k + |pat|] == pat;
      assert u == cut + ([pat[|pat| - 1]] + rest);
      OccursWithin(cut, [pat[|pat| - 1]] + rest, pat);
    }
  }

  lemma ShorterNotIn(a: string, b: string, pat: string)
    requires NotIn(a + b, pat)
    ensures NotIn(a, pat)
  {
    OccursWithin(a, b, pat);
  }

  lemma OccursWithin(a: string, b: string, pat: string)
    ensures forall k :: SearchSplit.Occurs(a, pat, k) ==> SearchSplit.Occurs(a + b, pat, k)
  {
    forall k | SearchSplit.Occurs(a, pat, k)
      ensures SearchSplit.Occurs(a + b, pat, k)
    {
      assert (a + b)[k..k + |pat|] == a[k..k + |pat|];
    }
  }

  lemma WithoutNewline(c: string)
    requires NotIn(c, "\n")
    ensures '\n' !in c
  {
    if i :| 0 <= i < |c| && c[i] == '\n' {
      assert c[i..i + 1] == "\n";
      assert SearchSplit.Occurs(c, "\n", i);
    }
  }

  lemma ReadLine(d: Driver, before: string, u: string) returns (t: Token, rest: string)
    requires "--" <= u
    ensures u == Text(t) + rest && Stands(d, before, t, rest)
  {
    var body, ending;
    body, ending, rest := ReadThrough(u[2..], "\n");
    ShorterNotIn(body, "", "\n");
    assert body + "" == body && body + "\n"[..0] == body;
    WithoutNewline(body);
    t := Line(body, ending);
  }

  lemma ReadBlock(d: Driver, before: string, u: string) returns (t: Token, rest: string)
    requires "/*" <= u
    ensures u == Text(t) + rest && Stands(d, before, t, rest)
  {
    var body, ending;
    body, ending, rest := ReadThrough(u[2..], "*/");
    if ending.Closed? {
      ShorterNotIn(body, "*/"[..1], "*/");
    }
    t := Block(body, ending);
  }

  lemma ReadDollar(d: Driver, before: string, u: string, tag: string) returns (t: Token, rest: string)
    requires Tagged(u, tag) && (d.Pgx? || d.CockroachDB?) && Apart(before)
    ensures u == Text(t) + rest && Stands(d, before, t, rest)
  {
    var mark := "$" + tag + "$";
    var body, ending;
    body, ending, rest := ReadThrough(u[|mark|..], mark);
    assert mark[..|mark| - 1] == "$" + tag && body + ("$" + tag) == body + "$" + tag;
    t := Dollar(tag, body, ending);
    assert u == mark + u[|mark|..];
    DollarSplits(t, rest);
  }

  lemma DollarSplits(t: Token, rest: string)
    requires t.Dollar? && !t.ending.Cut?
    ensures var mark := "$" + t.tag + "$";
      Text(t) + rest == mark + (t.body + ((if t.ending.Closed? then mark else "") + rest))
  {
  }

  lemma QuotedSplits(open: char, units: seq<Unit>, ending: Ending, inner: string, rest: string)
    requires inner == UnitsText(units, Closing(open)) + EndText(ending, Closing(open))
    ensures Text(Quoted(open, units, ending)) + rest == [open] + (inner + rest)
  {
  }

  lemma ReadQuoted(d: Driver, before: string, u: string) returns (t: Token, rest: string)
    requires u != "" && Quotes(d, u[0])
    ensures u == Text(t) + rest && Stands(d, before, t, rest)
  {
    var q, backslash, v := Closing(u[0]), Slashes(d, before, u[0]), u[1..];
    var units, ending := ReadUnits(v, q, backslash);
    var n := QuotedLen(v, q, backslash);
    t, rest := Quoted(u[0], units, ending), v[n..];
    QuotedSplits(u[0], units, ending, v[..n], rest);
    assert u == [u[0]] + v && v == v[..n] + rest;
  }

  lemma ReadToken(d: Driver, before: string, u: string) returns (t: Token, rest: string)
    requires u != ""
    ensures u == Text(t) + rest && Stands(d, before, t, rest)
  {
    if Quotes(d, u[0]) {
      t, rest := ReadQuoted(d, before, u);
    } else if "--" <= u {
      t, rest := ReadLine(d, before, u);
    } else if "/*" <= u {
      t, rest := ReadBlock(d, before, u);
    } else if Starts(d, before, u) {
      var tag :| Tagged(u, tag);
      t, rest := ReadDollar(d, before, u, tag);
    } else {
      t, rest := Byte(u[0]), u[1..];
      assert u == [u[0]] + u[1..];
    }
  }

  lemma {:induction false} ReadTokens(d: Driver, before: string, u: string) returns (ts: seq<Token>)
    ensures Written(ts) == u && Lexed(d, before, ts)
    decreases |u|
  {
    if u == "" {
      ts := [];
    } else {
      var t, rest := ReadToken(d, before, u);
      var more := ReadTokens(d, before + Text(t), rest);
      ts := [t] + more;
      assert ts[1..] == more;
    }
  }

  /** Whatever the statement: it is written as tokens, and what numbering makes of it is said by them. */
  lemma EveryStatementNumbers(d: Driver, s: string) returns (ts: seq<Token>)
    ensures Lexed(d, "", ts) && Written(ts) == s
    ensures Conform(d, s) == if d.Pgx? || d.CockroachDB? || d.MSSQL? then NumberedFrom(ts, 1) else s
  {
    ts := ReadTokens(d, "", s);
    ConformNumbers(d, ts);
  }
}
