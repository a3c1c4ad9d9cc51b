/** Which bytes of a statement are code: string literals, quoted identifiers, comments and dollar-quoted bodies, by
    dialect. A string stands for its bytes. */
module Lexer {
  import opened Errors

  datatype Driver = MySQL | MariaDB | Pgx | CockroachDB | MSSQL | SQLite | Unknown

  predicate Mysqlish(d: Driver) {
    d.MySQL? || d.MariaDB?
  }

  predicate Pg(d: Driver) {
    d.Pgx? || d.CockroachDB?
  }

  predicate IsWordByte(b: char) {
    b == '_' || 'a' <= b <= 'z' || 'A' <= b <= 'Z' || '0' <= b <= '9'
  }

  predicate IsIdentByte(b: char) {
    b == '$' || IsWordByte(b)
  }

  // ----- Lengths of regions, counted from a suffix of the statement -----

  /** The bytes of a quoted region after its opening quote, its closing quote included; all of them if it never
      closes. */
  function QuotedLen(u: string, q: char, backslash: bool): (n: nat)
    ensures n <= |u|
  {
    if u == "" then 0
    else if backslash && u[0] == '\\' then (if |u| == 1 then 1 else 2 + QuotedLen(u[2..], q, backslash))
    else if u[0] == q then (if |u| > 1 && u[1] == q then 2 + QuotedLen(u[2..], q, backslash) else 1)
    else 1 + QuotedLen(u[1..], q, backslash)
  }

  /** strings.Index: where pat first occurs in u. */
  function Find(u: string, pat: string): (at: Option<nat>)
    ensures at.Some? ==> at.value + |pat| <= |u|
  {
    if |pat| <= |u| && u[..|pat|] == pat then Some(0)
    else if u == "" then None
    else
      var at := Find(u[1..], pat);
      if at.Some? then Some(at.value + 1) else None
  }

  /** The bytes up to the end of the first pat, or all of them. */
  function Through(u: string, pat: string): (n: nat)
    ensures n <= |u|
  {
    var at := Find(u, pat);
    if at.Some? then at.value + |pat| else |u|
  }

  function WordLen(u: string): (n: nat)
    ensures n <= |u|
  {
    if u != "" && IsWordByte(u[0]) then 1 + WordLen(u[1..]) else 0
  }

  /** A $tag$ body; zero when the dollar starts no tag. */
  function DollarLen(u: string): (n: nat)
    requires u != ""
    ensures n <= |u|
  {
    var tag := 1 + WordLen(u[1..]);
    if |u| > 1 && '0' <= u[1] <= '9' then 0
    else if tag >= |u| || u[tag] != '$' then 0
    else tag + 1 + Through(u[tag + 1..], u[..tag + 1])
  }

  predicate EscapeString(d: Driver, before: string) {
    var n := |before|;
    Pg(d) && n > 0 && (before[n - 1] == 'E' || before[n - 1] == 'e') && (n == 1 || !IsIdentByte(before[n - 2]))
  }

  /** The length of the non-code region that starts a suffix u of a statement, or zero: skipNonCode. */
  function SkipLen(d: Driver, before: string, u: string, dollarQuotes: bool): (n: nat)
    requires u != ""
    ensures n <= |u|
  {
    var ch := u[0];
    if ch == '\'' then 1 + QuotedLen(u[1..], '\'', Mysqlish(d) || EscapeString(d, before))
    else if ch == '"' then 1 + QuotedLen(u[1..], '"', Mysqlish(d))
    else if ch == '`' && (Mysqlish(d) || d.SQLite?) then 1 + QuotedLen(u[1..], '`', false)
    else if ch == '[' && (d.MSSQL? || d.SQLite?) then 1 + QuotedLen(u[1..], ']', false)
    else if ch == '-' && |u| > 1 && u[1] == '-' then Through(u, "\n")
    else if ch == '/' && |u| > 1 && u[1] == '*' then 2 + Through(u[2..], "*/")
    else if ch == '$' && dollarQuotes && Pg(d) && (before == "" || !IsIdentByte(before[|before| - 1])) then DollarLen(u)
    else 0
  }

  // ----- The index loops of the source -----

  method SkipQuoted(s: string, i: nat, q: char, backslash: bool) returns (end: nat)
    requires i < |s|
    ensures end == i + 1 + QuotedLen(s[i + 1..], q, backslash)
  {
    var j := i + 1;
    while j < |s|
      invariant i + 1 <= j <= |s|
      invariant j + QuotedLen(s[j..], q, backslash) == i + 1 + QuotedLen(s[i + 1..], q, backslash)
    {
      assert s[j..][1..] == s[j + 1..];
      assert j + 2 <= |s| ==> s[j..][2..] == s[j + 2..];
      if backslash && s[j] == '\\' {
        j := if j + 2 <= |s| then j + 2 else j + 1;
      } else if s[j] == q {
        if j + 1 < |s| && s[j + 1] == q {
          j := j + 2;
        } else {
          return j + 1;
        }
      } else {
        j := j + 1;
      }
    }
    return |s|;
  }

  method SkipBracket(s: string, i: nat) returns (end: nat)
    requires i < |s|
    ensures end == i + 1 + QuotedLen(s[i + 1..], ']', false)
  {
    var j := i + 1;
    while j < |s|
      invariant i + 1 <= j <= |s|
      invariant j + QuotedLen(s[j..], ']', false) == i + 1 + QuotedLen(s[i + 1..], ']', false)
    {
      assert s[j..][1..] == s[j + 1..];
      assert j + 2 <= |s| ==> s[j..][2..] == s[j + 2..];
      if s[j] == ']' {
        if j + 1 < |s| && s[j + 1] == ']' {
          j := j + 2;
          continue;
        }
        return j + 1;
      }
      j := j + 1;
    }
    end := |s|;
  }

  /** skipNonCode: the index just past the region that starts at s[i], or i when none does. */
  method SkipNonCode(d: Driver, s: string, i: nat, dollarQuotes: bool) returns (end: nat)
    requires i < |s|
    ensures end == i + SkipLen(d, s[..i], s[i..], dollarQuotes)
  {
    var ch := s[i];
    assert s[i..][1..] == s[i + 1..];
    if ch == '\'' {
      var escapeE := Pg(d) && i > 0 && (s[i - 1] == 'E' || s[i - 1] == 'e') && (i == 1 || !IsIdentByte(s[i - 2]));
      end := SkipQuoted(s, i, '\'', Mysqlish(d) || escapeE);
    } else if ch == '"' {
      end := SkipQuoted(s, i, '"', Mysqlish(d));
    } else if ch == '`' && (Mysqlish(d) || d.SQLite?) {
      end := SkipQuoted(s, i, '`', false);
    } else if ch == '[' && (d.MSSQL? || d.SQLite?) {
      end := SkipBracket(s, i);
    } else if ch == '-' && i + 1 < |s| && s[i + 1] == '-' {
      end := i + Through(s[i..], "\n");
    } else if ch == '/' && i + 1 < |s| && s[i + 1] == '*' {
      assert s[i..][2..] == s[i + 2..];
      end := i + 2 + Through(s[i + 2..], "*/");
    } else if ch == '$' && dollarQuotes && Pg(d) && (i == 0 || !IsIdentByte(s[i - 1])) {
      end := SkipDollar(s, i);
    } else {
      end := i;
    }
  }

  method SkipDollar(s: string, i: nat) returns (end: nat)
    requires i < |s|
    ensures end == i + DollarLen(s[i..])
  {
    var j := i + 1;
    assert s[i..][1..] == s[i + 1..];
    if j < |s| && '0' <= s[j] <= '9' {
      return i;
    }
    while j < |s| && IsWordByte(s[j])
      invariant i + 1 <= j <= |s|
      invariant j + WordLen(s[j..]) == i + 1 + WordLen(s[i + 1..])
    {
      assert s[j..][1..] == s[j + 1..];
      j := j + 1;
    }
    if j >= |s| || s[j] != '$' {
      return i;
    }
    var tag := s[i..j + 1];
    assert s[i..][..j + 1 - i] == tag && s[i..][j + 1 - i..] == s[j + 1..];
    end := j + 1 + Through(s[j + 1..], tag);
  }

  // ----- What the quoting rules mean -----

  /** A value written as a literal: the quote is doubled, and so is a backslash where it escapes. */
  function Escaped(value: string, q: char, backslash: bool): string {
    if value == "" then ""
    else if value[0] == q || (backslash && value[0] == '\\') then
      [value[0], value[0]] + Escaped(value[1..], q, backslash)
    else [value[0]] + Escaped(value[1..], q, backslash)
  }

  /** Whatever the value, its literal is skipped as a whole, up to its closing quote and no further. */
  lemma {:induction false} LiteralSkipped(value: string, q: char, backslash: bool, rest: string)
    requires q != '\\' && (rest == "" || rest[0] != q)
    ensures QuotedLen(Escaped(value, q, backslash) + [q] + rest, q, backslash) == |Escaped(value, q, backslash)| + 1
  {
    var e := Escaped(value, q, backslash);
    var u := e + [q] + rest;
    if value == "" {
      assert u == [q] + rest;
    } else {
      var e' := Escaped(value[1..], q, backslash);
      LiteralSkipped(value[1..], q, backslash, rest);
      if value[0] == q || (backslash && value[0] == '\\') {
        assert u[0] == value[0] && u[1] == value[0] && u[2..] == e' + [q] + rest;
        assert QuotedLen(u, q, backslash) == 2 + QuotedLen(u[2..], q, backslash);
      } else {
        assert u[0] == value[0] && u[1..] == e' + [q] + rest;
        assert QuotedLen(u, q, backslash) == 1 + QuotedLen(u[1..], q, backslash);
      }
    }
  }
}
