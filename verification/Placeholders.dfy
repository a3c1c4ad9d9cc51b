/** Numbering of ? placeholders: conformPlaceholders. */
module Placeholders {
  import opened Errors
  import opened Decimal
  import opened Lexer

  predicate Numbers(d: Driver) {
    Pg(d) || d.MSSQL?
  }

  /** The positions, from i on, of the ? that are code. */
  function CodeMarks(d: Driver, s: string, i: nat): (marks: seq<nat>)
    requires i <= |s|
    ensures forall m :: 0 <= m < |marks| ==> i <= marks[m] < |s| && s[marks[m]] == '?'
    ensures forall m, n :: 0 <= m < n < |marks| ==> marks[m] < marks[n]
    decreases |s| - i
  {
    if i == |s| then []
    else
      var n := SkipLen(d, s[..i], s[i..], true);
      if n > 0 then CodeMarks(d, s, i + n)
      else if s[i] == '?' then [i] + CodeMarks(d, s, i + 1)
      else CodeMarks(d, s, i + 1)
  }

  /** Every ? from i on, code or not. */
  function AllMarks(s: string, i: nat): (marks: seq<nat>)
    requires i <= |s|
    ensures forall m :: 0 <= m < |marks| ==> i <= marks[m] < |s| && s[marks[m]] == '?'
    ensures forall m, n :: 0 <= m < n < |marks| ==> marks[m] < marks[n]
    decreases |s| - i
  {
    if i == |s| then [] else if s[i] == '?' then [i] + AllMarks(s, i + 1) else AllMarks(s, i + 1)
  }

  ghost predicate Ascending(s: string, from: nat, marks: seq<nat>) {
    && from <= |s|
    && (forall m :: 0 <= m < |marks| ==> from <= marks[m] < |s|)
    && (forall m, n :: 0 <= m < n < |marks| ==> marks[m] < marks[n])
  }

  function Ordinal(k: nat): (n: string)
    ensures n != "" && n[0] == '$'
  {
    "$" + Itoa(k)
  }

  /** s[from..] with the byte at the m-th mark replaced by $k, $k+1, ... and every other byte kept. */
  function Splice(s: string, from: nat, marks: seq<nat>, k: nat): string
    requires Ascending(s, from, marks)
    decreases |s| - from
  {
    if from == |s| then ""
    else if marks != [] && marks[0] == from then Ordinal(k) + Splice(s, from + 1, marks[1..], k + 1)
    else [s[from]] + Splice(s, from + 1, marks, k)
  }

  /** conformPlaceholders. */
  function Conform(d: Driver, s: string): string {
    if Numbers(d) then Splice(s, 0, CodeMarks(d, s, 0), 1) else s
  }

  lemma Assoc(a: string, b: string, c: string)
    ensures (a + b) + c == a + (b + c)
  {
  }

  lemma {:induction false} SpliceCopy(s: string, from: nat, to: nat, marks: seq<nat>, k: nat)
    requires from <= to && Ascending(s, to, marks)
    ensures Ascending(s, from, marks)
    ensures Splice(s, from, marks, k) == s[from..to] + Splice(s, to, marks, k)
    decreases |s| - from
  {
    if from < to {
      SpliceCopy(s, from + 1, to, marks, k);
      assert s[from..to] == [s[from]] + s[from + 1..to];
      Assoc([s[from]], s[from + 1..to], Splice(s, to, marks, k));
    }
  }

  // ----- The source's two loops -----

  /** One turn of the slow loop: the piece it writes, where it goes on, and the number it goes on with. */
  lemma SlowTurn(d: Driver, s: string, i: nat, k: nat, j: nat)
    requires i < |s| && j == i + SkipLen(d, s[..i], s[i..], true)
    ensures var (piece, next, k') :=
        if j > i then (s[i..j], j, k) else if s[i] == '?' then (Ordinal(k), i + 1, k + 1) else ([s[i]], i + 1, k);
      Splice(s, i, CodeMarks(d, s, i), k) == piece + Splice(s, next, CodeMarks(d, s, next), k')
  {
    if j > i {
      MarksSkip(d, s, i, j);
      SpliceCopy(s, i, j, CodeMarks(d, s, j), k);
    } else {
      MarksStep(d, s, i);
      if s[i] == '?' {
        assert CodeMarks(d, s, i)[1..] == CodeMarks(d, s, i + 1);
      }
    }
  }

  lemma MarksSkip(d: Driver, s: string, i: nat, j: nat)
    requires i < |s| && j == i + SkipLen(d, s[..i], s[i..], true) > i
    ensures j <= |s| && CodeMarks(d, s, i) == CodeMarks(d, s, j)
  {
  }

  lemma MarksStep(d: Driver, s: string, i: nat)
    requires i < |s| && SkipLen(d, s[..i], s[i..], true) == 0
    ensures CodeMarks(d, s, i) == (if s[i] == '?' then [i] else []) + CodeMarks(d, s, i + 1)
  {
    assert [] + CodeMarks(d, s, i + 1) == CodeMarks(d, s, i + 1);
  }

  /** One turn of the slow loop: what it writes, where it goes on, and the next number. */
  method SlowPiece(d: Driver, s: string, i: nat, k: nat) returns (piece: string, next: nat, k': nat)
    requires i < |s| && k >= 1
    ensures i < next <= |s| && k' >= 1
    ensures Splice(s, i, CodeMarks(d, s, i), k) == piece + Splice(s, next, CodeMarks(d, s, next), k')
  {
    var j := SkipNonCode(d, s, i, true);
    SlowTurn(d, s, i, k, j);
    if j > i {
      return s[i..j], j, k;
    }
    if s[i] == '?' {
      return Ordinal(k), i + 1, k + 1;
    }
    return [s[i]], i + 1, k;
  }

  method SlowPath(d: Driver, s: string) returns (r: string)
    ensures r == Splice(s, 0, CodeMarks(d, s, 0), 1)
  {
    r := "";
    var argIndex, i := 1, 0;
    while i < |s|
      invariant 0 <= i <= |s| && argIndex >= 1
      invariant r + Splice(s, i, CodeMarks(d, s, i), argIndex) == Splice(s, 0, CodeMarks(d, s, 0), 1)
    {
      var piece, next, k := SlowPiece(d, s, i, argIndex);
      Assoc(r, piece, Splice(s, next, CodeMarks(d, s, next), k));
      r, i, argIndex := r + piece, next, k;
    }
  }

  lemma {:induction false} AllMarksFind(s: string, i: nat)
    requires i <= |s|
    ensures var at := Find(s[i..], "?");
      if at.None? then AllMarks(s, i) == []
      else i + at.value < |s| && AllMarks(s, i) == [i + at.value] + AllMarks(s, i + at.value + 1)
    decreases |s| - i
  {
    if i < |s| {
      assert s[i..][1..] == s[i + 1..];
      assert s[i..][..1] == [s[i]];
      AllMarksFind(s, i + 1);
    }
  }

  lemma FastTurn(s: string, at: nat, next: nat, k: nat)
    requires at <= next < |s| && AllMarks(s, at) == [next] + AllMarks(s, next + 1)
    ensures Splice(s, at, AllMarks(s, at), k) ==
      (s[at..next] + Ordinal(k)) + Splice(s, next + 1, AllMarks(s, next + 1), k + 1)
  {
    var marks := AllMarks(s, at);
    SpliceCopy(s, at, next, marks, k);
    assert marks[1..] == AllMarks(s, next + 1);
    Assoc(s[at..next], Ordinal(k), Splice(s, next + 1, marks[1..], k + 1));
  }

  /** What is left to splice from a position on. */
  ghost function Rest(s: string, at: nat, k: nat): string
    requires at <= |s|
  {
    Splice(s, at, AllMarks(s, at), k)
  }

  lemma FastStep(s: string, at: nat, k: nat, r: string)
    requires at <= |s|
    ensures var i := Find(s[at..], "?");
      if i.None? then r + Rest(s, at, k) == r + s[at..]
      else
        var next := at + i.value;
        next < |s| && r + Rest(s, at, k) == (r + (s[at..next] + Ordinal(k))) + Rest(s, next + 1, k + 1)
  {
    AllMarksFind(s, at);
    var i := Find(s[at..], "?");
    if i.None? {
      SpliceCopy(s, at, |s|, [], k);
      assert s[at..|s|] + "" == s[at..];
    } else {
      var next := at + i.value;
      FastTurn(s, at, next, k);
      assert Rest(s, at, k) == (s[at..next] + Ordinal(k)) + Rest(s, next + 1, k + 1);
      Assoc(r, s[at..next] + Ordinal(k), Rest(s, next + 1, k + 1));
    }
  }

  method FastPath(s: string) returns (r: string)
    ensures r == Splice(s, 0, AllMarks(s, 0), 1)
  {
    r := "";
    var argIndex, at := 1, 0;
    while true
      invariant 0 <= at <= |s| && argIndex >= 1
      invariant r + Rest(s, at, argIndex) == Rest(s, 0, 1)
      decreases |s| - at
    {
      var i := Find(s[at..], "?");
      FastStep(s, at, argIndex, r);
      if i.None? {
        r := r + s[at..];
        return;
      }
      var next := at + i.value;
      r := r + (s[at..next] + Ordinal(argIndex));
      argIndex := argIndex + 1;
      at := next + 1;
    }
  }

  /** Nothing a ? could hide in. */
  predicate Plain(s: string) {
    && (forall i :: 0 <= i < |s| ==> s[i] !in "'\"[$")
    && (forall i :: 0 <= i < |s| - 1 ==> !(s[i] == '-' && s[i + 1] == '-') && !(s[i] == '/' && s[i + 1] == '*'))
  }

  /** Where the fast path's guard holds, every ? is code. */
  lemma {:induction false} PlainMarks(d: Driver, s: string, i: nat)
    requires Numbers(d) && Plain(s) && i <= |s|
    ensures CodeMarks(d, s, i) == AllMarks(s, i)
    decreases |s| - i
  {
    if i < |s| {
      assert s[i] !in "'\"[$" && s[i..][0] == s[i];
      if i + 1 < |s| {
        assert s[i..][1] == s[i + 1];
      }
      PlainMarks(d, s, i + 1);
    }
  }

  lemma {:induction false} NoMarks(d: Driver, s: string, i: nat)
    requires '?' !in s && i <= |s|
    ensures CodeMarks(d, s, i) == []
    decreases |s| - i
  {
    if i < |s| {
      var n := SkipLen(d, s[..i], s[i..], true);
      NoMarks(d, s, if n > 0 then i + n else i + 1);
    }
  }

  /** conformPlaceholders with its shortcut, its fast path and its slow path: all three number the same. */
  method ConformPlaceholders(d: Driver, s: string) returns (r: string)
    ensures r == Conform(d, s)
  {
    if !Numbers(d) {
      return s;
    }
    if '?' !in s {
      NoMarks(d, s, 0);
      SpliceCopy(s, 0, |s|, [], 1);
      return s;
    }
    if Plain(s) {
      PlainMarks(d, s, 0);
      r := FastPath(s);
    } else {
      r := SlowPath(d, s);
    }
  }

  // ----- Exactly the k-th code ? becomes $k -----

  /** How far a byte moves: each mark before it grew by the digits of its number. */
  function Shift(marks: seq<nat>, k: nat, p: nat): nat
    decreases |marks|
  {
    if marks == [] || marks[0] >= p then 0 else |Itoa(k)| + Shift(marks[1..], k + 1, p)
  }

  /** A byte that is no mark is kept, moved by the numbers before it. */
  lemma {:induction false} SpliceKeeps(s: string, from: nat, marks: seq<nat>, k: nat, p: nat)
    requires Ascending(s, from, marks) && from <= p < |s| && p !in marks
    ensures var at := p - from + Shift(marks, k, p);
      at < |Splice(s, from, marks, k)| && Splice(s, from, marks, k)[at] == s[p]
    decreases |s| - from
  {
    if marks != [] && marks[0] == from {
      SpliceKeeps(s, from + 1, marks[1..], k + 1, p);
      var rest := Splice(s, from + 1, marks[1..], k + 1);
      assert Splice(s, from, marks, k)[|Ordinal(k)|..] == rest;
    } else if from < p {
      SpliceKeeps(s, from + 1, marks, k, p);
    }
  }

  lemma SpliceFirst(s: string, from: nat, marks: seq<nat>, k: nat)
    requires Ascending(s, from, marks) && marks != []
    ensures Splice(s, from, marks, k) ==
      s[from..marks[0]] + (Ordinal(k) + Splice(s, marks[0] + 1, marks[1..], k + 1))
  {
    SpliceCopy(s, from, marks[0], marks, k);
  }

  /** A text stands at a position of another. */
  predicate StandsAt(t: string, at: int, word: string) {
    0 <= at < |t| && word <= t[at..]
  }

  lemma StandsAfter(a: string, t: string, at: nat, word: string)
    requires StandsAt(t, at, word)
    ensures StandsAt(a + t, |a| + at, word)
  {
    assert (a + t)[|a| + at..] == t[at..];
  }

  /** The m-th mark becomes $ and its number. */
  lemma {:induction false} SpliceNumbers(s: string, from: nat, marks: seq<nat>, k: nat, m: nat)
    requires Ascending(s, from, marks) && m < |marks|
    ensures StandsAt(Splice(s, from, marks, k), marks[m] - from + Shift(marks, k, marks[m]), Ordinal(k + m))
    decreases m
  {
    SpliceFirst(s, from, marks, k);
    var head, rest := s[from..marks[0]], Splice(s, marks[0] + 1, marks[1..], k + 1);
    if m == 0 {
      FirstStands(head, Ordinal(k), rest);
    } else {
      SpliceNumbers(s, marks[0] + 1, marks[1..], k + 1, m - 1);
      var at := marks[m] - (marks[0] + 1) + Shift(marks[1..], k + 1, marks[m]);
      assert marks[m] - from + Shift(marks, k, marks[m]) == |head| + |Ordinal(k)| + at by { ShiftMore(marks, k, m); }
      LaterStands(head, Ordinal(k), rest, at, Ordinal(k + m));
    }
  }

  lemma FirstStands(head: string, word: string, rest: string)
    requires word != ""
    ensures StandsAt(head + (word + rest), |head|, word)
  {
    assert (head + (word + rest))[|head|..] == word + rest;
  }

  lemma LaterStands(head: string, first: string, rest: string, at: nat, word: string)
    requires StandsAt(rest, at, word)
    ensures StandsAt(head + (first + rest), |head| + |first| + at, word)
  {
    StandsAfter(first, rest, at, word);
    StandsAfter(head, first + rest, |first| + at, word);
  }

  lemma ShiftMore(marks: seq<nat>, k: nat, m: nat)
    requires 0 < m < |marks| && marks[0] < marks[m]
    ensures Shift(marks, k, marks[m]) == |Ordinal(k)| - 1 + Shift(marks[1..], k + 1, marks[m])
  {
  }

  // ----- On SQL Server a second pass finds nothing -----

  /** The SQL Server lexer looks forward only, so it can be read off a suffix. */
  function Numbered(u: string, k: nat): string
    decreases |u|
  {
    if u == "" then ""
    else
      var n := SkipLen(MSSQL, "", u, true);
      if n > 0 then u[..n] + Numbered(u[n..], k)
      else if u[0] == '?' then Ordinal(k) + Numbered(u[1..], k + 1)
      else [u[0]] + Numbered(u[1..], k)
  }

  /** No ? of the suffix is code. */
  predicate Unmarked(u: string)
    decreases |u|
  {
    if u == "" then true
    else
      var n := SkipLen(MSSQL, "", u, true);
      if n > 0 then Unmarked(u[n..]) else u[0] != '?' && Unmarked(u[1..])
  }

  lemma ForwardOnly(before: string, u: string)
    requires u != ""
    ensures SkipLen(MSSQL, before, u, true) == SkipLen(MSSQL, "", u, true)
  {
  }

  lemma {:induction false} NumberedIsSplice(s: string, i: nat, k: nat)
    requires i <= |s|
    ensures Splice(s, i, CodeMarks(MSSQL, s, i), k) == Numbered(s[i..], k)
    decreases |s| - i
  {
    if i < |s| {
      var u := s[i..];
      var n := SkipLen(MSSQL, s[..i], u, true);
      ForwardOnly(s[..i], u);
      SlowTurn(MSSQL, s, i, k, i + n);
      var next := if n > 0 then i + n else i + 1;
      NumberedIsSplice(s, next, if n == 0 && s[i] == '?' then k + 1 else k);
      Tails(s, i, n);
    }
  }

  lemma Tails(s: string, i: nat, n: nat)
    requires i < |s| && i + n <= |s|
    ensures s[i..][1..] == s[i + 1..] && s[i..][n..] == s[i + n..] && s[i..][..n] == s[i..i + n]
  {
  }

  /** What one turn of the lexer says about a suffix without code ?. */
  lemma UnmarkedTurn(u: string)
    requires u != "" && Unmarked(u)
    ensures var n := SkipLen(MSSQL, "", u, true);
      if n > 0 then Unmarked(u[n..]) else u[0] != '?' && Unmarked(u[1..])
  {
  }

  lemma NoMarkTurn(s: string, i: nat, n: nat)
    requires i < |s| && n == SkipLen(MSSQL, s[..i], s[i..], true) && i + n <= |s|
    requires if n > 0 then CodeMarks(MSSQL, s, i + n) == [] else s[i] != '?' && CodeMarks(MSSQL, s, i + 1) == []
    ensures CodeMarks(MSSQL, s, i) == []
  {
  }

  lemma {:induction false} UnmarkedIsNoMarks(s: string, i: nat)
    requires i <= |s| && Unmarked(s[i..])
    ensures CodeMarks(MSSQL, s, i) == []
    decreases |s| - i
  {
    if i < |s| {
      var n := SkipLen(MSSQL, s[..i], s[i..], true);
      ForwardOnly(s[..i], s[i..]);
      UnmarkedTurn(s[i..]);
      Tails(s, i, n);
      UnmarkedIsNoMarks(s, if n > 0 then i + n else i + 1);
      NoMarkTurn(s, i, n);
    }
  }

  /** v may follow where w followed: it starts alike, up to the ? that became a $. */
  predicate Follows(v: string, w: string) {
    if w == "" then v == "" else v != "" && (v[0] == w[0] || (w[0] == '?' && v[0] == '$'))
  }

  lemma NumberedFollows(u: string, k: nat)
    ensures Follows(Numbered(u, k), u)
  {
  }

  /** A quoted region ends where it did, whatever follows it. */
  lemma {:induction false} QuotedLocal(u: string, v: string, q: char)
    requires q in {'\'', '"', ']'}
    requires Follows(v, u[QuotedLen(u, q, false)..])
    ensures QuotedLen(u[..QuotedLen(u, q, false)] + v, q, false) == QuotedLen(u, q, false)
    decreases |u|
  {
    var n := QuotedLen(u, q, false);
    var t := u[..n] + v;
    if n == |u| {
      assert t == u;
    } else if u[0] == q && !(|u| > 1 && u[1] == q) {
      assert n == 1 && t[0] == q;
    } else {
      var step := if u[0] == q then 2 else 1;
      assert u[step..][n - step..] == u[n..];
      QuotedLocal(u[step..], v, q);
      QuotedStep(u, v, q, step, n);
    }
  }

  lemma QuotedStep(u: string, v: string, q: char, step: nat, n: nat)
    requires 1 <= step <= n < |u| && step == (if u[0] == q then 2 else 1) && (u[0] == q ==> u[1] == q)
    requires QuotedLen(u[step..][..n - step] + v, q, false) == n - step
    ensures QuotedLen(u[..n] + v, q, false) == n
  {
    DropTake(u, v, step, n);
    var t := u[..n] + v;
    assert t[0] == u[0] && (step == 2 ==> t[1] == u[1]);
  }

  lemma DropTake(u: string, v: string, step: nat, n: nat)
    requires step <= n <= |u|
    ensures (u[..n] + v)[step..] == u[step..][..n - step] + v
  {
    assert u[..n][step..] == u[step..][..n - step];
  }

  /** So does a region that runs through the first occurrence of a pattern. */
  lemma {:induction false} ThroughLocal(u: string, v: string, pat: string)
    requires pat != "" && (Through(u, pat) == |u| && Find(u, pat).None? ==> v == "")
    ensures Through(u[..Through(u, pat)] + v, pat) == Through(u, pat)
    decreases |u|
  {
    var n := Through(u, pat);
    var t := u[..n] + v;
    if Find(u, pat).None? {
      assert t == u;
    } else if |pat| <= |u| && u[..|pat|] == pat {
      assert t[..|pat|] == pat;
    } else {
      ThroughLocal(u[1..], v, pat);
      assert u[1..][..n - 1] + v == t[1..];
      assert n >= |pat| && t[..|pat|] == u[..|pat|];
    }
  }

  /** A region of the input is a region of the output, whatever the rest of the output is. */
  lemma SkipLocal(u: string, v: string)
    requires u != "" && SkipLen(MSSQL, "", u, true) > 0
    requires Follows(v, u[SkipLen(MSSQL, "", u, true)..])
    ensures SkipLen(MSSQL, "", u[..SkipLen(MSSQL, "", u, true)] + v, true) == SkipLen(MSSQL, "", u, true)
  {
    var n := SkipLen(MSSQL, "", u, true);
    var t := u[..n] + v;
    assert t[0] == u[0] && t[1..] == u[1..][..n - 1] + v && u[1..][n - 1..] == u[n..];
    if u[0] == '\'' {
      QuotedLocal(u[1..], v, '\'');
    } else if u[0] == '"' {
      QuotedLocal(u[1..], v, '"');
    } else if u[0] == '[' {
      QuotedLocal(u[1..], v, ']');
    } else {
      CommentLocal(u, v);
    }
  }

  lemma CommentLocal(u: string, v: string)
    requires u != "" && SkipLen(MSSQL, "", u, true) > 0 && u[0] !in "'\"["
    requires Follows(v, u[SkipLen(MSSQL, "", u, true)..])
    ensures SkipLen(MSSQL, "", u[..SkipLen(MSSQL, "", u, true)] + v, true) == SkipLen(MSSQL, "", u, true)
  {
    var n := SkipLen(MSSQL, "", u, true);
    var t := u[..n] + v;
    if u[0] == '-' {
      ThroughLocal(u, v, "\n");
      DashThrough(u);
      assert t[0] == u[0] && t[1] == u[1];
    } else {
      assert u[2..][..n - 2] + v == t[2..] && t[0] == u[0] && t[1] == u[1];
      ThroughLocal(u[2..], v, "*/");
    }
  }

  lemma DashThrough(u: string)
    requires |u| > 1 && u[0] == '-' && u[1] == '-'
    ensures Through(u, "\n") >= 2
  {
    assert u[..1] == "-" && u[1..][..1] == "-";
  }

  lemma NotSkipped(c: char, v: string, w: string)
    requires Follows(v, w) && SkipLen(MSSQL, "", [c] + w, true) == 0
    ensures SkipLen(MSSQL, "", [c] + v, true) == 0
  {
    var a, b := [c] + w, [c] + v;
    assert a[0] == c && b[0] == c && (w != "" ==> a[1] == w[0]) && (v != "" ==> b[1] == v[0]);
    if c == '-' && w != "" && w[0] == '-' {
      DashThrough(a);
      assert false;
    }
  }

  lemma UnmarkedCons(c: char, v: string)
    requires Unmarked(v) && (IsDigit(c) || c == '$')
    ensures Unmarked([c] + v)
  {
    var u := [c] + v;
    assert u[0] == c && u[1..] == v;
    assert SkipLen(MSSQL, "", u, true) == 0;
  }

  lemma Uncons(a: string, b: string)
    requires a != ""
    ensures a + b == [a[0]] + (a[1..] + b)
  {
  }

  lemma {:induction false} UnmarkedDigits(digits: string, v: string)
    requires Unmarked(v) && forall i :: 0 <= i < |digits| ==> IsDigit(digits[i])
    ensures Unmarked(digits + v)
  {
    if digits == "" {
      assert digits + v == v;
    } else {
      var c, rest := digits[0], digits[1..];
      assert IsDigit(c);
      UnmarkedDigits(rest, v);
      UnmarkedCons(c, rest + v);
      Uncons(digits, v);
    }
  }

  lemma UnmarkedOrdinal(k: nat, v: string)
    requires Unmarked(v)
    ensures Unmarked(Ordinal(k) + v)
  {
    UnmarkedDigits(Itoa(k), v);
    UnmarkedCons('$', Itoa(k) + v);
    Assoc("$", Itoa(k), v);
  }

  /** Numbering leaves no code ? behind. */
  lemma {:induction false} NumberedUnmarked(u: string, k: nat)
    ensures Unmarked(Numbered(u, k))
    decreases |u|
  {
    if u != "" {
      var n := SkipLen(MSSQL, "", u, true);
      if n > 0 {
        var v := Numbered(u[n..], k);
        NumberedUnmarked(u[n..], k);
        NumberedFollows(u[n..], k);
        SkipLocal(u, v);
        assert (u[..n] + v)[n..] == v;
      } else if u[0] == '?' {
        NumberedUnmarked(u[1..], k + 1);
        UnmarkedOrdinal(k, Numbered(u[1..], k + 1));
      } else {
        var v := Numbered(u[1..], k);
        NumberedUnmarked(u[1..], k);
        NumberedFollows(u[1..], k);
        assert [u[0]] + u[1..] == u;
        NotSkipped(u[0], v, u[1..]);
        assert ([u[0]] + v)[1..] == v;
      }
    }
  }

  /** On SQL Server numbering twice is numbering once, so that the check after expansion fires exactly when a virtual
      function left a ? in code. */
  lemma SecondPassIsIdentity(s: string)
    ensures CodeMarks(MSSQL, Conform(MSSQL, s), 0) == []
    ensures Conform(MSSQL, Conform(MSSQL, s)) == Conform(MSSQL, s)
  {
    var t := Conform(MSSQL, s);
    assert t == Numbered(s, 1) by {
      assert s[0..] == s;
      NumberedIsSplice(s, 0, 1);
    }
    assert CodeMarks(MSSQL, t, 0) == [] by {
      NumberedUnmarked(s, 1);
      assert t[0..] == t;
      UnmarkedIsNoMarks(t, 0);
    }
    CheckFiresIffMarked(t);
  }

  lemma CheckFiresIffMarked(e: string)
    ensures Conform(MSSQL, e) != e <==> CodeMarks(MSSQL, e, 0) != []
  {
    var marks := CodeMarks(MSSQL, e, 0);
    if marks == [] {
      SpliceCopy(e, 0, |e|, [], 1);
    } else {
      SpliceFirst(e, 0, marks, 1);
      assert Conform(MSSQL, e)[marks[0]] == '$';
    }
  }
}
