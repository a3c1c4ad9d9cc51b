/** Virtual function expansion on the bytes of a statement. */
module TextExpansion {
  import opened Errors
  import opened Lexer
  import opened Expansion
  import opened Balance
  import SearchSplit

  /** A handler as it is registered: the text of the arguments to the text that replaces the call. Names are registered
      in upper case. */
  type TextRegistry = map<string, string -> Option<string>>

  /** What a pass over some text gives: the error of a handler, or text, and whether a call was expanded. */
  datatype Pass = Broken | Passed(text: string, changed: bool)

  function Then(p: Pass, q: Pass): Pass {
    if p.Passed? && q.Passed? then Passed(p.text + q.text, p.changed || q.changed) else Broken
  }

  // ----- One pass over the bytes -----

  function Key(name: string): string {
    SearchSplit.Upper(name)
  }

  predicate IsDigitByte(c: char) {
    '0' <= c <= '9'
  }

  /** An identifier starts behind this text. */
  predicate StartsName(before: string, u: string) {
    u != "" && IsWordByte(u[0]) && !IsDigitByte(u[0]) && (before == "" || !IsIdentByte(before[|before| - 1]))
  }

  /** How many bytes the loop moves past in one turn without looking at any of them again; zero at a known name that is
      followed by a parenthesis. */
  function Hop(d: Driver, vfs: TextRegistry, before: string, u: string): (n: nat)
    requires u != ""
    ensures n <= |u|
    ensures n == 0 ==> WordLen(u) < |u| && Key(u[..WordLen(u)]) in vfs
  {
    var skip := SkipLen(d, before, u, false);
    var w := WordLen(u);
    if skip > 0 then skip
    else if !StartsName(before, u) then 1
    else if w == |u| || u[w] != '(' then w
    else if Key(u[..w]) !in vfs then w + 1
    else 0
  }

  /** Where a text that continues at a level closes the parentheses that were open when the level was the top. */
  function CloseFrom(l: Level, u: string): (k: Option<nat>)
    ensures k.Some? ==> k.value < |u|
    decreases |u|
  {
    if u == "" then None
    else if u[0] == ')' && l == TOP then Some(0)
    else
      var k := CloseFrom(Next(l, u[0]), u[1..]);
      if k.Some? then Some(k.value + 1) else None
  }

  /** One turn of the loop: what becomes of how many bytes. */
  datatype Turn = Turn(pass: Pass, n: nat)

  function Copied(u: string, n: nat): Turn
    requires n <= |u|
  {
    Turn(Passed(u[..n], false), n)
  }

  /** A known name of w bytes: its call is replaced, unless its parentheses do not close. */
  function CallTurn(vfs: TextRegistry, u: string, w: nat): (t: Turn)
    requires w < |u| && Key(u[..w]) in vfs
    ensures 0 < t.n <= |u|
  {
    var args := u[w + 1..];
    var close := CloseFrom(TOP, args);
    if close.None? then Copied(u, w + 1)
    else
      var result := vfs[Key(u[..w])](args[..close.value]);
      Turn(if result.Some? then Passed(result.value, true) else Broken, w + close.value + 2)
  }

  function TurnAt(d: Driver, vfs: TextRegistry, before: string, u: string): (t: Turn)
    ensures t.n <= |u| && (u != "" ==> t.n > 0)
  {
    if u == "" then Copied(u, 0)
    else
      var n := Hop(d, vfs, before, u);
      if n > 0 then Copied(u, n) else CallTurn(vfs, u, WordLen(u))
  }

  /** Turn after turn, from some point of a statement to its end. */
  function Loop(turn: (string, string) -> Turn, before: string, u: string): Pass
    decreases |u|
  {
    if u == "" then Passed("", false)
    else
      var t := turn(before, u);
      if 0 < t.n <= |u| then Then(t.pass, Loop(turn, before + u[..t.n], u[t.n..])) else Broken
  }

  function Turns(d: Driver, vfs: TextRegistry): (string, string) -> Turn {
    (before, u) => TurnAt(d, vfs, before, u)
  }

  /** expandOnce, left to right. */
  function Once(d: Driver, vfs: TextRegistry, query: string): Pass {
    Loop(Turns(d, vfs), "", query)
  }

  lemma ThenAssoc(p: Pass, q: Pass, r: Pass)
    ensures Then(Then(p, q), r) == Then(p, Then(q, r))
  {
    if p.Passed? && q.Passed? && r.Passed? {
      assert (p.text + q.text) + r.text == p.text + (q.text + r.text);
    }
  }

  /** The state of the loop: b and query[last..i] stand for what was passed so far. */
  ghost predicate Scanned(turn: (string, string) -> Turn, query: string, b: string, last: nat, i: nat, changed: bool) {
    && last <= i <= |query| && (!changed ==> b == "" && last == 0)
    && Loop(turn, "", query) == Then(Passed(b + query[last..i], changed), Loop(turn, query[..i], query[i..]))
  }

  lemma ScanStarts(turn: (string, string) -> Turn, query: string)
    ensures Scanned(turn, query, "", 0, 0, false)
  {
    assert query[..0] == "" && query[0..] == query;
    var p := Loop(turn, "", query);
    if p.Passed? {
      assert "" + query[0..0] + p.text == p.text;
    }
  }

  /** Bytes that are passed over are copied later. */
  lemma ScanCopies(turn: (string, string) -> Turn, query: string, b: string, last: nat, i: nat, changed: bool, end: nat)
    requires Scanned(turn, query, b, last, i, changed) && i < end <= |query|
    requires turn(query[..i], query[i..]) == Turn(Passed(query[i..end], false), end - i)
    ensures Scanned(turn, query, b, last, end, changed)
  {
    var rest := Loop(turn, query[..end], query[end..]);
    LoopMoves(turn, query, i, Turn(Passed(query[i..end], false), end - i));
    Collected(Passed(b + query[last..i], changed), Passed(query[i..end], false), rest);
    assert b + query[last..i] + query[i..end] == b + query[last..end];
  }

  /** A call is replaced, and what was passed before it is copied first. */
  lemma ScanReplaces(turn: (string, string) -> Turn, query: string, b: string, last: nat, i: nat, changed: bool,
                     text: string, end: nat)
    requires Scanned(turn, query, b, last, i, changed) && i < end <= |query|
    requires turn(query[..i], query[i..]) == Turn(Passed(text, true), end - i)
    ensures Scanned(turn, query, b + query[last..i] + text, end, end, true)
  {
    var rest := Loop(turn, query[..end], query[end..]);
    LoopMoves(turn, query, i, Turn(Passed(text, true), end - i));
    Collected(Passed(b + query[last..i], changed), Passed(text, true), rest);
    assert b + query[last..i] + text + query[end..end] == b + query[last..i] + text;
  }

  lemma ScanBreaks(turn: (string, string) -> Turn, query: string, b: string, last: nat, i: nat, changed: bool, n: nat)
    requires Scanned(turn, query, b, last, i, changed) && i < |query| && 0 < n <= |query| - i
    requires turn(query[..i], query[i..]) == Turn(Broken, n)
    ensures Loop(turn, "", query) == Broken
  {
  }

  lemma Collected(done: Pass, p: Pass, rest: Pass)
    requires done.Passed? && p.Passed?
    ensures Then(done, Then(p, rest)) == Then(Passed(done.text + p.text, done.changed || p.changed), rest)
  {
    ThenAssoc(done, p, rest);
  }

  lemma LoopMoves(turn: (string, string) -> Turn, query: string, i: nat, t: Turn)
    requires i < |query| && t == turn(query[..i], query[i..]) && 0 < t.n <= |query| - i
    ensures Loop(turn, query[..i], query[i..]) == Then(t.pass, Loop(turn, query[..i + t.n], query[i + t.n..]))
  {
    assert query[i..][t.n..] == query[i + t.n..] && query[..i] + query[i..][..t.n] == query[..i + t.n];
  }

  lemma ScanEnds(turn: (string, string) -> Turn, query: string, b: string, last: nat, changed: bool)
    requires Scanned(turn, query, b, last, |query|, changed)
    ensures Loop(turn, "", query) == Passed(if changed then b + query[last..] else query, changed)
  {
    assert query[|query|..] == "" && b + query[last..|query|] + "" == b + query[last..];
  }

  lemma CallAt(vfs: TextRegistry, query: string, i: nat, j: nat, close: int)
    requires i < j < |query| && Key(query[i..j]) in vfs
    requires CloseFrom(TOP, query[j + 1..]) == if close >= 0 then Some(close - j - 1) else None
    requires close < |query| && (close >= 0 ==> j < close)
    ensures query[i..][..j - i] == query[i..j]
    ensures CallTurn(vfs, query[i..], j - i) ==
      if close < 0 then Copied(query[i..], j + 1 - i)
      else
        var result := vfs[Key(query[i..j])](query[j + 1..close]);
        Turn(if result.Some? then Passed(result.value, true) else Broken, close + 1 - i)
  {
    var u, w := query[i..], j - i;
    assert u[..w] == query[i..j] && u[w + 1..] == query[j + 1..];
    if close >= 0 {
      assert u[w + 1..][..close - j - 1] == query[j + 1..close];
    }
  }

  /** A known name in the text. */
  predicate KnownAt(d: Driver, vfs: TextRegistry, query: string, i: nat, j: nat) {
    i < j < |query| && Hop(d, vfs, query[..i], query[i..]) == 0 && WordLen(query[i..]) == j - i
  }

  lemma KnownTurn(d: Driver, vfs: TextRegistry, query: string, i: nat, j: nat, close: int)
    requires KnownAt(d, vfs, query, i, j)
    requires CloseFrom(TOP, query[j + 1..]) == if close >= 0 then Some(close - j - 1) else None
    requires close < |query| && (close >= 0 ==> j < close)
    ensures Key(query[i..j]) in vfs
    ensures Turns(d, vfs)(query[..i], query[i..]) ==
      if close < 0 then Copied(query[i..], j + 1 - i)
      else
        var result := vfs[Key(query[i..j])](query[j + 1..close]);
        Turn(if result.Some? then Passed(result.value, true) else Broken, close + 1 - i)
  {
    assert query[i..][..j - i] == query[i..j];
    CallAt(vfs, query, i, j, close);
  }

  /** The close that findBalancedClose finds. */
  lemma {:induction false} ClosesHere(s: string, start: nat, i: nat, r: int)
    requires start <= i <= |s| && forall k :: start <= k <= i ==> Upto(s, start, k).depth >= 0
    requires forall k :: start <= k < i ==> !Closes(s, start, k)
    requires r >= 0 ==> Closes(s, start, r)
    requires forall k :: Closes(s, start, k) ==> k == r
    ensures CloseFrom(Upto(s, start, i), s[i..]) == if r >= 0 then Some(r - i) else None
    decreases |s| - i
  {
    if i < |s| {
      assert s[i..][1..] == s[i + 1..];
      OneMore(s, start, i);
      if s[i] == ')' && Upto(s, start, i) == TOP {
        assert Closes(s, start, i);
      } else {
        assert !Closes(s, start, i) && Upto(s, start, i + 1).depth >= 0;
        ClosesHere(s, start, i + 1, r);
      }
    }
  }

  /** expandOnce. */
  method ExpandOnceText(d: Driver, query: string, vfs: TextRegistry) returns (r: Pass)
    ensures r == Once(d, vfs, query)
  {
    var b: string, last: nat, i: nat, changed := "", 0, 0, false;
    ScanStarts(Turns(d, vfs), query);
    while i < |query|
      invariant Scanned(Turns(d, vfs), query, b, last, i, changed)
    {
      var t := NextTurn(d, query, vfs, i);
      var end := i + t.n;
      if t.pass.Broken? {
        ScanBreaks(Turns(d, vfs), query, b, last, i, changed, t.n);
        return Broken;
      }
      if !t.pass.changed {
        ScanCopies(Turns(d, vfs), query, b, last, i, changed, end);
        i := end;
        continue;
      }
      ScanReplaces(Turns(d, vfs), query, b, last, i, changed, t.pass.text, end);
      b := b + query[last..i] + t.pass.text;
      i := end;
      last := i;
      changed := true;
    }
    ScanEnds(Turns(d, vfs), query, b, last, changed);
    r := if changed then Passed(b + query[last..], true) else Passed(query, false);
  }

  /** How far the loop moves on, or where the known name ends that starts here. */
  method HopEnd(d: Driver, query: string, vfs: TextRegistry, i: nat) returns (known: bool, j: nat)
    requires i < |query|
    ensures known ==> KnownAt(d, vfs, query, i, j)
    ensures !known ==> i < j <= |query| && Hop(d, vfs, query[..i], query[i..]) == j - i
  {
    j := SkipNonCode(d, query, i, false);
    if j > i {
      return false, j;
    }
    var ch := query[i];
    if !IsWordByte(ch) || IsDigitByte(ch) || (i > 0 && IsIdentByte(query[i - 1])) {
      return false, i + 1;
    }
    j := WordEnd(query, i);
    assert query[i..][..j - i] == query[i..j];
    if j >= |query| || query[j] != '(' {
      return false, j;
    }
    if Key(query[i..j]) !in vfs {
      return false, j + 1;
    }
    known := true;
  }

  /** What the loop does next. */
  method NextTurn(d: Driver, query: string, vfs: TextRegistry, i: nat) returns (t: Turn)
    requires i < |query|
    ensures t == Turns(d, vfs)(query[..i], query[i..]) && 0 < t.n <= |query| - i
    ensures t.pass.Passed? && !t.pass.changed ==> t.pass.text == query[i..i + t.n]
  {
    var known, j := HopEnd(d, query, vfs, i);
    if !known {
      return Copied(query[i..], j - i);
    }
    t := ExpandCall(d, query, vfs, i, j);
  }

  /** The call of a known name: the handler's replacement and error, or nothing when the parentheses do not close. */
  method ExpandCall(d: Driver, query: string, vfs: TextRegistry, i: nat, j: nat) returns (t: Turn)
    requires KnownAt(d, vfs, query, i, j)
    ensures t == Turns(d, vfs)(query[..i], query[i..]) && 0 < t.n <= |query| - i
    ensures t.pass.Passed? && !t.pass.changed ==> t.pass.text == query[i..i + t.n]
  {
    var closePos := CloseIndex(query, j + 1);
    KnownTurn(d, vfs, query, i, j, closePos);
    if closePos < 0 {
      return Copied(query[i..], j + 1 - i);
    }
    var result := vfs[Key(query[i..j])](query[j + 1..closePos]);
    t := Turn(if result.None? then Broken else Passed(result.value, true), closePos + 1 - i);
  }

  method CloseIndex(s: string, start: nat) returns (r: int)
    requires start <= |s|
    ensures CloseFrom(TOP, s[start..]) == (if r >= 0 then Some(r - start) else None) && r < |s|
  {
    r := FindBalancedClose(s, start);
    assert s[start..start] == "";
    ClosesHere(s, start, start, r);
  }

  method WordEnd(s: string, i: nat) returns (j: nat)
    requires i < |s| && IsWordByte(s[i])
    ensures i < j <= |s| && j == i + WordLen(s[i..])
  {
    j := i;
    while j < |s| && IsWordByte(s[j])
      invariant i <= j <= |s|
      invariant j + WordLen(s[j..]) == i + WordLen(s[i..])
    {
      assert s[j..][1..] == s[j + 1..];
      j := j + 1;
    }
  }
}
