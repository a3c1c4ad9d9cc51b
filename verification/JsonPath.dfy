/** JSON_FIELD paths: parsing the accepted subset of JSONPath, and the two ways it is rendered again. */
module JsonPath {
  import opened Errors
  import opened Decimal
  import opened Lexer

  datatype Elem = Member(name: string) | Index(n: nat)

  /** [A-Za-z_][A-Za-z0-9_]* */
  predicate ValidName(name: string) {
    && name != "" && IsWordByte(name[0]) && !IsDigit(name[0])
    && forall i :: 0 <= i < |name| ==> IsWordByte(name[i])
  }

  predicate ValidElem(e: Elem) {
    match e
    case Member(name) => ValidName(name)
    case Index(n) => n <= INT_MAX
  }

  predicate Valid(elems: seq<Elem>) {
    forall i :: 0 <= i < |elems| ==> ValidElem(elems[i])
  }

  /** The bytes before the first '.' or '[', as strings.IndexAny finds it. */
  function NameLen(s: string): (n: nat)
    ensures n <= |s| && (n < |s| ==> s[n] in ".[") && forall i :: 0 <= i < n ==> s[i] !in ".["
  {
    if s == "" || s[0] in ".[" then 0 else 1 + NameLen(s[1..])
  }

  /** The bytes before the first ']', or all of them. */
  function BracketLen(s: string): (n: nat)
    ensures n <= |s| && (n < |s| ==> s[n] == ']') && forall i :: 0 <= i < n ==> s[i] != ']'
  {
    if s == "" || s[0] == ']' then 0 else 1 + BracketLen(s[1..])
  }

  /** One element at the head of a path, and what is left of the path. */
  function Head(rest: string): (r: Option<(Elem, string)>)
    requires rest != ""
    ensures r.Some? ==> |r.value.1| < |rest|
  {
    if rest[0] == '.' then
      var tail := rest[1..];
      var name := tail[..NameLen(tail)];
      if ValidName(name) then Some((Member(name), tail[|name|..])) else None
    else if rest[0] == '[' then
      var end := BracketLen(rest);
      if end == |rest| then None
      else
        var n := Atoi(rest[1..end]);
        if n.Some? && n.value >= 0 then Some((Index(n.value), rest[end + 1..])) else None
    else None
  }

  function Elems(rest: string): Option<seq<Elem>>
    decreases |rest|
  {
    if rest == "" then Some([])
    else
      var head := Head(rest);
      if head.None? then None
      else
        var tail := Elems(head.value.1);
        if tail.Some? then Some([head.value.0] + tail.value) else None
  }

  /** The path without its optional root, and with the separator a leading name may leave out. */
  function Rooted(path: string): string {
    var rest := if path != "" && path[0] == '$' then path[1..] else path;
    if rest != "" && rest[0] != '.' && rest[0] != '[' then "." + rest else rest
  }

  /** parseJSONPath: None for a path it refuses, the empty one included. */
  function Parse(path: string): Option<seq<Elem>> {
    var elems := Elems(Rooted(path));
    if elems == Some([]) then None else elems
  }

  method ParseJSONPath(path: string) returns (r: Option<seq<Elem>>)
    ensures r == Parse(path)
  {
    var rest := Rooted(path);
    var elems: seq<Elem> := [];
    assert Elems(rest).Some? ==> [] + Elems(rest).value == Elems(rest).value;
    while rest != ""
      invariant Elems(Rooted(path)) ==
        if Elems(rest).Some? then Some(elems + Elems(rest).value) else None
      decreases |rest|
    {
      var head := Head(rest);
      if head.None? {
        return None;
      }
      ghost var tail := Elems(head.value.1);
      assert tail.Some? ==> elems + ([head.value.0] + tail.value) == (elems + [head.value.0]) + tail.value;
      elems := elems + [head.value.0];
      rest := head.value.1;
    }
    assert elems + [] == elems;
    return if elems == [] then None else Some(elems);
  }

  // ----- Round trip -----

  function RenderElem(e: Elem): (s: string)
    ensures s != "" && s[0] in ".["
  {
    match e
    case Member(name) => "." + name
    case Index(n) => "[" + Itoa(n) + "]"
  }

  function RenderElems(elems: seq<Elem>): string {
    if elems == [] then "" else RenderElem(elems[0]) + RenderElems(elems[1..])
  }

  /** The canonical path sent to the database. */
  function Render(elems: seq<Elem>): string {
    "$" + RenderElems(elems)
  }

  lemma {:induction false} NameLenOf(name: string, rest: string)
    requires (forall i :: 0 <= i < |name| ==> IsWordByte(name[i])) && (rest == "" || rest[0] in ".[")
    ensures NameLen(name + rest) == |name|
  {
    if name == "" {
      assert name + rest == rest;
    } else {
      NameLenOf(name[1..], rest);
      assert (name + rest)[1..] == name[1..] + rest;
      assert IsWordByte(name[0]);
    }
  }

  lemma {:induction false} BracketLenOf(digits: string, rest: string)
    requires forall i :: 0 <= i < |digits| ==> digits[i] != ']'
    ensures BracketLen(digits + "]" + rest) == |digits|
  {
    var s := digits + "]" + rest;
    if digits != "" {
      BracketLenOf(digits[1..], rest);
      assert s[1..] == digits[1..] + "]" + rest;
    }
  }

  lemma HeadOfName(name: string, rest: string)
    requires ValidName(name) && (rest == "" || rest[0] in ".[")
    ensures Head("." + name + rest) == Some((Member(name), rest))
  {
    var s := "." + name + rest;
    assert s[1..] == name + rest;
    NameLenOf(name, rest);
    assert (name + rest)[..|name|] == name && (name + rest)[|name|..] == rest;
  }

  lemma HeadOfIndex(n: nat, rest: string)
    requires n <= INT_MAX
    ensures Head("[" + Itoa(n) + "]" + rest) == Some((Index(n), rest))
  {
    var digits, s := Itoa(n), "[" + Itoa(n) + "]" + rest;
    BracketLenOf("[" + digits, rest);
    assert s == "[" + digits + "]" + rest;
    assert s[1..|digits| + 1] == digits && s[|digits| + 2..] == rest;
    AtoiOfItoa(n);
  }

  lemma HeadOfRendered(e: Elem, rest: string)
    requires ValidElem(e) && (rest == "" || rest[0] in ".[")
    ensures Head(RenderElem(e) + rest) == Some((e, rest))
  {
    if e.Member? {
      HeadOfName(e.name, rest);
    } else {
      HeadOfIndex(e.n, rest);
    }
  }

  lemma {:induction false} ElemsOfRendered(elems: seq<Elem>)
    requires Valid(elems)
    ensures Elems(RenderElems(elems)) == Some(elems)
  {
    if elems != [] {
      var rest := RenderElems(elems[1..]);
      ElemsOfRendered(elems[1..]);
      assert |elems| > 1 ==> rest[0] == RenderElem(elems[1])[0];
      HeadOfRendered(elems[0], rest);
      ElemsStep(RenderElem(elems[0]) + rest, elems[0], rest);
      assert [elems[0]] + elems[1..] == elems;
    }
  }

  lemma ElemsStep(path: string, e: Elem, rest: string)
    requires path != "" && Head(path) == Some((e, rest)) && Elems(rest).Some?
    ensures Elems(path) == Some([e] + Elems(rest).value)
  {
  }

  /** Parsing the canonical rendering returns the path it came from. */
  lemma RoundTrip(elems: seq<Elem>)
    requires elems != [] && Valid(elems)
    ensures Parse(Render(elems)) == Some(elems)
  {
    ElemsOfRendered(elems);
    assert Render(elems)[1..] == RenderElems(elems);
    assert RenderElems(elems)[0] in ".[";
  }

  /** The root is optional: a path that starts with a name, and the same path after "$.", are one. */
  lemma RootOptional(path: string)
    requires path != "" && path[0] !in "$.["
    ensures Parse(path) == Parse("$." + path)
  {
    assert ("$." + path)[1..] == "." + path;
  }

  /** Everything the parser accepts is valid, so that only the narrow charset reaches the database. */
  lemma {:induction false} ParsedIsValid(rest: string)
    ensures Elems(rest).Some? ==> Valid(Elems(rest).value)
    decreases |rest|
  {
    if rest != "" && Head(rest).Some? {
      ParsedIsValid(Head(rest).value.1);
      AtoiFits(rest);
    }
  }

  lemma AtoiFits(rest: string)
    requires rest != "" && Head(rest).Some?
    ensures ValidElem(Head(rest).value.0)
  {
  }

  // ----- The PostgreSQL key array -----

  function Key(e: Elem): string {
    match e
    case Member(name) => name
    case Index(n) => Itoa(n)
  }

  /** The text[] of keys, each quoted, joined by commas. */
  function Keys(elems: seq<Elem>): string {
    if elems == [] then ""
    else if |elems| == 1 then "\"" + Key(elems[0]) + "\""
    else "\"" + Key(elems[0]) + "\"," + Keys(elems[1..])
  }

  function QuoteLen(s: string): (n: nat)
    ensures n <= |s|
  {
    if s == "" || s[0] == '"' then 0 else 1 + QuoteLen(s[1..])
  }

  /** A key read back: digits are an index, since a name never starts with one. */
  function Unkey(key: string): Elem {
    if key != "" && forall i :: 0 <= i < |key| ==> IsDigit(key[i]) then Index(Value(key)) else Member(key)
  }

  function Unkeys(s: string): seq<Elem>
    decreases |s|
  {
    if s == "" then []
    else
      var n := QuoteLen(s[1..]);
      [Unkey(s[1..n + 1])] + if n + 3 <= |s| then Unkeys(s[n + 3..]) else []
  }

  lemma {:induction false} QuoteLenOf(key: string, rest: string)
    requires forall i :: 0 <= i < |key| ==> key[i] != '"'
    ensures QuoteLen(key + "\"" + rest) == |key|
  {
    var s := key + "\"" + rest;
    if key != "" {
      QuoteLenOf(key[1..], rest);
      assert s[1..] == key[1..] + "\"" + rest;
    }
  }

  lemma UnkeyOfKey(e: Elem)
    requires ValidElem(e)
    ensures Unkey(Key(e)) == e && forall i :: 0 <= i < |Key(e)| ==> Key(e)[i] != '"'
  {
    if e.Index? {
      ValueOfItoa(e.n);
    }
  }

  /** The rendering can be read back, so two different paths never share it. */
  lemma {:induction false} UnkeysOfKeys(elems: seq<Elem>)
    requires Valid(elems)
    ensures Unkeys(Keys(elems)) == elems
  {
    if |elems| == 1 {
      UnkeysOfOne(elems[0]);
      assert elems == [elems[0]];
    } else if elems != [] {
      UnkeysOfKeys(elems[1..]);
      UnkeysOfMore(elems[0], Keys(elems[1..]));
      assert elems == [elems[0]] + elems[1..];
    }
  }

  lemma UnkeysOfOne(e: Elem)
    requires ValidElem(e)
    ensures Unkeys("\"" + Key(e) + "\"") == [e]
  {
    var key, s := Key(e), "\"" + Key(e) + "\"";
    UnkeyOfKey(e);
    QuoteLenOf(key, "");
    assert s[1..] == key + "\"" + "" && s[1..|key| + 1] == key;
  }

  lemma UnkeysOfMore(e: Elem, rest: string)
    requires ValidElem(e)
    ensures Unkeys("\"" + Key(e) + "\"," + rest) == [e] + Unkeys(rest)
  {
    var key, s := Key(e), "\"" + Key(e) + "\"," + rest;
    UnkeyOfKey(e);
    QuoteLenOf(key, "," + rest);
    assert s[1..] == key + "\"" + ("," + rest) && s[1..|key| + 1] == key;
    assert s[|key| + 3..] == rest;
  }

  lemma KeysInjective(a: seq<Elem>, b: seq<Elem>)
    requires Valid(a) && Valid(b) && Keys(a) == Keys(b)
    ensures a == b
  {
    UnkeysOfKeys(a);
    UnkeysOfKeys(b);
  }
}
