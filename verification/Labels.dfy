/** The bounded set of statement verbs reported as telemetry labels. */
module Labels {
  import opened Decimal

  const OTHER := "OTHER"
  const CAP: nat := 128

  /** A capital letter, then at most 31 capitals, digits and underscores. */
  predicate VerbShaped(token: string) {
    && 1 <= |token| <= 32 && 'A' <= token[0] <= 'Z'
    && forall i :: 0 <= i < |token| ==> 'A' <= token[i] <= 'Z' || IsDigit(token[i]) || token[i] == '_'
  }

  /** The locked half of a call: what is known afterwards, and the answer. */
  function Learn(known: set<string>, token: string): (set<string>, string) {
    if token in known then (known, token)
    else if |known| >= CAP then (known, OTHER)
    else (known + {token}, token)
  }

  /** A whole call. */
  function Labelled(known: set<string>, token: string): (set<string>, string) {
    if token in known then (known, token)
    else if !VerbShaped(token) then (known, OTHER)
    else Learn(known, token)
  }

  class OperationLabels {
    var known: set<string>
    var capExceeded: bool

    constructor (seed: seq<string>)
      ensures known == (set v | v in seed) && !capExceeded
    {
      known, capExceeded := {}, false;
      new;
      for i := 0 to |seed|
        invariant known == (set v | v in seed[..i]) && !capExceeded
      {
        known := known + {seed[i]};
      }
      assert seed[..|seed|] == seed;
    }

    method Label(token: string) returns (answer: string)
      modifies this
      ensures (known, answer) == Labelled(old(known), token)
      ensures capExceeded <==>
        old(capExceeded) || (VerbShaped(token) && token !in old(known) && |old(known)| >= CAP)
    {
      if token in known {
        return token;
      }
      if !VerbShaped(token) {
        return OTHER;
      }
      if |known| >= CAP {
        capExceeded := true;
        return OTHER;
      }
      known := known + {token};
      answer := token;
    }
  }

  // ----- Interleaved calls -----

  /** A call has read the snapshot and waits for the lock, or has answered. */
  datatype Call = Waiting(token: string) | Answered(token: string, answer: string)
  datatype State = State(known: set<string>, calls: seq<Call>)

  /** Ask: the lock-free half of a call. Locked: the half under the lock. */
  datatype Action = Ask(token: string) | Locked(i: nat)

  function Step(s: State, a: Action): State {
    match a
    case Ask(token) =>
      var call :=
        if token in s.known then Answered(token, token)
        else if !VerbShaped(token) then Answered(token, OTHER)
        else Waiting(token);
      s.(calls := s.calls + [call])
    case Locked(i) =>
      if i < |s.calls| && s.calls[i].Waiting? then
        var (known, answer) := Learn(s.known, s.calls[i].token);
        State(known, s.calls[i := Answered(s.calls[i].token, answer)])
      else s
  }

  function Run(s: State, actions: seq<Action>): State
    decreases |actions|
  {
    if actions == [] then s else Run(Step(s, actions[0]), actions[1..])
  }

  /** A call that waits has a token that can be learned. An answer is the token exactly when the token is known, and
      OTHER only when the token cannot be learned any more. */
  ghost predicate CallOk(s: State, i: nat)
    requires i < |s.calls|
  {
    match s.calls[i]
    case Waiting(token) => VerbShaped(token)
    case Answered(token, answer) =>
      && (answer == token || answer == OTHER)
      && (token != OTHER ==> (answer == token <==> token in s.known))
      && (answer != token ==> !VerbShaped(token) || |s.known| >= CAP)
  }

  ghost predicate Inv(s: State) {
    forall i :: 0 <= i < |s.calls| ==> CallOk(s, i)
  }

  /** Known verbs stay known, a new one is shaped like a verb and found room, and an answer is never taken back. */
  ghost predicate Grows(s: State, t: State) {
    && s.known <= t.known
    && (forall v :: v in t.known - s.known ==> VerbShaped(v))
    && (t.known != s.known ==> |t.known| <= CAP)
    && |s.calls| <= |t.calls|
    && (forall i :: 0 <= i < |s.calls| && s.calls[i].Answered? ==> t.calls[i] == s.calls[i])
  }

  lemma StepGrows(s: State, a: Action)
    requires Inv(s)
    ensures Grows(s, Step(s, a)) && Inv(Step(s, a))
  {
    var t := Step(s, a);
    if a.Locked? && a.i < |s.calls| {
      assert CallOk(s, a.i);
    }
    forall i | 0 <= i < |t.calls|
      ensures CallOk(t, i)
    {
      if i < |s.calls| {
        assert CallOk(s, i);
      }
    }
  }

  lemma {:induction false} RunGrows(s: State, actions: seq<Action>)
    requires Inv(s)
    ensures Grows(s, Run(s, actions)) && Inv(Run(s, actions))
    decreases |actions|
  {
    if actions != [] {
      StepGrows(s, actions[0]);
      RunGrows(Step(s, actions[0]), actions[1..]);
    }
  }

  /** From a seed within the cap, the set only grows, by verb-shaped tokens, and never exceeds the cap. */
  lemma Bounded(seed: set<string>, actions: seq<Action>)
    requires |seed| <= 128
    ensures var t := Run(State(seed, []), actions);
      seed <= t.known && |t.known| <= 128 && forall v :: v in t.known - seed ==> VerbShaped(v)
  {
    RunGrows(State(seed, []), actions);
  }

  /** A new token, while there is room: a capital and up to thirty-one capitals, digits and underscores are learned and
      answered; anything else is OTHER. */
  lemma NewToken(known: set<string>, first: char, rest: string)
    requires [first] + rest !in known && |known| < 128
    ensures var (known', answer) := Labelled(known, [first] + rest);
      if 'A' <= first <= 'Z' && |rest| <= 31
         && forall i :: 0 <= i < |rest| ==> 'A' <= rest[i] <= 'Z' || '0' <= rest[i] <= '9' || rest[i] == '_'
      then known' == known + {[first] + rest} && answer == [first] + rest
      else known' == known && answer == "OTHER"
  {
    var token := [first] + rest;
    forall i | 0 <= i < |rest|
      ensures token[i + 1] == rest[i]
    {
    }
    if VerbShaped(token) {
      forall i | 0 <= i < |rest|
        ensures 'A' <= rest[i] <= 'Z' || '0' <= rest[i] <= '9' || rest[i] == '_'
      {
        assert rest[i] == token[i + 1];
      }
    }
  }

  /** Every call with one token, at any point of a run, gets the same answer: the token if it is ever known, and OTHER
      if not. */
  lemma OneAnswer(seed: set<string>, actions: seq<Action>, i: nat)
    requires i < |Run(State(seed, []), actions).calls| && Run(State(seed, []), actions).calls[i].Answered?
    ensures var t := Run(State(seed, []), actions);
      t.calls[i].answer == if t.calls[i].token in t.known then t.calls[i].token else OTHER
  {
    RunGrows(State(seed, []), actions);
    assert CallOk(Run(State(seed, []), actions), i);
  }

  /** ... and no later call can make it another. */
  lemma AnswerStays(seed: set<string>, actions: seq<Action>, more: seq<Action>, i: nat)
    requires i < |Run(State(seed, []), actions).calls| && Run(State(seed, []), actions).calls[i].Answered?
    ensures var (s, t) := (Run(State(seed, []), actions), Run(Run(State(seed, []), actions), more));
      && i < |t.calls| && t.calls[i] == s.calls[i]
      && (s.calls[i].token == OTHER || (s.calls[i].token in s.known <==> s.calls[i].token in t.known))
  {
    var s := Run(State(seed, []), actions);
    RunGrows(State(seed, []), actions);
    RunGrows(s, more);
    assert CallOk(s, i) && CallOk(Run(s, more), i);
  }
}
