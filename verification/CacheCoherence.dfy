/** Lookups racing with registrations of virtual functions: every interleaving of their atomic steps. */
module CacheCoherence {
  import opened Errors
  import opened Lexer
  import opened Expansion
  import opened Binding

  datatype Key = Key(driver: Driver, query: Sql)

  /** A cached statement and the version of the registry it was unpacked with. */
  datatype Entry = Entry(text: Option<Sql>, version: nat)

  function Recompute(reg: Registry, key: Key): Option<Sql> {
    Unpacked(key.driver, reg, key.query)
  }

  /** How far a lookup is. Locked: it holds the mutex and is about to store its entry. */
  datatype Progress =
    | Begun | Missed | Read(generation: nat) | Computed(generation: nat, e: Entry)
    | Locked(e: Entry) | Returned(e: Entry)

  /** since is the newest registration that had returned when the lookup began. */
  datatype Lookup = Lookup(key: Key, since: nat, at: Progress)

  /** A registration of a version: the registry is swapped, then the cache is cleared under the mutex. */
  datatype Registration = Swapped(version: nat) | Clearing(version: nat) | Done(version: nat)

  datatype Mutex = Free | ByLookup(i: nat) | ByRegistration(j: nat)

  /** versions are the registries so far, the last one current; bumped is the newest version whose registration has
      bumped the generation, returned the newest whose registration has returned. */
  datatype State = State(
    versions: seq<Registry>, entries: map<Key, Entry>, generation: nat, mutex: Mutex,
    lookups: seq<Lookup>, registrations: seq<Registration>, bumped: nat, returned: nat)

  datatype Action =
    | Begin(key: Key)
    | Load(i: nat)
    | ReadGeneration(i: nat)
    | Compute(i: nat)
    | Lock(i: nat)
    | Evict(i: nat, key: Key)
    | Store(i: nat)
    | Swap(name: string, handler: Handler)
    | Bump(j: nat)
    | Wipe(j: nat, key: Key)
    | Finish(j: nat)

  function Start(reg: Registry): State {
    State([reg], map[], 0, Free, [], [], 0, 0)
  }

  // ----- Steps -----

  function Put(s: State, i: nat, at: Progress): State
    requires i < |s.lookups|
  {
    s.(lookups := s.lookups[i := s.lookups[i].(at := at)])
  }

  predicate At(s: State, i: nat, p: Progress -> bool) {
    i < |s.lookups| && p(s.lookups[i].at)
  }

  predicate ClearingAt(s: State, j: nat) {
    j < |s.registrations| && s.registrations[j].Clearing?
  }

  predicate Enabled(s: State, a: Action) {
    match a
    case Begin(_) => true
    case Load(i) => At(s, i, (p: Progress) => p.Begun?)
    case ReadGeneration(i) => At(s, i, (p: Progress) => p.Missed?)
    case Compute(i) => At(s, i, (p: Progress) => p.Read?) && |s.versions| > 0
    case Lock(i) => At(s, i, (p: Progress) => p.Computed?) && s.mutex == Free
    case Evict(i, _) => At(s, i, (p: Progress) => p.Locked?)
    case Store(i) => At(s, i, (p: Progress) => p.Locked?)
    case Swap(_, _) => |s.versions| > 0
    case Bump(j) => j < |s.registrations| && s.registrations[j].Swapped? && s.mutex == Free
    case Wipe(j, _) => ClearingAt(s, j)
    case Finish(j) => ClearingAt(s, j) && s.entries == map[]
  }

  function StepLookup(s: State, a: Action): State
    requires Enabled(s, a) && (a.Load? || a.ReadGeneration? || a.Compute? || a.Lock? || a.Evict? || a.Store?)
  {
    var l := s.lookups[a.i];
    match a
    case Load(i) => Put(s, i, if l.key in s.entries then Returned(s.entries[l.key]) else Missed)
    case ReadGeneration(i) => Put(s, i, Read(s.generation))
    case Compute(i) =>
      var v := |s.versions| - 1;
      Put(s, i, Computed(l.at.generation, Entry(Recompute(s.versions[v], l.key), v)))
    case Lock(i) =>
      if l.at.generation != s.generation then Put(s, i, Returned(l.at.e))
      else if l.key in s.entries then Put(s, i, Returned(s.entries[l.key]))
      else Put(s, i, Locked(l.at.e)).(mutex := ByLookup(i))
    case Evict(_, key) => s.(entries := s.entries - {key})
    case Store(i) => Put(s, i, Returned(l.at.e)).(entries := s.entries[l.key := l.at.e], mutex := Free)
  }

  function Max(a: nat, b: nat): nat {
    if a < b then b else a
  }

  function StepRegistration(s: State, a: Action): State
    requires Enabled(s, a) && (a.Swap? || a.Bump? || a.Wipe? || a.Finish?)
  {
    match a
    case Swap(name, handler) =>
      s.(versions := s.versions + [s.versions[|s.versions| - 1][name := handler]],
         registrations := s.registrations + [Swapped(|s.versions|)])
    case Bump(j) =>
      var v := s.registrations[j].version;
      s.(generation := s.generation + 1, mutex := ByRegistration(j), bumped := Max(s.bumped, v),
         registrations := s.registrations[j := Clearing(v)])
    case Wipe(_, key) => s.(entries := s.entries - {key})
    case Finish(j) =>
      var v := s.registrations[j].version;
      s.(mutex := Free, returned := Max(s.returned, v), registrations := s.registrations[j := Done(v)])
  }

  function Step(s: State, a: Action): State {
    if !Enabled(s, a) then s
    else if a.Begin? then s.(lookups := s.lookups + [Lookup(a.key, s.returned, Begun)])
    else if a.Swap? || a.Bump? || a.Wipe? || a.Finish? then StepRegistration(s, a)
    else StepLookup(s, a)
  }

  // ----- Invariant -----

  /** An entry unpacked with an existing version, that version or a newer one. */
  ghost predicate Fresh(s: State, key: Key, e: Entry, least: nat) {
    least <= e.version < |s.versions| && e.text == Recompute(s.versions[e.version], key)
  }

  ghost predicate LookupOk(s: State, i: nat)
    requires i < |s.lookups|
  {
    var l := s.lookups[i];
    && l.since <= s.returned
    && (match l.at
        case Begun => true
        case Missed => true
        case Read(g) => g <= s.generation
        case Computed(g, e) => g <= s.generation && Fresh(s, l.key, e, if g == s.generation then s.bumped else l.since)
        case Locked(e) => s.mutex == ByLookup(i) && Fresh(s, l.key, e, s.bumped)
        case Returned(e) => Fresh(s, l.key, e, l.since))
  }

  ghost predicate RegistrationOk(s: State, j: nat)
    requires j < |s.registrations|
  {
    var r := s.registrations[j];
    && r.version < |s.versions|
    && (r.Clearing? ==> s.mutex == ByRegistration(j) && r.version <= s.bumped)
    && (r.Done? ==> r.version <= s.returned)
  }

  /** Unless a registration is clearing it, the cache holds nothing older than any bump. */
  function Floor(s: State): nat {
    if s.mutex.ByRegistration? then s.returned else s.bumped
  }

  ghost predicate Inv(s: State) {
    && s.returned <= s.bumped < |s.versions|
    && (forall i :: 0 <= i < |s.lookups| ==> LookupOk(s, i))
    && (forall j :: 0 <= j < |s.registrations| ==> RegistrationOk(s, j))
    && (forall key :: key in s.entries ==> Fresh(s, key, s.entries[key], Floor(s)))
  }

  lemma LookupInv(s: State, a: Action)
    requires Inv(s) && Enabled(s, a) && (a.Load? || a.ReadGeneration? || a.Compute?)
    ensures Inv(StepLookup(s, a))
  {
    var t := StepLookup(s, a);
    assert LookupOk(s, a.i);
    forall i | 0 <= i < |t.lookups|
      ensures LookupOk(t, i)
    {
      assert LookupOk(s, i);
    }
    forall j | 0 <= j < |t.registrations|
      ensures RegistrationOk(t, j)
    {
      assert RegistrationOk(s, j);
    }
  }

  lemma InsertInv(s: State, a: Action)
    requires Inv(s) && Enabled(s, a) && (a.Lock? || a.Evict? || a.Store?)
    ensures Inv(StepLookup(s, a))
  {
    var t := StepLookup(s, a);
    assert LookupOk(s, a.i);
    InsertLookups(s, a);
    forall j | 0 <= j < |t.registrations|
      ensures RegistrationOk(t, j)
    {
      assert RegistrationOk(s, j);
    }
  }

  lemma InsertLookups(s: State, a: Action)
    requires Inv(s) && Enabled(s, a) && (a.Lock? || a.Evict? || a.Store?)
    ensures var t := StepLookup(s, a); forall i :: 0 <= i < |t.lookups| ==> LookupOk(t, i)
  {
    var t := StepLookup(s, a);
    assert LookupOk(s, a.i);
    forall i | 0 <= i < |t.lookups|
      ensures LookupOk(t, i)
    {
      assert LookupOk(s, i);
    }
  }

  lemma RegistrationInv(s: State, a: Action)
    requires Inv(s) && Enabled(s, a) && (a.Swap? || a.Bump? || a.Wipe? || a.Finish?)
    ensures Inv(StepRegistration(s, a))
  {
    var t := StepRegistration(s, a);
    if !a.Swap? {
      assert RegistrationOk(s, a.j);
    }
    forall i | 0 <= i < |t.lookups|
      ensures LookupOk(t, i)
    {
      assert LookupOk(s, i);
    }
    forall j | 0 <= j < |t.registrations|
      ensures RegistrationOk(t, j)
    {
      if j < |s.registrations| {
        assert RegistrationOk(s, j);
      }
    }
  }

  lemma StepInv(s: State, a: Action)
    requires Inv(s)
    ensures Inv(Step(s, a))
  {
    if Enabled(s, a) {
      if a.Begin? {
        var t := Step(s, a);
        forall i | 0 <= i < |t.lookups|
          ensures LookupOk(t, i)
        {
          if i < |s.lookups| {
            assert LookupOk(s, i);
          }
        }
        forall j | 0 <= j < |t.registrations|
          ensures RegistrationOk(t, j)
        {
          assert RegistrationOk(s, j);
        }
      } else if a.Swap? || a.Bump? || a.Wipe? || a.Finish? {
        RegistrationInv(s, a);
      } else if a.Lock? || a.Evict? || a.Store? {
        InsertInv(s, a);
      } else {
        LookupInv(s, a);
      }
    }
  }

  // ----- Runs -----

  function Run(s: State, actions: seq<Action>): State
    decreases |actions|
  {
    if actions == [] then s else Run(Step(s, actions[0]), actions[1..])
  }

  lemma {:induction false} RunInv(s: State, actions: seq<Action>)
    requires Inv(s)
    ensures Inv(Run(s, actions))
    decreases |actions|
  {
    if actions != [] {
      StepInv(s, actions[0]);
      RunInv(Step(s, actions[0]), actions[1..]);
    }
  }

  /** A registration has returned. */
  ghost predicate HasReturned(s: State, version: nat) {
    exists j :: 0 <= j < |s.registrations| && s.registrations[j] == Done(version)
  }

  /** The i-th lookup gave what unpacking gives with some registry at least as new as a version. */
  ghost predicate NoOlder(s: State, i: nat, version: nat)
    requires i < |s.lookups| && s.lookups[i].at.Returned?
  {
    exists v :: version <= v < |s.versions| && s.lookups[i].at.e.text == Recompute(s.versions[v], s.lookups[i].key)
  }

  /** A step never takes back a begun lookup, a returned registration or a version. */
  ghost predicate Extends(s: State, t: State) {
    && |s.lookups| <= |t.lookups|
    && (forall i :: 0 <= i < |s.lookups| ==>
          t.lookups[i].since == s.lookups[i].since && t.lookups[i].key == s.lookups[i].key)
    && |s.versions| <= |t.versions| && t.versions[..|s.versions|] == s.versions
  }

  lemma {:induction false} RunExtends(s: State, actions: seq<Action>)
    ensures Extends(s, Run(s, actions))
    decreases |actions|
  {
    if actions == [] {
      assert s.versions[..|s.versions|] == s.versions;
    } else {
      var t := Step(s, actions[0]);
      RunExtends(t, actions[1..]);
      StepExtends(s, actions[0]);
      var u := Run(t, actions[1..]);
      assert u.versions[..|s.versions|] == u.versions[..|t.versions|][..|s.versions|];
    }
  }

  lemma StepExtends(s: State, a: Action)
    ensures Extends(s, Step(s, a))
  {
    assert s.versions[..|s.versions|] == s.versions;
  }

  /** Coherence: whatever is interleaved before and after, a lookup that begins when the registration of a version has
      returned never yields a statement unpacked with an older registry. */
  lemma NeverStale(reg: Registry, before: seq<Action>, key: Key, after: seq<Action>, version: nat)
    requires HasReturned(Run(Start(reg), before), version)
    ensures var s := Run(Start(reg), before);
      var t := Run(Step(s, Begin(key)), after);
      var i := |s.lookups|;
      && i < |t.lookups| && t.lookups[i].key == key
      && (t.lookups[i].at.Returned? ==> NoOlder(t, i, version))
  {
    var s := Run(Start(reg), before);
    var begun := Step(s, Begin(key));
    var t, i := Run(begun, after), |s.lookups|;
    RunInv(Start(reg), before);
    StepInv(s, Begin(key));
    RunInv(begun, after);
    RunExtends(begun, after);
    var j :| 0 <= j < |s.registrations| && s.registrations[j] == Done(version);
    assert RegistrationOk(s, j);
    assert LookupOk(t, i);
    if t.lookups[i].at.Returned? {
      var e := t.lookups[i].at.e;
      assert version <= e.version < |t.versions| && e.text == Recompute(t.versions[e.version], t.lookups[i].key);
    }
  }

  /** What the cache holds is always what unpacking gives with some registry since the last registration that
      returned. */
  lemma CacheAgrees(reg: Registry, actions: seq<Action>, key: Key)
    ensures var s := Run(Start(reg), actions);
      key in s.entries ==> Fresh(s, key, s.entries[key], s.returned)
  {
    RunInv(Start(reg), actions);
  }

  // ----- Lookups and registrations that nothing interrupts -----

  /** A lookup looks first: it returns what is cached, or has missed. */
  lemma Looks(s: State, key: Key)
    ensures var (i, t) := (|s.lookups|, Step(Step(s, Begin(key)), Load(|s.lookups|)));
      && i < |t.lookups| && t.lookups[i].key == key && t == s.(lookups := t.lookups)
      && t.lookups[i].at == if key in s.entries then Returned(s.entries[key]) else Missed
  {
  }

  /** A lookup that missed unpacks with the current registry, and leaves that behind. */
  lemma Computes(s: State, i: nat)
    requires |s.versions| > 0 && s.mutex == Free && i < |s.lookups| && s.lookups[i].at == Missed
    ensures var key := s.lookups[i].key;
      var e := Entry(Recompute(s.versions[|s.versions| - 1], key), |s.versions| - 1);
      var t := Step(Step(s, ReadGeneration(i)), Compute(i));
      t == Put(s, i, Computed(s.generation, e))
  {
    assert Step(s, ReadGeneration(i)) == Put(s, i, Read(s.generation));
  }

  lemma Stores(s: State, i: nat, e: Entry)
    requires s.mutex == Free && i < |s.lookups| && s.lookups[i].at == Computed(s.generation, e)
    requires s.lookups[i].key !in s.entries
    ensures var t := Step(Step(s, Lock(i)), Store(i));
      t == Put(s, i, Returned(e)).(entries := s.entries[s.lookups[i].key := e])
  {
    assert Step(s, Lock(i)) == Put(s, i, Locked(e)).(mutex := ByLookup(i));
  }

  /** A registration that finds the cache empty: the new registry is current when it has returned. */
  lemma Registers(s: State, name: string, handler: Handler)
    requires |s.versions| > 0 && s.mutex == Free && s.entries == map[]
    ensures var (j, v) := (|s.registrations|, |s.versions|);
      var swapped := Step(s, Swap(name, handler));
      var t := Step(Step(swapped, Bump(j)), Finish(j));
      && t.versions == s.versions + [s.versions[v - 1][name := handler]] && t.entries == map[] && t.mutex == Free
      && t.generation == s.generation + 1 && j < |t.registrations| && t.registrations[j] == Done(v)
  {
    var (j, v) := (|s.registrations|, |s.versions|);
    var bumped := Step(Step(s, Swap(name, handler)), Bump(j));
    assert bumped.registrations[j] == Clearing(v) && bumped.entries == map[];
  }
}
