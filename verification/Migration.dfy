/** DB.Migrate as many runners sharing one table: the lease protocol, with a server clock, statement latency, failing
    renewals, and crashes that may leave a statement in flight.

    The renew, release and complete statements carry no owner check, so that only one runner executes a migration is a
    matter of timing. */
module Migration {

  const LEASE: nat := 15000
  const RENEWAL: nat := 5000

  /** `latency` bounds a bookkeeping statement from its issue to its answer, retries included; `cancel` bounds how long
      a run takes to end once it is cancelled. */
  datatype Params = Params(latency: nat, cancel: nat)

  datatype Row = Row(completed: bool, lockedBefore: nat)

  /** Where a runner is. `lease` is the server time of its last acquisition or renewal, `issued` the time the statement
      in flight was sent, `since` the time the phase began. */
  datatype Phase =
    | Idle
    | Inserted
    | Checked
    | Locking(issued: nat)
    | Locked(lease: nat, issued: nat)
    | Running(lease: nat, since: nat)
    | Renewing(lease: nat, issued: nat)
    | Renewed(lease: nat, issued: nat)
    | Cancelling(lease: nat, since: nat)
    | Closing(lease: nat, issued: nat, success: bool)
    | Closed(issued: nat, success: bool)
    | Over(success: bool)

  /** `pos` is the index, in the sorted list of migrations, of the one the runner is at. */
  datatype Runner = Runner(pos: nat, phase: Phase, alive: bool)

  datatype State = State(now: nat, table: map<int, Row>, runners: seq<Runner>)

  datatype Step =
    | Tick(dt: nat)
    | Join(watermark: int, pos: nat)
    | Insert(i: nat)
    | Look(i: nat)
    | Return(i: nat)
    | IssueLock(i: nat)
    | Execute(i: nat)
    | Answer(i: nat, good: bool)
    | Refuse(i: nat)
    | RenewDue(i: nat)
    | RunEnds(i: nat, success: bool)
    | Crash(i: nat)
    | Drop(i: nat)

  /** The migration files: distinct positive sequence numbers, sorted. */
  ghost predicate ValidFiles(f: seq<int>) {
    (forall a :: 0 <= a < |f| ==> f[a] > 0) && (forall a, b :: 0 <= a < b < |f| ==> f[a] < f[b])
  }

  ghost predicate Done(s: State, k: int) {
    k in s.table && s.table[k].completed
  }

  /** SELECT MAX(seq_num) ... WHERE completed, or 0 when there is none. */
  ghost predicate IsWatermark(s: State, w: int) {
    && (forall k :: k in s.table && s.table[k].completed ==> k <= w)
    && (if exists k :: Done(s, k) then Done(s, w) else w == 0)
  }

  ghost predicate InFlight(phase: Phase) {
    phase.Locking? || phase.Renewing? || phase.Closing?
  }

  /** The time by which the phase is over, if it is bounded. */
  ghost predicate WithinBounds(p: Params, phase: Phase, now: nat) {
    match phase
    case Locking(issued) => now <= issued + p.latency
    case Locked(_, issued) => now <= issued + p.latency
    case Running(_, since) => now <= since + RENEWAL
    case Renewing(_, issued) => now <= issued + p.latency
    case Renewed(_, issued) => now <= issued + p.latency
    case Cancelling(_, since) => now <= since + p.cancel
    case Closing(_, issued, _) => now <= issued + p.latency
    case Closed(issued, _) => now <= issued + p.latency
    case _ => true
  }

  ghost predicate Acts(s: State, i: nat) {
    i < |s.runners| && s.runners[i].alive
  }

  ghost predicate Enabled(p: Params, f: seq<int>, s: State, step: Step) {
    match step
    case Tick(dt) => forall i :: 0 <= i < |s.runners| ==> WithinBounds(p, s.runners[i].phase, s.now + dt)
    case Join(w, pos) =>
      && IsWatermark(s, w) && pos <= |f|
      && (forall a :: 0 <= a < pos ==> f[a] <= w) && (forall a :: pos <= a < |f| ==> f[a] > w)
    case Insert(i) => Acts(s, i) && s.runners[i].phase.Idle? && s.runners[i].pos < |f|
    case Look(i) =>
      && Acts(s, i) && s.runners[i].phase.Inserted?
      && s.runners[i].pos < |f| && f[s.runners[i].pos] in s.table
    case Return(i) => Acts(s, i) && s.runners[i].phase.Idle? && s.runners[i].pos >= |f|
    case IssueLock(i) => Acts(s, i) && s.runners[i].phase.Checked?
    case Execute(i) =>
      i < |s.runners| && InFlight(s.runners[i].phase) && s.runners[i].pos < |f| && f[s.runners[i].pos] in s.table
    case Answer(i, _) =>
      Acts(s, i) && (s.runners[i].phase.Locked? || s.runners[i].phase.Renewed? || s.runners[i].phase.Closed?)
    case Refuse(i) =>
      Acts(s, i) && (InFlight(s.runners[i].phase) || s.runners[i].phase.Idle? || s.runners[i].phase.Inserted?)
    case RenewDue(i) => Acts(s, i) && s.runners[i].phase.Running? && s.now >= s.runners[i].phase.since + RENEWAL
    case RunEnds(i, _) => Acts(s, i) && (s.runners[i].phase.Running? || s.runners[i].phase.Cancelling?)
    case Crash(i) => Acts(s, i)
    case Drop(i) => i < |s.runners| && !s.runners[i].alive
  }

  ghost function Put(s: State, i: nat, phase: Phase): State
    requires i < |s.runners|
  {
    s.(runners := s.runners[i := s.runners[i].(phase := phase)])
  }

  /** The statement in flight takes effect: the conditional UPDATE that acquires the lease, or one of the unconditional
      ones that renew it, release it or complete the migration. */
  ghost function Effect(s: State, i: nat, k: int): State
    requires i < |s.runners| && InFlight(s.runners[i].phase) && k in s.table
  {
    match s.runners[i].phase
    case Locking(issued) =>
      if s.table[k].lockedBefore <= s.now && !s.table[k].completed
      then Put(s, i, Locked(s.now, issued)).(table := s.table[k := Row(false, s.now + LEASE)])
      else Put(s, i, Idle)
    case Renewing(_, issued) =>
      Put(s, i, Renewed(s.now, issued)).(table := s.table[k := Row(s.table[k].completed, s.now + LEASE)])
    case Closing(_, issued, success) =>
      Put(s, i, Closed(issued, success)).(table := s.table[k := Row(success || s.table[k].completed, s.now)])
  }

  ghost function Answered(s: State, i: nat, good: bool): State
    requires i < |s.runners|
  {
    var runner := s.runners[i];
    match runner.phase
    case Locked(lease, _) => Put(s, i, if good then Running(lease, s.now) else Over(false))
    case Renewed(lease, _) => Put(s, i, if good then Running(lease, s.now) else Cancelling(lease, s.now))
    case Closed(_, success) =>
      if good && success then s.(runners := s.runners[i := runner.(pos := runner.pos + 1, phase := Idle)])
      else Put(s, i, Over(false))
    case _ => s
  }

  ghost function Apply(p: Params, f: seq<int>, s: State, step: Step): State
    requires Enabled(p, f, s, step)
  {
    match step
    case Tick(dt) => s.(now := s.now + dt)
    case Join(_, pos) => s.(runners := s.runners + [Runner(pos, Idle, true)])
    case Insert(i) =>
      var k := f[s.runners[i].pos];
      Put(if k in s.table then s else s.(table := s.table[k := Row(false, s.now)]), i, Inserted)
    case Look(i) =>
      if s.table[f[s.runners[i].pos]].completed
      then s.(runners := s.runners[i := s.runners[i].(pos := s.runners[i].pos + 1, phase := Idle)])
      else Put(s, i, Checked)
    case Return(i) => Put(s, i, Over(true))
    case IssueLock(i) => Put(s, i, Locking(s.now))
    case Execute(i) => Effect(s, i, f[s.runners[i].pos])
    case Answer(i, good) => Answered(s, i, good)
    case Refuse(i) =>
      Put(s, i, if s.runners[i].phase.Renewing? then Cancelling(s.runners[i].phase.lease, s.now) else Over(false))
    case RenewDue(i) => Put(s, i, Renewing(s.runners[i].phase.lease, s.now))
    case RunEnds(i, success) => Put(s, i, Closing(s.runners[i].phase.lease, s.now, success))
    case Crash(i) =>
      var phase := s.runners[i].phase;
      s.(runners :=
        s.runners[i := s.runners[i].(alive := false, phase := if InFlight(phase) then phase else Over(false))])
    case Drop(i) => Put(s, i, Over(false))
  }

  // ----- Reachable states -----

  /** A table left by earlier runs: some prefix of the migrations is completed. */
  ghost predicate Init(f: seq<int>, s: State) {
    && s.runners == []
    && (forall k :: Done(s, k) ==> k in f)
    && (forall a, b :: 0 <= a < b < |f| && Done(s, f[b]) ==> Done(s, f[a]))
  }

  ghost predicate Execution(p: Params, f: seq<int>, states: seq<State>) {
    && states != [] && Init(f, states[0])
    && forall n :: 0 <= n < |states| - 1 ==> Transition(p, f, states[n], states[n + 1])
  }

  ghost predicate Transition(p: Params, f: seq<int>, s: State, s': State) {
    exists step :: Enabled(p, f, s, step) && s' == Apply(p, f, s, step)
  }

  ghost predicate Reachable(p: Params, f: seq<int>, s: State) {
    exists states :: Execution(p, f, states) && s == states[|states| - 1]
  }

  ghost predicate Executing(runner: Runner) {
    && runner.alive
    && (runner.phase.Running? || runner.phase.Renewing? || runner.phase.Renewed? || runner.phase.Cancelling?)
  }

  /** No migration is executed by two live runners at once. */
  ghost predicate Exclusive(s: State) {
    forall i, j :: 0 <= i < j < |s.runners| && Executing(s.runners[i]) && Executing(s.runners[j]) ==>
      s.runners[i].pos != s.runners[j].pos
  }

  // ----- The invariant -----

  ghost predicate Holds(phase: Phase) {
    phase.Locked? || phase.Running? || phase.Renewing? || phase.Renewed? || phase.Cancelling? || phase.Closing?
  }

  /** How far behind the server clock a lease may be, phase by phase. */
  ghost predicate Timely(p: Params, phase: Phase, now: nat) {
    && WithinBounds(p, phase, now)
    && match phase
       case Locking(issued) => issued <= now
       case Locked(lease, issued) => issued <= lease <= now
       case Running(lease, since) => lease <= since <= now && since <= lease + p.latency
       case Renewing(lease, issued) => lease <= issued <= now && issued <= lease + p.latency + RENEWAL
       case Renewed(lease, issued) => issued <= lease <= now
       case Cancelling(lease, since) => lease <= since <= now && since <= lease + 2 * p.latency + RENEWAL
       case Closing(lease, issued, _) => lease <= issued <= now && issued <= lease + 2 * p.latency + RENEWAL + p.cancel
       case _ => true
  }

  /** The condition under which no lease lapses while its owner still counts on it. */
  ghost predicate Safe(p: Params) {
    RENEWAL + 3 * p.latency + p.cancel < LEASE
  }

  lemma LeaseCurrent(p: Params, phase: Phase, now: nat)
    requires Safe(p) && Timely(p, phase, now) && Holds(phase)
    ensures phase.lease <= now < phase.lease + LEASE
  {
  }

  /** An owner's row is locked at least for its lease and not completed. */
  ghost predicate Owns(f: seq<int>, s: State, runner: Runner)
    requires Holds(runner.phase)
  {
    && runner.pos < |f| && f[runner.pos] in s.table
    && !s.table[f[runner.pos]].completed
    && s.table[f[runner.pos]].lockedBefore >= runner.phase.lease + LEASE
  }

  ghost predicate Leases(p: Params, f: seq<int>, s: State) {
    && (forall i :: 0 <= i < |s.runners| ==> Timely(p, s.runners[i].phase, s.now))
    && (forall i :: 0 <= i < |s.runners| && Holds(s.runners[i].phase) ==> Owns(f, s, s.runners[i]))
    && (forall i, j :: 0 <= i < j < |s.runners| && Holds(s.runners[i].phase) && Holds(s.runners[j].phase) ==>
          s.runners[i].pos != s.runners[j].pos)
  }

  /** Completed migrations are a prefix of the sorted list, and every runner has only completed ones behind it. */
  ghost predicate Progress(f: seq<int>, s: State) {
    && (forall k :: Done(s, k) ==> k in f)
    && (forall a, b :: 0 <= a < b < |f| && Done(s, f[b]) ==> Done(s, f[a]))
    && (forall i :: 0 <= i < |s.runners| ==> Behind(f, s, s.runners[i]))
  }

  ghost predicate Behind(f: seq<int>, s: State, runner: Runner) {
    && runner.pos <= |f|
    && (forall a :: 0 <= a < runner.pos ==> Done(s, f[a]))
    && ((|| Holds(runner.phase) || runner.phase.Closed?
         || runner.phase.Locking? || runner.phase.Checked? || runner.phase.Inserted?) ==>
          runner.pos < |f|)
    && (runner.phase.Closed? && runner.phase.success ==> runner.pos < |f| && Done(s, f[runner.pos]))
    && (runner.phase.Over? && runner.phase.success ==> runner.pos == |f|)
  }

  /** Another row's change, or a change that completes and nothing else, leaves runners where they are. */
  lemma BehindKept(f: seq<int>, s: State, s': State, runner: Runner)
    requires Behind(f, s, runner) && forall k :: Done(s, k) ==> Done(s', k)
    ensures Behind(f, s', runner)
  {
  }

  /** Two different positions are two different rows. */
  lemma OtherRow(f: seq<int>, a: nat, b: nat)
    requires ValidFiles(f) && a < |f| && b < |f| && a != b
    ensures f[a] != f[b]
  {
  }

  /** A step of runner i that leaves the table alone and lets it keep no more of a lease than it had. */
  lemma PhaseLeases(p: Params, f: seq<int>, s: State, i: nat, runner: Runner)
    requires Leases(p, f, s) && i < |s.runners| && Timely(p, runner.phase, s.now)
    requires Holds(runner.phase) ==>
      Holds(s.runners[i].phase) && runner.pos == s.runners[i].pos && runner.phase.lease == s.runners[i].phase.lease
    ensures Leases(p, f, s.(runners := s.runners[i := runner]))
  {
  }

  lemma EffectLeases(p: Params, f: seq<int>, s: State, i: nat)
    requires ValidFiles(f) && Safe(p) && Leases(p, f, s)
    requires Enabled(p, f, s, Execute(i))
    ensures Leases(p, f, Apply(p, f, s, Execute(i)))
  {
    var s' := Apply(p, f, s, Execute(i));
    var pos := s.runners[i].pos;
    var k := f[pos];
    forall j | 0 <= j < |s.runners| && j != i && Holds(s.runners[j].phase)
      ensures Owns(f, s', s.runners[j]) && (Holds(s'.runners[i].phase) ==> s.runners[j].pos != pos)
    {
      LeaseCurrent(p, s.runners[j].phase, s.now);
      if s.runners[j].pos != pos {
        OtherRow(f, s.runners[j].pos, pos);
      }
    }
  }

  /** Steps of one runner that send no effect to the table. */
  predicate Local(step: Step) {
    !step.Tick? && !step.Join? && !step.Insert? && !step.Execute?
  }

  lemma LocalLeases(p: Params, f: seq<int>, s: State, step: Step)
    requires Leases(p, f, s) && Enabled(p, f, s, step) && Local(step)
    ensures Leases(p, f, Apply(p, f, s, step))
  {
    var s' := Apply(p, f, s, step);
    assert Timely(p, s.runners[step.i].phase, s.now);
    PhaseLeases(p, f, s, step.i, s'.runners[step.i]);
    assert s' == s.(runners := s.runners[step.i := s'.runners[step.i]]);
  }

  lemma InsertLeases(p: Params, f: seq<int>, s: State, i: nat)
    requires Leases(p, f, s) && Enabled(p, f, s, Insert(i))
    ensures Leases(p, f, Apply(p, f, s, Insert(i)))
  {
    var s' := Apply(p, f, s, Insert(i));
    PhaseLeases(p, f, s.(table := s'.table), i, s'.runners[i]);
  }

  lemma StepLeases(p: Params, f: seq<int>, s: State, step: Step)
    requires ValidFiles(f) && Safe(p) && Leases(p, f, s) && Enabled(p, f, s, step)
    ensures Leases(p, f, Apply(p, f, s, step))
  {
    match step {
      case Tick(dt) =>
      case Join(_, _) =>
      case Insert(i) => InsertLeases(p, f, s, i);
      case Execute(i) => EffectLeases(p, f, s, i);
      case _ => LocalLeases(p, f, s, step);
    }
  }

  // ----- Progress -----

  lemma LocalProgress(p: Params, f: seq<int>, s: State, step: Step)
    requires Progress(f, s) && Enabled(p, f, s, step) && Local(step)
    ensures Progress(f, Apply(p, f, s, step))
  {
    var s' := Apply(p, f, s, step);
    assert Behind(f, s, s.runners[step.i]);
    forall k
      ensures Done(s', k) == Done(s, k)
    {
    }
    assert Behind(f, s', s'.runners[step.i]);
    forall j | 0 <= j < |s'.runners|
      ensures Behind(f, s', s'.runners[j])
    {
      if j != step.i {
        BehindKept(f, s, s', s.runners[j]);
      }
    }
  }

  /** A runner that joins skips exactly the numbers up to the watermark, all of which are completed. */
  lemma JoinProgress(p: Params, f: seq<int>, s: State, w: int, pos: nat)
    requires ValidFiles(f) && Progress(f, s) && Enabled(p, f, s, Join(w, pos))
    ensures Progress(f, Apply(p, f, s, Join(w, pos)))
  {
    var s' := Apply(p, f, s, Join(w, pos));
    forall a | 0 <= a < pos
      ensures Done(s, f[a])
    {
      assert f[a] > 0;
      assert exists k :: Done(s, k);
      var b :| 0 <= b < |f| && f[b] == w;
      assert a <= b;
    }
    forall j | 0 <= j < |s'.runners|
      ensures Behind(f, s', s'.runners[j])
    {
      if j < |s.runners| {
        BehindKept(f, s, s', s.runners[j]);
      }
    }
  }

  /** Completing the migration a runner is at extends the completed prefix by one. */
  lemma ExecuteProgress(p: Params, f: seq<int>, s: State, i: nat)
    requires ValidFiles(f) && Progress(f, s) && Enabled(p, f, s, Execute(i))
    ensures Progress(f, Apply(p, f, s, Execute(i)))
    ensures forall k :: Done(s, k) ==> Done(Apply(p, f, s, Execute(i)), k)
  {
    var s' := Apply(p, f, s, Execute(i));
    var pos := s.runners[i].pos;
    assert Behind(f, s, s.runners[i]);
    forall k
      ensures Done(s, k) ==> Done(s', k)
      ensures Done(s', k) ==> Done(s, k) || k == f[pos]
    {
    }
    forall a, b | 0 <= a < b < |f| && Done(s', f[b])
      ensures Done(s', f[a])
    {
      if !Done(s, f[b]) {
        assert b == pos;
      }
    }
    forall j | 0 <= j < |s'.runners|
      ensures Behind(f, s', s'.runners[j])
    {
      BehindKept(f, s, s', s.runners[j]);
    }
  }

  lemma StepProgress(p: Params, f: seq<int>, s: State, step: Step)
    requires ValidFiles(f) && Progress(f, s) && Enabled(p, f, s, step)
    ensures Progress(f, Apply(p, f, s, step))
    ensures forall k :: Done(s, k) ==> Done(Apply(p, f, s, step), k)
  {
    var s' := Apply(p, f, s, step);
    match step {
      case Tick(dt) =>
        forall j | 0 <= j < |s'.runners|
          ensures Behind(f, s', s'.runners[j])
        {
          BehindKept(f, s, s', s.runners[j]);
        }
      case Join(w, pos) => JoinProgress(p, f, s, w, pos);
      case Insert(i) =>
        forall j | 0 <= j < |s'.runners|
          ensures Behind(f, s', s'.runners[j])
        {
          BehindKept(f, s, s', s.runners[j]);
        }
      case Execute(i) => ExecuteProgress(p, f, s, i);
      case _ => LocalProgress(p, f, s, step);
    }
  }

  // ----- Theorems over every execution -----

  lemma {:induction false} ExecutionProgress(p: Params, f: seq<int>, states: seq<State>, m: nat, n: nat)
    requires ValidFiles(f) && Execution(p, f, states) && m <= n < |states|
    ensures Progress(f, states[m]) && Progress(f, states[n])
    ensures forall k :: Done(states[m], k) ==> Done(states[n], k)
    decreases n
  {
    if n > 0 {
      ExecutionProgress(p, f, states, if m < n then m else m - 1, n - 1);
      assert Transition(p, f, states[n - 1], states[n - 1 + 1]);
      var step :| Enabled(p, f, states[n - 1], step) && states[n] == Apply(p, f, states[n - 1], step);
      StepProgress(p, f, states[n - 1], step);
    }
  }

  lemma {:induction false} ExecutionLeases(p: Params, f: seq<int>, states: seq<State>, n: nat)
    requires ValidFiles(f) && Safe(p) && Execution(p, f, states) && n < |states|
    ensures Leases(p, f, states[n])
  {
    if n > 0 {
      ExecutionLeases(p, f, states, n - 1);
      assert Transition(p, f, states[n - 1], states[n - 1 + 1]);
      var step :| Enabled(p, f, states[n - 1], step) && states[n] == Apply(p, f, states[n - 1], step);
      StepLeases(p, f, states[n - 1], step);
    }
  }

  /** Whatever the timing: completed migrations are always a prefix of the list, completion never reverts, and a
      Migrate that returned nil leaves every file completed. */
  lemma CompletedInOrder(p: Params, f: seq<int>, states: seq<State>, m: nat, n: nat)
    requires ValidFiles(f) && Execution(p, f, states) && m <= n < |states|
    ensures forall a, b :: 0 <= a < b < |f| && Done(states[n], f[b]) ==> Done(states[n], f[a])
    ensures forall k :: Done(states[m], k) ==> Done(states[n], k)
    ensures forall i :: 0 <= i < |states[n].runners| && states[n].runners[i].phase == Over(true) ==>
      forall a :: 0 <= a < |f| ==> Done(states[n], f[a])
  {
    ExecutionProgress(p, f, states, m, n);
    forall i | 0 <= i < |states[n].runners| && states[n].runners[i].phase == Over(true)
      ensures forall a :: 0 <= a < |f| ==> Done(states[n], f[a])
    {
      assert Behind(f, states[n], states[n].runners[i]);
    }
  }

  /** Under safe timing a migration being executed is not completed, so none starts after it was. */
  lemma NoneRunsCompleted(p: Params, f: seq<int>, s: State, i: nat)
    requires ValidFiles(f) && Safe(p) && Reachable(p, f, s)
    requires i < |s.runners| && Executing(s.runners[i])
    ensures s.runners[i].pos < |f| && !Done(s, f[s.runners[i].pos])
  {
    var states :| Execution(p, f, states) && s == states[|states| - 1];
    ExecutionLeases(p, f, states, |states| - 1);
  }

  lemma SafeIsExclusive(p: Params, f: seq<int>, s: State)
    requires ValidFiles(f) && Safe(p) && Reachable(p, f, s)
    ensures Exclusive(s)
  {
    var states :| Execution(p, f, states) && s == states[|states| - 1];
    ExecutionLeases(p, f, states, |states| - 1);
  }

  // ----- The timing condition is exact -----

  lemma Extend(p: Params, f: seq<int>, s: State, step: Step)
    requires Reachable(p, f, s) && Enabled(p, f, s, step)
    ensures Reachable(p, f, Apply(p, f, s, step))
  {
    var states :| Execution(p, f, states) && s == states[|states| - 1];
    var s' := Apply(p, f, s, step);
    assert Transition(p, f, s, s');
    var states' := states + [s'];
    forall n | 0 <= n < |states'| - 1
      ensures Transition(p, f, states'[n], states'[n + 1])
    {
      if n < |states| - 1 {
        assert Transition(p, f, states[n], states[n + 1]);
      }
    }
    assert Execution(p, f, states');
  }

  /** Three runners at the first migration, two of which are about to lock it. */
  ghost function Trio(f: seq<int>, now: nat, lockedBefore: nat, phase: Phase): State
    requires f != []
  {
    State(now, map[f[0] := Row(false, lockedBefore)],
          [Runner(0, phase, true), Runner(0, Checked, true), Runner(0, Checked, true)])
  }

  lemma JoinFirst(p: Params, f: seq<int>, s: State)
    requires ValidFiles(f) && Reachable(p, f, s) && s.table == map[]
    ensures Reachable(p, f, s.(runners := s.runners + [Runner(0, Idle, true)]))
  {
    Extend(p, f, s, Join(0, 0));
  }

  lemma TrioReachable(p: Params, f: seq<int>)
    requires ValidFiles(f) && f != []
    ensures Reachable(p, f, Trio(f, 0, 0, Checked))
  {
    var idle, ready, there := Runner(0, Idle, true), Runner(0, Checked, true), map[f[0] := Row(false, 0)];
    var s0 := State(0, map[], []);
    assert Execution(p, f, [s0]) && [s0][|[s0]| - 1] == s0;
    JoinFirst(p, f, s0);
    JoinFirst(p, f, State(0, map[], [] + [idle]));
    JoinFirst(p, f, State(0, map[], [] + [idle] + [idle]));
    LineUp(p, f, State(0, map[], [] + [idle] + [idle] + [idle]), 0);
    assert ([] + [idle] + [idle] + [idle])[0 := ready] == [ready, idle, idle];
    LineUp(p, f, State(0, there, [ready, idle, idle]), 1);
    assert [ready, idle, idle][1 := ready] == [ready, ready, idle];
    LineUp(p, f, State(0, there, [ready, ready, idle]), 2);
    assert [ready, ready, idle][2 := ready] == [ready, ready, ready];
  }

  lemma TrioTick(p: Params, f: seq<int>, now: nat, locked: nat, phase: Phase, dt: nat)
    requires f != [] && Reachable(p, f, Trio(f, now, locked, phase)) && WithinBounds(p, phase, now + dt)
    ensures Reachable(p, f, Trio(f, now + dt, locked, phase))
  {
    Extend(p, f, Trio(f, now, locked, phase), Tick(dt));
  }

  /** The first runner's step, when it changes nothing but its phase. */
  lemma TrioStep(p: Params, f: seq<int>, now: nat, locked: nat, phase: Phase, step: Step, phase': Phase)
    requires f != [] && Reachable(p, f, Trio(f, now, locked, phase)) && Enabled(p, f, Trio(f, now, locked, phase), step)
    requires Apply(p, f, Trio(f, now, locked, phase), step) == Put(Trio(f, now, locked, phase), 0, phase')
    ensures Reachable(p, f, Trio(f, now, locked, phase'))
  {
    var s := Trio(f, now, locked, phase);
    Extend(p, f, s, step);
    assert Put(s, 0, phase') == Trio(f, now, locked, phase');
  }

  lemma LineUp(p: Params, f: seq<int>, s: State, i: nat)
    requires f != [] && Reachable(p, f, s) && i < |s.runners| && s.runners[i] == Runner(0, Idle, true)
    requires s.now == 0 && (s.table == map[] || s.table == map[f[0] := Row(false, 0)])
    ensures Reachable(p, f, State(0, map[f[0] := Row(false, 0)], s.runners[i := Runner(0, Checked, true)]))
  {
    Extend(p, f, s, Insert(i));
    var s1 := State(0, map[f[0] := Row(false, 0)], s.runners[i := Runner(0, Inserted, true)]);
    assert Apply(p, f, s, Insert(i)) == s1;
    Extend(p, f, s1, Look(i));
    assert s1.runners[i := Runner(0, Checked, true)] == s.runners[i := Runner(0, Checked, true)];
  }

  /** A runner in line locks the migration and starts executing it, at any time its row is free. */
  lemma TakeLock(p: Params, f: seq<int>, s: State, i: nat)
    requires f != [] && Reachable(p, f, s) && i < |s.runners| && s.runners[i] == Runner(0, Checked, true)
    requires f[0] in s.table && !s.table[f[0]].completed && s.table[f[0]].lockedBefore <= s.now
    ensures Reachable(p, f, State(s.now, s.table[f[0] := Row(false, s.now + LEASE)],
                                  s.runners[i := Runner(0, Locked(s.now, s.now), true)]))
  {
    Extend(p, f, s, IssueLock(i));
    var s1 := s.(runners := s.runners[i := Runner(0, Locking(s.now), true)]);
    assert Apply(p, f, s, IssueLock(i)) == s1;
    Extend(p, f, s1, Execute(i));
    var s2 := State(s.now, s.table[f[0] := Row(false, s.now + LEASE)],
                    s.runners[i := Runner(0, Locked(s.now, s.now), true)]);
    assert s1.runners[i := Runner(0, Locked(s.now, s.now), true)] ==
      s.runners[i := Runner(0, Locked(s.now, s.now), true)];
    assert Apply(p, f, s1, Execute(i)) == s2;
  }

  /** The slowest a runner can be: every statement takes the full latency, its renewal fails, and its run ends as late
      as a cancelled run may; its release is still in flight. */
  ghost function Late(p: Params, f: seq<int>): State
    requires f != []
  {
    var x := p.latency + RENEWAL + p.latency;
    Trio(f, x + p.cancel + p.latency, LEASE, Closing(0, x + p.cancel, false))
  }

  lemma LateReachable(p: Params, f: seq<int>)
    requires ValidFiles(f) && f != []
    ensures Reachable(p, f, Late(p, f))
  {
    var d, c := p.latency, p.cancel;
    TrioReachable(p, f);
    TakeLock(p, f, Trio(f, 0, 0, Checked), 0);
    assert Trio(f, 0, 0, Checked).table[f[0] := Row(false, 0 + LEASE)] == Trio(f, 0, LEASE, Locked(0, 0)).table;
    assert Trio(f, 0, 0, Checked).runners[0 := Runner(0, Locked(0, 0), true)] ==
      Trio(f, 0, LEASE, Locked(0, 0)).runners;
    TrioTick(p, f, 0, LEASE, Locked(0, 0), d);
    TrioStep(p, f, d, LEASE, Locked(0, 0), Answer(0, true), Running(0, d));
    TrioTick(p, f, d, LEASE, Running(0, d), RENEWAL);
    TrioStep(p, f, d + RENEWAL, LEASE, Running(0, d), RenewDue(0), Renewing(0, d + RENEWAL));
    TrioTick(p, f, d + RENEWAL, LEASE, Renewing(0, d + RENEWAL), d);
    LateRelease(p, f);
  }

  lemma LateRelease(p: Params, f: seq<int>)
    requires f != []
    requires Reachable(p, f, Trio(f, p.latency + RENEWAL + p.latency, LEASE, Renewing(0, p.latency + RENEWAL)))
    ensures Reachable(p, f, Late(p, f))
  {
    var d, c := p.latency, p.cancel;
    var x := d + RENEWAL + d;
    TrioStep(p, f, x, LEASE, Renewing(0, d + RENEWAL), Refuse(0), Cancelling(0, x));
    LateClose(p, f, x);
  }

  lemma LateClose(p: Params, f: seq<int>, x: nat)
    requires f != []
    requires Reachable(p, f, Trio(f, x, LEASE, Cancelling(0, x)))
    ensures Reachable(p, f, Trio(f, x + p.cancel + p.latency, LEASE, Closing(0, x + p.cancel, false)))
  {
    TrioTick(p, f, x, LEASE, Cancelling(0, x), p.cancel);
    TrioStep(p, f, x + p.cancel, LEASE, Cancelling(0, x), RunEnds(0, false), Closing(0, x + p.cancel, false));
    TrioTick(p, f, x + p.cancel, LEASE, Closing(0, x + p.cancel, false), p.latency);
  }

  /** Once the lease lapsed first, a second runner takes the migration; the late release, which checks no owner, frees
      it again; and a third runner takes it too. */
  lemma UnsafeIsNotExclusive(p: Params, f: seq<int>) returns (s: State)
    requires ValidFiles(f) && f != [] && !Safe(p)
    ensures Reachable(p, f, s) && !Exclusive(s)
  {
    LateReachable(p, f);
    var s0 := Late(p, f);
    var x := s0.now;
    assert x == RENEWAL + 3 * p.latency + p.cancel;
    TakeLock(p, f, s0, 1);
    var s1 := State(x, s0.table[f[0] := Row(false, x + LEASE)], s0.runners[1 := Runner(0, Locked(x, x), true)]);
    var s2 := FirstRunner(p, f, s1);
    s := SecondRunner(p, f, s2);
  }

  lemma FirstRunner(p: Params, f: seq<int>, s: State) returns (s': State)
    requires f != [] && Reachable(p, f, s) && |s.runners| == 3 && s.table.Keys == {f[0]} && !s.table[f[0]].completed
    requires s.runners[0].pos == 0 && s.runners[0].phase.Closing? && !s.runners[0].phase.success
    requires s.runners[1] == Runner(0, Locked(s.now, s.now), true) && s.runners[2] == Runner(0, Checked, true)
    ensures Reachable(p, f, s') && |s'.runners| == 3 && s'.table == map[f[0] := Row(false, s'.now)]
    ensures s'.runners[1] == Runner(0, Running(s'.now, s'.now), true) && s'.runners[2] == Runner(0, Checked, true)
  {
    Extend(p, f, s, Answer(1, true));
    var s1 := Apply(p, f, s, Answer(1, true));
    Extend(p, f, s1, Execute(0));
    s' := Apply(p, f, s1, Execute(0));
  }

  lemma SecondRunner(p: Params, f: seq<int>, s: State) returns (s': State)
    requires f != [] && Reachable(p, f, s) && |s.runners| == 3 && s.table == map[f[0] := Row(false, s.now)]
    requires s.runners[1] == Runner(0, Running(s.now, s.now), true) && s.runners[2] == Runner(0, Checked, true)
    ensures Reachable(p, f, s') && !Exclusive(s')
  {
    TakeLock(p, f, s, 2);
    var s1 := State(s.now, s.table[f[0] := Row(false, s.now + LEASE)],
                    s.runners[2 := Runner(0, Locked(s.now, s.now), true)]);
    Extend(p, f, s1, Answer(2, true));
    s' := Apply(p, f, s1, Answer(2, true));
    assert Executing(s'.runners[1]) && Executing(s'.runners[2]);
  }

  /** The migration lease is exclusive in every execution exactly when a renewal interval, three statement latencies and
      the time to cancel a run fit into one lease. */
  lemma ExclusiveIffTimely(p: Params, f: seq<int>)
    requires ValidFiles(f) && f != []
    ensures (forall s :: Reachable(p, f, s) ==> Exclusive(s)) <==> 5000 + 3 * p.latency + p.cancel < 15000
  {
    if Safe(p) {
      forall s | Reachable(p, f, s)
        ensures Exclusive(s)
      {
        SafeIsExclusive(p, f, s);
      }
    } else {
      var s := UnsafeIsNotExclusive(p, f);
    }
  }
}
