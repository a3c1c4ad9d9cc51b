/** What a Migrate that nothing goes wrong for does, and why one fails. */
module MigrationRuns {
  import opened Migration

  // ----- Scripts of steps -----

  /** Every step of a script can be taken when its turn comes. */
  ghost predicate Plays(p: Params, f: seq<int>, s: State, steps: seq<Step>)
    decreases |steps|
  {
    steps == [] || (Enabled(p, f, s, steps[0]) && Plays(p, f, Apply(p, f, s, steps[0]), steps[1..]))
  }

  ghost function Played(p: Params, f: seq<int>, s: State, steps: seq<Step>): State
    requires Plays(p, f, s, steps)
    decreases |steps|
  {
    if steps == [] then s else Played(p, f, Apply(p, f, s, steps[0]), steps[1..])
  }

  /** The migrations whose runs a script ends, in order. */
  ghost function Runs(p: Params, f: seq<int>, s: State, steps: seq<Step>): seq<nat>
    requires Plays(p, f, s, steps)
    decreases |steps|
  {
    if steps == [] then []
    else
      var ended := if steps[0].RunEnds? then [s.runners[steps[0].i].pos] else [];
      ended + Runs(p, f, Apply(p, f, s, steps[0]), steps[1..])
  }

  lemma {:induction false} PlayedOn(p: Params, f: seq<int>, s: State, a: seq<Step>, b: seq<Step>)
    requires Plays(p, f, s, a) && Plays(p, f, Played(p, f, s, a), b)
    ensures Plays(p, f, s, a + b) && Played(p, f, s, a + b) == Played(p, f, Played(p, f, s, a), b)
    ensures Runs(p, f, s, a + b) == Runs(p, f, s, a) + Runs(p, f, Played(p, f, s, a), b)
    decreases |a|
  {
    if a == [] {
      assert a + b == b;
    } else {
      assert (a + b)[1..] == a[1..] + b;
      PlayedOn(p, f, Apply(p, f, s, a[0]), a[1..], b);
    }
  }

  lemma {:induction false} PlayedReachable(p: Params, f: seq<int>, s: State, steps: seq<Step>)
    requires Plays(p, f, s, steps) && Reachable(p, f, s)
    ensures Reachable(p, f, Played(p, f, s, steps))
    decreases |steps|
  {
    if steps != [] {
      Extend(p, f, s, steps[0]);
      PlayedReachable(p, f, Apply(p, f, s, steps[0]), steps[1..]);
    }
  }

  // ----- One runner, every statement answered -----

  /** The table when the first n migrations are completed, at a time. */
  ghost function Completed(f: seq<int>, n: nat, now: nat): map<int, Row>
    requires n <= |f|
  {
    map k | k in f[..n] :: Row(true, now)
  }

  ghost function At(f: seq<int>, n: nat): State
    requires n <= |f|
  {
    State(0, Completed(f, n, 0), [Runner(n, Idle, true)])
  }

  /** Insert, look, lock, run, complete. */
  const ONE := [Insert(0), Look(0), IssueLock(0), Execute(0), Answer(0, true), RunEnds(0, true), Execute(0),
                Answer(0, true)]

  /** The table while migration n is worked on. */
  ghost function During(f: seq<int>, n: nat, row: Row): map<int, Row>
    requires n < |f|
  {
    Completed(f, n, 0)[f[n] := row]
  }

  ghost function Alone(f: seq<int>, n: nat, row: Row, phase: Phase): State
    requires n < |f|
  {
    State(0, During(f, n, row), [Runner(n, phase, true)])
  }

  lemma PlayOne(p: Params, f: seq<int>, s: State, step: Step, s': State, rest: seq<Step>)
    requires Enabled(p, f, s, step) && Apply(p, f, s, step) == s' && Plays(p, f, s', rest)
    ensures Plays(p, f, s, [step] + rest) && Played(p, f, s, [step] + rest) == Played(p, f, s', rest)
    ensures Runs(p, f, s, [step] + rest) ==
      (if step.RunEnds? then [s.runners[step.i].pos] else []) + Runs(p, f, s', rest)
  {
    assert ([step] + rest)[1..] == rest;
  }

  lemma OneMore(f: seq<int>, n: nat)
    requires ValidFiles(f) && n < |f|
    ensures f[n] !in Completed(f, n, 0) && During(f, n, Row(true, 0)) == Completed(f, n + 1, 0)
  {
    assert f[..n + 1] == f[..n] + [f[n]];
  }

  /** The lock is free when the row is new, and is the runner's until it completes the migration. */
  lemma Locks(p: Params, f: seq<int>, n: nat, rest: seq<Step>)
    requires n < |f| && Plays(p, f, Alone(f, n, Row(false, LEASE), Running(0, 0)), rest)
    ensures var s, steps := Alone(f, n, Row(false, 0), Checked), [IssueLock(0), Execute(0), Answer(0, true)] + rest;
      && Plays(p, f, s, steps)
      && Played(p, f, s, steps) == Played(p, f, Alone(f, n, Row(false, LEASE), Running(0, 0)), rest)
      && Runs(p, f, s, steps) == Runs(p, f, Alone(f, n, Row(false, LEASE), Running(0, 0)), rest)
  {
    var s1, s2 := Alone(f, n, Row(false, 0), Checked), Alone(f, n, Row(false, 0), Locking(0));
    var s3, s4 := Alone(f, n, Row(false, LEASE), Locked(0, 0)), Alone(f, n, Row(false, LEASE), Running(0, 0));
    assert During(f, n, Row(false, 0))[f[n] := Row(false, LEASE)] == During(f, n, Row(false, LEASE));
    PlayOne(p, f, s3, Answer(0, true), s4, rest);
    PlayOne(p, f, s2, Execute(0), s3, [Answer(0, true)] + rest);
    PlayOne(p, f, s1, IssueLock(0), s2, [Execute(0)] + ([Answer(0, true)] + rest));
    assert [IssueLock(0)] + ([Execute(0)] + ([Answer(0, true)] + rest))
      == [IssueLock(0), Execute(0), Answer(0, true)] + rest;
  }

  /** The good answer moves the runner on to the next migration. */
  lemma MovesOn(p: Params, f: seq<int>, n: nat)
    requires ValidFiles(f) && n < |f|
    ensures var s := Alone(f, n, Row(true, 0), Closed(0, true));
      Enabled(p, f, s, Answer(0, true)) && Apply(p, f, s, Answer(0, true)) == At(f, n + 1)
  {
    OneMore(f, n);
    assert [Runner(n, Closed(0, true), true)][0 := Runner(n + 1, Idle, true)] == [Runner(n + 1, Idle, true)];
  }

  lemma Ends(p: Params, f: seq<int>, n: nat)
    requires n < |f|
    ensures var mine := Row(false, LEASE);
      var (s1, s2) := (Alone(f, n, mine, Running(0, 0)), Alone(f, n, mine, Closing(0, 0, true)));
      && Enabled(p, f, s1, RunEnds(0, true)) && Apply(p, f, s1, RunEnds(0, true)) == s2
      && Enabled(p, f, s2, Execute(0)) && Apply(p, f, s2, Execute(0)) == Alone(f, n, Row(true, 0), Closed(0, true))
  {
    assert During(f, n, Row(false, LEASE))[f[n] := Row(true, 0)] == During(f, n, Row(true, 0));
  }

  lemma Closes(p: Params, f: seq<int>, n: nat)
    requires ValidFiles(f) && n < |f|
    ensures var s := Alone(f, n, Row(false, LEASE), Running(0, 0));
      var steps := [RunEnds(0, true), Execute(0), Answer(0, true)];
      Plays(p, f, s, steps) && Played(p, f, s, steps) == At(f, n + 1) && Runs(p, f, s, steps) == [n]
  {
    var s1, s2 := Alone(f, n, Row(false, LEASE), Running(0, 0)), Alone(f, n, Row(false, LEASE), Closing(0, 0, true));
    var s3 := Alone(f, n, Row(true, 0), Closed(0, true));
    MovesOn(p, f, n);
    Ends(p, f, n);
    PlayOne(p, f, s3, Answer(0, true), At(f, n + 1), []);
    PlayOne(p, f, s2, Execute(0), s3, [Answer(0, true)] + []);
    PlayOne(p, f, s1, RunEnds(0, true), s2, [Execute(0)] + ([Answer(0, true)] + []));
    assert [RunEnds(0, true)] + ([Execute(0)] + ([Answer(0, true)] + []))
      == [RunEnds(0, true), Execute(0), Answer(0, true)];
  }

  lemma Migrates(p: Params, f: seq<int>, n: nat)
    requires ValidFiles(f) && n < |f|
    ensures Plays(p, f, At(f, n), ONE) && Played(p, f, At(f, n), ONE) == At(f, n + 1)
    ensures Runs(p, f, At(f, n), ONE) == [n]
  {
    var last := [RunEnds(0, true), Execute(0), Answer(0, true)];
    var mid := [IssueLock(0), Execute(0), Answer(0, true)] + last;
    var s1, s2 := Alone(f, n, Row(false, 0), Inserted), Alone(f, n, Row(false, 0), Checked);
    OneMore(f, n);
    Closes(p, f, n);
    Locks(p, f, n, last);
    PlayOne(p, f, s1, Look(0), s2, mid);
    PlayOne(p, f, At(f, n), Insert(0), s1, [Look(0)] + mid);
    assert [Insert(0)] + ([Look(0)] + mid) == ONE;
  }

  function Range(lo: nat, hi: nat): seq<nat>
    decreases hi - lo
  {
    if lo >= hi then [] else [lo] + Range(lo + 1, hi)
  }

  lemma {:induction false} RangeIs(lo: nat, hi: nat)
    requires lo <= hi
    ensures Range(lo, hi) == seq(hi - lo, i requires 0 <= i < hi - lo => lo + i)
    decreases hi - lo
  {
    if lo < hi {
      RangeIs(lo + 1, hi);
    }
  }

  /** A script, k times over. */
  function Times(k: nat, one: seq<Step>): seq<Step> {
    if k == 0 then [] else one + Times(k - 1, one)
  }

  /** The script migrates whichever file the runner is at. */
  ghost predicate Round(p: Params, f: seq<int>, n: nat, one: seq<Step>)
    requires n < |f|
  {
    Plays(p, f, At(f, n), one) && Played(p, f, At(f, n), one) == At(f, n + 1) && Runs(p, f, At(f, n), one) == [n]
  }

  lemma {:induction false} MigratesAll(p: Params, f: seq<int>, n: nat, one: seq<Step>)
    requires n <= |f| && forall m: nat :: m < |f| ==> Round(p, f, m, one)
    ensures Plays(p, f, At(f, n), Times(|f| - n, one)) && Played(p, f, At(f, n), Times(|f| - n, one)) == At(f, |f|)
    ensures Runs(p, f, At(f, n), Times(|f| - n, one)) == Range(n, |f|)
    decreases |f| - n
  {
    if n < |f| {
      assert Round(p, f, n, one);
      MigratesAll(p, f, n + 1, one);
      RoundMore(p, f, n, one, Times(|f| - n - 1, one));
    }
  }

  lemma RoundMore(p: Params, f: seq<int>, n: nat, one: seq<Step>, rest: seq<Step>)
    requires n < |f| && Plays(p, f, At(f, n), one) && Played(p, f, At(f, n), one) == At(f, n + 1)
    requires Runs(p, f, At(f, n), one) == [n] && Plays(p, f, At(f, n + 1), rest)
    requires Runs(p, f, At(f, n + 1), rest) == Range(n + 1, |f|)
    ensures Plays(p, f, At(f, n), one + rest) && Runs(p, f, At(f, n), one + rest) == Range(n, |f|)
    ensures Played(p, f, At(f, n), one + rest) == Played(p, f, At(f, n + 1), rest)
  {
    PlayedOn(p, f, At(f, n), one, rest);
  }

  ghost function Finished(f: seq<int>): State {
    State(0, Completed(f, |f|, 0), [Runner(|f|, Over(true), true)])
  }

  lemma MigrateReturns(p: Params, f: seq<int>)
    requires ValidFiles(f)
    ensures var steps := Times(|f|, ONE) + [Return(0)];
      && Plays(p, f, At(f, 0), steps) && Played(p, f, At(f, 0), steps) == Finished(f)
      && Runs(p, f, At(f, 0), steps) == Range(0, |f|)
  {
    forall m: nat | m < |f|
      ensures Round(p, f, m, ONE)
    {
      Migrates(p, f, m);
    }
    MigratesAll(p, f, 0, ONE);
    assert [Runner(|f|, Idle, true)][0 := Runner(|f|, Over(true), true)] == [Runner(|f|, Over(true), true)];
    PlayOne(p, f, At(f, |f|), Return(0), Finished(f), []);
    assert [Return(0)] + [] == [Return(0)];
    PlayedOn(p, f, At(f, 0), Times(|f|, ONE), [Return(0)]);
  }

  lemma MigrateStarts(p: Params, f: seq<int>)
    requires ValidFiles(f)
    ensures var s0 := State(0, map[], []);
      && Init(f, s0) && Reachable(p, f, s0) && Enabled(p, f, s0, Join(0, 0)) && Apply(p, f, s0, Join(0, 0)) == At(f, 0)
  {
    var s0 := State(0, map[], []);
    assert Execution(p, f, [s0]) && [s0][|[s0]| - 1] == s0;
    assert Completed(f, 0, 0) == map[];
  }

  /** A Migrate for which every statement is answered executes every migration once, in order, and returns nil with all
      of them completed. */
  lemma MigrateSucceeds(p: Params, f: seq<int>)
    requires ValidFiles(f)
    ensures var (s0, steps) := (State(0, map[], []), [Join(0, 0)] + (Times(|f|, ONE) + [Return(0)]));
      && Init(f, s0) && Plays(p, f, s0, steps)
      && Runs(p, f, s0, steps) == seq(|f|, i requires 0 <= i < |f| => i)
      && var s := Played(p, f, s0, steps);
        && Reachable(p, f, s) && s.runners == [Runner(|f|, Over(true), true)]
        && forall k :: k in f ==> Done(s, k)
  {
    var s0, rest := State(0, map[], []), Times(|f|, ONE) + [Return(0)];
    MigrateStarts(p, f);
    MigrateReturns(p, f);
    RangeIs(0, |f|);
    PlayOne(p, f, s0, Join(0, 0), At(f, 0), rest);
    PlayedReachable(p, f, s0, [Join(0, 0)] + rest);
    assert f[..|f|] == f;
  }

  // ----- Why a Migrate fails -----

  /** Something went wrong for runner i: a statement was refused or badly answered, its run failed, or it crashed. */
  predicate Fault(step: Step, i: nat) {
    step == Refuse(i) || step == Answer(i, false) || step == RunEnds(i, false) || step == Crash(i) || step == Drop(i)
  }

  /** A runner that is not on its way to failing. */
  ghost predicate Sound(s: State, i: nat) {
    i >= |s.runners| ||
    (var r := s.runners[i];
      && r.alive && r.phase != Over(false) && !r.phase.Cancelling?
      && (r.phase.Closing? || r.phase.Closed? ==> r.phase.success))
  }

  lemma SoundStep(p: Params, f: seq<int>, s: State, step: Step, i: nat)
    requires Sound(s, i) && Enabled(p, f, s, step) && !Fault(step, i)
    ensures Sound(Apply(p, f, s, step), i)
  {
  }

  /** Migrate fails only because of such a step. */
  lemma {:induction false} FailsByFault(p: Params, f: seq<int>, s: State, steps: seq<Step>, i: nat)
    requires Plays(p, f, s, steps) && Sound(s, i)
    requires i < |Played(p, f, s, steps).runners| && Played(p, f, s, steps).runners[i].phase == Over(false)
    ensures exists n :: 0 <= n < |steps| && Fault(steps[n], i)
    decreases |steps|
  {
    if steps != [] && !Fault(steps[0], i) {
      SoundStep(p, f, s, steps[0], i);
      FailsByFault(p, f, Apply(p, f, s, steps[0]), steps[1..], i);
      var n :| 0 <= n < |steps| - 1 && Fault(steps[1..][n], i);
      assert Fault(steps[n + 1], i);
    }
  }
}
