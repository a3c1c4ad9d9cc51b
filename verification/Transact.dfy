/** DB.Transact: attempts, what one attempt commits, and the retry loop. */
module Transact {
  import opened Errors
  import opened Session
  import opened SessionSafety
  import opened SessionEquivalence
  import opened Faults
  import opened Outcomes

  const MAX_ATTEMPTS: nat := 8

  /** How the closure itself ended. */
  datatype Exit = Returned(err: Option<Error>) | Threw

  /** One attempt as its surroundings decide it: whether the transaction begins, whether SQL Server accepts SET
      XACT_ABORT, what the closure calls and how it ends, and what the driver answers to COMMIT and ROLLBACK. */
  datatype Attempt = Attempt(
    world: World,
    begin: Option<Error>,
    xactAbort: Option<Error>,
    script: seq<Op>,
    exit: Exit,
    commit: CommitOutcome,
    rollback: Option<Error>)

  datatype Verdict = Success | Aborted(err: Error) | Unwinding

  /** What the database and the pool see of an attempt, in order: the transaction begins, a finalization reaches the
      database, and the held connection goes back to the pool, with the transaction as it is then. */
  datatype Event = Began | Sent(op: Final) | Released(tx: Tx)

  datatype Trail = Trail(verdict: Verdict, events: seq<Event>, state: State)

  lemma RunWellFormed(w: World, conn: bool, ops: seq<Op>)
    ensures Inv(Run(w, Begun(true, conn), ops).0)
  {
    BegunInv(true, conn);
    RunInv(w, Begun(true, conn), ops);
  }

  // ----- One attempt -----

  /** The checks after the closure returned, and the COMMIT. */
  function Conclude(s: State, a: Attempt): (out: (Verdict, State))
    ensures WellFormed(s) ==> WellFormed(out.1)
  {
    if a.exit.Threw? then (Unwinding, s)
    else if a.exit.err.Some? then (Aborted(TraceErr(a.exit.err.value)), s)
    else if s.core.err.Some? then (Aborted(TraceErr(s.core.err.value)), s)
    else if BatchPending(s.tx).Some? then (Aborted(BatchPending(s.tx).value), s)
    else
      var (s1, e) := CommitTx(s, a.commit);
      (if e.Some? then Aborted(TraceErr(e.value)) else Success, s1)
  }

  /** Everything before the deferred functions: what the body of transactOnce returns and the state it leaves. */
  function Body(conn: bool, a: Attempt): (out: (Verdict, State))
    ensures WellFormed(out.1)
  {
    RunWellFormed(a.world, conn, a.script);
    if a.xactAbort.Some? then (Aborted(TraceErr(a.xactAbort.value)), Begun(true, conn))
    else Conclude(Run(a.world, Begun(true, conn), a.script).0, a)
  }

  /** The functions transactOnce defers. */
  datatype Deferred = CloseConn | RollbackUnlessCommitted

  /** A call of transactOnce: the functions deferred so far, whether it set committed, and what happened. */
  datatype Frame = Frame(deferred: seq<Deferred>, committed: bool, state: State, events: seq<Event>)

  function SentAll(finals: seq<Final>): seq<Event> {
    seq(|finals|, i requires 0 <= i < |finals| => Sent(finals[i]))
  }

  /** The events so far and the finalizations that reached the database since. */
  function Noted(events: seq<Event>, before: Tx, after: Tx): seq<Event>
    requires |before.finals| <= |after.finals|
  {
    events + SentAll(after.finals[|before.finals|..])
  }

  function RunDeferred(d: Deferred, f: Frame, rollback: Option<Error>): (out: Frame)
    requires WellFormed(f.state)
    ensures WellFormed(out.state) && out.deferred == f.deferred
  {
    match d
    case CloseConn => f.(events := f.events + [Released(f.state.tx)])
    case RollbackUnlessCommitted =>
      if f.committed then f
      else
        var s := RollbackTx(f.state, rollback).0;
        f.(state := s, events := Noted(f.events, f.state.tx, s.tx))
  }

  /** The deferred functions run last in, first out, whether the call returns or unwinds. */
  function Unwind(f: Frame, rollback: Option<Error>): Frame
    requires WellFormed(f.state)
    decreases |f.deferred|
  {
    if f.deferred == [] then f
    else
      var top := |f.deferred| - 1;
      Unwind(RunDeferred(f.deferred[top], f.(deferred := f.deferred[..top]), rollback), rollback)
  }

  /** DB.transactOnce: with a held connection its Close is deferred before the rollback is. */
  function TransactOnce(conn: bool, a: Attempt): Trail {
    if a.begin.Some? then Trail(Aborted(TraceErr(a.begin.value)), [], Begun(true, conn))
    else
      var deferred := (if conn then [CloseConn] else []) + [RollbackUnlessCommitted];
      var (verdict, s) := Body(conn, a);
      var events := Noted([Began], Begun(true, conn).tx, s.tx);
      var f := Unwind(Frame(deferred, verdict.Success?, s, events), a.rollback);
      Trail(verdict, f.events, f.state)
  }

  lemma BodyInv(conn: bool, a: Attempt)
    ensures Inv(Body(conn, a).1)
  {
    BegunInv(true, conn);
    RunWellFormed(a.world, conn, a.script);
    CommitInv(Run(a.world, Begun(true, conn), a.script).0, a.commit);
  }

  // ----- The end of an attempt -----

  lemma UnwindStep(deferred: seq<Deferred>, d: Deferred, f: Frame, rollback: Option<Error>)
    requires WellFormed(f.state) && f.deferred == deferred + [d]
    ensures Unwind(f, rollback) == Unwind(RunDeferred(d, f.(deferred := deferred), rollback), rollback)
  {
    assert f.deferred[..|f.deferred| - 1] == deferred;
  }

  /** The rollback first, then the release. */
  lemma UnwindsInOrder(conn: bool, f: Frame, rollback: Option<Error>)
    requires WellFormed(f.state) && f.deferred == (if conn then [CloseConn] else []) + [RollbackUnlessCommitted]
    ensures var f1 := RunDeferred(RollbackUnlessCommitted, f, rollback);
      && Unwind(f, rollback).state == f1.state
      && Unwind(f, rollback).events == f1.events + if conn then [Released(f1.state.tx)] else []
  {
    var below: seq<Deferred> := if conn then [CloseConn] else [];
    UnwindStep(below, RollbackUnlessCommitted, f, rollback);
    var f1 := RunDeferred(RollbackUnlessCommitted, f.(deferred := below), rollback);
    if conn {
      assert below == [] + [CloseConn];
      UnwindStep([], CloseConn, f1, rollback);
    } else {
      assert f1.events + [] == f1.events;
    }
  }

  lemma RollbackEnds(s: State, fault: Option<Error>)
    requires Inv(s)
    ensures var s' := RollbackTx(s, fault).0;
      && Inv(s') && s'.tx.ended && s'.tx.log == s.tx.log
      && (s.tx.ended ==> s'.tx.finals == s.tx.finals && s'.tx.done == s.tx.done)
      && (!s.tx.ended ==> s'.tx.finals == [Rollback])
  {
    RollbackInv(s, fault);
  }

  /** What an attempt leaves: the body's state, rolled back unless it committed. */
  lemma OnceLeaves(conn: bool, a: Attempt)
    requires a.begin.None?
    ensures var ((verdict, s), t) := (Body(conn, a), TransactOnce(conn, a));
      && t.verdict == verdict && Inv(s) && Inv(t.state) && t.state.tx.log == s.tx.log
      && t.state == (if verdict.Success? then s else RollbackTx(s, a.rollback).0)
      && t.events == Noted([Began], Begun(true, conn).tx, t.state.tx) + if conn then [Released(t.state.tx)] else []
  {
    var (verdict, s) := Body(conn, a);
    var deferred := (if conn then [CloseConn] else []) + [RollbackUnlessCommitted];
    var f := Frame(deferred, verdict.Success?, s, Noted([Began], Begun(true, conn).tx, s.tx));
    BodyInv(conn, a);
    UnwindsInOrder(conn, f, a.rollback);
    RollbackEnds(s, a.rollback);
    if !verdict.Success? {
      NotedOn(Begun(true, conn).tx, s.tx, RollbackTx(s, a.rollback).0.tx);
    }
  }

  lemma NotedOn(t0: Tx, t1: Tx, t2: Tx)
    requires t0.finals == [] && t1.finals <= t2.finals
    ensures Noted(Noted([Began], t0, t1), t1, t2) == Noted([Began], t0, t2)
  {
  }

  lemma ConcludeEnds(s: State, a: Attempt)
    requires Inv(s)
    ensures var (v, s') := Conclude(s, a);
      Inv(s') && s.tx.finals <= s'.tx.finals && (v.Success? ==> s'.tx.done && s'.tx.finals == [Commit])
  {
    CommitInv(s, a.commit);
  }

  /** When an attempt is over its transaction has ended, by exactly one finalization that reached the database, and
      only then is a held connection released: whatever the closure did, returning or panicking. */
  lemma ReleasedAfterItsEnd(conn: bool, a: Attempt)
    requires a.begin.None?
    ensures var t := TransactOnce(conn, a);
      && t.state.tx.ended && |t.state.tx.finals| == 1
      && t.events == [Began, Sent(t.state.tx.finals[0])] + if conn then [Released(t.state.tx)] else []
  {
    OnceLeaves(conn, a);
    BodyEnds(conn, a);
    RollbackEnds(Body(conn, a).1, a.rollback);
    NotedOnce(Begun(true, conn).tx, TransactOnce(conn, a).state.tx);
  }

  lemma BodyEnds(conn: bool, a: Attempt)
    ensures var (v, s) := Body(conn, a);
      Inv(s) && (v.Success? ==> s.tx.done && s.tx.finals == [Commit])
  {
    RunWellFormed(a.world, conn, a.script);
    ConcludeEnds(Run(a.world, Begun(true, conn), a.script).0, a);
    BegunInv(true, conn);
  }

  lemma NotedOnce(t0: Tx, t1: Tx)
    requires t0.finals == []
    ensures |t1.finals| == 1 ==> Noted([Began], t0, t1) == [Began, Sent(t1.finals[0])]
  {
  }

  lemma ConcludeFails(s: State, a: Attempt)
    requires Inv(s) && !s.tx.ended
    ensures var (v, s') := Conclude(s, a);
      !v.Success? && s'.tx.ended ==> s'.tx.finals == [Commit] && !s'.tx.done && a.commit.Reached? && a.commit.err.Some?
  {
  }

  /** An attempt that failed was rolled back, unless its COMMIT reached the database and failed there. */
  lemma FailedIsRolledBack(conn: bool, a: Attempt)
    requires a.begin.None? && !Finalized(a.script) && !TransactOnce(conn, a).verdict.Success?
    ensures var tx := TransactOnce(conn, a).state.tx;
      || tx.finals == [Rollback]
      || (tx.finals == [Commit] && !tx.done && a.commit.Reached? && a.commit.err.Some?)
  {
    OnceLeaves(conn, a);
    RollbackEnds(Body(conn, a).1, a.rollback);
    if a.xactAbort.None? {
      BegunInv(true, conn);
      RunAlive(a.world, Begun(true, conn), a.script);
      ConcludeFails(Run(a.world, Begun(true, conn), a.script).0, a);
    }
  }

  /** Transact's answer is the truth: nil exactly when a COMMIT reached the database and succeeded. */
  lemma SuccessMeansCommitted(conn: bool, a: Attempt)
    requires !Finalized(a.script)
    ensures var t := TransactOnce(conn, a);
      t.verdict.Success? <==> t.state.tx.done && t.state.tx.finals == [Commit]
  {
    if a.begin.None? {
      OnceLeaves(conn, a);
      BodyEnds(conn, a);
      if !TransactOnce(conn, a).verdict.Success? {
        FailedIsRolledBack(conn, a);
        assert [Rollback][0] != [Commit][0];
      }
    }
  }

  // ----- The error Transact answers -----

  /** The verdict is the failure of this cause. */
  predicate Caused(v: Verdict, e: Error) {
    v.Aborted? && v.err.root == e.root
  }

  /** The closure was called. */
  predicate Called(a: Attempt) {
    a.begin.None? && a.xactAbort.None?
  }

  /** The error an attempt answers: of the first of these that failed - the begin, SET XACT_ABORT, the closure itself,
      its operations, in what they recorded, a pending batch, or the COMMIT. */
  lemma TransactAnswers(conn: bool, a: Attempt)
    ensures var (v, s) := (TransactOnce(conn, a).verdict, Run(a.world, Begun(true, conn), a.script).0);
      && (a.begin.Some? ==> Caused(v, a.begin.value))
      && (a.begin.None? && a.xactAbort.Some? ==> Caused(v, a.xactAbort.value))
      && (Called(a) && a.exit.Threw? ==> v.Unwinding?)
      && (Called(a) && a.exit.Returned? && a.exit.err.Some? ==> Caused(v, a.exit.err.value))
      && (Called(a) && a.exit == Returned(None) ==> Concludes(s, a.commit, v))
  {
    if a.begin.None? {
      OnceLeaves(conn, a);
      BodyAnswers(conn, a);
    }
  }

  lemma BodyAnswers(conn: bool, a: Attempt)
    requires a.begin.None?
    ensures var (v, s) := (Body(conn, a).0, Run(a.world, Begun(true, conn), a.script).0);
      && (a.xactAbort.Some? ==> Caused(v, a.xactAbort.value))
      && (Called(a) && a.exit.Threw? ==> v.Unwinding?)
      && (Called(a) && a.exit.Returned? && a.exit.err.Some? ==> Caused(v, a.exit.err.value))
      && (Called(a) && a.exit == Returned(None) ==> Concludes(s, a.commit, v))
  {
    RunWellFormed(a.world, conn, a.script);
    ConcludeAnswers(Run(a.world, Begun(true, conn), a.script).0, a);
  }

  lemma ConcludeAnswers(s: State, a: Attempt)
    ensures var v := Conclude(s, a).0;
      && (a.exit.Threw? ==> v.Unwinding?)
      && (a.exit.Returned? && a.exit.err.Some? ==> Caused(v, a.exit.err.value))
      && (a.exit == Returned(None) ==> Concludes(s, a.commit, v))
  {
  }

  /** After a closure that returned nil. */
  predicate Concludes(s: State, commit: CommitOutcome, v: Verdict) {
    if s.core.err.Some? then Caused(v, s.core.err.value)
    else if s.tx.misuse.Some? then Caused(v, s.tx.misuse.value)
    else if s.tx.unsent > 0 then Caused(v, New(NeverSent))
    else if s.tx.open.Some? then Caused(v, New(NeverClosed))
    else if s.tx.ended || s.tx.done then Caused(v, New(TxDone))
    else match commit
      case Cancelled(e) => Caused(v, e)
      case Reached(e) => if e.Some? then Caused(v, e.value) else v.Success?
  }

  // ----- No partial commit -----

  lemma BegunFine(w: World, conn: bool)
    ensures Inv(Begun(true, conn)) && !Stuck(Begun(true, conn)) && Accounted(w, Begun(true, conn))
  {
    BegunInv(true, conn);
  }

  /** A script that ends nothing leaves a transaction that commits exactly when none of its operations met an error and
      no batch is pending. */
  lemma CommittableIff(w: World, conn: bool, ops: seq<Op>)
    requires !Finalized(ops)
    ensures var s := Run(w, Begun(true, conn), ops).0;
      && Inv(s) && !s.tx.ended
      && (s.core.err.None? && BatchPending(s.tx).None? <==>
            BatchPending(s.tx).None? && forall i: nat :: !MetAt(w, Begun(true, conn), ops, i))
      && (s.core.err.None? && BatchPending(s.tx).None? ==> !Stuck(s))
  {
    BegunFine(w, conn);
    RunAlive(w, Begun(true, conn), ops);
    StuckIffMet(w, Begun(true, conn), ops);
  }

  /** transactOnce commits exactly when the transaction began, the closure returned nil, no operation of it met an
      error, whatever the closure looked at, no batch is pending, and the database accepts the COMMIT. */
  lemma CommitsIff(conn: bool, a: Attempt)
    requires !Finalized(a.script)
    ensures TransactOnce(conn, a).verdict.Success? <==>
      && a.begin.None? && a.xactAbort.None? && a.exit == Returned(None)
      && (forall i: nat :: !MetAt(a.world, Begun(true, conn), a.script, i))
      && BatchPending(Run(a.world, Begun(true, conn), a.script).0.tx).None?
      && a.commit == Reached(None)
  {
    CommittableIff(a.world, conn, a.script);
    BodyCommitsIff(conn, a);
    if a.begin.None? {
      OnceLeaves(conn, a);
    }
  }

  lemma BodyCommitsIff(conn: bool, a: Attempt)
    requires !Run(a.world, Begun(true, conn), a.script).0.tx.ended && Inv(Run(a.world, Begun(true, conn), a.script).0)
    ensures var s := Run(a.world, Begun(true, conn), a.script).0;
      Body(conn, a).0.Success? <==>
        && a.xactAbort.None? && a.exit == Returned(None) && s.core.err.None? && BatchPending(s.tx).None?
        && a.commit == Reached(None)
  {
    RunWellFormed(a.world, conn, a.script);
  }

  /** The state the script of an attempt that commits leaves. */
  lemma CommittedRun(conn: bool, a: Attempt)
    requires !Finalized(a.script) && TransactOnce(conn, a).verdict.Success?
    ensures var s, t := Run(a.world, Begun(true, conn), a.script).0, TransactOnce(conn, a).state;
      && Inv(s) && s.core.autoErr && s.core.err.None? && !s.tx.ended && BatchPending(s.tx).None? && !Stuck(s)
      && t.tx.log == s.tx.log && t.tx.finals == [Commit]
  {
    CommittableIff(a.world, conn, a.script);
    RunOpenEnded(a.world, conn, a.script);
    OnceLeaves(conn, a);
    BodyCommits(conn, a);
  }

  lemma RunOpenEnded(w: World, conn: bool, ops: seq<Op>)
    requires !Finalized(ops)
    ensures var s := Run(w, Begun(true, conn), ops).0; Inv(s) && s.core.autoErr && !s.tx.ended
  {
    BegunInv(true, conn);
    RunAlive(w, Begun(true, conn), ops);
  }

  lemma BodyCommits(conn: bool, a: Attempt)
    requires Body(conn, a).0.Success?
    ensures var s, s' := Run(a.world, Begun(true, conn), a.script).0, Body(conn, a).1;
      && s.core.err.None? && BatchPending(s.tx).None? && s'.tx.log == s.tx.log && s'.tx.finals == [Commit]
  {
    RunWellFormed(a.world, conn, a.script);
    ConcludeCommits(Run(a.world, Begun(true, conn), a.script).0, a);
  }

  lemma ConcludeCommits(s: State, a: Attempt)
    requires Inv(s) && Conclude(s, a).0.Success?
    ensures var s' := Conclude(s, a).1;
      s.core.err.None? && BatchPending(s.tx).None? && s'.tx.log == s.tx.log && s'.tx.finals == [Commit]
  {
    ConcludeEnds(s, a);
  }

  lemma WholeBatch(w: World, conn: bool, ops: seq<Op>, b: nat)
    requires var s := Run(w, Begun(true, conn), ops).0;
      Inv(s) && s.core.autoErr && s.core.err.None? && !s.tx.ended && BatchPending(s.tx).None? && !Stuck(s)
    requires !Finalized(ops)
    ensures var s := Run(w, Begun(true, conn), ops).0;
      |s.batches| == Made(ops) && (b < |s.batches| ==> Whole(s, b, Queued(ops, b, 0)))
  {
    var s := Run(w, Begun(true, conn), ops).0;
    BegunFine(w, conn);
    RunQueued(w, Begun(true, conn), ops, b);
    if b < |s.batches| {
      AllSent(s, b);
    }
  }

  /** The commit of an attempt is whole: every batch has exactly the statements the closure queued to it, and they ran
      once each, in queue order, with no other statement between them; every statement of the log succeeded, rows and
      all, if and only if no failure waits in a Row or behind rows that were not read to their end, and the failure of a
      statement that failed waits in such a place. */
  lemma CommitIsWhole(conn: bool, a: Attempt)
    requires !Finalized(a.script) && TransactOnce(conn, a).verdict.Success?
    ensures var s, t := Run(a.world, Begun(true, conn), a.script).0, TransactOnce(conn, a).state;
      && t.tx.log == s.tx.log && t.tx.finals == [Commit]
      && |s.batches| == Made(a.script)
      && (forall b: nat :: b < |s.batches| ==> Whole(s, b, Queued(a.script, b, 0)))
      && ((forall j: nat :: !FailedAt(a.world, t.tx.log, j)) <==> forall at :: !Waits(s, at))
      && (forall j: nat :: FailedAt(a.world, t.tx.log, j) ==> exists at :: Holds(a.world, s, at, j))
  {
    var s := Run(a.world, Begun(true, conn), a.script).0;
    CommittedRun(conn, a);
    CommittedLog(a.world, conn, a.script);
    WholeBatch(a.world, conn, a.script, 0);
    forall b: nat | b < |s.batches|
      ensures Whole(s, b, Queued(a.script, b, 0))
    {
      WholeBatch(a.world, conn, a.script, b);
    }
  }

  lemma CommittedLog(w: World, conn: bool, ops: seq<Op>)
    requires !Finalized(ops) && WellFormed(Run(w, Begun(true, conn), ops).0) && !Stuck(Run(w, Begun(true, conn), ops).0)
    ensures var s := Run(w, Begun(true, conn), ops).0;
      && Accounted(w, s)
      && ((forall j: nat :: !FailedAt(w, s.tx.log, j)) <==> forall at :: !Waits(s, at))
  {
    BegunFine(w, conn);
    RunAccounted(w, Begun(true, conn), ops);
    AllSucceededIff(w, Run(w, Begun(true, conn), ops).0);
  }

  /** Batch b holds these statements, and they are one block of the log. */
  ghost predicate Whole(s: State, b: nat, stmts: seq<Stmt>) {
    && b < |s.batches| && Statements(s.batches[b].items) == stmts
    && (stmts != [] ==> s.batches[b].sent && IsBlock(s.tx.log, b, s.batches[b].items))
  }

  lemma AllSent(s: State, b: nat)
    requires Inv(s) && s.core.autoErr && s.core.err.None? && !s.tx.ended && BatchPending(s.tx).None? && b < |s.batches|
    ensures s.batches[b].items != [] ==> s.batches[b].sent && IsBlock(s.tx.log, b, s.batches[b].items)
  {
    UnsentZero(s.batches, b);
    assert !IsOpen(s, b);
  }

  /** The Rows that were left holding a failure by an attempt that commits: never scanned and never asked, unless the
      failure is a missing row, or an error behind the first row that Scan closed before. */
  lemma CommitLeavesFailedRowsAlone(conn: bool, a: Attempt, i: nat, h: nat)
    requires !Finalized(a.script) && TransactOnce(conn, a).verdict.Success?
    requires i < |a.script| && Inspects(a.script[i], h)
    requires h < |StateAt(a.world, Begun(true, conn), a.script, i).plain|
    ensures var s := Run(a.world, Begun(true, conn), a.script).0;
      h < |s.plain| && LookedAt(s.plain[h], a.script[i])
  {
    CommittedRun(conn, a);
    BegunFine(a.world, conn);
    FailedRowLeftAlone(a.world, Begun(true, conn), a.script, i, h);
  }

  /** What a closure was shown by the time it commits: nothing but missing rows, reads past or after the results,
      errors of statements that another transaction refused to bind, and what closing a Rows reports. */
  lemma CommitShows(conn: bool, a: Attempt, i: nat)
    requires !Finalized(a.script) && TransactOnce(conn, a).verdict.Success? && i < |a.script|
    ensures var s0 := Begun(true, conn);
      Tolerable(Run(a.world, s0, a.script).1[i]) || PassesThrough(StateAt(a.world, s0, a.script, i), a.script[i])
  {
    CommittedRun(conn, a);
    BegunFine(a.world, conn);
    ShownInRun(a.world, Begun(true, conn), a.script, i);
  }

  /** A server that answers everything alike. */
  function Always(outcome: Outcome): World {
    World((_, _) => outcome, (_, _) => None, (_, _) => None, (_, _) => None)
  }

  function Failing(): World {
    Always(Fail(New(Root.Failure(0))))
  }

  function Calls(w: World, script: seq<Op>): Attempt {
    Attempt(w, None, None, script, Returned(None), Reached(None), None)
  }

  /** An attempt whose script leaves nothing recorded and nothing pending commits what it ran. */
  lemma CallsCommit(w: World, script: seq<Op>)
    requires !Finalized(script)
    requires var s := Run(w, Begun(true, false), script).0; s.core.err.None? && BatchPending(s.tx).None?
    ensures var t := TransactOnce(false, Calls(w, script));
      t.verdict.Success? && t.state.tx.log == Run(w, Begun(true, false), script).0.tx.log
  {
    RunOpenEnded(w, false, script);
    OnceLeaves(false, Calls(w, script));
  }

  /** The first place where a failure can wait: a Row that is never scanned, be it of a statement that fails at once or
      of one with an error behind its rows. */
  lemma UnscannedRowCommits(bad: Stmt, outcome: Outcome) returns (a: Attempt)
    requires bad.unpack.None? && !bad.panics && (outcome.Fail? || outcome.tail.Some?)
    ensures a.script == [OpQueryRow(bad, Directly)] && !Finalized(a.script)
    ensures TransactOnce(false, a).verdict.Success? && FailedAt(a.world, TransactOnce(false, a).state.tx.log, 0)
  {
    var w := Always(outcome);
    a := Calls(w, [OpQueryRow(bad, Directly)]);
    RunOne(w, Begun(true, false), a.script[0]);
    CallsCommit(w, a.script);
    assert TransactOnce(false, a).state.tx.log == [Entry(bad, Direct)];
  }

  /** The second: a Rows that is not read to its end, closed or not. What its Close reports is shown, and not recorded.
      */
  lemma UnreadRowsCommit(stmt: Stmt, e: Error, closes: bool) returns (a: Attempt)
    requires stmt.unpack.None? && !stmt.panics
    ensures a.script == [OpQuery(stmt, Directly)] + (if closes then [OpPlainClose(0)] else []) && !Finalized(a.script)
    ensures TransactOnce(false, a).verdict.Success? && FailedAt(a.world, TransactOnce(false, a).state.tx.log, 0)
    ensures closes ==> Run(a.world, Begun(true, false), a.script).1[1] == Failed(e)
  {
    var w, s0 := Always(Ok(0, [], Some(e), Some(e))), Begun(true, false);
    var first, second := OpQuery(stmt, Directly), OpPlainClose(0);
    a := Calls(w, [first] + (if closes then [second] else []));
    var s1 := Step(w, s0, first).0;
    assert s1.tx.log == [Entry(stmt, Direct)] && s1.plain == [PlainRows(Cursor([], Before, Some(e), Some(e)))];
    RunOne(w, s0, first);
    if closes {
      RunTwo(w, s0, first, second);
      assert Step(w, s1, second).1 == Failed(e);
    }
    CallsCommit(w, a.script);
    assert TransactOnce(false, a).state.tx.log == [Entry(stmt, Direct)];
  }

  /** The third: the rows of a batch that are not read to their end, on a driver whose Close does not tell. */
  lemma UnreadBatchCommits(stmt: Stmt, e: Error) returns (a: Attempt)
    requires stmt.unpack.None? && !stmt.panics && !stmt.named
    ensures a.script == [OpBatch, OpQueue(0, stmt), OpSend(0), OpReadQuery(0), OpClose(0)] && !Finalized(a.script)
    ensures TransactOnce(false, a).verdict.Success? && FailedAt(a.world, TransactOnce(false, a).state.tx.log, 0)
  {
    a := Calls(Always(Ok(0, [], Some(e), None)), [OpBatch, OpQueue(0, stmt), OpSend(0), OpReadQuery(0), OpClose(0)]);
    RunsUnread(a.world, stmt, e);
    CallsCommit(a.world, a.script);
  }

  lemma RunsUnread(w: World, stmt: Stmt, e: Error)
    requires stmt.unpack.None? && !stmt.panics && !stmt.named && w == Always(Ok(0, [], Some(e), None))
    ensures var s :=
        Run(w, Begun(true, false), [OpBatch, OpQueue(0, stmt), OpSend(0), OpReadQuery(0), OpClose(0)]).0;
      s.core.err.None? && BatchPending(s.tx).None? && s.tx.log == [Entry(stmt, FromBatch(0, 0))]
  {
    var head, last := [OpBatch, OpQueue(0, stmt), OpSend(0)], [OpReadQuery(0), OpClose(0)];
    assert head + last == [OpBatch, OpQueue(0, stmt), OpSend(0), OpReadQuery(0), OpClose(0)];
    RunSplit(w, Begun(true, false), head, last);
    SendsAlone(w, stmt);
    LeavesUnread(w, stmt, e);
    RunTwo(w, SentAlone(stmt), OpReadQuery(0), OpClose(0));
  }

  /** A transaction with one batch of one statement: queued, then sent, then with its rows open. */
  function QueuedAlone(stmt: Stmt): State {
    var s := Begun(true, false);
    s.(tx := s.tx.(unsent := 1), batches := [Batch([Item(stmt, 0, [], None)], false)])
  }

  function SentAlone(stmt: Stmt): State {
    var s := Begun(true, false);
    s.(core := s.core.(readers := [Reader(None, None)]),
       tx := s.tx.(open := Some(0)),
       batches := [Batch([Item(stmt, 0, [], None)], true)],
       results := [Results(0, 0, false, false, false)])
  }

  function OpenAlone(stmt: Stmt, e: Error): State {
    var s := SentAlone(stmt);
    var row := BatchRows(Cursor([], Before, Some(e), None), 0, false, false, false, false);
    s.(core := s.core.(readers := [Reader(None, Some(0))], rows := [row]),
       tx := s.tx.(log := [Entry(stmt, FromBatch(0, 0))]),
       results := [Results(0, 1, false, false, false)])
  }

  lemma QueuesAlone(w: World, stmt: Stmt)
    ensures Run(w, Begun(true, false), [OpBatch, OpQueue(0, stmt)]).0 == QueuedAlone(stmt)
  {
    var s0 := Begun(true, false);
    var s1 := NewBatch(s0);
    assert StepBatch(w, s0, OpBatch).0 == s1;
    assert StepBatch(w, s1, OpQueue(0, stmt)).0 == Queue(s1, 0, stmt) == QueuedAlone(stmt) by {
      assert [] + [Item(stmt, 0, [], None)] == [Item(stmt, 0, [], None)];
    }
    RunTwo(w, s0, OpBatch, OpQueue(0, stmt));
  }

  lemma SendsAlone(w: World, stmt: Stmt)
    requires !stmt.named
    ensures Run(w, Begun(true, false), [OpBatch, OpQueue(0, stmt), OpSend(0)]).0 == SentAlone(stmt)
  {
    var s0 := Begun(true, false);
    QueuesAlone(w, stmt);
    RunSplit(w, s0, [OpBatch, OpQueue(0, stmt)], [OpSend(0)]);
    assert [OpBatch, OpQueue(0, stmt)] + [OpSend(0)] == [OpBatch, OpQueue(0, stmt), OpSend(0)];
    RunOne(w, QueuedAlone(stmt), OpSend(0));
    assert StepBatch(w, QueuedAlone(stmt), OpSend(0)).0 == SentAlone(stmt);
  }

  lemma IssuesAlone(w: World, stmt: Stmt, e: Error, s: State)
    requires stmt.unpack.None? && !stmt.panics && w == Always(Ok(0, [], Some(e), None))
    requires s == Skip(SentAlone(stmt), 0)
    ensures var (s', ran) := RunItem(w, s, 0, 0, false);
      ran == Succeeded(0, Cursor([], Before, Some(e), None)) && s' == WithLog(s, [Entry(stmt, FromBatch(0, 0))])
  {
    var tx := s.tx.(executing := true);
    assert tx.log + [Entry(stmt, FromBatch(0, 0))] == [Entry(stmt, FromBatch(0, 0))];
    assert Execute(w, tx, stmt, FromBatch(0, 0), false)
      == (tx.(log := [Entry(stmt, FromBatch(0, 0))]), Succeeded(0, Cursor([], Before, Some(e), None)));
  }

  lemma OpensAlone(w: World, stmt: Stmt, e: Error)
    requires stmt.unpack.None? && !stmt.panics && w == Always(Ok(0, [], Some(e), None))
    ensures Step(w, SentAlone(stmt), OpReadQuery(0)).0 == OpenAlone(stmt, e)
  {
    var s := SentAlone(stmt);
    AdvancesAlone(stmt);
    IssuesAlone(w, stmt, e, Skip(s, 0));
    assert StepBatch(w, s, OpReadQuery(0)) == ReadQuery(w, s, 0);
  }

  lemma AdvancesAlone(stmt: Stmt)
    ensures var s := SentAlone(stmt); Advance(s, 0) == (Skip(s, 0), Read(0))
  {
  }

  lemma LeavesAlone(stmt: Stmt, e: Error)
    ensures var c := Supersede(OpenAlone(stmt, e).core, 0); c.err.None? && c.readers == [Reader(None, None)]
  {
  }

  lemma AbandonsAlone(s: State)
    requires WellFormed(s) && |s.results| == 1 && s.core.readers == [Reader(None, None)]
    requires s.tx.open == Some(0) && s.tx.misuse.None? && s.tx.unsent == 0
    ensures var s' := Abandon(s, 0);
      s'.core.err == s.core.err && BatchPending(s'.tx).None? && s'.tx.log == s.tx.log
  {
  }

  /** Closing the results leaves the rows unread, and nothing is recorded. */
  lemma LeavesUnread(w: World, stmt: Stmt, e: Error)
    requires stmt.unpack.None? && !stmt.panics && w == Always(Ok(0, [], Some(e), None))
    ensures var s := Step(w, Step(w, SentAlone(stmt), OpReadQuery(0)).0, OpClose(0)).0;
      s.core.err.None? && BatchPending(s.tx).None? && s.tx.log == [Entry(stmt, FromBatch(0, 0))]
  {
    OpensAlone(w, stmt, e);
    LeavesAlone(stmt, e);
    ClosesAlone(w, OpenAlone(stmt, e), Supersede(OpenAlone(stmt, e).core, 0));
  }

  lemma ClosesAlone(w: World, s: State, c: Core)
    requires WellFormed(s) && |s.results| == 1 && |s.batches| == 1 && |s.batches[0].items| == 1
    requires s.results[0] == Results(0, 1, false, false, false)
    requires s.tx.open == Some(0) && s.tx.misuse.None? && s.tx.unsent == 0
    requires c == Supersede(s.core, 0) && c.err.None? && c.readers == [Reader(None, None)]
    ensures var s' := Step(w, s, OpClose(0)).0;
      s'.core.err.None? && BatchPending(s'.tx).None? && s'.tx.log == s.tx.log
  {
    assert Doomed(c, 0) == c;
    var s1 := WithCore(s, c);
    assert RunRest(w, s1, 0) == (s1, false);
    AbandonsAlone(s1);
    assert StepBatch(w, s, OpClose(0)) == CloseResults(w, s, 0);
  }

  lemma {:induction false} FoldSplit(step: (State, Op) -> (State, Answer), s: State, ops: seq<Op>, more: seq<Op>)
    ensures Fold(step, s, ops + more).0 == Fold(step, Fold(step, s, ops).0, more).0
    decreases ops
  {
    if ops == [] {
      assert ops + more == more;
    } else {
      assert (ops + more)[1..] == ops[1..] + more;
      FoldSplit(step, step(s, ops[0]).0, ops[1..], more);
    }
  }

  lemma RunSplit(w: World, s: State, ops: seq<Op>, more: seq<Op>)
    ensures Run(w, s, ops + more).0 == Run(w, Run(w, s, ops).0, more).0
  {
    FoldSplit(Stepper(w), s, ops, more);
  }

  lemma RunOne(w: World, s: State, op: Op)
    requires WellFormed(s)
    ensures Run(w, s, [op]) == (Step(w, s, op).0, [Step(w, s, op).1])
  {
    RunStep(w, s, [op]);
    assert [op][1..] == [] && [Step(w, s, op).1] + [] == [Step(w, s, op).1];
    RunNone(w, Step(w, s, op).0);
  }

  lemma RunNone(w: World, s: State)
    requires WellFormed(s)
    ensures Run(w, s, []) == (s, [])
  {
  }

  lemma RunTwo(w: World, s: State, op: Op, next: Op)
    requires WellFormed(s)
    ensures var (s1, a) := Step(w, s, op); Run(w, s, [op, next]) == (Step(w, s1, next).0, [a, Step(w, s1, next).1])
  {
    var (s1, a) := Step(w, s, op);
    var (s2, b) := Step(w, s1, next);
    RunStep(w, s, [op, next]);
    assert [op, next][1..] == [next];
    RunOne(w, s1, next);
    assert [a] + [b] == [a, b];
  }

  /** An Exec reads its statement to the end, so an error behind the rows keeps the transaction from committing. */
  lemma ExecTellsAll(stmt: Stmt, e: Error, conn: bool, a: Attempt)
    requires stmt.unpack.None? && !stmt.panics
    requires a.world == Always(Ok(0, [], Some(e), None)) && a.script == [OpExec(stmt, Directly)]
    ensures Run(a.world, Begun(true, conn), a.script).1 == [Failed(TraceErr(e))]
    ensures !TransactOnce(conn, a).verdict.Success?
  {
    RunOne(a.world, Begun(true, conn), a.script[0]);
    if a.begin.None? {
      OnceLeaves(conn, a);
    }
  }

  /** An error that a statement brings along from a transaction that refused to bind it is shown, and not recorded: a
      closure that ignores it commits without the statement. */
  lemma CarriedErrorCommits(stmt: Stmt, e: Error) returns (a: Attempt)
    requires e.root == BatchOpen
    ensures a.script == [OpBind(stmt, Some(e)), OpExec(stmt, Through(0))]
    ensures Run(a.world, Begun(true, false), a.script).1[1] == Failed(e) && !Tolerable(Failed(e))
    ensures TransactOnce(false, a).verdict.Success? && TransactOnce(false, a).state.tx.log == []
  {
    var w, s0 := Failing(), Begun(true, false);
    var first, second := OpBind(stmt, Some(e)), OpExec(stmt, Through(0));
    a := Calls(w, [first, second]);
    var s1 := s0.(bound := [Bound(stmt, Some(e), true)]);
    assert Step(w, s0, first).0 == s1 by {
      assert [] + [Bound(stmt, Some(e), true)] == [Bound(stmt, Some(e), true)];
    }
    RunTwo(w, s0, first, second);
    assert Step(w, s1, second) == (s1, Failed(e));
    CallsCommit(w, a.script);
  }

  // ----- Pipelining -----

  /** How two bodies of the same attempt compare. */
  ghost predicate SameVerdict(v: Verdict, u: Verdict) {
    if v.Aborted? && u.Aborted? then v.err.root == u.err.root else v == u
  }

  lemma ConcludeAlike(p: State, q: State, a: Attempt)
    requires Inv(p) && Inv(q) && !p.tx.ended && !q.tx.ended
    requires SameRoot(p.core.err, q.core.err) && BatchPending(p.tx) == BatchPending(q.tx)
    requires q.tx.log <= p.tx.log && (q.core.err.None? && BatchPending(q.tx).None? ==> p.tx.log == q.tx.log)
    ensures var ((v, p'), (u, q')) := (Conclude(p, a), Conclude(q, a));
      SameVerdict(v, u) && q'.tx.log <= p'.tx.log && (v.Success? ==> p'.tx.log == q'.tx.log)
  {
  }

  lemma SameBody(a: Attempt)
    requires FailsAtExecution(a.world) && forall i :: 0 <= i < |a.script| ==> Sendable(a.script[i])
    requires !Finalized(a.script)
    ensures var ((v, p), (u, q)) := (Body(true, a), Body(false, a));
      SameVerdict(v, u) && q.tx.log <= p.tx.log && (v.Success? ==> p.tx.log == q.tx.log)
  {
    PipelinedLooksSequential(a.world, a.script);
    RunOpenEnded(a.world, false, a.script);
    RunOpenEnded(a.world, true, a.script);
    ConcludeAlike(Run(a.world, Begun(true, true), a.script).0, Run(a.world, Begun(true, false), a.script).0, a);
  }

  /** The same attempt, pipelined or not, ends the same way and commits the same statements. */
  lemma PipeliningCommitsAlike(a: Attempt)
    requires FailsAtExecution(a.world) && forall i :: 0 <= i < |a.script| ==> Sendable(a.script[i])
    requires !Finalized(a.script)
    ensures var t, u := TransactOnce(true, a), TransactOnce(false, a);
      && SameVerdict(t.verdict, u.verdict)
      && (t.verdict.Success? ==> t.state.tx.log == u.state.tx.log)
      && u.state.tx.log <= t.state.tx.log
  {
    if a.begin.None? {
      SameBody(a);
      OnceLeaves(true, a);
      OnceLeaves(false, a);
    }
  }

  // ----- A closure that commits by itself -----

  /** Tx.Commit does not consult the recorded error: with one recorded, a Commit that the driver accepts ends the
      transaction exactly when no batch is pending and it has not ended yet. */
  lemma OwnCommitIff(w: World, s: State)
    requires Inv(s) && s.core.err.Some?
    ensures var s' := Step(w, s, OpCommit(Reached(None))).0;
      && (s'.tx.done && s'.tx.finals == s.tx.finals + [Commit] <==> BatchPending(s.tx).None? && !s.tx.ended)
      && s'.core.err == s.core.err && s'.tx.log == s.tx.log
      && (BatchPending(s.tx).Some? || s.tx.ended ==> s' == s)
  {
    assert |s.tx.finals + [Commit]| == |s.tx.finals| + 1;
  }

  /** What Commit and Rollback answer a closure: the reason a batch is pending, that the transaction is over, or what
      the driver answered. */
  lemma FinalAnswers(w: World, s: State, outcome: CommitOutcome, fault: Option<Error>)
    requires Inv(s)
    ensures var (commit, rollback) := (Step(w, s, OpCommit(outcome)).1, Step(w, s, OpRollback(fault)).1);
      && (commit.Failed? ==> Concludes(s.(core := s.core.(err := None)), outcome, Aborted(commit.err)))
      && (!commit.Failed? ==> commit == Done && BatchPending(s.tx).None? && !s.tx.ended && outcome == Reached(None))
      && (if s.tx.ended then rollback.Failed? && rollback.err.root == TxDone
          else if fault.Some? then rollback.Failed? && rollback.err.root == fault.value.root
          else rollback == Done)
  {
  }

  /** Why the closure must not commit by itself: a closure that ignores a failed statement and commits gets its partial
      work committed. */
  lemma OwnCommitIgnoresTheLatch(stmt: Stmt) returns (w: World)
    requires stmt.unpack.None? && !stmt.panics
    ensures var s := CommitTx(TxExec(w, Begun(true, false), stmt, Directly).0, Reached(None)).0;
      s.core.err.Some? && s.tx.done && s.tx.finals == [Commit] && s.tx.log == [Entry(stmt, Direct)]
  {
    w := Failing();
  }

  // ----- The retry loop -----

  predicate Contended(contention: Error -> bool, v: Verdict) {
    v.Aborted? && contention(v.err)
  }

  /** The loop of DB.Transact over the attempts it would make: one after the other until one succeeds, unwinds or fails
      on anything but contention, at most eight in all. Only the last may have committed. */
  method Retry(once: nat -> Trail, contention: Error -> bool) returns (verdict: Verdict, trails: seq<Trail>)
    ensures 1 <= |trails| <= MAX_ATTEMPTS
    ensures forall i :: 0 <= i < |trails| ==> trails[i] == once(i)
    ensures forall i :: 0 <= i < |trails| - 1 ==> Contended(contention, trails[i].verdict)
    ensures |trails| < MAX_ATTEMPTS ==> !Contended(contention, trails[|trails| - 1].verdict)
    ensures |trails| < MAX_ATTEMPTS ==> verdict == trails[|trails| - 1].verdict
    ensures SameVerdict(verdict, trails[|trails| - 1].verdict)
    ensures forall i :: 0 <= i < |trails| && trails[i].verdict.Success? ==> i == |trails| - 1 && verdict.Success?
  {
    trails := [];
    var attempt := 0;
    verdict := Unwinding;
    while attempt < MAX_ATTEMPTS
      invariant 0 <= attempt == |trails| <= MAX_ATTEMPTS
      invariant forall i :: 0 <= i < |trails| ==> trails[i] == once(i)
      invariant forall i :: 0 <= i < |trails| ==> Contended(contention, trails[i].verdict)
      invariant trails != [] ==> verdict == trails[|trails| - 1].verdict
    {
      var trail := once(attempt);
      trails := trails + [trail];
      verdict := trail.verdict;
      attempt := attempt + 1;
      if !Contended(contention, verdict) {
        return;
      }
    }
    verdict := Aborted(TraceErr(verdict.err));
  }

  /** An attempt is over: its transaction ended before its connection was released, committed, rolled back, or by a
      COMMIT that failed. */
  ghost predicate Over(conn: bool, t: Trail) {
    && t.state.tx.ended && |t.state.tx.finals| == 1
    && t.events == [Began, Sent(t.state.tx.finals[0])] + (if conn then [Released(t.state.tx)] else [])
    && (!t.verdict.Success? ==> t.state.tx.finals == [Rollback] || (t.state.tx.finals == [Commit] && !t.state.tx.done))
  }

  /** A COMMIT reached the database and succeeded, and nothing else did. */
  predicate Committed(t: Trail) {
    t.state.tx.done && t.state.tx.finals == [Commit]
  }

  lemma AttemptOver(conn: bool, a: Attempt)
    requires a.begin.None? && !Finalized(a.script)
    ensures Over(conn, TransactOnce(conn, a))
  {
    ReleasedAfterItsEnd(conn, a);
    if !TransactOnce(conn, a).verdict.Success? {
      FailedIsRolledBack(conn, a);
    }
  }

  /** Errors with this root count as contention, however often they were traced; or none does. */
  ghost predicate AlwaysContention(contention: Error -> bool, root: Root) {
    forall n: nat :: contention(Error(root, n))
  }

  ghost predicate NeverContention(contention: Error -> bool, root: Root) {
    forall n: nat :: !contention(Error(root, n))
  }

  /** The closure was called, and returned an error with this root. */
  predicate ReturnedError(a: Attempt, root: Root) {
    Called(a) && a.exit.Returned? && a.exit.err.Some? && a.exit.err.value.root == root
  }

  /** An attempt whose closure returned an error of contention is followed by another, unless it was the eighth; any
      other error a closure returned is the last, and the answer. */
  ghost predicate ErrorsRetried(attempts: nat -> Attempt, contention: Error -> bool, verdict: Verdict,
                                trails: seq<Trail>)
  {
    forall i, root :: 0 <= i < |trails| && ReturnedError(attempts(i), root) ==>
      && (AlwaysContention(contention, root) && i < 7 ==> i + 1 < |trails|)
      && (NeverContention(contention, root) ==> i == |trails| - 1 && verdict.Aborted? && verdict.err.root == root)
  }

  /** DB.Transact: it answers nil exactly when its last attempt committed, and no earlier attempt did; every attempt
      that failed was rolled back before its connection was released. A closure that returned an error of contention is
      called again, up to the eighth attempt; one that returned another error is not, and that error is the answer. */
  method RunTransact(conn: bool, attempts: nat -> Attempt, contention: Error -> bool)
    returns (verdict: Verdict, trails: seq<Trail>)
    requires forall i :: !Finalized(attempts(i).script)
    ensures 1 <= |trails| <= 8
    ensures forall i :: 0 <= i < |trails| ==> trails[i] == TransactOnce(conn, attempts(i))
    ensures forall i :: 0 <= i < |trails| ==> (Committed(trails[i]) <==> i == |trails| - 1 && verdict.Success?)
    ensures forall i :: 0 <= i < |trails| && attempts(i).begin.None? ==> Over(conn, trails[i])
    ensures SameVerdict(verdict, trails[|trails| - 1].verdict)
    ensures ErrorsRetried(attempts, contention, verdict, trails)
  {
    var once := (i: nat) => TransactOnce(conn, attempts(i));
    verdict, trails := Retry(once, contention);
    AttemptsOver(conn, attempts, trails);
    LastCommits(verdict, trails);
    ErrorsAnswered(conn, attempts, contention, verdict, trails);
  }

  lemma LastCommits(verdict: Verdict, trails: seq<Trail>)
    requires trails != [] && SameVerdict(verdict, trails[|trails| - 1].verdict)
    requires forall i :: 0 <= i < |trails| && trails[i].verdict.Success? ==> i == |trails| - 1 && verdict.Success?
    requires forall i :: 0 <= i < |trails| ==> (trails[i].verdict.Success? <==> Committed(trails[i]))
    ensures forall i :: 0 <= i < |trails| ==> (Committed(trails[i]) <==> i == |trails| - 1 && verdict.Success?)
  {
  }

  /** A verdict with this root, which is contention if the root always is. */
  ghost predicate Answering(contention: Error -> bool, v: Verdict, root: Root) {
    && v.Aborted? && v.err.root == root
    && (AlwaysContention(contention, root) ==> Contended(contention, v))
    && (NeverContention(contention, root) ==> !Contended(contention, v))
  }

  lemma ErrorsAnswered(conn: bool, attempts: nat -> Attempt, contention: Error -> bool, verdict: Verdict,
                       trails: seq<Trail>)
    requires 1 <= |trails| <= MAX_ATTEMPTS
    requires forall i :: 0 <= i < |trails| ==> trails[i] == TransactOnce(conn, attempts(i))
    requires forall i :: 0 <= i < |trails| - 1 ==> Contended(contention, trails[i].verdict)
    requires |trails| < MAX_ATTEMPTS ==> !Contended(contention, trails[|trails| - 1].verdict)
    requires SameVerdict(verdict, trails[|trails| - 1].verdict)
    ensures ErrorsRetried(attempts, contention, verdict, trails)
  {
    forall i, root | 0 <= i < |trails| && ReturnedError(attempts(i), root)
      ensures Answering(contention, trails[i].verdict, root)
    {
      ErrorAnswered(conn, attempts(i), contention, root);
    }
    AnsweredRetries(attempts, contention, verdict, trails);
  }

  lemma AnsweredRetries(attempts: nat -> Attempt, contention: Error -> bool, verdict: Verdict, trails: seq<Trail>)
    requires 1 <= |trails| <= MAX_ATTEMPTS
    requires forall i, root :: 0 <= i < |trails| && ReturnedError(attempts(i), root) ==>
      Answering(contention, trails[i].verdict, root)
    requires forall i :: 0 <= i < |trails| - 1 ==> Contended(contention, trails[i].verdict)
    requires |trails| < MAX_ATTEMPTS ==> !Contended(contention, trails[|trails| - 1].verdict)
    requires SameVerdict(verdict, trails[|trails| - 1].verdict)
    ensures ErrorsRetried(attempts, contention, verdict, trails)
  {
  }

  lemma ErrorAnswered(conn: bool, a: Attempt, contention: Error -> bool, root: Root)
    requires ReturnedError(a, root)
    ensures Answering(contention, TransactOnce(conn, a).verdict, root)
  {
    TransactAnswers(conn, a);
    var e := TransactOnce(conn, a).verdict.err;
    assert e == Error(root, e.traces);
  }

  lemma AttemptsOver(conn: bool, attempts: nat -> Attempt, trails: seq<Trail>)
    requires forall i :: !Finalized(attempts(i).script)
    requires forall i :: 0 <= i < |trails| ==> trails[i] == TransactOnce(conn, attempts(i))
    ensures forall i :: 0 <= i < |trails| ==> (trails[i].verdict.Success? <==> Committed(trails[i]))
    ensures forall i :: 0 <= i < |trails| && attempts(i).begin.None? ==> Over(conn, trails[i])
  {
    forall i | 0 <= i < |trails|
      ensures trails[i].verdict.Success? <==> Committed(trails[i])
      ensures attempts(i).begin.None? ==> Over(conn, trails[i])
    {
      SuccessMeansCommitted(conn, attempts(i));
      if attempts(i).begin.None? {
        AttemptOver(conn, attempts(i));
      }
    }
  }

  /** retryContention: the bookkeeping statements of Migrate, repeated at most eight times while they lose to
      contention. */
  method RetryContention(outcomes: nat -> Option<Error>, contention: Error -> bool)
    returns (err: Option<Error>, calls: nat)
    ensures 1 <= calls <= MAX_ATTEMPTS
    ensures err == outcomes(calls - 1)
    ensures forall i :: 0 <= i < calls - 1 ==> outcomes(i).Some? && contention(outcomes(i).value)
    ensures err.None? || !contention(err.value) || calls == MAX_ATTEMPTS
  {
    calls := 0;
    err := None;
    while calls < MAX_ATTEMPTS
      invariant 0 <= calls <= MAX_ATTEMPTS
      invariant calls > 0 ==> err == outcomes(calls - 1)
      invariant forall i :: 0 <= i < calls ==> outcomes(i).Some? && contention(outcomes(i).value)
    {
      err := outcomes(calls);
      calls := calls + 1;
      if err.None? || !contention(err.value) {
        return;
      }
    }
  }
}
