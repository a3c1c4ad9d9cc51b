/** What a batch delivers: the i-th read of its results answers the outcome of the i-th statement queued, executed
    behind those before it, whether the batch was one round trip or not. */
module BatchDelivery {
  import opened Errors
  import opened Session
  import opened SessionSafety
  import opened Faults
  import opened Delivery

  /** The history when j statements of a batch ran, and the outcome of the next. */
  function Logged(base: seq<Entry>, b: nat, stmts: seq<Stmt>, j: nat): (log: seq<Entry>)
    requires j <= |stmts|
    ensures |log| == |base| + j
  {
    base + seq(j, i requires 0 <= i < j => Entry(stmts[i], FromBatch(b, i)))
  }

  function OutcomeOf(w: World, base: seq<Entry>, b: nat, stmts: seq<Stmt>, j: nat): Outcome
    requires j < |stmts|
  {
    w.server(Logged(base, b, stmts, j), stmts[j])
  }

  /** Every statement of the batch succeeds. */
  ghost predicate Succeeds(w: World, base: seq<Entry>, b: nat, stmts: seq<Stmt>) {
    forall j: nat :: j < |stmts| ==>
      && stmts[j].unpack.None? && !stmts[j].panics && !stmts[j].named
      && OutcomeOf(w, base, b, stmts, j).Ok? && OutcomeOf(w, base, b, stmts, j).tail.None?
  }

  lemma LoggedNext(base: seq<Entry>, b: nat, stmts: seq<Stmt>, j: nat)
    requires j < |stmts|
    ensures Logged(base, b, stmts, j) + [Entry(stmts[j], FromBatch(b, j))] == Logged(base, b, stmts, j + 1)
  {
  }

  /** The item holds the outcome of its statement. */
  predicate Holds(item: Item, outcome: Outcome) {
    outcome.Ok? && item.err.None? && item.affected == outcome.affected && item.rows == outcome.rows
  }

  // ----- One round trip -----

  lemma {:induction false} PipeDelivers(w: World, base: seq<Entry>, b: nat, items: seq<Item>, i: nat)
    requires i <= |items| && Succeeds(w, base, b, Statements(items))
    ensures var stmts := Statements(items);
      var (log, ran) := PipeRun(w, Logged(base, b, stmts, i), b, items, i);
      && log == Logged(base, b, stmts, |items|) && |ran| == |items| - i
      && forall j: nat :: i <= j < |items| ==>
           ran[j - i].stmt == items[j].stmt && Holds(ran[j - i], OutcomeOf(w, base, b, stmts, j))
    decreases |items| - i
  {
    if i < |items| {
      var stmts := Statements(items);
      LoggedNext(base, b, stmts, i);
      PipeDelivers(w, base, b, items, i + 1);
      assert OutcomeOf(w, base, b, stmts, i).Ok?;
    }
  }

  lemma {:induction false} NothingUnpacks(items: seq<Item>)
    requires forall i :: 0 <= i < |items| ==> items[i].stmt.unpack.None?
    ensures FirstUnpackErr(items).None?
    decreases |items|
  {
    if items != [] {
      NothingUnpacks(items[1..]);
    }
  }

  lemma {:induction false} NoFirstErr(items: seq<Item>)
    requires forall i :: 0 <= i < |items| ==> items[i].err.None?
    ensures FirstErr(items).None?
    decreases |items|
  {
    if items != [] {
      NoFirstErr(items[1..]);
    }
  }

  lemma PipelineDelivers(w: World, tx: Tx, b: nat, items: seq<Item>)
    requires Succeeds(w, tx.log, b, Statements(items)) && !tx.ended
    requires w.reject(tx.log, Statements(items)).None? && w.late(tx.log, Statements(items)).None?
    ensures var (stmts, p) := (Statements(items), Pipeline(w, tx, b, items));
      && p.log == Logged(tx.log, b, stmts, |items|) && !p.unwound && |p.items| == |items|
      && forall j: nat :: j < |items| ==>
           p.items[j].stmt == items[j].stmt && Holds(p.items[j], OutcomeOf(w, tx.log, b, stmts, j))
  {
    var stmts := Statements(items);
    forall i | 0 <= i < |items|
      ensures items[i].stmt == stmts[i] && items[i].stmt.unpack.None? && !items[i].stmt.panics
    {
    }
    NothingUnpacks(items);
    assert Logged(tx.log, b, stmts, 0) == tx.log;
    PipeDelivers(w, tx.log, b, items, 0);
    var ran := PipeRun(w, tx.log, b, items, 0).1;
    forall j: nat | j < |items|
      ensures ran[j].stmt == items[j].stmt && Holds(ran[j], OutcomeOf(w, tx.log, b, stmts, j))
    {
      assert ran[j] == ran[j - 0];
    }
    NoFirstErr(ran);
  }

  // ----- Results that were read j times -----

  /** Nothing failed, the results are open, and j of their statements were read. */
  ghost predicate Ready(w: World, s: State, r: nat, b: nat, base: seq<Entry>, stmts: seq<Stmt>, j: nat)
    requires WellFormed(s)
  {
    && s.core.autoErr && s.core.err.None? && !s.tx.ended && r < |s.results| && s.core.readers[r].err.None?
    && b < |s.batches| && Statements(s.batches[b].items) == stmts && j <= |stmts|
    && s.results[r] == Results(b, j, false, s.results[r].pipelined, false)
    && (if s.results[r].pipelined then Buffers(w, s.batches[b].items, b, base, stmts)
        else s.tx.log == Logged(base, b, stmts, j))
  }

  ghost predicate Buffers(w: World, items: seq<Item>, b: nat, base: seq<Entry>, stmts: seq<Stmt>) {
    |items| == |stmts| && forall j: nat :: j < |stmts| ==> Holds(items[j], OutcomeOf(w, base, b, stmts, j))
  }

  /** Reading goes on, unless closing the rows left open failed. */
  lemma AdvanceReady(w: World, s: State, r: nat, b: nat, base: seq<Entry>, stmts: seq<Stmt>, j: nat)
    requires WellFormed(s) && Ready(w, s, r, b, base, stmts, j)
    ensures var (s', turn) := Advance(s, r);
      s'.core.err.None? ==>
        && s'.core.readers[r].err.None? && |s'.core.rows| == |s.core.rows|
        && (if j < |stmts| then turn == Read(j) && s' == WithCore(Skip(s, r), s'.core)
            else turn == Stop(New(NoMoreResults)) && s' == WithCore(s, s'.core))
  {
    assert |Items(s, r)| == |stmts|;
    if j < |stmts| && s.results[r].pipelined {
      assert Holds(Items(s, r)[j], OutcomeOf(w, base, b, stmts, j));
    }
  }

  /** What the j-th read answers: the count of the j-th statement. */
  ghost predicate ExecReads(w: World, b: nat, base: seq<Entry>, stmts: seq<Stmt>, j: nat, a: Answer)
    requires Succeeds(w, base, b, stmts)
  {
    if j < |stmts| then a == Affected(OutcomeOf(w, base, b, stmts, j).affected)
    else a.Failed? && a.err.root == NoMoreResults
  }

  lemma ExecReady(w: World, s: State, r: nat, b: nat, base: seq<Entry>, stmts: seq<Stmt>, j: nat)
    requires WellFormed(s) && Ready(w, s, r, b, base, stmts, j) && Succeeds(w, base, b, stmts)
    ensures var (s', a) := ReadExec(w, s, r);
      s'.core.err.None? ==>
        ExecReads(w, b, base, stmts, j, a) && Ready(w, s', r, b, base, stmts, if j < |stmts| then j + 1 else j)
  {
    AdvanceReady(w, s, r, b, base, stmts, j);
    var s1 := Advance(s, r).0;
    if s1.core.err.None? && j < |stmts| {
      assert |Items(s, r)| == |stmts|;
      if s.results[r].pipelined {
        assert Holds(Items(s, r)[j], OutcomeOf(w, base, b, stmts, j));
      } else {
        RunReady(w, s1, r, b, base, stmts, j, true);
      }
    }
  }

  /** The next statement runs. */
  lemma RunReady(w: World, s: State, r: nat, b: nat, base: seq<Entry>, stmts: seq<Stmt>, j: nat, whole: bool)
    requires WellFormed(s) && s.core.autoErr && s.core.err.None? && !s.tx.ended && r < |s.results|
    requires s.results[r].batch == b && b < |s.batches| && Statements(s.batches[b].items) == stmts
    requires j < |stmts| && j < |Items(s, r)| && s.tx.log == Logged(base, b, stmts, j) && Succeeds(w, base, b, stmts)
    ensures var (outcome, (s', ran)) := (OutcomeOf(w, base, b, stmts, j), RunItem(w, s, r, j, whole));
      && ran == Succeeded(outcome.affected, Cursor(outcome.rows, Before, outcome.tail, outcome.rest))
      && s' == WithLog(s, Logged(base, b, stmts, j + 1))
  {
    assert stmts[j] == Items(s, r)[j].stmt;
    LoggedNext(base, b, stmts, j);
  }

  /** ... or the rows of the j-th statement, which no Next has moved yet. */
  ghost predicate QueryReads(w: World, s: State, r: nat, b: nat, base: seq<Entry>, stmts: seq<Stmt>, j: nat, s': State,
                             a: Answer)
    requires Succeeds(w, base, b, stmts)
  {
    if j < |stmts| then
      var outcome, k := OutcomeOf(w, base, b, stmts, j), |s.core.rows|;
      && a == Handle(k) && r < |s'.results|
      && BatchRowsAt(s', k, r, s'.results[r].pipelined, 0, outcome.rows, None,
           if s'.results[r].pipelined then None else outcome.rest)
    else a.Failed? && a.err.root == NoMoreResults
  }

  lemma QueryReady(w: World, s: State, r: nat, b: nat, base: seq<Entry>, stmts: seq<Stmt>, j: nat)
    requires WellFormed(s) && Ready(w, s, r, b, base, stmts, j) && Succeeds(w, base, b, stmts)
    ensures var (s', a) := ReadQuery(w, s, r);
      s'.core.err.None? ==>
        && QueryReads(w, s, r, b, base, stmts, j, s', a)
        && Ready(w, s', r, b, base, stmts, if j < |stmts| then j + 1 else j)
  {
    AdvanceReady(w, s, r, b, base, stmts, j);
    var s1 := Advance(s, r).0;
    if s1.core.err.None? && j < |stmts| {
      assert |Items(s, r)| == |stmts|;
      if s.results[r].pipelined {
        assert Holds(Items(s, r)[j], OutcomeOf(w, base, b, stmts, j));
      } else {
        RunReady(w, s1, r, b, base, stmts, j, false);
      }
    }
  }

  /** Reading rows that does not fail leaves the results where they are. */
  lemma RowsReady(w: World, s: State, op: Op, r: nat, b: nat, base: seq<Entry>, stmts: seq<Stmt>, j: nat)
    requires WellFormed(s) && Ready(w, s, r, b, base, stmts, j) && IsRows(op) && Step(w, s, op).0.core.err.None?
    ensures Ready(w, Step(w, s, op).0, r, b, base, stmts, j)
  {
    if op.k < |s.core.rows| {
      var c := StepRows(w, s.core, op).0;
      assert LatchedReader(s.core, c, s.core.readers[r], c.readers[r]);
      StepOnRows(w, s, op);
    }
  }

  /** The reads of these results and anything done with rows. */
  predicate InBatch(r: nat, op: Op) {
    op == OpReadExec(r) || op == OpReadQuery(r) || IsRows(op)
  }

  function Reading(r: nat): Op -> nat {
    (op: Op) => if op == OpReadExec(r) || op == OpReadQuery(r) then 1 else 0
  }

  function Least(a: nat, b: nat): nat {
    if a < b then a else b
  }

  /** From s to s' the operation answers what the j-th read should. */
  ghost predicate Answered(w: World, s: State, op: Op, s': State, a: Answer, r: nat, b: nat, base: seq<Entry>,
                           stmts: seq<Stmt>, j: nat)
    requires Succeeds(w, base, b, stmts)
  {
    && (op == OpReadExec(r) ==> ExecReads(w, b, base, stmts, j, a))
    && (op == OpReadQuery(r) ==> QueryReads(w, s, r, b, base, stmts, j, s', a))
  }

  lemma StepReady(w: World, s: State, op: Op, r: nat, b: nat, base: seq<Entry>, stmts: seq<Stmt>, j: nat)
    requires WellFormed(s) && Ready(w, s, r, b, base, stmts, j) && Succeeds(w, base, b, stmts)
    requires InBatch(r, op) && Step(w, s, op).0.core.err.None?
    ensures Ready(w, Step(w, s, op).0, r, b, base, stmts, Least(j + Reading(r)(op), |stmts|))
  {
    if IsRows(op) {
      RowsReady(w, s, op, r, b, base, stmts, j);
    } else if op.OpReadExec? {
      StepExecReady(w, s, r, b, base, stmts, j);
    } else {
      StepQueryReady(w, s, r, b, base, stmts, j);
    }
  }

  lemma StepExecReady(w: World, s: State, r: nat, b: nat, base: seq<Entry>, stmts: seq<Stmt>, j: nat)
    requires WellFormed(s) && Ready(w, s, r, b, base, stmts, j) && Succeeds(w, base, b, stmts)
    requires Step(w, s, OpReadExec(r)).0.core.err.None?
    ensures Ready(w, Step(w, s, OpReadExec(r)).0, r, b, base, stmts, Least(j + 1, |stmts|))
  {
    ExecReady(w, s, r, b, base, stmts, j);
    StepExecs(w, s, r);
  }

  lemma StepQueryReady(w: World, s: State, r: nat, b: nat, base: seq<Entry>, stmts: seq<Stmt>, j: nat)
    requires WellFormed(s) && Ready(w, s, r, b, base, stmts, j) && Succeeds(w, base, b, stmts)
    requires Step(w, s, OpReadQuery(r)).0.core.err.None?
    ensures Ready(w, Step(w, s, OpReadQuery(r)).0, r, b, base, stmts, Least(j + 1, |stmts|))
  {
    QueryReady(w, s, r, b, base, stmts, j);
    StepQueries(w, s, r);
  }

  lemma StepExecs(w: World, s: State, r: nat)
    requires WellFormed(s) && r < |s.results| && !s.results[r].lost
    ensures Step(w, s, OpReadExec(r)) == ReadExec(w, s, r)
  {
    assert StepBatch(w, s, OpReadExec(r)) == ReadExec(w, s, r);
  }

  lemma StepQueries(w: World, s: State, r: nat)
    requires WellFormed(s) && r < |s.results| && !s.results[r].lost
    ensures Step(w, s, OpReadQuery(r)) == ReadQuery(w, s, r)
  {
    assert StepBatch(w, s, OpReadQuery(r)) == ReadQuery(w, s, r);
  }

  lemma StepAnswers(w: World, s: State, op: Op, r: nat, b: nat, base: seq<Entry>, stmts: seq<Stmt>, j: nat)
    requires WellFormed(s) && Ready(w, s, r, b, base, stmts, j) && Succeeds(w, base, b, stmts)
    requires InBatch(r, op) && Step(w, s, op).0.core.err.None?
    ensures var (s', a) := Step(w, s, op); Answered(w, s, op, s', a, r, b, base, stmts, j)
  {
    if op == OpReadExec(r) {
      StepExecs(w, s, r);
      ExecReady(w, s, r, b, base, stmts, j);
    } else if op == OpReadQuery(r) {
      StepQueries(w, s, r);
      QueryReady(w, s, r, b, base, stmts, j);
    }
  }

  lemma ReadAuto(w: World, s: State, r: nat)
    requires WellFormed(s) && r < |s.results|
    ensures ReadExec(w, s, r).0.core.autoErr == ReadQuery(w, s, r).0.core.autoErr == s.core.autoErr
  {
  }

  lemma RowsAuto(w: World, s: State, op: Op)
    requires WellFormed(s) && IsRows(op)
    ensures Step(w, s, op).0.core.autoErr == s.core.autoErr
  {
    if op.k < |s.core.rows| {
      StepOnRows(w, s, op);
    } else {
      assert !Enabled(s, op);
    }
  }

  lemma StepAuto(w: World, s: State, op: Op, r: nat)
    requires WellFormed(s) && InBatch(r, op) && r < |s.results| && !s.results[r].lost
    ensures Step(w, s, op).0.core.autoErr == s.core.autoErr
  {
    if IsRows(op) {
      RowsAuto(w, s, op);
    } else {
      StepExecs(w, s, r);
      StepQueries(w, s, r);
      ReadAuto(w, s, r);
    }
  }

  /** Every operation that is allowed and does not fail moves the state on and answers by how far it was moved, and a
      failure stays. */
  ghost predicate Progresses(step: (State, Op) -> (State, Answer), at: (State, nat) -> bool, failed: State -> bool,
                             allowed: Op -> bool, weigh: Op -> nat, told: (State, Op, nat, State, Answer) -> bool)
  {
    && (forall s, n: nat, op {:trigger at(s, n), step(s, op)} ::
          at(s, n) && allowed(op) && !failed(step(s, op).0) ==>
            at(step(s, op).0, n + weigh(op)) && told(s, op, n, step(s, op).0, step(s, op).1))
    && (forall s, n: nat, op, more {:trigger at(s, n), Fold(step, step(s, op).0, more)} ::
          at(s, n) && allowed(op) && failed(step(s, op).0) ==> failed(Fold(step, step(s, op).0, more).0))
  }

  /** What is told of the i-th operation of a script. */
  ghost predicate Reached(step: (State, Op) -> (State, Answer), told: (State, Op, nat, State, Answer) -> bool, s: State,
                          ops: seq<Op>, i: nat, n: nat)
    requires i < |ops|
  {
    told(Fold(step, s, ops[..i]).0, ops[i], n, Fold(step, s, ops[..i + 1]).0, Fold(step, s, ops).1[i])
  }

  /** Then a script that did not fail has every operation answered by what came before it. */
  lemma {:induction false} ToldAlong(step: (State, Op) -> (State, Answer), at: (State, nat) -> bool,
                                     failed: State -> bool, allowed: Op -> bool, weigh: Op -> nat,
                                     told: (State, Op, nat, State, Answer) -> bool, s: State, n: nat, ops: seq<Op>,
                                     i: nat)
    requires Progresses(step, at, failed, allowed, weigh, told)
    requires at(s, n) && i < |ops| && (forall j :: 0 <= j < |ops| ==> allowed(ops[j])) && !failed(Fold(step, s, ops).0)
    ensures Reached(step, told, s, ops, i, n + Moves(weigh, ops[..i]))
    decreases i
  {
    var (s1, rest) := (step(s, ops[0]).0, ops[1..]);
    assert allowed(ops[0]);
    assert ops[..i + 1][1..] == rest[..i] && ops[..i + 1][0] == ops[0];
    if i > 0 {
      assert ops[..i][1..] == rest[..i - 1];
      ToldAlong(step, at, failed, allowed, weigh, told, s1, n + weigh(ops[0]), rest, i - 1);
    } else {
      assert ops[..0] == [] && rest[..0] == [];
    }
  }

  ghost function ReadyPlace(w: World, r: nat, b: nat, base: seq<Entry>, stmts: seq<Stmt>): (State, nat) -> bool {
    (s: State, n: nat) => WellFormed(s) && Ready(w, s, r, b, base, stmts, Least(n, |stmts|))
  }

  function Allowing(r: nat): Op -> bool {
    (op: Op) => InBatch(r, op)
  }

  function Failing(): State -> bool {
    (s: State) => s.core.err.Some?
  }

  lemma LeastOn(n: nat, k: nat, most: nat)
    ensures Least(Least(n, most) + k, most) == Least(n + k, most)
  {
  }

  lemma PlaceMoves(w: World, s: State, op: Op, r: nat, b: nat, base: seq<Entry>, stmts: seq<Stmt>, n: nat)
    requires WellFormed(s) && Ready(w, s, r, b, base, stmts, Least(n, |stmts|)) && Succeeds(w, base, b, stmts)
    requires InBatch(r, op) && Step(w, s, op).0.core.err.None?
    ensures Ready(w, Step(w, s, op).0, r, b, base, stmts, Least(n + Reading(r)(op), |stmts|))
  {
    StepReady(w, s, op, r, b, base, stmts, Least(n, |stmts|));
    LeastOn(n, Reading(r)(op), |stmts|);
  }

  ghost function Telling(w: World, r: nat, b: nat, base: seq<Entry>, stmts: seq<Stmt>)
    : (State, Op, nat, State, Answer) -> bool
    requires Succeeds(w, base, b, stmts)
  {
    (s: State, op: Op, n: nat, s': State, a: Answer) =>
      Answered(w, s, op, s', a, r, b, base, stmts, Least(n, |stmts|))
  }

  lemma PlacesMove(w: World, r: nat, b: nat, base: seq<Entry>, stmts: seq<Stmt>)
    requires Succeeds(w, base, b, stmts)
    ensures Progresses(Stepper(w), ReadyPlace(w, r, b, base, stmts), Failing(), Allowing(r), Reading(r),
      Telling(w, r, b, base, stmts))
  {
    var step, at := Stepper(w), ReadyPlace(w, r, b, base, stmts);
    var weigh, told := Reading(r), Telling(w, r, b, base, stmts);
    forall s, n: nat, op | at(s, n) && Allowing(r)(op) && !Failing()(step(s, op).0)
      ensures at(step(s, op).0, n + weigh(op)) && told(s, op, n, step(s, op).0, step(s, op).1)
    {
      PlaceMoves(w, s, op, r, b, base, stmts, n);
      StepAnswers(w, s, op, r, b, base, stmts, Least(n, |stmts|));
    }
    forall s, n: nat, op, more | at(s, n) && Failing()(step(s, op).0) && Allowing(r)(op)
      ensures Failing()(Fold(step, step(s, op).0, more).0)
    {
      StepAuto(w, s, op, r);
      StaysFailed(w, step(s, op).0, more);
    }
  }

  lemma StaysFailed(w: World, s: State, more: seq<Op>)
    requires WellFormed(s) && s.core.autoErr && s.core.err.Some?
    ensures Fold(Stepper(w), s, more).0.core.err.Some?
  {
    DoomedRun(w, s, more);
  }

  lemma ReadsTell(w: World, s: State, r: nat, b: nat, base: seq<Entry>, stmts: seq<Stmt>, ops: seq<Op>, i: nat, n: nat)
    requires ReadyPlace(w, r, b, base, stmts)(s, 0) && Succeeds(w, base, b, stmts)
    requires i < |ops| && n == Moves(Reading(r), ops[..i])
    requires (forall j :: 0 <= j < |ops| ==> Allowing(r)(ops[j])) && !Failing()(Fold(Stepper(w), s, ops).0)
    ensures Reached(Stepper(w), Telling(w, r, b, base, stmts), s, ops, i, n)
  {
    PlacesMove(w, r, b, base, stmts);
    ToldAlong(Stepper(w), ReadyPlace(w, r, b, base, stmts), Failing(), Allowing(r), Reading(r),
      Telling(w, r, b, base, stmts), s, 0, ops, i);
  }

  lemma Tells(w: World, s: State, op: Op, s': State, a: Answer, r: nat, b: nat, base: seq<Entry>, stmts: seq<Stmt>,
              n: nat)
    requires Succeeds(w, base, b, stmts) && Telling(w, r, b, base, stmts)(s, op, n, s', a)
    ensures Answered(w, s, op, s', a, r, b, base, stmts, Least(n, |stmts|))
  {
  }

  /** Every read of a batch that is open, in whatever way its rows are read in between, answers the outcome of the next
      statement, as long as nothing fails. */
  lemma ReadsDeliver(w: World, s: State, r: nat, b: nat, base: seq<Entry>, stmts: seq<Stmt>, ops: seq<Op>, i: nat)
    requires WellFormed(s) && Ready(w, s, r, b, base, stmts, 0) && Succeeds(w, base, b, stmts) && i < |ops|
    requires (forall n :: 0 <= n < |ops| ==> InBatch(r, ops[n])) && Run(w, s, ops).0.core.err.None?
    ensures Answered(w, StateAt(w, s, ops, i), ops[i], StateAt(w, s, ops, i + 1), Run(w, s, ops).1[i],
      r, b, base, stmts, Least(Moves(Reading(r), ops[..i]), |stmts|))
  {
    ReadsTell(w, s, r, b, base, stmts, ops, i, Moves(Reading(r), ops[..i]));
    Tells(w, StateAt(w, s, ops, i), ops[i], StateAt(w, s, ops, i + 1), Run(w, s, ops).1[i], r, b, base, stmts,
      Moves(Reading(r), ops[..i]));
  }

  // ----- From Send on -----

  /** Send of a batch in a transaction where nothing failed and no other batch is open. */
  lemma SendReady(w: World, s: State, b: nat)
    requires WellFormed(s) && b < |s.batches| && !s.batches[b].sent && s.batches[b].items != []
    requires s.core.autoErr && s.core.err.None? && s.tx.open.None? && !s.tx.ended
    requires var stmts := Statements(s.batches[b].items);
      && Succeeds(w, s.tx.log, b, stmts) && w.reject(s.tx.log, stmts).None? && w.late(s.tx.log, stmts).None?
    ensures var ((s', a), r, stmts) := (Step(w, s, OpSend(b)), |s.results|, Statements(s.batches[b].items));
      && a == Handle(r) && Ready(w, s', r, b, s.tx.log, stmts, 0)
      && s'.results[r].pipelined == s.tx.conn
  {
    var items := s.batches[b].items;
    var stmts := Statements(items);
    forall i | 0 <= i < |items|
      ensures !items[i].stmt.named
    {
      assert items[i].stmt == stmts[i];
    }
    assert Logged(s.tx.log, b, stmts, 0) == s.tx.log;
    var s1 := s.(tx := s.tx.(unsent := s.tx.unsent - 1), batches := s.batches[b := s.batches[b].(sent := true)]);
    PipelineDelivers(w, s1.tx, b, items);
    var s2 := AddResults(s1, b, None);
    assert Step(w, s, OpSend(b)) == SendItems(w, s2, b, |s.results|);
    var p := Pipeline(w, s1.tx, b, items);
    SameStatements(items, p.items);
  }

  lemma SameStatements(items: seq<Item>, items': seq<Item>)
    requires |items| == |items'| && forall j: nat :: j < |items| ==> items'[j].stmt == items[j].stmt
    ensures Statements(items') == Statements(items)
  {
  }

  /** A batch delivers: on any driver, whatever is done with the rows in between, the i-th read answers the outcome of
      the i-th statement, executed behind the statements before it. */
  lemma BatchDelivers(w: World, s: State, b: nat, ops: seq<Op>, i: nat)
    requires WellFormed(s) && b < |s.batches| && !s.batches[b].sent && s.batches[b].items != []
    requires s.core.autoErr && s.core.err.None? && s.tx.open.None? && !s.tx.ended
    requires var stmts := Statements(s.batches[b].items);
      && Succeeds(w, s.tx.log, b, stmts) && w.reject(s.tx.log, stmts).None? && w.late(s.tx.log, stmts).None?
    requires i < |ops| && (forall n :: 0 <= n < |ops| ==> InBatch(|s.results|, ops[n]))
    requires Run(w, Step(w, s, OpSend(b)).0, ops).0.core.err.None?
    ensures var (sent, r, stmts) := (Step(w, s, OpSend(b)).0, |s.results|, Statements(s.batches[b].items));
      && Step(w, s, OpSend(b)).1 == Handle(r)
      && Answered(w, StateAt(w, sent, ops, i), ops[i], StateAt(w, sent, ops, i + 1), Run(w, sent, ops).1[i],
           r, b, s.tx.log, stmts, Least(Moves(Reading(r), ops[..i]), |stmts|))
  {
    SendReady(w, s, b);
    ReadsDeliver(w, Step(w, s, OpSend(b)).0, |s.results|, b, s.tx.log, Statements(s.batches[b].items), ops, i);
  }

  // ----- Reads that nothing keeps from succeeding -----

  /** No error waits behind any rows. */
  predicate Clean(c: Cursor) {
    c.tail.None? && c.rest.None? && CursorErr(c).None?
  }

  ghost predicate CleanRows(c: Core) {
    forall k :: 0 <= k < |c.rows| ==> Clean(c.rows[k].cursor)
  }

  /** Closing rows reports nothing either. */
  ghost predicate Quiet(w: World, base: seq<Entry>, b: nat, stmts: seq<Stmt>) {
    Succeeds(w, base, b, stmts) && forall j: nat :: j < |stmts| ==> OutcomeOf(w, base, b, stmts, j).rest.None?
  }

  lemma SupersedeClean(c: Core, r: nat)
    requires WellFormedCore(c) && r < |c.readers| && CleanRows(c) && c.err.None? && c.readers[r].err.None?
    ensures CleanRows(Supersede(c, r)) && Supersede(c, r).err.None? && Supersede(c, r).readers[r].err.None?
  {
  }

  lemma ReadsGoOn(w: World, s: State, r: nat, b: nat, base: seq<Entry>, stmts: seq<Stmt>, j: nat)
    requires WellFormed(s) && Ready(w, s, r, b, base, stmts, j) && Quiet(w, base, b, stmts) && CleanRows(s.core)
    ensures ReadExec(w, s, r).0.core.err.None? && CleanRows(ReadExec(w, s, r).0.core)
  {
    SupersedeClean(s.core, r);
    AdvanceReady(w, s, r, b, base, stmts, j);
    var s1 := Advance(s, r).0;
    if j < |stmts| && !s.results[r].pipelined {
      RunReady(w, s1, r, b, base, stmts, j, true);
    }
  }

  lemma QueriesGoOn(w: World, s: State, r: nat, b: nat, base: seq<Entry>, stmts: seq<Stmt>, j: nat)
    requires WellFormed(s) && Ready(w, s, r, b, base, stmts, j) && Quiet(w, base, b, stmts) && CleanRows(s.core)
    ensures ReadQuery(w, s, r).0.core.err.None? && CleanRows(ReadQuery(w, s, r).0.core)
  {
    SupersedeClean(s.core, r);
    AdvanceReady(w, s, r, b, base, stmts, j);
    var s1 := Advance(s, r).0;
    if j < |stmts| && !s.results[r].pipelined {
      RunReady(w, s1, r, b, base, stmts, j, false);
      assert OutcomeOf(w, base, b, stmts, j).rest.None?;
    }
  }

  lemma StepGoesOn(w: World, s: State, op: Op, r: nat, b: nat, base: seq<Entry>, stmts: seq<Stmt>, j: nat)
    requires WellFormed(s) && Ready(w, s, r, b, base, stmts, j) && Quiet(w, base, b, stmts) && CleanRows(s.core)
    requires op == OpReadExec(r) || op == OpReadQuery(r)
    ensures Step(w, s, op).0.core.err.None? && CleanRows(Step(w, s, op).0.core)
  {
    StepExecs(w, s, r);
    StepQueries(w, s, r);
    ReadsGoOn(w, s, r, b, base, stmts, j);
    QueriesGoOn(w, s, r, b, base, stmts, j);
  }

  /** The next read of a batch that goes on goes on. */
  lemma GoesOn(w: World, s: State, op: Op, r: nat, b: nat, base: seq<Entry>, stmts: seq<Stmt>, j: nat)
    requires WellFormed(s) && Ready(w, s, r, b, base, stmts, j) && Quiet(w, base, b, stmts) && CleanRows(s.core)
    requires op == OpReadExec(r) || op == OpReadQuery(r)
    ensures var s' := Step(w, s, op).0;
      WellFormed(s') && Ready(w, s', r, b, base, stmts, Least(j + 1, |stmts|)) && CleanRows(s'.core)
  {
    StepGoesOn(w, s, op, r, b, base, stmts, j);
    StepReady(w, s, op, r, b, base, stmts, j);
  }

  /** What a step keeps, a script keeps. */
  lemma {:induction false} FoldStays(step: (State, Op) -> (State, Answer), kept: State -> bool, allowed: Op -> bool,
                                     s: State, ops: seq<Op>)
    requires forall s, op {:trigger step(s, op)} :: kept(s) && allowed(op) ==> kept(step(s, op).0)
    requires kept(s) && forall j :: 0 <= j < |ops| ==> allowed(ops[j])
    ensures kept(Fold(step, s, ops).0)
    decreases ops
  {
    if ops != [] {
      FoldStays(step, kept, allowed, step(s, ops[0]).0, ops[1..]);
    }
  }

  ghost predicate Going(w: World, s: State, r: nat, b: nat, base: seq<Entry>, stmts: seq<Stmt>) {
    WellFormed(s) && CleanRows(s.core) && exists j: nat :: Ready(w, s, r, b, base, stmts, j)
  }

  lemma ReadsSucceed(w: World, s: State, r: nat, b: nat, base: seq<Entry>, stmts: seq<Stmt>, ops: seq<Op>)
    requires WellFormed(s) && Ready(w, s, r, b, base, stmts, 0) && Quiet(w, base, b, stmts) && CleanRows(s.core)
    requires forall n :: 0 <= n < |ops| ==> ops[n] == OpReadExec(r) || ops[n] == OpReadQuery(r)
    ensures Run(w, s, ops).0.core.err.None?
  {
    var kept, allowed := (s: State) => Going(w, s, r, b, base, stmts), (op: Op) => Reads(r, op);
    forall s, op | kept(s) && allowed(op)
      ensures kept(Stepper(w)(s, op).0)
    {
      var j: nat :| Ready(w, s, r, b, base, stmts, j);
      GoesOn(w, s, op, r, b, base, stmts, j);
    }
    FoldStays(Stepper(w), kept, allowed, s, ops);
  }

  predicate Reads(r: nat, op: Op) {
    op == OpReadExec(r) || op == OpReadQuery(r)
  }

  /** A batch whose statements succeed, sent and read without looking at rows: nothing fails. */
  lemma BatchSucceeds(w: World, s: State, b: nat, ops: seq<Op>)
    requires WellFormed(s) && b < |s.batches| && !s.batches[b].sent && s.batches[b].items != []
    requires s.core.autoErr && s.core.err.None? && s.tx.open.None? && !s.tx.ended && CleanRows(s.core)
    requires var stmts := Statements(s.batches[b].items);
      && Quiet(w, s.tx.log, b, stmts) && w.reject(s.tx.log, stmts).None? && w.late(s.tx.log, stmts).None?
    requires forall n :: 0 <= n < |ops| ==> ops[n] == OpReadExec(|s.results|) || ops[n] == OpReadQuery(|s.results|)
    ensures Run(w, Step(w, s, OpSend(b)).0, ops).0.core.err.None?
  {
    var sent := Step(w, s, OpSend(b)).0;
    SendReady(w, s, b);
    assert sent.core.rows == s.core.rows by {
      assert StepBatch(w, s, OpSend(b)) == Send(w, s, b);
    }
    ReadsSucceed(w, sent, |s.results|, b, s.tx.log, Statements(s.batches[b].items), ops);
  }
}
