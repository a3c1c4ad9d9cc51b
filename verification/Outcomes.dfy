/** What the log of a run that may commit holds: statements that succeeded, save those whose failure still waits in a
    Row, or behind rows that were not read to their end, and the statements of each batch as the closure queued them. */
module Outcomes {
  import opened Errors
  import opened Session
  import opened SessionSafety
  import opened Faults
  import Steps

  // ----- Failed statements and where their failures wait -----

  /** The server failed the j-th statement of the log, at once or behind its rows. */
  predicate FailedAt(w: World, log: seq<Entry>, j: nat) {
    j < |log| && ServerFails(w, log[..j], log[j].stmt, true)
  }

  /** An error waits behind rows that were not read to their end. */
  predicate Unread(c: Cursor) {
    c.tail.Some? && !c.pos.Over?
  }

  /** A Row takes NoRows for a missing row, whoever reports it. */
  predicate TakenForMissing(p: Plain) {
    p.PlainRow? && p.cursor.tail.Some? && p.cursor.tail.value.root == NoRows
  }

  predicate HoldsFailure(p: Plain) {
    p.FailedRow? || Unread(p.cursor) || TakenForMissing(p)
  }

  /** Where a failure can wait: in a Rows or a Row, or in the rows of a batch. */
  datatype Place = Plainly(h: nat) | InBatch(k: nat)

  predicate Waits(s: State, at: Place) {
    match at
    case Plainly(h) => h < |s.plain| && HoldsFailure(s.plain[h])
    case InBatch(k) => k < |s.core.rows| && Unread(s.core.rows[k].cursor)
  }

  /** The cursor is over the rows of the outcome. */
  predicate Gave(outcome: Outcome, c: Cursor) {
    outcome.Ok? && c == Cursor(outcome.rows, c.pos, outcome.tail, outcome.rest)
  }

  predicate PlainlyOf(p: Plain, outcome: Outcome) {
    if p.FailedRow? then outcome.Fail? && p.err == TraceErr(outcome.err) else Gave(outcome, p.cursor)
  }

  /** Rows that stream what a statement of their batch gave. */
  predicate BatchOf(s: State, row: BatchRows, origin: Origin, outcome: Outcome) {
    && origin.FromBatch? && row.results < |s.results| && s.results[row.results].batch == origin.batch
    && !row.buffered && Gave(outcome, row.cursor)
  }

  /** What waits at a place is the failure of the j-th statement. */
  ghost predicate Holds(w: World, s: State, at: Place, j: nat) {
    && Waits(s, at) && j < |s.tx.log|
    && var (e, outcome) := (s.tx.log[j], w.server(s.tx.log[..j], s.tx.log[j].stmt));
    match at
    case Plainly(h) => e.origin.Direct? && PlainlyOf(s.plain[h], outcome)
    case InBatch(k) => BatchOf(s, s.core.rows[k], e.origin, outcome)
  }

  /** Failed statements and the places where a failure waits belong together. */
  ghost predicate Accounted(w: World, s: State) {
    && (forall j: nat {:trigger FailedAt(w, s.tx.log, j)} ::
          FailedAt(w, s.tx.log, j) ==> exists at :: Holds(w, s, at, j))
    && (forall at {:trigger Waits(s, at)} :: Waits(s, at) ==> exists j: nat :: Holds(w, s, at, j))
  }

  lemma HoldsFailed(w: World, s: State, at: Place, j: nat)
    requires Holds(w, s, at, j)
    ensures FailedAt(w, s.tx.log, j)
  {
  }

  // ----- Cursors only move on -----

  /** A cursor moves on over the same rows, and stays where it ended. */
  predicate MovesOn(c: Cursor, c': Cursor) {
    c' == c.(pos := c'.pos) && (Ended(c) ==> c' == c)
  }

  predicate PlainMovesOn(p: Plain, p': Plain) {
    if p.FailedRow? then p' == p else !p'.FailedRow? && p'.PlainRow? == p.PlainRow? && MovesOn(p.cursor, p'.cursor)
  }

  predicate RowMovesOn(a: BatchRows, b: BatchRows) {
    b.results == a.results && b.buffered == a.buffered && MovesOn(a.cursor, b.cursor)
  }

  /** Rows that stream were read to their end, past the error behind it. */
  predicate Surfaced(a: BatchRows, b: BatchRows) {
    !a.buffered && Unread(a.cursor) && !Unread(b.cursor)
  }

  /** Rows move on, and an error that surfaces is recorded. */
  ghost predicate CoreMoves(c: Core, c': Core) {
    && (c.err.Some? ==> c'.err.Some?) && c'.autoErr == c.autoErr
    && |c.rows| <= |c'.rows|
    && (forall k :: 0 <= k < |c.rows| ==> RowMovesOn(c.rows[k], c'.rows[k]))
    && (forall k :: 0 <= k < |c.rows| && Surfaced(c.rows[k], c'.rows[k]) && c.autoErr ==> c'.err.Some?)
  }

  lemma CoreMovesOn(a: Core, b: Core, c: Core)
    requires CoreMoves(a, b) && CoreMoves(b, c)
    ensures CoreMoves(a, c)
  {
    forall k | 0 <= k < |a.rows| && Surfaced(a.rows[k], c.rows[k]) && a.autoErr
      ensures c.err.Some?
    {
      assert RowMovesOn(a.rows[k], b.rows[k]) && RowMovesOn(b.rows[k], c.rows[k]);
      assert Surfaced(a.rows[k], b.rows[k]) || Surfaced(b.rows[k], c.rows[k]);
    }
  }

  /** What only latches moves no rows. */
  lemma LatchMoves(c: Core, c': Core)
    requires Latched(c, c') && c'.rows == c.rows
    ensures CoreMoves(c, c')
  {
  }

  lemma CloseMoves(c: Core, k: nat)
    requires WellFormedCore(c) && k < |c.rows|
    ensures CoreMoves(c, RowsClose(c, k))
  {
  }

  lemma NextMoves(c: Core, k: nat)
    requires WellFormedCore(c) && k < |c.rows|
    ensures CoreMoves(c, RowsNext(c, k).0)
  {
  }

  lemma ScanMoves(w: World, c: Core, k: nat, dest: Dest, raw: bool)
    requires WellFormedCore(c) && k < |c.rows|
    ensures CoreMoves(c, RowScan(w, c, k, dest, raw).0)
  {
    if !c.rows[k].superseded {
      var (c1, more) := RowsNext(c, k);
      var (c2, e) := RowScanAfterNext(w, c1, k, more, dest, raw);
      NextMoves(c, k);
      LatchMoves(c1, c2);
      CloseMoves(c2, k);
      CoreMovesOn(c, c1, c2);
      CoreMovesOn(c, c2, RowsClose(c2, k));
    }
  }

  lemma RowsMove(w: World, c: Core, op: Op)
    requires WellFormedCore(c) && IsRows(op) && op.k < |c.rows|
    ensures CoreMoves(c, StepRows(w, c, op).0) && |StepRows(w, c, op).0.rows| == |c.rows|
  {
    match op {
      case OpRowsNext(k) => NextMoves(c, k);
      case OpRowsScan(k, dest) =>
      case OpRowsErr(k) =>
      case OpRowsClose(k) => CloseMoves(c, k);
      case OpRowScan(k, dest, raw) => ScanMoves(w, c, k, dest, raw);
    }
  }

  lemma SupersedeMoves(c: Core, r: nat)
    requires WellFormedCore(c) && r < |c.readers|
    ensures CoreMoves(c, Supersede(c, r)) && |Supersede(c, r).rows| == |c.rows|
  {
    if c.readers[r].open.Some? {
      var k := c.readers[r].open.value;
      var row := c.rows[k];
      var c1 := if row.closed || row.done then c else SetRow(c, k, row.(superseded := true));
      assert CoreMoves(c, c1);
      CloseMoves(c1, k);
      CoreMovesOn(c, c1, RowsClose(c1, k));
    }
  }

  lemma AdvanceRows(s: State, r: nat)
    requires WellFormed(s) && r < |s.results|
    ensures CoreMoves(s.core, Advance(s, r).0.core) && |Advance(s, r).0.core.rows| == |s.core.rows|
  {
    var (c1, c) := (Supersede(s.core, r), Advance(s, r).0.core);
    SupersedeMoves(s.core, r);
    assert Latched(c1, c) && c.rows == c1.rows by { AdvanceLatches(s, r); }
    LatchMoves(c1, c);
    CoreMovesOn(s.core, c1, c);
  }

  lemma AdvanceLatches(s: State, r: nat)
    requires WellFormed(s) && r < |s.results|
    ensures var (c1, c) := (Supersede(s.core, r), Advance(s, r).0.core); Latched(c1, c) && c.rows == c1.rows
  {
    var c1 := Supersede(s.core, r);
    if !s.results[r].closed {
      var s1 := WithCore(s, Doomed(c1, r));
      LatchedOn(c1, s1.core, AdvanceOpen(s1, r).0.core);
    }
  }

  lemma {:induction false} RestRowsStay(w: World, s: State, r: nat)
    requires WellFormed(s) && r < |s.results|
    ensures RunRest(w, s, r).0.core.rows == s.core.rows
    decreases |Items(s, r)| - s.results[r].next
  {
    var i := s.results[r].next;
    if s.core.readers[r].err.None? && i < |Items(s, r)| {
      var (s1, ran) := RunItem(w, Skip(s, r), r, i, true);
      if !ran.Unwound? {
        RestRowsStay(w, s1, r);
      }
    }
  }

  lemma CloseResultsMoves(w: World, s: State, r: nat)
    requires WellFormed(s) && r < |s.results|
    ensures var c := CloseResults(w, s, r).0.core; CoreMoves(s.core, c) && |c.rows| == |s.core.rows|
  {
    if !s.results[r].closed {
      var c1 := Supersede(s.core, r);
      var c2 := Doomed(c1, r);
      var s3 := FinishResults(w, WithCore(s, c2), r).0;
      SupersedeMoves(s.core, r);
      LatchMoves(c1, c2);
      CoreMovesOn(s.core, c1, c2);
      FinishMoves(w, WithCore(s, c2), r);
      CoreMovesOn(s.core, c2, s3.core);
      SupersedeMoves(s3.core, r);
      CoreMovesOn(s.core, s3.core, Supersede(s3.core, r));
    }
  }

  lemma FinishMoves(w: World, s: State, r: nat)
    requires WellFormed(s) && r < |s.results|
    ensures var c := FinishResults(w, s, r).0.core; CoreMoves(s.core, c) && c.rows == s.core.rows
  {
    RunRestShape(w, s, r);
    RestRowsStay(w, s, r);
    LatchMoves(s.core, FinishResults(w, s, r).0.core);
  }

  // ----- What a step adds -----

  /** What a step that meets no error adds to the log succeeded. */
  ghost predicate Succeeds(w: World, log: seq<Entry>, log': seq<Entry>) {
    log <= log' && forall j: nat :: |log| <= j < |log'| ==> !FailedAt(w, log', j)
  }

  lemma SucceedsOn(w: World, a: seq<Entry>, b: seq<Entry>, c: seq<Entry>)
    requires Succeeds(w, a, b) && Succeeds(w, b, c)
    ensures Succeeds(w, a, c)
  {
    forall j: nat | |a| <= j < |c|
      ensures !FailedAt(w, c, j)
    {
      if j < |b| {
        assert !FailedAt(w, b, j);
        assert c[..j] == b[..j] && c[j] == b[j];
      }
    }
  }

  lemma SucceedsOnce(w: World, log: seq<Entry>, e: Entry)
    requires !ServerFails(w, log, e.stmt, true)
    ensures Succeeds(w, log, log + [e])
  {
    assert (log + [e])[..|log|] == log;
  }

  lemma {:induction false} PipeRunSucceeds(w: World, log: seq<Entry>, b: nat, items: seq<Item>, i: nat)
    requires i <= |items| && !PipeFails(w, log, b, items, i)
    ensures Succeeds(w, log, PipeRun(w, log, b, items, i).0)
    decreases |items| - i
  {
    if i < |items| {
      var e := Entry(items[i].stmt, FromBatch(b, i));
      SucceedsOnce(w, log, e);
      PipeRunSucceeds(w, log + [e], b, items, i + 1);
      SucceedsOn(w, log, log + [e], PipeRun(w, log + [e], b, items, i + 1).0);
    }
  }

  lemma PipelineSucceeds(w: World, tx: Tx, b: nat, items: seq<Item>)
    requires !PipelineMeets(w, tx, b, items)
    ensures Succeeds(w, tx.log, Pipeline(w, tx, b, items).log)
  {
    FirstUnpackNone(items);
    PipeRunSucceeds(w, tx.log, b, items, 0);
  }

  lemma SendSucceeds(w: World, s: State, b: nat)
    requires Inv(s) && b < |s.batches| && !SendMeets(w, s, b)
    ensures Succeeds(w, s.tx.log, Send(w, s, b).0.tx.log)
  {
    var items := s.batches[b].items;
    if items != [] && s.tx.conn {
      PipelineSucceeds(w, s.tx, b, items);
      Steps.PipelineReads(w, s.tx, MarkSent(s, b).tx, b, items);
    }
  }

  lemma RunItemSucceeds(w: World, s: State, r: nat, i: nat)
    requires WellFormed(s) && r < |s.results| && i < |Items(s, r)| && s.core.autoErr && s.core.err.None?
    requires RunItem(w, s, r, i, true).0.core.err.None?
    ensures Succeeds(w, s.tx.log, RunItem(w, s, r, i, true).0.tx.log)
  {
    RanOn(w, s, r, i, true);
    RunItemMet(w, s, r, i, true);
    SucceedsOnce(w, s.tx.log, Entry(Items(s, r)[i].stmt, FromBatch(s.results[r].batch, i)));
  }

  lemma ReadSucceeds(w: World, s: State, r: nat)
    requires Inv(s) && r < |s.results| && s.core.autoErr && s.core.err.None?
    requires ReadExec(w, s, r).0.core.err.None?
    ensures Succeeds(w, s.tx.log, ReadExec(w, s, r).0.tx.log)
  {
    var (s1, turn) := Advance(s, r);
    if turn.Read? && !s.results[r].pipelined {
      RunItemSucceeds(w, s1, r, turn.index);
    }
  }

  lemma {:induction false} RestSucceeds(w: World, s: State, r: nat)
    requires WellFormed(s) && r < |s.results| && s.core.autoErr && s.core.err.None?
    requires RunRest(w, s, r).0.core.err.None?
    ensures Succeeds(w, s.tx.log, RunRest(w, s, r).0.tx.log)
    decreases |Items(s, r)| - s.results[r].next
  {
    var i := s.results[r].next;
    if s.core.readers[r].err.None? && i < |Items(s, r)| {
      var (s1, ran) := RunItem(w, Skip(s, r), r, i, true);
      if s1.core.err.Some? {
        RestHolds(w, s1, r);
      } else {
        RunItemSucceeds(w, Skip(s, r), r, i);
        if !ran.Unwound? {
          RestSucceeds(w, s1, r);
          SucceedsOn(w, s.tx.log, s1.tx.log, RunRest(w, s1, r).0.tx.log);
        }
      }
    }
  }

  lemma CloseSucceeds(w: World, s: State, r: nat)
    requires Inv(s) && r < |s.results| && s.core.autoErr && s.core.err.None?
    requires CloseResults(w, s, r).0.core.err.None?
    ensures Succeeds(w, s.tx.log, CloseResults(w, s, r).0.tx.log)
  {
    if !s.results[r].closed {
      var s1 := WithCore(s, Doomed(Supersede(s.core, r), r));
      var s2 := FinishResults(w, s1, r).0;
      assert Latched(s2.core, Supersede(s2.core, r));
      if s1.core.err.Some? {
        RestHolds(w, s1, r);
      } else if !s.results[r].pipelined {
        RestSucceeds(w, s1, r);
      }
    }
  }

  // ----- Every step accounts for what it adds -----

  /** Rows of both kinds only move on, and results stay those of their batch. */
  ghost predicate Advances(s: State, s': State) {
    && |s.plain| <= |s'.plain| && (forall h :: 0 <= h < |s.plain| ==> PlainMovesOn(s.plain[h], s'.plain[h]))
    && |s.core.rows| <= |s'.core.rows|
    && (forall k :: 0 <= k < |s.core.rows| ==> RowMovesOn(s.core.rows[k], s'.core.rows[k]))
    && |s.results| <= |s'.results|
    && (forall r :: 0 <= r < |s.results| ==> s'.results[r].batch == s.results[r].batch)
  }

  predicate IsNew(s: State, at: Place) {
    match at
    case Plainly(h) => h >= |s.plain|
    case InBatch(k) => k >= |s.core.rows|
  }

  /** No failure that waited is gone. */
  ghost predicate Keeps(s: State, s': State) {
    forall at {:trigger Waits(s', at)} :: Waits(s, at) ==> Waits(s', at)
  }

  /** A step whose new failures, if any, wait in new places, which hold nothing else. */
  ghost predicate Adds(w: World, s: State, s': State) {
    && s.tx.log <= s'.tx.log && Advances(s, s') && Keeps(s, s')
    && (forall j: nat {:trigger FailedAt(w, s'.tx.log, j)} ::
          |s.tx.log| <= j && FailedAt(w, s'.tx.log, j) ==> exists at :: Holds(w, s', at, j))
    && (forall at {:trigger Waits(s', at)} :: IsNew(s, at) && Waits(s', at) ==> exists j: nat :: Holds(w, s', at, j))
  }

  lemma FailedStays(w: World, log: seq<Entry>, log': seq<Entry>, j: nat)
    requires log <= log' && j < |log|
    ensures FailedAt(w, log', j) <==> FailedAt(w, log, j)
    ensures log'[..j] == log[..j] && log'[j] == log[j]
  {
  }

  lemma HoldsStays(w: World, s: State, s': State, at: Place, j: nat)
    requires s.tx.log <= s'.tx.log && Advances(s, s') && Waits(s', at) && Holds(w, s, at, j)
    ensures Holds(w, s', at, j)
  {
    FailedStays(w, s.tx.log, s'.tx.log, j);
  }

  /** What waits in a place that was there before waited there before. */
  lemma WaitedBefore(s: State, s': State, at: Place)
    requires Advances(s, s') && Waits(s', at) && !IsNew(s, at)
    ensures Waits(s, at)
  {
  }

  lemma AddsAccounted(w: World, s: State, s': State)
    requires Accounted(w, s) && Adds(w, s, s')
    ensures Accounted(w, s')
  {
    forall j: nat | FailedAt(w, s'.tx.log, j)
      ensures exists at :: Holds(w, s', at, j)
    {
      if j < |s.tx.log| {
        FailedStays(w, s.tx.log, s'.tx.log, j);
        var at :| Holds(w, s, at, j);
        assert Waits(s', at);
        HoldsStays(w, s, s', at, j);
      }
    }
    forall at | Waits(s', at)
      ensures exists j: nat :: Holds(w, s', at, j)
    {
      if !IsNew(s, at) {
        WaitedBefore(s, s', at);
        var j: nat :| Holds(w, s, at, j);
        HoldsStays(w, s, s', at, j);
      }
    }
  }

  /** A step that runs only statements that succeed, and gives no rows. */
  lemma QuietAdds(w: World, s: State, s': State)
    requires Succeeds(w, s.tx.log, s'.tx.log) && Advances(s, s') && Keeps(s, s')
    requires |s'.plain| == |s.plain| && |s'.core.rows| == |s.core.rows|
    ensures Adds(w, s, s')
  {
  }

  /** Rows and a log are all that moved. */
  lemma CoreAdds(w: World, s: State, s': State)
    requires Accounted(w, s) && s.core.autoErr && s'.core.err.None? && CoreMoves(s.core, s'.core)
    requires s'.plain == s.plain && |s.results| <= |s'.results|
    requires forall r :: 0 <= r < |s.results| ==> s'.results[r].batch == s.results[r].batch
    ensures Advances(s, s') && Keeps(s, s')
  {
    forall at | Waits(s, at)
      ensures Waits(s', at)
    {
      if at.InBatch? {
        var j: nat :| Holds(w, s, at, j);
        assert !Surfaced(s.core.rows[at.k], s'.core.rows[at.k]);
      }
    }
  }

  // ----- Statements outside batches -----

  /** The statement that ran, and the Rows or Row that it gave. */
  lemma GivenAdds(w: World, s: State, s': State, e: Entry, p: Plain)
    requires s'.tx.log == s.tx.log + [e] && e.origin.Direct? && s'.plain == s.plain + [p]
    requires s'.core.rows == s.core.rows && s'.results == s.results
    requires PlainlyOf(p, w.server(s.tx.log, e.stmt)) && (!p.FailedRow? ==> p.cursor.pos.Before?)
    ensures Adds(w, s, s')
  {
    var n := |s.tx.log|;
    assert s'.tx.log[..n] == s.tx.log && s'.tx.log[n] == e;
    var at := Plainly(|s.plain|);
    assert Waits(s', at) ==> Holds(w, s', at, n);
    assert FailedAt(w, s'.tx.log, n) ==> Waits(s', at);
    forall other | Waits(s, other)
      ensures Waits(s', other)
    {
    }
  }

  lemma NothingAdded(w: World, s: State, s': State)
    requires s'.tx.log == s.tx.log && s'.plain == s.plain && s'.core.rows == s.core.rows && s'.results == s.results
    ensures Adds(w, s, s')
  {
    assert forall at :: Waits(s, at) ==> Waits(s', at);
    QuietAdds(w, s, s');
  }

  lemma ExecAdds(w: World, s: State, stmt: Stmt, via: Via)
    requires ViaExists(s, via) && !PlainMeets(w, s, OpExec(stmt, via))
    ensures Adds(w, s, TxExec(w, s, stmt, via).0)
  {
    var st, s' := PlainStmt(s, via, stmt), TxExec(w, s, stmt, via).0;
    if s'.tx.log == s.tx.log {
      NothingAdded(w, s, s');
    } else {
      SucceedsOnce(w, s.tx.log, Entry(st, Direct));
      assert forall at :: Waits(s, at) ==> Waits(s', at);
      QuietAdds(w, s, s');
    }
  }

  lemma QueryAdds(w: World, s: State, stmt: Stmt, via: Via)
    requires ViaExists(s, via) && !PlainMeets(w, s, OpQuery(stmt, via))
    ensures Adds(w, s, TxQuery(w, s, stmt, via).0)
  {
    var st, s' := PlainStmt(s, via, stmt), TxQuery(w, s, stmt, via).0;
    if s'.tx.log == s.tx.log {
      NothingAdded(w, s, s');
    } else {
      GivenAdds(w, s, s', Entry(st, Direct), s'.plain[|s.plain|]);
    }
  }

  lemma QueryRowAdds(w: World, s: State, stmt: Stmt, via: Via)
    requires ViaExists(s, via) && !s.tx.ended && !PlainMeets(w, s, OpQueryRow(stmt, via))
    ensures Adds(w, s, TxQueryRow(w, s, stmt, via).0)
  {
    var st, s' := PlainStmt(s, via, stmt), TxQueryRow(w, s, stmt, via).0;
    if s'.tx.log == s.tx.log {
      NothingAdded(w, s, s');
    } else {
      GivenAdds(w, s, s', Entry(st, Direct), s'.plain[|s.plain|]);
    }
  }

  /** A Rows or a Row moved on. */
  lemma MovedAdds(w: World, s: State, s': State, h: nat)
    requires h < |s.plain| && s'.tx.log == s.tx.log && s'.core.rows == s.core.rows && s'.results == s.results
    requires |s'.plain| == |s.plain| && s'.plain == s.plain[h := s'.plain[h]]
    requires PlainMovesOn(s.plain[h], s'.plain[h]) && (HoldsFailure(s.plain[h]) ==> HoldsFailure(s'.plain[h]))
    ensures Adds(w, s, s')
  {
    assert forall at :: Waits(s, at) ==> Waits(s', at);
    QuietAdds(w, s, s');
  }

  lemma ReadPlainAdds(w: World, s: State, op: Op)
    requires Enabled(s, op) && IsPlain(op) && !PlainMeets(w, s, op) && WellFormed(s)
    requires op.OpPlainNext? || op.OpPlainScan? || op.OpPlainErr? || op.OpPlainClose?
    ensures Adds(w, s, StepPlain(w, s, op).0)
  {
    var s' := StepPlain(w, s, op).0;
    assert s.plain[op.h := s.plain[op.h]] == s.plain;
    MovedAdds(w, s, s', op.h);
  }

  lemma PlainAdds(w: World, s: State, op: Op)
    requires WellFormed(s) && !s.tx.ended && Enabled(s, op) && IsPlain(op) && !PlainMeets(w, s, op)
    ensures Adds(w, s, StepPlain(w, s, op).0)
  {
    match op {
      case OpExec(stmt, via) => ExecAdds(w, s, stmt, via);
      case OpQuery(stmt, via) => QueryAdds(w, s, stmt, via);
      case OpQueryRow(stmt, via) => QueryRowAdds(w, s, stmt, via);
      case OpPrepare(_, _) => NothingAdded(w, s, StepPlain(w, s, op).0);
      case OpBind(_, _) => NothingAdded(w, s, StepPlain(w, s, op).0);
      case OpPlainNext(_) => ReadPlainAdds(w, s, op);
      case OpPlainScan(_, _) => ReadPlainAdds(w, s, op);
      case OpPlainErr(_) => ReadPlainAdds(w, s, op);
      case OpPlainClose(_) => ReadPlainAdds(w, s, op);
    }
  }

  // ----- Batches -----

  lemma StepAdds(w: World, s: State, op: Op)
    requires Inv(s) && s.core.autoErr && !s.tx.ended && !Stuck(s) && !Finalizes(op) && !Stuck(Step(w, s, op).0)
    requires Accounted(w, s)
    ensures Adds(w, s, Step(w, s, op).0)
  {
    MetIffStuck(w, s, op);
    if !Enabled(s, op) {
      NothingAdded(w, s, s);
    } else if IsPlain(op) {
      PlainAdds(w, s, op);
    } else if IsRows(op) {
      RowsAdds(w, s, op);
    } else {
      BatchAdds(w, s, op);
    }
  }

  lemma RowsAdds(w: World, s: State, op: Op)
    requires WellFormed(s) && s.core.autoErr && IsRows(op) && op.k < |s.core.rows| && Accounted(w, s)
    requires StepRows(w, s.core, op).0.err.None?
    ensures Adds(w, s, WithCore(s, StepRows(w, s.core, op).0))
  {
    var s' := WithCore(s, StepRows(w, s.core, op).0);
    RowsMove(w, s.core, op);
    CoreAdds(w, s, s');
    QuietAdds(w, s, s');
  }

  lemma BatchAdds(w: World, s: State, op: Op)
    requires Inv(s) && s.core.autoErr && s.core.err.None? && !Finalizes(op) && Accounted(w, s)
    requires Enabled(s, op) && !IsPlain(op) && !IsRows(op) && !Meets(w, s, op)
    requires StepBatch(w, s, op).0.core.err.None?
    ensures Adds(w, s, StepBatch(w, s, op).0)
  {
    match op {
      case OpBatch => NothingAdded(w, s, NewBatch(s));
      case OpQueue(b, stmt) => NothingAdded(w, s, Queue(s, b, stmt));
      case OpSend(b) => SendAdds(w, s, b);
      case OpReadExec(r) => ReadAdds(w, s, r);
      case OpReadQuery(r) => ReadQueryAdds(w, s, r);
      case OpClose(r) => CloseAdds(w, s, r);
    }
  }

  lemma SendAdds(w: World, s: State, b: nat)
    requires Inv(s) && s.core.autoErr && s.core.err.None? && b < |s.batches| && !SendMeets(w, s, b) && Accounted(w, s)
    ensures Adds(w, s, Send(w, s, b).0)
  {
    var s' := Send(w, s, b).0;
    SendSucceeds(w, s, b);
    SendFrame(w, s, b);
    assert forall at :: Waits(s, at) ==> Waits(s', at);
    QuietAdds(w, s, s');
  }

  lemma SendFrame(w: World, s: State, b: nat)
    requires WellFormed(s) && b < |s.batches|
    ensures var s' := Send(w, s, b).0;
      && s'.plain == s.plain && s'.core.rows == s.core.rows && |s'.results| == |s.results| + 1
      && (forall r :: 0 <= r < |s.results| ==> s'.results[r] == s.results[r])
  {
    Steps.SendSteps(w, s, b);
  }

  lemma ReadAdds(w: World, s: State, r: nat)
    requires Inv(s) && s.core.autoErr && s.core.err.None? && r < |s.results| && Accounted(w, s)
    requires ReadExec(w, s, r).0.core.err.None?
    ensures Adds(w, s, ReadExec(w, s, r).0)
  {
    var s' := ReadExec(w, s, r).0;
    ReadMoves(w, s, r);
    ReadSucceeds(w, s, r);
    AdvanceRows(s, r);
    LatchMoves(Advance(s, r).0.core, s'.core);
    CoreMovesOn(s.core, Advance(s, r).0.core, s'.core);
    CoreAdds(w, s, s');
    QuietAdds(w, s, s');
  }

  lemma ReadQueryAdds(w: World, s: State, r: nat)
    requires Inv(s) && s.core.autoErr && s.core.err.None? && r < |s.results| && Accounted(w, s)
    requires ReadQuery(w, s, r).0.core.err.None?
    ensures Adds(w, s, ReadQuery(w, s, r).0)
  {
    var (s1, turn) := Advance(s, r);
    AdvanceMoves(s, r);
    AdvanceRows(s, r);
    assert s1.tx.log == s.tx.log;
    if s1.core.err.None? {
      CoreAdds(w, s, s1);
      QuietAdds(w, s, s1);
      AddsAccounted(w, s, s1);
      TurnAdds(w, s1, r, turn, ReadQuery(w, s, r).0);
      AddsOn(w, s, s1, ReadQuery(w, s, r).0);
    }
  }

  /** Two steps, one after the other. */
  lemma AddsOn(w: World, s: State, s1: State, s': State)
    requires Adds(w, s, s1) && Adds(w, s1, s') && s1.tx.log == s.tx.log
    requires |s1.plain| == |s.plain| && |s1.core.rows| == |s.core.rows|
    ensures Adds(w, s, s')
  {
    forall at | Waits(s, at)
      ensures Waits(s', at)
    {
      assert Waits(s1, at);
    }
  }

  /** The rows that a read gives, behind advance. */
  lemma TurnAdds(w: World, s: State, r: nat, turn: Turn, s': State)
    requires WellFormed(s) && s.core.autoErr && s.core.err.None? && r < |s.results|
    requires turn.Read? ==> turn.index < |Items(s, r)|
    requires turn.Stop? ==> s' == s
    requires turn.Read? && s.results[r].pipelined ==>
      s' == OpenRows(s, r, Buffered(Items(s, r)[turn.index].rows), true).0
    requires turn.Read? && !s.results[r].pipelined ==>
      var (s2, ran) := RunItem(w, s, r, turn.index, false);
      s' == if ran.Succeeded? then OpenRows(s2, r, ran.cursor, false).0 else s2
    requires s'.core.err.None?
    ensures Adds(w, s, s')
  {
    if turn.Stop? {
      NothingAdded(w, s, s');
    } else if s.results[r].pipelined {
      OpenedAdds(w, s, s, s');
    } else {
      var (s2, ran) := RunItem(w, s, r, turn.index, false);
      RanOn(w, s, r, turn.index, false);
      RunItemMet(w, s, r, turn.index, false);
      OpenedAdds(w, s, s2, s');
    }
  }

  /** New rows, of a statement that just ran or of a buffer. */
  lemma OpenedAdds(w: World, s: State, s2: State, s': State)
    requires s' == WithCore(s2, s'.core) && s2 == WithLog(s, s2.tx.log)
    requires |s'.core.rows| == |s.core.rows| + 1 && s'.core.rows[..|s.core.rows|] == s.core.rows
    requires var row := s'.core.rows[|s.core.rows|];
      || (s2 == s && row.cursor.tail.None?)
      || (&& |s2.tx.log| == |s.tx.log| + 1 && s2.tx.log[..|s.tx.log|] == s.tx.log && row.cursor.pos.Before?
          && var e := s2.tx.log[|s.tx.log|]; BatchOf(s, row, e.origin, w.server(s.tx.log, e.stmt)))
    ensures Adds(w, s, s')
  {
    var n, at := |s.tx.log|, InBatch(|s.core.rows|);
    assert forall k :: 0 <= k < |s.core.rows| ==> s'.core.rows[k] == s'.core.rows[..|s.core.rows|][k];
    if s2 != s {
      assert s.tx.log <= s'.tx.log && s'.tx.log[..n] == s.tx.log;
      assert Waits(s', at) ==> Holds(w, s', at, n);
      assert FailedAt(w, s'.tx.log, n) ==> Waits(s', at);
    }
    assert forall other :: Waits(s, other) ==> Waits(s', other);
  }

  lemma CloseAdds(w: World, s: State, r: nat)
    requires Inv(s) && s.core.autoErr && s.core.err.None? && r < |s.results| && Accounted(w, s)
    requires CloseResults(w, s, r).0.core.err.None?
    ensures Adds(w, s, CloseResults(w, s, r).0)
  {
    var s' := CloseResults(w, s, r).0;
    CloseSucceeds(w, s, r);
    CloseFrames(w, s, r);
    CloseResultsMoves(w, s, r);
    CoreAdds(w, s, s');
    QuietAdds(w, s, s');
  }

  lemma CloseFrames(w: World, s: State, r: nat)
    requires WellFormed(s) && r < |s.results|
    ensures var s' := CloseResults(w, s, r).0;
      && s'.plain == s.plain && |s'.results| == |s.results|
      && (forall q :: 0 <= q < |s.results| ==> s'.results[q].batch == s.results[q].batch)
  {
    if !s.results[r].closed {
      RunRestShape(w, WithCore(s, Doomed(Supersede(s.core, r), r)), r);
    }
  }

  /** The first step of a script that leaves the transaction able to commit leaves it so, too. */
  lemma FirstStep(w: World, s: State, ops: seq<Op>)
    requires Inv(s) && s.core.autoErr && !Stuck(s) && ops != [] && !Finalized(ops)
    requires WellFormed(Run(w, s, ops).0) && !Stuck(Run(w, s, ops).0)
    ensures var s1 := Step(w, s, ops[0]).0;
      && Inv(s1) && Alive(s, s1) && !Stuck(s1) && !Finalizes(ops[0]) && !Finalized(ops[1..])
      && Run(w, s, ops).0 == Run(w, s1, ops[1..]).0
  {
    FinalizedRest(ops);
    StepInv(w, s, ops[0]);
    StepAlive(w, s, ops[0]);
    RunStep(w, s, ops);
    if Stuck(Step(w, s, ops[0]).0) {
      StuckRun(w, Step(w, s, ops[0]).0, ops[1..]);
    }
  }

  /** Over a whole script that ends nothing: while the transaction may commit, the statements of its log that failed are
      those whose failure waits somewhere. */
  lemma {:induction false} RunAccounted(w: World, s: State, ops: seq<Op>)
    requires Inv(s) && s.core.autoErr && !s.tx.ended && !Stuck(s) && !Finalized(ops) && Accounted(w, s)
    requires WellFormed(Run(w, s, ops).0) && !Stuck(Run(w, s, ops).0)
    ensures Accounted(w, Run(w, s, ops).0)
    decreases ops
  {
    if ops != [] {
      FirstStep(w, s, ops);
      StepAdds(w, s, ops[0]);
      AddsAccounted(w, s, Step(w, s, ops[0]).0);
      RunAccounted(w, Step(w, s, ops[0]).0, ops[1..]);
    }
  }

  /** Every statement of the log succeeded, rows and all, exactly when no failure waits anywhere. */
  lemma AllSucceededIff(w: World, s: State)
    requires Accounted(w, s)
    ensures (forall j: nat :: !FailedAt(w, s.tx.log, j)) <==> forall at :: !Waits(s, at)
  {
    if at :| Waits(s, at) {
      var j: nat :| Holds(w, s, at, j);
      HoldsFailed(w, s, at, j);
    }
    if j: nat :| FailedAt(w, s.tx.log, j) {
      var at :| Holds(w, s, at, j);
      assert Waits(s, at);
    }
  }

  // ----- Rows left alone -----

  predicate Inspects(op: Op, h: nat) {
    (op.OpPlainScan? || op.OpPlainErr?) && op.h == h
  }

  /** Plain rows only move on. */
  ghost predicate PlainMoves(plain: seq<Plain>, plain': seq<Plain>) {
    |plain| <= |plain'| && forall h :: 0 <= h < |plain| ==> PlainMovesOn(plain[h], plain'[h])
  }

  lemma PlainMovesOnce(w: World, s: State, op: Op)
    requires WellFormed(s) && Enabled(s, op) && IsPlain(op)
    ensures PlainMoves(s.plain, StepPlain(w, s, op).0.plain)
  {
  }

  lemma StepPlainMoves(w: World, s: State, op: Op)
    requires WellFormed(s) && !Finalizes(op)
    ensures PlainMoves(s.plain, Step(w, s, op).0.plain)
  {
    if Enabled(s, op) {
      if IsPlain(op) {
        PlainMovesOnce(w, s, op);
      } else if !IsRows(op) {
        BatchPlain(w, s, op);
      }
    }
  }

  lemma BatchPlain(w: World, s: State, op: Op)
    requires WellFormed(s) && !Finalizes(op) && Enabled(s, op) && !IsPlain(op) && !IsRows(op)
    ensures StepBatch(w, s, op).0.plain == s.plain
  {
    if op.OpReadExec? {
      ReadMoves(w, s, op.r);
    } else if op.OpReadQuery? {
      QueryMoves(w, s, op.r);
    } else if op.OpClose? {
      CloseFrames(w, s, op.r);
    } else if op.OpSend? {
      SendFrame(w, s, op.b);
    }
  }

  lemma {:induction false} RunPlainMoves(w: World, s: State, ops: seq<Op>)
    requires Inv(s) && !Finalized(ops)
    ensures PlainMoves(s.plain, Run(w, s, ops).0.plain)
    decreases ops
  {
    if ops != [] {
      FinalizedRest(ops);
      StepInv(w, s, ops[0]);
      StepPlainMoves(w, s, ops[0]);
      RunStep(w, s, ops);
      RunPlainMoves(w, Step(w, s, ops[0]).0, ops[1..]);
    }
  }

  /** What a Row that was looked at may still hold: a failure taken for a missing row, or, behind its first row, an
      error that Scan closed before. */
  predicate LookedAt(p: Plain, op: Op) {
    && (p.FailedRow? ==> p.err.root == NoRows)
    && (p.PlainRow? && op.OpPlainScan? && HoldsFailure(p) ==> p.cursor.pos.Shut? || TakenForMissing(p))
  }

  /** A Row whose statement failed at once and that still holds the failure when the transaction may commit was never
      scanned and never asked for its error, unless the failure is a missing row; one that was scanned holds no more
      than an error behind its first row. */
  lemma {:induction false} FailedRowLeftAlone(w: World, s: State, ops: seq<Op>, i: nat, h: nat)
    requires Inv(s) && s.core.autoErr && !s.tx.ended && !Stuck(s) && !Finalized(ops)
    requires WellFormed(Run(w, s, ops).0) && !Stuck(Run(w, s, ops).0)
    requires i < |ops| && Inspects(ops[i], h) && h < |StateAt(w, s, ops, i).plain|
    ensures var s' := Run(w, s, ops).0; h < |s'.plain| && LookedAt(s'.plain[h], ops[i])
    decreases ops
  {
    FirstStep(w, s, ops);
    var s1 := Step(w, s, ops[0]).0;
    if i > 0 {
      AtNext(w, s, ops, i - 1);
      FailedRowLeftAlone(w, s1, ops[1..], i - 1, h);
    } else {
      AtStart(w, s, ops);
      MetIffStuck(w, s, ops[0]);
      LooksAt(w, s, ops[0], h);
      RunPlainMoves(w, s1, ops[1..]);
      assert PlainMovesOn(s1.plain[h], Run(w, s, ops).0.plain[h]);
    }
  }

  lemma LooksAt(w: World, s: State, op: Op, h: nat)
    requires WellFormed(s) && h < |s.plain| && Inspects(op, h) && !Meets(w, s, op)
    ensures var p := Step(w, s, op).0.plain[h]; LookedAt(p, op) && (p.PlainRow? && op.OpPlainScan? ==> Ended(p.cursor))
  {
  }

  // ----- The statements of a batch -----

  /** The statements that a script queues to batch b, when so many batches were made before. */
  function Queued(ops: seq<Op>, b: nat, made: nat): seq<Stmt> {
    if ops == [] then []
    else if ops[0].OpBatch? then Queued(ops[1..], b, made + 1)
    else (if ops[0].OpQueue? && ops[0].b == b < made then [ops[0].stmt] else []) + Queued(ops[1..], b, made)
  }

  /** How many batches a script makes. */
  function Made(ops: seq<Op>): nat {
    if ops == [] then 0 else (if ops[0].OpBatch? then 1 else 0) + Made(ops[1..])
  }

  /** The statements a batch was given. */
  function Given(s: State, b: nat): seq<Stmt> {
    if b < |s.batches| then Statements(s.batches[b].items) else []
  }

  /** One operation queues what it says, and no other batch changes its statements. */
  lemma StepQueued(w: World, s: State, op: Op, b: nat)
    requires Inv(s) && s.core.autoErr && !Stuck(s) && !Finalizes(op) && !Stuck(Step(w, s, op).0)
    ensures var s' := Step(w, s, op).0;
      && |s'.batches| == |s.batches| + (if op.OpBatch? then 1 else 0)
      && Given(s', b) == Given(s, b) + (if op.OpQueue? && op.b == b < |s.batches| then [op.stmt] else [])
  {
    MetIffStuck(w, s, op);
    if Enabled(s, op) {
      if IsPlain(op) {
        StepPlainFrame(w, s, op);
      } else if !IsRows(op) {
        BatchQueued(w, s, op, b);
      }
    }
  }

  lemma BatchQueued(w: World, s: State, op: Op, b: nat)
    requires WellFormed(s) && !Finalizes(op) && Enabled(s, op) && !IsPlain(op) && !IsRows(op) && !Meets(w, s, op)
    ensures var s' := StepBatch(w, s, op).0;
      && |s'.batches| == |s.batches| + (if op.OpBatch? then 1 else 0)
      && Given(s', b) == Given(s, b) + (if op.OpQueue? && op.b == b < |s.batches| then [op.stmt] else [])
  {
    match op {
      case OpBatch => NewIsEmpty(s, b);
      case OpQueue(_, stmt) => QueueGives(s, op.b, stmt, b);
      case OpSend(_) => SendGives(w, s, op.b, b);
      case OpReadExec(r) => ReadMoves(w, s, r);
      case OpReadQuery(r) => QueryMoves(w, s, r);
      case OpClose(r) => CloseGives(w, s, r, b);
    }
  }

  lemma NewIsEmpty(s: State, b: nat)
    ensures Given(NewBatch(s), b) == Given(s, b)
  {
  }

  lemma QueueGives(s: State, q: nat, stmt: Stmt, b: nat)
    requires q < |s.batches| && !s.batches[q].sent
    ensures |Queue(s, q, stmt).batches| == |s.batches|
    ensures Given(Queue(s, q, stmt), b) == Given(s, b) + if q == b then [stmt] else []
  {
  }

  lemma SendGives(w: World, s: State, q: nat, b: nat)
    requires WellFormed(s) && q < |s.batches|
    ensures |Send(w, s, q).0.batches| == |s.batches| && Given(Send(w, s, q).0, b) == Given(s, b)
  {
    var s2 := AddResults(MarkSent(s, q), q, None);
    PipelineShape(w, s2.tx, q, s.batches[q].items);
  }

  lemma CloseGives(w: World, s: State, r: nat, b: nat)
    requires WellFormed(s) && r < |s.results|
    ensures CloseResults(w, s, r).0.batches == s.batches
  {
    if !s.results[r].closed {
      RunRestShape(w, WithCore(s, Doomed(Supersede(s.core, r), r)), r);
    }
  }

  lemma QueuedFirst(ops: seq<Op>, b: nat, made: nat, g: seq<Stmt>, g1: seq<Stmt>)
    requires ops != [] && g1 == g + (if ops[0].OpQueue? && ops[0].b == b < made then [ops[0].stmt] else [])
    ensures g1 + Queued(ops[1..], b, made + if ops[0].OpBatch? then 1 else 0) == g + Queued(ops, b, made)
  {
  }

  /** While the transaction may commit, each batch holds exactly what the script queued to it, in order. */
  lemma {:induction false} RunQueued(w: World, s: State, ops: seq<Op>, b: nat)
    requires Inv(s) && s.core.autoErr && !Stuck(s) && !Finalized(ops)
    requires WellFormed(Run(w, s, ops).0) && !Stuck(Run(w, s, ops).0)
    ensures var s' := Run(w, s, ops).0;
      |s'.batches| == |s.batches| + Made(ops) && Given(s', b) == Given(s, b) + Queued(ops, b, |s.batches|)
    decreases ops
  {
    if ops != [] {
      FirstStep(w, s, ops);
      var s1 := Step(w, s, ops[0]).0;
      StepQueued(w, s, ops[0], b);
      RunQueued(w, s1, ops[1..], b);
      QueuedFirst(ops, b, |s.batches|, Given(s, b), Given(s1, b));
    } else {
      assert Given(s, b) + [] == Given(s, b);
    }
  }
}
