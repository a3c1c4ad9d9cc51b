/** What goes wrong in a run, told from the operations and what the database, the driver and the rows answer, and not
    from what the closure is shown: an operation meets an error exactly when it leaves the transaction unable to
    commit. */
module Faults {
  import opened Errors
  import opened Session
  import opened SessionSafety

  // ----- Unable to commit -----

  /** A batch that was sent as a whole and failed; it cannot be closed without recording that. */
  ghost predicate OpenFailure(s: State)
    requires WellFormed(s)
  {
    && s.tx.open.Some? && s.results[s.tx.open.value].pipelined
    && (s.results[s.tx.open.value].lost || FirstErr(Items(s, s.tx.open.value)).Some?)
  }

  ghost predicate Stuck(s: State)
    requires WellFormed(s)
  {
    s.core.err.Some? || OpenFailure(s)
  }

  // ----- The errors an operation meets -----

  /** The server fails a statement, at once or, when the whole of its result is read, behind its rows. */
  predicate ServerFails(w: World, log: seq<Entry>, stmt: Stmt, whole: bool) {
    var outcome := w.server(log, stmt);
    outcome.Fail? || (whole && outcome.tail.Some?)
  }

  /** A statement outside batches: it does not unpack, the transaction is over, or the server fails it. */
  predicate StatementFails(w: World, tx: Tx, stmt: Stmt, whole: bool) {
    stmt.unpack.Some? || tx.ended || (!stmt.panics && ServerFails(w, tx.log, stmt, whole))
  }

  /** A statement of a batch fails it when it panics, too. */
  predicate ItemFails(w: World, tx: Tx, stmt: Stmt, whole: bool) {
    stmt.panics || StatementFails(w, tx, stmt, whole)
  }

  /** A missing row is no error to a Row, and it is one to Rows. */
  predicate Counts(p: Plain, e: Option<Error>) {
    e.Some? && (p.PlainRows? || e.value.root != NoRows)
  }

  /** The execution of a statement whose binding failed runs nothing; the refusal was met when it was bound. */
  predicate PlainMeets(w: World, s: State, op: Op)
    requires Enabled(s, op) && IsPlain(op)
  {
    match op
    case OpExec(stmt, via) =>
      BindingErr(s, via).None? && (BatchRefuses(s.tx) || StatementFails(w, s.tx, PlainStmt(s, via, stmt), true))
    case OpQuery(stmt, via) =>
      BindingErr(s, via).None? && (BatchRefuses(s.tx) || StatementFails(w, s.tx, PlainStmt(s, via, stmt), false))
    case OpQueryRow(stmt, via) =>
      BindingErr(s, via).None? && (BatchRefuses(s.tx) || PlainStmt(s, via, stmt).unpack.Some?)
    case OpPrepare(stmt, fault) => BatchRefuses(s.tx) || stmt.unpack.Some? || s.tx.ended || fault.Some?
    case OpBind(_, carried) => carried.None? && BatchRefuses(s.tx)
    case OpPlainNext(h) =>
      var (cursor, more) := CursorNext(s.plain[h].cursor);
      !more && CursorErr(cursor).Some?
    case OpPlainScan(h, dest) => Counts(s.plain[h], PlainScanErr(w, s.plain[h], dest))
    case OpPlainErr(h) => Counts(s.plain[h], PlainErrOf(s.plain[h]))
    case OpPlainClose(_) => false
  }

  /** Closing rows surfaces the error that ended them, or the one that closing them reports. */
  predicate CloseRowMeets(row: BatchRows) {
    !row.closed && SourceErr(row.(cursor := CursorClose(row.cursor))).Some?
  }

  /** Moving rows on: they were superseded, or an error ended them. */
  predicate NextRowMeets(row: BatchRows) {
    row.superseded || (!row.closed && SourceErr(row.(cursor := CursorNext(row.cursor).0)).Some?)
  }

  predicate ScanFirstMeets(w: World, row: BatchRows, dest: Dest, raw: bool) {
    var (cursor, more) := CursorNext(row.cursor);
    if row.superseded then true
    else if row.closed then SourceErr(row).Some?
    else if !more then SourceErr(row.(cursor := cursor)).Some?
    else raw || CursorScan(w, cursor, dest).Some? || (!row.buffered && ClosingErr(cursor).Some?)
  }

  predicate RowsMeets(w: World, row: BatchRows, op: Op)
    requires IsRows(op)
  {
    match op
    case OpRowsNext(_) => NextRowMeets(row)
    case OpRowsScan(_, dest) => CursorScan(w, row.cursor, dest).Some?
    case OpRowsErr(_) => row.superseded || SourceErr(row).Some?
    case OpRowsClose(_) => CloseRowMeets(row)
    case OpRowScan(_, dest, raw) => ScanFirstMeets(w, row, dest, raw)
  }

  /** A read closes the rows read before it. */
  predicate SupersedeMeets(c: Core, r: nat)
    requires WellFormedCore(c) && r < |c.readers|
  {
    c.readers[r].open.Some? && CloseRowMeets(c.rows[c.readers[r].open.value])
  }

  predicate ReadMeets(w: World, s: State, r: nat, whole: bool)
    requires WellFormed(s) && r < |s.results|
  {
    var i := s.results[r].next;
    || SupersedeMeets(s.core, r)
    || (!s.results[r].closed && i < |Items(s, r)| &&
        if s.results[r].pipelined then Items(s, r)[i].err.Some? else ItemFails(w, s.tx, Items(s, r)[i].stmt, whole))
  }

  /** Some statement from an index on fails, each running behind the ones before it. */
  predicate RestFails(w: World, tx: Tx, b: nat, items: seq<Item>, i: nat)
    decreases |items| - i
  {
    i < |items| &&
    (|| ItemFails(w, tx, items[i].stmt, true)
     || RestFails(w, tx.(log := tx.log + [Entry(items[i].stmt, FromBatch(b, i))]), b, items, i + 1))
  }

  predicate CloseMeets(w: World, s: State, r: nat)
    requires WellFormed(s) && r < |s.results|
  {
    !s.results[r].closed &&
    (|| SupersedeMeets(s.core, r)
     || if s.results[r].pipelined then FirstErr(Items(s, r)).Some?
        else RestFails(w, s.tx, s.results[r].batch, Items(s, r), s.results[r].next))
  }

  /** The server fails a statement from an index on, or an error follows its rows. */
  predicate PipeFails(w: World, log: seq<Entry>, b: nat, items: seq<Item>, i: nat)
    decreases |items| - i
  {
    i < |items| &&
    (|| ServerFails(w, log, items[i].stmt, true)
     || PipeFails(w, log + [Entry(items[i].stmt, FromBatch(b, i))], b, items, i + 1))
  }

  predicate PipelineMeets(w: World, tx: Tx, b: nat, items: seq<Item>) {
    || (exists i :: 0 <= i < |items| && (items[i].stmt.unpack.Some? || items[i].stmt.panics))
    || w.reject(tx.log, Statements(items)).Some? || tx.ended
    || PipeFails(w, tx.log, b, items, 0) || w.late(tx.log, Statements(items)).Some?
  }

  /** Sending twice, while another batch's results are open, or with a named argument, is misuse; a batch that runs at
      once meets the errors of its statements. */
  predicate SendMeets(w: World, s: State, b: nat)
    requires b < |s.batches|
  {
    var items := s.batches[b].items;
    || s.batches[b].sent || BatchRefuses(s.tx)
    || (exists i :: 0 <= i < |items| && items[i].stmt.named)
    || (items != [] && s.tx.conn && PipelineMeets(w, s.tx, b, items))
  }

  /** The operation meets an error of a statement, of a row, or of the use of a batch. */
  predicate Meets(w: World, s: State, op: Op)
    requires WellFormed(s)
  {
    Enabled(s, op) &&
    if IsPlain(op) then PlainMeets(w, s, op)
    else if IsRows(op) then RowsMeets(w, s.core.rows[op.k], op)
    else
      match op
      case OpQueue(b, _) => s.batches[b].sent
      case OpSend(b) => SendMeets(w, s, b)
      case OpReadExec(r) => ReadMeets(w, s, r, true)
      case OpReadQuery(r) => ReadMeets(w, s, r, false)
      case OpClose(r) => CloseMeets(w, s, r)
      case _ => false
  }

  // ----- Rows -----

  /** The latch closes exactly when an error was met. */
  ghost predicate ClosesOn(c: Core, c': Core, met: bool) {
    c.autoErr && c.err.None? ==> (c'.err.Some? <==> met)
  }

  lemma RowsCloseMet(c: Core, k: nat)
    requires WellFormedCore(c) && k < |c.rows|
    ensures ClosesOn(c, RowsClose(c, k), CloseRowMeets(c.rows[k]))
  {
  }

  lemma RowsNextMet(c: Core, k: nat)
    requires WellFormedCore(c) && k < |c.rows|
    ensures ClosesOn(c, RowsNext(c, k).0, NextRowMeets(c.rows[k]))
  {
  }

  lemma RowsScanMet(w: World, c: Core, k: nat, dest: Dest)
    requires WellFormedCore(c) && k < |c.rows|
    ensures ClosesOn(c, RowsScan(w, c, k, dest).0, CursorScan(w, c.rows[k].cursor, dest).Some?)
  {
  }

  lemma RowScanMet(w: World, c: Core, k: nat, dest: Dest, raw: bool)
    requires WellFormedCore(c) && k < |c.rows|
    ensures ClosesOn(c, RowScan(w, c, k, dest, raw).0, ScanFirstMeets(w, c.rows[k], dest, raw))
  {
    if !c.rows[k].superseded && c.autoErr && c.err.None? {
      RowsNextMet(c, k);
      var (c1, more) := RowsNext(c, k);
      var (c2, e) := RowScanAfterNext(w, c1, k, more, dest, raw);
      assert Latched(c1, c2) && Latched(c2, RowsClose(c2, k));
      if c1.err.None? && more && !raw {
        RowsScanMet(w, c1, k, dest);
      }
      RowsCloseMet(c2, k);
    }
  }

  lemma StepRowsMet(w: World, c: Core, op: Op)
    requires WellFormedCore(c) && IsRows(op) && op.k < |c.rows|
    ensures ClosesOn(c, StepRows(w, c, op).0, RowsMeets(w, c.rows[op.k], op))
  {
    match op {
      case OpRowsNext(k) => RowsNextMet(c, k);
      case OpRowsScan(k, dest) => RowsScanMet(w, c, k, dest);
      case OpRowsErr(k) =>
      case OpRowsClose(k) => RowsCloseMet(c, k);
      case OpRowScan(k, dest, raw) => RowScanMet(w, c, k, dest, raw);
    }
  }

  lemma SupersedeMet(c: Core, r: nat)
    requires WellFormedCore(c) && r < |c.readers|
    ensures ClosesOn(c, Supersede(c, r), SupersedeMeets(c, r))
  {
    if c.readers[r].open.Some? {
      var k := c.readers[r].open.value;
      var row := c.rows[k];
      RowsCloseMet(if row.closed || row.done then c else SetRow(c, k, row.(superseded := true)), k);
    }
  }

  // ----- Statements outside batches -----

  lemma ExecMet(w: World, s: State, stmt: Stmt, via: Via)
    requires Inv(s) && ViaExists(s, via)
    ensures ClosesOn(s.core, TxExec(w, s, stmt, via).0.core, PlainMeets(w, s, OpExec(stmt, via)))
    ensures ClosesOn(s.core, TxQuery(w, s, stmt, via).0.core, PlainMeets(w, s, OpQuery(stmt, via)))
    ensures ClosesOn(s.core, TxQueryRow(w, s, stmt, via).0.core, PlainMeets(w, s, OpQueryRow(stmt, via)))
  {
  }

  lemma StepPlainMet(w: World, s: State, op: Op)
    requires Inv(s) && Enabled(s, op) && IsPlain(op)
    ensures ClosesOn(s.core, StepPlain(w, s, op).0.core, PlainMeets(w, s, op))
  {
    if op.OpExec? || op.OpQuery? || op.OpQueryRow? {
      ExecMet(w, s, op.stmt, op.via);
    }
  }

  // ----- Batches -----

  lemma {:induction false} FirstErrNone(items: seq<Item>)
    ensures FirstErr(items).None? <==> forall i :: 0 <= i < |items| ==> items[i].err.None?
  {
    if items != [] {
      FirstErrNone(items[1..]);
      assert forall i :: 0 < i < |items| ==> items[i] == items[1..][i - 1];
    }
  }

  lemma {:induction false} FirstUnpackNone(items: seq<Item>)
    ensures FirstUnpackErr(items).None? <==> forall i :: 0 <= i < |items| ==> items[i].stmt.unpack.None?
  {
    if items != [] {
      FirstUnpackNone(items[1..]);
      assert forall i :: 0 < i < |items| ==> items[i] == items[1..][i - 1];
    }
  }

  lemma FailAllFails(items: seq<Item>, e: Error)
    requires items != []
    ensures FirstErr(FailAll(items, e)).Some?
  {
    assert FailAll(items, e)[0].err == Some(e);
  }

  lemma {:induction false} PipeRunMet(w: World, log: seq<Entry>, b: nat, items: seq<Item>, i: nat)
    requires i <= |items|
    ensures PipeFails(w, log, b, items, i) <==> FirstErr(PipeRun(w, log, b, items, i).1).Some?
    decreases |items| - i
  {
    if i < |items| {
      var log1 := log + [Entry(items[i].stmt, FromBatch(b, i))];
      PipeRunMet(w, log1, b, items, i + 1);
      match w.server(log, items[i].stmt) {
        case Fail(e) => FailAllFails(items[i..], e);
        case Ok(_, _, tail, _) =>
          if tail.Some? {
            FailAllFails(items[i..], tail.value);
          } else {
            var ran := PipeRun(w, log, b, items, i).1;
            assert ran[1..] == PipeRun(w, log1, b, items, i + 1).1;
          }
      }
    }
  }

  lemma PipelineMet(w: World, tx: Tx, b: nat, items: seq<Item>)
    requires items != []
    ensures var p := Pipeline(w, tx, b, items); PipelineMeets(w, tx, b, items) <==> p.unwound || FirstErr(p.items).Some?
  {
    var p := Pipeline(w, tx, b, items);
    FirstUnpackNone(items);
    PipeRunMet(w, tx.log, b, items, 0);
    PipeRunShape(w, tx.log, b, items, 0);
    if FirstUnpackErr(items).Some? {
      FailAllFails(items, FirstUnpackErr(items).value);
    } else if w.reject(tx.log, Statements(items)).Some? {
      FailAllFails(items, w.reject(tx.log, Statements(items)).value);
    } else if tx.ended {
      FailAllFails(items, New(TxDone));
    } else if !p.unwound && w.late(tx.log, Statements(items)).Some? {
      FailAllFails(PipeRun(w, tx.log, b, items, 0).1, w.late(tx.log, Statements(items)).value);
    }
  }

  /** Whether the next state is stuck is whether an error was met. */
  ghost predicate Tells(s: State, s': State, met: bool) {
    WellFormed(s) && WellFormed(s') && s.core.autoErr && !Stuck(s) ==> (Stuck(s') <==> met)
  }

  lemma SendMet(w: World, s: State, b: nat)
    requires Inv(s) && b < |s.batches|
    ensures Tells(s, Send(w, s, b).0, SendMeets(w, s, b))
  {
    if s.core.autoErr && s.core.err.None? && !s.batches[b].sent && !BatchRefuses(s.tx) {
      var s2 := AddResults(MarkSent(s, b), b, None);
      SendItemsMet(w, s2, b, |s.results|);
      assert Send(w, s, b) == SendItems(w, s2, b, |s.results|);
    }
  }

  lemma SendItemsMet(w: World, s: State, b: nat, r: nat)
    requires WellFormed(s) && b < |s.batches| && r < |s.results| && s.results[r].batch == b
    requires !s.results[r].lost && !s.results[r].pipelined
    requires s.core.autoErr && s.core.err.None? && s.tx.open.None?
    ensures Stuck(SendItems(w, s, b, r).0) <==>
      var items := s.batches[b].items;
      || (exists i :: 0 <= i < |items| && items[i].stmt.named)
      || (items != [] && s.tx.conn && PipelineMeets(w, s.tx, b, items))
  {
    var items := s.batches[b].items;
    if items != [] {
      PipelineMet(w, s.tx, b, items);
    }
  }

  // ----- Reading -----

  /** The statement that a read runs. */
  lemma RunItemMet(w: World, s: State, r: nat, i: nat, whole: bool)
    requires WellFormed(s) && r < |s.results| && i < |Items(s, r)| && s.core.autoErr && s.core.err.None?
    ensures RunItem(w, s, r, i, whole).0.core.err.Some? <==> ItemFails(w, s.tx, Items(s, r)[i].stmt, whole)
  {
  }

  /** Nothing that was buffered for an open batch failed. */
  lemma CalmItem(s: State, r: nat, i: nat)
    requires Inv(s) && !Stuck(s) && s.core.autoErr && r < |s.results| && i < |Items(s, r)|
    requires !s.results[r].closed && s.results[r].pipelined
    ensures Items(s, r)[i].err.None? && s.tx.open == Some(r)
  {
    assert ResultOk(s, r);
    FirstErrNone(Items(s, r));
  }

  lemma AdvanceMet(s: State, r: nat)
    requires Inv(s) && r < |s.results| && s.core.autoErr && !Stuck(s)
    ensures var (s1, turn) := Advance(s, r);
      && (s1.core.err.Some? <==> SupersedeMeets(s.core, r))
      && (s1.core.err.None? ==> (turn.Read? <==> !s.results[r].closed && s.results[r].next < |Items(s, r)|))
  {
    SupersedeMet(s.core, r);
    var c := Supersede(s.core, r);
    if c.err.None? && !s.results[r].closed {
      LatchInv(s, c);
      assert ResultOk(WithCore(s, c), r);
      if s.results[r].pipelined && s.results[r].next < |Items(s, r)| {
        CalmItem(s, r, s.results[r].next);
      }
    }
  }

  /** What a read leaves is stuck by its errors only: nothing but the next statement and the log moved. */
  lemma ReadStuck(s: State, r: nat, s': State)
    requires WellFormed(s) && WellFormed(s') && r < |s.results| && !Stuck(s) && |s'.results| == |s.results|
    requires s'.tx == s.tx.(log := s'.tx.log) && s'.batches == s.batches
    requires forall q :: 0 <= q < |s.results| ==> s'.results[q] == s.results[q].(next := s'.results[q].next)
    ensures Stuck(s') <==> s'.core.err.Some?
  {
  }

  lemma LoggedMoves(s: State, r: nat, s': State)
    requires r < |s.results| && s' == WithLog(WithCore(s, s'.core), s'.tx.log)
    ensures Moved(s, r, s')
  {
    assert s.results[r := s.results[r]] == s.results;
  }

  lemma AdvanceMoves(s: State, r: nat)
    requires WellFormed(s) && r < |s.results|
    ensures Moved(s, r, Advance(s, r).0)
  {
    assert s.results[r := s.results[r]] == s.results;
  }

  /** A read moves its results on and extends the log, whether it answers a count or rows. */
  lemma ReadMoves(w: World, s: State, r: nat)
    requires WellFormed(s) && r < |s.results|
    ensures Moved(s, r, ReadExec(w, s, r).0)
  {
    var (s1, turn) := Advance(s, r);
    AdvanceMoves(s, r);
    LoggedMoves(s1, r, ReadExec(w, s, r).0);
    MovedOn(s, r, s1, ReadExec(w, s, r).0);
  }

  lemma QueryMoves(w: World, s: State, r: nat)
    requires WellFormed(s) && r < |s.results|
    ensures Moved(s, r, ReadQuery(w, s, r).0)
  {
    var (s1, turn) := Advance(s, r);
    AdvanceMoves(s, r);
    LoggedMoves(s1, r, ReadQuery(w, s, r).0);
    MovedOn(s, r, s1, ReadQuery(w, s, r).0);
  }

  lemma ReadErr(w: World, s: State, r: nat, whole: bool)
    requires Inv(s) && r < |s.results| && s.core.autoErr && !Stuck(s)
    ensures var s' := if whole then ReadExec(w, s, r).0 else ReadQuery(w, s, r).0;
      s'.core.err.Some? <==> ReadMeets(w, s, r, whole)
  {
    AdvanceMet(s, r);
    var (s1, turn) := Advance(s, r);
    if turn.Read? {
      if s.results[r].pipelined {
        CalmItem(s, r, turn.index);
      } else if s1.core.err.None? {
        RunItemMet(w, s1, r, turn.index, whole);
      }
    }
  }

  lemma ReadMet(w: World, s: State, r: nat, whole: bool)
    requires Inv(s) && r < |s.results|
    ensures Tells(s, if whole then ReadExec(w, s, r).0 else ReadQuery(w, s, r).0, ReadMeets(w, s, r, whole))
  {
    if s.core.autoErr && !Stuck(s) {
      ReadErr(w, s, r, whole);
      ReadMoves(w, s, r);
      QueryMoves(w, s, r);
      MovedStuck(s, r, if whole then ReadExec(w, s, r).0 else ReadQuery(w, s, r).0);
    }
  }

  lemma MovedStuck(s: State, r: nat, s': State)
    requires WellFormed(s) && WellFormed(s') && r < |s.results| && !Stuck(s) && Moved(s, r, s')
    ensures Stuck(s') <==> s'.core.err.Some?
  {
    ReadStuck(s, r, s');
  }

  // ----- Closing -----

  lemma {:induction false} RestMet(w: World, s: State, r: nat)
    requires WellFormed(s) && r < |s.results| && s.core.autoErr && s.core.err.None? && s.core.readers[r].err.None?
    ensures RunRest(w, s, r).0.core.err.Some? <==>
      RestFails(w, s.tx, s.results[r].batch, Items(s, r), s.results[r].next)
    decreases |Items(s, r)| - s.results[r].next
  {
    var i := s.results[r].next;
    if i < |Items(s, r)| {
      if ItemFails(w, s.tx, Items(s, r)[i].stmt, true) {
        RestStopsHere(w, s, r);
      } else {
        RestGoesOn(w, s, r);
        RestMet(w, Passed(s, r), r);
        var b, items, s1 := s.results[r].batch, Items(s, r), Passed(s, r);
        assert s1.results[r].batch == b && s1.results[r].next == i + 1 && Items(s1, r) == items;
        assert RestFails(w, s1.tx, b, items, i + 1) == RunRest(w, s1, r).0.core.err.Some?;
        assert RestFails(w, s.tx, b, items, i) == RunRest(w, s, r).0.core.err.Some?;
      }
    }
  }

  /** The state behind the next statement, when that statement went well. */
  function Passed(s: State, r: nat): (s': State)
    requires WellFormed(s) && r < |s.results| && s.results[r].next < |Items(s, r)|
    ensures WellFormed(s') && |s'.results| == |s.results| && s'.core == s.core && Items(s', r) == Items(s, r)
    ensures s'.results[r].batch == s.results[r].batch && s'.results[r].next == s.results[r].next + 1
  {
    var i := s.results[r].next;
    WithLog(Skip(s, r), s.tx.log + [Entry(Items(s, r)[i].stmt, FromBatch(s.results[r].batch, i))])
  }

  lemma RestStopsHere(w: World, s: State, r: nat)
    requires WellFormed(s) && r < |s.results| && s.core.autoErr && s.core.err.None? && s.core.readers[r].err.None?
    requires s.results[r].next < |Items(s, r)| && ItemFails(w, s.tx, Items(s, r)[s.results[r].next].stmt, true)
    ensures RunRest(w, s, r).0.core.err.Some?
  {
    var i := s.results[r].next;
    RunItemMet(w, Skip(s, r), r, i, true);
    RestHolds(w, RunItem(w, Skip(s, r), r, i, true).0, r);
  }

  lemma RestGoesOn(w: World, s: State, r: nat)
    requires WellFormed(s) && r < |s.results| && s.core.autoErr && s.core.err.None? && s.core.readers[r].err.None?
    requires s.results[r].next < |Items(s, r)| && !ItemFails(w, s.tx, Items(s, r)[s.results[r].next].stmt, true)
    ensures RunRest(w, s, r) == RunRest(w, Passed(s, r), r)
  {
    RunItemMet(w, Skip(s, r), r, s.results[r].next, true);
    RanOn(w, Skip(s, r), r, s.results[r].next, true);
  }

  /** A statement that went well changed the log only. */
  lemma RanOn(w: World, s: State, r: nat, i: nat, whole: bool)
    requires WellFormed(s) && r < |s.results| && i < |Items(s, r)| && s.core.autoErr && s.core.err.None?
    requires RunItem(w, s, r, i, whole).0.core.err.None?
    ensures var (s1, ran) := RunItem(w, s, r, i, whole);
      && ran.Succeeded?
      && s1 == WithLog(s, s.tx.log + [Entry(Items(s, r)[i].stmt, FromBatch(s.results[r].batch, i))])
  {
  }

  lemma RestHolds(w: World, s: State, r: nat)
    requires WellFormed(s) && r < |s.results| && s.core.err.Some?
    ensures RunRest(w, s, r).0.core.err.Some?
  {
    RunRestShape(w, s, r);
  }

  lemma AbandonStuck(s: State, r: nat)
    requires WellFormed(s) && r < |s.results| && s.core.autoErr && s.core.err.None? && s.core.readers[r].open.None?
    requires s.tx.open == Some(r) ==> !OpenFailure(s)
    ensures Stuck(Abandon(s, r)) <==> Stuck(s)
  {
  }

  /** The errors of results that are closed, once the rows read last are. */
  lemma FinishMet(w: World, s: State, r: nat)
    requires Inv(s) && r < |s.results| && s.core.autoErr && !Stuck(s) && !s.results[r].closed
    ensures var s' := FinishResults(w, s, r).0;
      && s'.tx.open == s.tx.open && s'.batches == s.batches && |s'.results| == |s.results|
      && (forall q :: 0 <= q < |s.results| ==> s'.results[q] == s.results[q].(next := s'.results[q].next))
      && (s'.core.err.Some? <==>
            if s.results[r].pipelined then FirstErr(Items(s, r)).Some?
            else RestFails(w, s.tx, s.results[r].batch, Items(s, r), s.results[r].next))
  {
    assert ResultOk(s, r);
    if !s.results[r].pipelined {
      RestMet(w, s, r);
      RunRestShape(w, s, r);
    }
  }

  lemma CloseMet(w: World, s: State, r: nat)
    requires Inv(s) && r < |s.results|
    ensures Tells(s, CloseResults(w, s, r).0, CloseMeets(w, s, r))
  {
    if s.core.autoErr && !Stuck(s) && !s.results[r].closed {
      var c := Supersede(s.core, r);
      SupersedeMet(s.core, r);
      LatchInv(s, c);
      if c.err.None? {
        assert Doomed(c, r) == c;
        CloseSuperseded(w, WithCore(s, c), r);
      } else {
        CloseDoomed(w, s, r);
      }
    }
  }

  lemma CloseDoomed(w: World, s: State, r: nat)
    requires WellFormed(s) && r < |s.results| && !s.results[r].closed && Supersede(s.core, r).err.Some?
    ensures CloseResults(w, s, r).0.core.err.Some?
  {
    var s1 := WithCore(s, Doomed(Supersede(s.core, r), r));
    RunRestShape(w, s1, r);
    var s2 := FinishResults(w, s1, r).0;
    assert Latched(s2.core, Supersede(s2.core, r));
  }

  lemma CloseSuperseded(w: World, s: State, r: nat)
    requires Inv(s) && r < |s.results| && s.core.autoErr && !Stuck(s) && !s.results[r].closed
    requires s.core.readers[r].open.None?
    ensures Stuck(Abandon(FinishResults(w, s, r).0, r)) <==>
      if s.results[r].pipelined then FirstErr(Items(s, r)).Some?
      else RestFails(w, s.tx, s.results[r].batch, Items(s, r), s.results[r].next)
  {
    var s' := FinishResults(w, s, r).0;
    FinishMet(w, s, r);
    FinishOpens(w, s, r);
    if s'.core.err.None? {
      AbandonStuck(s', r);
    } else {
      assert Latched(s'.core, Supersede(s'.core, r));
    }
  }

  lemma {:induction false} RestOpens(w: World, s: State, r: nat)
    requires WellFormed(s) && r < |s.results|
    ensures RunRest(w, s, r).0.core.readers[r].open == s.core.readers[r].open
    decreases |Items(s, r)| - s.results[r].next
  {
    var i := s.results[r].next;
    if s.core.readers[r].err.None? && i < |Items(s, r)| {
      var (s1, ran) := RunItem(w, Skip(s, r), r, i, true);
      if !ran.Unwound? {
        RestOpens(w, s1, r);
      }
    }
  }

  lemma FinishOpens(w: World, s: State, r: nat)
    requires WellFormed(s) && r < |s.results|
    ensures FinishResults(w, s, r).0.core.readers[r].open == s.core.readers[r].open
    ensures FinishResults(w, s, r).0.core.autoErr == s.core.autoErr
  {
    if !s.results[r].pipelined {
      RestOpens(w, s, r);
    }
  }

  // ----- Every step -----

  /** An operation leaves a transaction that could still commit unable to exactly when it meets an error. */
  lemma MetIffStuck(w: World, s: State, op: Op)
    requires Inv(s) && s.core.autoErr && !Stuck(s) && !Finalizes(op)
    ensures Meets(w, s, op) <==> Stuck(Step(w, s, op).0)
  {
    if Enabled(s, op) {
      if IsPlain(op) {
        StepPlainMet(w, s, op);
        StepPlainFrame(w, s, op);
      } else if IsRows(op) {
        StepRowsMet(w, s.core, op);
      } else {
        BatchMet(w, s, op);
      }
    }
  }

  lemma BatchMet(w: World, s: State, op: Op)
    requires Inv(s) && s.core.autoErr && !Stuck(s) && !Finalizes(op) && Enabled(s, op) && !IsPlain(op) && !IsRows(op)
    ensures Meets(w, s, op) <==> Stuck(StepBatch(w, s, op).0)
  {
    match op {
      case OpBatch =>
      case OpQueue(b, stmt) => QueueMet(s, b, stmt);
      case OpSend(b) => SendMet(w, s, b);
      case OpReadExec(r) => ReadMet(w, s, r, true);
      case OpReadQuery(r) => ReadMet(w, s, r, false);
      case OpClose(r) => CloseMet(w, s, r);
    }
  }

  lemma QueueMet(s: State, b: nat, stmt: Stmt)
    requires Inv(s) && b < |s.batches|
    ensures Tells(s, Queue(s, b, stmt), s.batches[b].sent)
  {
    if s.tx.open.Some? {
      assert ResultOk(s, s.tx.open.value);
    }
  }

  // ----- Stuck for good -----

  lemma CloseStays(w: World, s: State, r: nat)
    requires Inv(s) && s.core.autoErr && Stuck(s) && r < |s.results| && !s.results[r].lost
    ensures Stuck(CloseResults(w, s, r).0)
  {
    if s.core.err.Some? {
      if !s.results[r].closed {
        DoomedClose(w, s, r);
      }
    } else if !s.results[r].closed {
      CloseStaysOpen(w, s, r);
    }
  }

  /** Closing the failed batch records its failure; closing other results leaves it open. */
  lemma CloseStaysOpen(w: World, s: State, r: nat)
    requires Inv(s) && s.core.autoErr && OpenFailure(s) && r < |s.results| && !s.results[r].lost && !s.results[r].closed
    ensures Stuck(CloseResults(w, s, r).0)
  {
    var s1 := WithCore(s, Doomed(Supersede(s.core, r), r));
    var s2 := FinishResults(w, s1, r).0;
    RunRestShape(w, s1, r);
    assert Latched(s2.core, Supersede(s2.core, r));
    if s.tx.open == Some(r) {
      assert s2.core.err.Some?;
    }
  }

  /** Nothing a closure does short of ending the transaction makes it able to commit again. */
  lemma StuckStays(w: World, s: State, op: Op)
    requires Inv(s) && s.core.autoErr && Stuck(s) && !Finalizes(op)
    ensures Stuck(Step(w, s, op).0)
  {
    if s.core.err.Some? {
      DoomedStep(w, s, op);
    } else if Enabled(s, op) {
      if IsPlain(op) {
        StepPlainFrame(w, s, op);
      } else if !IsRows(op) {
        BatchStays(w, s, op);
      }
    }
  }

  lemma BatchStays(w: World, s: State, op: Op)
    requires Inv(s) && s.core.autoErr && OpenFailure(s)
    requires !Finalizes(op) && Enabled(s, op) && !IsPlain(op) && !IsRows(op)
    ensures Stuck(StepBatch(w, s, op).0)
  {
    match op {
      case OpBatch =>
      case OpQueue(b, stmt) => assert ResultOk(s, s.tx.open.value);
      case OpSend(b) => SendStays(w, s, b);
      case OpReadExec(r) => ReadStays(w, s, r);
      case OpReadQuery(r) => ReadStays(w, s, r);
      case OpClose(r) => CloseStays(w, s, r);
    }
  }

  lemma SendStays(w: World, s: State, b: nat)
    requires Inv(s) && s.core.autoErr && OpenFailure(s) && b < |s.batches|
    ensures Stuck(Send(w, s, b).0)
  {
  }

  lemma ReadStays(w: World, s: State, r: nat)
    requires Inv(s) && s.core.autoErr && OpenFailure(s) && r < |s.results|
    ensures Stuck(ReadExec(w, s, r).0) && Stuck(ReadQuery(w, s, r).0)
  {
    ReadMoves(w, s, r);
    QueryMoves(w, s, r);
    MovedStays(s, r, ReadExec(w, s, r).0);
    MovedStays(s, r, ReadQuery(w, s, r).0);
  }

  lemma MovedStays(s: State, r: nat, s': State)
    requires WellFormed(s) && WellFormed(s') && OpenFailure(s) && r < |s.results| && Moved(s, r, s')
    ensures Stuck(s')
  {
    var open := s.tx.open.value;
    assert s'.results[open] == s.results[open].(next := s'.results[open].next);
  }

  /** A failure that a closure is shown was met, unless it is exempt, another transaction's, or passed through. */
  lemma ShownIsMet(w: World, s: State, op: Op)
    requires Inv(s) && s.core.autoErr && !Stuck(s) && !Finalizes(op) && !Tolerable(Step(w, s, op).1)
    ensures Meets(w, s, op) || PassesThrough(s, op)
  {
    AnswerLatched(w, s, op);
    MetIffStuck(w, s, op);
  }

  // ----- Runs -----

  predicate Finalized(ops: seq<Op>) {
    exists i :: 0 <= i < |ops| && Finalizes(ops[i])
  }

  /** The transaction still runs, in the mode it began with. */
  ghost predicate Alive(s: State, s': State) {
    s'.tx.ended == s.tx.ended && s'.core.autoErr == s.core.autoErr
  }

  lemma ReadAlive(w: World, s: State, r: nat)
    requires WellFormed(s) && r < |s.results|
    ensures Alive(s, ReadExec(w, s, r).0) && Alive(s, ReadQuery(w, s, r).0)
  {
  }

  lemma FinishAlive(w: World, s: State, r: nat)
    requires WellFormed(s) && r < |s.results|
    ensures Alive(s, FinishResults(w, s, r).0)
  {
    if !s.results[r].pipelined {
      RunRestShape(w, s, r);
    }
  }

  lemma CloseAlive(w: World, s: State, r: nat)
    requires WellFormed(s) && r < |s.results|
    ensures Alive(s, CloseResults(w, s, r).0)
  {
    if !s.results[r].closed {
      var s1 := WithCore(s, Doomed(Supersede(s.core, r), r));
      FinishAlive(w, s1, r);
    }
  }

  lemma SendAlive(w: World, s: State, b: nat)
    requires WellFormed(s) && b < |s.batches|
    ensures Alive(s, Send(w, s, b).0)
  {
  }

  lemma StepAlive(w: World, s: State, op: Op)
    requires Inv(s) && !Finalizes(op)
    ensures Alive(s, Step(w, s, op).0)
  {
    if Enabled(s, op) {
      if IsPlain(op) {
        StepPlainFrame(w, s, op);
      } else if !IsRows(op) {
        BatchAlive(w, s, op);
      }
    }
  }

  lemma BatchAlive(w: World, s: State, op: Op)
    requires WellFormed(s) && !Finalizes(op) && Enabled(s, op) && !IsPlain(op) && !IsRows(op)
    ensures Alive(s, StepBatch(w, s, op).0)
  {
    match op {
      case OpBatch =>
      case OpQueue(_, _) =>
      case OpSend(b) => SendAlive(w, s, b);
      case OpReadExec(r) => ReadAlive(w, s, r);
      case OpReadQuery(r) => ReadAlive(w, s, r);
      case OpClose(r) => CloseAlive(w, s, r);
    }
  }

  lemma FinalizedRest(ops: seq<Op>)
    requires ops != [] && !Finalized(ops)
    ensures !Finalizes(ops[0]) && !Finalized(ops[1..])
  {
    assert forall i :: 0 <= i < |ops| - 1 ==> ops[1..][i] == ops[i + 1];
  }

  lemma RunStep(w: World, s: State, ops: seq<Op>)
    requires WellFormed(s) && ops != []
    ensures var (s1, a) := Step(w, s, ops[0]);
      && Run(w, s, ops).0 == Run(w, s1, ops[1..]).0
      && Run(w, s, ops).1 == [a] + Run(w, s1, ops[1..]).1
  {
  }

  lemma {:induction false} RunAlive(w: World, s: State, ops: seq<Op>)
    requires Inv(s) && !Finalized(ops)
    ensures Inv(Run(w, s, ops).0) && Alive(s, Run(w, s, ops).0)
    decreases ops
  {
    if ops != [] {
      FinalizedRest(ops);
      StepInv(w, s, ops[0]);
      StepAlive(w, s, ops[0]);
      RunStep(w, s, ops);
      RunAlive(w, Step(w, s, ops[0]).0, ops[1..]);
    }
  }

  lemma {:induction false} StuckRun(w: World, s: State, ops: seq<Op>)
    requires Inv(s) && s.core.autoErr && Stuck(s) && !Finalized(ops)
    ensures WellFormed(Run(w, s, ops).0) && Stuck(Run(w, s, ops).0)
    decreases ops
  {
    if ops != [] {
      FinalizedRest(ops);
      StepInv(w, s, ops[0]);
      StepAlive(w, s, ops[0]);
      StuckStays(w, s, ops[0]);
      RunStep(w, s, ops);
      StuckRun(w, Step(w, s, ops[0]).0, ops[1..]);
    }
  }

  /** The state in which a script reaches its i-th operation. */
  function StateAt(w: World, s: State, ops: seq<Op>, i: nat): State
    requires i <= |ops|
  {
    Run(w, s, ops[..i]).0
  }

  lemma AtStart(w: World, s: State, ops: seq<Op>)
    ensures StateAt(w, s, ops, 0) == s
  {
    assert ops[..0] == [];
  }

  lemma AtNext(w: World, s: State, ops: seq<Op>, i: nat)
    requires WellFormed(s) && i < |ops|
    ensures StateAt(w, s, ops, i + 1) == StateAt(w, Step(w, s, ops[0]).0, ops[1..], i)
  {
    RunStep(w, s, ops[..i + 1]);
    assert ops[..i + 1][1..] == ops[1..][..i];
  }

  /** The i-th operation of a script meets an error. */
  ghost predicate MetAt(w: World, s: State, ops: seq<Op>, i: nat) {
    i < |ops| && WellFormed(StateAt(w, s, ops, i)) && Meets(w, StateAt(w, s, ops, i), ops[i])
  }

  lemma MetNext(w: World, s: State, ops: seq<Op>, i: nat)
    requires WellFormed(s) && i + 1 < |ops|
    ensures MetAt(w, s, ops, i + 1) <==> MetAt(w, Step(w, s, ops[0]).0, ops[1..], i)
  {
    AtNext(w, s, ops, i);
  }

  /** A script that ends nothing leaves the transaction unable to commit exactly when one of its operations met an
      error, whatever the closure looked at. */
  lemma {:induction false} StuckIffMet(w: World, s: State, ops: seq<Op>)
    requires Inv(s) && s.core.autoErr && !Stuck(s) && !Finalized(ops)
    ensures WellFormed(Run(w, s, ops).0)
    ensures Stuck(Run(w, s, ops).0) <==> exists i: nat :: MetAt(w, s, ops, i)
    decreases ops
  {
    if ops != [] {
      FinalizedRest(ops);
      StepInv(w, s, ops[0]);
      StepAlive(w, s, ops[0]);
      MetIffStuck(w, s, ops[0]);
      RunStep(w, s, ops);
      AtStart(w, s, ops);
      var s1 := Step(w, s, ops[0]).0;
      if Stuck(s1) {
        StuckRun(w, s1, ops[1..]);
        assert MetAt(w, s, ops, 0);
      } else {
        StuckIffMet(w, s1, ops[1..]);
        MetLater(w, s, ops);
      }
    }
  }

  lemma MetLater(w: World, s: State, ops: seq<Op>)
    requires WellFormed(s) && ops != [] && !MetAt(w, s, ops, 0)
    ensures (exists i: nat :: MetAt(w, s, ops, i)) <==>
      exists i: nat :: MetAt(w, Step(w, s, ops[0]).0, ops[1..], i)
  {
    var s1 := Step(w, s, ops[0]).0;
    if i: nat :| MetAt(w, s, ops, i) {
      MetNext(w, s, ops, i - 1);
      assert MetAt(w, s1, ops[1..], i - 1);
    }
    if i: nat :| MetAt(w, s1, ops[1..], i) {
      MetNext(w, s, ops, i);
    }
  }

  /** While the transaction may commit, all a closure was shown are exempt errors, those of statements that another
      transaction refused to bind, and what closing a Rows reports. */
  lemma {:induction false} ShownInRun(w: World, s: State, ops: seq<Op>, i: nat)
    requires Inv(s) && s.core.autoErr && !Stuck(s) && !Finalized(ops) && i < |ops|
    requires WellFormed(Run(w, s, ops).0) && !Stuck(Run(w, s, ops).0)
    ensures Tolerable(Run(w, s, ops).1[i]) || PassesThrough(StateAt(w, s, ops, i), ops[i])
    decreases ops
  {
    FinalizedRest(ops);
    StepInv(w, s, ops[0]);
    StepAlive(w, s, ops[0]);
    RunStep(w, s, ops);
    var s1 := Step(w, s, ops[0]).0;
    if Stuck(s1) {
      StuckRun(w, s1, ops[1..]);
    }
    if i == 0 {
      AtStart(w, s, ops);
      MetIffStuck(w, s, ops[0]);
      if !Tolerable(Step(w, s, ops[0]).1) {
        ShownIsMet(w, s, ops[0]);
      }
    } else {
      AtNext(w, s, ops, i - 1);
      ShownInRun(w, s1, ops[1..], i - 1);
    }
  }
}
