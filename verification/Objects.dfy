/** The objects of a transaction - Tx, Batch, BatchResults, BatchRows - with their fields updated in place. Each method
    is proved to take the step of the machine for a session that holds these objects; its modifies clause says that no
    other object takes part. */
module Objects {
  import opened Errors
  import opened Steps
  import S = Session

  lemma SupersedeUnfolds(c: S.Core, r: nat)
    requires S.WellFormedCore(c) && r < |c.readers| && c.readers[r].open.None?
    ensures S.Supersede(c, r) == c
  {
  }

  function Counted(tx: S.Tx, batch: S.Batch): S.Tx {
    if batch.items == [] then tx else tx.(unsent := tx.unsent - 1)
  }

  /** A Send by the first results of a transaction. */
  lemma SendAlone(w: S.World, c: S.Core, tx: S.Tx, b: nat, batch: S.Batch)
    requires c.readers == [] && c.rows == []
    ensures var res, tx1, sent := S.Results(b, 0, false, false, false), Counted(tx, batch), batch.(sent := true);
      var (c2, refusal) := S.ShortCircuit(c, tx1);
      SendAt(w, c, tx, b, batch) ==
        if batch.sent
        then (S.FailWith(c.(readers := [S.Reader(None, None)]), 0, New(AlreadySent)).0, tx, batch, res, false)
        else if refusal.Some? then (c2.(readers := [S.Reader(refusal, None)]), tx1, sent, res, false)
        else SendItemsAt(w, c.(readers := [S.Reader(None, None)]), tx1, b, sent, res)
  {
    assert forall reader: S.Reader :: c.readers + [reader] == [reader];
  }

  function Overtaken(row: S.BatchRows): S.BatchRows {
    if row.closed || row.done then row else row.(superseded := true)
  }

  /** The open rows of lone results, before and after the results let go of them. */
  lemma SupersedeAlone(autoErr: bool, err: Option<Error>, failure: Option<Error>, row: S.BatchRows)
    requires row.results == 0
    ensures S.Supersede(S.Core(autoErr, err, [S.Reader(failure, Some(0))], [row]), 0) ==
      S.RowsClose(S.Core(autoErr, err, [S.Reader(failure, None)], [Overtaken(row)]), 0)
  {
    var c, marked := S.Core(autoErr, err, [S.Reader(failure, Some(0))], [row]), Overtaken(row);
    var c1 := S.Core(autoErr, err, [S.Reader(failure, Some(0))], [marked]);
    assert S.Supersede(c, 0) == S.SetOpen(S.RowsClose(c1, 0), 0, None) by { assert [row][0 := marked] == [marked]; }
    assert S.SetOpen(c1, 0, None) == S.Core(autoErr, err, [S.Reader(failure, None)], [marked]);
    ClosedUnheld(c1);
  }

  lemma ClosedUnheld(c: S.Core)
    requires S.WellFormedCore(c) && |c.readers| == 1 && |c.rows| == 1
    ensures S.RowsClose(S.SetOpen(c, 0, None), 0) == S.SetOpen(S.RowsClose(c, 0), 0, None)
  {
  }

  lemma {:induction false} PipeRunSize(w: S.World, log: seq<S.Entry>, b: nat, items: seq<S.Item>, i: nat)
    requires i <= |items|
    ensures |S.PipeRun(w, log, b, items, i).1| == |items| - i
    decreases |items| - i
  {
    if i < |items| {
      PipeRunSize(w, log + [S.Entry(items[i].stmt, S.FromBatch(b, i))], b, items, i + 1);
    }
  }

  lemma PipeRunUnfolds(w: S.World, log: seq<S.Entry>, b: nat, items: seq<S.Item>, i: nat)
    requires i < |items|
    ensures var outcome := w.server(log, items[i].stmt);
      var first := if outcome.Fail? then Some(outcome.err) else outcome.tail;
      var log1 := log + [S.Entry(items[i].stmt, S.FromBatch(b, i))];
      S.PipeRun(w, log, b, items, i) ==
        if first.Some? then (log1, S.FailAll(items[i..], first.value))
        else (S.PipeRun(w, log1, b, items, i + 1).0,
              [S.Item(items[i].stmt, outcome.affected, outcome.rows, None)] + S.PipeRun(w, log1, b, items, i + 1).1)
  {
  }

  /** One more item written where it belongs. */
  lemma OneMore(items: seq<S.Item>, all: seq<S.Item>, ran: seq<S.Item>, i: nat, it: S.Item)
    requires i < |items| == |all| == |ran| && items[i..] == all[i..] && items[..i] == ran[..i] && it == ran[i]
    ensures items[i := it][..i + 1] == ran[..i + 1] == items[..i] + [it] && items[i := it][i + 1..] == all[i + 1..]
    ensures all[i..][1..] == all[i + 1..]
  {
    assert forall k :: i < k < |items| ==> items[k] == items[i..][k - i] == all[i..][k - i] == all[k];
    assert forall k :: 0 <= k < i ==> items[k] == items[..i][k] == ran[..i][k] == ran[k];
  }

  lemma {:induction false} FirstErrOfMore(items: seq<S.Item>, it: S.Item)
    ensures S.FirstErr(items + [it]) == if S.FirstErr(items).Some? then S.FirstErr(items) else it.err
  {
    if items == [] {
      assert items + [it] == [it] && [it][1..] == [];
    } else {
      FirstErrOfMore(items[1..], it);
      assert (items + [it])[1..] == items[1..] + [it];
    }
  }

  class Tx {
    const w: S.World
    const autoErr: bool
    const conn: bool
    var err: Option<Error>
    var unsentBatches: int
    var batchMisuse: Option<Error>
    var openBatch: BatchResults?
    var batchExecuting: bool
    var done: bool

    // The underlying sql.Tx
    var ended: bool
    var finals: seq<S.Final>
    var log: seq<S.Entry>

    constructor (w: S.World, autoErr: bool, conn: bool)
      ensures Core() == S.Begun(autoErr, conn).core && View() == S.Begun(autoErr, conn).tx
      ensures this.w == w && openBatch == null
    {
      this.w, this.autoErr, this.conn := w, autoErr, conn;
      err, unsentBatches, batchMisuse, openBatch, batchExecuting, done := None, 0, None, null, false, false;
      ended, finals, log := false, [], [];
    }

    ghost function Core(): S.Core
      reads this`err
    {
      S.Core(autoErr, err, [], [])
    }

    /** The transaction as a value; the results that are open, if any, have number 0. */
    ghost function View(): S.Tx
      reads this`unsentBatches, this`batchMisuse, this`openBatch, this`batchExecuting, this`done, this`ended,
        this`finals, this`log
    {
      S.Tx(conn, unsentBatches, batchMisuse, if openBatch == null then None else Some(0), batchExecuting,
           done, ended, finals, log)
    }

    // ----- Errors -----

    method RecordErr(e: Option<Error>)
      modifies this`err
      ensures Core() == S.RecordOpt(old(Core()), e)
    {
      if e.Some? && autoErr {
        if err.None? {
          err := e;
        }
      }
    }

    predicate BatchRefuses()
      reads this`openBatch, this`batchExecuting
      ensures BatchRefuses() <==> S.BatchRefuses(View())
    {
      openBatch != null && !batchExecuting
    }

    method ShortCircuit() returns (refusal: Option<Error>)
      modifies this`err
      ensures (Core(), refusal) == S.ShortCircuit(old(Core()), old(View()))
    {
      if BatchRefuses() {
        RecordErr(Some(New(BatchOpen)));
        return Some(New(BatchOpen));
      }
      return if autoErr then err else None;
    }

    /** A statement on the underlying sql.Tx. Exec reads the whole of its result. */
    method Execute(stmt: S.Stmt, origin: S.Origin, whole: bool) returns (ran: S.Ran)
      modifies this`log
      ensures (View(), ran) == S.Execute(w, old(View()), stmt, origin, whole)
    {
      if stmt.unpack.Some? {
        return S.Refused(TraceErr(stmt.unpack.value));
      }
      if ended {
        return S.Refused(New(TxDone));
      }
      if stmt.panics {
        return S.Unwound;
      }
      var outcome := w.server(log, stmt);
      log := log + [S.Entry(stmt, origin)];
      return match outcome
        case Ok(affected, rows, tail, rest) =>
          if whole && tail.Some? then S.Refused(TraceErr(tail.value))
          else S.Succeeded(affected, S.Cursor(rows, S.Before, tail, rest))
        case Fail(e) => S.Refused(TraceErr(e));
    }

    /** ExecContext and QueryContext, up to what they give back. */
    method Issue(stmt: S.Stmt, origin: S.Origin, whole: bool) returns (ran: S.Ran)
      modifies this`err, this`log
      ensures (Core(), View(), ran) == S.Issue(w, old(Core()), old(View()), stmt, origin, whole)
    {
      var refusal := ShortCircuit();
      if refusal.Some? {
        return S.Refused(refusal.value);
      }
      ran := Execute(stmt, origin, whole);
      if ran.Refused? {
        RecordErr(Some(ran.err));
      }
    }

    // ----- Finalization -----

    method BatchPending() returns (e: Option<Error>)
      ensures e == S.BatchPending(View())
    {
      if batchMisuse.Some? {
        return batchMisuse;
      }
      if unsentBatches > 0 {
        return Some(New(NeverSent));
      }
      if openBatch != null {
        return Some(New(NeverClosed));
      }
      return None;
    }

    method Finalize(op: S.Final, outcome: S.CommitOutcome) returns (e: Option<Error>)
      modifies this`done, this`ended, this`finals
      ensures (View(), e) == S.Finalize(old(View()), op, outcome)
    {
      if done || ended {
        return Some(New(TxDone));
      }
      if outcome.Cancelled? {
        return Some(TraceErr(outcome.cause));
      }
      ended, finals := true, finals + [op];
      if outcome.err.None? {
        done := true;
      }
      return TraceOpt(outcome.err);
    }

    method Commit(outcome: S.CommitOutcome) returns (e: Option<Error>)
      modifies this`done, this`ended, this`finals
      ensures (View(), e) == S.CommitOf(old(View()), outcome)
    {
      e := BatchPending();
      if e.None? {
        e := Finalize(S.Commit, outcome);
      }
    }

    /** Rollback ends the open results first. */
    method Rollback(fault: Option<Error>) returns (e: Option<Error>)
      requires openBatch != null ==> openBatch.Valid() && openBatch.batch.tx == this
      modifies this`done, this`ended, this`finals, this`openBatch, this`err
      modifies if openBatch == null then {} else {openBatch}
      modifies if openBatch == null || openBatch.open == null then {} else {openBatch.open}
      ensures openBatch == null && old(openBatch) != null ==> old(openBatch).closed
      ensures (View(), e) == S.Finalize(old(View()).(open := None), S.Rollback, S.Reached(fault))
      ensures old(openBatch) == null ==> err == old(err)
      ensures old(openBatch) != null ==>
        old(openBatch).After(old(openBatch.open)) == S.Supersede(old(openBatch.Core()), 0)
    {
      if openBatch != null {
        openBatch.Abandon();
      }
      e := Finalize(S.Rollback, S.Reached(fault));
    }
  }

  class Batch {
    const id: nat
    const tx: Tx
    var items: seq<S.Item>
    var sent: bool

    constructor (tx: Tx, id: nat)
      ensures this.tx == tx && this.id == id && Value() == S.Batch([], false)
    {
      this.tx, this.id, items, sent := tx, id, [], false;
    }

    ghost function Value(): S.Batch
      reads this
    {
      S.Batch(items, sent)
    }

    /** A session with this batch and nothing else. */
    ghost function Session(): S.State
      reads this, tx
    {
      S.State(tx.Core(), tx.View(), [Value()], [], [], [])
    }

    method Queue(stmt: S.Stmt)
      modifies this`items, tx`unsentBatches, tx`batchMisuse, tx`err
      ensures Session() == S.Queue(old(Session()), 0, stmt)
    {
      if sent {
        if tx.batchMisuse.None? {
          tx.batchMisuse := Some(New(QueuedAfterSend));
        }
        tx.RecordErr(Some(New(QueuedAfterSend)));
        return;
      }
      if |items| == 0 {
        tx.unsentBatches := tx.unsentBatches + 1;
      }
      items := items + [S.Item(stmt, 0, [], None)];
    }

    /** Every item from an index on fails with an error. */
    method FailFrom(i: nat, e: Error)
      requires i <= |items|
      modifies this`items
      ensures items == old(items)[..i] + S.FailAll(old(items)[i..], e)
    {
      for j := i to |items|
        invariant |items| == |old(items)|
        invariant forall k :: 0 <= k < |items| ==>
          items[k] == if i <= k < j then old(items)[k].(err := Some(e)) else old(items)[k]
      {
        items := items[j := items[j].(err := Some(e))];
      }
    }

    /** One statement's outcome. */
    method BufferResult(it: S.Item, i: nat) returns (r: S.Item)
      modifies tx`log
      ensures tx.log == old(tx.log) + [S.Entry(it.stmt, S.FromBatch(id, i))]
      ensures var outcome := tx.w.server(old(tx.log), it.stmt);
        var first := if outcome.Fail? then Some(outcome.err) else outcome.tail;
        r == if first.Some? then it.(err := first) else S.Item(it.stmt, outcome.affected, outcome.rows, None)
    {
      var outcome := tx.w.server(tx.log, it.stmt);
      tx.log := tx.log + [S.Entry(it.stmt, S.FromBatch(id, i))];
      if outcome.Fail? {
        return it.(err := Some(outcome.err));
      }
      return if outcome.tail.Some? then it.(err := outcome.tail)
             else S.Item(it.stmt, outcome.affected, outcome.rows, None);
    }

    /** The statements run in order on the borrowed connection, and their outcomes are buffered: the first failure is
        every later item's too. */
    method BufferResults() returns (first: Option<Error>)
      modifies this`items, tx`log
      ensures (tx.log, items) == S.PipeRun(tx.w, old(tx.log), id, old(items), 0)
      ensures first == S.FirstErr(items)
    {
      first := None;
      ghost var all, ran := items, S.PipeRun(tx.w, tx.log, id, items, 0);
      PipeRunSize(tx.w, tx.log, id, all, 0);
      for i := 0 to |items|
        invariant |items| == |all| && items[i..] == all[i..] && items[..i] == ran.1[..i]
        invariant first == S.FirstErr(items[..i])
        invariant first.None? ==> S.PipeRun(tx.w, tx.log, id, all, i) == (ran.0, ran.1[i..])
        invariant first.Some? ==> tx.log == ran.0 && ran.1[i..] == S.FailAll(all[i..], first.value)
      {
        var it := items[i];
        assert it == items[i..][0] == all[i];
        if first.None? {
          PipeRunUnfolds(tx.w, tx.log, id, all, i);
          it := BufferResult(it, i);
          first := it.err;
        } else {
          it := it.(err := first);
        }
        assert it == ran.1[i..][0] && ran.1[i + 1..] == ran.1[i..][1..];
        OneMore(items, all, ran.1, i, it);
        FirstErrOfMore(items[..i], it);
        items := items[i := it];
      }
      assert items[..|items|] == items && ran.1[..|items|] == ran.1;
    }

    method Pipeline() returns (unwound: bool)
      modifies this`items, tx`log
      ensures S.Piped(tx.log, items, unwound) == S.Pipeline(tx.w, old(tx.View()), id, old(items))
    {
      ghost var all := items;
      for i := 0 to |items|
        invariant items == all && S.FirstUnpackErr(all) == S.FirstUnpackErr(all[i..])
      {
        if items[i].stmt.unpack.Some? {
          FailFrom(0, items[i].stmt.unpack.value);
          return false;
        }
      }
      var reject := tx.w.reject(tx.log, S.Statements(items));
      if reject.Some? {
        FailFrom(0, reject.value);
        return false;
      }
      if tx.ended {
        FailFrom(0, New(TxDone));
        return false;
      }
      if exists i :: 0 <= i < |items| && items[i].stmt.panics {
        return true;
      }
      var late := tx.w.late(tx.log, S.Statements(items));
      var first := BufferResults();
      if first.None? && late.Some? {
        FailFrom(0, late.value);
      }
      return false;
    }

    /** Send: the batch is sent once, on a transaction no other batch holds. */
    method Send() returns (r: BatchResults, unwound: bool)
      modifies this, tx`err, tx`unsentBatches, tx`openBatch, tx`log
      ensures fresh(r) && r.batch == this && r.open == null && tx.openBatch in {old(tx.openBatch), r}
      ensures (r.Solo(), tx.View(), Value(), r.Value(), unwound) ==
        SendAt(tx.w, old(tx.Core()), old(tx.View()), id, old(Value()))
    {
      ghost var c, view, batch := tx.Core(), tx.View(), Value();
      r := new BatchResults(this);
      unwound := false;
      assert r.Solo() == S.Core(c.autoErr, c.err, [S.Reader(None, None)], []);
      if sent {
        var _ := r.Fail(Some(New(AlreadySent)));
        SendAlone(tx.w, c, view, id, batch);
      } else {
        unwound := SendOnce(r);
      }
    }

    method SendOnce(r: BatchResults) returns (unwound: bool)
      requires !sent && r.batch == this && r.Value() == S.Results(id, 0, false, false, false) && r.err == None
      modifies this`sent, this`items, tx`err, tx`unsentBatches, tx`openBatch, tx`log, r`err, r`pipelined, r`lost
      ensures tx.openBatch in {old(tx.openBatch), r}
      ensures (r.Solo(), tx.View(), Value(), r.Value(), unwound) ==
        SendAt(tx.w, old(tx.Core()), old(tx.View()), id, old(Value()))
    {
      SendAlone(tx.w, tx.Core(), tx.View(), id, Value());
      var refusal := Claim();
      if refusal.Some? {
        r.err := refusal;
        return false;
      }
      unwound := SendItems(r);
    }

    /** The batch counts as sent, whether or not the transaction refuses it. */
    method Claim() returns (refusal: Option<Error>)
      modifies this`sent, tx`unsentBatches, tx`err
      ensures Value() == old(Value()).(sent := true) && tx.View() == Counted(old(tx.View()), old(Value()))
      ensures (tx.Core(), refusal) == S.ShortCircuit(old(tx.Core()), tx.View())
    {
      sent := true;
      if |items| > 0 {
        tx.unsentBatches := tx.unsentBatches - 1;
      }
      refusal := tx.ShortCircuit();
    }

    method SendItems(r: BatchResults) returns (unwound: bool)
      requires r.batch == this && r.Value() == S.Results(id, 0, false, false, false)
      modifies this`items, tx`err, tx`openBatch, tx`log, r`err, r`pipelined, r`lost
      ensures tx.openBatch in {old(tx.openBatch), r}
      ensures (r.Solo(), tx.View(), Value(), r.Value(), unwound) ==
        SendItemsAt(tx.w, old(r.Solo()), old(tx.View()), id, old(Value()), old(r.Value()))
    {
      if HasNamed(items) {
        var _ := r.Fail(Some(New(NamedArgument)));
        return false;
      }
      if |items| == 0 {
        return false;
      }
      tx.openBatch := r;
      if !tx.conn {
        return false;
      }
      r.pipelined := true;
      unwound := Pipeline();
      r.lost := unwound;
    }
  }

  class BatchResults {
    const batch: Batch
    var next: nat
    var err: Option<Error>
    var closed: bool
    var open: BatchRows?
    var pipelined: bool
    ghost var lost: bool

    constructor (batch: Batch)
      ensures this.batch == batch && err == None && open == null
      ensures Value() == S.Results(batch.id, 0, false, false, false)
    {
      this.batch, next, err, closed, open, pipelined, lost := batch, 0, None, false, null, false, false;
    }

    ghost predicate Valid()
      reads this`open
    {
      open != null ==> open.results == this
    }

    ghost function Value(): S.Results
      reads this`next, this`closed, this`pipelined, this`lost
    {
      S.Results(batch.id, next, closed, pipelined, lost)
    }

    /** The part of the state that these results and some rows of theirs make up: rows read before, then the open
        ones. */
    ghost function After(before: BatchRows?): S.Core
      reads this, open, before, batch.tx`err
    {
      var rows := if before == null then [] else [before.Value()];
      if open == null then S.Core(batch.tx.autoErr, batch.tx.err, [S.Reader(err, None)], rows)
      else S.Core(batch.tx.autoErr, batch.tx.err, [S.Reader(err, Some(|rows|))], rows + [open.Value()])
    }

    ghost function Core(): S.Core
      reads this, open, batch.tx`err
    {
      After(null)
    }

    ghost function Solo(): S.Core
      reads this`err, batch.tx`err
    {
      S.Core(batch.tx.autoErr, batch.tx.err, [S.Reader(err, None)], [])
    }

    // ----- Failing -----

    method Fail(e: Option<Error>) returns (kept: Option<Error>)
      modifies this`err, batch.tx`err
      ensures Solo() == S.FailOpt(old(Solo()), 0, e)
      ensures kept == if e.Some? then Some(S.FailWith(old(Solo()), 0, e.value).1) else None
    {
      if e.None? {
        return None;
      }
      var recorded := batch.tx.err;
      if recorded.Some? && Is(e.value, recorded.value) {
        kept := recorded;
      } else {
        kept := Some(TraceErr(e.value));
      }
      if err.None? {
        err := kept;
      }
      batch.tx.RecordErr(kept);
    }

    method Doomed()
      modifies this`err, batch.tx`err
      ensures Solo() == S.Doomed(old(Solo()), 0)
    {
      if batch.tx.autoErr {
        var recorded := batch.tx.err;
        if recorded.Some? {
          var _ := Fail(recorded);
        }
      }
    }

    method SupersedeOpen()
      requires Valid()
      modifies this`open, this`err, batch.tx`err, if open == null then {} else {open}
      ensures open == null && After(old(open)) == S.Supersede(old(Core()), 0)
    {
      if open != null {
        ghost var before, row, whole := open, open.Value(), Core();
        assert whole == S.Core(batch.tx.autoErr, batch.tx.err, [S.Reader(err, Some(0))], [row]);
        if !open.closed && !open.done {
          open.superseded := true;
        }
        ghost var c := open.Core();
        assert c == S.Core(whole.autoErr, whole.err, [S.Reader(err, None)], [Overtaken(row)]);
        var _ := open.Close();
        open := null;
        assert After(before) == before.Core() == S.RowsClose(c, 0);
        assert After(before) == S.Supersede(whole, 0) by {
          SupersedeAlone(whole.autoErr, whole.err, whole.readers[0].err, row);
        }
      }
    }

    method Abandon()
      requires Valid()
      modifies this`open, this`err, this`closed, batch.tx`err, batch.tx`openBatch, if open == null then {} else {open}
      ensures open == null && closed && After(old(open)) == S.Supersede(old(Core()), 0)
      ensures batch.tx.openBatch == if old(batch.tx.openBatch) == this then null else old(batch.tx.openBatch)
    {
      SupersedeOpen();
      closed := true;
      if batch.tx.openBatch == this {
        batch.tx.openBatch := null;
      }
    }

    // ----- Reading -----

    method Advance() returns (turn: S.Turn)
      requires Valid()
      modifies this`open, this`err, this`next, batch.tx`err, if open == null then {} else {open}
      ensures open == null && (turn.Read? ==> turn.index < |batch.items|)
      ensures (After(old(open)), next, turn) == AdvanceAt(old(Core()), 0, old(Value()), batch.items)
    {
      ghost var before := open;
      SupersedeOpen();
      ghost var c := After(before);
      if closed {
        return S.Stop(New(ResultsClosed));
      }
      TurnRows(Solo(), 0, Value(), batch.items, c.rows);
      Doomed();
      TurnRows(Solo(), 0, Value(), batch.items, c.rows);
      turn := TakeTurn();
      assert After(before) == Solo().(rows := c.rows);
    }

    method TakeTurn() returns (turn: S.Turn)
      modifies this`err, this`next, batch.tx`err
      ensures (Solo(), next, turn) == TurnAt(old(Solo()), 0, old(Value()), batch.items)
    {
      if err.Some? {
        next := next + 1;
        return S.Stop(err.value);
      }
      if next >= |batch.items| {
        return S.Stop(New(NoMoreResults));
      }
      var i := next;
      next := next + 1;
      if pipelined && batch.items[i].err.Some? {
        var e := Fail(batch.items[i].err);
        return S.Stop(e.value);
      }
      return S.Read(i);
    }

    /** A statement of the batch, issued while the transaction refuses every other. */
    method Run(i: nat, whole: bool) returns (ran: S.Ran)
      requires i < |batch.items|
      modifies this`err, batch.tx`err, batch.tx`log, batch.tx`batchExecuting
      ensures (Solo(), batch.tx.View(), ran) ==
        RunAt(batch.tx.w, old(Solo()), old(batch.tx.View()), 0, batch.id, batch.items, i, whole)
    {
      ran := IssueOwn(batch.items[i].stmt, S.FromBatch(batch.id, i), whole);
      batch.tx.batchExecuting := false;
      ran := Settle(ran);
    }

    method IssueOwn(stmt: S.Stmt, origin: S.Origin, whole: bool) returns (ran: S.Ran)
      modifies batch.tx`err, batch.tx`log, batch.tx`batchExecuting
      ensures (Solo(), batch.tx.View(), ran) ==
        S.Issue(batch.tx.w, old(Solo()), old(batch.tx.View()).(executing := true), stmt, origin, whole)
    {
      batch.tx.batchExecuting := true;
      ghost var c, tx := Solo(), batch.tx.View();
      assert tx == old(batch.tx.View()).(executing := true) && c == old(Solo());
      IssueReads(batch.tx.w, batch.tx.Core(), c, tx, tx, stmt, origin, whole);
      ran := batch.tx.Issue(stmt, origin, whole);
      assert Solo() == c.(err := batch.tx.Core().err);
    }

    /** A statement that failed or unwound fails the batch. */
    method Settle(ran: S.Ran) returns (kept: S.Ran)
      modifies this`err, batch.tx`err
      ensures (Solo(), kept) == S.FailRan(old(Solo()), 0, ran)
    {
      kept := ran;
      if ran.Unwound? {
        var _ := Fail(Some(New(StatementPanic)));
      } else if ran.Refused? {
        var e := Fail(Some(ran.err));
        kept := S.Refused(e.value);
      }
    }

    /** The same, next to rows read before. */
    method RunAfter(i: nat, whole: bool, ghost before: BatchRows?) returns (ran: S.Ran)
      requires i < |batch.items| && open == null
      modifies this`err, batch.tx`err, batch.tx`log, batch.tx`batchExecuting
      ensures (After(before), batch.tx.View(), ran) ==
        RunAt(batch.tx.w, old(After(before)), old(batch.tx.View()), 0, batch.id, batch.items, i, whole)
    {
      ghost var c := After(before);
      RunRows(batch.tx.w, Solo(), batch.tx.View(), 0, batch.id, batch.items, i, c.rows, whole);
      assert c == Solo().(rows := c.rows);
      ran := Run(i, whole);
      assert After(before) == Solo().(rows := c.rows);
    }

    /** Exec takes the two steps of ExecAt: its turn, and the state in between, are ghost results. */
    method Exec() returns (a: S.Answer, ghost turn: S.Turn, ghost mid: S.Core)
      requires Valid()
      modifies this`open, this`err, this`next, batch.tx`err, batch.tx`log, batch.tx`batchExecuting
      modifies if open == null then {} else {open}
      ensures open == null && |mid.readers| == 1 && (turn.Read? ==> turn.index < |batch.items|)
      ensures (mid, next, turn) == AdvanceAt(old(Core()), 0, old(Value()), batch.items)
      ensures (After(old(open)), batch.tx.View(), a) ==
        Steps.ExecTurn(batch.tx.w, mid, old(batch.tx.View()), 0, pipelined, batch.id, batch.items, turn)
    {
      ghost var before, tx := open, batch.tx.View();
      var t := Advance();
      turn, mid := t, After(before);
      assert batch.tx.View() == tx;
      a := ExecTurn(t, before);
    }

    method ExecTurn(turn: S.Turn, ghost before: BatchRows?) returns (a: S.Answer)
      requires open == null && (turn.Read? ==> turn.index < |batch.items|)
      modifies this`err, batch.tx`err, batch.tx`log, batch.tx`batchExecuting
      ensures (After(before), batch.tx.View(), a) ==
        Steps.ExecTurn(batch.tx.w, old(After(before)), old(batch.tx.View()), 0, pipelined, batch.id, batch.items, turn)
    {
      if turn.Stop? {
        return S.Failed(turn.err);
      }
      if pipelined {
        return S.Affected(batch.items[turn.index].affected);
      }
      var ran := RunAfter(turn.index, true, before);
      a := S.ExecAnswer(ran);
    }

    /** The two steps of QueryAt. The rows are the open ones of these results until the next read. */
    method Query() returns (rows: BatchRows?, ghost a: S.Answer, ghost turn: S.Turn, ghost mid: S.Core)
      requires Valid()
      modifies this`open, this`err, this`next, batch.tx`err, batch.tx`log, batch.tx`batchExecuting
      modifies if open == null then {} else {open}
      ensures Valid() && open == rows && (rows != null ==> fresh(rows)) && (rows != null <==> a.Handle?)
      ensures |mid.readers| == 1 && (turn.Read? ==> turn.index < |batch.items|)
      ensures (mid, next, turn) == AdvanceAt(old(Core()), 0, old(Value()), batch.items)
      ensures (After(old(open)), batch.tx.View(), a) ==
        Steps.QueryTurn(batch.tx.w, mid, old(batch.tx.View()), 0, pipelined, batch.id, batch.items, turn)
    {
      ghost var before, tx := open, batch.tx.View();
      var t := Advance();
      turn, mid := t, After(before);
      assert batch.tx.View() == tx;
      rows, a := QueryTurn(t, before);
    }

    method QueryTurn(turn: S.Turn, ghost before: BatchRows?) returns (rows: BatchRows?, ghost a: S.Answer)
      requires open == null && (turn.Read? ==> turn.index < |batch.items|)
      modifies this`open, this`err, batch.tx`err, batch.tx`log, batch.tx`batchExecuting
      ensures Valid() && open == rows && (rows != null ==> fresh(rows)) && (rows != null <==> a.Handle?)
      ensures (After(before), batch.tx.View(), a) ==
        Steps.QueryTurn(batch.tx.w, old(After(before)), old(batch.tx.View()), 0, pipelined, batch.id, batch.items, turn)
    {
      if turn.Stop? {
        return null, S.Failed(turn.err);
      }
      if pipelined {
        rows := OpenRows(S.Buffered(batch.items[turn.index].rows), before);
      } else {
        var ran := RunAfter(turn.index, false, before);
        if !ran.Succeeded? {
          return null, S.ExecAnswer(ran);
        }
        rows := OpenRows(ran.cursor, before);
      }
      a := S.Handle(if before == null then 0 else 1);
    }

    method OpenRows(cursor: S.Cursor, ghost before: BatchRows?) returns (rows: BatchRows)
      requires open == null
      modifies this`open
      ensures fresh(rows) && Valid() && open == rows
      ensures After(before) == OpenedAt(old(After(before)), 0, cursor, pipelined)
    {
      rows := new BatchRows(this, pipelined, cursor);
      open := rows;
    }

    /** The statements not read yet run, until one fails. */
    method RunRest() returns (unwound: bool)
      modifies this`err, this`next, batch.tx`err, batch.tx`log, batch.tx`batchExecuting
      ensures (Solo(), batch.tx.View(), next, unwound) ==
        RestAt(batch.tx.w, old(Solo()), old(batch.tx.View()), 0, batch.id, batch.items, old(next))
    {
      while err.None? && next < |batch.items|
        invariant RestAt(batch.tx.w, Solo(), batch.tx.View(), 0, batch.id, batch.items, next) ==
          RestAt(batch.tx.w, old(Solo()), old(batch.tx.View()), 0, batch.id, batch.items, old(next))
        decreases |batch.items| - next
      {
        var i := next;
        next := next + 1;
        var ran := Run(i, true);
        if ran.Unwound? {
          return true;
        }
      }
      return false;
    }

    lemma AfterIs(before: BatchRows?, rows: seq<S.BatchRows>)
      requires open == null && rows == if before == null then [] else [before.Value()]
      ensures After(before) == Solo().(rows := rows)
    {
    }

    method Finish() returns (unwound: bool)
      modifies this`err, this`next, batch.tx`err, batch.tx`log, batch.tx`batchExecuting
      ensures (Solo(), batch.tx.View(), next, unwound) ==
        FinishAt(batch.tx.w, old(Solo()), old(batch.tx.View()), 0, old(Value()), batch.items)
    {
      if !pipelined {
        unwound := RunRest();
        return;
      }
      for i := 0 to |batch.items|
        invariant Solo() == old(Solo()) && S.FirstErr(batch.items) == S.FirstErr(batch.items[i..])
      {
        if batch.items[i].err.Some? {
          var _ := Fail(batch.items[i].err);
          return false;
        }
      }
      return false;
    }

    method FinishAfter(ghost before: BatchRows?) returns (unwound: bool)
      requires open == null
      modifies this`err, this`next, batch.tx`err, batch.tx`log, batch.tx`batchExecuting
      ensures (After(before), batch.tx.View(), next, unwound) ==
        FinishAt(batch.tx.w, S.Doomed(old(After(before)), 0), old(batch.tx.View()), 0, old(Value()), batch.items)
    {
      ghost var c := After(before);
      assert c == Solo().(rows := c.rows);
      TurnRows(Solo(), 0, Value(), batch.items, c.rows);
      Doomed();
      ghost var d := Solo();
      assert S.Doomed(c, 0) == d.(rows := c.rows);
      FinishRows(batch.tx.w, d, batch.tx.View(), 0, Value(), batch.items, c.rows);
      unwound := Finish();
      AfterIs(before, c.rows);
    }

    /** Close runs what was not read, and releases the transaction however that ends. */
    method Close() returns (a: S.Answer)
      requires Valid()
      modifies this, batch.tx`err, batch.tx`log, batch.tx`batchExecuting, batch.tx`openBatch
      modifies if open == null then {} else {open}
      ensures old(closed) ==> a == S.AnswerOf(err) && unchanged(this) && unchanged(batch.tx)
      ensures !old(closed) ==> Ended(old(batch.tx.openBatch))
      ensures !old(closed) ==>
        (After(old(open)), batch.tx.log, batch.tx.batchExecuting, next, a) ==
          ClosedAt(batch.tx.w, old(Core()), old(batch.tx.View()), old(Value()), batch.items)
    {
      if closed {
        return S.AnswerOf(err);
      }
      a := CloseOnce();
    }

    /** Closed, and not the transaction's open results any more. */
    ghost predicate Ended(was: BatchResults?)
      reads this, batch.tx
    {
      closed && open == null && batch.tx.openBatch == if was == this then null else was
    }

    method CloseOnce() returns (a: S.Answer)
      requires Valid()
      modifies this, batch.tx`err, batch.tx`log, batch.tx`batchExecuting, batch.tx`openBatch
      modifies if open == null then {} else {open}
      ensures Ended(old(batch.tx.openBatch))
      ensures (After(old(open)), batch.tx.log, batch.tx.batchExecuting, next, a) ==
        ClosedAt(batch.tx.w, old(Core()), old(batch.tx.View()), old(Value()), batch.items)
    {
      ghost var before, c, tx, res := open, Core(), batch.tx.View(), Value();
      SupersedeOpen();
      assert After(before) == S.Supersede(c, 0);
      assert batch.tx.View() == tx;
      assert Value() == res;
      a := CloseRest(before);
    }

    method CloseRest(ghost before: BatchRows?) returns (a: S.Answer)
      requires open == null
      modifies this, batch.tx`err, batch.tx`log, batch.tx`batchExecuting, batch.tx`openBatch
      ensures Ended(old(batch.tx.openBatch))
      ensures (After(before), batch.tx.log, batch.tx.batchExecuting, next, a) ==
        RestClosedAt(batch.tx.w, old(After(before)), old(batch.tx.View()), old(Value()), batch.items)
    {
      var unwound := FinishAfter(before);
      a := if unwound then S.Panicked else S.AnswerOf(err);
      Release(before);
    }

    /** The deferred abandon finds no open rows. */
    method Release(ghost before: BatchRows?)
      requires open == null
      modifies this`open, this`err, this`closed, batch.tx`err, batch.tx`openBatch
      ensures Ended(old(batch.tx.openBatch))
      ensures After(before) == old(After(before)) == S.Supersede(old(After(before)), 0)
    {
      SupersedeUnfolds(After(before), 0);
      SupersedeUnfolds(Core(), 0);
      Abandon();
    }
  }

  class BatchRows {
    const results: BatchResults
    const buffered: bool
    var cursor: S.Cursor
    var closed: bool
    var done: bool
    var superseded: bool

    constructor (results: BatchResults, buffered: bool, cursor: S.Cursor)
      ensures this.results == results && Value() == S.BatchRows(cursor, 0, buffered, false, false, false)
    {
      this.results, this.buffered, this.cursor := results, buffered, cursor;
      closed, done, superseded := false, false, false;
    }

    ghost function Value(): S.BatchRows
      reads this
    {
      S.BatchRows(cursor, 0, buffered, closed, done, superseded)
    }

    /** The part of the state that these rows and their results make up. */
    ghost function Core(): S.Core
      reads this, results`err, results.batch.tx`err
    {
      S.Core(results.batch.tx.autoErr, results.batch.tx.err, [S.Reader(results.err, None)], [Value()])
    }

    /** The Err of the source: rows that stream latch it into the transaction. */
    method SourceErr() returns (e: Option<Error>)
      modifies results.batch.tx`err
      ensures Core() == S.RecordOpt(old(Core()), S.SourceErr(Value())) && e == TraceOpt(S.SourceErr(Value()))
    {
      if buffered {
        return None;
      }
      var source := S.CursorErr(cursor);
      results.batch.tx.RecordErr(source);
      e := TraceOpt(source);
    }

    method FailSource()
      modifies results`err, results.batch.tx`err
      ensures Core() == S.FailSource(old(Core()), 0)
    {
      var e := SourceErr();
      var _ := results.Fail(e);
    }

    method ErrSuperseded() returns (e: Error)
      modifies results.batch.tx`err
      ensures Core() == S.RecordErr(old(Core()), New(Superseded)) && e == New(Superseded)
    {
      e := New(Superseded);
      results.batch.tx.RecordErr(Some(e));
    }

    /** Close answers what closing the source reports, and latches what the source then has. */
    method Close() returns (e: Option<Error>)
      modifies this`closed, this`cursor, results`err, results.batch.tx`err
      ensures Core() == S.RowsClose(old(Core()), 0) && e == S.RowsCloseErr(old(Value()))
    {
      if closed {
        return None;
      }
      closed := true;
      e := if buffered then None else TraceOpt(S.ClosingErr(cursor));
      cursor := S.CursorClose(cursor);
      assert Core() == S.SetRow(old(Core()), 0, old(Value()).(closed := true, cursor := cursor));
      FailSource();
    }

    method Next() returns (more: bool)
      modifies this`cursor, this`done, results`err, results.batch.tx`err
      ensures (Core(), more) == S.RowsNext(old(Core()), 0)
    {
      if superseded {
        var _ := ErrSuperseded();
        return false;
      }
      if closed {
        return false;
      }
      var next := S.CursorNext(cursor);
      cursor, more := next.0, next.1;
      if !more {
        done := true;
      }
      assert Core() == S.SetRow(old(Core()), 0, old(Value()).(cursor := cursor, done := done));
      if !more {
        FailSource();
      }
    }

    method Scan(dest: S.Dest) returns (a: S.Answer)
      modifies results`err, results.batch.tx`err
      ensures (Core(), a) == S.StepRows(results.batch.tx.w, old(Core()), S.OpRowsScan(0, dest))
    {
      var e := S.CursorScan(results.batch.tx.w, cursor, dest);
      if e.None? {
        return S.ScanAnswer(cursor, None);
      }
      if !buffered {
        results.batch.tx.RecordErr(e);
        e := Some(TraceErr(e.value));
      }
      e := results.Fail(e);
      a := S.Failed(e.value);
    }

    method Err() returns (e: Option<Error>)
      modifies results.batch.tx`err
      ensures (Core(), e) == S.RowsErr(old(Core()), 0)
    {
      if superseded {
        var e1 := ErrSuperseded();
        return Some(e1);
      }
      e := SourceErr();
      e := TraceOpt(e);
    }

    /** BatchRow.Scan: the first row, closed whatever happens. */
    method ScanRow(dest: S.Dest, raw: bool) returns (a: S.Answer)
      modifies this, results`err, results.batch.tx`err
      ensures (Core(), a) == S.StepRows(results.batch.tx.w, old(Core()), S.OpRowScan(0, dest, raw))
    {
      if superseded {
        var e1 := ErrSuperseded();
        return S.Failed(e1);
      }
      var more := Next();
      if !more {
        var e := Err();
        a := S.Failed(if e.Some? then e.value else New(NoRows));
      } else if raw {
        var e := results.Fail(Some(New(RawBytes)));
        a := S.Failed(e.value);
      } else {
        a := Scan(dest);
      }
      var e := Close();
      if a.Scanned? && e.Some? {
        a := S.Failed(e.value);
      }
    }
  }
}
