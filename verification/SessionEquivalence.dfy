/** A batch sent in one round trip and the same batch run statement by statement look the same to the closure.

    Two runs of one script are compared: `p` on a held connection, where Send pipelines the whole batch, and `q`
    without one, where each statement runs when its result is read. */
module SessionEquivalence {
  import opened Errors
  import opened Session
  import opened SessionSafety

  // ----- When the two ways are comparable -----

  /** Statements fail when they execute: no pipeline is rejected as a whole, and no error follows rows. */
  ghost predicate FailsAtExecution(w: World) {
    && (forall log, stmt {:trigger w.server(log, stmt)} ::
          w.server(log, stmt).Ok? ==> w.server(log, stmt).tail.None? && w.server(log, stmt).rest.None?)
    && (forall log, stmts {:trigger w.reject(log, stmts)} :: w.reject(log, stmts).None?)
    && (forall log, stmts {:trigger w.late(log, stmts)} :: w.late(log, stmts).None?)
  }

  /** Such a world may still fail any statement it likes. */
  lemma SomeWorldFails() returns (w: World, good: Stmt, bad: Stmt)
    ensures FailsAtExecution(w) && w.server([], good).Ok? && w.server([], bad).Fail?
  {
    w := World(
      (_, stmt: Stmt) => if stmt.id == 0 then Ok(1, [], None, None) else Fail(New(Failure(1))),
      (_, _) => None, (_, _) => None, (_, _) => None);
    good, bad := Stmt(0, false, false, None), Stmt(1, false, false, None);
  }

  /** A queued statement unpacks, and converting its arguments does not panic. */
  predicate Sendable(op: Op) {
    op.OpQueue? ==> op.stmt.unpack.None? && !op.stmt.panics
  }

  // ----- The relation -----

  predicate SameAnswer(a: Answer, b: Answer) {
    if a.Failed? && b.Failed? then a.err.root == b.err.root else a == b
  }

  predicate Calm(c: Cursor) {
    c.tail.None? && c.rest.None? && CursorErr(c).None?
  }

  predicate SameReader(a: Reader, b: Reader) {
    SameRoot(a.err, b.err) && a.open == b.open
  }

  predicate SameRows(a: BatchRows, b: BatchRows) {
    a == b.(buffered := true) && !b.buffered && Calm(b.cursor)
  }

  ghost predicate SameCore(p: Core, q: Core) {
    && p.autoErr && q.autoErr
    && SameRoot(p.err, q.err)
    && |p.readers| == |q.readers| && |p.rows| == |q.rows|
    && (forall r :: 0 <= r < |p.readers| ==> SameReader(p.readers[r], q.readers[r]))
    && (forall k :: 0 <= k < |p.rows| ==> SameRows(p.rows[k], q.rows[k]))
  }

  predicate Fresh(it: Item) {
    it == Item(it.stmt, 0, [], None) && it.stmt.unpack.None? && !it.stmt.panics
  }

  ghost predicate SameBatch(a: Batch, b: Batch) {
    && a.sent == b.sent && |a.items| == |b.items|
    && (!a.sent ==> a.items == b.items)
    && (forall i :: 0 <= i < |b.items| ==> Fresh(b.items[i]))
  }

  /** Close runs the unread statements of one side only, so the positions of closed results may differ. */
  predicate SameResults(a: Results, b: Results) {
    a == b.(pipelined := a.pipelined, next := a.next) && (!b.closed ==> a.next == b.next) && !b.pipelined && !b.lost
  }

  ghost predicate SameHeap(p: State, q: State) {
    && SameCore(p.core, q.core)
    && p.tx == q.tx.(conn := true, log := p.tx.log) && !q.tx.conn
    && |p.batches| == |q.batches| && |p.results| == |q.results|
    && (forall b :: 0 <= b < |p.batches| ==> SameBatch(p.batches[b], q.batches[b]))
    && (forall r :: 0 <= r < |p.results| ==> SameResults(p.results[r], q.results[r]))
    && p.plain == q.plain && p.bound == q.bound
  }

  /** What running the statements from k on, one by one, would do from here. */
  function Future(w: World, ended: bool, log: seq<Entry>, b: nat, items: seq<Item>, k: nat): (seq<Entry>, seq<Item>)
    requires k <= |items|
  {
    if ended then (log, FailAll(items[k..], New(TxDone))) else PipeRun(w, log, b, items, k)
  }

  /** The open batch: what was buffered at Send is exactly what the unread statements are still going to do. */
  ghost predicate SameFuture(w: World, p: State, q: State, r: nat)
    requires WellFormed(p) && WellFormed(q) && r < |p.results| && r < |q.results|
  {
    var k := q.results[r].next;
    && p.results[r].pipelined
    && k <= |Items(q, r)| && |Items(p, r)| == |Items(q, r)|
    && (forall i :: 0 <= i < k ==> Items(p, r)[i].err.None?)
    && Future(w, q.tx.ended, q.tx.log, q.results[r].batch, Items(q, r), k).1 == Items(p, r)[k..]
    && (!q.tx.ended ==> Future(w, q.tx.ended, q.tx.log, q.results[r].batch, Items(q, r), k).0 == p.tx.log)
  }

  ghost predicate SameLogs(w: World, p: State, q: State)
    requires WellFormed(p) && WellFormed(q) && |p.results| == |q.results|
  {
    && q.tx.log <= p.tx.log
    && (q.core.err.None? && q.tx.open.Some? ==> SameFuture(w, p, q, q.tx.open.value))
    && (q.core.err.None? && q.tx.open.None? && !q.tx.ended ==> p.tx.log == q.tx.log)
  }

  ghost predicate Same(w: World, p: State, q: State) {
    WellFormed(p) && WellFormed(q) && SameHeap(p, q) && SameLogs(w, p, q)
  }

  // ----- Latching and rows -----

  lemma SameFail(p: Core, q: Core, r: nat, e: Error, f: Error)
    requires SameCore(p, q) && r < |p.readers| && e.root == f.root
    ensures SameCore(FailWith(p, r, e).0, FailWith(q, r, f).0)
    ensures FailWith(p, r, e).1.root == e.root && FailWith(q, r, f).1.root == e.root
  {
  }

  lemma SameDoomed(p: Core, q: Core, r: nat)
    requires SameCore(p, q) && r < |p.readers|
    ensures SameCore(Doomed(p, r), Doomed(q, r))
  {
    if p.err.Some? {
      SameFail(p, q, r, p.err.value, q.err.value);
    }
  }

  lemma SameRowsClose(p: Core, q: Core, k: nat)
    requires WellFormedCore(p) && WellFormedCore(q) && SameCore(p, q) && k < |p.rows|
    ensures SameCore(RowsClose(p, k), RowsClose(q, k))
  {
    assert SameRows(p.rows[k], q.rows[k]);
  }

  lemma SameRowsNext(p: Core, q: Core, k: nat)
    requires WellFormedCore(p) && WellFormedCore(q) && SameCore(p, q) && k < |p.rows|
    ensures SameCore(RowsNext(p, k).0, RowsNext(q, k).0) && RowsNext(p, k).1 == RowsNext(q, k).1
  {
    assert SameRows(p.rows[k], q.rows[k]);
  }

  lemma SameRowsErr(p: Core, q: Core, k: nat)
    requires WellFormedCore(p) && WellFormedCore(q) && SameCore(p, q) && k < |p.rows|
    ensures SameCore(RowsErr(p, k).0, RowsErr(q, k).0) && SameRoot(RowsErr(p, k).1, RowsErr(q, k).1)
  {
    assert SameRows(p.rows[k], q.rows[k]);
  }

  lemma SameRowsScan(w: World, p: Core, q: Core, k: nat, dest: Dest)
    requires WellFormedCore(p) && WellFormedCore(q) && SameCore(p, q) && k < |p.rows|
    ensures SameCore(RowsScan(w, p, k, dest).0, RowsScan(w, q, k, dest).0)
    ensures SameRoot(RowsScan(w, p, k, dest).1, RowsScan(w, q, k, dest).1)
  {
    assert SameRows(p.rows[k], q.rows[k]);
    var e := CursorScan(w, q.rows[k].cursor, dest);
    if e.Some? {
      var q1 := RecordErr(q, e.value);
      ScanRecorded(p, q, q.rows[k].results, e.value);
    }
  }

  /** Rows that stream latch the bare error first, which the batch then keeps: the traces differ, the error does
      not. */
  lemma ScanRecorded(p: Core, q: Core, r: nat, e: Error)
    requires SameCore(p, q) && r < |p.readers|
    ensures SameCore(FailWith(p, r, e).0, FailWith(RecordErr(q, e), r, TraceErr(e)).0)
    ensures FailWith(p, r, e).1.root == FailWith(RecordErr(q, e), r, TraceErr(e)).1.root == e.root
  {
  }

  lemma SameRowScan(w: World, p: Core, q: Core, k: nat, dest: Dest, raw: bool)
    requires WellFormedCore(p) && WellFormedCore(q) && SameCore(p, q) && k < |p.rows|
    ensures SameCore(RowScan(w, p, k, dest, raw).0, RowScan(w, q, k, dest, raw).0)
    ensures SameRoot(RowScan(w, p, k, dest, raw).1, RowScan(w, q, k, dest, raw).1)
  {
    assert SameRows(p.rows[k], q.rows[k]);
    if !p.rows[k].superseded {
      SameRowsNext(p, q, k);
      var (p1, more) := RowsNext(p, k);
      var q1 := RowsNext(q, k).0;
      if !more {
        SameRowsErr(p1, q1, k);
      } else if raw {
        assert SameRows(p1.rows[k], q1.rows[k]);
        SameFail(p1, q1, p1.rows[k].results, New(RawBytes), New(RawBytes));
      } else {
        SameRowsScan(w, p1, q1, k, dest);
      }
      SameRowsClose(RowScanAfterNext(w, p1, k, more, dest, raw).0, RowScanAfterNext(w, q1, k, more, dest, raw).0, k);
    }
  }

  lemma SameSupersede(p: Core, q: Core, r: nat)
    requires WellFormedCore(p) && WellFormedCore(q) && SameCore(p, q) && r < |p.readers|
    ensures SameCore(Supersede(p, r), Supersede(q, r))
  {
    assert SameReader(p.readers[r], q.readers[r]);
    if p.readers[r].open.Some? {
      var k := p.readers[r].open.value;
      assert SameRows(p.rows[k], q.rows[k]);
      var p1 := if p.rows[k].closed || p.rows[k].done then p else SetRow(p, k, p.rows[k].(superseded := true));
      var q1 := if q.rows[k].closed || q.rows[k].done then q else SetRow(q, k, q.rows[k].(superseded := true));
      SameRowsClose(p1, q1, k);
    }
  }

  lemma SameStepRows(w: World, p: Core, q: Core, op: Op)
    requires WellFormedCore(p) && WellFormedCore(q) && SameCore(p, q) && IsRows(op) && op.k < |p.rows|
    ensures SameCore(StepRows(w, p, op).0, StepRows(w, q, op).0)
    ensures SameAnswer(StepRows(w, p, op).1, StepRows(w, q, op).1)
  {
    match op {
      case OpRowsNext(k) => SameRowsNext(p, q, k);
      case OpRowsScan(k, dest) => SameRowsScan(w, p, q, k, dest);
      case OpRowsErr(k) => SameRowsErr(p, q, k);
      case OpRowsClose(k) => SameRowsClose(p, q, k);
      case OpRowScan(k, dest, raw) => SameRowScan(w, p, q, k, dest, raw);
    }
  }

  /** Latching on both sides keeps the logs comparable. */
  lemma SameLatched(w: World, p: State, q: State, c: Core, d: Core)
    requires Same(w, p, q) && SameCore(c, d)
    requires WellFormedCore(c) && Latched(p.core, c) && WellFormedCore(d) && Latched(q.core, d)
    ensures Same(w, WithCore(p, c), WithCore(q, d))
  {
  }

  // ----- Statements outside batches -----

  /** As much of the relation as a statement outside batches needs. */
  predicate Alike(c: Core, t: Tx, d: Core, u: Tx) {
    && c.autoErr && d.autoErr && SameRoot(c.err, d.err)
    && t == u.(conn := true, log := t.log)
    && (d.err.None? && u.open.None? && !u.ended ==> t.log == u.log)
    && !u.executing
  }

  /** What such a statement may do: latch, and run on both sides or on none. */
  predicate DirectStep(c: Core, t: Tx, d: Core, u: Tx, c': Core, t': Tx, d': Core, u': Tx) {
    && c' == c.(err := c'.err) && d' == d.(err := d'.err)
    && SameRoot(c'.err, d'.err)
    && (d.err.Some? ==> c'.err == c.err && d'.err == d.err)
    && t' == t.(log := t'.log) && u' == u.(log := u'.log)
    && ((t'.log == t.log && u'.log == u.log) || (t'.log == u'.log && u.open.None?))
  }

  ghost predicate PlainStep(p: State, q: State, p': State, q': State) {
    && DirectStep(p.core, p.tx, q.core, q.tx, p'.core, p'.tx, q'.core, q'.tx)
    && p' == p.(core := p'.core, tx := p'.tx, plain := p'.plain, bound := p'.bound)
    && q' == q.(core := q'.core, tx := q'.tx, plain := p'.plain, bound := p'.bound)
  }

  lemma SameDirect(w: World, p: State, q: State, p': State, q': State)
    requires Same(w, p, q) && PlainStep(p, q, p', q')
    ensures Same(w, p', q')
  {
  }

  predicate SameRan(a: Ran, b: Ran) {
    if a.Refused? && b.Refused? then a.err.root == b.err.root else a == b
  }

  lemma AlikeShort(c: Core, t: Tx, d: Core, u: Tx)
    requires Alike(c, t, d, u)
    ensures var (c', e) := ShortCircuit(c, t);
      var (d', f) := ShortCircuit(d, u);
      DirectStep(c, t, d, u, c', t, d', u) && SameRoot(e, f) && (e.None? ==> d.err.None? && u.open.None?)
  {
  }

  lemma AlikeExecute(w: World, c: Core, t: Tx, d: Core, u: Tx, stmt: Stmt, whole: bool)
    requires Alike(c, t, d, u) && d.err.None? && u.open.None?
    ensures var (t', ran) := Execute(w, t, stmt, Direct, whole);
      var (u', ran') := Execute(w, u, stmt, Direct, whole);
      DirectStep(c, t, d, u, c, t', d, u') && ran == ran'
  {
  }

  lemma AlikeIssue(w: World, c: Core, t: Tx, d: Core, u: Tx, stmt: Stmt, whole: bool)
    requires Alike(c, t, d, u)
    ensures var (c', t', ran) := Issue(w, c, t, stmt, Direct, whole);
      var (d', u', ran') := Issue(w, d, u, stmt, Direct, whole);
      DirectStep(c, t, d, u, c', t', d', u') && SameRan(ran, ran')
  {
    AlikeShort(c, t, d, u);
    if ShortCircuit(c, t).1.None? {
      AlikeExecute(w, c, t, d, u, stmt, whole);
    }
  }

  lemma AlikeExec(w: World, p: State, q: State, stmt: Stmt, via: Via)
    requires Alike(p.core, p.tx, q.core, q.tx) && p.plain == q.plain && p.bound == q.bound
    requires ViaExists(p, via)
    ensures PlainStep(p, q, TxExec(w, p, stmt, via).0, TxExec(w, q, stmt, via).0)
    ensures SameAnswer(TxExec(w, p, stmt, via).1, TxExec(w, q, stmt, via).1)
  {
    AlikeIssue(w, p.core, p.tx, q.core, q.tx, PlainStmt(p, via, stmt), true);
  }

  lemma AlikeQuery(w: World, p: State, q: State, stmt: Stmt, via: Via)
    requires Alike(p.core, p.tx, q.core, q.tx) && p.plain == q.plain && p.bound == q.bound
    requires ViaExists(p, via)
    ensures PlainStep(p, q, TxQuery(w, p, stmt, via).0, TxQuery(w, q, stmt, via).0)
    ensures SameAnswer(TxQuery(w, p, stmt, via).1, TxQuery(w, q, stmt, via).1)
  {
    AlikeIssue(w, p.core, p.tx, q.core, q.tx, PlainStmt(p, via, stmt), false);
  }

  lemma AlikeQueryRow(w: World, p: State, q: State, stmt: Stmt, via: Via)
    requires Alike(p.core, p.tx, q.core, q.tx) && p.plain == q.plain && p.bound == q.bound
    requires ViaExists(p, via)
    ensures PlainStep(p, q, TxQueryRow(w, p, stmt, via).0, TxQueryRow(w, q, stmt, via).0)
    ensures SameAnswer(TxQueryRow(w, p, stmt, via).1, TxQueryRow(w, q, stmt, via).1)
  {
    AlikeShort(p.core, p.tx, q.core, q.tx);
    if ShortCircuit(p.core, p.tx).1.None? && BindingErr(p, via).None? {
      AlikeExecute(w, p.core, p.tx, q.core, q.tx, PlainStmt(p, via, stmt), false);
      AlikeRow(w, p, q, stmt, via);
    }
  }

  /** The Row of a statement that ran on both sides. */
  lemma AlikeRow(w: World, p: State, q: State, stmt: Stmt, via: Via)
    requires Alike(p.core, p.tx, q.core, q.tx) && p.plain == q.plain && p.bound == q.bound
    requires ViaExists(p, via) && BindingErr(p, via).None?
    requires ShortCircuit(p.core, p.tx) == (p.core, None) && ShortCircuit(q.core, q.tx) == (q.core, None)
    requires var st := PlainStmt(p, via, stmt);
      var (t, u) := (Execute(w, p.tx, st, Direct, false), Execute(w, q.tx, st, Direct, false));
      DirectStep(p.core, p.tx, q.core, q.tx, p.core, t.0, q.core, u.0) && t.1 == u.1 && q.core.err.None?
    ensures PlainStep(p, q, TxQueryRow(w, p, stmt, via).0, TxQueryRow(w, q, stmt, via).0)
    ensures SameAnswer(TxQueryRow(w, p, stmt, via).1, TxQueryRow(w, q, stmt, via).1)
  {
  }

  lemma AlikePrepare(p: State, q: State, stmt: Stmt, fault: Option<Error>)
    requires Alike(p.core, p.tx, q.core, q.tx) && p.plain == q.plain && p.bound == q.bound
    ensures PlainStep(p, q, Prepare(p, stmt, fault).0, Prepare(q, stmt, fault).0)
    ensures SameAnswer(Prepare(p, stmt, fault).1, Prepare(q, stmt, fault).1)
  {
    AlikeShort(p.core, p.tx, q.core, q.tx);
  }

  lemma AlikeBind(p: State, q: State, stmt: Stmt, carried: Option<Error>)
    requires Alike(p.core, p.tx, q.core, q.tx) && p.plain == q.plain && p.bound == q.bound
    ensures PlainStep(p, q, BindStmt(p, stmt, carried).0, BindStmt(q, stmt, carried).0)
    ensures SameAnswer(BindStmt(p, stmt, carried).1, BindStmt(q, stmt, carried).1)
  {
    AlikeShort(p.core, p.tx, q.core, q.tx);
  }

  lemma AlikeNext(p: State, q: State, h: nat)
    requires Alike(p.core, p.tx, q.core, q.tx) && p.plain == q.plain && p.bound == q.bound && h < |p.plain|
    ensures p.plain[h].PlainRows? ==>
      && PlainStep(p, q, PlainNext(p, h).0, PlainNext(q, h).0)
      && SameAnswer(PlainNext(p, h).1, PlainNext(q, h).1)
  {
  }

  lemma AlikeScan(w: World, p: State, q: State, h: nat, dest: Dest)
    requires Alike(p.core, p.tx, q.core, q.tx) && p.plain == q.plain && p.bound == q.bound && h < |p.plain|
    ensures PlainStep(p, q, PlainScan(w, p, h, dest).0, PlainScan(w, q, h, dest).0)
    ensures SameAnswer(PlainScan(w, p, h, dest).1, PlainScan(w, q, h, dest).1)
  {
  }

  lemma AlikeErr(p: State, q: State, h: nat)
    requires Alike(p.core, p.tx, q.core, q.tx) && p.plain == q.plain && p.bound == q.bound && h < |p.plain|
    ensures PlainStep(p, q, PlainErr(p, h).0, PlainErr(q, h).0)
    ensures SameAnswer(PlainErr(p, h).1, PlainErr(q, h).1)
  {
  }

  lemma AlikeClose(p: State, q: State, h: nat)
    requires Alike(p.core, p.tx, q.core, q.tx) && p.plain == q.plain && p.bound == q.bound && h < |p.plain|
    ensures p.plain[h].PlainRows? ==>
      && PlainStep(p, q, PlainClose(p, h).0, PlainClose(q, h).0)
      && SameAnswer(PlainClose(p, h).1, PlainClose(q, h).1)
  {
  }

  lemma AlikePlain(w: World, p: State, q: State, op: Op)
    requires Alike(p.core, p.tx, q.core, q.tx) && p.plain == q.plain && p.bound == q.bound
    requires WellFormed(p) && WellFormed(q) && Enabled(p, op) && IsPlain(op)
    ensures PlainStep(p, q, StepPlain(w, p, op).0, StepPlain(w, q, op).0)
    ensures SameAnswer(StepPlain(w, p, op).1, StepPlain(w, q, op).1)
  {
    match op {
      case OpExec(stmt, via) => AlikeExec(w, p, q, stmt, via);
      case OpQuery(stmt, via) => AlikeQuery(w, p, q, stmt, via);
      case OpQueryRow(stmt, via) => AlikeQueryRow(w, p, q, stmt, via);
      case OpPrepare(stmt, fault) => AlikePrepare(p, q, stmt, fault);
      case OpBind(stmt, carried) => AlikeBind(p, q, stmt, carried);
      case OpPlainNext(h) => AlikeNext(p, q, h);
      case OpPlainScan(h, dest) => AlikeScan(w, p, q, h, dest);
      case OpPlainErr(h) => AlikeErr(p, q, h);
      case OpPlainClose(h) => AlikeClose(p, q, h);
    }
  }

  // ----- Queueing, sending, finalizing -----

  lemma SameQueue(w: World, p: State, q: State, b: nat, stmt: Stmt)
    requires Same(w, p, q) && Inv(p) && Inv(q) && b < |p.batches| && stmt.unpack.None? && !stmt.panics
    ensures Same(w, Queue(p, b, stmt), Queue(q, b, stmt))
  {
    assert SameBatch(p.batches[b], q.batches[b]);
    if q.batches[b].sent {
      SameMisuse(w, p, q, b, stmt);
    } else {
      if q.tx.open.Some? {
        assert ResultOk(q, q.tx.open.value);
      }
      SameQueued(w, p, q, b, stmt);
    }
  }

  lemma SameMisuse(w: World, p: State, q: State, b: nat, stmt: Stmt)
    requires Same(w, p, q) && b < |p.batches| && p.batches[b].sent && q.batches[b].sent
    ensures Same(w, Queue(p, b, stmt), Queue(q, b, stmt))
  {
  }

  lemma SameQueued(w: World, p: State, q: State, b: nat, stmt: Stmt)
    requires Same(w, p, q) && b < |p.batches| && !p.batches[b].sent && !q.batches[b].sent
    requires stmt.unpack.None? && !stmt.panics && (q.tx.open.Some? ==> q.results[q.tx.open.value].batch != b)
    ensures Same(w, Queue(p, b, stmt), Queue(q, b, stmt))
  {
    assert SameBatch(p.batches[b], q.batches[b]);
    if q.tx.open.Some? {
      assert SameResults(p.results[q.tx.open.value], q.results[q.tx.open.value]);
    }
  }

  lemma SameBatchMade(w: World, p: State, q: State)
    requires Same(w, p, q)
    ensures Same(w, NewBatch(p), NewBatch(q))
  {
    if q.tx.open.Some? {
      assert SameResults(p.results[q.tx.open.value], q.results[q.tx.open.value]);
    }
  }

  lemma SameAdd(w: World, p: State, q: State, b: nat, e: Option<Error>, f: Option<Error>)
    requires Same(w, p, q) && b < |p.batches| && SameRoot(e, f)
    ensures Same(w, AddResults(p, b, e), AddResults(q, b, f))
  {
  }

  lemma SameMark(w: World, p: State, q: State, b: nat)
    requires Same(w, p, q) && Inv(q) && b < |p.batches| && !q.batches[b].sent
    ensures Same(w, MarkSent(p, b), MarkSent(q, b))
    ensures MarkSent(p, b).batches[b] == MarkSent(q, b).batches[b]
  {
    assert SameBatch(p.batches[b], q.batches[b]);
    if q.tx.open.Some? {
      var r := q.tx.open.value;
      assert ResultOk(q, r) && SameResults(p.results[r], q.results[r]);
    }
  }

  /** Fresh statements reach the server, or a transaction that already ended. */
  lemma PipelineFuture(w: World, tx: Tx, b: nat, items: seq<Item>)
    requires FailsAtExecution(w) && items != []
    requires forall i :: 0 <= i < |items| ==> Fresh(items[i])
    ensures var p := Pipeline(w, tx, b, items);
      (p.log, p.items) == Future(w, tx.ended, tx.log, b, items, 0) && !p.unwound && tx.log <= p.log
  {
    NoUnpackErr(items);
    assert items[0..] == items;
    PipeRunShape(w, tx.log, b, items, 0);
  }

  lemma {:induction false} NoUnpackErr(items: seq<Item>)
    requires forall i :: 0 <= i < |items| ==> Fresh(items[i])
    ensures FirstUnpackErr(items).None?
  {
    if items != [] {
      assert Fresh(items[0]);
      NoUnpackErr(items[1..]);
    }
  }

  lemma SameOpened(w: World, p: State, q: State, b: nat, r: nat)
    requires FailsAtExecution(w) && Same(w, p, q) && q.core.err.None? && q.tx.open.None?
    requires b < |p.batches| && r < |p.results| && q.results[r].batch == b && q.results[r].next == 0
    requires !q.results[r].closed && p.batches[b].items == q.batches[b].items != [] && q.batches[b].sent
    ensures var pipe := Pipeline(w, p.tx, b, p.batches[b].items);
      && !pipe.unwound
      && Same(w, p.(tx := p.tx.(open := Some(r), log := pipe.log),
                    batches := p.batches[b := p.batches[b].(items := pipe.items)],
                    results := p.results[r := p.results[r].(pipelined := true, lost := false)]),
                 q.(tx := q.tx.(open := Some(r))))
  {
    var items := q.batches[b].items;
    assert SameBatch(p.batches[b], q.batches[b]) && SameResults(p.results[r], q.results[r]);
    PipelineFuture(w, p.tx, b, items);
    PipelineShape(w, p.tx, b, items);
    var pipe := Pipeline(w, p.tx, b, items);
    assert pipe.items[0..] == pipe.items;
  }

  lemma SameSendItems(w: World, p: State, q: State, b: nat, r: nat)
    requires FailsAtExecution(w) && Same(w, p, q) && q.core.err.None? && q.tx.open.None?
    requires b < |p.batches| && r < |p.results| && q.results[r].batch == b && q.results[r].next == 0
    requires !q.results[r].closed && p.batches[b].items == q.batches[b].items && q.batches[b].sent
    ensures Same(w, SendItems(w, p, b, r).0, SendItems(w, q, b, r).0)
    ensures SendItems(w, p, b, r).1 == SendItems(w, q, b, r).1
  {
    var items := q.batches[b].items;
    if exists i :: 0 <= i < |items| && items[i].stmt.named {
      SameFail(p.core, q.core, r, New(NamedArgument), New(NamedArgument));
      SameLatched(w, p, q, FailWith(p.core, r, New(NamedArgument)).0, FailWith(q.core, r, New(NamedArgument)).0);
    } else if items != [] {
      SameOpened(w, p, q, b, r);
    }
  }

  lemma SameSend(w: World, p: State, q: State, b: nat)
    requires FailsAtExecution(w) && Same(w, p, q) && Inv(q) && b < |p.batches|
    ensures Same(w, Send(w, p, b).0, Send(w, q, b).0) && Send(w, p, b).1 == Send(w, q, b).1
  {
    assert SameBatch(p.batches[b], q.batches[b]);
    if q.batches[b].sent {
      SameResend(w, p, q, b);
    } else {
      SameFirstSend(w, p, q, b);
    }
  }

  lemma SameResend(w: World, p: State, q: State, b: nat)
    requires Same(w, p, q) && Inv(q) && b < |p.batches| && p.batches[b].sent && q.batches[b].sent
    ensures Same(w, Send(w, p, b).0, Send(w, q, b).0) && Send(w, p, b).1 == Send(w, q, b).1
  {
    var r := |p.results|;
    SameAdd(w, p, q, b, None, None);
    var p1, q1 := AddResults(p, b, None), AddResults(q, b, None);
    SameFail(p1.core, q1.core, r, New(AlreadySent), New(AlreadySent));
    SameLatched(w, p1, q1, FailWith(p1.core, r, New(AlreadySent)).0, FailWith(q1.core, r, New(AlreadySent)).0);
  }

  lemma SameFirstSend(w: World, p: State, q: State, b: nat)
    requires FailsAtExecution(w) && Same(w, p, q) && Inv(q)
    requires b < |p.batches| && !p.batches[b].sent && !q.batches[b].sent
    ensures Same(w, Send(w, p, b).0, Send(w, q, b).0) && Send(w, p, b).1 == Send(w, q, b).1
  {
    var r := |p.results|;
    SameMark(w, p, q, b);
    var p1, q1 := MarkSent(p, b), MarkSent(q, b);
    AlikeShort(p1.core, p1.tx, q1.core, q1.tx);
    var (c, e) := ShortCircuit(p1.core, p1.tx);
    var (d, f) := ShortCircuit(q1.core, q1.tx);
    if e.Some? {
      SameLatched(w, p1, q1, c, d);
      SameAdd(w, WithCore(p1, c), WithCore(q1, d), b, e, f);
    } else {
      SameAdd(w, p1, q1, b, None, None);
      SameSendItems(w, AddResults(p1, b, None), AddResults(q1, b, None), b, r);
    }
  }

  // ----- Reading -----

  /** The next statement of the open batch: answered from the buffer on one side, run on the other. */
  lemma SameItem(w: World, p: State, q: State, r: nat, whole: bool)
    requires FailsAtExecution(w) && Same(w, p, q) && q.core.err.None? && q.tx.open == Some(r)
    requires q.results[r].next < |Items(q, r)|
    ensures var k := q.results[r].next;
      var it := Items(p, r)[k];
      var (tx, ran) := Execute(w, q.tx, Items(q, r)[k].stmt, FromBatch(q.results[r].batch, k), whole);
      && (it.err.None? ==> ran == Succeeded(it.affected, Buffered(it.rows)))
      && (it.err.Some? ==> ran.Refused? && ran.err.root == it.err.value.root)
      && tx.log <= p.tx.log
  {
    var k, items, b := q.results[r].next, Items(q, r), q.results[r].batch;
    assert SameFuture(w, p, q, r) && SameBatch(p.batches[b], q.batches[b]);
    assert Fresh(items[k]);
    assert Items(p, r)[k] == Items(p, r)[k..][0];
    PipeRunShape(w, q.tx.log + [Entry(items[k].stmt, FromBatch(b, k))], b, items, k + 1);
  }

  /** After a statement that succeeded, the rest of the buffer is still the rest of the batch. */
  lemma FutureStep(w: World, p: State, q: State, r: nat, q': State)
    requires FailsAtExecution(w) && Same(w, p, q) && q.core.err.None? && q.tx.open == Some(r)
    requires q.results[r].next < |Items(q, r)| && Items(p, r)[q.results[r].next].err.None?
    requires var k := q.results[r].next;
      q' == WithLog(Skip(q, r), q.tx.log + [Entry(Items(q, r)[k].stmt, FromBatch(q.results[r].batch, k))])
    ensures Same(w, Skip(p, r), q')
  {
    var k, items, b := q.results[r].next, Items(q, r), q.results[r].batch;
    SameItem(w, p, q, r, true);
    assert SameFuture(w, p, q, r) && SameResults(p.results[r], q.results[r]) && SameBatch(p.batches[b], q.batches[b]);
    assert Items(p, r)[k] == Items(p, r)[k..][0];
    var (log, rest) := PipeRun(w, q.tx.log + [Entry(items[k].stmt, FromBatch(b, k))], b, items, k + 1);
    assert Items(p, r)[k..][1..] == Items(p, r)[k + 1..];
    assert Items(p, r)[k + 1..] == rest;
    assert SameFuture(w, Skip(p, r), q', r);
  }

  lemma SameSkip(w: World, p: State, q: State, r: nat)
    requires Same(w, p, q) && r < |p.results| && q.core.err.Some?
    ensures Same(w, Skip(p, r), Skip(q, r))
  {
  }

  lemma SameRunItem(w: World, p: State, q: State, r: nat, whole: bool)
    requires FailsAtExecution(w) && Same(w, p, q) && q.core.err.None? && q.tx.open == Some(r)
    requires q.results[r].next < |Items(q, r)| && q.core.readers[r].err.None?
    ensures var k := q.results[r].next;
      var it := Items(p, r)[k];
      var (q', ran) := RunItem(w, Skip(q, r), r, k, whole);
      if it.err.None? then Same(w, Skip(p, r), q') && ran == Succeeded(it.affected, Buffered(it.rows))
      else
        var (c, e) := FailWith(p.core, r, it.err.value);
        Same(w, WithCore(Skip(p, r), c), q') && ran.Refused? && ran.err.root == e.root
  {
    var k := q.results[r].next;
    var it := Items(p, r)[k];
    var (q', ran) := RunItem(w, Skip(q, r), r, k, whole);
    SameItem(w, p, q, r, whole);
    var (tx, ran') := Execute(w, q.tx, Items(q, r)[k].stmt, FromBatch(q.results[r].batch, k), whole);
    if it.err.None? {
      FutureStep(w, p, q, r, q');
    } else {
      var (c, e) := FailWith(p.core, r, it.err.value);
      RefusedItem(p.core, q.core, r, it.err.value, ran'.err);
      FailedItem(w, p, q, r, c, q'.core, q'.tx.log);
      assert q' == WithLog(WithCore(Skip(q, r), q'.core), tx.log);
    }
  }

  lemma RefusedItem(p: Core, q: Core, r: nat, e: Error, f: Error)
    requires SameCore(p, q) && r < |p.readers| && e.root == f.root && q.err.None?
    ensures SameCore(FailWith(p, r, e).0, FailWith(RecordErr(q, f), r, f).0)
    ensures FailWith(p, r, e).1.root == FailWith(RecordErr(q, f), r, f).1.root
    ensures FailWith(p, r, e).0.err.Some?
  {
  }

  lemma FailedItem(w: World, p: State, q: State, r: nat, c: Core, d: Core, log: seq<Entry>)
    requires Same(w, p, q) && r < |p.results| && SameCore(c, d) && c.err.Some? && log <= p.tx.log
    requires WellFormedCore(c) && Latched(p.core, c) && WellFormedCore(d) && Latched(q.core, d)
    ensures Same(w, WithCore(Skip(p, r), c), WithLog(WithCore(Skip(q, r), d), log))
  {
  }

  /** BatchResults.advance on both sides, up to the read of the statement itself. */
  lemma SameAdvance(w: World, p: State, q: State, r: nat)
    requires Same(w, p, q) && r < |p.results|
    ensures var c, d := Doomed(Supersede(p.core, r), r), Doomed(Supersede(q.core, r), r);
      && Same(w, WithCore(p, c), WithCore(q, d))
      && Same(w, WithCore(p, Supersede(p.core, r)), WithCore(q, Supersede(q.core, r)))
  {
    SameSupersede(p.core, q.core, r);
    SameLatched(w, p, q, Supersede(p.core, r), Supersede(q.core, r));
    SameDoomed(Supersede(p.core, r), Supersede(q.core, r), r);
    SameLatched(w, p, q, Doomed(Supersede(p.core, r), r), Doomed(Supersede(q.core, r), r));
  }

  /** What a read leaves on both sides, when the side without a pipeline ran the statement if there was one to run. */
  ghost predicate SameTurn(w: World, p: State, turn: Turn, q: State, turn': Turn, r: nat, whole: bool)
    requires WellFormed(p) && WellFormed(q) && r < |p.results| && r < |q.results|
    requires turn'.Read? ==> turn'.index < |Items(q, r)|
    requires turn.Read? ==> turn.index < |Items(p, r)|
  {
    match turn'
    case Stop(f) => turn.Stop? && turn.err.root == f.root && Same(w, p, q)
    case Read(i) =>
      var (q', ran) := RunItem(w, q, r, i, whole);
      && Same(w, p, q')
      && (turn.Stop? ==> ran.Refused? && ran.err.root == turn.err.root)
      && (turn.Read? ==> p.results[r].pipelined)
      && (turn.Read? ==> ran == Succeeded(Items(p, r)[turn.index].affected, Buffered(Items(p, r)[turn.index].rows)))
  }

  lemma SameAdvanceOpen(w: World, p: State, q: State, r: nat, whole: bool)
    requires FailsAtExecution(w) && Same(w, p, q) && Inv(q) && r < |p.results| && !q.results[r].closed
    requires q.core.err.Some? ==> q.core.readers[r].err.Some?
    ensures !p.results[r].closed && (p.core.err.Some? ==> p.core.readers[r].err.Some?)
    ensures var (p', turn) := AdvanceOpen(p, r);
      var (q', turn') := AdvanceOpen(q, r);
      SameTurn(w, p', turn, q', turn', r, whole)
  {
    assert SameReader(p.core.readers[r], q.core.readers[r]) && SameResults(p.results[r], q.results[r]);
    assert SameBatch(p.batches[q.results[r].batch], q.batches[q.results[r].batch]);
    assert ResultOk(q, r);
    if q.core.readers[r].err.Some? {
      SameSkip(w, p, q, r);
    } else if q.results[r].next < |Items(q, r)| {
      SameReading(w, p, q, r, whole);
    }
  }

  lemma SameReading(w: World, p: State, q: State, r: nat, whole: bool)
    requires FailsAtExecution(w) && Same(w, p, q) && q.core.err.None? && q.tx.open == Some(r)
    requires q.results[r].next < |Items(q, r)| && q.core.readers[r].err.None?
    requires !p.results[r].closed && !q.results[r].closed && p.core.readers[r].err.None? && p.core.err.None?
    ensures var (p', turn) := AdvanceOpen(p, r);
      var (q', turn') := AdvanceOpen(q, r);
      SameTurn(w, p', turn, q', turn', r, whole)
  {
    assert SameResults(p.results[r], q.results[r]) && SameFuture(w, p, q, r);
    var k := q.results[r].next;
    assert AdvanceOpen(q, r) == (Skip(q, r), Read(k));
    SameRunItem(w, p, q, r, whole);
    if Items(p, r)[k].err.None? {
      assert AdvanceOpen(p, r) == (Skip(p, r), Read(k));
    } else {
      var (c, e) := FailWith(p.core, r, Items(p, r)[k].err.value);
      assert AdvanceOpen(p, r) == (WithCore(Skip(p, r), c), Stop(e));
    }
  }

  lemma SameTurns(w: World, p: State, q: State, r: nat, whole: bool)
    requires FailsAtExecution(w) && Same(w, p, q) && Inv(q) && r < |p.results|
    ensures var (p', turn) := Advance(p, r);
      var (q', turn') := Advance(q, r);
      SameTurn(w, p', turn, q', turn', r, whole)
  {
    SameAdvance(w, p, q, r);
    assert SameResults(p.results[r], q.results[r]);
    if !q.results[r].closed {
      var d := Doomed(Supersede(q.core, r), r);
      LatchInv(q, d);
      SameAdvanceOpen(w, WithCore(p, Doomed(Supersede(p.core, r), r)), WithCore(q, d), r, whole);
    }
  }

  lemma SameOpenRows(w: World, p: State, q: State, r: nat, rows: seq<Row>)
    requires Same(w, p, q) && r < |p.results|
    ensures Same(w, OpenRows(p, r, Buffered(rows), true).0,
                 OpenRows(q, r, Buffered(rows), false).0)
    ensures OpenRows(p, r, Buffered(rows), true).1 == OpenRows(q, r, Buffered(rows), false).1
  {
    var p', q' := OpenRows(p, r, Buffered(rows), true).0,
                  OpenRows(q, r, Buffered(rows), false).0;
    assert SameReader(p.core.readers[r], q.core.readers[r]);
    assert SameCore(p'.core, q'.core);
    SameLatched(w, p, q, p'.core, q'.core);
  }

  lemma SameReadExec(w: World, p: State, q: State, r: nat)
    requires FailsAtExecution(w) && Same(w, p, q) && Inv(q) && r < |p.results|
    ensures Same(w, ReadExec(w, p, r).0, ReadExec(w, q, r).0)
    ensures SameAnswer(ReadExec(w, p, r).1, ReadExec(w, q, r).1)
  {
    SameTurns(w, p, q, r, true);
    assert SameResults(p.results[r], q.results[r]);
  }

  lemma SameReadQuery(w: World, p: State, q: State, r: nat)
    requires FailsAtExecution(w) && Same(w, p, q) && Inv(q) && r < |p.results|
    ensures Same(w, ReadQuery(w, p, r).0, ReadQuery(w, q, r).0)
    ensures SameAnswer(ReadQuery(w, p, r).1, ReadQuery(w, q, r).1)
  {
    SameTurns(w, p, q, r, false);
    assert SameResults(p.results[r], q.results[r]);
    var (p', turn) := Advance(p, r);
    var (q', turn') := Advance(q, r);
    if turn.Read? {
      SameOpenRows(w, p', RunItem(w, q', r, turn'.index, false).0, r, Items(p', r)[turn.index].rows);
    }
  }

  // ----- Closing -----

  lemma {:induction false} FirstErrDrop(items: seq<Item>, k: nat)
    requires k <= |items| && forall i :: 0 <= i < k ==> items[i].err.None?
    ensures FirstErr(items) == FirstErr(items[k..])
  {
    if k > 0 {
      FirstErrDrop(items[1..], k - 1);
      assert items[1..][k - 1..] == items[k..];
    } else {
      assert items[k..] == items;
    }
  }

  /** Closing an open batch: the side with a pipeline looks up the first failure, the other runs what is left until the
      first failure. */
  ghost predicate Rested(p: State, q: State, c: Core, q': State) {
    SameCore(c, q'.core) && q'.tx.log <= p.tx.log && (q'.core.err.None? && !q.tx.ended ==> q'.tx.log == p.tx.log)
  }

  lemma {:induction false} SameRest(w: World, p: State, q: State, r: nat)
    requires FailsAtExecution(w) && Same(w, p, q) && q.core.err.None? && q.tx.open == Some(r)
    requires q.core.readers[r].err.None?
    ensures var (q', unwound) := RunRest(w, q, r);
      !unwound && Rested(p, q, FailOpt(p.core, r, FirstErr(Items(p, r))), q')
    decreases |Items(q, r)| - q.results[r].next
  {
    var k := q.results[r].next;
    assert SameFuture(w, p, q, r);
    if k == |Items(q, r)| {
      NothingRests(w, p, q, r);
    } else if Items(p, r)[k].err.Some? {
      FailureRests(w, p, q, r);
    } else {
      var q1 := RunItem(w, Skip(q, r), r, k, true).0;
      assert Same(w, Skip(p, r), q1) && RunRest(w, q, r) == RunRest(w, q1, r) && q1.core == q.core by {
        SameRunItem(w, p, q, r, true);
        RanClean(w, Skip(q, r), r, k);
      }
      assert q1.tx.open == q.tx.open && q1.tx.ended == q.tx.ended && q1.results[r].next == k + 1;
      SameRest(w, Skip(p, r), q1, r);
      assert Items(Skip(p, r), r) == Items(p, r);
    }
  }

  lemma NothingRests(w: World, p: State, q: State, r: nat)
    requires FailsAtExecution(w) && Same(w, p, q) && q.core.err.None? && q.tx.open == Some(r)
    requires q.core.readers[r].err.None? && q.results[r].next == |Items(q, r)|
    ensures RunRest(w, q, r) == (q, false) && Rested(p, q, FailOpt(p.core, r, FirstErr(Items(p, r))), q)
  {
    assert SameFuture(w, p, q, r);
    FirstErrDrop(Items(p, r), q.results[r].next);
  }

  lemma FailureRests(w: World, p: State, q: State, r: nat)
    requires FailsAtExecution(w) && Same(w, p, q) && q.core.err.None? && q.tx.open == Some(r)
    requires q.core.readers[r].err.None? && q.results[r].next < |Items(q, r)| && q.results[r].next < |Items(p, r)|
    requires Items(p, r)[q.results[r].next].err.Some?
    ensures var (q', unwound) := RunRest(w, q, r);
      !unwound && Rested(p, q, FailOpt(p.core, r, FirstErr(Items(p, r))), q')
  {
    var k := q.results[r].next;
    assert SameFuture(w, p, q, r);
    assert FirstErr(Items(p, r)) == Items(p, r)[k].err by {
      FirstErrDrop(Items(p, r), k);
      assert Items(p, r)[k..][0] == Items(p, r)[k];
    }
    SameRunItem(w, p, q, r, true);
    RestStops(w, q, r);
    var c := FailWith(p.core, r, Items(p, r)[k].err.value).0;
    assert c.err.Some? && SameCore(c, RunItem(w, Skip(q, r), r, k, true).0.core);
  }

  /** A statement that fails is the last one to run. */
  lemma RestStops(w: World, q: State, r: nat)
    requires WellFormed(q) && r < |q.results| && q.core.readers[r].err.None? && q.results[r].next < |Items(q, r)|
    requires RunItem(w, Skip(q, r), r, q.results[r].next, true).1.Refused?
    ensures RunRest(w, q, r) == (RunItem(w, Skip(q, r), r, q.results[r].next, true).0, false)
  {
  }

  /** A statement of the batch that succeeded recorded nothing. */
  lemma RanClean(w: World, s: State, r: nat, i: nat)
    requires WellFormed(s) && r < |s.results| && i < |Items(s, r)|
    ensures RunItem(w, s, r, i, true).1.Succeeded? ==> RunItem(w, s, r, i, true).0.core == s.core
  {
  }

  /** The relation while results r are being closed: their positions may differ, and if they are the open ones the
      logs must agree once nothing failed. */
  ghost predicate Closing(w: World, p: State, q: State, r: nat) {
    && WellFormed(p) && WellFormed(q) && |p.results| == |q.results| && r < |p.results|
    && SameHeap(p.(results := p.results[r := p.results[r].(next := q.results[r].next)]), q)
    && q.tx.log <= p.tx.log
    && (q.tx.open == Some(r) ==> (q.core.err.None? && !q.tx.ended ==> p.tx.log == q.tx.log))
    && (q.tx.open != Some(r) ==> SameLogs(w, p, q))
  }

  lemma SameAbandon(w: World, p: State, q: State, r: nat)
    requires Closing(w, p, q, r)
    ensures Same(w, Abandon(p, r), Abandon(q, r))
  {
    SameSupersede(p.core, q.core, r);
    var c, d := Supersede(p.core, r), Supersede(q.core, r);
    var p', q' := Abandon(p, r), Abandon(q, r);
    forall i | 0 <= i < |p.results|
      ensures SameResults(p'.results[i], q'.results[i])
    {
      assert SameResults(p.results[r := p.results[r].(next := q.results[r].next)][i], q.results[i]);
    }
  }

  lemma SameIsClosing(w: World, p: State, q: State, r: nat)
    requires Same(w, p, q) && r < |p.results| && !q.results[r].closed
    requires q.core.err.Some? || q.tx.open != Some(r)
    ensures Closing(w, p, q, r)
  {
    assert SameResults(p.results[r], q.results[r]);
    assert p.results[r := p.results[r].(next := q.results[r].next)] == p.results;
  }

  lemma FailAgain(c: Core, r: nat, e: Option<Error>)
    requires r < |c.readers| && c.readers[r].err.Some? && c.err.Some?
    ensures FailOpt(c, r, e) == c
  {
    assert c.readers[r := c.readers[r]] == c.readers;
  }

  lemma RestIsClosing(w: World, p: State, q: State, r: nat, c: Core, q': State)
    requires Same(w, p, q) && r < |p.results| && q.tx.open == Some(r) && !q.results[r].closed
    requires Rested(p, q, c, q') && WellFormedCore(c) && WellFormed(q') && |q'.results| == |q.results|
    requires q' == WithLog(WithCore(q, q'.core), q'.tx.log).(
                     results := q.results[r := q.results[r].(next := q'.results[r].next)])
    ensures |c.readers| == |p.core.readers| ==> Closing(w, WithCore(p, c), q', r)
  {
    if |c.readers| == |p.core.readers| {
      var p' := WithCore(p, c);
      var p'' := p'.(results := p'.results[r := p'.results[r].(next := q'.results[r].next)]);
      forall i | 0 <= i < |p.results|
        ensures SameResults(p''.results[i], q'.results[i])
      {
        assert SameResults(p.results[i], q.results[i]);
      }
      assert SameHeap(p'', q');
    }
  }

  lemma SameFinish(w: World, p: State, q: State, r: nat)
    requires FailsAtExecution(w) && Same(w, p, q) && Inv(q) && r < |p.results| && !q.results[r].closed
    requires q.core.err.Some? ==> q.core.readers[r].err.Some?
    requires p.core.err.Some? ==> p.core.readers[r].err.Some?
    ensures var (p', a) := FinishResults(w, p, r);
      var (q', b) := FinishResults(w, q, r);
      Closing(w, p', q', r) && !a && !b
  {
    var (p', a) := FinishResults(w, p, r);
    var (q', b) := FinishResults(w, q, r);
    assert SameReader(p.core.readers[r], q.core.readers[r]) && SameResults(p.results[r], q.results[r]);
    assert SameBatch(p.batches[q.results[r].batch], q.batches[q.results[r].batch]);
    assert ResultOk(q, r);
    if q.core.readers[r].err.Some? {
      FailAgain(p.core, r, FirstErr(Items(p, r)));
      assert p' == p && q' == q;
      SameIsClosing(w, p, q, r);
    } else if Items(q, r) == [] {
      assert p' == p && q' == q;
      SameIsClosing(w, p, q, r);
    } else {
      SameRest(w, p, q, r);
      RunRestShape(w, q, r);
      RestIsClosing(w, p, q, r, p'.core, q');
    }
  }

  lemma SameClose(w: World, p: State, q: State, r: nat)
    requires FailsAtExecution(w) && Same(w, p, q) && Inv(q) && r < |p.results| && !q.results[r].closed
    ensures !p.results[r].closed
    ensures Same(w, CloseResults(w, p, r).0, CloseResults(w, q, r).0)
    ensures SameAnswer(CloseResults(w, p, r).1, CloseResults(w, q, r).1)
  {
    assert SameResults(p.results[r], q.results[r]);
    var p1, q1 := WithCore(p, Doomed(Supersede(p.core, r), r)), WithCore(q, Doomed(Supersede(q.core, r), r));
    assert Same(w, p1, q1) by { SameAdvance(w, p, q, r); }
    assert Inv(q1) by { LatchInv(q, q1.core); }
    SameCloseDoomed(w, p1, q1, r);
    CloseUnfolds(w, p, r, FinishResults(w, p1, r));
    CloseUnfolds(w, q, r, FinishResults(w, q1, r));
  }

  lemma CloseUnfolds(w: World, s: State, r: nat, finished: (State, bool))
    requires WellFormed(s) && r < |s.results| && !s.results[r].closed
    requires finished == FinishResults(w, WithCore(s, Doomed(Supersede(s.core, r), r)), r)
    ensures CloseResults(w, s, r) ==
      (Abandon(finished.0, r), if finished.1 then Panicked else AnswerOf(finished.0.core.readers[r].err))
  {
  }

  lemma SameCloseDoomed(w: World, p: State, q: State, r: nat)
    requires FailsAtExecution(w) && Same(w, p, q) && Inv(q) && r < |p.results| && !q.results[r].closed
    requires q.core.err.Some? ==> q.core.readers[r].err.Some?
    requires p.core.err.Some? ==> p.core.readers[r].err.Some?
    ensures var (p', a) := FinishResults(w, p, r);
      var (q', b) := FinishResults(w, q, r);
      Same(w, Abandon(p', r), Abandon(q', r)) && !a && !b && SameRoot(p'.core.readers[r].err, q'.core.readers[r].err)
  {
    SameFinish(w, p, q, r);
    var p', q' := FinishResults(w, p, r).0, FinishResults(w, q, r).0;
    SameAbandon(w, p', q', r);
    assert SameReader(p'.core.readers[r], q'.core.readers[r]);
  }

  // ----- Finalizing -----

  lemma SameCommit(w: World, p: State, q: State, outcome: CommitOutcome)
    requires Same(w, p, q)
    ensures Same(w, CommitTx(p, outcome).0, CommitTx(q, outcome).0) && CommitTx(p, outcome).1 == CommitTx(q, outcome).1
  {
  }

  lemma SameRollback(w: World, p: State, q: State, fault: Option<Error>)
    requires Same(w, p, q) && Inv(q)
    ensures Same(w, RollbackTx(p, fault).0, RollbackTx(q, fault).0) && RollbackTx(p, fault).1 == RollbackTx(q, fault).1
  {
    var p1, q1 := p, q;
    if q.tx.open.Some? {
      var r := q.tx.open.value;
      p1, q1 := Abandon(p, r), Abandon(q, r);
      SameSupersede(p.core, q.core, r);
    }
    assert SameHeap(p1, q1) && q1.tx.open.None? && q1.tx.log <= p1.tx.log;
  }

  // ----- Every step, every run -----

  /** One operation on both sides. */
  ghost predicate SameNext(w: World, p: State, q: State, op: Op)
    requires WellFormed(p) && WellFormed(q)
  {
    Same(w, Step(w, p, op).0, Step(w, q, op).0) && SameAnswer(Step(w, p, op).1, Step(w, q, op).1)
  }

  lemma SameStepPlain(w: World, p: State, q: State, op: Op)
    requires FailsAtExecution(w) && Sendable(op) && Same(w, p, q) && Inv(p) && Inv(q)
    requires Enabled(p, op) && Enabled(q, op)
    requires IsPlain(op)
    ensures SameNext(w, p, q, op)
  {
    AlikePlain(w, p, q, op);
    SameDirect(w, p, q, StepPlain(w, p, op).0, StepPlain(w, q, op).0);
  }

  lemma SameStepOnRows(w: World, p: State, q: State, op: Op)
    requires FailsAtExecution(w) && Sendable(op) && Same(w, p, q) && Inv(p) && Inv(q)
    requires Enabled(p, op) && Enabled(q, op)
    requires IsRows(op)
    ensures SameNext(w, p, q, op)
  {
    SameStepRows(w, p.core, q.core, op);
    SameLatched(w, p, q, StepRows(w, p.core, op).0, StepRows(w, q.core, op).0);
  }

  lemma SameStepBatch(w: World, p: State, q: State, op: Op)
    requires FailsAtExecution(w) && Sendable(op) && Same(w, p, q) && Inv(p) && Inv(q)
    requires Enabled(p, op) && Enabled(q, op)
    requires !IsPlain(op) && !IsRows(op)
    ensures Same(w, StepBatch(w, p, op).0, StepBatch(w, q, op).0)
    ensures SameAnswer(StepBatch(w, p, op).1, StepBatch(w, q, op).1)
  {
    match op {
      case OpBatch => SameBatchMade(w, p, q);
      case OpQueue(b, stmt) => SameQueue(w, p, q, b, stmt);
      case OpSend(b) => SameSend(w, p, q, b);
      case OpReadExec(r) => SameReadExec(w, p, q, r);
      case OpReadQuery(r) => SameReadQuery(w, p, q, r);
      case OpClose(r) => SameCloseAgain(w, p, q, r);
      case OpCommit(outcome) => SameCommit(w, p, q, outcome);
      case OpRollback(fault) => SameRollback(w, p, q, fault);
    }
  }

  lemma SameStep(w: World, p: State, q: State, op: Op)
    requires FailsAtExecution(w) && Sendable(op) && Same(w, p, q) && Inv(p) && Inv(q)
    ensures SameNext(w, p, q, op)
  {
    SameEnabled(w, p, q, op);
    if Enabled(q, op) {
      if IsPlain(op) {
        SameStepPlain(w, p, q, op);
      } else if IsRows(op) {
        SameStepOnRows(w, p, q, op);
      } else {
        SameStepBatch(w, p, q, op);
      }
    }
  }

  lemma SameCloseAgain(w: World, p: State, q: State, r: nat)
    requires FailsAtExecution(w) && Same(w, p, q) && Inv(q) && r < |p.results|
    ensures Same(w, CloseResults(w, p, r).0, CloseResults(w, q, r).0)
    ensures SameAnswer(CloseResults(w, p, r).1, CloseResults(w, q, r).1)
  {
    if q.results[r].closed {
      assert SameResults(p.results[r], q.results[r]) && SameReader(p.core.readers[r], q.core.readers[r]);
    } else {
      SameClose(w, p, q, r);
    }
  }

  lemma SameEnabled(w: World, p: State, q: State, op: Op)
    requires Same(w, p, q)
    ensures Enabled(p, op) == Enabled(q, op)
  {
    if (op.OpReadExec? || op.OpReadQuery? || op.OpClose?) && op.r < |p.results| {
      assert SameResults(p.results[op.r], q.results[op.r]);
    }
  }

  /** A relation that every allowed step keeps, with answers that look the same, is kept by every run. */
  lemma {:induction false} FoldsRelated(step: (State, Op) -> (State, Answer), related: (State, State) -> bool,
                                        p: State, q: State, ops: seq<Op>)
    requires forall p, q, op {:trigger step(p, op), step(q, op)} :: related(p, q) && Sendable(op) ==>
      related(step(p, op).0, step(q, op).0) && SameAnswer(step(p, op).1, step(q, op).1)
    requires related(p, q) && forall i :: 0 <= i < |ops| ==> Sendable(ops[i])
    ensures related(Fold(step, p, ops).0, Fold(step, q, ops).0)
    ensures forall i :: 0 <= i < |ops| ==> SameAnswer(Fold(step, p, ops).1[i], Fold(step, q, ops).1[i])
    decreases ops
  {
    if ops != [] {
      FoldsRelated(step, related, step(p, ops[0]).0, step(q, ops[0]).0, ops[1..]);
    }
  }

  lemma RelatedSteps(w: World)
    requires FailsAtExecution(w)
    ensures forall p, q, op {:trigger Stepper(w)(p, op), Stepper(w)(q, op)} ::
      Same(w, p, q) && Inv(p) && Inv(q) && Sendable(op) ==>
        var (p', q') := (Stepper(w)(p, op), Stepper(w)(q, op));
        Same(w, p'.0, q'.0) && Inv(p'.0) && Inv(q'.0) && SameAnswer(p'.1, q'.1)
  {
    forall p, q, op | Same(w, p, q) && Inv(p) && Inv(q) && Sendable(op)
      ensures var (p', q') := (Stepper(w)(p, op), Stepper(w)(q, op));
        Same(w, p'.0, q'.0) && Inv(p'.0) && Inv(q'.0) && SameAnswer(p'.1, q'.1)
    {
      SameStep(w, p, q, op);
      StepInv(w, p, op);
      StepInv(w, q, op);
    }
  }

  lemma SameRun(w: World, p: State, q: State, ops: seq<Op>)
    requires FailsAtExecution(w) && Same(w, p, q) && Inv(p) && Inv(q)
    requires forall i :: 0 <= i < |ops| ==> Sendable(ops[i])
    ensures Same(w, Run(w, p, ops).0, Run(w, q, ops).0)
    ensures forall i :: 0 <= i < |ops| ==> SameAnswer(Run(w, p, ops).1[i], Run(w, q, ops).1[i])
  {
    var step, related := Stepper(w), (p, q) => Same(w, p, q) && Inv(p) && Inv(q);
    RelatedSteps(w);
    FoldsRelated(step, related, p, q, ops);
  }

  lemma BegunSame(w: World)
    ensures Same(w, Begun(true, true), Begun(true, false))
  {
  }

  /** Whatever a closure does, it gets the same answers, error for error, on a driver that pipelines and on one that
      does not; statement by statement never ran more, and a transaction that may commit has run the same on both. */
  lemma PipelinedLooksSequential(w: World, ops: seq<Op>)
    requires FailsAtExecution(w) && forall i :: 0 <= i < |ops| ==> Sendable(ops[i])
    ensures var (p, a) := Run(w, Begun(true, true), ops);
      var (q, b) := Run(w, Begun(true, false), ops);
      && (forall i :: 0 <= i < |ops| ==> SameAnswer(a[i], b[i]))
      && SameRoot(p.core.err, q.core.err)
      && BatchPending(p.tx) == BatchPending(q.tx)
      && q.tx.log <= p.tx.log
      && (q.core.err.None? && !q.tx.ended && BatchPending(q.tx).None? ==> p.tx.log == q.tx.log)
  {
    BegunInv(true, true);
    BegunInv(true, false);
    BegunSame(w);
    SameRun(w, Begun(true, true), Begun(true, false), ops);
  }

  // ----- Closures that look at their answers -----

  /** A closure picks its next operation, if any, from the answers it got so far; it cannot tell errors apart by their
      traces. */
  type Closure = seq<Answer> -> Option<Op>

  function Untraced(a: Answer): Answer {
    if a.Failed? then Failed(New(a.err.root)) else a
  }

  type Machine = (State, Op) -> (State, Answer)

  /** The first n operations of a closure that has seen some answers. */
  function Script(step: Machine, s: State, closure: Closure, seen: seq<Answer>, n: nat): seq<Op>
    decreases n
  {
    if n == 0 || closure(seen).None? then []
    else
      var (s1, a) := step(s, closure(seen).value);
      [closure(seen).value] + Script(step, s1, closure, seen + [Untraced(a)], n - 1)
  }

  function UntracedAll(answers: seq<Answer>): seq<Answer> {
    seq(|answers|, i requires 0 <= i < |answers| => Untraced(answers[i]))
  }

  lemma UntracedFirst(seen: seq<Answer>, a: Answer, answers: seq<Answer>)
    ensures seen + UntracedAll([a] + answers) == seen + [Untraced(a)] + UntracedAll(answers)
  {
  }

  /** The script is the closure's: each call is its choice after the answers to the calls before, and it stops where the
      closure does. */
  lemma {:induction false} ScriptIsChosen(step: Machine, s: State, closure: Closure, seen: seq<Answer>, n: nat, i: nat)
    requires i <= |Script(step, s, closure, seen, n)|
    ensures var ops := Script(step, s, closure, seen, n);
      var sofar := seen + UntracedAll(Fold(step, s, ops).1[..i]);
      if i < |ops| then closure(sofar) == Some(ops[i]) else |ops| == n || closure(sofar).None?
    decreases n
  {
    var ops := Script(step, s, closure, seen, n);
    if i == 0 {
      assert seen + UntracedAll(Fold(step, s, ops).1[..0]) == seen;
    } else {
      var (s1, a) := step(s, ops[0]);
      var rest := Script(step, s1, closure, seen + [Untraced(a)], n - 1);
      assert ops[1..] == rest;
      ScriptIsChosen(step, s1, closure, seen + [Untraced(a)], n - 1, i - 1);
      var answers := Fold(step, s1, rest).1;
      assert Fold(step, s, ops).1[..i] == [a] + answers[..i - 1];
      UntracedFirst(seen, a, answers[..i - 1]);
    }
  }

  ghost predicate SendsFit(closure: Closure) {
    forall seen :: closure(seen).Some? ==> Sendable(closure(seen).value)
  }

  /** A relation that every allowed step keeps, with answers that look the same, makes a closure do the same. */
  lemma {:induction false} ScriptsRelated(step: Machine, related: (State, State) -> bool, p: State, q: State,
                                          closure: Closure, seen: seq<Answer>, n: nat)
    requires forall p, q, op {:trigger step(p, op), step(q, op)} :: related(p, q) && Sendable(op) ==>
      related(step(p, op).0, step(q, op).0) && SameAnswer(step(p, op).1, step(q, op).1)
    requires related(p, q) && SendsFit(closure)
    ensures Script(step, p, closure, seen, n) == Script(step, q, closure, seen, n)
    ensures forall i :: 0 <= i < |Script(step, q, closure, seen, n)| ==> Sendable(Script(step, q, closure, seen, n)[i])
    decreases n
  {
    if n > 0 && closure(seen).Some? {
      var op := closure(seen).value;
      var a := Untraced(step(q, op).1);
      assert Untraced(step(p, op).1) == a;
      ScriptsRelated(step, related, step(p, op).0, step(q, op).0, closure, seen + [a], n - 1);
    }
  }

  lemma SameScript(w: World, p: State, q: State, closure: Closure, n: nat)
    requires FailsAtExecution(w) && SendsFit(closure) && Same(w, p, q) && Inv(p) && Inv(q)
    ensures Script(Stepper(w), p, closure, [], n) == Script(Stepper(w), q, closure, [], n)
    ensures forall i :: 0 <= i < |Script(Stepper(w), q, closure, [], n)| ==>
      Sendable(Script(Stepper(w), q, closure, [], n)[i])
  {
    var step, related := Stepper(w), (p, q) => Same(w, p, q) && Inv(p) && Inv(q);
    RelatedSteps(w);
    ScriptsRelated(step, related, p, q, closure, [], n);
  }

  /** A closure that decides by what it sees makes the same calls both ways, and all that is said of a script holds of
      them. */
  lemma AdaptiveLooksSequential(w: World, closure: Closure, n: nat)
    requires FailsAtExecution(w) && SendsFit(closure)
    ensures var ops := Script(Stepper(w), Begun(true, true), closure, [], n);
      var (p, a) := Run(w, Begun(true, true), ops);
      var (q, b) := Run(w, Begun(true, false), ops);
      && ops == Script(Stepper(w), Begun(true, false), closure, [], n)
      && (forall i :: 0 <= i < |ops| ==> Sendable(ops[i]) && SameAnswer(a[i], b[i]))
      && SameRoot(p.core.err, q.core.err) && BatchPending(p.tx) == BatchPending(q.tx) && q.tx.log <= p.tx.log
      && (q.core.err.None? && !q.tx.ended && BatchPending(q.tx).None? ==> p.tx.log == q.tx.log)
  {
    BegunInv(true, true);
    BegunInv(true, false);
    BegunSame(w);
    SameScript(w, Begun(true, true), Begun(true, false), closure, n);
    PipelinedLooksSequential(w, Script(Stepper(w), Begun(true, true), closure, [], n));
  }
}
