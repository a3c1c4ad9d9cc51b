/** What every run of a closure keeps: the books of batches and results, the error latch, and the ledger that ties the
    log of executed statements to the batches. */
module SessionSafety {
  import opened Errors
  import opened Session

  // ----- The log's blocks -----

  ghost predicate Owns(b: nat, e: Entry) {
    e.origin.FromBatch? && e.origin.batch == b
  }

  /** The first m statements of batch b are the log's entries from lo on, in queue order, and the log has no other
      entry of b. */
  ghost predicate BlockAt(log: seq<Entry>, lo: int, b: nat, items: seq<Item>, m: nat) {
    && m <= |items| && 0 <= lo && lo + m <= |log|
    && (forall j :: lo <= j < lo + m ==> log[j] == Entry(items[j - lo].stmt, FromBatch(b, j - lo)))
    && (forall j :: 0 <= j < |log| && Owns(b, log[j]) ==> lo <= j < lo + m)
  }

  /** Every statement of the batch ran exactly once, in queue order, with nothing in between. */
  ghost predicate IsBlock(log: seq<Entry>, b: nat, items: seq<Item>) {
    exists lo :: BlockAt(log, lo, b, items, |items|)
  }

  // ----- The books -----

  function Weight(batch: Batch): nat {
    if batch.sent || batch.items == [] then 0 else 1
  }

  /** The number of batches that have statements and were not sent. */
  function Unsent(batches: seq<Batch>): nat {
    if batches == [] then 0 else Weight(batches[0]) + Unsent(batches[1..])
  }

  lemma {:induction false} UnsentUpdate(batches: seq<Batch>, b: nat, batch: Batch)
    requires b < |batches|
    ensures Unsent(batches[b := batch]) == Unsent(batches) - Weight(batches[b]) + Weight(batch)
  {
    if b == 0 {
      assert batches[b := batch][1..] == batches[1..];
    } else {
      UnsentUpdate(batches[1..], b - 1, batch);
      assert batches[b := batch][1..] == batches[1..][b - 1 := batch];
    }
  }

  lemma {:induction false} UnsentAppend(batches: seq<Batch>, batch: Batch)
    ensures Unsent(batches + [batch]) == Unsent(batches) + Weight(batch)
  {
    if batches != [] {
      UnsentAppend(batches[1..], batch);
      assert (batches + [batch])[1..] == batches[1..] + [batch];
    } else {
      assert batches + [batch] == [batch];
    }
  }

  lemma {:induction false} UnsentZero(batches: seq<Batch>, b: nat)
    requires Unsent(batches) == 0 && b < |batches|
    ensures batches[b].sent || batches[b].items == []
  {
    if b > 0 {
      UnsentZero(batches[1..], b - 1);
    }
  }

  /** A result is of a sent batch, and is closed, failed, the open one, or of an empty batch; in Transact mode its
      failure is the transaction's. */
  ghost predicate ResultOk(s: State, r: nat)
    requires WellFormed(s) && r < |s.results|
  {
    && s.batches[s.results[r].batch].sent
    && (s.results[r].closed || s.core.readers[r].err.Some? || s.tx.open == Some(r) || Items(s, r) == [])
    && (s.core.autoErr && s.core.readers[r].err.Some? ==> s.core.err.Some?)
  }

  /** A binding that this transaction refused is recorded. */
  ghost predicate BoundOk(s: State, bound: Bound) {
    s.core.autoErr && bound.err.Some? && !bound.carried ==> s.core.err.Some?
  }

  ghost predicate Books(s: State) {
    && WellFormed(s)
    && s.tx.unsent == Unsent(s.batches)
    && (s.tx.open.Some? ==> !s.results[s.tx.open.value].closed && Items(s, s.tx.open.value) != [])
    && (forall r :: 0 <= r < |s.results| ==> ResultOk(s, r))
    && (s.core.autoErr && s.tx.misuse.Some? ==> s.core.err.Some?)
    && (forall h :: 0 <= h < |s.bound| ==> BoundOk(s, s.bound[h]))
    && (s.tx.done ==> s.tx.ended)
    && (s.tx.ended <==> s.tx.finals != [])
    && |s.tx.finals| <= 1
  }

  // ----- The ledger -----

  ghost predicate Clean(s: State) {
    s.core.autoErr && s.core.err.None? && !s.tx.ended
  }

  ghost predicate IsOpen(s: State, b: nat)
    requires WellFormed(s)
  {
    s.tx.open.Some? && s.results[s.tx.open.value].batch == b
  }

  /** The part of the open batch that the log must hold already. A pipelined batch with a failed statement, or whose
      Send unwound, promises nothing: it cannot be closed without dooming the transaction. */
  ghost predicate OpenLedger(s: State, r: nat)
    requires WellFormed(s) && r < |s.results|
  {
    var b, items, n := s.results[r].batch, Items(s, r), |s.tx.log|;
    if s.results[r].pipelined
    then !s.results[r].lost && FirstErr(items).None? ==> BlockAt(s.tx.log, n - |items|, b, items, |items|)
    else BlockAt(s.tx.log, n - s.results[r].next, b, items, s.results[r].next)
  }

  ghost predicate Origins(s: State) {
    forall j :: 0 <= j < |s.tx.log| && s.tx.log[j].origin.FromBatch? ==>
      s.tx.log[j].origin.batch < |s.batches| && s.batches[s.tx.log[j].origin.batch].sent
  }

  /** In a session without an error, every sent batch ran as a block, the open one excepted. */
  ghost predicate OthersRan(s: State)
    requires WellFormed(s)
  {
    Clean(s) ==>
      forall b :: 0 <= b < |s.batches| && s.batches[b].sent && s.batches[b].items != [] && !IsOpen(s, b) ==>
        IsBlock(s.tx.log, b, s.batches[b].items)
  }

  ghost predicate Ledger(s: State)
    requires WellFormed(s)
  {
    && Origins(s)
    && OthersRan(s)
    && (Clean(s) && s.tx.open.Some? ==> OpenLedger(s, s.tx.open.value))
  }

  ghost predicate Inv(s: State) {
    Books(s) && Ledger(s)
  }

  lemma BegunInv(autoErr: bool, conn: bool)
    ensures Inv(Begun(autoErr, conn))
  {
  }

  // ----- Steps that only latch -----

  lemma LatchInv(s: State, c: Core)
    requires Inv(s) && Latched(s.core, c) && WellFormedCore(c)
    ensures Inv(WithCore(s, c))
  {
    var s' := WithCore(s, c);
    forall r | 0 <= r < |s'.results|
      ensures ResultOk(s', r)
    {
      assert ResultOk(s, r);
      assert LatchedReader(s.core, c, s.core.readers[r], c.readers[r]);
    }
    forall b | Clean(s') && 0 <= b < |s'.batches| && s'.batches[b].sent && s'.batches[b].items != [] && !IsOpen(s', b)
      ensures IsBlock(s'.tx.log, b, s'.batches[b].items)
    {
      assert Clean(s) && !IsOpen(s, b);
    }
  }

  lemma AppendKeepsBlock(log: seq<Entry>, e: Entry, b: nat, items: seq<Item>)
    requires IsBlock(log, b, items) && !Owns(b, e)
    ensures IsBlock(log + [e], b, items)
  {
    var lo :| BlockAt(log, lo, b, items, |items|);
    assert BlockAt(log + [e], lo, b, items, |items|);
  }

  /** A plain statement appends an entry of no batch, and only while no batch is open. */
  lemma DirectInv(s: State, s': State, stmt: Stmt)
    requires Inv(s) && s.tx.open.None?
    requires s' == WithLog(s, s.tx.log + [Entry(stmt, Direct)])
    ensures Inv(s')
  {
    forall r | 0 <= r < |s'.results|
      ensures ResultOk(s', r)
    {
      assert ResultOk(s, r);
    }
    forall b | Clean(s') && 0 <= b < |s'.batches| && s'.batches[b].sent && s'.batches[b].items != [] && !IsOpen(s', b)
      ensures IsBlock(s'.tx.log, b, s'.batches[b].items)
    {
      assert Clean(s) && !IsOpen(s, b);
      AppendKeepsBlock(s.tx.log, Entry(stmt, Direct), b, s.batches[b].items);
    }
  }

  /** Plain rows and well-bound statements are not part of the invariant. */
  lemma PlainInv(s: State, plain: seq<Plain>, bound: seq<Bound>)
    requires Inv(s)
    requires forall h :: 0 <= h < |bound| ==> BoundOk(s, bound[h])
    ensures Inv(s.(plain := plain, bound := bound))
  {
    var s' := s.(plain := plain, bound := bound);
    forall r | 0 <= r < |s'.results|
      ensures ResultOk(s', r)
    {
      assert ResultOk(s, r);
    }
    forall b | Clean(s') && 0 <= b < |s'.batches| && s'.batches[b].sent && s'.batches[b].items != [] && !IsOpen(s', b)
      ensures IsBlock(s'.tx.log, b, s'.batches[b].items)
    {
      assert Clean(s) && !IsOpen(s, b);
    }
  }

  /** What an operation outside batches may change: at most one statement ran, directly, with no batch open and no
      error recorded. */
  ghost predicate PlainFrame(s: State, s': State) {
    && Latched(s.core, s'.core) && s'.core.readers == s.core.readers && s'.core.rows == s.core.rows
    && s' == s.(core := s'.core, tx := s.tx.(log := s'.tx.log), plain := s'.plain, bound := s'.bound)
    && (s'.tx.log != s.tx.log ==>
          && s.tx.open.None? && (s.core.autoErr ==> s.core.err.None?)
          && s.tx.log < s'.tx.log && s'.tx.log == s.tx.log + [Entry(s'.tx.log[|s.tx.log|].stmt, Direct)])
    && |s.bound| <= |s'.bound| <= |s.bound| + 1 && s'.bound[..|s.bound|] == s.bound
    && (|s'.bound| > |s.bound| ==> BoundOk(s', s'.bound[|s.bound|]))
  }

  lemma IssueFrame(w: World, s: State, stmt: Stmt, whole: bool)
    requires WellFormed(s)
    ensures var (c, tx, ran) := Issue(w, s.core, s.tx, stmt, Direct, whole); PlainFrame(s, s.(core := c, tx := tx))
  {
    assert s.bound[..|s.bound|] == s.bound;
  }

  /** A statement that runs outside a batch appends itself to the log. */
  lemma ExecuteFrame(w: World, s: State, stmt: Stmt, c: Core, whole: bool)
    requires WellFormed(s) && s.tx.open.None? && (s.core.autoErr ==> s.core.err.None?)
    requires Latched(s.core, c) && c.readers == s.core.readers && c.rows == s.core.rows
    ensures PlainFrame(s, s.(core := c, tx := Execute(w, s.tx, stmt, Direct, whole).0))
  {
    assert s.bound[..|s.bound|] == s.bound;
  }

  lemma PlainMore(s: State, s': State, plain: seq<Plain>)
    requires PlainFrame(s, s')
    ensures PlainFrame(s, s'.(plain := plain))
  {
  }

  lemma ExecFrame(w: World, s: State, stmt: Stmt, via: Via)
    requires WellFormed(s) && ViaExists(s, via)
    ensures PlainFrame(s, TxExec(w, s, stmt, via).0)
  {
    assert s.bound[..|s.bound|] == s.bound;
    IssueFrame(w, s, PlainStmt(s, via, stmt), true);
  }

  lemma QueryFrame(w: World, s: State, stmt: Stmt, via: Via)
    requires WellFormed(s) && ViaExists(s, via)
    ensures PlainFrame(s, TxQuery(w, s, stmt, via).0)
  {
    var s' := TxQuery(w, s, stmt, via).0;
    var (c, tx, ran) := Issue(w, s.core, s.tx, PlainStmt(s, via, stmt), Direct, false);
    if BindingErr(s, via).Some? {
      assert s.bound[..|s.bound|] == s.bound;
    } else {
      IssueFrame(w, s, PlainStmt(s, via, stmt), false);
      PlainMore(s, s.(core := c, tx := tx), s'.plain);
    }
  }

  lemma QueryRowFrame(w: World, s: State, stmt: Stmt, via: Via)
    requires WellFormed(s) && ViaExists(s, via)
    ensures PlainFrame(s, TxQueryRow(w, s, stmt, via).0)
  {
    var s' := TxQueryRow(w, s, stmt, via).0;
    var (c, refusal) := ShortCircuit(s.core, s.tx);
    if BindingErr(s, via).Some? || refusal.Some? {
      assert s.bound[..|s.bound|] == s.bound;
    } else {
      var st := PlainStmt(s, via, stmt);
      var (tx, ran) := Execute(w, s.tx, st, Direct, false);
      var d := if ran.Refused? && st.unpack.Some? then RecordErr(c, ran.err) else c;
      ExecuteFrame(w, s, st, d, false);
      PlainMore(s, s.(core := d, tx := tx), s'.plain);
    }
  }

  lemma BindFrame(s: State, stmt: Stmt, fault: Option<Error>)
    requires WellFormed(s)
    ensures PlainFrame(s, Prepare(s, stmt, fault).0) && PlainFrame(s, BindStmt(s, stmt, fault).0)
  {
    assert s.bound[..|s.bound|] == s.bound;
  }

  lemma LatchFrame(s: State, c: Core)
    requires Latched(s.core, c) && c.readers == s.core.readers && c.rows == s.core.rows
    ensures PlainFrame(s, WithCore(s, c))
  {
    assert s.bound[..|s.bound|] == s.bound;
  }

  lemma NextFrame(s: State, h: nat)
    requires h < |s.plain| && s.plain[h].PlainRows?
    ensures PlainFrame(s, PlainNext(s, h).0)
  {
    var s' := PlainNext(s, h).0;
    LatchFrame(s, s'.core);
    PlainMore(s, WithCore(s, s'.core), s'.plain);
  }

  lemma ScanFrame(w: World, s: State, h: nat, dest: Dest)
    requires h < |s.plain|
    ensures PlainFrame(s, PlainScan(w, s, h, dest).0)
  {
    var s' := PlainScan(w, s, h, dest).0;
    LatchFrame(s, s'.core);
    PlainMore(s, WithCore(s, s'.core), s'.plain);
  }

  lemma ErrFrame(s: State, h: nat)
    requires h < |s.plain|
    ensures PlainFrame(s, PlainErr(s, h).0)
  {
    LatchFrame(s, PlainErr(s, h).0.core);
  }

  lemma CloseFrame(s: State, h: nat)
    requires h < |s.plain| && s.plain[h].PlainRows?
    ensures PlainFrame(s, PlainClose(s, h).0)
  {
    LatchFrame(s, s.core);
    PlainMore(s, s, PlainClose(s, h).0.plain);
  }

  lemma StepPlainFrame(w: World, s: State, op: Op)
    requires WellFormed(s) && Enabled(s, op) && IsPlain(op)
    ensures PlainFrame(s, StepPlain(w, s, op).0)
  {
    match op {
      case OpExec(stmt, via) => ExecFrame(w, s, stmt, via);
      case OpQuery(stmt, via) => QueryFrame(w, s, stmt, via);
      case OpQueryRow(stmt, via) => QueryRowFrame(w, s, stmt, via);
      case OpPrepare(stmt, fault) => BindFrame(s, stmt, fault);
      case OpBind(stmt, carried) => BindFrame(s, stmt, carried);
      case OpPlainNext(h) => NextFrame(s, h);
      case OpPlainScan(h, dest) => ScanFrame(w, s, h, dest);
      case OpPlainErr(h) => ErrFrame(s, h);
      case OpPlainClose(h) => CloseFrame(s, h);
    }
  }

  lemma PlainFrameInv(s: State, s': State)
    requires Inv(s) && PlainFrame(s, s')
    ensures Inv(s')
  {
    var s1 := s;
    if s'.tx.log != s.tx.log {
      var stmt := s'.tx.log[|s.tx.log|].stmt;
      s1 := WithLog(s, s.tx.log + [Entry(stmt, Direct)]);
      DirectInv(s, s1, stmt);
    }
    LatchInv(s1, s'.core);
    assert forall h :: 0 <= h < |s.bound| ==> s'.bound[h] == s'.bound[..|s.bound|][h];
    PlainInv(WithCore(s1, s'.core), s'.plain, s'.bound);
    assert s' == WithCore(s1, s'.core).(plain := s'.plain, bound := s'.bound);
  }

  // ----- Queueing and finalizing -----

  lemma NewBatchInv(s: State)
    requires Inv(s)
    ensures Inv(NewBatch(s))
  {
    var s' := NewBatch(s);
    UnsentAppend(s.batches, Batch([], false));
    SameResultsInv(s, s');
  }

  /** A change to unsent batches only. */
  lemma SameResultsInv(s: State, s': State)
    requires Inv(s) && WellFormed(s')
    requires s' == s.(batches := s'.batches, tx := s.tx.(unsent := s'.tx.unsent)) && |s.batches| <= |s'.batches|
    requires s'.tx.unsent == Unsent(s'.batches)
    requires forall b :: 0 <= b < |s.batches| && s.batches[b].sent ==> s'.batches[b] == s.batches[b]
    requires forall b :: 0 <= b < |s'.batches| && s'.batches[b].sent ==> b < |s.batches| && s.batches[b].sent
    ensures Inv(s')
  {
    SameResultsBooks(s, s');
    if s.tx.open.Some? {
      assert ResultOk(s, s.tx.open.value);
    }
    SameResultsOthers(s, s');
  }

  lemma SameResultsOthers(s: State, s': State)
    requires WellFormed(s) && OthersRan(s) && WellFormed(s')
    requires s' == s.(batches := s'.batches, tx := s.tx.(unsent := s'.tx.unsent)) && |s.batches| <= |s'.batches|
    requires forall b :: 0 <= b < |s.batches| && s.batches[b].sent ==> s'.batches[b] == s.batches[b]
    requires forall b :: 0 <= b < |s'.batches| && s'.batches[b].sent ==> b < |s.batches| && s.batches[b].sent
    ensures OthersRan(s')
  {
    forall b | Clean(s') && 0 <= b < |s'.batches| && s'.batches[b].sent && s'.batches[b].items != [] && !IsOpen(s', b)
      ensures IsBlock(s'.tx.log, b, s'.batches[b].items)
    {
      assert Clean(s) && !IsOpen(s, b);
    }
  }

  lemma SameResultsBooks(s: State, s': State)
    requires Books(s) && WellFormed(s')
    requires s' == s.(batches := s'.batches, tx := s.tx.(unsent := s'.tx.unsent)) && |s.batches| <= |s'.batches|
    requires s'.tx.unsent == Unsent(s'.batches)
    requires forall b :: 0 <= b < |s.batches| && s.batches[b].sent ==> s'.batches[b] == s.batches[b]
    ensures Books(s')
  {
    forall r | 0 <= r < |s'.results|
      ensures ResultOk(s', r)
    {
      assert ResultOk(s, r);
    }
    if s.tx.open.Some? {
      assert ResultOk(s, s.tx.open.value);
    }
  }

  lemma QueueInv(s: State, b: nat, stmt: Stmt)
    requires Inv(s) && b < |s.batches|
    ensures Inv(Queue(s, b, stmt))
  {
    var s' := Queue(s, b, stmt);
    if s.batches[b].sent {
      LatchInv(s, s'.core);
      var s1 := WithCore(s, s'.core);
      forall r | 0 <= r < |s'.results|
        ensures ResultOk(s', r)
      {
        assert ResultOk(s1, r);
      }
      assert !Clean(s');
    } else {
      UnsentUpdate(s.batches, b, s'.batches[b]);
      SameResultsInv(s, s');
    }
  }

  /** Once the underlying transaction ended, only the books are left to keep. */
  lemma UncleanInv(s: State)
    requires Books(s) && Origins(s) && !Clean(s)
    ensures Inv(s)
  {
  }

  lemma CommitInv(s: State, outcome: CommitOutcome)
    requires Inv(s)
    ensures Inv(CommitTx(s, outcome).0)
  {
    var s' := CommitTx(s, outcome).0;
    forall r | 0 <= r < |s'.results|
      ensures ResultOk(s', r)
    {
      assert ResultOk(s, r);
    }
    if s' != s {
      UncleanInv(s');
    }
  }

  lemma AbandonBooks(s: State, r: nat)
    requires Books(s) && r < |s.results|
    ensures Books(Abandon(s, r))
    ensures forall b :: 0 <= b < |s.batches| ==> Abandon(s, r).batches[b] == s.batches[b]
  {
    var c := Supersede(s.core, r);
    var s' := Abandon(s, r);
    forall q | 0 <= q < |s'.results|
      ensures ResultOk(s', q)
    {
      assert ResultOk(s, q);
      assert LatchedReader(s.core, c, s.core.readers[q], c.readers[q]);
    }
  }

  lemma RollbackInv(s: State, fault: Option<Error>)
    requires Inv(s)
    ensures Inv(RollbackTx(s, fault).0)
  {
    var s1 := s;
    if s.tx.open.Some? {
      AbandonBooks(s, s.tx.open.value);
      s1 := Abandon(s, s.tx.open.value);
    }
    var s' := RollbackTx(s, fault).0;
    forall q | 0 <= q < |s'.results|
      ensures ResultOk(s', q)
    {
      assert ResultOk(s1, q);
    }
    UncleanInv(s');
  }

  // ----- Sending -----

  /** What a pipeline does to the log: it appends the batch's statements in order, all of them unless one failed. */
  ghost predicate Appended(log: seq<Entry>, log': seq<Entry>, b: nat, items: seq<Item>, i: nat) {
    && |log| <= |log'| <= |log| + |items| - i
    && log'[..|log|] == log
    && forall j :: |log| <= j < |log'| ==>
         i + j - |log| < |items| && log'[j] == Entry(items[i + j - |log|].stmt, FromBatch(b, i + j - |log|))
  }

  lemma {:induction false} PipeRunShape(w: World, log: seq<Entry>, b: nat, items: seq<Item>, i: nat)
    requires i <= |items|
    ensures var (log', ran) := PipeRun(w, log, b, items, i);
      && |ran| == |items| - i
      && (forall j :: 0 <= j < |ran| ==> ran[j].stmt == items[i + j].stmt)
      && Appended(log, log', b, items, i)
      && (FirstErr(ran).None? ==> |log'| == |log| + |items| - i)
    decreases |items| - i
  {
    if i < |items| {
      var log1 := log + [Entry(items[i].stmt, FromBatch(b, i))];
      PipeRunShape(w, log1, b, items, i + 1);
      var (log', ran) := PipeRun(w, log, b, items, i);
      var (log2, rest) := PipeRun(w, log1, b, items, i + 1);
      assert log1[..|log|] == log;
      match w.server(log, items[i].stmt) {
        case Fail(e) =>
          assert FirstErr(ran).Some? by { assert ran[0].err == Some(e); }
        case Ok(_, _, tail, _) =>
          if tail.None? {
            assert log2[..|log|] == log2[..|log1|][..|log|];
            assert log'[|log|] == log2[..|log1|][|log|];
            assert ran[1..] == rest;
          } else {
            assert FirstErr(ran).Some? by { assert ran[0].err == tail; }
          }
      }
    }
  }

  lemma FailAllShape(items: seq<Item>, e: Error)
    ensures |FailAll(items, e)| == |items| && (items != [] ==> FirstErr(FailAll(items, e)).Some?)
    ensures forall j :: 0 <= j < |items| ==> FailAll(items, e)[j].stmt == items[j].stmt
  {
    if items != [] {
      assert FailAll(items, e)[0].err == Some(e);
    }
  }

  /** A pipeline was refused, unwound, failed as a whole after it ran, or ran. */
  lemma PipelineCases(w: World, tx: Tx, b: nat, items: seq<Item>)
    ensures var p := Pipeline(w, tx, b, items);
      || (exists e :: p == Piped(tx.log, FailAll(items, e), false))
      || p == Piped(tx.log, items, true)
      || (var (log, ran) := PipeRun(w, tx.log, b, items, 0);
          p == Piped(log, ran, false) || exists e :: p == Piped(log, FailAll(ran, e), false))
  {
  }

  lemma PipelineShape(w: World, tx: Tx, b: nat, items: seq<Item>)
    ensures var p := Pipeline(w, tx, b, items);
      && |p.items| == |items|
      && (forall j :: 0 <= j < |items| ==> p.items[j].stmt == items[j].stmt)
      && Appended(tx.log, p.log, b, items, 0)
      && (items != [] && FirstErr(p.items).None? && !p.unwound ==> |p.log| == |tx.log| + |items|)
  {
    var p := Pipeline(w, tx, b, items);
    var (log, ran) := PipeRun(w, tx.log, b, items, 0);
    PipelineCases(w, tx, b, items);
    PipeRunShape(w, tx.log, b, items, 0);
    assert tx.log[..|tx.log|] == tx.log;
    if e :| p == Piped(tx.log, FailAll(items, e), false) {
      FailAllShape(items, e);
    } else if e :| p == Piped(log, FailAll(ran, e), false) {
      FailAllShape(ran, e);
    }
  }

  /** A new result of a sent batch that is already failed, or of an empty batch. */
  lemma AddBooks(s: State, b: nat, err: Option<Error>, c: Core)
    requires Books(s) && b < |s.batches| && s.batches[b].sent
    requires |c.readers| == |s.core.readers| + 1 && WellFormedCore(c) && c.autoErr == s.core.autoErr
    requires s.core.err.Some? ==> c.err.Some?
    requires forall r :: 0 <= r < |s.core.readers| ==> c.readers[r] == s.core.readers[r]
    requires c.readers[|s.results|].err.Some? || s.batches[b].items == []
    requires c.autoErr && c.readers[|s.results|].err.Some? ==> c.err.Some?
    ensures Books(WithCore(AddResults(s, b, err), c))
  {
    var s' := WithCore(AddResults(s, b, err), c);
    forall r | 0 <= r < |s'.results|
      ensures ResultOk(s', r)
    {
      if r < |s.results| {
        assert ResultOk(s, r);
      }
    }
  }

  /** The batch is marked sent; its block in the log is owed until its results are open. */
  lemma MarkSentBooks(s: State, b: nat)
    requires Books(s) && Origins(s) && b < |s.batches| && !s.batches[b].sent
    ensures Books(MarkSent(s, b)) && Origins(MarkSent(s, b))
  {
    var s' := MarkSent(s, b);
    UnsentUpdate(s.batches, b, s'.batches[b]);
    forall r | 0 <= r < |s'.results|
      ensures ResultOk(s', r)
    {
      assert ResultOk(s, r);
    }
  }

  function MarkSent(s: State, b: nat): State
    requires b < |s.batches|
  {
    s.(tx := if s.batches[b].items == [] then s.tx else s.tx.(unsent := s.tx.unsent - 1),
       batches := s.batches[b := s.batches[b].(sent := true)])
  }

  lemma SendInv(w: World, s: State, b: nat)
    requires Inv(s) && b < |s.batches|
    ensures Inv(Send(w, s, b).0)
  {
    var s' := Send(w, s, b).0;
    var r := |s.results|;
    if s.batches[b].sent {
      AddBooks(s, b, None, s'.core);
      if s.core.autoErr {
        assert !Clean(s');
      }
      UncleanInv(s');
    } else {
      var s1 := MarkSent(s, b);
      MarkSentBooks(s, b);
      var (c, refusal) := ShortCircuit(s1.core, s1.tx);
      if refusal.Some? {
        AddBooks(s1, b, refusal, s'.core);
        UncleanInv(s');
      } else {
        SendItemsInv(w, s, b);
      }
    }
  }

  lemma SendItemsInv(w: World, s: State, b: nat)
    requires Inv(s) && b < |s.batches| && !s.batches[b].sent
    requires Books(MarkSent(s, b)) && Origins(MarkSent(s, b))
    requires s.tx.open.None?
    ensures Inv(SendItems(w, AddResults(MarkSent(s, b), b, None), b, |s.results|).0)
  {
    var s1 := MarkSent(s, b);
    var r := |s.results|;
    var s2 := AddResults(s1, b, None);
    var s' := SendItems(w, s2, b, r).0;
    var items := s.batches[b].items;
    if exists i :: 0 <= i < |items| && items[i].stmt.named {
      AddBooks(s1, b, None, s'.core);
      UncleanInv(s');
    } else if items == [] {
      AddBooks(s1, b, None, s'.core);
      forall q | Clean(s') && 0 <= q < |s'.batches| && s'.batches[q].sent && s'.batches[q].items != []
        ensures IsBlock(s'.tx.log, q, s'.batches[q].items)
      {
        assert Clean(s) && !IsOpen(s, q);
      }
    } else {
      OpenedInv(w, s, b, s');
    }
  }

  /** The shape of a Send that opened results: the batch marked sent with its statements in place, one more result. */
  ghost predicate Opened(s: State, b: nat, s': State)
    requires b < |s.batches|
  {
    var s1, r, res := MarkSent(s, b), |s.results|, s'.results;
    && |res| == r + 1 && b < |s'.batches| && |s'.batches[b].items| == |s.batches[b].items|
    && s' == s.(core := AddResults(s1, b, None).core,
                tx := s1.tx.(open := Some(r), log := s'.tx.log),
                batches := s1.batches[b := Batch(s'.batches[b].items, true)],
                results := s.results + [Results(b, 0, false, res[r].pipelined, res[r].lost)])
  }

  lemma OpenedInv(w: World, s: State, b: nat, s': State)
    requires Inv(s) && b < |s.batches| && !s.batches[b].sent && s.batches[b].items != []
    requires Books(MarkSent(s, b)) && Origins(MarkSent(s, b))
    requires s.tx.open.None?
    requires !exists i :: 0 <= i < |s.batches[b].items| && s.batches[b].items[i].stmt.named
    requires s' == SendItems(w, AddResults(MarkSent(s, b), b, None), b, |s.results|).0
    ensures Inv(s')
  {
    PipelineShape(w, MarkSent(s, b).tx, b, s.batches[b].items);
    OpenedShape(w, s, b, s');
    OpenedBooks(s, b, s');
    OpenedLedger(s, b, s');
  }

  lemma OpenedShape(w: World, s: State, b: nat, s': State)
    requires WellFormed(s) && b < |s.batches| && s.batches[b].items != []
    requires !exists i :: 0 <= i < |s.batches[b].items| && s.batches[b].items[i].stmt.named
    requires s' == SendItems(w, AddResults(MarkSent(s, b), b, None), b, |s.results|).0
    requires var p := Pipeline(w, MarkSent(s, b).tx, b, s.batches[b].items); |p.items| == |s.batches[b].items|
    ensures Opened(s, b, s')
    ensures var p, res := Pipeline(w, MarkSent(s, b).tx, b, s.batches[b].items), s'.results[|s.results|];
      if res.pipelined then s'.tx.log == p.log && s'.batches[b].items == p.items && res.lost == p.unwound
      else s'.tx.log == s.tx.log && s'.batches[b].items == s.batches[b].items && !res.lost
  {
    var s1, r := MarkSent(s, b), |s.results|;
    assert s1.batches[b := s1.batches[b]] == s1.batches;
    assert (s1.results + [Results(b, 0, false, false, false)])[r := s'.results[r]] == s1.results + [s'.results[r]];
  }

  lemma OpenedBooks(s: State, b: nat, s': State)
    requires b < |s.batches| && s.batches[b].items != [] && s.tx.open.None?
    requires Books(MarkSent(s, b)) && Opened(s, b, s') && WellFormed(s')
    ensures Books(s')
  {
    var s1 := MarkSent(s, b);
    UnsentUpdate(s1.batches, b, s'.batches[b]);
    forall q | 0 <= q < |s'.results|
      ensures ResultOk(s', q)
    {
      if q < |s.results| {
        assert ResultOk(s1, q);
      }
    }
  }

  /** The log a Send leaves: the batch's statements, if any, follow everything that ran before. */
  lemma OpenedLedger(s: State, b: nat, s': State)
    requires Inv(s) && b < |s.batches| && !s.batches[b].sent && s.tx.open.None?
    requires WellFormed(s') && Opened(s, b, s')
    requires forall j :: 0 <= j < |s.batches[b].items| ==> s'.batches[b].items[j].stmt == s.batches[b].items[j].stmt
    requires Appended(s.tx.log, s'.tx.log, b, s.batches[b].items, 0)
    requires !s'.results[|s.results|].pipelined ==> s'.tx.log == s.tx.log
    requires var res := s'.results[|s.results|];
      res.pipelined && !res.lost && FirstErr(s'.batches[b].items).None? ==>
        |s'.tx.log| == |s.tx.log| + |s.batches[b].items|
    ensures Ledger(s')
  {
    var log, log' := s.tx.log, s'.tx.log;
    AppendedOrigins(log, log', b, s.batches[b].items, 0);
    assert Origins(s') by { OpenedOrigins(s, b, s'); }
    assert OpenLedger(s', |s.results|) by {
      OpenedOwnBlock(log, log', b, s.batches[b].items, s'.batches[b].items);
    }
    OpenedOthers(s, b, s');
  }

  lemma OpenedOthers(s: State, b: nat, s': State)
    requires Inv(s) && b < |s.batches| && s.tx.open.None? && WellFormed(s') && Opened(s, b, s')
    requires |s.tx.log| <= |s'.tx.log|
    requires forall j :: 0 <= j < |s.tx.log| ==> s'.tx.log[j] == s.tx.log[j]
    requires forall j :: |s.tx.log| <= j < |s'.tx.log| ==> Owns(b, s'.tx.log[j])
    ensures OthersRan(s')
  {
    forall q | Clean(s') && 0 <= q < |s'.batches| && s'.batches[q].sent && s'.batches[q].items != [] && !IsOpen(s', q)
      ensures IsBlock(s'.tx.log, q, s'.batches[q].items)
    {
      assert q != b && s'.batches[q] == s.batches[q];
      assert Clean(s) && !IsOpen(s, q);
      ExtendKeepsBlock(s.tx.log, s'.tx.log, q, s.batches[q].items);
    }
  }

  lemma OpenedOrigins(s: State, b: nat, s': State)
    requires WellFormed(s) && Origins(s) && b < |s.batches| && Opened(s, b, s')
    requires |s.tx.log| <= |s'.tx.log|
    requires forall j :: 0 <= j < |s.tx.log| ==> s'.tx.log[j] == s.tx.log[j]
    requires forall j :: |s.tx.log| <= j < |s'.tx.log| ==> Owns(b, s'.tx.log[j])
    ensures Origins(s')
  {
  }

  lemma OpenedOwnBlock(log: seq<Entry>, log': seq<Entry>, b: nat, items: seq<Item>, items': seq<Item>)
    requires Appended(log, log', b, items, 0) && |items'| == |items|
    requires forall j :: 0 <= j < |log| ==> !Owns(b, log[j])
    requires forall i :: 0 <= i < |items| ==> items'[i].stmt == items[i].stmt
    ensures |log'| == |log| + |items| ==> BlockAt(log', |log'| - |items'|, b, items', |items'|)
    ensures log' == log ==> BlockAt(log', |log'|, b, items', 0)
  {
    if |log'| == |log| + |items| {
      AppendedBlock(log, log', b, items, items');
    }
  }

  lemma AppendedOrigins(log: seq<Entry>, log': seq<Entry>, b: nat, items: seq<Item>, i: nat)
    requires Appended(log, log', b, items, i)
    ensures forall j :: 0 <= j < |log| ==> log'[j] == log[j]
    ensures forall j :: |log| <= j < |log'| ==> Owns(b, log'[j])
  {
    forall j | 0 <= j < |log|
      ensures log'[j] == log[j]
    {
      assert log'[j] == log'[..|log|][j];
    }
  }

  lemma ExtendKeepsBlock(log: seq<Entry>, log': seq<Entry>, q: nat, items: seq<Item>)
    requires IsBlock(log, q, items) && |log| <= |log'|
    requires forall j :: 0 <= j < |log| ==> log'[j] == log[j]
    requires forall j :: |log| <= j < |log'| ==> !Owns(q, log'[j])
    ensures IsBlock(log', q, items)
  {
    var lo :| BlockAt(log, lo, q, items, |items|);
    assert BlockAt(log', lo, q, items, |items|);
  }

  lemma AppendedBlock(log: seq<Entry>, log': seq<Entry>, b: nat, items: seq<Item>, items': seq<Item>)
    requires Appended(log, log', b, items, 0) && |log'| == |log| + |items| && |items'| == |items|
    requires forall j :: 0 <= j < |log| ==> !Owns(b, log[j])
    requires forall i :: 0 <= i < |items| ==> items'[i].stmt == items[i].stmt
    ensures BlockAt(log', |log|, b, items', |items'|)
  {
    AppendedOrigins(log, log', b, items, 0);
    forall i | 0 <= i < |items|
      ensures log'[|log| + i] == Entry(items'[i].stmt, FromBatch(b, i))
    {
      assert 0 + (|log| + i) - |log| == i;
    }
  }

  // ----- Reading -----

  lemma SkipInv(s: State, r: nat)
    requires Inv(s) && r < |s.results|
    requires Clean(s) ==> s.results[r].pipelined
    ensures Inv(Skip(s, r))
  {
    var s' := Skip(s, r);
    forall q | 0 <= q < |s'.results|
      ensures ResultOk(s', q)
    {
      assert ResultOk(s, q);
    }
    forall b | Clean(s') && 0 <= b < |s'.batches| && s'.batches[b].sent && s'.batches[b].items != [] && !IsOpen(s', b)
      ensures IsBlock(s'.tx.log, b, s'.batches[b].items)
    {
      assert Clean(s) && !IsOpen(s, b);
    }
  }

  /** A read that does not run a statement: refused, or answered from a pipelined batch's buffers. */
  lemma AdvanceInv(s: State, r: nat)
    requires Inv(s) && r < |s.results|
    ensures var (s1, turn) := Advance(s, r); turn.Stop? || s.results[r].pipelined ==> Inv(s1)
  {
    var (s1, turn) := Advance(s, r);
    LatchInv(s, s1.core);
    var s0 := WithCore(s, s1.core);
    if s1 != s0 && (turn.Stop? || s.results[r].pipelined) {
      assert !s.results[r].pipelined ==> s1.core.readers[r].err.Some?;
      assert ResultOk(s0, r);
      SkipInv(s0, r);
    }
  }

  /** The log after the statement of a read ran or was refused. */
  ghost predicate RanItem(s: State, r: nat, i: nat, s': State)
    requires WellFormed(s) && r < |s.results|
  {
    && i < |Items(s, r)| && |s'.core.readers| == |s.results|
    && (|| (s'.tx.log == s.tx.log && s'.core.readers[r].err.Some?)
        || s'.tx.log == s.tx.log + [Entry(Items(s, r)[i].stmt, FromBatch(s.results[r].batch, i))])
  }

  lemma RunItemLog(w: World, s: State, r: nat, i: nat, whole: bool)
    requires WellFormed(s) && r < |s.results| && i < |Items(s, r)|
    ensures RanItem(s, r, i, RunItem(w, s, r, i, whole).0)
    ensures s.core.autoErr && s.core.err.Some? ==> RunItem(w, s, r, i, whole).0.tx.log == s.tx.log
  {
  }

  /** What running the next statement of results r changes. */
  ghost predicate RanNext(s: State, r: nat, i: nat, s': State)
    requires WellFormed(s) && r < |s.results|
  {
    && i == s.results[r].next && RanItem(s, r, i, s')
    && WellFormedCore(s'.core) && Latched(s.core, s'.core)
    && s' == WithLog(WithCore(Skip(s, r), s'.core), s'.tx.log)
  }

  /** Running the next statement of the open batch extends its block by one. */
  lemma RunReadInv(s: State, r: nat, i: nat, s': State)
    requires Inv(s) && r < |s.results| && !s.results[r].pipelined && !s.results[r].closed
    requires RanNext(s, r, i, s') && s.core.readers[r].err.None?
    ensures Inv(s')
  {
    assert ResultOk(s, r);
    RunReadBooks(s, r, i, s');
    if Clean(s') {
      assert ResultOk(s', r);
      RunReadBlocks(s, r, i, s');
    } else {
      UncleanInv(s');
    }
  }

  lemma RunReadBooks(s: State, r: nat, i: nat, s': State)
    requires Books(s) && r < |s.results| && RanNext(s, r, i, s')
    ensures Books(s')
  {
    forall q | 0 <= q < |s'.results|
      ensures ResultOk(s', q)
    {
      assert ResultOk(s, q);
      assert LatchedReader(s.core, s'.core, s.core.readers[q], s'.core.readers[q]);
    }
  }

  lemma RunReadBlocks(s: State, r: nat, i: nat, s': State)
    requires Inv(s) && Clean(s) && r < |s.results| && !s.results[r].pipelined && s.tx.open == Some(r)
    requires RanNext(s, r, i, s') && Clean(s') && s'.core.readers[r].err.None?
    ensures WellFormed(s') && Ledger(s')
  {
    var b, items := s.results[r].batch, Items(s, r);
    var e := Entry(items[i].stmt, FromBatch(b, i));
    assert ResultOk(s, r);
    assert s'.tx.log == s.tx.log + [e] && s'.batches == s.batches;
    assert OpenLedger(s', r) by { BlockGrows(s.tx.log, b, items, i); }
    RunReadOthers(s, b, e, s');
  }

  lemma BlockGrows(log: seq<Entry>, b: nat, items: seq<Item>, i: nat)
    requires i < |items| && BlockAt(log, |log| - i, b, items, i)
    ensures BlockAt(log + [Entry(items[i].stmt, FromBatch(b, i))], |log| - i, b, items, i + 1)
  {
  }

  /** A statement of the open batch leaves the blocks of the others. */
  lemma RunReadOthers(s: State, b: nat, e: Entry, s': State)
    requires WellFormed(s) && WellFormed(s') && Origins(s) && OthersRan(s) && Clean(s) && IsOpen(s, b) && IsOpen(s', b)
    requires b < |s.batches| && s.batches[b].sent && Owns(b, e)
    requires s'.tx.log == s.tx.log + [e] && s'.batches == s.batches
    ensures Origins(s') && OthersRan(s')
  {
    forall q | 0 <= q < |s'.batches| && s'.batches[q].sent && s'.batches[q].items != [] && !IsOpen(s', q)
      ensures IsBlock(s'.tx.log, q, s'.batches[q].items)
    {
      AppendKeepsBlock(s.tx.log, e, q, s.batches[q].items);
    }
  }

  lemma ReadInv(w: World, s: State, r: nat)
    requires Inv(s) && r < |s.results|
    ensures Inv(ReadExec(w, s, r).0) && Inv(ReadQuery(w, s, r).0)
  {
    AdvanceInv(s, r);
    var (s1, turn) := Advance(s, r);
    if turn.Read? && !s.results[r].pipelined {
      ReadRunInv(w, s, r, true);
      ReadRunInv(w, s, r, false);
      OpenedRowsInv(RunItem(w, s1, r, turn.index, false).0, r, ReadQuery(w, s, r).0);
    } else {
      assert ReadExec(w, s, r).0 == s1;
      OpenedRowsInv(s1, r, ReadQuery(w, s, r).0);
    }
  }

  lemma ReadRunInv(w: World, s: State, r: nat, whole: bool)
    requires Inv(s) && r < |s.results| && Advance(s, r).1.Read? && !s.results[r].pipelined
    ensures var (s1, turn) := Advance(s, r); Inv(RunItem(w, s1, r, turn.index, whole).0)
  {
    var (s1, turn) := Advance(s, r);
    RunItemLog(w, s1, r, turn.index, whole);
    LatchInv(s, s1.core);
    RunReadInv(WithCore(s, s1.core), r, turn.index, RunItem(w, s1, r, turn.index, whole).0);
  }

  lemma OpenedRowsInv(s: State, r: nat, s': State)
    requires Inv(s) && r < |s.results|
    requires s' == s || exists cursor, buffered :: s' == OpenRows(s, r, cursor, buffered).0
    ensures Inv(s')
  {
    if s' != s {
      assert Latched(s.core, s'.core);
      LatchInv(s, s'.core);
    }
  }

  // ----- Closing -----

  /** Only the errors, the log and the next statement of the results moved. */
  ghost predicate Moved(s: State, r: nat, s': State)
    requires r < |s.results|
  {
    && |s'.results| == |s.results|
    && s' == s.(core := s'.core, tx := s.tx.(log := s'.tx.log),
                results := s.results[r := s.results[r].(next := s'.results[r].next)])
  }

  lemma MovedOn(s: State, r: nat, s1: State, s': State)
    requires r < |s.results| && Moved(s, r, s1) && Moved(s1, r, s')
    ensures Moved(s, r, s')
  {
  }

  lemma RunItemMoves(w: World, s: State, r: nat, i: nat, whole: bool)
    requires WellFormed(s) && r < |s.results| && i < |Items(s, r)|
    ensures var s' := RunItem(w, Skip(s, r), r, i, whole).0; Latched(s.core, s'.core) && Moved(s, r, s')
  {
  }

  lemma {:induction false} RunRestShape(w: World, s: State, r: nat)
    requires WellFormed(s) && r < |s.results|
    ensures Latched(s.core, RunRest(w, s, r).0.core) && Moved(s, r, RunRest(w, s, r).0)
    decreases |Items(s, r)| - s.results[r].next
  {
    var i := s.results[r].next;
    if s.core.readers[r].err.Some? || i >= |Items(s, r)| {
      assert s.results[r := s.results[r]] == s.results;
    } else {
      var (s1, ran) := RunItem(w, Skip(s, r), r, i, true);
      RunItemMoves(w, s, r, i, true);
      if !ran.Unwound? {
        RunRestShape(w, s1, r);
        MovedOn(s, r, s1, RunRest(w, s1, r).0);
        LatchedOn(s.core, s1.core, RunRest(w, s1, r).0.core);
      }
    }
  }

  lemma RunRestInv(w: World, s: State, r: nat)
    requires Inv(s) && r < |s.results| && !s.results[r].pipelined && !s.results[r].closed
    requires s.core.autoErr && s.core.err.Some? ==> s.core.readers[r].err.Some?
    ensures var (s', unwound) := RunRest(w, s, r);
      && Inv(s')
      && s'.batches == s.batches && s'.results[r] == s.results[r].(next := s'.results[r].next)
      && (s'.core.readers[r].err.Some? || s'.results[r].next >= |Items(s, r)|)
    decreases |Items(s, r)| - s.results[r].next
  {
    var i := s.results[r].next;
    if s.core.readers[r].err.None? && i < |Items(s, r)| {
      var (s1, ran) := RunItem(w, Skip(s, r), r, i, true);
      RunItemLog(w, Skip(s, r), r, i, true);
      RunReadInv(s, r, i, s1);
      if !ran.Unwound? {
        assert ResultOk(s1, r);
        RunItemClean(w, Skip(s, r), r, i);
        RunRestInv(w, s1, r);
      }
    }
  }

  lemma RunItemClean(w: World, s: State, r: nat, i: nat)
    requires WellFormed(s) && r < |s.results| && i < |Items(s, r)|
    requires s.core.autoErr ==> s.core.err.None?
    ensures var c := RunItem(w, s, r, i, true).0.core;
      c.autoErr && c.err.Some? ==> c.readers[r].err.Some?
  {
  }

  lemma AbandonInv(s: State, r: nat)
    requires Inv(s) && r < |s.results|
    requires Settled(s, r)
    ensures Inv(Abandon(s, r))
  {
    var s' := Abandon(s, r);
    AbandonBooks(s, r);
    forall b | Clean(s') && 0 <= b < |s'.batches| && s'.batches[b].sent && s'.batches[b].items != [] && !IsOpen(s', b)
      ensures IsBlock(s'.tx.log, b, s'.batches[b].items)
    {
      assert Clean(s);
      if IsOpen(s, b) {
        assert s.tx.open == Some(r);
      }
    }
  }

  /** The results are ready to be closed: the log holds the whole block, or the transaction cannot commit. */
  ghost predicate Settled(s: State, r: nat)
    requires WellFormed(s) && r < |s.results|
  {
    Clean(s) && s.tx.open == Some(r) ==> IsBlock(s.tx.log, s.results[r].batch, Items(s, r))
  }

  lemma SettledByLedger(s: State, r: nat)
    requires Inv(s) && r < |s.results|
    requires if s.results[r].pipelined
             then !s.results[r].lost && (Clean(s) ==> FirstErr(Items(s, r)).None?)
             else Clean(s) ==> s.results[r].next >= |Items(s, r)|
    ensures Settled(s, r)
  {
    if Clean(s) && s.tx.open == Some(r) {
      var b, items := s.results[r].batch, Items(s, r);
      assert BlockAt(s.tx.log, |s.tx.log| - |items|, b, items, |items|);
    }
  }

  lemma FinishInv(w: World, s: State, r: nat)
    requires Inv(s) && r < |s.results| && !s.results[r].closed && !s.results[r].lost
    requires s.core.autoErr && s.core.err.Some? ==> s.core.readers[r].err.Some?
    ensures Inv(FinishResults(w, s, r).0) && Settled(FinishResults(w, s, r).0, r)
  {
    var s' := FinishResults(w, s, r).0;
    if s.results[r].pipelined {
      LatchInv(s, s'.core);
    } else {
      RunRestInv(w, s, r);
    }
    assert ResultOk(s', r);
    SettledByLedger(s', r);
  }

  lemma CloseInv(w: World, s: State, r: nat)
    requires Inv(s) && r < |s.results| && !s.results[r].lost
    ensures Inv(CloseResults(w, s, r).0)
  {
    if !s.results[r].closed {
      var c := Doomed(Supersede(s.core, r), r);
      LatchInv(s, c);
      FinishInv(w, WithCore(s, c), r);
      AbandonInv(FinishResults(w, WithCore(s, c), r).0, r);
    }
  }

  // ----- Every step, every run -----

  lemma StepInv(w: World, s: State, op: Op)
    requires Inv(s)
    ensures Inv(Step(w, s, op).0)
  {
    if Enabled(s, op) {
      if IsPlain(op) {
        StepPlainFrame(w, s, op);
        PlainFrameInv(s, StepPlain(w, s, op).0);
      } else if IsRows(op) {
        LatchInv(s, StepRows(w, s.core, op).0);
      } else {
        StepBatchInv(w, s, op);
      }
    }
  }

  lemma StepBatchInv(w: World, s: State, op: Op)
    requires Inv(s) && Enabled(s, op) && !IsPlain(op) && !IsRows(op)
    ensures Inv(StepBatch(w, s, op).0)
  {
    match op {
      case OpBatch => NewBatchInv(s);
      case OpQueue(b, stmt) => QueueInv(s, b, stmt);
      case OpSend(b) => SendInv(w, s, b);
      case OpReadExec(r) => ReadInv(w, s, r);
      case OpReadQuery(r) => ReadInv(w, s, r);
      case OpClose(r) => CloseInv(w, s, r);
      case OpCommit(outcome) => CommitInv(s, outcome);
      case OpRollback(fault) => RollbackInv(s, fault);
    }
  }

  /** A script of operations, whatever each of them does. */
  function Fold(step: (State, Op) -> (State, Answer), s: State, ops: seq<Op>): (out: (State, seq<Answer>))
    ensures |out.1| == |ops|
    decreases ops
  {
    if ops == [] then (s, [])
    else
      var (s1, answer) := step(s, ops[0]);
      var (s2, answers) := Fold(step, s1, ops[1..]);
      (s2, [answer] + answers)
  }

  lemma {:induction false} FoldKeeps(step: (State, Op) -> (State, Answer), kept: State -> bool, s: State, ops: seq<Op>)
    requires forall s, op {:trigger step(s, op)} :: kept(s) ==> kept(step(s, op).0)
    requires kept(s)
    ensures kept(Fold(step, s, ops).0)
    decreases ops
  {
    if ops != [] {
      FoldKeeps(step, kept, step(s, ops[0]).0, ops[1..]);
    }
  }

  function Stepper(w: World): (State, Op) -> (State, Answer) {
    (s, op) => if WellFormed(s) then Step(w, s, op) else (s, Invalid)
  }

  /** A run of a closure: the state it ends in and the answers it saw. */
  function Run(w: World, s: State, ops: seq<Op>): (out: (State, seq<Answer>))
    ensures |out.1| == |ops|
  {
    Fold(Stepper(w), s, ops)
  }

  lemma RunInv(w: World, s: State, ops: seq<Op>)
    requires Inv(s)
    ensures Inv(Run(w, s, ops).0)
  {
    forall s, op | Inv(s)
      ensures Inv(Stepper(w)(s, op).0)
    {
      StepInv(w, s, op);
    }
    FoldKeeps(Stepper(w), Inv, s, ops);
  }

  /** The state a session can be in: whatever the closure did so far. */
  ghost predicate Reachable(w: World, autoErr: bool, conn: bool, s: State) {
    exists ops :: s == Run(w, Begun(autoErr, conn), ops).0
  }

  /** In every reachable state the count of unsent batches is exact, an open batch is sent, non-empty and unclosed,
      and at most one finalization ever reached the database. */
  lemma BooksBalance(w: World, autoErr: bool, conn: bool, s: State)
    requires Reachable(w, autoErr, conn, s)
    ensures s.tx.unsent == Unsent(s.batches)
    ensures s.tx.open.Some? ==>
      var r := s.tx.open.value;
      r < |s.results| && !s.results[r].closed && s.results[r].batch < |s.batches|
      && s.batches[s.results[r].batch].sent && s.batches[s.results[r].batch].items != []
    ensures |s.tx.finals| <= 1 && (s.tx.done ==> |s.tx.finals| == 1)
  {
    var ops :| s == Run(w, Begun(autoErr, conn), ops).0;
    BegunInv(autoErr, conn);
    RunInv(w, Begun(autoErr, conn), ops);
    if s.tx.open.Some? {
      assert ResultOk(s, s.tx.open.value);
    }
  }

  /** Once a Commit or a Rollback answered nil, no later one reaches the database: it answers TxDone, or the refusal of
      a pending batch. */
  lemma FinalizedOnce(w: World, s: State, op: Op)
    requires Inv(s) && s.tx.ended && (op.OpCommit? || op.OpRollback?)
    ensures Step(w, s, op).0.tx.finals == s.tx.finals
    ensures Step(w, s, op).1 == Failed(New(TxDone)) ||
      (op.OpCommit? && Step(w, s, op).1 == AnswerOf(BatchPending(s.tx)))
  {
  }

  // ----- The error latch -----

  /** After the first recorded error of a Transact transaction, no step changes it and none runs a statement. */
  lemma DoomedStep(w: World, s: State, op: Op)
    requires WellFormed(s) && s.core.autoErr && s.core.err.Some?
    ensures var s' := Step(w, s, op).0;
      s'.core.autoErr && s'.core.err == s.core.err && s'.tx.log == s.tx.log
  {
    if Enabled(s, op) {
      if IsPlain(op) {
        StepPlainFrame(w, s, op);
      } else if !IsRows(op) {
        DoomedBatch(w, s, op);
      }
    }
  }

  lemma DoomedBatch(w: World, s: State, op: Op)
    requires WellFormed(s) && s.core.autoErr && s.core.err.Some? && Enabled(s, op) && !IsPlain(op) && !IsRows(op)
    ensures var s' := StepBatch(w, s, op).0;
      s'.core.autoErr && s'.core.err == s.core.err && s'.tx.log == s.tx.log
  {
    if op.OpClose? && !s.results[op.r].closed {
      DoomedClose(w, s, op.r);
    } else if op.OpReadExec? || op.OpReadQuery? {
      DoomedRead(w, s, op.r);
    }
  }

  lemma DoomedRead(w: World, s: State, r: nat)
    requires WellFormed(s) && r < |s.results| && s.core.autoErr && s.core.err.Some?
    ensures var (s1, s2) := (ReadExec(w, s, r).0, ReadQuery(w, s, r).0);
      && s1.core.autoErr && s1.core.err == s.core.err && s1.tx.log == s.tx.log
      && s2.core.autoErr && s2.core.err == s.core.err && s2.tx.log == s.tx.log
  {
  }

  lemma DoomedClose(w: World, s: State, r: nat)
    requires WellFormed(s) && r < |s.results| && !s.results[r].closed
    requires s.core.autoErr && s.core.err.Some?
    ensures var s' := CloseResults(w, s, r).0;
      s'.core.autoErr && s'.core.err == s.core.err && s'.tx.log == s.tx.log
  {
    var c := Doomed(Supersede(s.core, r), r);
    assert c.readers[r].err.Some?;
    assert FinishResults(w, WithCore(s, c), r).0.tx.log == s.tx.log;
  }

  lemma DoomedRun(w: World, s: State, ops: seq<Op>)
    requires WellFormed(s) && s.core.autoErr && s.core.err.Some?
    ensures var s' := Run(w, s, ops).0;
      s'.core.autoErr && s'.core.err == s.core.err && s'.tx.log == s.tx.log
  {
    var frozen := (s': State) =>
      WellFormed(s') && s'.core.autoErr && s'.core.err == s.core.err && s'.tx.log == s.tx.log;
    forall s', op | frozen(s')
      ensures frozen(Stepper(w)(s', op).0)
    {
      DoomedStep(w, s', op);
    }
    FoldKeeps(Stepper(w), frozen, s, ops);
  }

  // ----- Errors a caller sees are latched -----

  /** A missing row, and a read outside a batch's results, are answers rather than failures. */
  predicate Exempt(root: Root) {
    root in {NoRows, ResultsClosed, NoMoreResults}
  }

  predicate Tolerable(a: Answer) {
    a.Failed? ==> Exempt(a.err.root)
  }

  predicate Finalizes(op: Op) {
    op.OpCommit? || op.OpRollback?
  }

  /** What the operation reports is no failure of this transaction: it runs a statement that another one refused to
      bind, or it is the Close of a Rows, which is passed through. */
  predicate PassesThrough(s: State, op: Op) {
    UsesCarried(s, op) || op.OpPlainClose?
  }

  /** The operation runs a statement that another transaction refused to bind. */
  predicate UsesCarried(s: State, op: Op) {
    && (op.OpExec? || op.OpQuery? || op.OpQueryRow?)
    && op.via.Through? && op.via.stmt < |s.bound| && s.bound[op.via.stmt].carried
  }

  lemma AnswerLatched(w: World, s: State, op: Op)
    requires Inv(s) && s.core.autoErr && !Finalizes(op)
    requires !Tolerable(Step(w, s, op).1)
    ensures Step(w, s, op).0.core.err.Some? || PassesThrough(s, op)
  {
    if IsPlain(op) {
      PlainAnswer(w, s, op);
    } else if IsRows(op) {
      RowsAnswer(w, s.core, op);
    } else if op.OpReadExec? || op.OpReadQuery? {
      ReadAnswer(w, s, op.r);
    } else if op.OpClose? {
      assert ResultOk(s, op.r);
      CloseAnswer(w, s, op.r);
    }
  }

  lemma PlainAnswer(w: World, s: State, op: Op)
    requires Inv(s) && s.core.autoErr && Enabled(s, op) && IsPlain(op)
    requires !Tolerable(StepPlain(w, s, op).1)
    ensures StepPlain(w, s, op).0.core.err.Some? || PassesThrough(s, op)
  {
    if (op.OpExec? || op.OpQuery? || op.OpQueryRow?) && op.via.Through? {
      assert BoundOk(s, s.bound[op.via.stmt]);
    }
  }

  lemma RowsAnswer(w: World, c: Core, op: Op)
    requires WellFormedCore(c) && c.autoErr && IsRows(op) && op.k < |c.rows|
    requires !Tolerable(StepRows(w, c, op).1)
    ensures StepRows(w, c, op).0.err.Some?
  {
    if op.OpRowScan? {
      RowScanAnswer(w, c, op.k, op.dest, op.raw);
    }
  }

  lemma RowScanAnswer(w: World, c: Core, k: nat, dest: Dest, raw: bool)
    requires WellFormedCore(c) && c.autoErr && k < |c.rows|
    requires var e := RowScan(w, c, k, dest, raw).1; e.Some? && !Exempt(e.value.root)
    ensures RowScan(w, c, k, dest, raw).0.err.Some?
  {
    if !c.rows[k].superseded {
      var (c1, more) := RowsNext(c, k);
      var (c2, e) := RowScanAfterNext(w, c1, k, more, dest, raw);
      assert e.Some? && !Exempt(e.value.root) ==> c2.err.Some?;
      CloseErrRecorded(c2, k);
    }
  }

  /** Closing rows records what it answers. */
  lemma CloseErrRecorded(c: Core, k: nat)
    requires WellFormedCore(c) && c.autoErr && k < |c.rows|
    ensures c.err.Some? || RowsCloseErr(c.rows[k]).Some? ==> RowsClose(c, k).err.Some?
  {
  }

  lemma StopAnswer(s: State, r: nat)
    requires Inv(s) && s.core.autoErr && r < |s.results|
    ensures var (s1, turn) := Advance(s, r); turn.Stop? && !Exempt(turn.err.root) ==> s1.core.err.Some?
  {
    AdvanceInv(s, r);
    if Advance(s, r).1.Stop? {
      assert ResultOk(Advance(s, r).0, r);
    }
  }

  lemma ReadAnswer(w: World, s: State, r: nat)
    requires Inv(s) && s.core.autoErr && r < |s.results|
    ensures !Tolerable(ReadExec(w, s, r).1) ==> ReadExec(w, s, r).0.core.err.Some?
    ensures !Tolerable(ReadQuery(w, s, r).1) ==> ReadQuery(w, s, r).0.core.err.Some?
  {
    StopAnswer(s, r);
    ReadInv(w, s, r);
    var (s1, turn) := Advance(s, r);
    if turn.Read? && !s1.results[r].pipelined {
      assert ResultOk(ReadExec(w, s, r).0, r);
    }
  }

  lemma CloseAnswer(w: World, s: State, r: nat)
    requires Inv(s) && r < |s.results| && !s.results[r].lost && s.core.autoErr
    requires CloseResults(w, s, r).1.Failed?
    ensures CloseResults(w, s, r).0.core.err.Some?
  {
    if s.results[r].closed {
      assert ResultOk(s, r);
    } else {
      ClosedReader(w, s, r);
      CloseInv(w, s, r);
      var s' := CloseResults(w, s, r).0;
      assert ResultOk(s', r);
    }
  }

  lemma ClosedReader(w: World, s: State, r: nat)
    requires WellFormed(s) && r < |s.results| && !s.results[r].closed
    requires CloseResults(w, s, r).1.Failed?
    ensures |CloseResults(w, s, r).0.results| == |s.results|
    ensures CloseResults(w, s, r).0.core.readers[r].err.Some?
    ensures CloseResults(w, s, r).0.core.autoErr == s.core.autoErr
  {
    var s1 := WithCore(s, Doomed(Supersede(s.core, r), r));
    var (s2, unwound) := FinishResults(w, s1, r);
    var c := Supersede(s2.core, r);
    assert LatchedReader(s2.core, c, s2.core.readers[r], c.readers[r]);
  }
}
