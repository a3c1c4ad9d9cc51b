/** Which error a transaction records: the one that the operation which recorded it shows. */
module FirstError {
  import opened Errors
  import opened Session
  import opened SessionSafety
  import opened Faults

  /** A failure is shown and recorded: it is the same failure. */
  predicate Told(c: Core, a: Answer) {
    a.Failed? && !Exempt(a.err.root) && c.err.Some? ==> a.err.root == c.err.value.root
  }

  /** The batch's failure is the transaction's. */
  predicate Joint(c: Core, r: nat) {
    && c.autoErr && r < |c.readers| && c.readers[r].err.Some? == c.err.Some?
    && (c.err.Some? ==> c.readers[r].err.value.root == c.err.value.root)
  }

  lemma FreshJoint(s: State, r: nat)
    requires Inv(s) && s.core.autoErr && s.core.err.None? && r < |s.results|
    ensures Joint(s.core, r)
  {
    assert ResultOk(s, r);
  }

  // ----- Rows of a batch -----

  lemma CloseJoint(c: Core, k: nat)
    requires WellFormedCore(c) && k < |c.rows| && Joint(c, c.rows[k].results)
    ensures Joint(RowsClose(c, k), c.rows[k].results)
    ensures c.err.None? ==> Told(RowsClose(c, k), AnswerOf(RowsCloseErr(c.rows[k])))
  {
  }

  lemma NextJoint(c: Core, k: nat)
    requires WellFormedCore(c) && k < |c.rows| && Joint(c, c.rows[k].results) && !c.rows[k].superseded
    ensures Joint(RowsNext(c, k).0, c.rows[k].results)
  {
  }

  lemma ScanTold(w: World, c: Core, k: nat, dest: Dest)
    requires WellFormedCore(c) && k < |c.rows| && Joint(c, c.rows[k].results) && c.err.None?
    ensures var (c', e) := RowsScan(w, c, k, dest);
      if e.None? then c' == c else c'.err.Some? && c'.err.value.root == e.value.root
  {
  }

  /** QueryRow's Scan: the error of the iteration, of the scan, or of the closing behind it. */
  lemma RowScanTold(w: World, c: Core, k: nat, dest: Dest, raw: bool)
    requires WellFormedCore(c) && k < |c.rows| && Joint(c, c.rows[k].results) && c.err.None?
    ensures var (c', e) := RowScan(w, c, k, dest, raw); e.Some? ==> Told(c', Failed(e.value))
  {
    if !c.rows[k].superseded {
      var (c1, more) := RowsNext(c, k);
      NextJoint(c, k);
      AfterNextTold(w, c, k, dest, raw);
      var (c2, e) := RowScanAfterNext(w, c1, k, more, dest, raw);
      if e.None? {
        CloseJoint(c2, k);
      }
    }
  }

  lemma AfterNextTold(w: World, c: Core, k: nat, dest: Dest, raw: bool)
    requires WellFormedCore(c) && k < |c.rows| && Joint(c, c.rows[k].results) && c.err.None? && !c.rows[k].superseded
    ensures var (c1, more) := RowsNext(c, k);
      var (c2, e) := RowScanAfterNext(w, c1, k, more, dest, raw);
      && (e.Some? ==> Told(c2, Failed(e.value)) && (c2.err.Some? || e.value.root == NoRows))
      && (e.None? ==> Joint(c2, c.rows[k].results) && c2.err.None? && c2.rows[k].results == c.rows[k].results)
  {
    var (c1, more) := RowsNext(c, k);
    NextJoint(c, k);
    if more && !raw {
      ScanTold(w, c1, k, dest);
    }
  }

  lemma RowsTold(w: World, c: Core, op: Op)
    requires WellFormedCore(c) && IsRows(op) && op.k < |c.rows| && Joint(c, c.rows[op.k].results) && c.err.None?
    ensures Told(StepRows(w, c, op).0, StepRows(w, c, op).1)
  {
    match op {
      case OpRowsNext(_) =>
      case OpRowsScan(k, dest) => ScanTold(w, c, k, dest);
      case OpRowsErr(_) =>
      case OpRowsClose(k) => CloseJoint(c, k);
      case OpRowScan(k, dest, raw) => RowScanTold(w, c, k, dest, raw);
    }
  }

  // ----- Plain statements -----

  lemma PlainTold(w: World, s: State, op: Op)
    requires WellFormed(s) && s.core.autoErr && s.core.err.None? && Enabled(s, op) && IsPlain(op)
    ensures Told(StepPlain(w, s, op).0.core, StepPlain(w, s, op).1)
  {
  }

  // ----- The results of a batch -----

  lemma FailJoint(c: Core, r: nat, e: Error)
    requires Joint(c, r)
    ensures Joint(FailWith(c, r, e).0, r)
    ensures c.err.None? ==> FailWith(c, r, e).0.err.value.root == e.root == FailWith(c, r, e).1.root
  {
  }

  lemma SupersedeJoint(c: Core, r: nat)
    requires WellFormedCore(c) && r < |c.readers| && Joint(c, r)
    ensures Joint(Doomed(Supersede(c, r), r), r)
  {
    if c.readers[r].open.Some? {
      var k := c.readers[r].open.value;
      var row := c.rows[k];
      var c1 := if row.closed || row.done then c else SetRow(c, k, row.(superseded := true));
      assert OpenIn(c, k, r);
      CloseJoint(c1, k);
    }
  }

  lemma AdvanceJoint(s: State, r: nat)
    requires WellFormed(s) && r < |s.results| && Joint(s.core, r)
    ensures var (s1, turn) := Advance(s, r);
      && (turn.Read? ==> Joint(s1.core, r) && s1.core.err.None?)
      && (turn.Stop? ==> Told(s1.core, Failed(turn.err)))
  {
    SupersedeJoint(s.core, r);
    if !s.results[r].closed {
      var c := Doomed(Supersede(s.core, r), r);
      var i := s.results[r].next;
      if c.readers[r].err.None? && i < |Items(s, r)| && s.results[r].pipelined && Items(s, r)[i].err.Some? {
        FailJoint(c, r, Items(s, r)[i].err.value);
      }
    }
  }

  /** The batch's own statement. */
  lemma RunItemJoint(w: World, s: State, r: nat, i: nat, whole: bool)
    requires WellFormed(s) && r < |s.results| && i < |Items(s, r)| && Joint(s.core, r) && s.core.err.None?
    ensures var (s1, ran) := RunItem(w, s, r, i, whole);
      Joint(s1.core, r) && (ran.Refused? ==> s1.core.err.Some? && s1.core.err.value.root == ran.err.root)
  {
  }

  lemma ReadTold(w: World, s: State, r: nat)
    requires WellFormed(s) && r < |s.results| && Joint(s.core, r)
    ensures Told(ReadExec(w, s, r).0.core, ReadExec(w, s, r).1)
    ensures Told(ReadQuery(w, s, r).0.core, ReadQuery(w, s, r).1)
  {
    AdvanceJoint(s, r);
    var (s1, turn) := Advance(s, r);
    if turn.Read? && !s1.results[r].pipelined {
      RunItemJoint(w, s1, r, turn.index, true);
      RunItemJoint(w, s1, r, turn.index, false);
    }
  }

  lemma {:induction false} RestJoint(w: World, s: State, r: nat)
    requires WellFormed(s) && r < |s.results| && Joint(s.core, r)
    ensures r < |RunRest(w, s, r).0.results| && Joint(RunRest(w, s, r).0.core, r)
    decreases |Items(s, r)| - s.results[r].next
  {
    var i := s.results[r].next;
    if s.core.readers[r].err.None? && i < |Items(s, r)| {
      RunItemJoint(w, Skip(s, r), r, i, true);
      var (s1, ran) := RunItem(w, Skip(s, r), r, i, true);
      if !ran.Unwound? {
        RestJoint(w, s1, r);
      }
    }
  }

  lemma CloseTold(w: World, s: State, r: nat)
    requires WellFormed(s) && r < |s.results| && Joint(s.core, r) && s.core.err.None?
    ensures Told(CloseResults(w, s, r).0.core, CloseResults(w, s, r).1)
  {
    if !s.results[r].closed {
      var s1 := WithCore(s, Doomed(Supersede(s.core, r), r));
      SupersedeJoint(s.core, r);
      if s1.results[r].pipelined {
        if FirstErr(Items(s1, r)).Some? {
          FailJoint(s1.core, r, FirstErr(Items(s1, r)).value);
        }
      } else {
        RestJoint(w, s1, r);
      }
      AbandonTold(FinishResults(w, s1, r).0, r);
    }
  }

  lemma AbandonTold(s: State, r: nat)
    requires WellFormed(s) && r < |s.results| && Joint(s.core, r)
    ensures s.core.err.Some? ==> Abandon(s, r).core.err == s.core.err
  {
  }

  // ----- Every operation, and runs -----

  /** The operation that records the transaction's error shows that error, if it shows a failure. */
  lemma StepTold(w: World, s: State, op: Op)
    requires Inv(s) && s.core.autoErr && s.core.err.None? && !Finalizes(op)
    ensures Told(Step(w, s, op).0.core, Step(w, s, op).1)
  {
    if Enabled(s, op) {
      if IsPlain(op) {
        PlainTold(w, s, op);
      } else if IsRows(op) {
        FreshJoint(s, s.core.rows[op.k].results);
        RowsTold(w, s.core, op);
      } else if op.OpReadExec? || op.OpReadQuery? {
        FreshJoint(s, op.r);
        ReadTold(w, s, op.r);
      } else if op.OpClose? {
        FreshJoint(s, op.r);
        CloseTold(w, s, op.r);
      }
    }
  }

  /** The error a run records is recorded by one operation, before which nothing was; if that operation showed the
      closure a failure, it is the one recorded. */
  lemma {:induction false} RecordedFirst(w: World, s: State, ops: seq<Op>) returns (i: nat)
    requires Inv(s) && s.core.autoErr && s.core.err.None? && !Finalized(ops) && Run(w, s, ops).0.core.err.Some?
    ensures i < |ops| && StateAt(w, s, ops, i).core.err.None?
    ensures StateAt(w, s, ops, i + 1).core.err == Run(w, s, ops).0.core.err
    ensures Told(Run(w, s, ops).0.core, Run(w, s, ops).1[i])
    decreases ops
  {
    var s1 := Step(w, s, ops[0]).0;
    FinalizedRest(ops);
    StepInv(w, s, ops[0]);
    StepAlive(w, s, ops[0]);
    RunStep(w, s, ops);
    AtStart(w, s, ops);
    AtNext(w, s, ops, 0);
    AtStart(w, s1, ops[1..]);
    if s1.core.err.Some? {
      i := 0;
      StepTold(w, s, ops[0]);
      DoomedRun(w, s1, ops[1..]);
    } else {
      i := RecordedFirst(w, s1, ops[1..]);
      AtNext(w, s, ops, i);
      AtNext(w, s, ops, i + 1);
      i := i + 1;
    }
  }

  // ----- Operations that record an error without showing it -----

  /** The error that ends rows when they are moved on. */
  function EndErr(c: Cursor): Option<Error> {
    if Ended(c) then c.pos.err else c.tail
  }

  /** What such an operation records. */
  ghost predicate Silent(s: State, op: Op, root: Root)
    requires WellFormed(s) && Enabled(s, op)
  {
    match op
    case OpQueue(_, _) => root == QueuedAfterSend
    case OpSend(b) =>
      root == if s.batches[b].sent then AlreadySent else if s.tx.open.Some? then BatchOpen else NamedArgument
    case OpBind(_, _) => root == BatchOpen
    case OpPlainNext(h) => EndErr(s.plain[h].cursor).Some? && root == EndErr(s.plain[h].cursor).value.root
    case OpRowsNext(k) =>
      if s.core.rows[k].superseded then root == Superseded
      else EndErr(s.core.rows[k].cursor).Some? && root == EndErr(s.core.rows[k].cursor).value.root
    case _ => true
  }

  lemma SilentTold(w: World, s: State, op: Op)
    requires Inv(s) && s.core.autoErr && s.core.err.None? && Enabled(s, op) && Step(w, s, op).0.core.err.Some?
    requires op.OpQueue? || op.OpSend? || op.OpBind? || op.OpPlainNext? || op.OpRowsNext?
    ensures Silent(s, op, Step(w, s, op).0.core.err.value.root)
  {
    match op {
      case OpQueue(_, _) =>
      case OpSend(b) => SendTold(w, s, b);
      case OpBind(_, _) =>
      case OpPlainNext(_) =>
      case OpRowsNext(k) => RowsNextTold(s.core, k);
    }
  }

  lemma SendTold(w: World, s: State, b: nat)
    requires WellFormed(s) && s.core.autoErr && s.core.err.None? && b < |s.batches|
    ensures var e := Send(w, s, b).0.core.err;
      var root := if s.batches[b].sent then AlreadySent else if s.tx.open.Some? then BatchOpen else NamedArgument;
      e.Some? ==> e.value.root == root
  {
  }

  lemma RowsNextTold(c: Core, k: nat)
    requires WellFormedCore(c) && c.autoErr && c.err.None? && k < |c.rows| && RowsNext(c, k).0.err.Some?
    ensures var root := RowsNext(c, k).0.err.value.root;
      if c.rows[k].superseded then root == Superseded
      else EndErr(c.rows[k].cursor).Some? && root == EndErr(c.rows[k].cursor).value.root
  {
  }
}
