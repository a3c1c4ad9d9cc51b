/** The steps of the protocol on the parts of the state they touch: the transaction, one batch, its results and its
    rows. Each lemma shows that the whole machine takes the same step and leaves the rest as it is. */
module Steps {
  import opened Errors
  import opened Session

  function AdvanceAt(c: Core, r: nat, res: Results, items: seq<Item>): (out: (Core, nat, Turn))
    requires WellFormedCore(c) && r < |c.readers|
    ensures |out.0.readers| == |c.readers| && (out.2.Read? ==> out.2.index < |items|)
  {
    var c1 := Supersede(c, r);
    if res.closed then (c1, res.next, Stop(New(ResultsClosed))) else TurnAt(Doomed(c1, r), r, res, items)
  }

  function TurnAt(c: Core, r: nat, res: Results, items: seq<Item>): (out: (Core, nat, Turn))
    requires r < |c.readers|
    ensures |out.0.readers| == |c.readers| && (out.2.Read? ==> out.2.index < |items|)
  {
    var i := res.next;
    if c.readers[r].err.Some? then (c, i + 1, Stop(c.readers[r].err.value))
    else if i >= |items| then (c, i, Stop(New(NoMoreResults)))
    else if res.pipelined && items[i].err.Some? then
      var (c1, e) := FailWith(c, r, items[i].err.value);
      (c1, i + 1, Stop(e))
    else (c, i + 1, Read(i))
  }

  function RunAt(w: World, c: Core, tx: Tx, r: nat, b: nat, items: seq<Item>, i: nat, whole: bool)
    : (out: (Core, Tx, Ran))
    requires r < |c.readers| && i < |items|
    ensures |out.0.readers| == |c.readers| && (WellFormedCore(c) ==> WellFormedCore(out.0))
  {
    var (c1, tx1, ran) := Issue(w, c, tx.(executing := true), items[i].stmt, FromBatch(b, i), whole);
    var (c2, ran2) := FailRan(c1, r, ran);
    (c2, tx1.(executing := false), ran2)
  }

  function ExecAt(w: World, c: Core, tx: Tx, r: nat, res: Results, items: seq<Item>): (Core, Tx, nat, Answer)
    requires WellFormedCore(c) && r < |c.readers|
  {
    var (c1, next, turn) := AdvanceAt(c, r, res, items);
    var (c2, tx2, a) := ExecTurn(w, c1, tx, r, res.pipelined, res.batch, items, turn);
    (c2, tx2, next, a)
  }

  function ExecTurn(w: World, c: Core, tx: Tx, r: nat, pipelined: bool, b: nat, items: seq<Item>, turn: Turn)
    : (Core, Tx, Answer)
    requires r < |c.readers| && (turn.Read? ==> turn.index < |items|)
  {
    match turn
    case Stop(e) => (c, tx, Failed(e))
    case Read(i) =>
      if pipelined then (c, tx, Affected(items[i].affected))
      else
        var (c1, tx1, ran) := RunAt(w, c, tx, r, b, items, i, true);
        (c1, tx1, ExecAnswer(ran))
  }

  /** New rows, the open ones of their results. */
  function OpenedAt(c: Core, r: nat, cursor: Cursor, buffered: bool): Core
    requires r < |c.readers|
  {
    c.(rows := c.rows + [BatchRows(cursor, r, buffered, false, false, false)],
       readers := c.readers[r := c.readers[r].(open := Some(|c.rows|))])
  }

  function QueryAt(w: World, c: Core, tx: Tx, r: nat, res: Results, items: seq<Item>): (Core, Tx, nat, Answer)
    requires WellFormedCore(c) && r < |c.readers|
  {
    var (c1, next, turn) := AdvanceAt(c, r, res, items);
    var (c2, tx2, a) := QueryTurn(w, c1, tx, r, res.pipelined, res.batch, items, turn);
    (c2, tx2, next, a)
  }

  function QueryTurn(w: World, c: Core, tx: Tx, r: nat, pipelined: bool, b: nat, items: seq<Item>, turn: Turn)
    : (Core, Tx, Answer)
    requires r < |c.readers| && (turn.Read? ==> turn.index < |items|)
  {
    match turn
    case Stop(e) => (c, tx, Failed(e))
    case Read(i) =>
      if pipelined then (OpenedAt(c, r, Buffered(items[i].rows), true), tx, Handle(|c.rows|))
      else
        var (c1, tx1, ran) := RunAt(w, c, tx, r, b, items, i, false);
        if ran.Succeeded? then (OpenedAt(c1, r, ran.cursor, false), tx1, Handle(|c1.rows|))
        else (c1, tx1, ExecAnswer(ran))
  }

  function RestAt(w: World, c: Core, tx: Tx, r: nat, b: nat, items: seq<Item>, next: nat): (out: (Core, Tx, nat, bool))
    requires r < |c.readers|
    ensures |out.0.readers| == |c.readers| && (WellFormedCore(c) ==> WellFormedCore(out.0))
    decreases |items| - next
  {
    if c.readers[r].err.Some? || next >= |items| then (c, tx, next, false)
    else
      var (c1, tx1, ran) := RunAt(w, c, tx, r, b, items, next, true);
      if ran.Unwound? then (c1, tx1, next + 1, true) else RestAt(w, c1, tx1, r, b, items, next + 1)
  }

  function FinishAt(w: World, c: Core, tx: Tx, r: nat, res: Results, items: seq<Item>): (out: (Core, Tx, nat, bool))
    requires r < |c.readers|
    ensures |out.0.readers| == |c.readers| && (WellFormedCore(c) ==> WellFormedCore(out.0))
  {
    if res.pipelined then (FailOpt(c, r, FirstErr(items)), tx, res.next, false)
    else RestAt(w, c, tx, r, res.batch, items, res.next)
  }

  /** The results stop being the open ones. */
  function Released(tx: Tx, r: nat): Tx {
    if tx.open == Some(r) then tx.(open := None) else tx
  }

  /** Close of results that are not closed. */
  function CloseAt(w: World, c: Core, tx: Tx, r: nat, res: Results, items: seq<Item>): (Core, Tx, nat, Answer)
    requires WellFormedCore(c) && r < |c.readers|
  {
    var (c1, tx1, next, unwound) := FinishAt(w, Doomed(Supersede(c, r), r), tx, r, res, items);
    (Supersede(c1, r), Released(tx1, r), next, if unwound then Panicked else AnswerOf(c1.readers[r].err))
  }

  /** The same for the only results there are, up to which results are open. */
  ghost function ClosedAt(w: World, c: Core, tx: Tx, res: Results, items: seq<Item>)
    : (Core, seq<Entry>, bool, nat, Answer)
    requires WellFormedCore(c) && |c.readers| == 1
  {
    RestClosedAt(w, Supersede(c, 0), tx, res, items)
  }

  ghost function RestClosedAt(w: World, c: Core, tx: Tx, res: Results, items: seq<Item>)
    : (Core, seq<Entry>, bool, nat, Answer)
    requires WellFormedCore(c) && |c.readers| == 1
  {
    var (c1, tx1, next, unwound) := FinishAt(w, Doomed(c, 0), tx, 0, res, items);
    (Supersede(c1, 0), tx1.log, tx1.executing, next, if unwound then Panicked else AnswerOf(c1.readers[0].err))
  }

  /** Send: its results are the next reader. The flag tells whether it unwound. */
  function SendAt(w: World, c: Core, tx: Tx, b: nat, batch: Batch): (Core, Tx, Batch, Results, bool) {
    var (r, res) := (|c.readers|, Results(b, 0, false, false, false));
    var c1 := c.(readers := c.readers + [Reader(None, None)]);
    if batch.sent then (FailWith(c1, r, New(AlreadySent)).0, tx, batch, res, false)
    else
      var tx1 := if batch.items == [] then tx else tx.(unsent := tx.unsent - 1);
      var (c2, refusal) := ShortCircuit(c, tx1);
      if refusal.Some? then
        (c2.(readers := c2.readers + [Reader(refusal, None)]), tx1, batch.(sent := true), res, false)
      else SendItemsAt(w, c1, tx1, b, batch.(sent := true), res)
  }

  function SendItemsAt(w: World, c: Core, tx: Tx, b: nat, batch: Batch, res: Results): (Core, Tx, Batch, Results, bool)
    requires c.readers != []
  {
    var r := |c.readers| - 1;
    if HasNamed(batch.items) then (FailWith(c, r, New(NamedArgument)).0, tx, batch, res, false)
    else if batch.items == [] then (c, tx, batch, res, false)
    else if !tx.conn then (c, tx.(open := Some(r)), batch, res, false)
    else
      var p := Pipeline(w, tx, b, batch.items);
      (c, tx.(open := Some(r), log := p.log), batch.(items := p.items), res.(pipelined := true, lost := p.unwound),
       p.unwound)
  }

  predicate HasNamed(items: seq<Item>) {
    exists i :: 0 <= i < |items| && items[i].stmt.named
  }

  // ----- Running and failing do not look at rows -----

  lemma TurnRows(c: Core, r: nat, res: Results, items: seq<Item>, rows: seq<BatchRows>)
    requires r < |c.readers|
    ensures Doomed(c.(rows := rows), r) == Doomed(c, r).(rows := rows)
    ensures var (c1, next, turn) := TurnAt(c, r, res, items);
      TurnAt(c.(rows := rows), r, res, items) == (c1.(rows := rows), next, turn)
  {
  }

  lemma ExecuteReads(w: World, tx: Tx, u: Tx, stmt: Stmt, origin: Origin, whole: bool)
    requires u == tx.(open := u.open)
    ensures var (tx', ran) := Execute(w, tx, stmt, origin, whole);
      Execute(w, u, stmt, origin, whole) == (tx'.(open := u.open), ran) && tx' == tx.(log := tx'.log)
  {
  }

  /** Issuing a statement looks at the recorded error and at whether results are open, and at nothing else of a core. */
  lemma IssueReads(w: World, c: Core, d: Core, tx: Tx, u: Tx, stmt: Stmt, origin: Origin, whole: bool)
    requires d == c.(readers := d.readers, rows := d.rows) && u == tx.(open := u.open) && u.open.Some? == tx.open.Some?
    ensures var (c', tx', ran) := Issue(w, c, tx, stmt, origin, whole);
      && Issue(w, d, u, stmt, origin, whole) == (d.(err := c'.err), tx'.(open := u.open), ran)
      && c' == c.(err := c'.err) && tx' == tx.(log := tx'.log)
  {
    ExecuteReads(w, tx, u, stmt, origin, whole);
  }

  lemma FailRanRows(c: Core, r: nat, ran: Ran, rows: seq<BatchRows>)
    requires r < |c.readers|
    ensures var (c1, ran1) := FailRan(c, r, ran); FailRan(c.(rows := rows), r, ran) == (c1.(rows := rows), ran1)
  {
  }

  lemma RunRows(w: World, c: Core, tx: Tx, r: nat, b: nat, items: seq<Item>, i: nat, rows: seq<BatchRows>, whole: bool)
    requires r < |c.readers| && i < |items|
    ensures var (c1, tx1, ran) := RunAt(w, c, tx, r, b, items, i, whole);
      RunAt(w, c.(rows := rows), tx, r, b, items, i, whole) == (c1.(rows := rows), tx1, ran)
  {
    var running := tx.(executing := true);
    IssueReads(w, c, c.(rows := rows), running, running, items[i].stmt, FromBatch(b, i), whole);
    var (c1, tx1, ran) := Issue(w, c, running, items[i].stmt, FromBatch(b, i), whole);
    FailRanRows(c1, r, ran, rows);
  }

  lemma {:induction false} RestRows(w: World, c: Core, tx: Tx, r: nat, b: nat, items: seq<Item>, next: nat,
                                    rows: seq<BatchRows>)
    requires r < |c.readers|
    ensures var (c1, tx1, next1, unwound) := RestAt(w, c, tx, r, b, items, next);
      RestAt(w, c.(rows := rows), tx, r, b, items, next) == (c1.(rows := rows), tx1, next1, unwound)
    decreases |items| - next
  {
    if c.readers[r].err.None? && next < |items| {
      RunRows(w, c, tx, r, b, items, next, rows, true);
      var (c1, tx1, ran) := RunAt(w, c, tx, r, b, items, next, true);
      if !ran.Unwound? {
        RestRows(w, c1, tx1, r, b, items, next + 1, rows);
      }
    }
  }

  lemma FinishRows(w: World, c: Core, tx: Tx, r: nat, res: Results, items: seq<Item>, rows: seq<BatchRows>)
    requires r < |c.readers|
    ensures var (c1, tx1, next, unwound) := FinishAt(w, c, tx, r, res, items);
      FinishAt(w, c.(rows := rows), tx, r, res, items) == (c1.(rows := rows), tx1, next, unwound)
  {
    if !res.pipelined {
      RestRows(w, c, tx, r, res.batch, items, res.next, rows);
    }
  }

  /** A pipeline reads the log and whether the transaction ended. */
  lemma PipelineReads(w: World, tx: Tx, tx': Tx, b: nat, items: seq<Item>)
    requires tx'.log == tx.log && tx'.ended == tx.ended
    ensures Pipeline(w, tx', b, items) == Pipeline(w, tx, b, items)
  {
  }

  // ----- The machine takes these steps -----

  function WithNext(s: State, r: nat, next: nat): State
    requires r < |s.results|
  {
    s.(results := s.results[r := s.results[r].(next := next)])
  }

  lemma AdvanceSteps(s: State, r: nat)
    requires WellFormed(s) && r < |s.results|
    ensures var (c, next, turn) := AdvanceAt(s.core, r, s.results[r], Items(s, r));
      Advance(s, r) == (WithCore(WithNext(s, r, next), c), turn)
  {
    assert WithNext(s, r, s.results[r].next) == s;
  }

  lemma RunSteps(w: World, s: State, r: nat, i: nat, whole: bool)
    requires WellFormed(s) && r < |s.results| && i < |Items(s, r)|
    ensures var (c, tx, ran) := RunAt(w, s.core, s.tx, r, s.results[r].batch, Items(s, r), i, whole);
      RunItem(w, s, r, i, whole) == (s.(core := c, tx := tx), ran)
  {
  }

  lemma ExecSteps(w: World, s: State, r: nat)
    requires WellFormed(s) && r < |s.results|
    ensures var (c, tx, next, a) := ExecAt(w, s.core, s.tx, r, s.results[r], Items(s, r));
      ReadExec(w, s, r) == (WithNext(s, r, next).(core := c, tx := tx), a)
  {
    AdvanceSteps(s, r);
    var (s1, turn) := Advance(s, r);
    if turn.Read? && !s1.results[r].pipelined {
      RunSteps(w, s1, r, turn.index, true);
    }
  }

  lemma QuerySteps(w: World, s: State, r: nat)
    requires WellFormed(s) && r < |s.results|
    ensures var (c, tx, next, a) := QueryAt(w, s.core, s.tx, r, s.results[r], Items(s, r));
      ReadQuery(w, s, r) == (WithNext(s, r, next).(core := c, tx := tx), a)
  {
    AdvanceSteps(s, r);
    var (s1, turn) := Advance(s, r);
    if turn.Read? && !s1.results[r].pipelined {
      RunSteps(w, s1, r, turn.index, false);
    }
  }

  lemma {:induction false} RestSteps(w: World, s: State, r: nat)
    requires WellFormed(s) && r < |s.results|
    ensures var (c, tx, next, unwound) :=
      RestAt(w, s.core, s.tx, r, s.results[r].batch, Items(s, r), s.results[r].next);
      RunRest(w, s, r) == (WithNext(s, r, next).(core := c, tx := tx), unwound)
    decreases |Items(s, r)| - s.results[r].next
  {
    var i := s.results[r].next;
    if s.core.readers[r].err.Some? || i >= |Items(s, r)| {
      assert WithNext(s, r, i) == s;
    } else {
      var s1 := RunItem(w, Skip(s, r), r, i, true).0;
      RunSteps(w, Skip(s, r), r, i, true);
      SameBut(s, r, s1);
      if !RunItem(w, Skip(s, r), r, i, true).1.Unwound? {
        RestSteps(w, s1, r);
      }
    }
  }

  /** Where a statement left off, only the next one, the errors and the transaction are new. */
  lemma SameBut(s: State, r: nat, s1: State)
    requires WellFormed(s) && r < |s.results| && s1 == Skip(s, r).(core := s1.core, tx := s1.tx)
    ensures s1.results[r] == s.results[r].(next := s.results[r].next + 1) && s1.batches == s.batches
    ensures forall next, c, tx ::
      WithNext(s1, r, next).(core := c, tx := tx) == WithNext(s, r, next).(core := c, tx := tx)
    ensures s1 == WithNext(s, r, s.results[r].next + 1).(core := s1.core, tx := s1.tx)
  {
    assert forall next :: s1.results[r := s1.results[r].(next := next)] == s.results[r := s.results[r].(next := next)];
  }

  lemma AbandonSteps(s: State, s1: State, r: nat)
    requires WellFormed(s1) && r < |s.results| && r < |s1.results|
    requires s1 == WithNext(s, r, s1.results[r].next).(core := s1.core, tx := s1.tx)
    ensures Abandon(s1, r) == s.(core := Supersede(s1.core, r), tx := Released(s1.tx, r),
      results := s.results[r := s.results[r].(next := s1.results[r].next, closed := true)])
  {
  }

  lemma CloseSteps(w: World, s: State, r: nat)
    requires WellFormed(s) && r < |s.results| && !s.results[r].closed
    ensures var (c, tx, next, a) := CloseAt(w, s.core, s.tx, r, s.results[r], Items(s, r));
      CloseResults(w, s, r) ==
        (s.(core := c, tx := tx, results := s.results[r := s.results[r].(next := next, closed := true)]), a)
  {
    var s1 := WithCore(s, Doomed(Supersede(s.core, r), r));
    FinishSteps(w, s1, r);
    AbandonSteps(s, FinishResults(w, s1, r).0, r);
  }

  lemma FinishSteps(w: World, s: State, r: nat)
    requires WellFormed(s) && r < |s.results|
    ensures var (c, tx, next, unwound) := FinishAt(w, s.core, s.tx, r, s.results[r], Items(s, r));
      FinishResults(w, s, r) == (WithNext(s, r, next).(core := c, tx := tx), unwound)
  {
    if s.results[r].pipelined {
      assert WithNext(s, r, s.results[r].next) == s;
    } else {
      RestSteps(w, s, r);
    }
  }

  lemma SendItemsSteps(w: World, s: State, b: nat, r: nat)
    requires WellFormed(s) && b < |s.batches| && r == |s.results| - 1
    ensures var (c, tx, batch, res, unwound) := SendItemsAt(w, s.core, s.tx, b, s.batches[b], s.results[r]);
      SendItems(w, s, b, r) ==
        (s.(core := c, tx := tx, batches := s.batches[b := batch], results := s.results[r := res]),
         if unwound then Panicked else Handle(r))
  {
    assert s.batches[b := s.batches[b]] == s.batches && s.results[r := s.results[r]] == s.results;
  }

  lemma SendSteps(w: World, s: State, b: nat)
    requires WellFormed(s) && b < |s.batches|
    ensures var (c, tx, batch, res, unwound) := SendAt(w, s.core, s.tx, b, s.batches[b]);
      Send(w, s, b) ==
        (s.(core := c, tx := tx, batches := s.batches[b := batch], results := s.results + [res]),
         if unwound then Panicked else Handle(|s.results|))
  {
    var batch, r := s.batches[b], |s.results|;
    if batch.sent {
      assert s.batches[b := batch] == s.batches;
    } else {
      var s1 := s.(tx := if batch.items == [] then s.tx else s.tx.(unsent := s.tx.unsent - 1),
                   batches := s.batches[b := batch.(sent := true)]);
      if ShortCircuit(s1.core, s1.tx).1.None? {
        var s2 := AddResults(s1, b, None);
        SendItemsSteps(w, s2, b, r);
        var (c, tx, sent, res, unwound) := SendItemsAt(w, s2.core, s2.tx, b, s2.batches[b], s2.results[r]);
        assert s2.results[r := res] == s.results + [res] && s2.batches[b := sent] == s.batches[b := sent];
      }
    }
  }
}
