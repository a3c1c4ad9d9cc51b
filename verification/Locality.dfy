/** Each object's operation in a session with any other objects is its operation in a session with no others: what it
    leaves behind is the same, seen from the object, and nothing else changed. */
module Locality {
  import opened Errors
  import opened Session
  import opened Steps

  // ----- A session as one object sees it -----

  /** The transaction, with any open results numbered 0. */
  function Here(tx: Tx): Tx {
    tx.(open := if tx.open.None? then None else Some(0))
  }

  /** The error latch, without readers and rows. */
  function Bare(c: Core): Core {
    c.(readers := [], rows := [])
  }

  function Home(row: BatchRows): BatchRows {
    row.(results := 0)
  }

  /** Results r alone, numbered 0, with some rows of theirs, and then the open ones. */
  function Focus(c: Core, r: nat, before: Option<nat>): (out: Core)
    requires WellFormedCore(c) && r < |c.readers| && (before.Some? ==> before.value < |c.rows|)
    ensures WellFormedCore(out) && |out.readers| == 1
  {
    var rows := if before.None? then [] else [Home(c.rows[before.value])];
    match c.readers[r].open
    case None => Core(c.autoErr, c.err, [Reader(c.readers[r].err, None)], rows)
    case Some(k) => Core(c.autoErr, c.err, [Reader(c.readers[r].err, Some(|rows|))], rows + [Home(c.rows[k])])
  }

  /** Nothing changed but the recorded error, results r, one row, and rows that are new. */
  ghost predicate OnlyAt(c: Core, c': Core, r: nat, before: Option<nat>) {
    && c' == c.(err := c'.err, readers := c'.readers, rows := c'.rows)
    && |c'.readers| == |c.readers| && |c.rows| <= |c'.rows|
    && (forall q :: 0 <= q < |c.readers| && q != r ==> c'.readers[q] == c.readers[q])
    && (forall k :: 0 <= k < |c.rows| && Some(k) != before ==> c'.rows[k] == c.rows[k])
  }

  lemma OnlyOn(a: Core, b: Core, c: Core, r: nat, before: Option<nat>)
    requires OnlyAt(a, b, r, before) && OnlyAt(b, c, r, before)
    ensures OnlyAt(a, c, r, before)
  {
  }

  lemma Only(a: Reader, b: Reader)
    ensures [a][0 := b] == [b]
  {
  }

  // ----- Failing -----

  lemma FailLocal(c: Core, r: nat, before: Option<nat>, e: Error)
    requires WellFormedCore(c) && r < |c.readers| && (before.Some? ==> before.value < |c.rows|)
    ensures var (c', kept) := FailWith(c, r, e);
      FailWith(Focus(c, r, before), 0, e) == (Focus(c', r, before), kept) && OnlyAt(c, c', r, before)
  {
    var reader := Focus(c, r, before).readers[0];
    Only(reader, reader);
    Only(reader, reader.(err := Some(FailWith(c, r, e).1)));
  }

  lemma DoomedLocal(c: Core, r: nat, before: Option<nat>)
    requires WellFormedCore(c) && r < |c.readers| && (before.Some? ==> before.value < |c.rows|)
    ensures Doomed(Focus(c, r, before), 0) == Focus(Doomed(c, r), r, before) && OnlyAt(c, Doomed(c, r), r, before)
  {
    if c.autoErr && c.err.Some? {
      FailLocal(c, r, before, c.err.value);
    }
  }

  // ----- Rows -----

  /** Rows k and the failure of their results. */
  function FocusRow(c: Core, k: nat): (out: Core)
    requires WellFormedCore(c) && k < |c.rows|
    ensures WellFormedCore(out) && |out.rows| == 1
  {
    Core(c.autoErr, c.err, [Reader(c.readers[c.rows[k].results].err, None)], [Home(c.rows[k])])
  }

  /** Nothing changed but the recorded error, rows k, and the failure of their results. */
  ghost predicate OnlyRow(c: Core, c': Core, k: nat) {
    && k < |c.rows| && c.rows[k].results < |c.readers|
    && var r := c.rows[k].results;
    && OnlyAt(c, c', r, Some(k)) && |c'.rows| == |c.rows|
    && c'.rows[k].results == r && c'.readers[r].open == c.readers[r].open
  }

  lemma OnlyRowOn(a: Core, b: Core, c: Core, k: nat)
    requires OnlyRow(a, b, k) && OnlyRow(b, c, k)
    ensures OnlyRow(a, c, k)
  {
    OnlyOn(a, b, c, a.rows[k].results, Some(k));
  }

  lemma RecordRow(c: Core, k: nat, e: Error)
    requires WellFormedCore(c) && k < |c.rows|
    ensures RecordErr(FocusRow(c, k), e) == FocusRow(RecordErr(c, e), k) && OnlyRow(c, RecordErr(c, e), k)
  {
  }

  lemma FailRow(c: Core, k: nat, e: Error)
    requires WellFormedCore(c) && k < |c.rows|
    ensures var (c', kept) := FailWith(c, c.rows[k].results, e);
      FailWith(FocusRow(c, k), 0, e) == (FocusRow(c', k), kept) && OnlyRow(c, c', k)
  {
    var r := c.rows[k].results;
    var reader := Reader(c.readers[r].err, None);
    Only(reader, reader);
    Only(reader, reader.(err := Some(FailWith(c, r, e).1)));
  }

  lemma FailSourceRow(c: Core, k: nat)
    requires WellFormedCore(c) && k < |c.rows|
    ensures FailSource(FocusRow(c, k), 0) == FocusRow(FailSource(c, k), k) && OnlyRow(c, FailSource(c, k), k)
  {
    var e := SourceErr(c.rows[k]);
    if e.Some? {
      RecordRow(c, k, e.value);
      FailRow(RecordErr(c, e.value), k, TraceErr(e.value));
      OnlyRowOn(c, RecordErr(c, e.value), FailSource(c, k), k);
    }
  }

  lemma SetRowLocal(c: Core, k: nat, row: BatchRows)
    requires WellFormedCore(c) && k < |c.rows| && row.results == c.rows[k].results
    ensures SetRow(FocusRow(c, k), 0, Home(row)) == FocusRow(SetRow(c, k, row), k) && OnlyRow(c, SetRow(c, k, row), k)
  {
    assert [Home(c.rows[k])][0 := Home(row)] == [Home(row)];
  }

  lemma RowsCloseLocal(c: Core, k: nat)
    requires WellFormedCore(c) && k < |c.rows|
    ensures RowsClose(FocusRow(c, k), 0) == FocusRow(RowsClose(c, k), k) && OnlyRow(c, RowsClose(c, k), k)
  {
    var row := c.rows[k];
    if !row.closed {
      var row' := row.(closed := true, cursor := CursorClose(row.cursor));
      SetRowLocal(c, k, row');
      FailSourceRow(SetRow(c, k, row'), k);
      OnlyRowOn(c, SetRow(c, k, row'), RowsClose(c, k), k);
    }
  }

  lemma RowsNextLocal(c: Core, k: nat)
    requires WellFormedCore(c) && k < |c.rows|
    ensures var (c', more) := RowsNext(c, k);
      RowsNext(FocusRow(c, k), 0) == (FocusRow(c', k), more) && OnlyRow(c, c', k)
  {
    var row := c.rows[k];
    if row.superseded {
      RecordRow(c, k, New(Superseded));
    } else if !row.closed {
      var (cursor, more) := CursorNext(row.cursor);
      var row' := row.(cursor := cursor, done := row.done || !more);
      SetRowLocal(c, k, row');
      if !more {
        FailSourceRow(SetRow(c, k, row'), k);
        OnlyRowOn(c, SetRow(c, k, row'), RowsNext(c, k).0, k);
      }
    }
  }

  lemma RowsScanLocal(w: World, c: Core, k: nat, dest: Dest)
    requires WellFormedCore(c) && k < |c.rows|
    ensures var (c', e) := RowsScan(w, c, k, dest);
      RowsScan(w, FocusRow(c, k), 0, dest) == (FocusRow(c', k), e) && OnlyRow(c, c', k)
  {
    var row := c.rows[k];
    var e := CursorScan(w, row.cursor, dest);
    if e.Some? {
      RecordRow(c, k, e.value);
      var (c1, e1) := if row.buffered then (c, e.value) else (RecordErr(c, e.value), TraceErr(e.value));
      FailRow(c1, k, e1);
      OnlyRowOn(c, c1, RowsScan(w, c, k, dest).0, k);
    }
  }

  lemma RowsErrLocal(c: Core, k: nat)
    requires WellFormedCore(c) && k < |c.rows|
    ensures var (c', e) := RowsErr(c, k); RowsErr(FocusRow(c, k), 0) == (FocusRow(c', k), e) && OnlyRow(c, c', k)
  {
    var e := SourceErr(c.rows[k]);
    RecordRow(c, k, if c.rows[k].superseded || e.None? then New(Superseded) else e.value);
  }

  lemma RowScanLocal(w: World, c: Core, k: nat, dest: Dest, raw: bool)
    requires WellFormedCore(c) && k < |c.rows|
    ensures var (c', e) := RowScan(w, c, k, dest, raw);
      RowScan(w, FocusRow(c, k), 0, dest, raw) == (FocusRow(c', k), e) && OnlyRow(c, c', k)
  {
    if c.rows[k].superseded {
      RecordRow(c, k, New(Superseded));
    } else {
      RowsNextLocal(c, k);
      var (c1, more) := RowsNext(c, k);
      AfterNextLocal(w, c1, k, more, dest, raw);
      var c2 := RowScanAfterNext(w, c1, k, more, dest, raw).0;
      RowsCloseLocal(c2, k);
      OnlyRowOn(c, c1, c2, k);
      OnlyRowOn(c, c2, RowsClose(c2, k), k);
    }
  }

  lemma AfterNextLocal(w: World, c: Core, k: nat, more: bool, dest: Dest, raw: bool)
    requires WellFormedCore(c) && k < |c.rows|
    ensures var (c', e) := RowScanAfterNext(w, c, k, more, dest, raw);
      RowScanAfterNext(w, FocusRow(c, k), 0, more, dest, raw) == (FocusRow(c', k), e) && OnlyRow(c, c', k)
  {
    if !more {
      RowsErrLocal(c, k);
    } else if raw {
      FailRow(c, k, New(RawBytes));
    } else {
      RowsScanLocal(w, c, k, dest);
    }
  }

  /** What the methods of BatchRows do to these rows, they do in any session, and nothing else happens. */
  lemma RowsRelocate(w: World, c: Core, op: Op)
    requires WellFormedCore(c) && IsRows(op) && op.k < |c.rows|
    ensures var (c', a) := StepRows(w, c, op);
      StepRows(w, FocusRow(c, op.k), op.(k := 0)) == (FocusRow(c', op.k), a) && OnlyRow(c, c', op.k)
  {
    match op {
      case OpRowsNext(k) => RowsNextLocal(c, k);
      case OpRowsScan(k, dest) => RowsScanLocal(w, c, k, dest);
      case OpRowsErr(k) => RowsErrLocal(c, k);
      case OpRowsClose(k) => RowsCloseLocal(c, k);
      case OpRowScan(k, dest, raw) => RowScanLocal(w, c, k, dest, raw);
    }
  }

  // ----- Results -----

  lemma SupersedeNone(c: Core, r: nat)
    requires WellFormedCore(c) && r < |c.readers| && c.readers[r].open.None?
    ensures Supersede(c, r) == c
  {
  }

  /** Rows that are about to be closed by a read. */
  function Marked(c: Core, k: nat): Core
    requires k < |c.rows|
  {
    if c.rows[k].closed || c.rows[k].done then c else SetRow(c, k, c.rows[k].(superseded := true))
  }

  lemma SupersedeIs(c: Core, r: nat, k: nat)
    requires WellFormedCore(c) && r < |c.readers| && c.readers[r].open == Some(k)
    ensures WellFormedCore(Marked(c, k)) && Supersede(c, r) == SetOpen(RowsClose(Marked(c, k), k), r, None)
  {
  }

  lemma MarkedLocal(c: Core, r: nat, k: nat)
    requires WellFormedCore(c) && r < |c.readers| && c.readers[r].open == Some(k)
    ensures var c1 := Marked(c, k);
      && WellFormedCore(c1) && OnlyAt(c, c1, r, Some(k)) && |c1.rows| == |c.rows| && c1.rows[k].results == r
      && c1 == c.(rows := c1.rows) && c1.rows == c.rows[k := c1.rows[k]]
      && Marked(Focus(c, r, None), 0) == Focus(c, r, None).(rows := [Home(c1.rows[k])])
  {
    var row := c.rows[k];
    assert c.rows[k := row] == c.rows;
    assert [Home(row)][0 := Home(row.(superseded := true))] == [Home(row.(superseded := true))];
  }

  lemma ClosedLocal(c: Core, r: nat, k: nat)
    requires WellFormedCore(c) && r < |c.readers| && c.readers[r].open == Some(k)
    ensures var c' := SetOpen(RowsClose(c, k), r, None); |c'.rows| == |c.rows| && OnlyAt(c, c', r, Some(k))
  {
    RowsCloseLocal(c, k);
    OnlyOn(c, RowsClose(c, k), SetOpen(RowsClose(c, k), r, None), r, Some(k));
  }

  /** The rows a read closes are its results' own. */
  lemma SupersedeLocal(c: Core, r: nat)
    requires WellFormedCore(c) && r < |c.readers|
    ensures var before, c' := c.readers[r].open, Supersede(c, r);
      |c'.rows| == |c.rows| && c'.readers[r].open.None?
      && Supersede(Focus(c, r, None), 0) == Focus(c', r, before) && OnlyAt(c, c', r, before)
  {
    if c.readers[r].open.Some? {
      var k := c.readers[r].open.value;
      var c1 := Marked(c, k);
      SupersedeIs(c, r, k);
      SupersedeIs(Focus(c, r, None), 0, 0);
      MarkedLocal(c, r, k);
      RowsCloseLocal(c1, k);
      CloseInFocus(c, r, k, c1);
      ClosedLocal(c1, r, k);
      OnlyOn(c, c1, Supersede(c, r), r, Some(k));
    }
  }

  /** Results with their open rows, closing them. */
  lemma CloseInFocus(c: Core, r: nat, k: nat, c1: Core)
    requires WellFormedCore(c) && r < |c.readers| && c.readers[r].open == Some(k)
    requires c1 == c.(rows := c1.rows) && WellFormedCore(c1) && |c1.rows| == |c.rows| && c1.rows[k].results == r
    requires c1.rows == c.rows[k := c1.rows[k]]
    requires RowsClose(FocusRow(c1, k), 0) == FocusRow(RowsClose(c1, k), k) && OnlyRow(c1, RowsClose(c1, k), k)
    ensures var open := Focus(c, r, None).(rows := [Home(c1.rows[k])]);
      SetOpen(RowsClose(open, 0), 0, None) == Focus(SetOpen(RowsClose(c1, k), r, None), r, Some(k))
  {
    var open := Focus(c, r, None).(rows := [Home(c1.rows[k])]);
    var row := FocusRow(c1, k);
    CloseReads(open, row);
  }

  /** Closing rows does not look at which rows are open. */
  lemma CloseReads(c: Core, d: Core)
    requires WellFormedCore(c) && WellFormedCore(d) && |c.readers| == 1 && |d.readers| == 1 && |c.rows| == 1
    requires d == c.(readers := [c.readers[0].(open := None)])
    ensures var (c', d') := (RowsClose(c, 0), RowsClose(d, 0));
      |d'.readers| == 1 && |c'.readers| == 1 && c' == d'.(readers := [d'.readers[0].(open := c.readers[0].open)])
  {
    var row := c.rows[0];
    if !row.closed {
      var row' := row.(closed := true, cursor := CursorClose(row.cursor));
      FailSourceReads(SetRow(c, 0, row'), SetRow(d, 0, row'));
    }
  }

  lemma FailSourceReads(c: Core, d: Core)
    requires WellFormedCore(c) && WellFormedCore(d) && |c.readers| == 1 && |d.readers| == 1 && |c.rows| == 1
    requires d == c.(readers := [c.readers[0].(open := None)])
    ensures var (c', d') := (FailSource(c, 0), FailSource(d, 0));
      |d'.readers| == 1 && |c'.readers| == 1 && c' == d'.(readers := [d'.readers[0].(open := c.readers[0].open)])
  {
    var e := SourceErr(c.rows[0]);
    if e.Some? {
      FailReads(RecordErr(c, e.value), RecordErr(d, e.value), TraceErr(e.value));
    }
  }

  lemma FailReads(c: Core, d: Core, e: Error)
    requires |c.readers| == 1 && |d.readers| == 1 && d == c.(readers := [c.readers[0].(open := None)])
    ensures var (c', d') := (FailWith(c, 0, e).0, FailWith(d, 0, e).0);
      |d'.readers| == 1 && |c'.readers| == 1 && c' == d'.(readers := [d'.readers[0].(open := c.readers[0].open)])
  {
  }

  lemma TurnLocal(c: Core, r: nat, res: Results, items: seq<Item>, before: Option<nat>)
    requires WellFormedCore(c) && r < |c.readers| && (before.Some? ==> before.value < |c.rows|)
    ensures var (c', next, turn) := TurnAt(c, r, res, items);
      && WellFormedCore(c') && |c'.rows| == |c.rows| && c'.readers[r].open == c.readers[r].open
      && TurnAt(Focus(c, r, before), 0, res, items) == (Focus(c', r, before), next, turn) && OnlyAt(c, c', r, before)
  {
    if c.readers[r].err.None? && res.next < |items| && res.pipelined && items[res.next].err.Some? {
      FailLocal(c, r, before, items[res.next].err.value);
    }
  }

  lemma AdvanceLocal(c: Core, r: nat, res: Results, items: seq<Item>)
    requires WellFormedCore(c) && r < |c.readers|
    ensures var before, (c', next, turn) := c.readers[r].open, AdvanceAt(c, r, res, items);
      && WellFormedCore(c') && |c'.rows| == |c.rows| && c'.readers[r].open.None?
      && AdvanceAt(Focus(c, r, None), 0, res, items) == (Focus(c', r, before), next, turn) && OnlyAt(c, c', r, before)
  {
    var before, c1 := c.readers[r].open, Supersede(c, r);
    SupersedeLocal(c, r);
    if !res.closed {
      DoomedLocal(c1, r, before);
      TurnLocal(Doomed(c1, r), r, res, items, before);
      OnlyOn(c, c1, Doomed(c1, r), r, before);
      OnlyOn(c, Doomed(c1, r), TurnAt(Doomed(c1, r), r, res, items).0, r, before);
    }
  }

  lemma RunOnly(w: World, c: Core, tx: Tx, r: nat, b: nat, items: seq<Item>, i: nat, before: Option<nat>,
                 whole: bool)
    requires WellFormedCore(c) && r < |c.readers| && (before.Some? ==> before.value < |c.rows|) && i < |items|
    ensures var (c', tx', ran) := RunAt(w, c, tx, r, b, items, i, whole);
      && WellFormedCore(c') && |c'.rows| == |c.rows| && c'.readers[r].open == c.readers[r].open
      && OnlyAt(c, c', r, before) && tx' == tx.(executing := false, log := tx'.log)
  {
    RunLocal(w, c, tx, r, b, items, i, before, whole);
  }

  /** Running a statement of the batch. */
  lemma RunLocal(w: World, c: Core, tx: Tx, r: nat, b: nat, items: seq<Item>, i: nat, before: Option<nat>,
                 whole: bool)
    requires WellFormedCore(c) && r < |c.readers| && (before.Some? ==> before.value < |c.rows|) && i < |items|
    ensures var (c', tx', ran) := RunAt(w, c, tx, r, b, items, i, whole);
      && WellFormedCore(c') && |c'.rows| == |c.rows| && c'.readers[r].open == c.readers[r].open
      && RunAt(w, Focus(c, r, before), Here(tx), 0, b, items, i, whole) == (Focus(c', r, before), Here(tx'), ran)
      && OnlyAt(c, c', r, before) && tx' == tx.(executing := false, log := tx'.log)
  {
    var stmt, origin, running := items[i].stmt, FromBatch(b, i), tx.(executing := true);
    var c0 := Focus(c, r, before);
    IssueReads(w, c, c.(readers := c0.readers, rows := c0.rows), running, Here(running), stmt, origin, whole);
    var (c1, tx1, ran) := Issue(w, c, running, stmt, origin, whole);
    FocusErr(c, r, before, c1.err);
    FailRanLocal(c1, r, ran, before);
    OnlyOn(c, c1, FailRan(c1, r, ran).0, r, before);
  }

  lemma FocusErr(c: Core, r: nat, before: Option<nat>, err: Option<Error>)
    requires WellFormedCore(c) && r < |c.readers| && (before.Some? ==> before.value < |c.rows|)
    ensures var c' := c.(err := err);
      WellFormedCore(c') && Focus(c', r, before) == Focus(c, r, before).(err := err) && OnlyAt(c, c', r, before)
  {
  }

  lemma FailRanLocal(c: Core, r: nat, ran: Ran, before: Option<nat>)
    requires WellFormedCore(c) && r < |c.readers| && (before.Some? ==> before.value < |c.rows|)
    ensures var (c', ran') := FailRan(c, r, ran);
      && c'.readers[r].open == c.readers[r].open && OnlyAt(c, c', r, before)
      && FailRan(Focus(c, r, before), 0, ran) == (Focus(c', r, before), ran')
  {
    if ran.Unwound? {
      FailLocal(c, r, before, New(StatementPanic));
    } else if ran.Refused? {
      FailLocal(c, r, before, ran.err);
    }
  }

  lemma RestUnfolds(w: World, c: Core, tx: Tx, r: nat, b: nat, items: seq<Item>, next: nat)
    requires r < |c.readers| && next < |items| && c.readers[r].err.None?
    ensures var (c1, tx1, ran) := RunAt(w, c, tx, r, b, items, next, true);
      RestAt(w, c, tx, r, b, items, next) ==
        if ran.Unwound? then (c1, tx1, next + 1, true) else RestAt(w, c1, tx1, r, b, items, next + 1)
  {
  }

  /** Running the rest keeps to the results. */
  lemma {:induction false} RestOnly(w: World, c: Core, tx: Tx, r: nat, b: nat, items: seq<Item>, next: nat,
                                    before: Option<nat>)
    requires WellFormedCore(c) && r < |c.readers| && (before.Some? ==> before.value < |c.rows|)
    ensures var (c', tx', next', unwound) := RestAt(w, c, tx, r, b, items, next);
      && WellFormedCore(c') && |c'.rows| == |c.rows| && c'.readers[r].open == c.readers[r].open
      && OnlyAt(c, c', r, before) && tx' == tx.(executing := tx'.executing, log := tx'.log)
    decreases |items| - next
  {
    if c.readers[r].err.None? && next < |items| {
      RunOnly(w, c, tx, r, b, items, next, before, true);
      var (c1, tx1, ran) := RunAt(w, c, tx, r, b, items, next, true);
      RestUnfolds(w, c, tx, r, b, items, next);
      if !ran.Unwound? {
        RestOnly(w, c1, tx1, r, b, items, next + 1, before);
        OnlyOn(c, c1, RestAt(w, c1, tx1, r, b, items, next + 1).0, r, before);
      }
    }
  }

  lemma {:induction false} RestLocal(w: World, c: Core, tx: Tx, r: nat, b: nat, items: seq<Item>, next: nat,
                                     before: Option<nat>)
    requires WellFormedCore(c) && r < |c.readers| && (before.Some? ==> before.value < |c.rows|)
    ensures var (c', tx', next', unwound) := RestAt(w, c, tx, r, b, items, next);
      && WellFormedCore(c') && |c'.rows| == |c.rows|
      && RestAt(w, Focus(c, r, before), Here(tx), 0, b, items, next) ==
           (Focus(c', r, before), Here(tx'), next', unwound)
    decreases |items| - next
  {
    RestOnly(w, c, tx, r, b, items, next, before);
    if c.readers[r].err.None? && next < |items| {
      RunLocal(w, c, tx, r, b, items, next, before, true);
      var (c1, tx1, ran) := RunAt(w, c, tx, r, b, items, next, true);
      RestUnfolds(w, c, tx, r, b, items, next);
      RestUnfolds(w, Focus(c, r, before), Here(tx), 0, b, items, next);
      if !ran.Unwound? {
        RestLocal(w, c1, tx1, r, b, items, next + 1, before);
      }
    }
  }

  lemma FinishLocal(w: World, c: Core, tx: Tx, r: nat, res: Results, items: seq<Item>, before: Option<nat>)
    requires WellFormedCore(c) && r < |c.readers| && (before.Some? ==> before.value < |c.rows|)
    ensures var (c', tx', next', unwound) := FinishAt(w, c, tx, r, res, items);
      && WellFormedCore(c') && |c'.rows| == |c.rows| && c'.readers[r].open == c.readers[r].open
      && FinishAt(w, Focus(c, r, before), Here(tx), 0, res, items) == (Focus(c', r, before), Here(tx'), next', unwound)
      && OnlyAt(c, c', r, before) && tx' == tx.(executing := tx'.executing, log := tx'.log)
  {
    if !res.pipelined {
      RestOnly(w, c, tx, r, res.batch, items, res.next, before);
      RestLocal(w, c, tx, r, res.batch, items, res.next, before);
    } else if FirstErr(items).Some? {
      FailLocal(c, r, before, FirstErr(items).value);
    }
  }

  // ----- Reads and closes in a whole session -----

  /** Only results r of a session moved, and only the log of its transaction. */
  ghost predicate OnlyResults(s: State, s': State, r: nat) {
    && r < |s.results| == |s'.results| && r < |s.core.readers|
    && s' == s.(core := s'.core, tx := s'.tx, results := s.results[r := s'.results[r]])
    && s'.results[r] == s.results[r].(next := s'.results[r].next, closed := s'.results[r].closed)
    && OnlyAt(s.core, s'.core, r, s.core.readers[r].open)
  }

  lemma ExecLocal(w: World, c: Core, tx: Tx, r: nat, res: Results, items: seq<Item>)
    requires WellFormedCore(c) && r < |c.readers|
    ensures var before, (c', tx', next, a) := c.readers[r].open, ExecAt(w, c, tx, r, res, items);
      && WellFormedCore(c') && |c'.rows| == |c.rows|
      && ExecAt(w, Focus(c, r, None), Here(tx), 0, res, items) == (Focus(c', r, before), Here(tx'), next, a)
      && OnlyAt(c, c', r, before)
  {
    AdvanceLocal(c, r, res, items);
    var (c1, next, turn) := AdvanceAt(c, r, res, items);
    if turn.Read? && !res.pipelined {
      RunLocal(w, c1, tx, r, res.batch, items, turn.index, c.readers[r].open, true);
      OnlyOn(c, c1, RunAt(w, c1, tx, r, res.batch, items, turn.index, true).0, r, c.readers[r].open);
    }
  }

  /** BatchResults.Exec in any session. */
  lemma ExecRelocates(w: World, s: State, r: nat)
    requires WellFormed(s) && r < |s.results|
    ensures var before, (s', a) := s.core.readers[r].open, ReadExec(w, s, r);
      && OnlyResults(s, s', r) && |s'.core.rows| == |s.core.rows|
      && ExecAt(w, Focus(s.core, r, None), Here(s.tx), 0, s.results[r], Items(s, r)) ==
           (Focus(s'.core, r, before), Here(s'.tx), s'.results[r].next, a)
  {
    ExecSteps(w, s, r);
    ExecLocal(w, s.core, s.tx, r, s.results[r], Items(s, r));
  }

  lemma OpenedLocal(c: Core, r: nat, before: Option<nat>, cursor: Cursor, buffered: bool)
    requires WellFormedCore(c) && r < |c.readers| && (before.Some? ==> before.value < |c.rows|)
    requires c.readers[r].open.None?
    ensures var c' := OpenedAt(c, r, cursor, buffered);
      && WellFormedCore(c') && OnlyAt(c, c', r, before)
      && OpenedAt(Focus(c, r, before), 0, cursor, buffered) == Focus(c', r, before)
      && |c'.rows| == |c.rows| + 1 && |Focus(c, r, before).rows| == (if before.None? then 0 else 1)
  {
    Only(Focus(c, r, before).readers[0], Reader(c.readers[r].err, Some(|Focus(c, r, before).rows|)));
  }

  /** The number of new rows, in a session with the rows read before and no others. */
  function HandleHere(a: Answer, before: Option<nat>): Answer {
    if a.Handle? then Handle(if before.None? then 0 else 1) else a
  }

  lemma QueryTurnLocal(w: World, c: Core, tx: Tx, r: nat, pipelined: bool, b: nat, items: seq<Item>, turn: Turn,
                       before: Option<nat>)
    requires WellFormedCore(c) && r < |c.readers| && (turn.Read? ==> turn.index < |items|)
    requires (before.Some? ==> before.value < |c.rows|) && c.readers[r].open.None?
    ensures var (c', tx', a) := QueryTurn(w, c, tx, r, pipelined, b, items, turn);
      && WellFormedCore(c') && |c.rows| <= |c'.rows| && OnlyAt(c, c', r, before)
      && QueryTurn(w, Focus(c, r, before), Here(tx), 0, pipelined, b, items, turn) ==
           (Focus(c', r, before), Here(tx'), HandleHere(a, before))
  {
    if turn.Read? {
      if pipelined {
        OpenedLocal(c, r, before, Buffered(items[turn.index].rows), true);
      } else {
        RunLocal(w, c, tx, r, b, items, turn.index, before, false);
        var (c1, tx1, ran) := RunAt(w, c, tx, r, b, items, turn.index, false);
        if ran.Succeeded? {
          OpenedLocal(c1, r, before, ran.cursor, false);
          OnlyOn(c, c1, OpenedAt(c1, r, ran.cursor, false), r, before);
        }
      }
    }
  }

  /** BatchResults.Query in any session. */
  lemma QueryRelocates(w: World, s: State, r: nat)
    requires WellFormed(s) && r < |s.results|
    ensures var before, (s', a) := s.core.readers[r].open, ReadQuery(w, s, r);
      && OnlyResults(s, s', r)
      && QueryAt(w, Focus(s.core, r, None), Here(s.tx), 0, s.results[r], Items(s, r)) ==
           (Focus(s'.core, r, before), Here(s'.tx), s'.results[r].next, HandleHere(a, before))
  {
    var c, res, items, before := s.core, s.results[r], Items(s, r), s.core.readers[r].open;
    QuerySteps(w, s, r);
    AdvanceLocal(c, r, res, items);
    var (c1, next, turn) := AdvanceAt(c, r, res, items);
    QueryTurnLocal(w, c1, s.tx, r, res.pipelined, res.batch, items, turn, before);
    OnlyOn(c, c1, QueryTurn(w, c1, s.tx, r, res.pipelined, res.batch, items, turn).0, r, before);
  }

  lemma CloseLocal(w: World, c: Core, tx: Tx, r: nat, res: Results, items: seq<Item>)
    requires WellFormedCore(c) && r < |c.readers|
    ensures var before, (c', tx', next, a) := c.readers[r].open, CloseAt(w, c, tx, r, res, items);
      && WellFormedCore(c') && |c'.rows| == |c.rows| && OnlyAt(c, c', r, before)
      && ClosedAt(w, Focus(c, r, None), Here(tx), res, items) ==
           (Focus(c', r, before), tx'.log, tx'.executing, next, a)
      && tx' == tx.(log := tx'.log, executing := tx'.executing, open := if tx.open == Some(r) then None else tx.open)
  {
    var before, c1 := c.readers[r].open, Supersede(c, r);
    SupersedeLocal(c, r);
    DoomedLocal(c1, r, before);
    OnlyOn(c, c1, Doomed(c1, r), r, before);
    var c2 := Doomed(c1, r);
    FinishLocal(w, c2, tx, r, res, items, before);
    var c3 := FinishAt(w, c2, tx, r, res, items).0;
    OnlyOn(c, c2, c3, r, before);
    SupersedeNone(c3, r);
    SupersedeNone(Focus(c3, r, before), 0);
  }

  /** BatchResults.Close in any session. */
  lemma CloseRelocates(w: World, s: State, r: nat)
    requires WellFormed(s) && r < |s.results| && !s.results[r].closed
    ensures var before, (s', a) := s.core.readers[r].open, CloseResults(w, s, r);
      && OnlyResults(s, s', r) && |s'.core.rows| == |s.core.rows| && s'.results[r].closed
      && ClosedAt(w, Focus(s.core, r, None), Here(s.tx), s.results[r], Items(s, r)) ==
           (Focus(s'.core, r, before), s'.tx.log, s'.tx.executing, s'.results[r].next, a)
      && s'.tx == s.tx.(log := s'.tx.log, executing := s'.tx.executing,
                        open := if s.tx.open == Some(r) then None else s.tx.open)
  {
    CloseSteps(w, s, r);
    CloseLocal(w, s.core, s.tx, r, s.results[r], Items(s, r));
  }

  // ----- Batches and the transaction -----

  /** A session with batch b and nothing else. */
  function FocusBatch(s: State, b: nat): State
    requires b < |s.batches|
  {
    State(Bare(s.core), Here(s.tx), [s.batches[b]], [], [], [])
  }

  /** Batch.Queue in any session. */
  lemma QueueRelocates(s: State, b: nat, stmt: Stmt)
    requires b < |s.batches|
    ensures var s' := Queue(s, b, stmt);
      && |s'.batches| == |s.batches| && Queue(FocusBatch(s, b), 0, stmt) == FocusBatch(s', b)
      && s' == s.(core := s.core.(err := s'.core.err), batches := s.batches[b := s'.batches[b]],
                  tx := s.tx.(unsent := s'.tx.unsent, misuse := s'.tx.misuse))
  {
    assert [s.batches[b]][0 := Queue(s, b, stmt).batches[b]] == [Queue(s, b, stmt).batches[b]];
    assert s.batches[b := s.batches[b]] == s.batches;
  }

  /** The results of a Send are the last reader; every reader before them and every row is as it was. */
  ghost predicate OnlyNew(c: Core, c': Core) {
    && |c'.readers| == |c.readers| + 1 && c'.readers == c.readers + [c'.readers[|c.readers|]]
    && c' == c.(err := c'.err, readers := c'.readers) && c'.readers[|c.readers|].open.None?
  }

  /** What a Send gives, seen from its results. */
  function NewHere(c: Core): Core
    requires c.readers != []
  {
    Bare(c).(readers := [c.readers[|c.readers| - 1]])
  }

  lemma NewFailLocal(c: Core, reader: Reader, e: Error)
    requires reader.open.None?
    ensures var c1 := c.(readers := c.readers + [reader]);
      var c' := FailWith(c1, |c.readers|, e).0;
      && OnlyNew(c, c')
      && FailWith(Bare(c).(readers := [reader]), 0, e).0 == NewHere(c')
  {
    Only(reader, reader);
    Only(reader, reader.(err := Some(FailWith(c.(readers := c.readers + [reader]), |c.readers|, e).1)));
  }

  lemma SendItemsLocal(w: World, c: Core, tx: Tx, b: nat, batch: Batch, res: Results)
    ensures var c1 := c.(readers := c.readers + [Reader(None, None)]);
      var (c', tx', batch', res', unwound) := SendItemsAt(w, c1, tx, b, batch, res);
      && OnlyNew(c, c')
      && SendItemsAt(w, Bare(c).(readers := [Reader(None, None)]), Here(tx), b, batch, res) ==
           (NewHere(c'), Here(tx'), batch', res', unwound)
  {
    if HasNamed(batch.items) {
      NewFailLocal(c, Reader(None, None), New(NamedArgument));
    } else {
      PipelineReads(w, tx, Here(tx), b, batch.items);
      assert OnlyNew(c, c.(readers := c.readers + [Reader(None, None)]));
    }
  }

  lemma ShortHere(c: Core, tx: Tx)
    ensures var (c', e) := ShortCircuit(c, tx);
      ShortCircuit(Bare(c), Here(tx)) == (Bare(c'), e) && c' == c.(err := c'.err)
  {
  }

  lemma RefusedSendLocal(w: World, c: Core, tx: Tx, b: nat, batch: Batch, tx1: Tx)
    requires !batch.sent && tx1 == (if batch.items == [] then tx else tx.(unsent := tx.unsent - 1))
    requires ShortCircuit(c, tx1).1.Some?
    ensures var (c', tx', batch', res, unwound) := SendAt(w, c, tx, b, batch);
      && OnlyNew(c, c')
      && SendAt(w, Bare(c), Here(tx), b, batch) == (NewHere(c'), Here(tx'), batch', res, unwound)
  {
    ShortHere(c, tx1);
    var refusal := ShortCircuit(c, tx1).1;
    assert [] + [Reader(refusal, None)] == [Reader(refusal, None)];
  }

  lemma FreeSendUnfolds(w: World, c: Core, tx: Tx, b: nat, batch: Batch, tx1: Tx)
    requires !batch.sent && tx1 == (if batch.items == [] then tx else tx.(unsent := tx.unsent - 1))
    requires ShortCircuit(c, tx1).1.None?
    ensures SendAt(w, c, tx, b, batch) ==
      SendItemsAt(w, c.(readers := c.readers + [Reader(None, None)]), tx1, b, batch.(sent := true),
                  Results(b, 0, false, false, false))
  {
  }

  lemma FreeSendLocal(w: World, c: Core, tx: Tx, b: nat, batch: Batch, tx1: Tx)
    requires !batch.sent && tx1 == (if batch.items == [] then tx else tx.(unsent := tx.unsent - 1))
    requires ShortCircuit(c, tx1).1.None?
    ensures var (c', tx', batch', res, unwound) := SendAt(w, c, tx, b, batch);
      && OnlyNew(c, c')
      && SendAt(w, Bare(c), Here(tx), b, batch) == (NewHere(c'), Here(tx'), batch', res, unwound)
  {
    ShortHere(c, tx1);
    FreeSendUnfolds(w, c, tx, b, batch, tx1);
    FreeSendUnfolds(w, Bare(c), Here(tx), b, batch, Here(tx1));
    assert [] + [Reader(None, None)] == [Reader(None, None)];
    SendItemsLocal(w, c, tx1, b, batch.(sent := true), Results(b, 0, false, false, false));
  }

  lemma SendLocal(w: World, c: Core, tx: Tx, b: nat, batch: Batch)
    ensures var (c', tx', batch', res, unwound) := SendAt(w, c, tx, b, batch);
      && OnlyNew(c, c')
      && SendAt(w, Bare(c), Here(tx), b, batch) == (NewHere(c'), Here(tx'), batch', res, unwound)
  {
    if batch.sent {
      NewFailLocal(c, Reader(None, None), New(AlreadySent));
      assert Bare(c).readers + [Reader(None, None)] == [Reader(None, None)];
    } else {
      var tx1 := if batch.items == [] then tx else tx.(unsent := tx.unsent - 1);
      if ShortCircuit(c, tx1).1.Some? {
        RefusedSendLocal(w, c, tx, b, batch, tx1);
      } else {
        FreeSendLocal(w, c, tx, b, batch, tx1);
      }
    }
  }

  /** Batch.Send in any session. */
  lemma SendRelocates(w: World, s: State, b: nat)
    requires WellFormed(s) && b < |s.batches|
    ensures var (s', r) := (Send(w, s, b).0, |s.results|);
      && |s'.results| == r + 1 && |s'.batches| == |s.batches|
      && OnlyNew(s.core, s'.core)
      && SendAt(w, Bare(s.core), Here(s.tx), b, s.batches[b]) ==
           (NewHere(s'.core), Here(s'.tx), s'.batches[b], s'.results[r], Send(w, s, b).1.Panicked?)
      && s' == s.(core := s'.core, tx := s'.tx, batches := s.batches[b := s'.batches[b]],
                  results := s.results + [s'.results[r]])
  {
    SendSteps(w, s, b);
    SendLocal(w, s.core, s.tx, b, s.batches[b]);
  }

  /** Tx.Rollback in any session: the open results end, and no others. */
  lemma RollbackRelocates(s: State, fault: Option<Error>)
    requires WellFormed(s)
    ensures var (s', e) := RollbackTx(s, fault);
      && (s'.tx, e) == Finalize(s.tx.(open := None), Rollback, Reached(fault))
      && (s.tx.open.None? ==> s' == s.(tx := s'.tx))
      && (s.tx.open.Some? ==>
            var r := s.tx.open.value;
            && OnlyResults(s, s', r) && s'.results[r] == s.results[r].(closed := true)
            && |s'.core.rows| == |s.core.rows|
            && Focus(s'.core, r, s.core.readers[r].open) == Supersede(Focus(s.core, r, None), 0))
  {
    if s.tx.open.Some? {
      SupersedeLocal(s.core, s.tx.open.value);
    }
  }

  // ----- Statements outside batches -----

  /** A session with a Rows or a Row, and one with a bound statement, and nothing else. */
  function FocusPlain(s: State, h: nat): State
    requires h < |s.plain|
  {
    State(Bare(s.core), Here(s.tx), [], [], [s.plain[h]], [])
  }

  function FocusBound(s: State, h: nat): State
    requires h < |s.bound|
  {
    State(Bare(s.core), Here(s.tx), [], [], [], [s.bound[h]])
  }

  lemma OnlyPlain(a: Plain, b: Plain)
    ensures [a][0 := b] == [b]
  {
  }

  /** The methods of Rows and Row in any session. */
  lemma PlainRelocates(w: World, s: State, h: nat, dest: Dest)
    requires h < |s.plain|
    ensures var (s', a) := PlainScan(w, s, h, dest);
      && |s'.plain| == |s.plain| && PlainScan(w, FocusPlain(s, h), 0, dest) == (FocusPlain(s', h), a)
      && s' == s.(core := s.core.(err := s'.core.err), plain := s.plain[h := s'.plain[h]])
    ensures var (s', a) := PlainErr(s, h);
      PlainErr(FocusPlain(s, h), 0) == (FocusPlain(s', h), a) && s' == s.(core := s.core.(err := s'.core.err))
    ensures s.plain[h].PlainRows? ==>
      var (s', a) := PlainClose(s, h);
      && |s'.plain| == |s.plain| && PlainClose(FocusPlain(s, h), 0) == (FocusPlain(s', h), a)
      && s' == s.(plain := s.plain[h := s'.plain[h]])
    ensures s.plain[h].PlainRows? ==>
      var (s', a) := PlainNext(s, h);
      && |s'.plain| == |s.plain| && PlainNext(FocusPlain(s, h), 0) == (FocusPlain(s', h), a)
      && s' == s.(core := s.core.(err := s'.core.err), plain := s.plain[h := s'.plain[h]])
  {
    OnlyPlain(s.plain[h], Consumed(s.plain[h]));
    if s.plain[h].PlainRows? {
      OnlyPlain(s.plain[h], PlainRows(CursorNext(s.plain[h].cursor).0));
      OnlyPlain(s.plain[h], PlainRows(CursorClose(s.plain[h].cursor)));
    }
  }

  /** A statement that ran outside batches changed the recorded error and the log. */
  ghost predicate OnlyRan(s: State, s': State) {
    s' == s.(core := s.core.(err := s'.core.err), tx := s.tx.(log := s'.tx.log), plain := s'.plain)
  }

  lemma IssueBare(w: World, c: Core, tx: Tx, stmt: Stmt, origin: Origin, whole: bool)
    ensures var (c', tx', ran) := Issue(w, c, tx, stmt, origin, whole);
      && Issue(w, Bare(c), Here(tx), stmt, origin, whole) == (Bare(c'), Here(tx'), ran)
      && c' == c.(err := c'.err) && tx' == tx.(log := tx'.log)
  {
    IssueReads(w, c, Bare(c), tx, Here(tx), stmt, origin, whole);
  }

  /** Stmt.Exec in any session. */
  lemma StmtExecRelocates(w: World, s: State, h: nat, stmt: Stmt)
    requires h < |s.bound|
    ensures var (s', a) := TxExec(w, s, stmt, Through(h));
      TxExec(w, FocusBound(s, h), stmt, Through(0)) == (FocusBound(s', h), a) && OnlyRan(s, s') && s'.plain == s.plain
  {
    IssueBare(w, s.core, s.tx, s.bound[h].stmt, Direct, true);
  }

  /** Stmt.Query in any session: the rows are new, if there are any. */
  lemma StmtQueryRelocates(w: World, s: State, h: nat, stmt: Stmt)
    requires h < |s.bound|
    ensures var (s', a) := TxQuery(w, s, stmt, Through(h));
      && OnlyRan(s, s') && s.plain <= s'.plain
      && TxQuery(w, FocusBound(s, h), stmt, Through(0)) ==
           (FocusBound(s', h).(plain := s'.plain[|s.plain|..]), if a.Handle? then Handle(0) else a)
  {
    IssueBare(w, s.core, s.tx, s.bound[h].stmt, Direct, false);
    assert s.plain[|s.plain|..] == [];
    var s' := TxQuery(w, s, stmt, Through(h)).0;
    assert |s'.plain| > |s.plain| ==> s'.plain[|s.plain|..] == [] + [s'.plain[|s.plain|]];
  }

  /** Stmt.QueryRow in any session. */
  lemma StmtQueryRowRelocates(w: World, s: State, h: nat, stmt: Stmt)
    requires h < |s.bound|
    ensures var (s', a) := TxQueryRow(w, s, stmt, Through(h));
      && OnlyRan(s, s') && s.plain <= s'.plain
      && TxQueryRow(w, FocusBound(s, h), stmt, Through(0)) ==
           (FocusBound(s', h).(plain := s'.plain[|s.plain|..]), if a.Handle? then Handle(0) else a)
  {
    ExecuteReads(w, s.tx, Here(s.tx), s.bound[h].stmt, Direct, false);
    assert s.plain[|s.plain|..] == [];
    if BindingErr(s, Through(h)).None? && ShortCircuit(s.core, s.tx).1.None? {
      RowRelocates(w, s, h);
    }
  }

  lemma RowRelocates(w: World, s: State, h: nat)
    requires h < |s.bound| && s.bound[h].err.None? && ShortCircuit(s.core, s.tx).1.None?
    ensures var st := s.bound[h].stmt;
      var (s', a) := TxQueryRow(w, s, st, Through(h));
      && OnlyRan(s, s') && s.plain <= s'.plain
      && TxQueryRow(w, FocusBound(s, h), st, Through(0)) ==
           (FocusBound(s', h).(plain := s'.plain[|s.plain|..]), if a.Handle? then Handle(0) else a)
  {
    var st := s.bound[h].stmt;
    ExecuteReads(w, s.tx, Here(s.tx), st, Direct, false);
    ShortHere(s.core, s.tx);
    NewPlain(s.plain, RowOf(Execute(w, s.tx, st, Direct, false).1));
  }

  /** The Row an execution gives. */
  function RowOf(ran: Ran): Plain {
    match ran
    case Succeeded(_, cursor) => PlainRow(cursor)
    case Refused(e) => FailedRow(e)
    case Unwound => FailedRow(New(StatementPanic))
  }

  lemma NewPlain(plain: seq<Plain>, p: Plain)
    ensures (plain + [p])[|plain|..] == [] + [p] && plain[|plain|..] == []
  {
  }

  /** Tx.PrepareContext and Tx.StmtContext in any session: the statement is new, if there is one. */
  lemma BindRelocates(s: State, stmt: Stmt, err: Option<Error>)
    ensures var empty, (s', a) := State(Bare(s.core), Here(s.tx), [], [], [], []), Prepare(s, stmt, err);
      && s' == s.(core := s.core.(err := s'.core.err), bound := s'.bound) && s.bound <= s'.bound
      && Prepare(empty, stmt, err) ==
           (empty.(core := Bare(s'.core), bound := s'.bound[|s.bound|..]), if a.Handle? then Handle(0) else a)
    ensures var empty, (s', a) := State(Bare(s.core), Here(s.tx), [], [], [], []), BindStmt(s, stmt, err);
      && s' == s.(core := s.core.(err := s'.core.err), bound := s'.bound) && s.bound <= s'.bound
      && BindStmt(empty, stmt, err) == (empty.(core := Bare(s'.core), bound := s'.bound[|s.bound|..]), Handle(0))
  {
    assert s.bound[|s.bound|..] == [];
    var p, b := Prepare(s, stmt, err).0, BindStmt(s, stmt, err).0;
    assert |p.bound| > |s.bound| ==> p.bound[|s.bound|..] == [] + [p.bound[|s.bound|]];
    assert |b.bound| > |s.bound| ==> b.bound[|s.bound|..] == [] + [b.bound[|s.bound|]];
  }
}
