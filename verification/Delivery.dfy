/** What queries deliver: the rows the server gave, each once and in order, and the outcomes of a batch's statements in
    queue order, told from the answers of whole runs. */
module Delivery {
  import opened Errors
  import opened Session
  import opened SessionSafety
  import opened Faults
  import Outcomes

  // ----- A reader of rows, by how often it was moved on -----

  /** Where rows are after n calls of Next. */
  function PosAfter(n: nat, rows: seq<Row>, tail: Option<Error>): Pos {
    if n == 0 then Before else if n <= |rows| then At(n - 1) else Over(tail)
  }

  predicate MovedTo(c: Cursor, n: nat, rows: seq<Row>, tail: Option<Error>, rest: Option<Error>) {
    c == Cursor(rows, PosAfter(n, rows, tail), tail, rest)
  }

  /** Scan behind the n-th Next: the n-th row, or the error of scanning it, or there is none. */
  predicate GivesRow(w: World, rows: seq<Row>, n: nat, dest: Dest, a: Answer) {
    if 1 <= n <= |rows| then
      if w.scan(rows[n - 1], dest).None? then a == Scanned(rows[n - 1])
      else a.Failed? && a.err.root == w.scan(rows[n - 1], dest).value.root
    else a.Failed? && a.err.root == ScanWithoutRow
  }

  /** Err behind the n-th Next: the error behind the rows, once the rows were read. */
  predicate GivesErr(rows: seq<Row>, tail: Option<Error>, n: nat, a: Answer) {
    if n > |rows| && tail.Some? then a.Failed? && a.err.root == tail.value.root else a == Done
  }

  /** Scan of a Row, behind the first row's errors of reading, scanning and closing; NoRows without a row. */
  predicate GivesFirst(w: World, rows: seq<Row>, tail: Option<Error>, rest: Option<Error>, dest: Dest, a: Answer) {
    if rows == [] then a.Failed? && a.err.root == if tail.Some? then tail.value.root else NoRows
    else if w.scan(rows[0], dest).Some? then a.Failed? && a.err.root == w.scan(rows[0], dest).value.root
    else if rest.Some? then a.Failed? && a.err.root == rest.value.root
    else a == Scanned(rows[0])
  }

  lemma MovesOnce(c: Cursor, n: nat, rows: seq<Row>, tail: Option<Error>, rest: Option<Error>)
    requires MovedTo(c, n, rows, tail, rest)
    ensures CursorNext(c).1 == (n < |rows|) && MovedTo(CursorNext(c).0, n + 1, rows, tail, rest)
  {
  }

  lemma FirstGives(w: World, rows: seq<Row>, tail: Option<Error>, rest: Option<Error>, dest: Dest)
    ensures GivesFirst(w, rows, tail, rest, dest, PlainScanAnswer(w, PlainRow(Cursor(rows, Before, tail, rest)), dest))
  {
  }

  // ----- Answers along a script -----

  /** How much the operations of a script move on. */
  function Moves(weigh: Op -> nat, ops: seq<Op>): nat {
    if ops == [] then 0 else weigh(ops[0]) + Moves(weigh, ops[1..])
  }

  function Once(op: Op): Op -> nat {
    (o: Op) => if o == op then 1 else 0
  }

  /** How many operations of a script are this one. */
  function Count(ops: seq<Op>, op: Op): nat {
    Moves(Once(op), ops)
  }

  /** Every operation that is allowed moves the state on by its weight, and each answers by how far it was moved. */
  ghost predicate Answers(step: (State, Op) -> (State, Answer), at: (State, nat) -> bool, allowed: Op -> bool,
                          weigh: Op -> nat, told: (Op, nat, Answer) -> bool)
  {
    forall s, n: nat, op {:trigger at(s, n), step(s, op)} ::
      at(s, n) ==> told(op, n, step(s, op).1) && (allowed(op) ==> at(step(s, op).0, n + weigh(op)))
  }

  /** Then the i-th operation of a script does, by what came before it. */
  lemma {:induction false} AnswersAlong(step: (State, Op) -> (State, Answer), at: (State, nat) -> bool,
                                        allowed: Op -> bool, weigh: Op -> nat, told: (Op, nat, Answer) -> bool,
                                        s: State, n: nat, ops: seq<Op>, i: nat, m: nat, a: Answer)
    requires Answers(step, at, allowed, weigh, told)
    requires at(s, n) && i < |ops| && forall j :: 0 <= j < i ==> allowed(ops[j])
    requires m == n + Moves(weigh, ops[..i]) && a == Fold(step, s, ops).1[i]
    ensures told(ops[i], m, a)
    decreases i
  {
    if i > 0 {
      assert allowed(ops[0]);
      assert ops[..i][1..] == ops[1..][..i - 1];
      AnswersAlong(step, at, allowed, weigh, told, step(s, ops[0]).0, n + weigh(ops[0]), ops[1..], i - 1, m, a);
    }
  }

  lemma AnswerFirst(w: World, s: State, ops: seq<Op>)
    requires WellFormed(s) && ops != []
    ensures Run(w, s, ops).1[0] == Step(w, s, ops[0]).1
  {
    RunStep(w, s, ops);
  }

  lemma AnswerLater(w: World, s: State, ops: seq<Op>, i: nat)
    requires WellFormed(s) && i + 1 < |ops|
    ensures Run(w, s, ops).1[i + 1] == Run(w, Step(w, s, ops[0]).0, ops[1..]).1[i]
  {
    RunStep(w, s, ops);
  }

  // ----- Rows of a plain query -----

  /** The plain rows h were moved on n times, and not closed. */
  predicate RowsAt(s: State, h: nat, n: nat, rows: seq<Row>, tail: Option<Error>, rest: Option<Error>) {
    h < |s.plain| && s.plain[h].PlainRows? && MovedTo(s.plain[h].cursor, n, rows, tail, rest)
  }

  /** An operation that is not the Next or the Close of some rows, nor the Scan of a Row, leaves them. */
  lemma PlainLeft(w: World, s: State, op: Op, h: nat)
    requires WellFormed(s) && h < |s.plain| && op != OpPlainNext(h) && op != OpPlainClose(h) && !Finalizes(op)
    requires s.plain[h].PlainRow? ==> !(op.OpPlainScan? && op.h == h)
    ensures h < |Step(w, s, op).0.plain| && Step(w, s, op).0.plain[h] == s.plain[h]
  {
    if Enabled(s, op) {
      if IsPlain(op) {
        PlainLeftByPlain(w, s, op, h);
      } else if !IsRows(op) {
        Outcomes.BatchPlain(w, s, op);
      }
    }
  }

  lemma PlainLeftByPlain(w: World, s: State, op: Op, h: nat)
    requires WellFormed(s) && h < |s.plain| && op != OpPlainNext(h) && op != OpPlainClose(h)
    requires Enabled(s, op) && IsPlain(op) && (s.plain[h].PlainRow? ==> !(op.OpPlainScan? && op.h == h))
    ensures h < |StepPlain(w, s, op).0.plain| && StepPlain(w, s, op).0.plain[h] == s.plain[h]
  {
  }

  lemma NextMoves(w: World, s: State, h: nat, n: nat, rows: seq<Row>, tail: Option<Error>, rest: Option<Error>)
    requires WellFormed(s) && RowsAt(s, h, n, rows, tail, rest)
    ensures var (s', a) := Step(w, s, OpPlainNext(h)); a == More(n < |rows|) && RowsAt(s', h, n + 1, rows, tail, rest)
  {
    MovesOnce(s.plain[h].cursor, n, rows, tail, rest);
  }

  lemma ScanGives(w: World, s: State, h: nat, n: nat, rows: seq<Row>, tail: Option<Error>, rest: Option<Error>,
                  dest: Dest)
    requires WellFormed(s) && RowsAt(s, h, n, rows, tail, rest)
    ensures GivesRow(w, rows, n, dest, Step(w, s, OpPlainScan(h, dest)).1)
    ensures GivesErr(rows, tail, n, Step(w, s, OpPlainErr(h)).1)
  {
  }

  /** What an operation on rows that were moved on n times answers. */
  ghost predicate Reads(w: World, op: Op, h: nat, rows: seq<Row>, tail: Option<Error>, n: nat, a: Answer) {
    && (op == OpPlainNext(h) ==> a == More(n < |rows|))
    && (op.OpPlainScan? && op.h == h ==> GivesRow(w, rows, n, op.dest, a))
    && (op == OpPlainErr(h) ==> GivesErr(rows, tail, n, a))
  }

  lemma StepReads(w: World, s: State, op: Op, h: nat, n: nat, rows: seq<Row>, tail: Option<Error>, rest: Option<Error>)
    requires WellFormed(s) && RowsAt(s, h, n, rows, tail, rest)
    ensures Reads(w, op, h, rows, tail, n, Step(w, s, op).1)
  {
    if op == OpPlainNext(h) {
      NextMoves(w, s, h, n, rows, tail, rest);
    } else if op.OpPlainScan? && op.h == h {
      ScanGives(w, s, h, n, rows, tail, rest, op.dest);
    } else if op == OpPlainErr(h) {
      ScanGives(w, s, h, n, rows, tail, rest, 0);
    }
  }

  lemma StepMoves(w: World, s: State, op: Op, h: nat, n: nat, rows: seq<Row>, tail: Option<Error>, rest: Option<Error>)
    requires WellFormed(s) && RowsAt(s, h, n, rows, tail, rest)
    ensures op != OpPlainClose(h) && !Finalizes(op) ==>
      RowsAt(Step(w, s, op).0, h, n + if op == OpPlainNext(h) then 1 else 0, rows, tail, rest)
  {
    if op == OpPlainNext(h) {
      NextMoves(w, s, h, n, rows, tail, rest);
    } else if op != OpPlainClose(h) && !Finalizes(op) {
      PlainLeft(w, s, op, h);
    }
  }

  /** Everything else a closure does in between: it neither closes these rows nor ends the transaction. */
  predicate Leaves(h: nat, op: Op) {
    op != OpPlainClose(h) && !Finalizes(op)
  }

  lemma PlainDelivers(w: World, s: State, h: nat, rows: seq<Row>, tail: Option<Error>, rest: Option<Error>,
                      ops: seq<Op>, i: nat)
    requires WellFormed(s) && RowsAt(s, h, 0, rows, tail, rest)
    requires i < |ops| && forall j :: 0 <= j < i ==> Leaves(h, ops[j])
    ensures Reads(w, ops[i], h, rows, tail, Count(ops[..i], OpPlainNext(h)), Run(w, s, ops).1[i])
  {
    var at := (s: State, n: nat) => WellFormed(s) && RowsAt(s, h, n, rows, tail, rest);
    var allowed, weigh := (op: Op) => Leaves(h, op), Once(OpPlainNext(h));
    var told := (op: Op, n: nat, a: Answer) => Reads(w, op, h, rows, tail, n, a);
    forall s, n: nat, op | at(s, n)
      ensures told(op, n, Stepper(w)(s, op).1) && (allowed(op) ==> at(Stepper(w)(s, op).0, n + weigh(op)))
    {
      StepReads(w, s, op, h, n, rows, tail, rest);
      StepMoves(w, s, op, h, n, rows, tail, rest);
    }
    AnswersAlong(Stepper(w), at, allowed, weigh, told, s, 0, ops, i, Count(ops[..i], OpPlainNext(h)),
      Run(w, s, ops).1[i]);
  }

  /** A plain statement that the transaction passes on to the server, as it is or bound. */
  predicate Issuable(s: State, via: Via, stmt: Stmt) {
    && ViaExists(s, via) && BindingErr(s, via).None?
    && s.tx.open.None? && !s.tx.ended && (s.core.autoErr ==> s.core.err.None?)
    && PlainStmt(s, via, stmt).unpack.None? && !PlainStmt(s, via, stmt).panics
  }

  /** What the server makes of it. */
  function Served(w: World, s: State, via: Via, stmt: Stmt): Outcome
    requires ViaExists(s, via)
  {
    w.server(s.tx.log, PlainStmt(s, via, stmt))
  }

  /** Exec answers the count of the statement, or its error, at once or behind its rows; the statement is logged. */
  lemma ExecDelivers(w: World, s: State, via: Via, stmt: Stmt)
    requires WellFormed(s) && Issuable(s, via, stmt)
    ensures var ((s', a), outcome) := (Step(w, s, OpExec(stmt, via)), Served(w, s, via, stmt));
      && s'.tx.log == s.tx.log + [Entry(PlainStmt(s, via, stmt), Direct)]
      && (if outcome.Fail? then a.Failed? && a.err.root == outcome.err.root
          else if outcome.tail.Some? then a.Failed? && a.err.root == outcome.tail.value.root
          else a == Affected(outcome.affected))
  {
  }

  lemma QueryOpens(w: World, s: State, via: Via, stmt: Stmt)
    requires WellFormed(s) && Issuable(s, via, stmt) && Served(w, s, via, stmt).Ok?
    ensures var (outcome, h) := (Served(w, s, via, stmt), |s.plain|);
      var (s', a) := Step(w, s, OpQuery(stmt, via));
      a == Handle(h) && RowsAt(s', h, 0, outcome.rows, outcome.tail, outcome.rest)
  {
  }

  /** Query, and whatever follows in whatever order: the i-th Next tells whether there is an i-th row, and a Scan behind
      it gives that row. */
  lemma QueryDelivers(w: World, s: State, via: Via, stmt: Stmt, ops: seq<Op>, i: nat)
    requires WellFormed(s) && Issuable(s, via, stmt) && Served(w, s, via, stmt).Ok?
    requires i < |ops| && forall j :: 0 <= j < i ==> Leaves(|s.plain|, ops[j])
    ensures var (outcome, h) := (Served(w, s, via, stmt), |s.plain|);
      var a := Run(w, s, [OpQuery(stmt, via)] + ops).1;
      && a[0] == Handle(h)
      && Reads(w, ops[i], h, outcome.rows, outcome.tail, Count(ops[..i], OpPlainNext(h)), a[i + 1])
  {
    var query, outcome := OpQuery(stmt, via), Served(w, s, via, stmt);
    var all := [query] + ops;
    QueryOpens(w, s, via, stmt);
    AnswerFirst(w, s, all);
    AnswerLater(w, s, all, i);
    assert all[1..] == ops;
    PlainDelivers(w, Step(w, s, query).0, |s.plain|, outcome.rows, outcome.tail, outcome.rest, ops, i);
  }

  /** Rows that were closed, or read to their end. */
  predicate Spent(s: State, h: nat) {
    h < |s.plain| && s.plain[h].PlainRows? && Ended(s.plain[h].cursor)
  }

  predicate GivesNone(op: Op, h: nat, a: Answer) {
    && (op == OpPlainNext(h) ==> a == More(false))
    && (op.OpPlainScan? && op.h == h ==> a == Failed(TraceErr(New(ScanWithoutRow))))
  }

  lemma SpentStep(w: World, s: State, op: Op, h: nat)
    requires WellFormed(s) && Spent(s, h)
    ensures GivesNone(op, h, Step(w, s, op).1)
    ensures !Finalizes(op) ==> Spent(Step(w, s, op).0, h)
  {
    if op != OpPlainNext(h) && op != OpPlainClose(h) && !Finalizes(op) {
      PlainLeft(w, s, op, h);
    }
  }

  /** Closed rows have none to give. */
  lemma SpentGivesNone(w: World, s: State, h: nat, ops: seq<Op>, i: nat)
    requires WellFormed(s) && Spent(s, h) && i < |ops| && forall j :: 0 <= j < i ==> !Finalizes(ops[j])
    ensures GivesNone(ops[i], h, Run(w, s, ops).1[i])
  {
    var at := (s: State, n: nat) => WellFormed(s) && Spent(s, h);
    var allowed, weigh := (op: Op) => !Finalizes(op), (op: Op) => 0 as nat;
    var told := (op: Op, n: nat, a: Answer) => GivesNone(op, h, a);
    forall s, n: nat, op | at(s, n)
      ensures told(op, n, Stepper(w)(s, op).1) && (allowed(op) ==> at(Stepper(w)(s, op).0, n + weigh(op)))
    {
      SpentStep(w, s, op, h);
    }
    AnswersAlong(Stepper(w), at, allowed, weigh, told, s, 0, ops, i, Moves(weigh, ops[..i]), Run(w, s, ops).1[i]);
  }

  // ----- A plain Row -----

  predicate ScansRow(h: nat, op: Op) {
    op.OpPlainScan? && op.h == h
  }

  predicate RowIs(s: State, h: nat, rows: seq<Row>, tail: Option<Error>, rest: Option<Error>) {
    h < |s.plain| && s.plain[h] == PlainRow(Cursor(rows, Before, tail, rest))
  }

  lemma RowStep(w: World, s: State, op: Op, h: nat, rows: seq<Row>, tail: Option<Error>, rest: Option<Error>)
    requires WellFormed(s) && RowIs(s, h, rows, tail, rest)
    ensures ScansRow(h, op) ==> GivesFirst(w, rows, tail, rest, op.dest, Step(w, s, op).1)
    ensures !Finalizes(op) && !ScansRow(h, op) ==> RowIs(Step(w, s, op).0, h, rows, tail, rest)
  {
    if ScansRow(h, op) {
      FirstGives(w, rows, tail, rest, op.dest);
      assert StepPlain(w, s, op) == PlainScan(w, s, h, op.dest);
    } else if !Finalizes(op) && op != OpPlainNext(h) && op != OpPlainClose(h) {
      PlainLeft(w, s, op, h);
    }
  }

  lemma RowOpens(w: World, s: State, via: Via, stmt: Stmt)
    requires WellFormed(s) && Issuable(s, via, stmt) && Served(w, s, via, stmt).Ok?
    ensures var (outcome, h) := (Served(w, s, via, stmt), |s.plain|);
      var (s', a) := Step(w, s, OpQueryRow(stmt, via));
      && a == Handle(h) && |s'.plain| == h + 1
      && s'.plain[h] == PlainRow(Cursor(outcome.rows, Before, outcome.tail, outcome.rest))
  {
  }

  lemma RowDelivers(w: World, s: State, h: nat, rows: seq<Row>, tail: Option<Error>, rest: Option<Error>, ops: seq<Op>,
                    i: nat)
    requires WellFormed(s) && RowIs(s, h, rows, tail, rest)
    requires i < |ops| && ScansRow(h, ops[i]) && forall j :: 0 <= j < i ==> !Finalizes(ops[j]) && !ScansRow(h, ops[j])
    ensures GivesFirst(w, rows, tail, rest, ops[i].dest, Run(w, s, ops).1[i])
  {
    var at := (s: State, n: nat) => WellFormed(s) && RowIs(s, h, rows, tail, rest);
    var allowed, weigh := (op: Op) => !Finalizes(op) && !ScansRow(h, op), (op: Op) => 0 as nat;
    var told := (op: Op, n: nat, a: Answer) => ScansRow(h, op) ==> GivesFirst(w, rows, tail, rest, op.dest, a);
    forall s, n: nat, op | at(s, n)
      ensures told(op, n, Stepper(w)(s, op).1) && (allowed(op) ==> at(Stepper(w)(s, op).0, n + weigh(op)))
    {
      RowStep(w, s, op, h, rows, tail, rest);
    }
    AnswersAlong(Stepper(w), at, allowed, weigh, told, s, 0, ops, i, Moves(weigh, ops[..i]), Run(w, s, ops).1[i]);
  }

  /** QueryRow, and whatever follows: its first Scan gives the first row, and NoRows without one. */
  lemma QueryRowDelivers(w: World, s: State, via: Via, stmt: Stmt, ops: seq<Op>, i: nat)
    requires WellFormed(s) && Issuable(s, via, stmt) && Served(w, s, via, stmt).Ok?
    requires i < |ops| && ScansRow(|s.plain|, ops[i])
    requires forall j :: 0 <= j < i ==> !Finalizes(ops[j]) && !ScansRow(|s.plain|, ops[j])
    ensures var outcome := Served(w, s, via, stmt);
      var a := Run(w, s, [OpQueryRow(stmt, via)] + ops).1;
      a[0] == Handle(|s.plain|) && GivesFirst(w, outcome.rows, outcome.tail, outcome.rest, ops[i].dest, a[i + 1])
  {
    var query, outcome := OpQueryRow(stmt, via), Served(w, s, via, stmt);
    var all := [query] + ops;
    RowOpens(w, s, via, stmt);
    AnswerFirst(w, s, all);
    AnswerLater(w, s, all, i);
    assert all[1..] == ops;
    RowDelivers(w, Step(w, s, query).0, |s.plain|, outcome.rows, outcome.tail, outcome.rest, ops, i);
  }

  // ----- Rows of a batch -----

  /** The rows k of the results r were moved on n times, and neither closed nor overtaken. */
  predicate BatchRowsAt(s: State, k: nat, r: nat, buffered: bool, n: nat, rows: seq<Row>, tail: Option<Error>,
                        rest: Option<Error>) {
    && k < |s.core.rows| && MovedTo(s.core.rows[k].cursor, n, rows, tail, rest)
    && s.core.rows[k].results == r && s.core.rows[k].buffered == buffered
    && !s.core.rows[k].closed && !s.core.rows[k].superseded
  }

  /** Everything else a closure does in between: it does not close these rows, scan them as a row, or go on with their
      results, and ends nothing. */
  predicate LeavesRows(k: nat, r: nat, op: Op) {
    && op != OpRowsClose(k) && !(op.OpRowScan? && op.k == k)
    && op != OpReadExec(r) && op != OpReadQuery(r) && op != OpClose(r) && !Finalizes(op)
  }

  lemma SupersedeLeaves(c: Core, r: nat, k: nat)
    requires WellFormedCore(c) && r < |c.readers| && k < |c.rows| && c.rows[k].results != r
    ensures |Supersede(c, r).rows| == |c.rows| && Supersede(c, r).rows[k] == c.rows[k]
  {
    if c.readers[r].open.Some? {
      assert OpenIn(c, c.readers[r].open.value, r);
    }
  }

  lemma AdvanceLeaves(s: State, r: nat, k: nat)
    requires WellFormed(s) && r < |s.results| && k < |s.core.rows| && s.core.rows[k].results != r
    ensures var c := Advance(s, r).0.core; |c.rows| == |s.core.rows| && c.rows[k] == s.core.rows[k]
  {
    SupersedeLeaves(s.core, r, k);
  }

  lemma ReadLeaves(w: World, s: State, r: nat, k: nat)
    requires WellFormed(s) && r < |s.results| && k < |s.core.rows| && s.core.rows[k].results != r
    ensures var c := ReadExec(w, s, r).0.core; k < |c.rows| && c.rows[k] == s.core.rows[k]
  {
    AdvanceLeaves(s, r, k);
  }

  lemma QueryLeaves(w: World, s: State, r: nat, k: nat)
    requires WellFormed(s) && r < |s.results| && k < |s.core.rows| && s.core.rows[k].results != r
    ensures var c := ReadQuery(w, s, r).0.core; k < |c.rows| && c.rows[k] == s.core.rows[k]
  {
    AdvanceLeaves(s, r, k);
  }

  lemma CloseLeaves(w: World, s: State, r: nat, k: nat)
    requires WellFormed(s) && r < |s.results| && k < |s.core.rows| && s.core.rows[k].results != r
    ensures var c := CloseResults(w, s, r).0.core; k < |c.rows| && c.rows[k] == s.core.rows[k]
  {
    if !s.results[r].closed {
      var s1 := WithCore(s, Doomed(Supersede(s.core, r), r));
      SupersedeLeaves(s.core, r, k);
      if !s1.results[r].pipelined {
        Outcomes.RestRowsStay(w, s1, r);
      }
      SupersedeLeaves(FinishResults(w, s1, r).0.core, r, k);
    }
  }

  lemma BatchStepLeaves(w: World, s: State, op: Op, k: nat)
    requires WellFormed(s) && Enabled(s, op) && !IsPlain(op) && !IsRows(op) && k < |s.core.rows|
    requires LeavesRows(k, s.core.rows[k].results, op)
    ensures var c := StepBatch(w, s, op).0.core; k < |c.rows| && c.rows[k] == s.core.rows[k]
  {
    if op.OpReadExec? {
      ReadLeaves(w, s, op.r, k);
    } else if op.OpReadQuery? {
      QueryLeaves(w, s, op.r, k);
    } else if op.OpClose? {
      CloseLeaves(w, s, op.r, k);
    }
  }

  lemma RowsStepLeaves(w: World, c: Core, op: Op, k: nat)
    requires WellFormedCore(c) && IsRows(op) && op.k < |c.rows| && k < |c.rows|
    requires op.k != k || op.OpRowsScan? || op.OpRowsErr?
    ensures var c' := StepRows(w, c, op).0; k < |c'.rows| && c'.rows[k] == c.rows[k]
  {
  }

  lemma PlainStepLeaves(w: World, s: State, op: Op)
    requires WellFormed(s) && Enabled(s, op) && IsPlain(op)
    ensures StepPlain(w, s, op).0.core.rows == s.core.rows
  {
  }

  /** An operation that is not a Next of these rows leaves them. */
  lemma RowsLeft(w: World, s: State, op: Op, k: nat)
    requires WellFormed(s) && k < |s.core.rows| && LeavesRows(k, s.core.rows[k].results, op) && op != OpRowsNext(k)
    ensures var c := Step(w, s, op).0.core; k < |c.rows| && c.rows[k] == s.core.rows[k]
  {
    if Enabled(s, op) {
      if IsRows(op) {
        RowsStepLeaves(w, s.core, op, k);
      } else if IsPlain(op) {
        PlainStepLeaves(w, s, op);
      } else {
        BatchStepLeaves(w, s, op, k);
      }
    }
  }

  /** What an operation on batch rows that were moved on n times answers. */
  ghost predicate BatchReads(w: World, op: Op, k: nat, rows: seq<Row>, tail: Option<Error>, rest: Option<Error>, n: nat,
                             a: Answer) {
    && (op == OpRowsNext(k) ==> a == More(n < |rows|))
    && (op.OpRowsScan? && op.k == k ==> GivesRow(w, rows, n, op.dest, a))
    && (op == OpRowsErr(k) ==> GivesErr(rows, tail, n, a))
    && (op.OpRowScan? && op.k == k && n == 0 && !op.raw ==> GivesFirst(w, rows, tail, rest, op.dest, a))
  }

  lemma BatchNext(w: World, s: State, k: nat, r: nat, buffered: bool, n: nat, rows: seq<Row>, tail: Option<Error>,
                  rest: Option<Error>)
    requires WellFormed(s) && BatchRowsAt(s, k, r, buffered, n, rows, tail, rest)
    ensures var (s', a) := Step(w, s, OpRowsNext(k));
      a == More(n < |rows|) && BatchRowsAt(s', k, r, buffered, n + 1, rows, tail, rest)
  {
    MovesOnce(s.core.rows[k].cursor, n, rows, tail, rest);
  }

  lemma BatchScan(w: World, c: Core, k: nat, n: nat, rows: seq<Row>, tail: Option<Error>, rest: Option<Error>,
                  dest: Dest)
    requires WellFormedCore(c) && k < |c.rows| && MovedTo(c.rows[k].cursor, n, rows, tail, rest)
    ensures var (_, a) := StepRows(w, c, OpRowsScan(k, dest)); GivesRow(w, rows, n, dest, a)
  {
  }

  lemma BatchErr(w: World, c: Core, k: nat, n: nat, rows: seq<Row>, tail: Option<Error>, rest: Option<Error>)
    requires WellFormedCore(c) && k < |c.rows| && MovedTo(c.rows[k].cursor, n, rows, tail, rest)
    requires !c.rows[k].superseded && (c.rows[k].buffered ==> tail.None?)
    ensures GivesErr(rows, tail, n, StepRows(w, c, OpRowsErr(k)).1)
  {
  }

  lemma BatchRow(w: World, c: Core, k: nat, rows: seq<Row>, tail: Option<Error>, rest: Option<Error>, dest: Dest)
    requires WellFormedCore(c) && k < |c.rows| && MovedTo(c.rows[k].cursor, 0, rows, tail, rest)
    requires !c.rows[k].superseded && !c.rows[k].closed && (c.rows[k].buffered ==> tail.None? && rest.None?)
    ensures GivesFirst(w, rows, tail, rest, dest, StepRows(w, c, OpRowScan(k, dest, false)).1)
  {
    var (c1, more) := RowsNext(c, k);
    MovesOnce(c.rows[k].cursor, 0, rows, tail, rest);
    if more {
      BatchScan(w, c1, k, 1, rows, tail, rest, dest);
    } else {
      BatchErr(w, c1, k, 1, rows, tail, rest);
    }
  }

  lemma RowsStepReads(w: World, c: Core, op: Op, k: nat, n: nat, rows: seq<Row>, tail: Option<Error>,
                      rest: Option<Error>)
    requires WellFormedCore(c) && k < |c.rows| && MovedTo(c.rows[k].cursor, n, rows, tail, rest)
    requires !c.rows[k].superseded && !c.rows[k].closed && (c.rows[k].buffered ==> tail.None? && rest.None?)
    requires IsRows(op) && op.k == k
    ensures BatchReads(w, op, k, rows, tail, rest, n, StepRows(w, c, op).1)
  {
    match op {
      case OpRowsNext(_) => MovesOnce(c.rows[k].cursor, n, rows, tail, rest);
      case OpRowsScan(_, dest) => BatchScan(w, c, k, n, rows, tail, rest, dest);
      case OpRowsErr(_) => BatchErr(w, c, k, n, rows, tail, rest);
      case OpRowsClose(_) =>
      case OpRowScan(_, dest, raw) =>
        if n == 0 && !raw {
          BatchRow(w, c, k, rows, tail, rest, dest);
        }
    }
  }

  lemma BatchStepReads(w: World, s: State, op: Op, k: nat, r: nat, buffered: bool, n: nat, rows: seq<Row>,
                       tail: Option<Error>, rest: Option<Error>)
    requires WellFormed(s) && BatchRowsAt(s, k, r, buffered, n, rows, tail, rest)
    requires buffered ==> tail.None? && rest.None?
    ensures BatchReads(w, op, k, rows, tail, rest, n, Step(w, s, op).1)
  {
    if IsRows(op) && op.k == k {
      RowsStepReads(w, s.core, op, k, n, rows, tail, rest);
      StepOnRows(w, s, op);
    }
  }

  lemma StepOnRows(w: World, s: State, op: Op)
    requires WellFormed(s) && IsRows(op) && op.k < |s.core.rows|
    ensures Step(w, s, op) == (WithCore(s, StepRows(w, s.core, op).0), StepRows(w, s.core, op).1)
  {
  }

  lemma BatchStepMoves(w: World, s: State, op: Op, k: nat, r: nat, buffered: bool, n: nat, rows: seq<Row>,
                       tail: Option<Error>, rest: Option<Error>)
    requires WellFormed(s) && BatchRowsAt(s, k, r, buffered, n, rows, tail, rest) && LeavesRows(k, r, op)
    ensures BatchRowsAt(Step(w, s, op).0, k, r, buffered, n + if op == OpRowsNext(k) then 1 else 0, rows, tail, rest)
  {
    if op == OpRowsNext(k) {
      BatchNext(w, s, k, r, buffered, n, rows, tail, rest);
    } else {
      RowsLeft(w, s, op, k);
    }
  }

  ghost function BatchTelling(w: World, k: nat, rows: seq<Row>, tail: Option<Error>, rest: Option<Error>)
    : (Op, nat, Answer) -> bool
  {
    (op: Op, n: nat, a: Answer) => BatchReads(w, op, k, rows, tail, rest, n, a)
  }

  ghost function BatchPlace(k: nat, r: nat, buffered: bool, rows: seq<Row>, tail: Option<Error>, rest: Option<Error>)
    : (State, nat) -> bool
  {
    (s: State, n: nat) => WellFormed(s) && BatchRowsAt(s, k, r, buffered, n, rows, tail, rest)
  }

  lemma BatchTells(w: World, s: State, op: Op, k: nat, r: nat, buffered: bool, n: nat, rows: seq<Row>,
                   tail: Option<Error>, rest: Option<Error>)
    requires BatchPlace(k, r, buffered, rows, tail, rest)(s, n) && (buffered ==> tail.None? && rest.None?)
    ensures BatchTelling(w, k, rows, tail, rest)(op, n, Stepper(w)(s, op).1)
  {
    BatchStepReads(w, s, op, k, r, buffered, n, rows, tail, rest);
  }

  lemma BatchMoves(w: World, s: State, op: Op, k: nat, r: nat, buffered: bool, n: nat, rows: seq<Row>,
                   tail: Option<Error>, rest: Option<Error>)
    requires BatchPlace(k, r, buffered, rows, tail, rest)(s, n) && LeavesRows(k, r, op)
    ensures BatchPlace(k, r, buffered, rows, tail, rest)(Stepper(w)(s, op).0, n + Once(OpRowsNext(k))(op))
  {
    BatchStepMoves(w, s, op, k, r, buffered, n, rows, tail, rest);
  }

  function BatchLeaving(k: nat, r: nat): Op -> bool {
    (op: Op) => LeavesRows(k, r, op)
  }

  lemma BatchAnswers(w: World, k: nat, r: nat, buffered: bool, rows: seq<Row>, tail: Option<Error>, rest: Option<Error>)
    requires buffered ==> tail.None? && rest.None?
    ensures Answers(Stepper(w), BatchPlace(k, r, buffered, rows, tail, rest), BatchLeaving(k, r), Once(OpRowsNext(k)),
      BatchTelling(w, k, rows, tail, rest))
  {
    forall s, n: nat, op | BatchPlace(k, r, buffered, rows, tail, rest)(s, n)
      ensures BatchTelling(w, k, rows, tail, rest)(op, n, Stepper(w)(s, op).1)
    {
      BatchTells(w, s, op, k, r, buffered, n, rows, tail, rest);
    }
    forall s, n: nat, op | BatchPlace(k, r, buffered, rows, tail, rest)(s, n) && BatchLeaving(k, r)(op)
      ensures BatchPlace(k, r, buffered, rows, tail, rest)(Stepper(w)(s, op).0, n + Once(OpRowsNext(k))(op))
    {
      BatchMoves(w, s, op, k, r, buffered, n, rows, tail, rest);
    }
  }

  lemma BatchAlong(w: World, s: State, k: nat, r: nat, buffered: bool, rows: seq<Row>, tail: Option<Error>,
                   rest: Option<Error>, ops: seq<Op>, i: nat, n: nat, a: Answer)
    requires BatchPlace(k, r, buffered, rows, tail, rest)(s, 0) && (buffered ==> tail.None? && rest.None?)
    requires i < |ops| && forall j :: 0 <= j < i ==> BatchLeaving(k, r)(ops[j])
    requires n == Moves(Once(OpRowsNext(k)), ops[..i]) && a == Fold(Stepper(w), s, ops).1[i]
    ensures BatchTelling(w, k, rows, tail, rest)(ops[i], n, a)
  {
    BatchAnswers(w, k, r, buffered, rows, tail, rest);
    AnswersAlong(Stepper(w), BatchPlace(k, r, buffered, rows, tail, rest), BatchLeaving(k, r), Once(OpRowsNext(k)),
      BatchTelling(w, k, rows, tail, rest), s, 0, ops, i, n, a);
  }

  /** Rows of a batch, streamed or buffered, and whatever is called in between. */
  lemma BatchRowsDeliver(w: World, s: State, k: nat, r: nat, buffered: bool, rows: seq<Row>, tail: Option<Error>,
                         rest: Option<Error>, ops: seq<Op>, i: nat)
    requires WellFormed(s) && BatchRowsAt(s, k, r, buffered, 0, rows, tail, rest)
    requires (buffered ==> tail.None? && rest.None?) && i < |ops| && forall j :: 0 <= j < i ==> LeavesRows(k, r, ops[j])
    ensures BatchReads(w, ops[i], k, rows, tail, rest, Count(ops[..i], OpRowsNext(k)), Run(w, s, ops).1[i])
  {
    var n, a := Count(ops[..i], OpRowsNext(k)), Run(w, s, ops).1[i];
    BatchAlong(w, s, k, r, buffered, rows, tail, rest, ops, i, n, a);
    assert BatchReads(w, ops[i], k, rows, tail, rest, n, a);
  }

  // ----- Prepared statements -----

  /** A statement prepared in the transaction, or bound to it, is the one that its handle executes. */
  lemma PrepareBinds(w: World, s: State, stmt: Stmt)
    requires WellFormed(s) && Issuable(s, Directly, stmt)
    ensures var ((p, a), (q, b)) := (Step(w, s, OpPrepare(stmt, None)), Step(w, s, OpBind(stmt, None)));
      var via := Through(|s.bound|);
      && a == b == Handle(|s.bound|)
      && Issuable(p, via, stmt) && PlainStmt(p, via, stmt) == stmt
      && Issuable(q, via, stmt) && PlainStmt(q, via, stmt) == stmt
  {
  }
}
