/** The transaction and batch protocol as a deterministic machine.

    A closure holds handles (numbers) to the objects a transaction gives it: batches, their results, their rows,
    plain rows, prepared statements. Each operation of the library is a function from the state of all of them to
    the next state and the answer the caller sees. The database is a function from the statements executed so far to
    the outcome of the next one, so any isolated deterministic server is covered; `log` is that history. */
module Session {
  import opened Errors

  type Row = int   // a row of raw values, uninterpreted
  type Dest = int  // the destinations of a Scan, uninterpreted

  /** A statement as queued: whether an argument is a sql.NamedArg, whether converting an argument panics, and the
      error of unpacking its text, if any. */
  datatype Stmt = Stmt(id: int, named: bool, panics: bool, unpack: Option<Error>)

  datatype Origin = Direct | FromBatch(batch: nat, index: nat)
  datatype Entry = Entry(stmt: Stmt, origin: Origin)

  /** Two errors may follow the rows of a statement: `tail` is what reading past the last row reports, and `rest` what
      closing the rows before that does; drivers differ in how much of the one the other tells. */
  datatype Outcome = Ok(affected: int, rows: seq<Row>, tail: Option<Error>, rest: Option<Error>) | Fail(err: Error)

  /** Everything outside the library: the server, row conversion, and the two ways a pipeline fails as a whole -
      rejected before anything ran, or failing after everything ran. */
  datatype World = World(
    server: (seq<Entry>, Stmt) -> Outcome,
    scan: (Row, Dest) -> Option<Error>,
    reject: (seq<Entry>, seq<Stmt>) -> Option<Error>,
    late: (seq<Entry>, seq<Stmt>) -> Option<Error>)

  datatype Final = Commit | Rollback

  /** Where a cursor is: it went over the end, or it was shut before. */
  datatype Pos = Before | At(i: nat) | Over(err: Option<Error>) | Shut(err: Option<Error>)
  datatype Cursor = Cursor(rows: seq<Row>, pos: Pos, tail: Option<Error>, rest: Option<Error>)

  datatype BatchRows = BatchRows(
    cursor: Cursor, results: nat, buffered: bool, closed: bool, done: bool, superseded: bool)

  /** The part of a BatchResults that reading rows touches: its first failure and its open rows. */
  datatype Reader = Reader(err: Option<Error>, open: Option<nat>)

  /** What latching an error or moving through rows may change: the transaction's recorded error, the readers and
      the rows. Nothing else of a session does. */
  datatype Core = Core(autoErr: bool, err: Option<Error>, readers: seq<Reader>, rows: seq<BatchRows>)

  /** `conn` is the held connection that lets a batch pipeline; `ended` is the state of the underlying sql.Tx, and
      `finals` the finalizations that reached the database. */
  datatype Tx = Tx(
    conn: bool,
    unsent: int,
    misuse: Option<Error>,
    open: Option<nat>,
    executing: bool,
    done: bool,
    ended: bool,
    finals: seq<Final>,
    log: seq<Entry>)

  datatype Item = Item(stmt: Stmt, affected: int, rows: seq<Row>, err: Option<Error>)
  datatype Batch = Batch(items: seq<Item>, sent: bool)

  /** The rest of a BatchResults. `lost` marks results whose Send panicked, so no caller holds them. */
  datatype Results = Results(batch: nat, next: nat, closed: bool, pipelined: bool, lost: bool)

  /** A Rows or a Row of a plain query. A Row whose statement failed keeps the failure until Scan or Err asks. */
  datatype Plain = PlainRows(cursor: Cursor) | PlainRow(cursor: Cursor) | FailedRow(err: Error)

  /** A prepared statement bound to the transaction; `err` is set when it could not be bound. A carried error is one
      the statement had already, from a binding that another transaction refused. */
  datatype Bound = Bound(stmt: Stmt, err: Option<Error>, carried: bool)

  datatype State = State(
    core: Core, tx: Tx, batches: seq<Batch>, results: seq<Results>, plain: seq<Plain>, bound: seq<Bound>)

  datatype Answer =
    | Done
    | Affected(n: int)
    | Handle(id: nat)
    | More(b: bool)
    | Scanned(row: Row)
    | Failed(err: Error)
    | Panicked
    | Invalid  // no such handle

  function Begun(autoErr: bool, conn: bool): State {
    State(Core(autoErr, None, [], []), Tx(conn, 0, None, None, false, false, false, [], []), [], [], [], [])
  }

  function AnswerOf(e: Option<Error>): Answer {
    if e.Some? then Failed(e.value) else Done
  }

  /** Every row belongs to some results, and the rows open in results are their own. */
  predicate WellFormedCore(c: Core) {
    && (forall r :: 0 <= r < |c.readers| && c.readers[r].open.Some? ==> OpenIn(c, c.readers[r].open.value, r))
    && (forall k :: 0 <= k < |c.rows| ==> c.rows[k].results < |c.readers|)
  }

  predicate OpenIn(c: Core, k: nat, r: nat) {
    k < |c.rows| && c.rows[k].results == r
  }

  /** Between two calls: no batch statement is executing, and every handle stored inside an object names an object
      that exists. */
  predicate WellFormed(s: State) {
    && WellFormedCore(s.core)
    && |s.results| == |s.core.readers|
    && !s.tx.executing
    && (forall r :: 0 <= r < |s.results| ==> s.results[r].batch < |s.batches|)
    && (s.tx.open.Some? ==> s.tx.open.value < |s.results|)
  }

  /** Errors are only ever latched: one recorded stays, and in Transact mode a batch failure is the transaction's. */
  ghost predicate Latched(c: Core, c': Core) {
    && c'.autoErr == c.autoErr
    && (c.err.Some? || !c.autoErr ==> c'.err == c.err)
    && |c'.readers| == |c.readers|
    && |c.rows| <= |c'.rows|
    && (forall r :: 0 <= r < |c.readers| ==> LatchedReader(c, c', c.readers[r], c'.readers[r]))
  }

  ghost predicate LatchedReader(c: Core, c': Core, a: Reader, b: Reader) {
    && (a.err.Some? ==> b.err == a.err)
    && (a.err.None? && b.err.Some? && c.autoErr ==> c'.err.Some?)
  }

  lemma LatchedOn(c: Core, d: Core, e: Core)
    requires Latched(c, d) && Latched(d, e)
    ensures Latched(c, e)
  {
    forall r | 0 <= r < |c.readers|
      ensures LatchedReader(c, e, c.readers[r], e.readers[r])
    {
      assert LatchedReader(c, d, c.readers[r], d.readers[r]);
    }
  }

  // ----- The transaction's own error latch -----

  function RecordErr(c: Core, e: Error): (out: Core)
    ensures Latched(c, out)
  {
    if c.autoErr && c.err.None? then c.(err := Some(e)) else c
  }

  function RecordOpt(c: Core, e: Option<Error>): Core {
    if e.Some? then RecordErr(c, e.value) else c
  }

  predicate BatchRefuses(tx: Tx) {
    tx.open.Some? && !tx.executing
  }

  function ShortCircuit(c: Core, tx: Tx): (Core, Option<Error>) {
    if BatchRefuses(tx) then (RecordErr(c, New(BatchOpen)), Some(New(BatchOpen)))
    else if c.autoErr then (c, c.err)
    else (c, None)
  }

  // ----- Issuing one statement -----

  datatype Ran = Succeeded(affected: int, cursor: Cursor) | Refused(err: Error) | Unwound

  /** A statement on the underlying sql.Tx: unpacking, then the finished-transaction check, then argument
      conversion, then the server. Exec reads the whole of its result, and fails on an error behind it. */
  function Execute(w: World, tx: Tx, stmt: Stmt, origin: Origin, whole: bool): (out: (Tx, Ran))
    ensures out.0 == tx.(log := out.0.log)
  {
    if stmt.unpack.Some? then (tx, Refused(TraceErr(stmt.unpack.value)))
    else if tx.ended then (tx, Refused(New(TxDone)))
    else if stmt.panics then (tx, Unwound)
    else
      var tx' := tx.(log := tx.log + [Entry(stmt, origin)]);
      match w.server(tx.log, stmt)
      case Ok(affected, rows, tail, rest) =>
        if whole && tail.Some? then (tx', Refused(TraceErr(tail.value)))
        else (tx', Succeeded(affected, Cursor(rows, Before, tail, rest)))
      case Fail(e) => (tx', Refused(TraceErr(e)))
  }

  /** Tx.ExecContext, which reads the whole of the result, and Tx.QueryContext. */
  function Issue(w: World, c: Core, tx: Tx, stmt: Stmt, origin: Origin, whole: bool): (out: (Core, Tx, Ran))
    ensures Latched(c, out.0) && out.0.readers == c.readers && out.0.rows == c.rows
    ensures out.1 == tx.(log := out.1.log)
  {
    var (c1, refusal) := ShortCircuit(c, tx);
    if refusal.Some? then (c1, tx, Refused(refusal.value))
    else
      var (tx1, ran) := Execute(w, tx, stmt, origin, whole);
      (if ran.Refused? then RecordErr(c1, ran.err) else c1, tx1, ran)
  }

  // ----- A cursor over rows -----

  /** Buffered rows, behind which no error waits. */
  function Buffered(rows: seq<Row>): Cursor {
    Cursor(rows, Before, None, None)
  }

  predicate Ended(c: Cursor) {
    c.pos.Over? || c.pos.Shut?
  }

  predicate OnRow(c: Cursor) {
    c.pos.At? && c.pos.i < |c.rows|
  }

  function CursorNext(c: Cursor): (Cursor, bool) {
    if Ended(c) then (c, false)
    else
      var i := if c.pos.At? then c.pos.i + 1 else 0;
      if i < |c.rows| then (c.(pos := At(i)), true) else (c.(pos := Over(c.tail)), false)
  }

  function CursorErr(c: Cursor): Option<Error> {
    if Ended(c) then c.pos.err else None
  }

  function CursorScan(w: World, c: Cursor, dest: Dest): Option<Error> {
    if OnRow(c) then w.scan(c.rows[c.pos.i], dest) else Some(New(ScanWithoutRow))
  }

  function CursorClose(c: Cursor): Cursor {
    if Ended(c) then c else c.(pos := Shut(c.rest))
  }

  /** What closing it reports. */
  function ClosingErr(c: Cursor): Option<Error> {
    if Ended(c) then None else c.rest
  }

  /** The answer of a Scan: its error, or the row that the destinations now hold. */
  function ScanAnswer(c: Cursor, e: Option<Error>): Answer
    requires e.None? ==> OnRow(c)
  {
    if e.Some? then Failed(e.value) else Scanned(c.rows[c.pos.i])
  }

  // ----- Batch results: failing -----

  /** BatchResults.fail: keeps an error the transaction already recorded as recorded, traces any other once, and
      records it as the batch's and the transaction's first. */
  function FailWith(c: Core, r: nat, e: Error): (out: (Core, Error))
    requires r < |c.readers|
    ensures Latched(c, out.0) && out.0.rows == c.rows && out.0.readers[r].err.Some?
    ensures WellFormedCore(c) ==> WellFormedCore(out.0)
  {
    var kept := if c.err.Some? && Is(e, c.err.value) then c.err.value else TraceErr(e);
    var reader := c.readers[r];
    var reader' := if reader.err.None? then reader.(err := Some(kept)) else reader;
    (RecordErr(c.(readers := c.readers[r := reader']), kept), kept)
  }

  function FailOpt(c: Core, r: nat, e: Option<Error>): (out: Core)
    requires r < |c.readers|
    ensures Latched(c, out) && out.rows == c.rows
    ensures WellFormedCore(c) ==> WellFormedCore(out)
  {
    if e.Some? then FailWith(c, r, e.value).0 else c
  }

  /** BatchResults.doomed. */
  function Doomed(c: Core, r: nat): (out: Core)
    requires r < |c.readers|
    ensures Latched(c, out) && out.rows == c.rows
    ensures WellFormedCore(c) ==> WellFormedCore(out)
    ensures c.autoErr && out.err.Some? ==> out.readers[r].err.Some?
  {
    if c.autoErr then FailOpt(c, r, c.err) else c
  }

  // ----- Batch rows -----

  /** The Err of a BatchRows' source, latched into the batch. Rows that stream latch it into the transaction first and
      trace it; buffered rows have none. */
  function FailSource(c: Core, k: nat): (out: Core)
    requires WellFormedCore(c) && k < |c.rows|
    ensures Latched(c, out) && WellFormedCore(out) && out.rows == c.rows
  {
    var e := SourceErr(c.rows[k]);
    FailOpt(RecordOpt(c, e), c.rows[k].results, TraceOpt(e))
  }

  function SourceErr(row: BatchRows): Option<Error> {
    if row.buffered then None else CursorErr(row.cursor)
  }

  /** A change to one BatchRows that keeps the results it belongs to. */
  function SetRow(c: Core, k: nat, row: BatchRows): (out: Core)
    requires k < |c.rows|
    ensures Latched(c, out)
    ensures WellFormedCore(c) && row.results == c.rows[k].results ==> WellFormedCore(out)
  {
    c.(rows := c.rows[k := row])
  }

  function RowsClose(c: Core, k: nat): (out: Core)
    requires WellFormedCore(c) && k < |c.rows|
    ensures Latched(c, out) && WellFormedCore(out)
  {
    var row := c.rows[k];
    if row.closed then c
    else FailSource(SetRow(c, k, row.(closed := true, cursor := CursorClose(row.cursor))), k)
  }

  /** What the Close of a BatchRows answers. */
  function RowsCloseErr(row: BatchRows): Option<Error> {
    if row.closed || row.buffered then None else TraceOpt(ClosingErr(row.cursor))
  }

  function RowsNext(c: Core, k: nat): (out: (Core, bool))
    requires WellFormedCore(c) && k < |c.rows|
    ensures Latched(c, out.0) && WellFormedCore(out.0)
  {
    var row := c.rows[k];
    if row.superseded then (RecordErr(c, New(Superseded)), false)
    else if row.closed then (c, false)
    else
      var (cursor, more) := CursorNext(row.cursor);
      var c1 := SetRow(c, k, row.(cursor := cursor, done := row.done || !more));
      if more then (c1, true) else (FailSource(c1, k), false)
  }

  function RowsScan(w: World, c: Core, k: nat, dest: Dest): (out: (Core, Option<Error>))
    requires WellFormedCore(c) && k < |c.rows|
    ensures Latched(c, out.0) && WellFormedCore(out.0) && out.0.rows == c.rows
    ensures out.1.None? ==> OnRow(c.rows[k].cursor)
  {
    var row := c.rows[k];
    var e := CursorScan(w, row.cursor, dest);
    if e.None? then (c, None)
    else
      var (c1, e1) := if row.buffered then (c, e.value) else (RecordErr(c, e.value), TraceErr(e.value));
      var (c2, e2) := FailWith(c1, row.results, e1);
      (c2, Some(e2))
  }

  function RowsErr(c: Core, k: nat): (out: (Core, Option<Error>))
    requires WellFormedCore(c) && k < |c.rows|
    ensures Latched(c, out.0) && WellFormedCore(out.0) && out.0.rows == c.rows
  {
    if c.rows[k].superseded then (RecordErr(c, New(Superseded)), Some(New(Superseded)))
    else
      var e := SourceErr(c.rows[k]);
      (RecordOpt(c, e), TraceOpt(TraceOpt(e)))
  }

  /** BatchRow.Scan: the first row of a result, closed whatever happens. */
  function RowScan(w: World, c: Core, k: nat, dest: Dest, raw: bool): (out: (Core, Option<Error>))
    requires WellFormedCore(c) && k < |c.rows|
    ensures Latched(c, out.0) && WellFormedCore(out.0)
    ensures out.1.None? ==> OnRow(CursorNext(c.rows[k].cursor).0)
  {
    if c.rows[k].superseded then (RecordErr(c, New(Superseded)), Some(New(Superseded)))
    else
      var (c1, more) := RowsNext(c, k);
      var (c2, e) := RowScanAfterNext(w, c1, k, more, dest, raw);
      (RowsClose(c2, k), if e.Some? then e else RowsCloseErr(c2.rows[k]))
  }

  function RowScanAfterNext(w: World, c: Core, k: nat, more: bool, dest: Dest, raw: bool): (out: (Core, Option<Error>))
    requires WellFormedCore(c) && k < |c.rows|
    ensures Latched(c, out.0) && WellFormedCore(out.0) && out.0.rows == c.rows
    ensures out.1.None? ==> more && OnRow(c.rows[k].cursor)
  {
    if !more then
      var (c1, e) := RowsErr(c, k);
      (c1, if e.Some? then e else Some(New(NoRows)))
    else if raw then
      var (c1, e) := FailWith(c, c.rows[k].results, New(RawBytes));
      (c1, Some(e))
    else RowsScan(w, c, k, dest)
  }

  // ----- Batch results: reading -----

  function SetOpen(c: Core, r: nat, open: Option<nat>): (out: Core)
    requires r < |c.readers|
    ensures Latched(c, out)
    ensures WellFormedCore(c) && (open.Some? ==> OpenIn(c, open.value, r)) ==> WellFormedCore(out)
  {
    c.(readers := c.readers[r := c.readers[r].(open := open)])
  }

  /** BatchResults.supersedeOpen. */
  function Supersede(c: Core, r: nat): (out: Core)
    requires WellFormedCore(c) && r < |c.readers|
    ensures Latched(c, out) && WellFormedCore(out)
  {
    match c.readers[r].open
    case None => c
    case Some(k) =>
      var row := c.rows[k];
      var c1 := if row.closed || row.done then c else SetRow(c, k, row.(superseded := true));
      SetOpen(RowsClose(c1, k), r, None)
  }

  /** The state with a new core, which latching and rows are confined to. */
  function WithCore(s: State, c: Core): State {
    s.(core := c)
  }

  function Skip(s: State, r: nat): (out: State)
    requires r < |s.results|
    ensures WellFormed(s) ==> WellFormed(out)
  {
    s.(results := s.results[r := s.results[r].(next := s.results[r].next + 1)])
  }

  function Items(s: State, r: nat): seq<Item>
    requires WellFormed(s) && r < |s.results|
  {
    s.batches[s.results[r].batch].items
  }

  datatype Turn = Read(index: nat) | Stop(err: Error)

  /** BatchResults.advance. */
  function Advance(s: State, r: nat): (out: (State, Turn))
    requires WellFormed(s) && r < |s.results|
    ensures WellFormed(out.0) && Latched(s.core, out.0.core)
    ensures out.0 == WithCore(s, out.0.core) || out.0 == WithCore(Skip(s, r), out.0.core)
    ensures out.1.Read? ==> CanRead(s, r, out.0, out.1.index)
  {
    var c1 := Supersede(s.core, r);
    if s.results[r].closed then (WithCore(s, c1), Stop(New(ResultsClosed)))
    else
      var s1 := WithCore(s, Doomed(c1, r));
      var out := AdvanceOpen(s1, r);
      LatchedOn(s.core, c1, s1.core);
      LatchedOn(s.core, s1.core, out.0.core);
      out
  }

  /** The read of the next statement went ahead: nothing failed so far, and nothing but `next` moved. */
  ghost predicate CanRead(s: State, r: nat, s': State, i: nat)
    requires WellFormed(s) && r < |s.results|
  {
    && s' == WithCore(Skip(s, r), s'.core)
    && |s'.core.readers| == |s.results|
    && i == s.results[r].next < |Items(s, r)|
    && s'.core.readers[r].err.None? && (s.core.autoErr ==> s'.core.err.None?)
    && (s.results[r].pipelined ==> Items(s, r)[i].err.None?)
    && !s.results[r].closed
  }

  function AdvanceOpen(s: State, r: nat): (out: (State, Turn))
    requires WellFormed(s) && r < |s.results| && !s.results[r].closed
    requires s.core.autoErr && s.core.err.Some? ==> s.core.readers[r].err.Some?
    ensures WellFormed(out.0) && Latched(s.core, out.0.core)
    ensures out.0 == WithCore(s, out.0.core) || out.0 == WithCore(Skip(s, r), out.0.core)
    ensures out.1.Read? ==> CanRead(s, r, out.0, out.1.index)
  {
    var i := s.results[r].next;
    if s.core.readers[r].err.Some? then (Skip(s, r), Stop(s.core.readers[r].err.value))
    else if i >= |Items(s, r)| then (s, Stop(New(NoMoreResults)))
    else if s.results[r].pipelined && Items(s, r)[i].err.Some? then
      var (c, e) := FailWith(s.core, r, Items(s, r)[i].err.value);
      (WithCore(Skip(s, r), c), Stop(e))
    else (Skip(s, r), Read(i))
  }

  function WithLog(s: State, log: seq<Entry>): State {
    s.(tx := s.tx.(log := log))
  }

  /** A statement that failed or unwound fails its batch. */
  function FailRan(c: Core, r: nat, ran: Ran): (out: (Core, Ran))
    requires r < |c.readers|
    ensures Latched(c, out.0) && out.0.rows == c.rows && (WellFormedCore(c) ==> WellFormedCore(out.0))
    ensures !out.1.Succeeded? ==> out.0.readers[r].err.Some?
  {
    match ran
    case Succeeded(_, _) => (c, ran)
    case Unwound => (FailWith(c, r, New(StatementPanic)).0, ran)
    case Refused(e) =>
      var (c1, e1) := FailWith(c, r, e);
      (c1, Refused(e1))
  }

  /** BatchResults.run followed by the fail of its error: the batch's own statement, issued on the transaction that
      refuses every other. */
  function RunItem(w: World, s: State, r: nat, i: nat, whole: bool): (out: (State, Ran))
    requires WellFormed(s) && r < |s.results| && i < |Items(s, r)|
    ensures WellFormed(out.0) && Latched(s.core, out.0.core) && out.0.core.rows == s.core.rows
    ensures out.0 == WithLog(WithCore(s, out.0.core), out.0.tx.log)
    ensures !out.1.Succeeded? ==> out.0.core.readers[r].err.Some?
  {
    var (c1, tx, ran) :=
      Issue(w, s.core, s.tx.(executing := true), Items(s, r)[i].stmt, FromBatch(s.results[r].batch, i), whole);
    var (c2, ran2) := FailRan(c1, r, ran);
    (WithCore(s.(tx := tx.(executing := false)), c2), ran2)
  }

  function ExecAnswer(ran: Ran): Answer {
    match ran
    case Succeeded(n, _) => Affected(n)
    case Refused(e) => Failed(e)
    case Unwound => Panicked
  }

  function ReadExec(w: World, s: State, r: nat): (out: (State, Answer))
    requires WellFormed(s) && r < |s.results|
    ensures WellFormed(out.0)
  {
    var (s1, turn) := Advance(s, r);
    match turn
    case Stop(e) => (s1, Failed(e))
    case Read(i) =>
      if s1.results[r].pipelined then (s1, Affected(Items(s1, r)[i].affected))
      else
        var (s2, ran) := RunItem(w, s1, r, i, true);
        (s2, ExecAnswer(ran))
  }

  function ReadQuery(w: World, s: State, r: nat): (out: (State, Answer))
    requires WellFormed(s) && r < |s.results|
    ensures WellFormed(out.0)
  {
    var (s1, turn) := Advance(s, r);
    match turn
    case Stop(e) => (s1, Failed(e))
    case Read(i) =>
      if s1.results[r].pipelined then
        OpenRows(s1, r, Buffered(Items(s1, r)[i].rows), true)
      else
        var (s2, ran) := RunItem(w, s1, r, i, false);
        if ran.Succeeded? then OpenRows(s2, r, ran.cursor, false)
        else (s2, ExecAnswer(ran))
  }

  function OpenRows(s: State, r: nat, cursor: Cursor, buffered: bool): (out: (State, Answer))
    requires WellFormed(s) && r < |s.results|
    ensures WellFormed(out.0) && out.0 == WithCore(s, out.0.core)
  {
    var k := |s.core.rows|;
    var c := s.core.(rows := s.core.rows + [BatchRows(cursor, r, buffered, false, false, false)]);
    (WithCore(s, c.(readers := c.readers[r := c.readers[r].(open := Some(k))])), Handle(k))
  }

  /** The loop of BatchResults.Close: every statement not read yet runs, until one fails. The flag tells whether one
      unwound. */
  function RunRest(w: World, s: State, r: nat): (out: (State, bool))
    requires WellFormed(s) && r < |s.results|
    ensures WellFormed(out.0) && |out.0.results| == |s.results| && out.0.core.autoErr == s.core.autoErr
    decreases |Items(s, r)| - s.results[r].next
  {
    var i := s.results[r].next;
    if s.core.readers[r].err.Some? || i >= |Items(s, r)| then (s, false)
    else
      var (s1, ran) := RunItem(w, Skip(s, r), r, i, true);
      if ran.Unwound? then (s1, true) else RunRest(w, s1, r)
  }

  function FirstErr(items: seq<Item>): Option<Error> {
    if items == [] then None
    else if items[0].err.Some? then items[0].err
    else FirstErr(items[1..])
  }

  /** BatchResults.abandon. */
  function Abandon(s: State, r: nat): (out: State)
    requires WellFormed(s) && r < |s.results|
    ensures WellFormed(out)
  {
    var s1 := WithCore(s, Supersede(s.core, r));
    s1.(results := s1.results[r := s1.results[r].(closed := true)],
        tx := if s1.tx.open == Some(r) then s1.tx.(open := None) else s1.tx)
  }

  /** BatchResults.Close. */
  function CloseResults(w: World, s: State, r: nat): (out: (State, Answer))
    requires WellFormed(s) && r < |s.results|
    ensures WellFormed(out.0)
  {
    if s.results[r].closed then (s, AnswerOf(s.core.readers[r].err))
    else
      var (s2, unwound) := FinishResults(w, WithCore(s, Doomed(Supersede(s.core, r), r)), r);
      (Abandon(s2, r), if unwound then Panicked else AnswerOf(s2.core.readers[r].err))
  }

  function FinishResults(w: World, s: State, r: nat): (out: (State, bool))
    requires WellFormed(s) && r < |s.results|
    ensures WellFormed(out.0) && |out.0.results| == |s.results| && out.0.core.autoErr == s.core.autoErr
  {
    if s.results[r].pipelined then (WithCore(s, FailOpt(s.core, r, FirstErr(Items(s, r)))), false)
    else RunRest(w, s, r)
  }

  // ----- Batches -----

  /** Batch.Queue. */
  function Queue(s: State, b: nat, stmt: Stmt): (out: State)
    requires b < |s.batches|
    ensures WellFormed(s) ==> WellFormed(out)
  {
    var batch := s.batches[b];
    if batch.sent then
      s.(tx := if s.tx.misuse.None? then s.tx.(misuse := Some(New(QueuedAfterSend))) else s.tx,
         core := RecordErr(s.core, New(QueuedAfterSend)))
    else
      s.(tx := if batch.items == [] then s.tx.(unsent := s.tx.unsent + 1) else s.tx,
         batches := s.batches[b := batch.(items := batch.items + [Item(stmt, 0, [], None)])])
  }

  function Statements(items: seq<Item>): seq<Stmt> {
    seq(|items|, i requires 0 <= i < |items| => items[i].stmt)
  }

  /** Batch.failFrom over the items from some index on. */
  function FailAll(items: seq<Item>, e: Error): seq<Item> {
    seq(|items|, i requires 0 <= i < |items| => items[i].(err := Some(e)))
  }

  function FirstUnpackErr(items: seq<Item>): Option<Error> {
    if items == [] then None
    else if items[0].stmt.unpack.Some? then items[0].stmt.unpack
    else FirstUnpackErr(items[1..])
  }

  /** The statements of a batch from index i on, sent together: the server runs them in order and stops at the first
      that fails, whose error every later item carries. */
  function PipeRun(w: World, log: seq<Entry>, b: nat, items: seq<Item>, i: nat): (seq<Entry>, seq<Item>)
    requires i <= |items|
    decreases |items| - i
  {
    if i == |items| then (log, [])
    else
      var it := items[i];
      var log1 := log + [Entry(it.stmt, FromBatch(b, i))];
      match w.server(log, it.stmt)
      case Fail(e) => (log1, FailAll(items[i..], e))
      case Ok(affected, rows, tail, _) =>
        if tail.Some? then (log1, FailAll(items[i..], tail.value))
        else
          var (log2, rest) := PipeRun(w, log1, b, items, i + 1);
          (log2, [Item(it.stmt, affected, rows, None)] + rest)
  }

  datatype Piped = Piped(log: seq<Entry>, items: seq<Item>, unwound: bool)

  /** Batch.pipeline. */
  function Pipeline(w: World, tx: Tx, b: nat, items: seq<Item>): Piped {
    var unpack := FirstUnpackErr(items);
    var reject := w.reject(tx.log, Statements(items));
    if unpack.Some? then Piped(tx.log, FailAll(items, unpack.value), false)
    else if reject.Some? then Piped(tx.log, FailAll(items, reject.value), false)
    else if tx.ended then Piped(tx.log, FailAll(items, New(TxDone)), false)
    else if exists i :: 0 <= i < |items| && items[i].stmt.panics then Piped(tx.log, items, true)
    else
      var (log, ran) := PipeRun(w, tx.log, b, items, 0);
      var late := w.late(tx.log, Statements(items));
      if FirstErr(ran).None? && late.Some? then Piped(log, FailAll(ran, late.value), false)
      else Piped(log, ran, false)
  }

  /** A new BatchResults of batch b. */
  function AddResults(s: State, b: nat, err: Option<Error>): (out: State)
    requires b < |s.batches|
    ensures WellFormed(s) ==> WellFormed(out)
  {
    s.(results := s.results + [Results(b, 0, false, false, false)],
       core := s.core.(readers := s.core.readers + [Reader(err, None)]))
  }

  /** Batch.Send. */
  function Send(w: World, s: State, b: nat): (out: (State, Answer))
    requires WellFormed(s) && b < |s.batches|
    ensures WellFormed(out.0)
  {
    var batch := s.batches[b];
    var r := |s.results|;
    if batch.sent then
      var s1 := AddResults(s, b, None);
      (WithCore(s1, FailWith(s1.core, r, New(AlreadySent)).0), Handle(r))
    else
      var s1 := s.(tx := if batch.items == [] then s.tx else s.tx.(unsent := s.tx.unsent - 1),
                   batches := s.batches[b := batch.(sent := true)]);
      var (c, refusal) := ShortCircuit(s1.core, s1.tx);
      if refusal.Some? then (AddResults(WithCore(s1, c), b, refusal), Handle(r))
      else SendItems(w, AddResults(s1, b, None), b, r)
  }

  function SendItems(w: World, s: State, b: nat, r: nat): (out: (State, Answer))
    requires WellFormed(s) && b < |s.batches| && r < |s.results|
    ensures WellFormed(out.0)
  {
    var items := s.batches[b].items;
    if exists i :: 0 <= i < |items| && items[i].stmt.named then
      (WithCore(s, FailWith(s.core, r, New(NamedArgument)).0), Handle(r))
    else if items == [] then (s, Handle(r))
    else if !s.tx.conn then (s.(tx := s.tx.(open := Some(r))), Handle(r))
    else
      var p := Pipeline(w, s.tx, b, items);
      (s.(tx := s.tx.(open := Some(r), log := p.log),
          batches := s.batches[b := s.batches[b].(items := p.items)],
          results := s.results[r := s.results[r].(pipelined := true, lost := p.unwound)]),
       if p.unwound then Panicked else Handle(r))
  }

  // ----- Finalization -----

  /** What the driver answers a COMMIT: the context was already cancelled and nothing was finalized, or the
      transaction ended with or without an error. */
  datatype CommitOutcome = Cancelled(cause: Error) | Reached(err: Option<Error>)

  function BatchPending(tx: Tx): Option<Error> {
    if tx.misuse.Some? then tx.misuse
    else if tx.unsent > 0 then Some(New(NeverSent))
    else if tx.open.Some? then Some(New(NeverClosed))
    else None
  }

  /** Tx.finalize around the underlying sql.Tx, which itself answers TxDone once it ended. */
  function Finalize(tx: Tx, op: Final, outcome: CommitOutcome): (Tx, Option<Error>) {
    if tx.done || tx.ended then (tx, Some(New(TxDone)))
    else
      match outcome
      case Cancelled(e) => (tx, Some(TraceErr(e)))
      case Reached(e) => (tx.(ended := true, done := e.None?, finals := tx.finals + [op]), TraceOpt(e))
  }

  /** Tx.Commit: refused while a batch would lose statements. */
  function CommitOf(tx: Tx, outcome: CommitOutcome): (Tx, Option<Error>) {
    var pending := BatchPending(tx);
    if pending.Some? then (tx, pending) else Finalize(tx, Commit, outcome)
  }

  function CommitTx(s: State, outcome: CommitOutcome): (out: (State, Option<Error>))
    ensures WellFormed(s) ==> WellFormed(out.0)
  {
    var (tx, e) := CommitOf(s.tx, outcome);
    (s.(tx := tx), e)
  }

  function RollbackTx(s: State, err: Option<Error>): (out: (State, Option<Error>))
    requires WellFormed(s)
    ensures WellFormed(s) ==> WellFormed(out.0)
  {
    var s1 := if s.tx.open.Some? then Abandon(s, s.tx.open.value) else s;
    var (tx, e) := Finalize(s1.tx, Rollback, Reached(err));
    (s1.(tx := tx), e)
  }

  // ----- Plain statements -----

  datatype Via = Directly | Through(stmt: nat)

  predicate ViaExists(s: State, via: Via) {
    via.Through? ==> via.stmt < |s.bound|
  }

  /** The error a bound statement carries from its binding, which every execution answers with. */
  function BindingErr(s: State, via: Via): Option<Error>
    requires ViaExists(s, via)
  {
    if via.Through? then s.bound[via.stmt].err else None
  }

  function PlainStmt(s: State, via: Via, stmt: Stmt): Stmt
    requires ViaExists(s, via)
  {
    if via.Through? then s.bound[via.stmt].stmt else stmt
  }

  function TxExec(w: World, s: State, stmt: Stmt, via: Via): (out: (State, Answer))
    requires ViaExists(s, via)
    ensures WellFormed(s) ==> WellFormed(out.0)
  {
    if BindingErr(s, via).Some? then (s, Failed(BindingErr(s, via).value))
    else
      var (c, tx, ran) := Issue(w, s.core, s.tx, PlainStmt(s, via, stmt), Direct, true);
      (s.(core := c, tx := tx), ExecAnswer(ran))
  }

  function TxQuery(w: World, s: State, stmt: Stmt, via: Via): (out: (State, Answer))
    requires ViaExists(s, via)
    ensures WellFormed(s) ==> WellFormed(out.0)
  {
    if BindingErr(s, via).Some? then (s, Failed(BindingErr(s, via).value))
    else
      var (c, tx, ran) := Issue(w, s.core, s.tx, PlainStmt(s, via, stmt), Direct, false);
      var s1 := s.(core := c, tx := tx);
      if ran.Succeeded? then
        (s1.(plain := s.plain + [PlainRows(ran.cursor)]), Handle(|s.plain|))
      else (s1, ExecAnswer(ran))
  }

  /** QueryRow: an unpacking error is recorded at once, while an execution error waits in the Row for its Scan. */
  function TxQueryRow(w: World, s: State, stmt: Stmt, via: Via): (out: (State, Answer))
    requires ViaExists(s, via)
    ensures WellFormed(s) ==> WellFormed(out.0)
  {
    if BindingErr(s, via).Some? then (s, Failed(BindingErr(s, via).value))
    else
      var (c, refusal) := ShortCircuit(s.core, s.tx);
      if refusal.Some? then (WithCore(s, c), Failed(refusal.value))
      else
        var st := PlainStmt(s, via, stmt);
        var (tx, ran) := Execute(w, s.tx, st, Direct, false);
        var s1 := s.(tx := tx);
        match ran
        case Unwound => (s1, Panicked)
        case Succeeded(_, cursor) => (s1.(plain := s.plain + [PlainRow(cursor)]), Handle(|s.plain|))
        case Refused(e) =>
          if st.unpack.Some? then (WithCore(s1, RecordErr(c, e)), Failed(e))
          else (s1.(plain := s.plain + [FailedRow(e)]), Handle(|s.plain|))
  }

  function Prepare(s: State, stmt: Stmt, fault: Option<Error>): (out: (State, Answer))
    ensures WellFormed(s) ==> WellFormed(out.0)
  {
    var (c, refusal) := ShortCircuit(s.core, s.tx);
    if refusal.Some? then (WithCore(s, c), Failed(refusal.value))
    else
      var e := if stmt.unpack.Some? then stmt.unpack else if s.tx.ended then Some(New(TxDone)) else fault;
      if e.Some? then (WithCore(s, RecordErr(c, TraceErr(e.value))), Failed(TraceErr(e.value)))
      else (s.(bound := s.bound + [Bound(stmt, None, false)]), Handle(|s.bound|))
  }

  /** Tx.StmtContext: binds a statement prepared on the pool, which an open batch refuses. An error the statement brings
      along is passed on, and not recorded. */
  function BindStmt(s: State, stmt: Stmt, carried: Option<Error>): (out: (State, Answer))
    ensures WellFormed(s) ==> WellFormed(out.0)
  {
    if carried.Some? then (s.(bound := s.bound + [Bound(stmt, carried, true)]), Handle(|s.bound|))
    else if BatchRefuses(s.tx) then
      var (c, refusal) := ShortCircuit(s.core, s.tx);
      (s.(core := c, bound := s.bound + [Bound(stmt, refusal, false)]), Handle(|s.bound|))
    else (s.(bound := s.bound + [Bound(stmt, None, false)]), Handle(|s.bound|))
  }

  function PlainNext(s: State, h: nat): (out: (State, Answer))
    requires h < |s.plain| && s.plain[h].PlainRows?
    ensures WellFormed(s) ==> WellFormed(out.0)
  {
    var (cursor, more) := CursorNext(s.plain[h].cursor);
    var s1 := s.(plain := s.plain[h := PlainRows(cursor)]);
    (if more then s1 else WithCore(s1, RecordOpt(s.core, CursorErr(cursor))), More(more))
  }

  /** Rows.Close, which is the embedded sql.Rows's own: what it reports is neither traced nor recorded. */
  function PlainClose(s: State, h: nat): (out: (State, Answer))
    requires h < |s.plain| && s.plain[h].PlainRows?
    ensures WellFormed(s) ==> WellFormed(out.0)
  {
    var cursor := s.plain[h].cursor;
    (s.(plain := s.plain[h := PlainRows(CursorClose(cursor))]), AnswerOf(ClosingErr(cursor)))
  }

  /** The error a Row reports to Scan: of the read of its first row, or of closing behind it. */
  function FirstRowErr(w: World, c: Cursor, dest: Dest): (e: Option<Error>)
    ensures e.None? ==> OnRow(CursorNext(c).0)
  {
    var (c1, more) := CursorNext(c);
    if !more then Some(if CursorErr(c1).Some? then CursorErr(c1).value else New(NoRows))
    else
      var e := CursorScan(w, c1, dest);
      if e.Some? then e else ClosingErr(c1)
  }

  /** The error a plain Rows or Row reports to Scan. */
  function PlainScanErr(w: World, p: Plain, dest: Dest): Option<Error> {
    match p
    case PlainRows(cursor) => CursorScan(w, cursor, dest)
    case PlainRow(cursor) => FirstRowErr(w, cursor, dest)
    case FailedRow(e) => Some(e)
  }

  function PlainErrOf(p: Plain): Option<Error> {
    match p
    case PlainRows(cursor) => CursorErr(cursor)
    case PlainRow(_) => None
    case FailedRow(e) => Some(e)
  }

  /** A Row does not latch NoRows: a missing row is control flow. Rows latch every error. */
  function PlainLatch(c: Core, p: Plain, e: Option<Error>): Core {
    if e.Some? && (p.PlainRows? || e.value.root != NoRows) then RecordErr(c, e.value) else c
  }

  /** The cursor a Scan reads: a Row moves to its first row first. */
  function ReadFrom(p: Plain): Cursor
    requires !p.FailedRow?
  {
    if p.PlainRows? then p.cursor else CursorNext(p.cursor).0
  }

  /** A Row gives its row once: Scan closes it. */
  function Consumed(p: Plain): Plain {
    if p.PlainRow? then PlainRow(CursorClose(ReadFrom(p))) else p
  }

  function PlainScanAnswer(w: World, p: Plain, dest: Dest): Answer {
    var e := PlainScanErr(w, p, dest);
    if e.Some? then Failed(TraceErr(e.value)) else ScanAnswer(ReadFrom(p), None)
  }

  function PlainScan(w: World, s: State, h: nat, dest: Dest): (out: (State, Answer))
    requires h < |s.plain|
    ensures WellFormed(s) ==> WellFormed(out.0)
  {
    var p := s.plain[h];
    (WithCore(s, PlainLatch(s.core, p, PlainScanErr(w, p, dest))).(plain := s.plain[h := Consumed(p)]),
     PlainScanAnswer(w, p, dest))
  }

  function PlainErr(s: State, h: nat): (out: (State, Answer))
    requires h < |s.plain|
    ensures WellFormed(s) ==> WellFormed(out.0)
  {
    var e := PlainErrOf(s.plain[h]);
    (WithCore(s, PlainLatch(s.core, s.plain[h], e)), AnswerOf(TraceOpt(e)))
  }

  // ----- One step of a closure -----

  datatype Op =
    | OpExec(stmt: Stmt, via: Via)
    | OpQuery(stmt: Stmt, via: Via)
    | OpQueryRow(stmt: Stmt, via: Via)
    | OpPrepare(stmt: Stmt, fault: Option<Error>)
    | OpBind(stmt: Stmt, carried: Option<Error>)
    | OpPlainNext(h: nat)
    | OpPlainScan(h: nat, dest: Dest)
    | OpPlainErr(h: nat)
    | OpPlainClose(h: nat)
    | OpBatch
    | OpQueue(b: nat, stmt: Stmt)
    | OpSend(b: nat)
    | OpReadExec(r: nat)
    | OpReadQuery(r: nat)
    | OpClose(r: nat)
    | OpRowsNext(k: nat)
    | OpRowsScan(k: nat, dest: Dest)
    | OpRowsErr(k: nat)
    | OpRowsClose(k: nat)
    | OpRowScan(k: nat, dest: Dest, raw: bool)
    | OpCommit(outcome: CommitOutcome)
    | OpRollback(fault: Option<Error>)

  predicate IsPlain(op: Op) {
    op.OpExec? || op.OpQuery? || op.OpQueryRow? || op.OpPrepare? || op.OpBind? || op.OpPlainNext? || op.OpPlainScan?
    || op.OpPlainErr? || op.OpPlainClose?
  }

  predicate IsRows(op: Op) {
    op.OpRowsNext? || op.OpRowsScan? || op.OpRowsErr? || op.OpRowsClose? || op.OpRowScan?
  }

  /** The closure holds the handle the operation names. */
  predicate Enabled(s: State, op: Op) {
    match op
    case OpExec(_, via) => ViaExists(s, via)
    case OpQuery(_, via) => ViaExists(s, via)
    case OpQueryRow(_, via) => ViaExists(s, via)
    case OpPlainNext(h) => h < |s.plain| && s.plain[h].PlainRows?
    case OpPlainScan(h, _) => h < |s.plain|
    case OpPlainErr(h) => h < |s.plain|
    case OpPlainClose(h) => h < |s.plain| && s.plain[h].PlainRows?
    case OpQueue(b, _) => b < |s.batches|
    case OpSend(b) => b < |s.batches|
    case OpReadExec(r) => r < |s.results| && !s.results[r].lost
    case OpReadQuery(r) => r < |s.results| && !s.results[r].lost
    case OpClose(r) => r < |s.results| && !s.results[r].lost
    case OpRowsNext(k) => k < |s.core.rows|
    case OpRowsScan(k, _) => k < |s.core.rows|
    case OpRowsErr(k) => k < |s.core.rows|
    case OpRowsClose(k) => k < |s.core.rows|
    case OpRowScan(k, _, _) => k < |s.core.rows|
    case _ => true
  }

  function StepPlain(w: World, s: State, op: Op): (out: (State, Answer))
    requires WellFormed(s) && Enabled(s, op) && IsPlain(op)
    ensures WellFormed(out.0)
  {
    match op
    case OpExec(stmt, via) => TxExec(w, s, stmt, via)
    case OpQuery(stmt, via) => TxQuery(w, s, stmt, via)
    case OpQueryRow(stmt, via) => TxQueryRow(w, s, stmt, via)
    case OpPrepare(stmt, fault) => Prepare(s, stmt, fault)
    case OpBind(stmt, carried) => BindStmt(s, stmt, carried)
    case OpPlainNext(h) => PlainNext(s, h)
    case OpPlainScan(h, dest) => PlainScan(w, s, h, dest)
    case OpPlainErr(h) => PlainErr(s, h)
    case OpPlainClose(h) => PlainClose(s, h)
  }

  function StepRows(w: World, c: Core, op: Op): (out: (Core, Answer))
    requires WellFormedCore(c) && IsRows(op) && op.k < |c.rows|
    ensures WellFormedCore(out.0) && Latched(c, out.0)
  {
    match op
    case OpRowsNext(k) => var (c1, more) := RowsNext(c, k); (c1, More(more))
    case OpRowsScan(k, dest) => var (c1, e) := RowsScan(w, c, k, dest); (c1, ScanAnswer(c.rows[k].cursor, e))
    case OpRowsErr(k) => var (c1, e) := RowsErr(c, k); (c1, AnswerOf(e))
    case OpRowsClose(k) => (RowsClose(c, k), AnswerOf(RowsCloseErr(c.rows[k])))
    case OpRowScan(k, dest, raw) =>
      var (c1, e) := RowScan(w, c, k, dest, raw);
      (c1, ScanAnswer(CursorNext(c.rows[k].cursor).0, e))
  }

  function NewBatch(s: State): (out: State)
    ensures WellFormed(s) ==> WellFormed(out)
  {
    s.(batches := s.batches + [Batch([], false)])
  }

  /** Batches, their results, and the end of the transaction. */
  function StepBatch(w: World, s: State, op: Op): (out: (State, Answer))
    requires WellFormed(s) && Enabled(s, op) && !IsPlain(op) && !IsRows(op)
    ensures WellFormed(out.0)
  {
    match op
    case OpBatch => (NewBatch(s), Handle(|s.batches|))
    case OpQueue(b, stmt) => (Queue(s, b, stmt), Done)
    case OpSend(b) => Send(w, s, b)
    case OpReadExec(r) => ReadExec(w, s, r)
    case OpReadQuery(r) => ReadQuery(w, s, r)
    case OpClose(r) => CloseResults(w, s, r)
    case OpCommit(outcome) => var (s1, e) := CommitTx(s, outcome); (s1, AnswerOf(e))
    case OpRollback(fault) => var (s1, e) := RollbackTx(s, fault); (s1, AnswerOf(e))
  }

  function Step(w: World, s: State, op: Op): (out: (State, Answer))
    requires WellFormed(s)
    ensures WellFormed(out.0)
  {
    if !Enabled(s, op) then (s, Invalid)
    else if IsPlain(op) then StepPlain(w, s, op)
    else if IsRows(op) then var (c, a) := StepRows(w, s.core, op); (WithCore(s, c), a)
    else StepBatch(w, s, op)
  }
}
