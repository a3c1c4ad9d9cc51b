/** Plain statements as objects: Stmt, and the Rows and Row its queries give, which latch their errors into the
    transaction. */
module Statements {
  import opened Errors
  import opened Objects
  import S = Session

  /** A session that holds a transaction, some rows and some bound statements, and no batch. */
  ghost function Holding(tx: Tx, plain: seq<S.Plain>, bound: seq<S.Bound>): S.State
    reads tx
  {
    S.State(tx.Core(), tx.View(), [], [], plain, bound)
  }

  class Rows {
    const tx: Tx
    var cursor: S.Cursor

    constructor (tx: Tx, cursor: S.Cursor)
      ensures this.tx == tx && this.cursor == cursor
    {
      this.tx, this.cursor := tx, cursor;
    }

    ghost function Session(): S.State
      reads this, tx
    {
      Holding(tx, [S.PlainRows(cursor)], [])
    }

    /** Next latches the error that ended the iteration, if one did. */
    method Next() returns (more: bool)
      modifies this, tx`err
      ensures (Session(), S.More(more)) == S.PlainNext(old(Session()), 0)
    {
      var next := S.CursorNext(cursor);
      cursor, more := next.0, next.1;
      assert [S.PlainRows(old(cursor))][0 := S.PlainRows(cursor)] == [S.PlainRows(cursor)];
      if !more {
        tx.RecordErr(S.CursorErr(cursor));
      }
    }

    method Scan(dest: S.Dest) returns (a: S.Answer)
      modifies tx`err
      ensures (Session(), a) == S.PlainScan(tx.w, old(Session()), 0, dest)
    {
      var e := S.CursorScan(tx.w, cursor, dest);
      assert [S.PlainRows(cursor)][0 := S.PlainRows(cursor)] == [S.PlainRows(cursor)];
      tx.RecordErr(e);
      a := S.ScanAnswer(cursor, TraceOpt(e));
    }

    /** Close is the embedded one: what it reports is not recorded. */
    method Close() returns (e: Option<Error>)
      modifies this
      ensures (Session(), S.AnswerOf(e)) == S.PlainClose(old(Session()), 0)
    {
      e := S.ClosingErr(cursor);
      cursor := S.CursorClose(cursor);
      assert [S.PlainRows(old(cursor))][0 := S.PlainRows(cursor)] == [S.PlainRows(cursor)];
    }

    method Err() returns (e: Option<Error>)
      modifies tx`err
      ensures (Session(), S.AnswerOf(e)) == S.PlainErr(old(Session()), 0)
    {
      e := S.CursorErr(cursor);
      tx.RecordErr(e);
      e := TraceOpt(e);
    }
  }

  /** A Row has the error of its statement, or a cursor over what the statement gave. */
  class Row {
    const tx: Tx
    const err: Option<Error>
    var cursor: S.Cursor

    constructor (tx: Tx, err: Option<Error>, cursor: S.Cursor)
      ensures this.tx == tx && this.err == err && this.cursor == cursor
    {
      this.tx, this.err, this.cursor := tx, err, cursor;
    }

    ghost function Value(): S.Plain
      reads this
    {
      if err.Some? then S.FailedRow(err.value) else S.PlainRow(cursor)
    }

    ghost function Session(): S.State
      reads this, tx
    {
      Holding(tx, [Value()], [])
    }

    /** A missing row is control flow, and not recorded. */
    method Latch(e: Option<Error>)
      modifies tx`err
      ensures tx.Core() == S.PlainLatch(old(tx.Core()), Value(), e)
    {
      if e.Some? && e.value.root != NoRows {
        tx.RecordErr(e);
      }
    }

    /** Scan reads the first row and closes the Row, which then holds no other. */
    method Scan(dest: S.Dest) returns (a: S.Answer)
      modifies this, tx`err
      ensures (Session(), a) == S.PlainScan(tx.w, old(Session()), 0, dest)
    {
      var e := err;
      ghost var before := Value();
      if err.None? {
        e, a := ScanFirst(dest);
      }
      Latch(e);
      if e.Some? {
        a := S.Failed(TraceErr(e.value));
      }
      assert [before][0 := Value()] == [Value()];
    }

    /** sql.Row.Scan behind a statement that succeeded. */
    method ScanFirst(dest: S.Dest) returns (e: Option<Error>, a: S.Answer)
      requires err.None?
      modifies this
      ensures e == S.PlainScanErr(tx.w, old(Value()), dest) && Value() == S.Consumed(old(Value()))
      ensures e.None? ==> a == S.PlainScanAnswer(tx.w, old(Value()), dest)
    {
      var next := S.CursorNext(cursor);
      cursor, a := next.0, S.Done;
      if !next.1 {
        e := S.CursorErr(cursor);
        if e.None? {
          e := Some(New(NoRows));
        }
      } else {
        e := S.CursorScan(tx.w, cursor, dest);
        if e.None? {
          a := S.ScanAnswer(cursor, None);
          e := S.ClosingErr(cursor);
        }
      }
      cursor := S.CursorClose(cursor);
    }

    method Err() returns (e: Option<Error>)
      modifies tx`err
      ensures (Session(), S.AnswerOf(e)) == S.PlainErr(old(Session()), 0)
    {
      e := err;
      Latch(e);
      e := TraceOpt(e);
    }
  }

  /** A statement bound to a transaction; err is set when an open batch kept it from being bound, or carried over from
      another transaction where one did; which of the two, no method asks. */
  class Stmt {
    const tx: Tx
    const stmt: S.Stmt
    const err: Option<Error>
    const carried: bool

    constructor (tx: Tx, stmt: S.Stmt, err: Option<Error>, carried: bool)
      ensures this.tx == tx && Value() == S.Bound(stmt, err, carried)
    {
      this.tx, this.stmt, this.err, this.carried := tx, stmt, err, carried;
    }

    ghost function Value(): S.Bound {
      S.Bound(stmt, err, carried)
    }

    ghost function Session(): S.State
      reads tx
    {
      Holding(tx, [], [Value()])
    }

    method Exec() returns (a: S.Answer)
      modifies tx`err, tx`log
      ensures (Session(), a) == S.TxExec(tx.w, old(Session()), stmt, S.Through(0))
    {
      if err.Some? {
        return S.Failed(err.value);
      }
      var ran := tx.Issue(stmt, S.Direct, true);
      a := S.ExecAnswer(ran);
    }

    method Query() returns (rows: Rows?, a: S.Answer)
      modifies tx`err, tx`log
      ensures rows != null ==> fresh(rows) && rows.tx == tx
      ensures (Holding(tx, if rows == null then [] else [S.PlainRows(rows.cursor)], [Value()]), a) ==
        S.TxQuery(tx.w, old(Session()), stmt, S.Through(0))
    {
      if err.Some? {
        return null, S.Failed(err.value);
      }
      var ran := tx.Issue(stmt, S.Direct, false);
      if !ran.Succeeded? {
        return null, S.ExecAnswer(ran);
      }
      rows := new Rows(tx, ran.cursor);
      a := S.Handle(0);
      assert [] + [S.PlainRows(rows.cursor)] == [S.PlainRows(rows.cursor)];
    }

    /** An unpacking error is recorded at once; an execution error waits in the Row. */
    method QueryRow() returns (row: Row?, a: S.Answer)
      modifies tx`err, tx`log
      ensures row != null ==> fresh(row) && row.tx == tx
      ensures (Holding(tx, if row == null then [] else [row.Value()], [Value()]), a) ==
        S.TxQueryRow(tx.w, old(Session()), stmt, S.Through(0))
    {
      if err.Some? {
        return null, S.Failed(err.value);
      }
      var refusal := tx.ShortCircuit();
      if refusal.Some? {
        return null, S.Failed(refusal.value);
      }
      var ran := tx.Execute(stmt, S.Direct, false);
      match ran {
        case Unwound => return null, S.Panicked;
        case Succeeded(_, cursor) => row := new Row(tx, None, cursor);
        case Refused(e) =>
          if stmt.unpack.Some? {
            tx.RecordErr(Some(e));
            return null, S.Failed(e);
          }
          row := new Row(tx, Some(e), S.Buffered([]));
      }
      a := S.Handle(0);
      assert [] + [row.Value()] == [row.Value()];
    }
  }

  /** Tx.StmtContext: an error of the statement is passed on; binding is refused, and recorded, while a batch is open.
      */
  method Bind(tx: Tx, stmt: S.Stmt, err: Option<Error>) returns (r: Stmt)
    modifies tx`err
    ensures fresh(r) && r.tx == tx && (r.Session(), S.Handle(0)) == S.BindStmt(old(Holding(tx, [], [])), stmt, err)
  {
    var refusal := err;
    if err.None? && tx.BatchRefuses() {
      refusal := tx.ShortCircuit();
    }
    r := new Stmt(tx, stmt, refusal, err.Some?);
    assert [] + [r.Value()] == [r.Value()];
  }

  /** Tx.PrepareContext, where fault is what the server answers. */
  method Prepare(tx: Tx, stmt: S.Stmt, fault: Option<Error>) returns (r: Stmt?, a: S.Answer)
    modifies tx`err
    ensures r != null ==> fresh(r) && r.tx == tx
    ensures (Holding(tx, [], if r == null then [] else [r.Value()]), a) ==
      S.Prepare(old(Holding(tx, [], [])), stmt, fault)
  {
    var refusal := tx.ShortCircuit();
    if refusal.Some? {
      return null, S.Failed(refusal.value);
    }
    var e := if stmt.unpack.Some? then stmt.unpack else if tx.ended then Some(New(TxDone)) else fault;
    if e.Some? {
      tx.RecordErr(Some(TraceErr(e.value)));
      return null, S.Failed(TraceErr(e.value));
    }
    r := new Stmt(tx, stmt, None, false);
    a := S.Handle(0);
    assert [] + [r.Value()] == [r.Value()];
  }
}
