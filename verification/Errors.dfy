/** Errors as the library hands them out: an identity and the number of times the error was traced.

    Tracing wraps an error without changing what it is, so every claim that two runs report "the same error"
    compares roots. */
module Errors {

  datatype Option<+T> = None | Some(value: T)

  datatype Root =
    | Failure(code: nat)     // whatever a database, a driver, a scan or the unpacking of a statement reports
    | NoRows                 // sql.ErrNoRows
    | TxDone                 // sql.ErrTxDone
    | BatchOpen              // a statement issued while a batch's results are open
    | QueuedAfterSend
    | AlreadySent
    | NamedArgument
    | ResultsClosed
    | NoMoreResults
    | Superseded             // rows read after the batch moved on
    | RawBytes
    | ScanWithoutRow
    | StatementPanic
    | NeverSent
    | NeverClosed

  datatype Error = Error(root: Root, traces: nat)

  function New(root: Root): Error {
    Error(root, 0)
  }

  /** Wraps an error once more; the two database/sql sentinels stay bare so that callers can compare with ==. */
  function TraceErr(e: Error): Error {
    if e.root in {NoRows, TxDone} && e.traces == 0 then e else Error(e.root, e.traces + 1)
  }

  function TraceOpt(e: Option<Error>): Option<Error> {
    if e.Some? then Some(TraceErr(e.value)) else None
  }

  /** errors.Is: the target occurs in the chain of wrappings of the error. */
  predicate Is(e: Error, target: Error) {
    e.root == target.root && target.traces <= e.traces
  }

  /** Two optional errors that a caller cannot tell apart except by their traces. */
  predicate SameRoot(a: Option<Error>, b: Option<Error>) {
    a.Some? == b.Some? && (a.Some? ==> a.value.root == b.value.root)
  }
}
