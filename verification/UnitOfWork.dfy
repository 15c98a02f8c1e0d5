/** Which requests commit their transaction. */
module UnitOfWork {
  // What was reported with Fail: nothing, something that is not an error, or an error with its status.
  datatype Report = Nothing | NotAnError | Reported(status: int)

  // What a handler leaves behind: the written status, the report, and the request to commit an error.
  datatype Response = Response(written: int, report: Report, commitRequested: bool)

  predicate Failed(r: Response) { !r.report.Nothing? || r.written >= 400 }

  // A reported error is rendered later, so its own status counts instead of the one written so far.
  predicate ShouldCommitError(r: Response) {
    && r.commitRequested
    && r.written < 500
    && match r.report
       case Nothing => 400 <= r.written < 500
       case NotAnError => false
       case Reported(status) => 400 <= status < 500
  }

  predicate Commits(r: Response) { !Failed(r) || ShouldCommitError(r) }

  predicate ClientError(status: int) { 400 <= status <= 499 }

  /** Writes are kept of a success, and of a client error that asks for it; never of a server error. */
  lemma CommitsExactly(r: Response)
    ensures Commits(r) <==>
      match r.report
      case Nothing => r.written <= 399 || (r.written <= 499 && r.commitRequested)
      case NotAnError => false
      case Reported(status) => ClientError(status) && r.commitRequested && r.written <= 499
  {
  }

  const SUCCESS := Response(200, Nothing, false)

  function ErrorResponse(status: int, persisted: bool): Response { Response(200, Reported(status), persisted) }

  /** One database behind the middleware, holding the committed state. */
  class Database<S> {
    var stored: S

    constructor (initial: S)
      ensures stored == initial
    {
      stored := initial;
    }

    /**
     * Runs one request: tx is the state its writes lead to. The panic, the callbacks before the commit and the commit
     * itself are outcomes of the environment.
     */
    method Serve(tx: S, r: Response, panicked: bool, beforeCommitOk: bool, commitOk: bool) returns (kept: bool)
      modifies this
      ensures kept <==> !panicked && Commits(r) && beforeCommitOk && commitOk
      ensures stored == if kept then tx else old(stored)
    {
      var committed := false;
      var before := stored;
      kept := false;
      if !panicked {
        if Failed(r) && !ShouldCommitError(r) {
          stored, committed := before, true;
        } else if !beforeCommitOk {
          stored, committed := before, true;
        } else if !commitOk {
          committed := true;
        } else {
          stored, committed, kept := tx, true, true;
        }
      }
      if !committed { stored := before; }
    }
  }
}
