/** `concurrent.futures.Future` as the state machine the command bus relies on.
    `None` stands for the `InvalidStateError` the library raises. */
module Futures {
  import opened Basics

  datatype CommandResult = CommandResult(corrId: string, ok: bool, detail: string)

  datatype Future =
    | Pending
    | Running
    | Cancelled
    | CancelledAndNotified
    | Finished(result: CommandResult)
  {
    /** The client has been told the outcome; it may no longer change. */
    predicate Terminal() { Cancelled? || CancelledAndNotified? || Finished? }

    /** A `cancel()` on this future has returned True. */
    predicate CancelWon() { Cancelled? || CancelledAndNotified? }

    /** No operation of the bus is still owed to this future. */
    predicate Settled() { CancelledAndNotified? || Finished? }

    function Cancel(): Future { if Pending? then Cancelled else this }

    function SetRunningOrNotifyCancel(): Option<Future> {
      match this
      case Pending => Some(Running)
      case Cancelled => Some(CancelledAndNotified)
      case _ => None
    }

    function SetResult(r: CommandResult): Option<Future> {
      if Pending? || Running? then Some(Finished(r)) else None
    }
  }
}
