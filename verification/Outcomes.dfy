/** How recovery workflows end, and what the exception clauses on the way to a notification's status make
    of it. */
module Outcomes {

  import Protocol

  /** A workflow ends normally or with an exception. Skipped, Ignored, RecoveryFailed, NoReservedHosts and
      LockBusy are the exceptions of these names, MasakariError is any other MasakariException, and
      OtherError is an exception that is none. */
  datatype Outcome = Completed | Skipped | Ignored | RecoveryFailed | NoReservedHosts | LockBusy | MasakariError | OtherError

  /** Completed and Skipped end a recovery for good. */
  predicate Good(o: Outcome) { o == Completed || o == Skipped }

  /** How a call of a handler ends. */
  datatype Handled = Returns(status: Protocol.Status) | Raises

  /** The exception clause of execute_host_failure. */
  function HostDriver(o: Outcome): Outcome
  {
    match o
    case Completed => Completed
    case Skipped | RecoveryFailed | NoReservedHosts => o
    case _ => MasakariError
  }

  /** The exception clauses of the handlers for hosts and for processes; all exceptions but OtherError
      are MasakariExceptions. */
  function StoppedHandler(o: Outcome): Handled
  {
    match o
    case Completed | Skipped => Returns(Protocol.FINISHED)
    case OtherError => Raises
    case _ => Returns(Protocol.ERROR)
  }

  /** The exception clauses of the handler for instances. */
  function InstanceHandler(o: Outcome): Handled
  {
    match o
    case Completed | Skipped => Returns(Protocol.FINISHED)
    case Ignored => Returns(Protocol.IGNORED)
    case OtherError => Raises
    case _ => Returns(Protocol.ERROR)
  }
}
