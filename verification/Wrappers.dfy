/** Shared value types: optional values, results, and the commit rule of a database transaction. */
module Wrappers {

  datatype Option<+T> = None | Some(value: T)

  datatype Result<+T, +E> = Ok(value: T) | Err(error: E)

  /** Milliseconds on the server clock. */
  type Time = int

  /**
    What the database keeps of a transaction callback that throws. An interactive Prisma
    transaction rolls back; KeepOnThrow is the behaviour a callback would have outside one.
    Results that hold for both rules do not depend on the database's choice.
   */
  datatype CommitRule = RollbackOnThrow | KeepOnThrow

  /** The state the database ends in, given the state before and what the callback body did. */
  function Commit<S, T, E>(rule: CommitRule, before: S, after: S, outcome: Result<T, E>): S {
    if outcome.Err? && rule.RollbackOnThrow? then before else after
  }
}
