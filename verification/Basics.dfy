/** Shared by the models: an optional value, and the history of a state machine. */
module Basics {
  datatype Option<+T> = None | Some(value: T)

  /** The steps taken so far, the latest one last. */
  datatype Run<A> = Start | Then(before: Run<A>, last: A)

  /** `later` goes on from `earlier` by zero or more steps. */
  predicate Extends<A(==)>(later: Run<A>, earlier: Run<A>)
    decreases later
  {
    later == earlier || (later.Then? && Extends(later.before, earlier))
  }
}
