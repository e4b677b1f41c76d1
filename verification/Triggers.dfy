/** Always-true predicates that give quantifiers a term to match on. */
module Triggers {
  /** A definition guarded by this is looked at only where a proof mentions it. */
  predicate Unfold<T>(x: T) {
    true
  }
}
