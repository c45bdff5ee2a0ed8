/** The optional value that the source spells None, and a fact about sets. */
module Wrappers {
  datatype Option<+T> = None | Some(value: T)

  /** Some member of a non-empty set. */
  lemma MemberOf<T>(s: set<T>) returns (x: T)
    requires s != {}
    ensures x in s
  {
    x :| x in s;
  }
}
