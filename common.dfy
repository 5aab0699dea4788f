/** Shared vocabulary: identifiers and the absent-or-present wrapper that stands for Java's null. */
module Common {

  /** A UUID primary key (cards, users). Only equality matters to the model. */
  type Uuid = nat

  /** `None` models a Java `null` reference, `Some(v)` a present value. */
  datatype Option<+T> = None | Some(value: T)
}
