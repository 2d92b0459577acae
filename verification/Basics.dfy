/** Small datatypes shared by every component. */
module Basics {
  datatype Option<+T> = None | Some(value: T)

  datatype Result<+T, +E> = Ok(value: T) | Err(error: E)

  /** `order` lists every element of `xs` once: one possible iteration order of a hash set. */
  ghost predicate IsOrderOf<T(!new)>(order: seq<T>, xs: set<T>) {
    && (forall x :: x in order <==> x in xs)
    && (forall i, j :: 0 <= i < j < |order| ==> order[i] != order[j])
  }
}
