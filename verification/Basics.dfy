/**
 Shared vocabulary: optional values, the elements of a sequence, and regrouping of concatenations.
 */
module Basics {

  datatype Option<+T> = None | Some(value: T)

  function Elements<T(==)>(xs: seq<T>): set<T> {
    set x | x in xs
  }

  lemma Regroup<T>(a: seq<T>, b: seq<T>, c: seq<T>)
    ensures a + (b + c) == (a + b) + c
  {
  }
}
