/** Optional values and success-or-error results shared by every module. */
module Wrappers {
  /** A value that may be absent (Java `null`, `Optional.empty()`, JavaScript `undefined`). */
  datatype Option<T> = None | Some(value: T)

  /** The outcome of an operation that either returns a value or raises an error. */
  datatype Result<T, E> = Success(value: T) | Failure(error: E)
}

/** Small facts about finite sets used across the model. */
module Sets {
  /** Picks some element of a non-empty set (for proofs). */
  lemma Pick<T>(s: set<T>) returns (x: T)
    requires s != {}
    ensures x in s
  {
    x :| x in s;
  }

  /** Some element of a non-empty set, fixed once chosen (for specifications). */
  ghost function PickOf<T>(s: set<T>): (x: T)
    requires s != {}
    ensures x in s
  {
    var x :| x in s; x
  }

  /** Picks some element of a non-empty set, as Java's iteration over a set would. */
  method Choose<T>(s: set<T>) returns (x: T)
    requires s != {}
    ensures x in s
  {
    x :| x in s;
  }

  /** A set whose elements are all equal has at most one element. */
  lemma AllEqualAtMostOne<T>(s: set<T>)
    requires forall i, j | i in s && j in s :: i == j
    ensures |s| <= 1
  {
    if s != {} {
      var i := Pick(s);
      forall x ensures x in s <==> x in {i} { }
      assert s == {i};
    }
  }
}
