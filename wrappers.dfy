/** Small value types shared by every module of the model. */
module Wrappers {

  /** Swift's `Optional`. */
  datatype Option<+T> = None | Some(value: T) {

    /** The `??` operator: the wrapped value, or `default` when absent. */
    function GetOr(default: T): T {
      match this
      case Some(v) => v
      case None => default
    }

    /** The `a ?? b` operator when `b` is itself optional. */
    function OrElse(other: Option<T>): Option<T> {
      if Some? then this else other
    }
  }

  /** An octet, as Foundation's `Data` and C's `unsigned char` hold it. */
  newtype byte = x: int | 0 <= x < 256

  /** The 16-bit unsigned integers of Swift's `UInt16`. */
  newtype uint16 = x: int | 0 <= x < 0x1_0000

  type Bytes = seq<byte>

  /** All elements of `s` are pairwise distinct. */
  predicate Distinct<T(==)>(s: seq<T>) {
    forall i, j :: 0 <= i < j < |s| ==> s[i] != s[j]
  }

  /** A sequence without duplicates has as many distinct elements as it has elements. */
  lemma {:induction false} DistinctCardinality<T>(s: seq<T>)
    requires Distinct(s)
    ensures |set x | x in s| == |s|
  {
    if s != [] {
      DistinctCardinality(s[1..]);
      assert (set x | x in s) == (set x | x in s[1..]) + {s[0]};
      assert s[0] !in (set x | x in s[1..]);
    }
  }
}
