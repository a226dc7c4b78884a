/** Absent values, failing computations and other basics, as used by every other module. */
module Wrappers {

  datatype Option<+T> = None | Some(value: T)

  /** A computation that either yields a value or fails. Error texts are not modelled. */
  datatype Result<+T> = Ok(value: T) | Err {
    predicate IsFailure() {
      Err?
    }

    function PropagateFailure<U>(): Result<U>
      requires Err?
    {
      Err
    }

    function Extract(): T
      requires Ok?
    {
      value
    }
  }

  /** Fails with `Err` unless `condition` holds; meant for `:-`. */
  function Need(condition: bool): Result<()> {
    if condition then Ok(()) else Err
  }

  // ---------- Integers of the source ----------

  type U16 = n: nat | n < 0x1_0000
  type U32 = n: nat | n < 0x1_0000_0000
  type U64 = n: nat | n < 0x1_0000_0000_0000_0000

  // ---------- Sequences ----------

  /** No element stands twice. */
  predicate Distinct<T(==)>(s: seq<T>) {
    forall i, j :: 0 <= i < j < |s| ==> s[i] != s[j]
  }
}
