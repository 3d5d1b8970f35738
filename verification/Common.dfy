/** Shared value types: bytes, optional values and results. */
module Common {

  newtype Byte = b: int | 0 <= b < 256
  type Bytes = seq<Byte>

  datatype Option<+T> = None | Some(value: T)

  datatype Result<+T, +E> = Ok(value: T) | Err(error: E)

  /** The pieces of `parts`, in order, as one sequence. */
  function Flatten<T>(parts: seq<seq<T>>): seq<T> {
    if parts == [] then [] else parts[0] + Flatten(parts[1..])
  }

  lemma FlattenCons<T>(head: seq<T>, rest: seq<seq<T>>)
    ensures Flatten([head] + rest) == head + Flatten(rest)
  {
    assert ([head] + rest)[1..] == rest;
  }

  predicate Distinct<T(==)>(s: seq<T>) {
    forall i, j :: 0 <= i < j < |s| ==> s[i] != s[j]
  }
}
