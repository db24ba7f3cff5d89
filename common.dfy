/** Small shared vocabulary: optional values, the three outcomes of a typed
    store read, and duplicate-freedom of a sequence. */
module Common {

  datatype Option<T> = None | Some(value: T)

  /** The outcome of reading one typed record: the read failed (the medium
      could not be read, or the payload does not decode into the requested
      shape), nothing is stored under the key, or the stored value. */
  datatype Fetch<T> = Failed | Absent | Found(value: T)

  function Min(a: int, b: int): int
  {
    if a < b then a else b
  }

  /** No element occurs twice. */
  predicate NoDup<T(==)>(s: seq<T>)
  {
    forall i, j :: 0 <= i < j < |s| ==> s[i] != s[j]
  }
}
