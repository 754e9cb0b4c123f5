/** Shared vocabulary: optional values, results and lookups with defaults. */
module Common {

  /** A value that may be absent (SQL NULL, a missing row). */
  datatype Option<T> = None | Some(value: T)

  /** The outcome of an operation that can raise a domain error. */
  datatype Result<T, E> = Ok(value: T) | Err(error: E)

  lemma NoElementEmpty<T>(s: set<T>)
    requires forall x :: x !in s
    ensures s == {}
  {
    assert forall x :: x in s <==> x in {};
  }

  /** Some element of a non-empty set, so that a later `:|` can pick one. */
  lemma Pick<T>(s: set<T>) returns (y: T)
    requires s != {}
    ensures y in s
  {
    if forall x :: x !in s {
      NoElementEmpty(s);
    }
    y :| y in s;
  }

  /** Python's `d.get(k, default)`. */
  function GetOr<K, V>(m: map<K, V>, k: K, default: V): V
  {
    if k in m then m[k] else default
  }
}
