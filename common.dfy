/** Small shared vocabulary: optional values, map lookup and iteration orders. */
module Common {

  /** A value that may be absent; stands for a Java reference that may be null. */
  datatype Option<T> = None | Some(value: T)

  /** The outcome of an operation that returns a value or throws with a message. */
  datatype Result<T> = Success(value: T) | Failure(error: string)

  /** `Map.get` on a map without null values: absent keys give None. */
  function Lookup<K, V>(m: map<K, V>, k: K): (r: Option<V>)
    ensures r.Some? <==> k in m
    ensures r.Some? ==> r.value == m[k]
  {
    if k in m then Some(m[k]) else None
  }

  /**
   * `order` lists every element of `s` exactly once: the order in which a Java
   * collection whose iteration order is unspecified happens to visit `s`.
   */
  predicate Enumerates<T(!new)>(order: seq<T>, s: set<T>)
  {
    (forall i :: 0 <= i < |order| ==> order[i] in s) &&
    (forall x :: x in s ==> x in order) &&
    (forall i, j :: 0 <= i < j < |order| ==> order[i] != order[j])
  }

  /** The elements of a sequence, as a set. */
  function Elements<T(!new)>(xs: seq<T>): (r: set<T>)
    ensures forall x :: x in r <==> x in xs
  {
    set x | x in xs
  }
}
