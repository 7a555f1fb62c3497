/**
 * A JavaScript `Map` with number keys. A `Map` remembers insertion order: `set` on a present key
 * replaces the value in place, on a new key it appends, and `values()` lists values in that order.
 */
module JsMap {
  import opened Wrappers

  type Entries<V> = seq<(int, V)>

  /** The position of key `k`, if present. */
  function IndexOf<V>(m: Entries<V>, k: int): (r: Option<nat>)
    ensures r.None? <==> forall i :: 0 <= i < |m| ==> m[i].0 != k
    ensures r.Some? ==> r.value < |m| && m[r.value].0 == k
  {
    if m == [] then None
    else if m[0].0 == k then Some(0)
    else match IndexOf(m[1..], k)
      case None => None
      case Some(i) => Some(i + 1)
  }

  /** `m.get(k)`. */
  function Get<V>(m: Entries<V>, k: int): (r: Option<V>)
    ensures r.None? <==> forall i :: 0 <= i < |m| ==> m[i].0 != k
    ensures r.Some? ==> exists i :: 0 <= i < |m| && m[i] == (k, r.value)
  {
    match IndexOf(m, k)
    case None => None
    case Some(i) => Some(m[i].1)
  }

  /** `m.set(k, v)`. */
  function Set<V>(m: Entries<V>, k: int, v: V): (r: Entries<V>)
    ensures IndexOf(m, k).None? ==> r == m + [(k, v)]
    ensures IndexOf(m, k).Some? ==> r == m[IndexOf(m, k).value := (k, v)]
  {
    match IndexOf(m, k)
    case None => m + [(k, v)]
    case Some(i) => m[i := (k, v)]
  }

  /** `Array.from(m.values())`. */
  function Values<V>(m: Entries<V>): (r: seq<V>)
    ensures |r| == |m| && forall i :: 0 <= i < |m| ==> r[i] == m[i].1
  {
    seq(|m|, i requires 0 <= i < |m| => m[i].1)
  }

  /** Keys strictly increasing in insertion order (so, in particular, distinct). */
  predicate KeysIncreasing<V>(m: Entries<V>) {
    forall i, j :: 0 <= i < j < |m| ==> m[i].0 < m[j].0
  }

  /** With distinct keys, `get` finds the one entry for the key. */
  lemma GetUnique<V>(m: Entries<V>, i: nat)
    requires KeysIncreasing(m) && i < |m|
    ensures Get(m, m[i].0) == Some(m[i].1)
  {
  }

  /** After `set(k, v)`, `get(k)` is `v` and every other key reads as before. */
  lemma {:induction false} GetAfterSet<V>(m: Entries<V>, k: int, v: V, k': int)
    ensures Get(Set(m, k, v), k') == if k' == k then Some(v) else Get(m, k')
  {
    if m != [] && m[0].0 != k {
      GetAfterSet(m[1..], k, v, k');
      if m[0].0 == k' {
        assert Set(m, k, v)[0] == m[0];
      } else {
        match IndexOf(m[1..], k)
        case None =>
          assert Set(m, k, v)[1..] == Set(m[1..], k, v);
        case Some(i) =>
          assert Set(m, k, v)[1..] == Set(m[1..], k, v);
      }
    }
  }

  /** Appending an entry appends its value to `values()`. */
  lemma ValuesAppend<V>(m: Entries<V>, k: int, v: V)
    ensures Values(m + [(k, v)]) == Values(m) + [v]
  {
  }

  /** Replacing an entry in place replaces its value in `values()`. */
  lemma ValuesUpdate<V>(m: Entries<V>, i: nat, k: int, v: V)
    requires i < |m|
    ensures Values(m[i := (k, v)]) == Values(m)[i := v]
  {
  }
}
