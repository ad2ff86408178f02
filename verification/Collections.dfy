/** Small shared containers: optional values and the insertion-ordered `Map` of JavaScript. */
module Collections {

  datatype Option<+T> = None | Some(value: T)

  /** No element occurs twice. */
  ghost predicate NoDup<T>(s: seq<T>) {
    forall i, j :: 0 <= i < j < |s| ==> s[i] != s[j]
  }

  /** `s` without the first occurrence of `x`; the others keep their order. */
  function Without<T(==)>(s: seq<T>, x: T): (r: seq<T>)
    ensures x !in s ==> r == s
    ensures x in s ==> |r| == |s| - 1
    ensures forall y :: y in r ==> y in s
    ensures forall y :: y in s && y != x ==> y in r
    ensures NoDup(s) ==> NoDup(r) && x !in r
  {
    if |s| == 0 then []
    else if s[0] == x then s[1..]
    else
      var rest := Without(s[1..], x);
      assert s == [s[0]] + s[1..];
      assert NoDup(s) ==> NoDup([s[0]] + rest) by {
        if NoDup(s) {
          assert NoDup(s[1..]);
          NoDupCons(s[0], rest);
        }
      }
      [s[0]] + rest
  }

  lemma NoDupCons<T>(x: T, s: seq<T>)
    requires NoDup(s) && x !in s
    ensures NoDup([x] + s)
  {
  }

  /** A JavaScript `Map`: keys in insertion order. Overwriting a key keeps its place in the order,
      deleting and setting it again moves it to the end. */
  datatype OMap<K(==, !new), V> = OMap(order: seq<K>, entries: map<K, V>) {

    ghost predicate Valid() {
      NoDup(order) && forall k :: k in order <==> k in entries
    }

    function Get(k: K): Option<V> {
      if k in entries then Some(entries[k]) else None
    }

    function Set(k: K, v: V): (r: OMap<K, V>)
      ensures Valid() ==> r.Valid()
    {
      OMap(if k in entries then order else order + [k], entries[k := v])
    }

    function Delete(k: K): (r: OMap<K, V>)
      ensures Valid() ==> r.Valid()
      ensures Valid() ==> |r.order| == if k in entries then |order| - 1 else |order|
    {
      OMap(Without(order, k), entries - {k})
    }
  }

  function Empty<K(!new), V>(): (r: OMap<K, V>)
    ensures r.Valid()
  {
    OMap([], map[])
  }
}
