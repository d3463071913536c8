/** The bounded, recency-ordered dictionaries of the detector, oldest entry first: its memory of
    accepted signals and its forecast cache. */
module OrderedMemory {
  import opened Wrappers

  datatype Entry<K, V> = Entry(key: K, value: V)

  ghost predicate Distinct<K, V>(m: seq<Entry<K, V>>) {
    forall i, j | 0 <= i < j < |m| :: m[i].key != m[j].key
  }

  function Lookup<K(==), V>(m: seq<Entry<K, V>>, k: K): Option<V> {
    if m == [] then None
    else if m[|m| - 1].key == k then Some(m[|m| - 1].value)
    else Lookup(m[..|m| - 1], k)
  }

  function Without<K(==), V>(m: seq<Entry<K, V>>, k: K): seq<Entry<K, V>> {
    if m == [] then []
    else
      var rest := Without(m[..|m| - 1], k);
      if m[|m| - 1].key == k then rest else rest + [m[|m| - 1]]
  }

  function Newest<K, V>(m: seq<Entry<K, V>>, capacity: nat): seq<Entry<K, V>> {
    if |m| <= capacity then m else m[|m| - capacity..]
  }

  /** Insert or refresh k at the end and drop the oldest entries beyond the capacity. */
  function Remembered<K(==), V>(m: seq<Entry<K, V>>, k: K, v: V, capacity: nat): seq<Entry<K, V>> {
    Newest(Without(m, k) + [Entry(k, v)], capacity)
  }

  /** A release names the value it expects, or none to release whatever is held. */
  predicate Releases<K(==), V(==)>(m: seq<Entry<K, V>>, k: K, expected: Option<V>) {
    Lookup(m, k).Some? && (expected.Some? ==> expected == Lookup(m, k))
  }

  function Forgotten<K(==), V(==)>(m: seq<Entry<K, V>>, k: K, expected: Option<V>): seq<Entry<K, V>> {
    if Releases(m, k, expected) then Without(m, k) else m
  }

  // ----- Reading the list -----

  lemma {:induction false} LookupHit<K, V>(m: seq<Entry<K, V>>, i: nat)
    requires Distinct(m) && i < |m|
    ensures Lookup(m, m[i].key) == Some(m[i].value)
  {
    if i < |m| - 1 {
      LookupHit(m[..|m| - 1], i);
    }
  }

  lemma {:induction false} LookupIndex<K, V>(m: seq<Entry<K, V>>, k: K) returns (i: nat)
    requires Lookup(m, k).Some?
    ensures i < |m| && m[i] == Entry(k, Lookup(m, k).value)
  {
    if m[|m| - 1].key == k {
      i := |m| - 1;
    } else {
      i := LookupIndex(m[..|m| - 1], k);
    }
  }

  lemma LookupSnoc<K, V>(m: seq<Entry<K, V>>, e: Entry<K, V>, k: K)
    ensures Lookup(m + [e], k) == if e.key == k then Some(e.value) else Lookup(m, k)
  {
  }

  lemma {:induction false} WithoutKeeps<K, V>(m: seq<Entry<K, V>>, k: K)
    requires Distinct(m)
    ensures Distinct(Without(m, k)) && |Without(m, k)| <= |m|
    ensures forall e | e in Without(m, k) :: e in m && e.key != k
    ensures forall other: K | other != k :: Lookup(Without(m, k), other) == Lookup(m, other)
    ensures Lookup(Without(m, k), k) == None
    ensures Lookup(m, k).Some? ==> |Without(m, k)| == |m| - 1
  {
    if m != [] {
      var n := |m| - 1;
      WithoutKeeps(m[..n], k);
      forall other: K | other != k
        ensures Lookup(Without(m, k), other) == Lookup(m, other)
      {
        LookupSnoc(Without(m[..n], k), m[n], other);
      }
      if m[n].key != k {
        LookupSnoc(Without(m[..n], k), m[n], k);
      } else {
        assert Lookup(m[..n], k).None? by {
          if Lookup(m[..n], k).Some? {
            var i := LookupIndex(m[..n], k);
          }
        }
        WithoutAbsent(m[..n], k);
      }
    }
  }

  lemma {:induction false} WithoutAbsent<K, V>(m: seq<Entry<K, V>>, k: K)
    requires Lookup(m, k) == None
    ensures Without(m, k) == m
  {
    if m != [] {
      WithoutAbsent(m[..|m| - 1], k);
    }
  }

  lemma {:induction false} WithoutConcat<K, V>(a: seq<Entry<K, V>>, c: seq<Entry<K, V>>, k: K)
    ensures Without(a + c, k) == Without(a, k) + Without(c, k)
  {
    if c == [] {
      assert a + c == a;
    } else {
      var n := |c| - 1;
      WithoutConcat(a, c[..n], k);
      assert (a + c)[..|a + c| - 1] == a + c[..n];
    }
  }

  lemma NewestOfSuffix<K, V>(older: seq<Entry<K, V>>, newer: seq<Entry<K, V>>, capacity: nat)
    requires capacity <= |newer|
    ensures Newest(older + newer, capacity) == Newest(newer, capacity)
  {
  }

  /** Dropping the oldest entries early makes no difference to which are the newest later. */
  lemma RememberedOfNewest<K, V>(m: seq<Entry<K, V>>, k: K, v: V, capacity: nat)
    requires Distinct(m) && 0 < capacity
    ensures Remembered(Newest(m, capacity), k, v, capacity) == Remembered(m, k, v, capacity)
  {
    hide Without, Lookup, Distinct;
    if capacity < |m| {
      var older, newer := m[..|m| - capacity], m[|m| - capacity..];
      assert m == older + newer;
      WithoutConcat(older, newer, k);
      assert Distinct(newer) by { SuffixDistinct(m, |m| - capacity); }
      WithoutSize(newer, k);
      var added := Without(newer, k) + [Entry(k, v)];
      assert Without(m, k) + [Entry(k, v)] == Without(older, k) + added;
      NewestOfSuffix(Without(older, k), added, capacity);
      hide Newest;
    }
  }

  lemma SuffixDistinct<K, V>(m: seq<Entry<K, V>>, n: nat)
    requires n <= |m| && Distinct(m)
    ensures Distinct(m[n..])
  {
  }

  lemma WithoutSize<K, V>(m: seq<Entry<K, V>>, k: K)
    requires Distinct(m)
    ensures if Lookup(m, k).Some? then |Without(m, k)| == |m| - 1 else Without(m, k) == m
  {
    WithoutKeeps(m, k);
    if Lookup(m, k).None? {
      WithoutAbsent(m, k);
    }
  }
}
