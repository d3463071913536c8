/** The detector's 16-entry cache of forecasts; a failed computation is cached like a result. */
module ForecastCache {
  import opened Wrappers
  import opened OrderedMemory

  const CACHE_SIZE: nat := 16

  class Cache<K(==), V> {
    var entries: seq<Entry<K, V>>

    constructor ()
      ensures entries == []
    {
      entries := [];
    }

    /** No key: compute without caching. A hit moves the entry to the newest end. */
    method Forecast(key: Option<K>, compute: () -> V) returns (answer: V)
      modifies this
      ensures answer == Answer(old(entries), key, compute())
      ensures entries == After(old(entries), key, compute())
    {
      if key.Some? {
        var cached := Lookup(entries, key.value);
        if cached.Some? {
          answer := cached.value;
          entries := Without(entries, key.value) + [Entry(key.value, answer)];
          return;
        }
      }
      answer := compute();
      if key.Some? {
        entries := Without(entries, key.value) + [Entry(key.value, answer)];
        while |entries| > CACHE_SIZE
          invariant Newest(entries, CACHE_SIZE) == Remembered(old(entries), key.value, answer, CACHE_SIZE)
          decreases |entries|
        {
          entries := entries[1..];
        }
      }
    }
  }

  function Answer<K(==), V>(m: seq<Entry<K, V>>, key: Option<K>, computed: V): V {
    if key.Some? && Lookup(m, key.value).Some? then Lookup(m, key.value).value else computed
  }

  function After<K(==), V>(m: seq<Entry<K, V>>, key: Option<K>, computed: V): seq<Entry<K, V>> {
    if key.None? then m
    else if Lookup(m, key.value).Some? then Without(m, key.value) + [Entry(key.value, Lookup(m, key.value).value)]
    else Remembered(m, key.value, computed, CACHE_SIZE)
  }

  datatype Request<K, V> = Request(key: Option<K>, computed: V)

  function Run<K(==), V>(rs: seq<Request<K, V>>): seq<Entry<K, V>> {
    if rs == [] then []
    else After(Run(rs[..|rs| - 1]), rs[|rs| - 1].key, rs[|rs| - 1].computed)
  }

  /** Computing a forecast is a function of its key (model, series, parameters and bar). */
  ghost predicate Deterministic<K, V>(rs: seq<Request<K, V>>) {
    forall i, j | 0 <= i < |rs| && 0 <= j < |rs| && rs[i].key.Some? && rs[i].key == rs[j].key :: rs[i].computed == rs[j].computed
  }

  /** Some request had this key and this result. */
  ghost predicate Computed<K, V>(rs: seq<Request<K, V>>, e: Entry<K, V>) {
    exists i :: 0 <= i < |rs| && rs[i] == Request(Some(e.key), e.value)
  }

  ghost predicate Fresh<K, V>(rs: seq<Request<K, V>>, m: seq<Entry<K, V>>) {
    Distinct(m) && |m| <= CACHE_SIZE && forall e | e in m :: Computed(rs, e)
  }

  lemma ComputedGrows<K, V>(front: seq<Request<K, V>>, r: Request<K, V>, e: Entry<K, V>)
    requires Computed(front, e)
    ensures Computed(front + [r], e)
  {
    var i :| 0 <= i < |front| && front[i] == Request(Some(e.key), e.value);
    assert (front + [r])[i] == front[i];
  }

  /** A lookup leaves the entries it had, without this key, and one for this key. */
  lemma AfterIsFresh<K, V>(front: seq<Request<K, V>>, m: seq<Entry<K, V>>, r: Request<K, V>)
    requires Fresh(front, m)
    ensures Fresh(front + [r], After(m, r.key, r.computed))
  {
    hide Computed, Without;
    forall e | e in m
      ensures Computed(front + [r], e)
    {
      ComputedGrows(front, r, e);
    }
    if r.key.Some? {
      var added := Entry(r.key.value, Answer(m, r.key, r.computed));
      WithoutKeeps(m, r.key.value);
      AddedIsComputed(front, m, r, added);
      hide Lookup;
      var rest := Without(m, r.key.value);
      assert forall i | 0 <= i < |rest| :: rest[i] in rest;
      assert Distinct(rest + [added]);
    }
  }

  lemma AddedIsComputed<K, V>(front: seq<Request<K, V>>, m: seq<Entry<K, V>>, r: Request<K, V>, added: Entry<K, V>)
    requires Fresh(front, m) && r.key.Some? && added == Entry(r.key.value, Answer(m, r.key, r.computed))
    ensures Computed(front + [r], added)
  {
    if Lookup(m, r.key.value).Some? {
      var i := LookupIndex(m, r.key.value);
      assert m[i] in m;
      ComputedGrows(front, r, added);
    } else {
      assert (front + [r])[|front|] == r;
    }
  }

  lemma {:induction false} EntriesAreFresh<K, V>(rs: seq<Request<K, V>>)
    ensures Fresh(rs, Run(rs))
  {
    if rs != [] {
      var front, r := rs[..|rs| - 1], rs[|rs| - 1];
      EntriesAreFresh(front);
      AfterIsFresh(front, Run(front), r);
      assert front + [r] == rs;
      hide Fresh;
    }
  }

  /** Over every run the cache answers as a fresh computation would, and holds at most 16 entries. */
  lemma CacheIsTransparent<K, V>(rs: seq<Request<K, V>>, next: Request<K, V>)
    requires Deterministic(rs + [next])
    ensures Answer(Run(rs), next.key, next.computed) == next.computed
    ensures |Run(rs + [next])| <= CACHE_SIZE
  {
    var all := rs + [next];
    EntriesAreFresh(all);
    EntriesAreFresh(rs);
    if next.key.Some? && Lookup(Run(rs), next.key.value).Some? {
      var k := LookupIndex(Run(rs), next.key.value);
      assert Run(rs)[k] in Run(rs);
      var i :| 0 <= i < |rs| && rs[i] == Request(Some(Run(rs)[k].key), Run(rs)[k].value);
      assert all[i] == rs[i] && all[|rs|] == next;
    }
  }

  // ----- What it holds -----

  /** Every request with a key, most recent last, without a bound. */
  function Recent<K(==), V>(rs: seq<Request<K, V>>): seq<Entry<K, V>> {
    if rs == [] then []
    else
      var before, r := Recent(rs[..|rs| - 1]), rs[|rs| - 1];
      if r.key.None? then before else Without(before, r.key.value) + [Entry(r.key.value, r.computed)]
  }

  lemma {:induction false} RecentIsDistinct<K, V>(rs: seq<Request<K, V>>)
    ensures Distinct(Recent(rs))
  {
    if rs != [] {
      var before, r := Recent(rs[..|rs| - 1]), rs[|rs| - 1];
      RecentIsDistinct(rs[..|rs| - 1]);
      if r.key.Some? {
        WithoutKeeps(before, r.key.value);
        assert forall i | 0 <= i < |Without(before, r.key.value)| :: Without(before, r.key.value)[i] in Without(before, r.key.value);
        hide Without;
      }
    }
  }

  /** With computations that depend on their key alone, the cache is exactly the 16 most recently requested
      keys with their results: a hit and a miss keep the same order. */
  lemma {:induction false} CacheHoldsNewest<K, V>(rs: seq<Request<K, V>>)
    requires Deterministic(rs)
    ensures Run(rs) == Newest(Recent(rs), CACHE_SIZE)
  {
    if rs != [] {
      var front, r := rs[..|rs| - 1], rs[|rs| - 1];
      assert rs == front + [r];
      assert forall i | 0 <= i < |front| :: front[i] == rs[i];
      CacheHoldsNewest(front);
      CacheIsTransparent(front, r);
      RecentIsDistinct(front);
      EntriesAreFresh(front);
      hide Run, Recent, Deterministic;
      if r.key.Some? {
        AnswerIsRemembered(Run(front), r.key.value, r.computed);
        RememberedOfNewest(Recent(front), r.key.value, r.computed, CACHE_SIZE);
      }
      AfterRuns(front, r);
    }
  }

  lemma AfterRuns<K, V>(front: seq<Request<K, V>>, r: Request<K, V>)
    ensures Run(front + [r]) == After(Run(front), r.key, r.computed)
    ensures Newest(Recent(front + [r]), CACHE_SIZE)
            == if r.key.None? then Newest(Recent(front), CACHE_SIZE)
               else Remembered(Recent(front), r.key.value, r.computed, CACHE_SIZE)
  {
    assert (front + [r])[..|front|] == front;
  }

  /** A hit stores what a miss would have stored. */
  lemma AnswerIsRemembered<K, V>(m: seq<Entry<K, V>>, k: K, computed: V)
    requires Distinct(m) && |m| <= CACHE_SIZE && Answer(m, Some(k), computed) == computed
    ensures After(m, Some(k), computed) == Remembered(m, k, computed, CACHE_SIZE)
  {
    WithoutSize(m, k);
    hide Without, Lookup;
  }
}
