/** The detector's memory of accepted signals against the unbounded history of acceptances and releases. */
module SignalHistory {
  import opened Wrappers
  import opened OrderedMemory

  const CAPACITY: nat := 512

  class SignalStore<K(==)> {
    var entries: seq<Entry<K, real>>

    constructor ()
      ensures entries == []
    {
      entries := [];
    }

    method Get(k: K) returns (bar: Option<real>)
      ensures bar == Lookup(entries, k)
    {
      bar := Lookup(entries, k);
    }

    /** Insert or refresh at the end, then drop from the front until the bound holds. */
    method Accept(k: K, bar: real)
      modifies this
      ensures entries == Remembered(old(entries), k, bar, CAPACITY)
    {
      entries := Without(entries, k) + [Entry(k, bar)];
      ghost var all := entries;
      while |entries| > CAPACITY
        invariant Newest(entries, CAPACITY) == Newest(all, CAPACITY)
        decreases |entries|
      {
        entries := entries[1..];
      }
    }

    method Release(k: K, bar: Option<real>) returns (released: bool)
      modifies this
      ensures entries == Forgotten(old(entries), k, bar)
      ensures released == Releases(old(entries), k, bar)
    {
      var earlier := Lookup(entries, k);
      if earlier.None? {
        return false;
      }
      if bar.Some? && bar != earlier {
        return false;
      }
      entries := Without(entries, k);
      released := true;
    }
  }

  datatype Op<K> = Accept(key: K, bar: real) | Release(key: K, ofBar: Option<real>)

  function Apply<K(==)>(m: seq<Entry<K, real>>, op: Op<K>): seq<Entry<K, real>> {
    match op
    case Accept(k, bar) => Remembered(m, k, bar, CAPACITY)
    case Release(k, bar) => Forgotten(m, k, bar)
  }

  /** The memory after a run of operations. */
  function Run<K(==)>(ops: seq<Op<K>>): seq<Entry<K, real>> {
    if ops == [] then [] else Apply(Run(ops[..|ops| - 1]), ops[|ops| - 1])
  }

  /** The unbounded history: the bar of k's last acceptance, unless it was released since. */
  function Live<K(==)>(ops: seq<Op<K>>, k: K): Option<real> {
    if ops == [] then None
    else
      var before := Live(ops[..|ops| - 1], k);
      match ops[|ops| - 1]
      case Accept(key, bar) => if key == k then Some(bar) else before
      case Release(key, bar) => if key == k && before.Some? && (bar.Some? ==> bar == before) then None else before
  }

  /** The other keys accepted since k was last accepted. */
  function Rivals<K(==)>(ops: seq<Op<K>>, k: K): set<K> {
    if ops == [] then {}
    else
      var before := Rivals(ops[..|ops| - 1], k);
      match ops[|ops| - 1]
      case Accept(key, _) => if key == k then {} else before + {key}
      case Release(_, _) => before
  }

  ghost predicate InOrder<K>(ops: seq<Op<K>>, m: seq<Entry<K, real>>) {
    forall i, j | 0 <= i < j < |m| :: m[j].key in Rivals(ops, m[i].key)
  }

  ghost predicate Faithful<K>(ops: seq<Op<K>>, m: seq<Entry<K, real>>) {
    forall i | 0 <= i < |m| :: Live(ops, m[i].key) == Some(m[i].value)
  }

  ghost predicate Complete<K(!new)>(ops: seq<Op<K>>, m: seq<Entry<K, real>>) {
    forall k: K | Live(ops, k).Some? && Lookup(m, k).None? :: CAPACITY <= |Rivals(ops, k)|
  }

  ghost predicate Refines<K(!new)>(ops: seq<Op<K>>, m: seq<Entry<K, real>>) {
    |m| <= CAPACITY && Distinct(m) && Faithful(ops, m) && InOrder(ops, m) && Complete(ops, m)
  }

  lemma {:induction false} WithoutInOrder<K>(ops: seq<Op<K>>, m: seq<Entry<K, real>>, k: K)
    requires Distinct(m) && InOrder(ops, m)
    ensures InOrder(ops, Without(m, k))
  {
    hide Rivals, Lookup;
    if m != [] {
      var n := |m| - 1;
      assert Distinct(m[..n]) && InOrder(ops, m[..n]);
      WithoutInOrder(ops, m[..n], k);
      WithoutKeeps(m[..n], k);
      InOrderGrows(ops, m, Without(m[..n], k));
    }
  }

  lemma InOrderGrows<K>(ops: seq<Op<K>>, m: seq<Entry<K, real>>, rest: seq<Entry<K, real>>)
    requires m != [] && InOrder(ops, m) && InOrder(ops, rest) && forall e | e in rest :: e in m[..|m| - 1]
    ensures InOrder(ops, rest + [m[|m| - 1]])
  {
    hide Rivals;
    var n := |m| - 1;
    forall i | 0 <= i < |rest|
      ensures m[n].key in Rivals(ops, rest[i].key)
    {
      assert rest[i] in rest;
      var j :| 0 <= j < n && m[j] == rest[i];
    }
  }

  function KeysOf<K>(m: seq<Entry<K, real>>): set<K> {
    set e | e in m :: e.key
  }

  lemma {:induction false} KeysCount<K>(m: seq<Entry<K, real>>)
    requires Distinct(m)
    ensures |KeysOf(m)| == |m|
  {
    if m != [] {
      var n := |m| - 1;
      KeysCount(m[..n]);
      assert m == m[..n] + [m[n]];
      assert KeysOf(m) == KeysOf(m[..n]) + {m[n].key};
      assert m[n].key !in KeysOf(m[..n]);
    }
  }

  lemma SubsetCount<T>(a: set<T>, c: set<T>)
    requires a <= c
    ensures |a| <= |c|
    decreases a
  {
    if a != {} {
      var x :| x in a;
      SubsetCount(a - {x}, c - {x});
    }
  }

  lemma AfterAccept<K>(ops: seq<Op<K>>, k: K, bar: real, other: K)
    ensures Live(ops + [Op.Accept(k, bar)], other) == if other == k then Some(bar) else Live(ops, other)
    ensures Rivals(ops + [Op.Accept(k, bar)], other) == if other == k then {} else Rivals(ops, other) + {k}
  {
  }

  lemma AcceptStep<K(!new)>(ops: seq<Op<K>>, m: seq<Entry<K, real>>, k: K, bar: real)
    requires Refines(ops, m)
    ensures var grown := Without(m, k) + [Entry(k, bar)];
            && |grown| <= CAPACITY + 1 && Distinct(grown)
            && Faithful(ops + [Op.Accept(k, bar)], grown)
            && InOrder(ops + [Op.Accept(k, bar)], grown)
            && Complete(ops + [Op.Accept(k, bar)], grown)
  {
    var next := ops + [Op.Accept(k, bar)];
    var rest := Without(m, k);
    WithoutKeeps(m, k);
    WithoutInOrder(ops, m, k);
    AfterAccept(ops, k, bar, k);
    forall i | 0 <= i < |rest|
      ensures rest[i].key != k && Live(next, rest[i].key) == Some(rest[i].value)
      ensures Rivals(next, rest[i].key) == Rivals(ops, rest[i].key) + {k}
    {
      assert rest[i] in m;
      AfterAccept(ops, k, bar, rest[i].key);
    }
    AcceptComplete(ops, m, k, bar);
    hide Live, Rivals, Without, Lookup;
  }

  lemma AcceptComplete<K(!new)>(ops: seq<Op<K>>, m: seq<Entry<K, real>>, k: K, bar: real)
    requires Distinct(m) && Complete(ops, m)
    ensures Complete(ops + [Op.Accept(k, bar)], Without(m, k) + [Entry(k, bar)])
  {
    hide Live, Rivals, Without;
    WithoutKeeps(m, k);
    var next, grown := ops + [Op.Accept(k, bar)], Without(m, k) + [Entry(k, bar)];
    forall other: K | Live(next, other).Some? && Lookup(grown, other).None?
      ensures CAPACITY <= |Rivals(next, other)|
    {
      LookupSnoc(Without(m, k), Entry(k, bar), other);
      AfterAccept(ops, k, bar, other);
      SubsetCount(Rivals(ops, other), Rivals(next, other));
    }
  }

  lemma EvictStep<K(!new)>(ops: seq<Op<K>>, m: seq<Entry<K, real>>)
    requires |m| == CAPACITY + 1 && Distinct(m) && Faithful(ops, m) && InOrder(ops, m) && Complete(ops, m)
    ensures Refines(ops, m[1..])
  {
    KeysCount(m[1..]);
    SubsetCount(KeysOf(m[1..]), Rivals(ops, m[0].key));
    forall k: K | Live(ops, k).Some? && Lookup(m[1..], k).None?
      ensures CAPACITY <= |Rivals(ops, k)|
    {
      if Lookup(m, k).Some? {
        var i := LookupIndex(m, k);
        if 0 < i {
          LookupHit(m[1..], i - 1);
        }
      }
    }
  }

  lemma ReleaseStep<K(!new)>(ops: seq<Op<K>>, m: seq<Entry<K, real>>, k: K, bar: Option<real>)
    requires Refines(ops, m)
    ensures Refines(ops + [Op.Release(k, bar)], Forgotten(m, k, bar))
  {
    var next := ops + [Op.Release(k, bar)];
    assert next[..|ops|] == ops;
    WithoutKeeps(m, k);
    WithoutInOrder(ops, m, k);
    var after := Forgotten(m, k, bar);
    if Lookup(m, k).Some? {
      var i := LookupIndex(m, k);
      assert Live(ops, m[i].key) == Some(m[i].value);
    }
    forall i | 0 <= i < |after|
      ensures Live(next, after[i].key) == Some(after[i].value)
    {
      assert after[i] in m;
      var j :| 0 <= j < |m| && m[j] == after[i];
      LookupHit(m, j);
    }
    forall other: K | Live(next, other).Some? && Lookup(after, other).None?
      ensures CAPACITY <= |Rivals(next, other)|
    {
    }
  }

  /** After any run: at most 512 keys, each with the bar of its unreleased last acceptance, in order
      of last acceptance; and a live key is missing only once 512 other keys were accepted since. */
  lemma {:induction false} MemoryRefinesHistory<K(!new)>(ops: seq<Op<K>>)
    ensures Refines(ops, Run(ops))
  {
    if ops != [] {
      var n := |ops| - 1;
      MemoryRefinesHistory(ops[..n]);
      assert ops == ops[..n] + [ops[n]];
      var m := Run(ops[..n]);
      match ops[n] {
        case Accept(k, bar) =>
          AcceptStep(ops[..n], m, k, bar);
          var grown := Without(m, k) + [Entry(k, bar)];
          if |grown| == CAPACITY + 1 {
            EvictStep(ops, grown);
          }
        case Release(k, bar) =>
          ReleaseStep(ops[..n], m, k, bar);
      }
    }
  }

  /** What the detector relies on: a live key with fewer than 512 later rivals is found with its own bar,
      so the same signal on any other bar is a duplicate. */
  lemma RecentSignalIsKnown<K(!new)>(ops: seq<Op<K>>, k: K)
    requires Live(ops, k).Some? && |Rivals(ops, k)| < CAPACITY
    ensures Lookup(Run(ops), k) == Live(ops, k)
  {
    MemoryRefinesHistory(ops);
    if Lookup(Run(ops), k).Some? {
      var i := LookupIndex(Run(ops), k);
    }
  }

  lemma KnownSignalIsLive<K(!new)>(ops: seq<Op<K>>, k: K)
    requires Lookup(Run(ops), k).Some?
    ensures Live(ops, k) == Lookup(Run(ops), k)
  {
    MemoryRefinesHistory(ops);
    var i := LookupIndex(Run(ops), k);
  }

  // ----- Without releases the bound is exact -----

  ghost predicate NoReleases<K>(ops: seq<Op<K>>) {
    forall i | 0 <= i < |ops| :: ops[i].Accept?
  }

  ghost predicate FollowersExact<K>(ops: seq<Op<K>>, m: seq<Entry<K, real>>) {
    forall i | 0 <= i < |m| :: Rivals(ops, m[i].key) == KeysOf(m[i + 1..])
  }

  lemma KeysSnoc<K>(m: seq<Entry<K, real>>, e: Entry<K, real>)
    ensures KeysOf(m + [e]) == KeysOf(m) + {e.key}
  {
  }

  /** Each remaining entry keeps its followers, less the removed key. */
  lemma {:induction false} WithoutFollowers<K>(m: seq<Entry<K, real>>, k: K, i: nat) returns (at: nat)
    requires Distinct(m) && i < |Without(m, k)|
    ensures at < |m| && m[at] == Without(m, k)[i]
    ensures KeysOf(Without(m, k)[i + 1..]) == KeysOf(m[at + 1..]) - {k}
  {
    hide KeysOf;
    var n := |m| - 1;
    var rest, all := Without(m[..n], k), Without(m, k);
    if i < |rest| {
      at := WithoutFollowers(m[..n], k, i);
      assert m[at + 1..] == m[..n][at + 1..] + [m[n]];
      KeysSnoc(m[..n][at + 1..], m[n]);
      if m[n].key != k {
        assert all[i + 1..] == rest[i + 1..] + [m[n]];
        KeysSnoc(rest[i + 1..], m[n]);
      } else {
        assert all[i + 1..] == rest[i + 1..];
      }
    } else {
      at := n;
      assert m[n + 1..] == [] && all[i + 1..] == [];
      KeysEmpty<K>();
    }
  }

  lemma KeysEmpty<K>()
    ensures KeysOf<K>([]) == {}
  {
  }

  lemma AcceptFollowers<K(!new)>(ops: seq<Op<K>>, m: seq<Entry<K, real>>, k: K, bar: real)
    requires Distinct(m) && FollowersExact(ops, m)
    ensures FollowersExact(ops + [Op.Accept(k, bar)], Without(m, k) + [Entry(k, bar)])
  {
    hide KeysOf, Live, Rivals, Without;
    var next, rest := ops + [Op.Accept(k, bar)], Without(m, k);
    var grown := rest + [Entry(k, bar)];
    WithoutKeeps(m, k);
    forall i | 0 <= i < |grown|
      ensures Rivals(next, grown[i].key) == KeysOf(grown[i + 1..])
    {
      AfterAccept(ops, k, bar, grown[i].key);
      if i < |rest| {
        assert rest[i] in rest;
        var at := WithoutFollowers(m, k, i);
        assert grown[i + 1..] == rest[i + 1..] + [Entry(k, bar)];
        KeysSnoc(rest[i + 1..], Entry(k, bar));
      } else {
        assert grown[i + 1..] == [];
        KeysEmpty<K>();
      }
    }
  }

  lemma {:induction false} FollowersAlways<K(!new)>(ops: seq<Op<K>>)
    requires NoReleases(ops)
    ensures FollowersExact(ops, Run(ops))
  {
    if ops != [] {
      var n := |ops| - 1;
      FollowersAlways(ops[..n]);
      MemoryRefinesHistory(ops[..n]);
      var m := Run(ops[..n]);
      assert ops == ops[..n] + [ops[n]];
      AcceptFollowers(ops[..n], m, ops[n].key, ops[n].bar);
      var grown := Without(m, ops[n].key) + [Entry(ops[n].key, ops[n].bar)];
      WithoutKeeps(m, ops[n].key);
      if |grown| == CAPACITY + 1 {
        forall i | 0 <= i < CAPACITY
          ensures Rivals(ops, grown[1..][i].key) == KeysOf(grown[1..][i + 1..])
        {
          assert grown[1..][i + 1..] == grown[i + 2..];
        }
      }
    }
  }

  /** In a run without releases a key is forgotten exactly when 512 others were accepted since. */
  lemma EvictionExactly<K(!new)>(ops: seq<Op<K>>, k: K)
    requires NoReleases(ops) && Live(ops, k).Some?
    ensures Lookup(Run(ops), k).None? <==> CAPACITY <= |Rivals(ops, k)|
  {
    MemoryRefinesHistory(ops);
    FollowersAlways(ops);
    var m := Run(ops);
    if Lookup(m, k).Some? {
      var i := LookupIndex(m, k);
      KeysCount(m[i + 1..]);
    }
  }
}
