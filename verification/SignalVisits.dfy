/** The life of a signal in the detector's memory: admitted, given back when a later stage defers, and
    then open to another bar. */
module SignalVisits {
  import opened Wrappers
  import opened OrderedMemory
  import opened SignalHistory

  // ----- One visit of a signal -----

  /** What the stages after an accepted opportunity decided. */
  datatype Later = AllApprove | SomeDefer | OnlyReject

  /** An accepted technical setup reaching the signal memory on one bar; Idle: an evaluation without one. */
  datatype Visit<K> = Visit(key: K, bar: real, later: Later) | Idle

  predicate Duplicate<K(==)>(m: seq<Entry<K, real>>, k: K, bar: real) {
    Lookup(m, k).Some? && Lookup(m, k) != Some(bar)
  }

  function VisitStep<K(==)>(m: seq<Entry<K, real>>, v: Visit<K>): seq<Entry<K, real>> {
    if v.Idle? || Duplicate(m, v.key, v.bar) then m
    else
      var accepted := Remembered(m, v.key, v.bar, CAPACITY);
      if v.later == SomeDefer then Forgotten(accepted, v.key, Some(v.bar)) else accepted
  }

  lemma RememberedLookup<K>(m: seq<Entry<K, real>>, k: K, bar: real)
    ensures Lookup(Remembered(m, k, bar, CAPACITY), k) == Some(bar)
  {
  }

  /** After a visit that is not a duplicate the key is held with this bar, unless a later stage
      deferred: then it is absent and the next bar may signal again. */
  lemma DeferralGivesBack<K>(m: seq<Entry<K, real>>, v: Visit<K>)
    requires Distinct(m) && v.Visit? && !Duplicate(m, v.key, v.bar)
    ensures Lookup(VisitStep(m, v), v.key) == if v.later == SomeDefer then None else Some(v.bar)
  {
    RememberedLookup(m, v.key, v.bar);
    RememberedDistinct(m, v.key, v.bar);
    WithoutKeeps(Remembered(m, v.key, v.bar, CAPACITY), v.key);
  }

  lemma RememberedDistinct<K>(m: seq<Entry<K, real>>, k: K, bar: real)
    requires Distinct(m)
    ensures Distinct(Remembered(m, k, bar, CAPACITY))
  {
    WithoutKeeps(m, k);
    var rest := Without(m, k);
    hide Without, Lookup;
    DistinctGrows(rest, Entry(k, bar));
    DistinctNewest(rest + [Entry(k, bar)], CAPACITY);
  }

  lemma DistinctGrows<K>(m: seq<Entry<K, real>>, e: Entry<K, real>)
    requires Distinct(m) && forall d | d in m :: d.key != e.key
    ensures Distinct(m + [e])
  {
  }

  lemma DistinctNewest<K>(m: seq<Entry<K, real>>, capacity: nat)
    requires Distinct(m)
    ensures Distinct(OrderedMemory.Newest(m, capacity))
  {
  }

  // ----- Runs of visits -----

  function Visits<K(==)>(vs: seq<Visit<K>>): seq<Entry<K, real>> {
    if vs == [] then [] else VisitStep(Visits(vs[..|vs| - 1]), vs[|vs| - 1])
  }

  /** Visit i was not refused as a duplicate. */
  ghost predicate Admitted<K>(vs: seq<Visit<K>>, i: nat)
    requires i < |vs|
  {
    vs[i].Visit? && !Duplicate(Visits(vs[..i]), vs[i].key, vs[i].bar)
  }

  /** Visit i was approved by every stage. */
  ghost predicate ApprovedAt<K>(vs: seq<Visit<K>>, i: nat)
    requires i < |vs|
  {
    Admitted(vs, i) && vs[i].later == AllApprove
  }

  function KeysSeen<K>(vs: seq<Visit<K>>): set<K> {
    set v | v in vs && v.Visit? :: v.key
  }

  lemma {:induction false} VisitsKeepKeys<K>(vs: seq<Visit<K>>)
    ensures Distinct(Visits(vs)) && KeysOf(Visits(vs)) <= KeysSeen(vs)
  {
    if vs != [] {
      var n := |vs| - 1;
      VisitsKeepKeys(vs[..n]);
      assert vs[n] in vs;
      assert forall v | v in vs[..n] :: v in vs;
      if vs[n].Visit? {
        VisitKeepsKeys(Visits(vs[..n]), vs[n]);
      }
    }
  }

  lemma VisitKeepsKeys<K>(m: seq<Entry<K, real>>, v: Visit<K>)
    requires Distinct(m) && v.Visit?
    ensures Distinct(VisitStep(m, v)) && KeysOf(VisitStep(m, v)) <= KeysOf(m) + {v.key}
  {
    WithoutKeeps(m, v.key);
    RememberedDistinct(m, v.key, v.bar);
    var accepted := Remembered(m, v.key, v.bar, CAPACITY);
    WithoutKeeps(accepted, v.key);
    forall e | e in accepted
      ensures e in m || e.key == v.key
    {
    }
    assert forall e | e in VisitStep(m, v) :: e in m || e.key == v.key;
  }

  /** A visit touches no other key, when the memory has room for every key. */
  lemma VisitKeepsOthers<K>(m: seq<Entry<K, real>>, v: Visit<K>, k: K, keys: set<K>)
    requires Distinct(m) && v.Visit? && KeysOf(m) + {v.key} <= keys && |keys| <= CAPACITY && v.key != k
    ensures Lookup(VisitStep(m, v), k) == Lookup(m, k)
  {
    hide Lookup, Without, KeysOf;
    if !Duplicate(m, v.key, v.bar) {
      WithoutKeeps(m, v.key);
      var grown := Without(m, v.key) + [Entry(v.key, v.bar)];
      LookupSnoc(Without(m, v.key), Entry(v.key, v.bar), k);
      GrownFits(m, v.key, v.bar, keys);
      WithoutKeeps(grown, v.key);
      assert Remembered(m, v.key, v.bar, CAPACITY) == grown;
    }
    hide Remembered, Distinct;
  }

  lemma GrownFits<K>(m: seq<Entry<K, real>>, k: K, bar: real, keys: set<K>)
    requires Distinct(m) && KeysOf(m) + {k} <= keys && |keys| <= CAPACITY
    ensures var grown := Without(m, k) + [Entry(k, bar)]; Distinct(grown) && |grown| <= CAPACITY
  {
    WithoutKeeps(m, k);
    var rest := Without(m, k);
    forall i | 0 <= i < |rest|
      ensures rest[i].key != k
    {
      assert rest[i] in rest;
    }
    var grown := rest + [Entry(k, bar)];
    KeysCount(grown);
    KeysSnoc(rest, Entry(k, bar));
    SubsetCount(KeysOf(grown), keys);
  }

  lemma VisitsSnoc<K>(vs: seq<Visit<K>>, n: nat)
    requires n < |vs|
    ensures Visits(vs[..n + 1]) == VisitStep(Visits(vs[..n]), vs[n])
  {
    assert vs[..n + 1][..n] == vs[..n];
    hide VisitStep;
  }

  lemma SeenSoFar<K>(vs: seq<Visit<K>>, n: nat)
    requires n < |vs|
    ensures KeysSeen(vs[..n]) <= KeysSeen(vs) && (vs[n].Visit? ==> vs[n].key in KeysSeen(vs))
  {
  }

  // ----- The bar a key is held with -----

  /** The bar on which the key was last admitted and not given back: a fold over the key's own visits. */
  function Held<K(==)>(vs: seq<Visit<K>>, k: K): Option<real> {
    if vs == [] then None
    else
      var before, v := Held(vs[..|vs| - 1], k), vs[|vs| - 1];
      if v.Idle? || v.key != k || (before.Some? && before != Some(v.bar)) then before
      else if v.later == SomeDefer then None
      else Some(v.bar)
  }

  /** Barring eviction the memory holds every key exactly so. */
  lemma {:induction false} MemoryIsHeld<K>(vs: seq<Visit<K>>, k: K, n: nat)
    requires n <= |vs| && |KeysSeen(vs)| <= CAPACITY
    ensures Lookup(Visits(vs[..n]), k) == Held(vs[..n], k)
  {
    hide KeysSeen, KeysOf, VisitStep, Lookup;
    if n == 0 {
      assert Lookup<K, real>([], k) == None by { NothingHeld<K>(k); }
    } else {
      var v := vs[n - 1];
      MemoryIsHeld(vs, k, n - 1);
      VisitsSnoc(vs, n - 1);
      assert vs[..n][..n - 1] == vs[..n - 1];
      VisitsKeepKeys(vs[..n - 1]);
      SeenSoFar(vs, n - 1);
      StepIsHeld(Visits(vs[..n - 1]), v, k, KeysSeen(vs));
    }
  }

  lemma NothingHeld<K>(k: K)
    ensures Lookup<K, real>([], k) == None
  {
  }

  lemma StepIsHeld<K>(m: seq<Entry<K, real>>, v: Visit<K>, k: K, keys: set<K>)
    requires Distinct(m) && KeysOf(m) <= keys && |keys| <= CAPACITY && (v.Visit? ==> v.key in keys)
    ensures Lookup(VisitStep(m, v), k)
            == if v.Idle? || v.key != k || (Lookup(m, k).Some? && Lookup(m, k) != Some(v.bar)) then Lookup(m, k)
               else if v.later == SomeDefer then None
               else Some(v.bar)
  {
    if v.Visit? && !Duplicate(m, v.key, v.bar) {
      if v.key == k {
        DeferralGivesBack(m, v);
      } else {
        VisitKeepsOthers(m, v, k, keys);
      }
    }
    hide KeysOf, Remembered, Forgotten, Lookup;
  }

  // ----- When another bar is admitted -----

  predicate IsVisit<K(==)>(v: Visit<K>, k: K, bar: real) {
    v.Visit? && v.key == k && v.bar == bar
  }

  predicate IsOther<K(==)>(v: Visit<K>, k: K, bar: real) {
    v.Visit? && v.key == k && v.bar != bar
  }

  /** Visit d gave the signal of visit i back, and no later visit on that bar before n kept it. */
  ghost predicate GivenBack<K>(vs: seq<Visit<K>>, i: nat, d: nat, n: nat)
    requires i < |vs| && vs[i].Visit? && n <= |vs|
  {
    && i < d < n && IsVisit(vs[d], vs[i].key, vs[i].bar) && vs[d].later == SomeDefer
    && forall e | d < e < n && IsVisit(vs[e], vs[i].key, vs[i].bar) :: vs[e].later == SomeDefer
  }

  ghost predicate IsGivenBack<K>(vs: seq<Visit<K>>, i: nat, n: nat)
    requires i < |vs| && vs[i].Visit? && n <= |vs|
  {
    exists d :: GivenBack(vs, i, d, n)
  }

  /** Visit e is of the signal of visit i on another bar, after it was given back. */
  ghost predicate Reopens<K>(vs: seq<Visit<K>>, i: nat, d: nat, e: nat)
    requires i < |vs| && vs[i].Visit? && e < |vs|
  {
    GivenBack(vs, i, d, e) && IsOther(vs[e], vs[i].key, vs[i].bar)
  }

  ghost predicate OtherAdmitted<K>(vs: seq<Visit<K>>, i: nat, j: nat)
    requires i < |vs| && vs[i].Visit? && j < |vs|
  {
    i < j && Admitted(vs, j) && IsOther(vs[j], vs[i].key, vs[i].bar)
  }

  /** While no other bar was admitted, the key is held with its bar unless it was given back. */
  lemma {:induction false} HeldUntil<K>(vs: seq<Visit<K>>, i: nat, n: nat)
    requires i < n <= |vs| && ApprovedAt(vs, i) && |KeysSeen(vs)| <= CAPACITY
    requires forall j | i < j < n :: !OtherAdmitted(vs, i, j)
    ensures Held(vs[..n], vs[i].key) == if IsGivenBack(vs, i, n) then None else Some(vs[i].bar)
    decreases n
  {
    hide KeysSeen, Visits;
    var k, b, v := vs[i].key, vs[i].bar, vs[n - 1];
    assert vs[..n][..n - 1] == vs[..n - 1];
    MemoryIsHeld(vs, k, n - 1);
    if n - 1 > i {
      HeldUntil(vs, i, n - 1);
      assert !OtherAdmitted(vs, i, n - 1);
      hide Held;
      if v.Visit? && v.key == k && v.bar == b && v.later == SomeDefer {
        assert GivenBack(vs, i, n - 1, n);
      } else if IsGivenBack(vs, i, n - 1) {
        var d :| GivenBack(vs, i, d, n - 1);
        assert IsVisit(v, k, b) || GivenBack(vs, i, d, n);
      }
      if IsGivenBack(vs, i, n) {
        var d :| GivenBack(vs, i, d, n);
        assert d == n - 1 || GivenBack(vs, i, d, n - 1);
      }
    }
  }

  /** After visit i was approved, a visit of its key on another bar is admitted exactly when one comes
      after the signal was given back: deferred on its own bar, and on that bar not kept again since. */
  lemma {:induction false} OtherBarAdmittedExactly<K>(vs: seq<Visit<K>>, i: nat, n: nat)
    requires i < n <= |vs| && ApprovedAt(vs, i) && |KeysSeen(vs)| <= CAPACITY
    ensures (exists j | i < j < n :: OtherAdmitted(vs, i, j)) <==> (exists d, e | i < d < e < n :: Reopens(vs, i, d, e))
    decreases n
  {
    hide KeysSeen, Visits;
    if n - 1 > i {
      OtherBarAdmittedExactly(vs, i, n - 1);
      if !(exists j | i < j < n - 1 :: OtherAdmitted(vs, i, j)) {
        var e := n - 1;
        HeldUntil(vs, i, e);
        MemoryIsHeld(vs, vs[i].key, e);
        assert OtherAdmitted(vs, i, e) <==> IsOther(vs[e], vs[i].key, vs[i].bar) && IsGivenBack(vs, i, e);
        assert forall d :: Reopens(vs, i, d, e) <==> GivenBack(vs, i, d, e) && IsOther(vs[e], vs[i].key, vs[i].bar);
      }
    }
  }

  /** Barring eviction, a signal that is never given back after an approval is approved on no other bar. */
  lemma OneBarPerSignal<K>(vs: seq<Visit<K>>, i: nat, j: nat)
    requires i < j < |vs| && ApprovedAt(vs, i) && ApprovedAt(vs, j) && vs[i].key == vs[j].key
    requires |KeysSeen(vs)| <= CAPACITY && forall d, e | i < d < e <= j :: !Reopens(vs, i, d, e)
    ensures vs[i].bar == vs[j].bar
  {
    OtherBarAdmittedExactly(vs, i, j + 1);
    hide KeysSeen, Visits, Reopens;
    assert !OtherAdmitted(vs, i, j);
  }
}
