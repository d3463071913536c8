/** How a signal that was approved on one bar is approved again on the next: in between, its own bar is
    evaluated once more on a quote with a wide spread, and the deferral gives the signal back. */
module SignalReopened {
  import opened Wrappers
  import opened OrderedMemory
  import opened RealMath
  import opened SignalVisits
  import opened EntryTiming
  import opened RiskSizing
  import opened Detector
  import opened Pipeline

  function WideAsk(bid: real, point: real, limit: real): real {
    bid + (limit + 1.0) * point
  }

  /** The same snapshot with a spread one point above the limit. */
  function Widened(s: Snapshot, c: Settings): Snapshot
    requires s.timing.bid.Some? && s.timing.point.Some?
  {
    var ask := Some(WideAsk(s.timing.bid.value, s.timing.point.value, c.timing.maximumSpreadPoints));
    s.(timing := s.timing.(ask := ask), risk := s.risk.(ask := ask))
  }

  /** What makes a snapshot approvable when the memory does not object. */
  ghost predicate Approvable(s: Snapshot, c: Settings)
    requires c.Valid()
  {
    s.Valid() && Offered(s, c).Some? && OutcomeOf([], s, c).Approved()
  }

  /** The memory matters only through duplicates. */
  lemma MemoryOnlyBlocks(m: seq<Entry<SignalKey, real>>, s: Snapshot, c: Settings)
    requires c.Valid() && Approvable(s, c)
    ensures var (key, bar) := Offered(s, c).value;
            && OutcomeOf([], s, c).opportunity.Signalled?
            && OutcomeOf([], s, c).opportunity.key == key && OutcomeOf([], s, c).opportunity.bar == bar
            && (Duplicate(m, key, bar) ==> OutcomeOf(m, s, c).opportunity == DuplicateSignal(key))
            && (!Duplicate(m, key, bar) ==> OutcomeOf(m, s, c) == OutcomeOf([], s, c))
  {
    hide Technical, EntryTiming.Evaluate, RiskSizing.Evaluate, Remembered, Forgotten;
  }

  lemma WideSpread(bid: real, point: real, limit: real)
    requires 0.0 < point && 0.0 < bid && 0.0 < limit
    ensures bid <= WideAsk(bid, point, limit) && (WideAsk(bid, point, limit) - bid) / point > limit
  {
    var extra := (limit + 1.0) * point;
    MulPositive(limit + 1.0, point);
    RatioAgainst(extra, point, limit);
    assert (limit + 1.0) * point == limit * point + point;
  }

  lemma WideQuoteTiming(s: Setup, signalTime: Option<real>, m: TimingMarket, cfg: TimingConfig)
    requires cfg.Valid() && cfg.requireQuote && EntryTiming.Evaluate(s, signalTime, m, cfg).status == Accepted
    ensures m.bid.Some? && m.point.Some?
    ensures var ask := WideAsk(m.bid.value, m.point.value, cfg.maximumSpreadPoints);
            EntryTiming.Evaluate(s, signalTime, m.(ask := Some(ask)), cfg).status == Deferred
  {
    ApprovalLeavesRoom(s, signalTime, m, cfg);
    WideSpread(m.bid.value, m.point.value, cfg.maximumSpreadPoints);
    hide WideAsk, PriceGate, QualityGate, FreshnessGate, SignalAge;
  }

  lemma StagesDefer(o: Opportunity, s: Snapshot, c: Settings)
    requires c.Valid() && c.timing.requireQuote && o.Signalled? && StagesAfter(o, s, c).Approved()
    ensures s.timing.bid.Some? && s.timing.point.Some?
    ensures StagesAfter(o, Widened(s, c), c).opportunity == o && StagesAfter(o, Widened(s, c), c).Defers()
  {
    hide EntryTiming.Evaluate, RiskSizing.Evaluate, WideAsk;
    WideQuoteTiming(o.setup, Some(o.bar), s.timing, c.timing);
  }

  /** On the wide quote the same bar offers the same signal, and timing defers it. */
  lemma WideQuoteDefers(m: seq<Entry<SignalKey, real>>, s: Snapshot, c: Settings)
    requires c.Valid() && c.timing.requireQuote && Approvable(s, c)
    requires !Duplicate(m, Offered(s, c).value.0, Offered(s, c).value.1)
    ensures s.timing.bid.Some? && s.timing.point.Some? && Widened(s, c).Valid()
    ensures OutcomeOf(m, Widened(s, c), c).opportunity == OutcomeOf([], s, c).opportunity
    ensures OutcomeOf(m, Widened(s, c), c).Defers()
  {
    MemoryOnlyBlocks(m, s, c);
    StagesDefer(OutcomeOf([], s, c).opportunity, s, c);
    AdmitsAlike(m, s, c);
    hide Technical, Admit, StagesAfter, Duplicate, Widened;
  }

  lemma AdmitsAlike(m: seq<Entry<SignalKey, real>>, s: Snapshot, c: Settings)
    requires c.Valid() && s.Valid() && s.timing.bid.Some? && s.timing.point.Some?
    ensures Widened(s, c).Valid() && Offered(Widened(s, c), c) == Offered(s, c)
    ensures Admit(m, Widened(s, c), Technical(Widened(s, c).bars, c.detector, c.minimumScore))
            == Admit(m, s, Technical(s.bars, c.detector, c.minimumScore))
  {
    hide Technical, Duplicate;
  }

  /** The second evaluation is refused as a duplicate of the first, which was approved. */
  ghost predicate RefusedAfter(ss: seq<Snapshot>, c: Settings)
    requires |ss| == 2 && AllValid(ss) && c.Valid()
  {
    OutcomeAt(ss, 0, c).Approved() && OutcomeAt(ss, 1, c).opportunity.DuplicateSignal?
  }

  /** The third evaluation is approved on the signal of the first, on another bar, and the second was deferred. */
  ghost predicate ApprovedAgain(ss: seq<Snapshot>, c: Settings)
    requires |ss| == 3 && AllValid(ss) && c.Valid()
  {
    && OutcomeAt(ss, 0, c).Approved() && OutcomeAt(ss, 1, c).Defers() && OutcomeAt(ss, 2, c).Approved()
    && SignalsAgain(ss, 0, 2, c)
  }

  /** Whatever two bars offer one signal, each approvable by itself: directly after the first the second
      is refused as a duplicate, but with the first bar evaluated once more on a wide quote in between
      both are approved. */
  lemma WideQuoteReopens(first: Snapshot, second: Snapshot, c: Settings)
    requires c.Valid() && c.timing.requireQuote && Approvable(first, c) && Approvable(second, c)
    requires Offered(first, c).value.0 == Offered(second, c).value.0 && Offered(first, c).value.1 != Offered(second, c).value.1
    ensures AllValid([first, second]) && RefusedAfter([first, second], c)
    ensures first.timing.bid.Some? && first.timing.point.Some? && AllValid([first, Widened(first, c), second])
    ensures ApprovedAgain([first, Widened(first, c), second], c)
  {
    hide OutcomeOf, Widened, Offered, Duplicate, MemoryAfter, RunAll;
    var (key, bar) := Offered(first, c).value;
    var held := [Entry(key, bar)];
    HeldBlocks(key, bar, Offered(second, c).value.1);
    MemoryOnlyBlocks([], first, c);
    MemoryOnlyBlocks([], second, c);
    MemoryOnlyBlocks(held, second, c);
    WideQuoteDefers(held, first, c);
    MemoryMoves(OutcomeOf([], first, c), OutcomeOf(held, Widened(first, c), c), key, bar);
    ThreeRuns(first, Widened(first, c), second, c);
    ThreeRuns(first, second, second, c);
    hide OutcomeAt;
  }

  lemma HeldBlocks(key: SignalKey, bar: real, other: real)
    requires other != bar
    ensures !Duplicate([Entry(key, bar)], key, bar) && Duplicate([Entry(key, bar)], key, other)
  {
  }

  /** An approval enters the memory and the deferral of the same signal leaves it empty again. */
  lemma MemoryMoves(approved: Outcome, deferred: Outcome, key: SignalKey, bar: real)
    requires approved.Approved() && approved.opportunity.key == key && approved.opportunity.bar == bar
    requires deferred.Defers() && deferred.opportunity == approved.opportunity && !deferred.Approved()
    ensures MemoryAfter([], approved) == [Entry(key, bar)]
    ensures MemoryAfter([Entry(key, bar)], deferred) == []
  {
  }

  lemma ThreeRuns(a: Snapshot, x: Snapshot, z: Snapshot, c: Settings)
    requires c.Valid() && a.Valid() && x.Valid() && z.Valid()
    ensures var m := MemoryAfter([], OutcomeOf([], a, c));
            && OutcomeAt([a, x], 0, c) == OutcomeAt([a, x, z], 0, c) == OutcomeOf([], a, c)
            && OutcomeAt([a, x], 1, c) == OutcomeAt([a, x, z], 1, c) == OutcomeOf(m, x, c)
            && OutcomeAt([a, x, z], 2, c) == OutcomeOf(MemoryAfter(m, OutcomeOf(m, x, c)), z, c)
  {
    hide OutcomeOf, MemoryAfter;
    var ss, pair := [a, x, z], [a, x];
    assert ss[..0] == [] && ss[..1] == [a] && ss[..2] == pair && pair[..0] == [] && pair[..1] == [a] && [a][..0] == [];
  }
}
