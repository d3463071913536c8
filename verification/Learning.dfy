/** Recorded trade outcomes: the first valid outcome of a trade is kept for ever, and a statistic as of
    some time reads only trades that had closed by then. */
module Learning {
  import opened Wrappers

  datatype Details = Details(tags: map<string, string>, metrics: map<string, real>)

  /** An outcome as delivered: pnl is None unless it is a finite number; details is None when a tag or
      metric is out of its range. The trade id is trimmed. */
  datatype Outcome = Outcome(tradeId: string, pnl: Option<real>, openedAt: Field<real>, closedAt: Field<real>,
                             riskAmount: Field<real>, details: Option<Details>)

  datatype Record = Record(tradeId: string, pnl: real, openedAt: Option<real>, closedAt: Option<real>,
                           riskAmount: Option<real>, details: Details)

  datatype Reason = Invalid | MissingTradeId | NotPersisted | Recorded | DuplicateIgnored | Conflicting

  function ValueOf<T>(f: Field<T>): Option<T> {
    if f.Given? then Some(f.value) else None
  }

  /** The record of a valid outcome. */
  function Built(o: Outcome): Result<Record, Reason> {
    if o.pnl.None? then Failure(Invalid)
    else if o.tradeId == "" then Failure(MissingTradeId)
    else if o.openedAt.Malformed? || o.closedAt.Malformed? then Failure(Invalid)
    else if o.openedAt.Given? && o.closedAt.Given? && o.closedAt.value < o.openedAt.value then Failure(Invalid)
    else if o.riskAmount.Malformed? || (o.riskAmount.Given? && o.riskAmount.value <= 0.0) then Failure(Invalid)
    else if o.details.None? then Failure(Invalid)
    else Success(Record(o.tradeId, o.pnl.value, ValueOf(o.openedAt), ValueOf(o.closedAt), ValueOf(o.riskAmount), o.details.value))
  }

  /** An outcome is recorded exactly when its result is a finite number, it names its trade, no time or risk
      is malformed, it does not close before it opens, a given risk is positive, and its details are in
      range; the record says what the outcome says, and a field that was not given is absent. */
  lemma BuiltExactly(o: Outcome)
    ensures Built(o).Success? <==>
            && o.pnl.Some? && o.tradeId != "" && o.details.Some?
            && !o.openedAt.Malformed? && !o.closedAt.Malformed? && !o.riskAmount.Malformed?
            && (o.openedAt.Given? && o.closedAt.Given? ==> o.openedAt.value <= o.closedAt.value)
            && (o.riskAmount.Given? ==> 0.0 < o.riskAmount.value)
    ensures Built(o).Success? ==>
              var r := Built(o).value;
              && r.tradeId == o.tradeId && o.pnl == Some(r.pnl) && o.details == Some(r.details)
              && o.openedAt == Stated(r.openedAt) && o.closedAt == Stated(r.closedAt) && o.riskAmount == Stated(r.riskAmount)
    ensures Built(o) == Failure(MissingTradeId) <==> o.pnl.Some? && o.tradeId == ""
    ensures Built(o).Failure? ==> Built(o).error in {Invalid, MissingTradeId}
  {
  }

  function Stated<T>(x: Option<T>): Field<T> {
    if x.Some? then Given(x.value) else Missing
  }

  function Lookup(records: seq<Record>, tradeId: string): Option<Record> {
    if records == [] then None
    else if records[|records| - 1].tradeId == tradeId then Some(records[|records| - 1])
    else Lookup(records[..|records| - 1], tradeId)
  }

  /** One observation: the store afterwards and the reason reported. */
  function Observed(records: seq<Record>, o: Outcome): (seq<Record>, Reason) {
    match Built(o)
    case Failure(reason) => (records, reason)
    case Success(record) =>
      match Lookup(records, record.tradeId)
      case None => (records + [record], Recorded)
      case Some(existing) => (records, if existing == record then DuplicateIgnored else Conflicting)
  }

  /** The process-local store: a dictionary by trade id, iterated in order of insertion. */
  class OutcomeStore {
    var records: seq<Record>

    constructor ()
      ensures records == []
    {
      records := [];
    }

    method Add(record: Record) returns (added: bool)
      modifies this
      ensures added == Lookup(old(records), record.tradeId).None?
      ensures records == if added then old(records) + [record] else old(records)
    {
      var found := Get(record.tradeId);
      added := found.None?;
      if added {
        records := records + [record];
      }
    }

    method Get(tradeId: string) returns (r: Option<Record>)
      ensures r == Lookup(records, tradeId)
    {
      assert records[..|records|] == records;
      for i := 0 to |records|
        invariant Lookup(records, tradeId) == Lookup(records[..|records| - i], tradeId)
      {
        var last := records[|records| - i - 1];
        if last.tradeId == tradeId {
          assert records[..|records| - i][|records| - i - 1] == last;
          return Some(last);
        }
        assert records[..|records| - i][..|records| - i - 1] == records[..|records| - i - 1];
      }
      r := None;
    }
  }

  class Learner {
    const store: OutcomeStore

    constructor (store: OutcomeStore)
      ensures this.store == store
    {
      this.store := store;
    }

    method Observe(o: Outcome) returns (reason: Reason)
      modifies store
      ensures (store.records, reason) == Observed(old(store.records), o)
    {
      var record := Built(o);
      if record.Failure? {
        return record.error;
      }
      var added := store.Add(record.value);
      if added {
        return Recorded;
      }
      var existing := store.Get(record.value.tradeId);
      reason := if existing == Some(record.value) then DuplicateIgnored else Conflicting;
    }
  }

  function Run(outcomes: seq<Outcome>): seq<Record> {
    if outcomes == [] then []
    else Observed(Run(outcomes[..|outcomes| - 1]), outcomes[|outcomes| - 1]).0
  }

  // ----- First writer wins -----

  /** The record of the first valid outcome delivered for a trade. */
  function FirstDelivered(outcomes: seq<Outcome>, tradeId: string): Option<Record> {
    if outcomes == [] then None
    else if Built(outcomes[0]).Success? && outcomes[0].tradeId == tradeId then Some(Built(outcomes[0]).value)
    else FirstDelivered(outcomes[1..], tradeId)
  }

  lemma {:induction false} FirstDeliveredGrows(front: seq<Outcome>, last: Outcome, tradeId: string)
    ensures FirstDelivered(front + [last], tradeId)
            == if FirstDelivered(front, tradeId).Some? then FirstDelivered(front, tradeId)
               else if Built(last).Success? && last.tradeId == tradeId then Some(Built(last).value) else None
  {
    hide Built;
    if front == [] {
      assert FirstDelivered([last][1..], tradeId) == None;
    } else {
      assert (front + [last])[1..] == front[1..] + [last];
      FirstDeliveredGrows(front[1..], last, tradeId);
    }
  }

  lemma BuiltId(o: Outcome)
    ensures Built(o).Success? ==> Built(o).value.tradeId == o.tradeId
  {
  }

  /** After any deliveries the store holds, for every trade, its first valid outcome. */
  lemma {:induction false} StoredIsFirstDelivered(outcomes: seq<Outcome>, tradeId: string)
    ensures Lookup(Run(outcomes), tradeId) == FirstDelivered(outcomes, tradeId)
  {
    hide Built, FirstDelivered;
    if outcomes == [] {
      NothingDelivered(tradeId);
    } else {
      var front, last := outcomes[..|outcomes| - 1], outcomes[|outcomes| - 1];
      StoredIsFirstDelivered(front, tradeId);
      FirstDeliveredGrows(front, last, tradeId);
      assert front + [last] == outcomes;
      BuiltId(last);
      assert Run(outcomes) == Observed(Run(front), last).0;
      assert forall r :: (Run(front) + [r])[..|Run(front)|] == Run(front);
    }
  }

  lemma NothingDelivered(tradeId: string)
    ensures FirstDelivered([], tradeId) == None
  {
  }

  /** What an observation reports: redelivering the stored outcome is ignored, a different outcome of a
      recorded trade is refused, and neither changes the store. */
  lemma ObservationExactly(outcomes: seq<Outcome>, o: Outcome)
    requires Built(o).Success?
    ensures var (after, reason) := Observed(Run(outcomes), o);
            && (reason == Recorded <==> FirstDelivered(outcomes, o.tradeId) == None)
            && (reason == DuplicateIgnored <==> FirstDelivered(outcomes, o.tradeId) == Some(Built(o).value))
            && (reason in {DuplicateIgnored, Conflicting} ==> after == Run(outcomes))
            && reason in {Recorded, DuplicateIgnored, Conflicting}
  {
    BuiltId(o);
    StoredIsFirstDelivered(outcomes, o.tradeId);
    hide Run, FirstDelivered, Built, Lookup;
  }

  // ----- Statistics as of a time -----

  predicate ClosedBy(r: Record, cutoff: real) {
    r.closedAt.Some? && r.closedAt.value <= cutoff
  }

  /** The records a statistic reads, in order of insertion. */
  function Kept(records: seq<Record>, asOf: Option<real>): seq<Record> {
    if asOf.None? then records
    else if records == [] then []
    else
      var front, last := Kept(records[..|records| - 1], asOf), records[|records| - 1];
      if ClosedBy(last, asOf.value) then front + [last] else front
  }

  method Records(records: seq<Record>, asOf: Option<real>) returns (kept: seq<Record>, excluded: int)
    ensures kept == Kept(records, asOf)
    ensures excluded == |records| - |kept| >= 0
  {
    if asOf.None? {
      return records, 0;
    }
    kept := [];
    for i := 0 to |records|
      invariant kept == Kept(records[..i], asOf) && |kept| <= i
    {
      assert records[..i + 1][..i] == records[..i];
      if ClosedBy(records[i], asOf.value) {
        kept := kept + [records[i]];
      }
    }
    assert records[..|records|] == records;
    excluded := |records| - |kept|;
  }

  /** The outcome says that the trade closed after the time, or does not say when. */
  predicate NotClosedBy(o: Outcome, time: real) {
    o.closedAt.Given? ==> o.closedAt.value > time
  }

  /** Evidence as of a time cannot contain the future: whatever is delivered later about trades not
      closed by then, the records read as of that time stay the same. */
  lemma {:induction false} AsOfIgnoresLater(past: seq<Outcome>, later: seq<Outcome>, time: real)
    requires forall o | o in later :: NotClosedBy(o, time)
    ensures Kept(Run(past + later), Some(time)) == Kept(Run(past), Some(time))
  {
    if later == [] {
      assert past + later == past;
    } else {
      var n := |later| - 1;
      AsOfIgnoresLater(past, later[..n], time);
      assert (past + later)[..|past + later| - 1] == past + later[..n];
      hide Kept, Observed, NotClosedBy;
      assert later[n] in later;
      ObservedKeeps(Run(past + later[..n]), later[n], time);
    }
  }

  lemma ObservedKeeps(before: seq<Record>, o: Outcome, time: real)
    requires NotClosedBy(o, time)
    ensures Kept(Observed(before, o).0, Some(time)) == Kept(before, Some(time))
  {
    if Observed(before, o).0 != before {
      assert (before + [Built(o).value])[..|before|] == before;
    }
    hide Lookup;
  }
}
