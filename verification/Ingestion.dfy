/** At-least-once delivery from the event streams, made exactly-once in effect by insert-if-absent
    rows: persist first, acknowledge after, retry what a crash left pending. */
module Ingestion {
  import opened Wrappers
  import opened Candles

  datatype EventKind = MarketBar | MarketTick | ExecutionEvent | TelemetryEvent

  datatype Lane = MarketLane | ExecutionLane | TelemetryLane

  function LaneOf(kind: EventKind): Lane {
    if kind == ExecutionEvent then ExecutionLane
    else if kind in {MarketTick, MarketBar} then MarketLane
    else TelemetryLane
  }

  /** Appending to the execution lane never trims it. */
  function TrimLimit(kind: EventKind, maxLength: nat): Option<nat> {
    if LaneOf(kind) == ExecutionLane then None else Some(maxLength)
  }

  datatype EventRow = EventRow(instance: string, eventType: string, body: string)

  /** A stream record: its identity, the event if payload and time decode, the candle if it is a
      completed one with a zoned time and finite numbers. */
  datatype Record = Record(kind: EventKind, eventId: string, source: string, event: Option<EventRow>,
                           candle: Option<(BarKey, Candle)>)

  datatype Database = Database(events: map<string, EventRow>, bars: map<BarKey, Candle>)

  predicate Decodes(r: Record) {
    r.eventId != "" && r.source != "" && r.event.Some?
  }

  predicate Persistable(r: Record) {
    Decodes(r) && (r.kind == MarketBar ==> r.candle.Some? && Sound(r.candle.value.1))
  }

  /** None: the record cannot be persisted and raises. */
  function Persist(db: Database, r: Record): Option<Database> {
    if !Persistable(r) then None
    else if r.kind == MarketBar then Some(db.(bars := InsertAbsent(db.bars, r.candle.value.0, r.candle.value.1)))
    else Some(db.(events := InsertAbsent(db.events, r.eventId, r.event.value)))
  }

  /** The record's row exists. */
  ghost predicate Stored(db: Database, r: Record) {
    if r.kind == MarketBar then r.candle.Some? && r.candle.value.0 in db.bars else r.eventId in db.events
  }

  // ----- One batch -----

  /** Persist and acknowledge each message in turn; a record that raises is logged and stays pending. */
  function Batch(db: Database, messages: seq<(nat, Record)>): (Database, set<nat>) {
    if messages == [] then (db, {})
    else
      var n := |messages| - 1;
      var (before, acked) := Batch(db, messages[..n]);
      match Persist(before, messages[n].1)
      case None => (before, acked)
      case Some(after) => (after, acked + {messages[n].0})
  }

  class Consumer {
    var db: Database
    var acked: set<nat>

    constructor (db: Database)
      ensures this.db == db && acked == {}
    {
      this.db := db;
      acked := {};
    }

    method Handle(messages: seq<(nat, Record)>)
      modifies this
      ensures db == Batch(old(db), messages).0
      ensures acked == old(acked) + Batch(old(db), messages).1
    {
      for i := 0 to |messages|
        invariant db == Batch(old(db), messages[..i]).0
        invariant acked == old(acked) + Batch(old(db), messages[..i]).1
      {
        assert messages[..i + 1][..i] == messages[..i];
        var (id, record) := messages[i];
        var after := Persist(db, record);
        if after.Some? {
          db := after.value;
          acked := acked + {id};
        }
      }
      assert messages[..|messages|] == messages;
    }
  }

  // ----- The system over time -----

  datatype Stage = Undelivered | Pending | Acked | Trimmed

  datatype Entry = Entry(record: Record, stage: Stage)

  datatype System = System(log: seq<Entry>, db: Database)

  /** Crash: the consumer dies after the row committed and before the acknowledgement.
      Trim: the bounded lanes may drop old entries at any time. */
  datatype Step =
    | Publish(record: Record)
    | Read(i: nat)
    | Process(i: nat)
    | Crash(i: nat)
    | Trim(i: nat)

  function Next(sys: System, step: Step): System {
    match step
    case Publish(r) => sys.(log := sys.log + [Entry(r, Undelivered)])
    case Read(i) =>
      if i < |sys.log| && sys.log[i].stage == Undelivered then sys.(log := sys.log[i := sys.log[i].(stage := Pending)]) else sys
    case Process(i) =>
      if i < |sys.log| && sys.log[i].stage == Pending then
        match Persist(sys.db, sys.log[i].record)
        case None => sys
        case Some(db) => System(sys.log[i := sys.log[i].(stage := Acked)], db)
      else sys
    case Crash(i) =>
      if i < |sys.log| && sys.log[i].stage == Pending && Persist(sys.db, sys.log[i].record).Some? then
        sys.(db := Persist(sys.db, sys.log[i].record).value)
      else sys
    case Trim(i) =>
      if i < |sys.log| && sys.log[i].stage in {Undelivered, Pending} && TrimLimit(sys.log[i].record.kind, 1).Some? then
        sys.(log := sys.log[i := sys.log[i].(stage := Trimmed)])
      else sys
  }

  function Start(): System {
    System([], Database(map[], map[]))
  }

  function Run(steps: seq<Step>): System {
    if steps == [] then Start() else Next(Run(steps[..|steps| - 1]), steps[|steps| - 1])
  }

  lemma RunSnoc(steps: seq<Step>, step: Step)
    ensures Run(steps + [step]) == Next(Run(steps), step)
  {
    assert (steps + [step])[..|steps|] == steps;
  }

  /** The faults of the system are real: a crash stores the row and leaves the message pending, so that it
      is processed again, and a bounded lane can drop what nobody has processed. */
  lemma FaultsAreReal(sys: System, i: nat)
    requires i < |sys.log|
    ensures sys.log[i].stage == Pending && Persistable(sys.log[i].record) ==>
              && Next(sys, Crash(i)).log == sys.log && Stored(Next(sys, Crash(i)).db, sys.log[i].record)
              && Next(Next(sys, Crash(i)), Process(i)) == Next(sys, Process(i))
    ensures sys.log[i].stage in {Undelivered, Pending} && sys.log[i].record.kind != ExecutionEvent ==>
              Next(sys, Trim(i)).log[i].stage == Trimmed
  {
  }

  // ----- A batch is a run of steps -----

  /** One Process step for each message of a batch. */
  function Handling(messages: seq<(nat, Record)>): seq<Step> {
    seq(|messages|, n requires 0 <= n < |messages| => Process(messages[n].0))
  }

  function Acknowledged(log: seq<Entry>, acked: set<nat>): seq<Entry> {
    seq(|log|, i requires 0 <= i < |log| => if i in acked then log[i].(stage := Acked) else log[i])
  }

  /** The messages of a batch are pending in the log, each once. */
  ghost predicate PendingBatch(log: seq<Entry>, messages: seq<(nat, Record)>) {
    && (forall n | 0 <= n < |messages| :: messages[n].0 < |log| && log[messages[n].0] == Entry(messages[n].1, Pending))
    && (forall m, n | 0 <= m < n < |messages| :: messages[m].0 != messages[n].0)
  }

  lemma {:induction false} BatchAcksItsOwn(db: Database, messages: seq<(nat, Record)>)
    ensures forall id | id in Batch(db, messages).1 :: exists n :: 0 <= n < |messages| && messages[n].0 == id
  {
    if messages != [] {
      BatchAcksItsOwn(db, messages[..|messages| - 1]);
    }
  }

  lemma ProcessMessage(log: seq<Entry>, acked: set<nat>, db: Database, id: nat, r: Record)
    requires id < |log| && id !in acked && log[id] == Entry(r, Pending)
    ensures Next(System(Acknowledged(log, acked), db), Process(id))
            == match Persist(db, r)
               case None => System(Acknowledged(log, acked), db)
               case Some(after) => System(Acknowledged(log, acked + {id}), after)
  {
    hide Persist;
    assert Acknowledged(log, acked + {id}) == Acknowledged(log, acked)[id := log[id].(stage := Acked)];
  }

  /** What a consumer does with a batch is what the system does when it processes the batch's messages
      one after the other: the same tables, and the same messages acknowledged. */
  lemma {:induction false} BatchIsProcessing(steps: seq<Step>, messages: seq<(nat, Record)>)
    requires PendingBatch(Run(steps).log, messages)
    ensures var (db, acked) := Batch(Run(steps).db, messages);
            Run(steps + Handling(messages)) == System(Acknowledged(Run(steps).log, acked), db)
  {
    hide Run, Next, Persist;
    var sys := Run(steps);
    if messages == [] {
      assert steps + Handling(messages) == steps;
      assert Acknowledged(sys.log, {}) == sys.log;
    } else {
      var n := |messages| - 1;
      var front := messages[..n];
      var (id, r) := messages[n];
      BatchIsProcessing(steps, front);
      assert steps + Handling(messages) == steps + Handling(front) + [Process(id)];
      RunSnoc(steps + Handling(front), Process(id));
      BatchAcksItsOwn(sys.db, front);
      ProcessMessage(sys.log, Batch(sys.db, front).1, Batch(sys.db, front).0, id, r);
      hide Acknowledged, Handling;
    }
  }

  // ----- Rows never change -----

  ghost predicate Extends(before: Database, after: Database) {
    && (forall k | k in before.events :: k in after.events && after.events[k] == before.events[k])
    && (forall k | k in before.bars :: k in after.bars && after.bars[k] == before.bars[k])
  }

  lemma {:induction false} RowsNeverChange(steps: seq<Step>, n: nat)
    requires n <= |steps|
    ensures Extends(Run(steps[..n]).db, Run(steps).db)
    decreases |steps| - n
  {
    if n == |steps| {
      assert steps[..n] == steps;
    } else {
      assert steps[..n + 1][..n] == steps[..n];
      assert Extends(Run(steps[..n]).db, Run(steps[..n + 1]).db);
      RowsNeverChange(steps, n + 1);
      hide Run;
    }
  }

  // ----- The invariant -----

  /** Every row comes from a published record. */
  ghost predicate Sourced(sys: System) {
    && (forall k | k in sys.db.events :: exists i :: 0 <= i < |sys.log| && RowOf(sys.log[i].record, k, sys.db.events[k]))
    && (forall k | k in sys.db.bars :: exists i :: 0 <= i < |sys.log| && BarOf(sys.log[i].record, k, sys.db.bars[k]))
  }

  ghost predicate RowOf(r: Record, k: string, row: EventRow) {
    Persistable(r) && r.kind != MarketBar && r.eventId == k && r.event == Some(row)
  }

  ghost predicate BarOf(r: Record, k: BarKey, c: Candle) {
    Persistable(r) && r.kind == MarketBar && r.candle == Some((k, c))
  }

  /** Acknowledged means stored; an execution event is never trimmed. */
  ghost predicate EntryOk(e: Entry, db: Database) {
    && (e.stage == Acked ==> Persistable(e.record) && Stored(db, e.record))
    && (e.record.kind == ExecutionEvent ==> e.stage != Trimmed)
  }

  ghost predicate Inv(sys: System) {
    Sourced(sys) && forall i | 0 <= i < |sys.log| :: EntryOk(sys.log[i], sys.db)
  }

  /** Sourced depends on the records only, not on their stages. */
  lemma SourcedStages(sys: System, log: seq<Entry>)
    requires Sourced(sys) && |sys.log| <= |log|
    requires forall i | 0 <= i < |sys.log| :: log[i].record == sys.log[i].record
    ensures Sourced(sys.(log := log))
  {
  }

  lemma StepKeeps(sys: System, step: Step)
    requires Inv(sys)
    ensures Inv(Next(sys, step))
  {
    hide Sourced, EntryOk, Extends, Persist;
    var next := Next(sys, step);
    match step {
      case Publish(r) =>
        SourcedStages(sys, next.log);
        assert EntryOk(Entry(r, Undelivered), sys.db) by { FreshEntryOk(r, sys.db); }
      case Read(i) =>
        SourcedStages(sys, next.log);
        if i < |sys.log| {
          MovedEntryOk(sys.log[i], Pending, sys.db);
        }
      case Process(i) =>
        if i < |sys.log| && sys.log[i].stage == Pending && Persist(sys.db, sys.log[i].record).Some? {
          PersistKeeps(sys, i);
          SourcedStages(sys.(db := next.db), next.log);
          AckedEntryOk(sys.log[i], sys.db);
        }
      case Crash(i) =>
        if i < |sys.log| && Persist(sys.db, sys.log[i].record).Some? {
          PersistKeeps(sys, i);
        }
      case Trim(i) =>
        SourcedStages(sys, next.log);
        if i < |sys.log| && TrimLimit(sys.log[i].record.kind, 1).Some? {
          MovedEntryOk(sys.log[i], Trimmed, sys.db);
        }
    }
  }

  lemma FreshEntryOk(r: Record, db: Database)
    ensures EntryOk(Entry(r, Undelivered), db)
  {
  }

  lemma MovedEntryOk(e: Entry, stage: Stage, db: Database)
    requires stage == Pending || (stage == Trimmed && e.record.kind != ExecutionEvent)
    ensures EntryOk(e.(stage := stage), db)
  {
  }

  lemma AckedEntryOk(e: Entry, db: Database)
    requires Persist(db, e.record).Some?
    ensures EntryOk(e.(stage := Acked), Persist(db, e.record).value)
  {
  }

  lemma PersistKeeps(sys: System, i: nat)
    requires Inv(sys) && i < |sys.log| && Persist(sys.db, sys.log[i].record).Some?
    ensures Inv(sys.(db := Persist(sys.db, sys.log[i].record).value))
  {
  }

  lemma {:induction false} SystemInvariant(steps: seq<Step>)
    ensures Inv(Run(steps))
  {
    if steps != [] {
      SystemInvariant(steps[..|steps| - 1]);
      StepKeeps(Run(steps[..|steps| - 1]), steps[|steps| - 1]);
      hide Inv, Next;
    }
  }

  // ----- The theorems -----

  /** Whatever crashes happen, an acknowledged message has its row. */
  lemma {:induction false} AckedIsStored(steps: seq<Step>, i: nat)
    requires i < |Run(steps).log| && Run(steps).log[i].stage == Acked
    ensures Stored(Run(steps).db, Run(steps).log[i].record)
  {
    SystemInvariant(steps);
    hide Run;
  }

  /** Every published execution event is still to be delivered, pending, or stored. */
  lemma {:induction false} ExecutionNeverLost(steps: seq<Step>, i: nat)
    requires i < |Run(steps).log| && Run(steps).log[i].record.kind == ExecutionEvent
    ensures Run(steps).log[i].stage in {Undelivered, Pending} || Stored(Run(steps).db, Run(steps).log[i].record)
  {
    SystemInvariant(steps);
    hide Run;
  }

  /** Two records that can both be persisted ask for one row with different contents. */
  ghost predicate Clash(a: Record, c: Record) {
    && Persistable(a) && Persistable(c)
    && if a.kind == MarketBar then
         c.kind == MarketBar && a.candle.value.0 == c.candle.value.0 && a.candle != c.candle
       else
         c.kind != MarketBar && a.eventId == c.eventId && a.event != c.event
  }

  /** An event id, and a candle's key, names one content, as publishers promise. */
  ghost predicate IdsNameContent(log: seq<Entry>) {
    forall i, j | 0 <= i < |log| && 0 <= j < |log| :: !Clash(log[i].record, log[j].record)
  }

  ghost predicate AllAcked(log: seq<Entry>) {
    forall i | 0 <= i < |log| && Persistable(log[i].record) :: log[i].stage == Acked
  }

  ghost predicate SameRecords(a: seq<Entry>, c: seq<Entry>) {
    |a| == |c| && forall i | 0 <= i < |a| :: a[i].record == c[i].record
  }

  lemma EventsCarryOver(a: System, c: System)
    requires Inv(a) && Inv(c) && SameRecords(a.log, c.log) && IdsNameContent(a.log) && AllAcked(c.log)
    ensures forall k | k in a.db.events :: k in c.db.events && c.db.events[k] == a.db.events[k]
  {
  }

  lemma BarsCarryOver(a: System, c: System)
    requires Inv(a) && Inv(c) && SameRecords(a.log, c.log) && IdsNameContent(a.log) && AllAcked(c.log)
    ensures forall k | k in a.db.bars :: k in c.db.bars && c.db.bars[k] == a.db.bars[k]
  {
  }

  lemma SameTables(a: System, c: System)
    requires Inv(a) && Inv(c) && SameRecords(a.log, c.log) && IdsNameContent(a.log)
    requires AllAcked(a.log) && AllAcked(c.log)
    ensures a.db == c.db
  {
    assert SameRecords(c.log, a.log) && IdsNameContent(c.log) by { IdsCarryOver(a.log, c.log); }
    hide *;
    EventsCarryOver(a, c);
    EventsCarryOver(c, a);
    BarsCarryOver(a, c);
    BarsCarryOver(c, a);
    assert a.db.events == c.db.events;
    assert a.db.bars == c.db.bars;
  }

  lemma IdsCarryOver(a: seq<Entry>, c: seq<Entry>)
    requires SameRecords(a, c) && IdsNameContent(a)
    ensures SameRecords(c, a) && IdsNameContent(c)
  {
  }

  /** Exactly-once effect: two runs that published the same records, once everything persistable is
      acknowledged, end with the same tables, however often each message was delivered and wherever
      the consumers crashed. */
  lemma ExactlyOnceEffect(steps: seq<Step>, other: seq<Step>)
    requires SameRecords(Run(steps).log, Run(other).log) && IdsNameContent(Run(steps).log)
    requires AllAcked(Run(steps).log) && AllAcked(Run(other).log)
    ensures Run(steps).db == Run(other).db
  {
    hide *;
    SystemInvariant(steps);
    SystemInvariant(other);
    SameTables(Run(steps), Run(other));
  }

  // ----- The hypothesis is needed -----

  /** The run published these records, in this order, and acknowledged all that can be persisted. */
  ghost predicate Completes(steps: seq<Step>, records: seq<Record>) {
    && |Run(steps).log| == |records|
    && (forall i | 0 <= i < |records| :: Run(steps).log[i].record == records[i])
    && AllAcked(Run(steps).log)
  }

  function Publishing(records: seq<Record>): seq<Step> {
    if records == [] then [] else Publishing(records[..|records| - 1]) + [Publish(records[|records| - 1])]
  }

  function Reading(n: nat): seq<Step> {
    if n == 0 then [] else Reading(n - 1) + [Read(n - 1)]
  }

  function Processing(n: nat): seq<Step> {
    if n == 0 then [] else Processing(n - 1) + [Process(n - 1)]
  }

  function Delivered(records: seq<Record>, read: nat): seq<Entry>
    requires read <= |records|
  {
    seq(|records|, i requires 0 <= i < |records| => Entry(records[i], if i < read then Pending else Undelivered))
  }

  lemma {:induction false} PublishingDelivers(records: seq<Record>)
    ensures Run(Publishing(records)) == System(Delivered(records, 0), Start().db)
  {
    if records != [] {
      var n := |records| - 1;
      PublishingDelivers(records[..n]);
      RunSnoc(Publishing(records[..n]), Publish(records[n]));
      assert Delivered(records, 0) == Delivered(records[..n], 0) + [Entry(records[n], Undelivered)];
      hide Run;
    }
  }

  lemma {:induction false} ReadingDelivers(records: seq<Record>, n: nat)
    requires n <= |records|
    ensures Run(Publishing(records) + Reading(n)) == System(Delivered(records, n), Start().db)
  {
    if n == 0 {
      PublishingDelivers(records);
      assert Publishing(records) + [] == Publishing(records);
    } else {
      ReadingDelivers(records, n - 1);
      RunSnoc(Publishing(records) + Reading(n - 1), Read(n - 1));
      assert Publishing(records) + Reading(n) == Publishing(records) + Reading(n - 1) + [Read(n - 1)];
      assert Delivered(records, n) == Delivered(records, n - 1)[n - 1 := Entry(records[n - 1], Pending)];
      hide Run, Publishing, Reading;
    }
  }

  /** Every entry has been read, and those before n that can be persisted are acknowledged. */
  ghost predicate HandledUpTo(log: seq<Entry>, n: nat) {
    && (forall i | 0 <= i < |log| :: log[i].stage in {Pending, Acked})
    && (forall i | 0 <= i < |log| && i < n && Persistable(log[i].record) :: log[i].stage == Acked)
  }

  lemma ProcessHandles(sys: System, n: nat)
    requires n < |sys.log| && HandledUpTo(sys.log, n)
    ensures HandledUpTo(Next(sys, Process(n)).log, n + 1) && SameRecords(sys.log, Next(sys, Process(n)).log)
  {
    hide InsertAbsent, Persistable;
  }

  /** Processing every message in turn acknowledges everything that can be persisted. */
  lemma {:induction false} ProcessingAcks(steps: seq<Step>, n: nat)
    requires n <= |Run(steps).log| && HandledUpTo(Run(steps).log, 0)
    ensures SameRecords(Run(steps).log, Run(steps + Processing(n)).log)
    ensures HandledUpTo(Run(steps + Processing(n)).log, n)
  {
    hide Run, Next, Persistable;
    if n == 0 {
      assert steps + [] == steps;
    } else {
      ProcessingAcks(steps, n - 1);
      RunSnoc(steps + Processing(n - 1), Process(n - 1));
      assert steps + Processing(n) == steps + Processing(n - 1) + [Process(n - 1)];
      hide HandledUpTo;
      ProcessHandles(Run(steps + Processing(n - 1)), n - 1);
    }
  }

  /** Everything is delivered, then message first is processed before all the others. */
  function Favouring(records: seq<Record>, first: nat): seq<Step> {
    Publishing(records) + Reading(|records|) + [Process(first)] + Processing(|records|)
  }

  lemma FirstProcessed(log: seq<Entry>, db: Database, first: nat)
    requires first < |log| && log[first].stage == Pending && Persistable(log[first].record)
    ensures Next(System(log, db), Process(first))
            == System(log[first := log[first].(stage := Acked)], Persist(db, log[first].record).value)
  {
    hide Persistable, InsertAbsent;
  }

  lemma FavouredStays(records: seq<Record>, first: nat)
    requires first < |records| && Persistable(records[first])
    ensures Completes(Favouring(records, first), records)
    ensures Extends(Persist(Start().db, records[first]).value, Run(Favouring(records, first)).db)
  {
    hide Run, Next, Publishing, Reading, Processing, Extends, Persist, Persistable;
    var delivered := Publishing(records) + Reading(|records|);
    var steps := delivered + [Process(first)];
    ReadingDelivers(records, |records|);
    RunSnoc(delivered, Process(first));
    FirstProcessed(Delivered(records, |records|), Start().db, first);
    ProcessingAcks(steps, |records|);
    RowsNeverChange(Favouring(records, first), |steps|);
    assert Favouring(records, first)[..|steps|] == steps;
  }

  /** When two contents ask for one row, the first one processed stays, so the tables depend on the
      order in which the consumers got to the messages. */
  lemma CollidingIdsDiverge(records: seq<Record>, i: nat, j: nat)
    requires i < |records| && j < |records| && Clash(records[i], records[j])
    ensures Completes(Favouring(records, i), records) && Completes(Favouring(records, j), records)
    ensures Run(Favouring(records, i)).db != Run(Favouring(records, j)).db
  {
    FavouredStays(records, i);
    FavouredStays(records, j);
    hide Run, Favouring, Completes;
  }

  /** Whatever the log: all complete runs of its records end with the same tables if and only if no two
      records that can be persisted ask for one row with different contents. */
  lemma SameTablesExactly(records: seq<Record>)
    ensures (forall steps, other | Completes(steps, records) && Completes(other, records) :: Run(steps).db == Run(other).db)
            <==> (forall i, j | 0 <= i < |records| && 0 <= j < |records| :: !Clash(records[i], records[j]))
  {
    hide Run, Clash, Favouring;
    if i: nat, j: nat :| i < |records| && j < |records| && Clash(records[i], records[j]) {
      CollidingIdsDiverge(records, i, j);
    } else {
      forall steps, other | Completes(steps, records) && Completes(other, records)
        ensures Run(steps).db == Run(other).db
      {
        ExactlyOnceEffect(steps, other);
      }
    }
  }
}
