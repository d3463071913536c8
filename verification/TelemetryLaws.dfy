/** The candle table is first-writer-wins over any run of requests, candles and deletions, and daily baselines are captured
    once, from the balance that stood before the broker day began. */
module TelemetryLaws {
  import opened Wrappers
  import opened CandleIntake
  import opened Candles
  import opened Telemetry

  const DAY := 86400 * SECOND

  /** What the retention command is told: the symbol, the source (empty: any) and the days to keep per
      timeframe. */
  datatype Retention = Retention(symbol: string, source: string, m1Days: int, m5Days: int, m15Days: int, h1Days: int)

  /** Everything that writes these tables. Consumed: the stream consumer persists a completed candle.
      Legacy: the older heartbeat endpoint, which stores any payload. Manual: an operator records a
      broker-verified opening balance. Pruned: the retention command deletes expired candles. */
  datatype Event =
    | Posted(request: Request, now: int)
    | Consumed(bar: BarKey, candle: Candle)
    | Legacy(instance: string, heartbeat: Heartbeat)
    | Manual(key: DayKey, openingBalance: real, instance: string)
    | Pruned(retention: Retention, now: int)

  function KeptDays(p: Retention, t: Timeframe): Option<int> {
    match t
    case M1 => Some(p.m1Days)
    case M5 => Some(p.m5Days)
    case M15 => Some(p.m15Days)
    case H1 => Some(p.h1Days)
    case Other(_) => None
  }

  /** The command refuses an empty symbol and periods that are not positive. */
  predicate ValidRetention(p: Retention) {
    p.symbol != "" && p.m1Days >= 1 && p.m5Days >= 1 && p.m15Days >= 1 && p.h1Days >= 1
  }

  predicate Expired(p: Retention, now: int, k: BarKey) {
    && k.symbol == p.symbol && (p.source == "" || k.source == p.source)
    && KeptDays(p, k.timeframe).Some? && k.timestamp < now - KeptDays(p, k.timeframe).value * DAY
  }

  predicate Deletes(e: Event, k: BarKey) {
    e.Pruned? && ValidRetention(e.retention) && Expired(e.retention, e.now, k)
  }

  /** Retention deletes a candle exactly when a valid command names its symbol, and its source or none, and
      it is older than the days kept of its timeframe; other timeframes are never deleted. */
  lemma DeletesExactly(p: Retention, now: int, k: BarKey)
    ensures Deletes(Pruned(p, now), k) <==>
            && p.symbol != "" && p.symbol == k.symbol && p.source in {"", k.source}
            && 1 <= p.m1Days && 1 <= p.m5Days && 1 <= p.m15Days && 1 <= p.h1Days
            && var age := now - k.timestamp;
               || (k.timeframe == M1 && p.m1Days * 86400 * SECOND < age)
               || (k.timeframe == M5 && p.m5Days * 86400 * SECOND < age)
               || (k.timeframe == M15 && p.m15Days * 86400 * SECOND < age)
               || (k.timeframe == H1 && p.h1Days * 86400 * SECOND < age)
  {
  }

  function Next(store: Store, e: Event): Store {
    match e
    case Posted(r, now) => Post(store, r, now).0
    case Consumed(k, c) => if Sound(c) then store.(bars := InsertAbsent(store.bars, k, c)) else store
    case Legacy(instance, h) =>
      if instance == "" then store else store.(heartbeats := store.heartbeats[instance := h])
    case Manual(key, balance, instance) =>
      store.(baselines := InsertAbsent(store.baselines, key, Baseline(balance, instance, ManualBroker)))
    case Pruned(p, now) => store.(bars := map k | k in store.bars && !Deletes(e, k) :: store.bars[k])
  }

  function Run(events: seq<Event>): Store {
    if events == [] then Store(map[], map[], map[]) else Next(Run(events[..|events| - 1]), events[|events| - 1])
  }

  lemma RunStep(events: seq<Event>, n: nat)
    requires n < |events|
    ensures Run(events[..n + 1]) == Next(Run(events[..n]), events[n])
  {
    assert events[..n + 1][..n] == events[..n];
  }

  // ----- The candle table -----

  /** The candles an event brings; a refused request and a malformed candle bring none. */
  function RowsOf(e: Event): map<BarKey, Candle> {
    match e
    case Posted(r, _) => if Validated(r).Some? then Validated(r).value else map[]
    case Consumed(k, c) => if Sound(c) then map[k := c] else map[]
    case _ => map[]
  }

  lemma NextBars(store: Store, e: Event, k: BarKey)
    ensures Find(Next(store, e).bars, k)
            == if Deletes(e, k) then None
               else if k in store.bars then Some(store.bars[k])
               else Find(RowsOf(e), k)
    ensures Deletes(e, k) ==> k !in RowsOf(e)
  {
  }

  /** Event i brought the key, and nothing has deleted it since. */
  ghost predicate Holds(events: seq<Event>, k: BarKey, i: nat) {
    i < |events| && k in RowsOf(events[i]) && forall d | i < d < |events| :: !Deletes(events[d], k)
  }

  /** And every earlier event that brought it was followed by a deletion before i. */
  ghost predicate HoldsFirst(events: seq<Event>, k: BarKey, i: nat) {
    && Holds(events, k, i)
    && forall j | 0 <= j < i && k in RowsOf(events[j]) :: exists d :: j < d < i && Deletes(events[d], k)
  }

  /** First writer wins: a key is stored exactly when an event brought it that no deletion followed, with
      the values of the first writer since the last deletion. */
  lemma {:induction false} FirstWriterWins(events: seq<Event>, k: BarKey)
    ensures k in Run(events).bars <==> exists i: nat :: Holds(events, k, i)
    ensures k in Run(events).bars ==>
              exists i: nat :: HoldsFirst(events, k, i) && Run(events).bars[k] == RowsOf(events[i])[k]
  {
    hide RowsOf, Next, Deletes;
    if events != [] {
      var n := |events| - 1;
      var front, e := events[..n], events[n];
      FirstWriterWins(front, k);
      NextBars(Run(front), e, k);
      HoldsSnoc(front, e, k);
      assert events == front + [e];
      if k in Run(events).bars {
        if k in Run(front).bars {
          var i: nat :| HoldsFirst(front, k, i) && Run(front).bars[k] == RowsOf(front[i])[k];
          HoldsFirstSnoc(front, e, k, i);
        } else {
          HoldsNew(front, e, k);
        }
      }
    }
  }

  lemma HoldsSnoc(front: seq<Event>, e: Event, k: BarKey)
    requires Deletes(e, k) ==> k !in RowsOf(e)
    ensures (exists i: nat :: Holds(front + [e], k, i))
            <==> !Deletes(e, k) && ((exists i: nat :: Holds(front, k, i)) || k in RowsOf(e))
  {
    hide RowsOf, Deletes;
    if i: nat :| Holds(front, k, i) && !Deletes(e, k) {
      assert Holds(front + [e], k, i);
    }
    if k in RowsOf(e) {
      assert Holds(front + [e], k, |front|);
    }
    forall i: nat | i < |front| && Holds(front + [e], k, i)
      ensures Holds(front, k, i) && !Deletes(e, k)
    {
      assert (front + [e])[|front|] == e;
      assert forall d | i < d < |front| :: front[d] == (front + [e])[d];
    }
  }

  lemma HoldsFirstSnoc(front: seq<Event>, e: Event, k: BarKey, i: nat)
    requires HoldsFirst(front, k, i) && !Deletes(e, k)
    ensures HoldsFirst(front + [e], k, i) && (front + [e])[i] == front[i]
  {
    hide RowsOf, Deletes;
    forall j | 0 <= j < i && k in RowsOf((front + [e])[j])
      ensures exists d :: j < d < i && Deletes((front + [e])[d], k)
    {
      var d :| j < d < i && Deletes(front[d], k);
      assert Deletes((front + [e])[d], k);
    }
  }

  lemma HoldsNew(front: seq<Event>, e: Event, k: BarKey)
    requires k in RowsOf(e) && !exists i: nat :: Holds(front, k, i)
    ensures HoldsFirst(front + [e], k, |front|) && (front + [e])[|front|] == e
  {
    hide RowsOf, Deletes;
    forall j | 0 <= j < |front| && k in RowsOf((front + [e])[j])
      ensures exists d :: j < d < |front| && Deletes((front + [e])[d], k)
    {
      assert !Holds(front, k, j);
      var d :| j < d < |front| && Deletes(front[d], k);
      assert Deletes((front + [e])[d], k);
    }
  }

  /** A deletion after event i removed the key, and nothing brought it again. */
  ghost predicate Gone(events: seq<Event>, k: BarKey, i: nat) {
    exists d :: i < d < |events| && Deletes(events[d], k) && forall j | d < j < |events| :: k !in RowsOf(events[j])
  }

  /** What an event brought is missing exactly when it was deleted since and not brought again. */
  lemma {:induction false} MissingExactly(events: seq<Event>, k: BarKey, i: nat)
    requires i < |events| && k in RowsOf(events[i])
    ensures k !in Run(events).bars <==> Gone(events, k, i)
  {
    hide RowsOf, Next, Deletes, Gone;
    var n := |events| - 1;
    var front, e := events[..n], events[n];
    assert events == front + [e];
    NextBars(Run(front), e, k);
    if i < n {
      MissingExactly(front, k, i);
      GoneSnoc(front, e, k, i);
    } else {
      NotGoneYet(events, k, i);
    }
  }

  lemma NotGoneYet(events: seq<Event>, k: BarKey, i: nat)
    requires i + 1 == |events|
    ensures !Gone(events, k, i)
  {
  }

  lemma GoneSnoc(front: seq<Event>, e: Event, k: BarKey, i: nat)
    requires i < |front| && (Deletes(e, k) ==> k !in RowsOf(e))
    ensures Gone(front + [e], k, i) <==> Deletes(e, k) || (Gone(front, k, i) && k !in RowsOf(e))
  {
    hide RowsOf, Deletes;
    var events := front + [e];
    assert events[|front|] == e;
    if Gone(front, k, i) && k !in RowsOf(e) {
      var d :| i < d < |front| && Deletes(front[d], k) && forall j | d < j < |front| :: k !in RowsOf(front[j]);
      assert Deletes(events[d], k);
    }
    if Gone(events, k, i) && !Deletes(e, k) {
      var d :| i < d < |events| && Deletes(events[d], k) && forall j | d < j < |events| :: k !in RowsOf(events[j]);
      assert Deletes(front[d], k) && forall j | d < j < |front| :: front[j] == events[j];
    }
  }

  /** Posting an earlier accepted request again inserts exactly its rows that were deleted since and
      not brought again. */
  lemma ReplayInsertsExactly(events: seq<Event>, i: nat, now: int)
    requires i < |events| && events[i].Posted? && Validated(events[i].request).Some?
    ensures var rows := Validated(events[i].request).value;
            var free := map k | k in rows && Gone(events, k, i) :: rows[k];
            && Post(Run(events), events[i].request, now).0.bars == Run(events).bars + free
            && Post(Run(events), events[i].request, now).1 == Accepted(|rows|, |free|)
  {
    var rows := Validated(events[i].request).value;
    assert RowsOf(events[i]) == rows;
    forall k | k in rows
      ensures k !in Run(events).bars <==> Gone(events, k, i)
    {
      MissingExactly(events, k, i);
    }
    hide Run, Validated, RowsOf, Gone, Offered, HeartbeatOf, WithBaseline;
    assert (map k | k in rows && Gone(events, k, i) :: rows[k]) == FreeRows(Run(events).bars, rows);
  }

  /** Where nothing of it was deleted since, it inserts nothing. */
  lemma ReplayInsertsNothing(events: seq<Event>, i: nat, now: int)
    requires i < |events| && events[i].Posted? && Validated(events[i].request).Some?
    requires forall d, k | i < d < |events| && k in Validated(events[i].request).value :: !Deletes(events[d], k)
    ensures Post(Run(events), events[i].request, now).0.bars == Run(events).bars
    ensures Post(Run(events), events[i].request, now).1 == Accepted(|Validated(events[i].request).value|, 0)
  {
    ReplayInsertsExactly(events, i, now);
    hide Run, Validated, Deletes, Post, RowsOf;
    assert (map k | k in Validated(events[i].request).value && Gone(events, k, i) :: Validated(events[i].request).value[k]) == map[];
    UnionWithNothing(Run(events).bars);
  }

  lemma UnionWithNothing<K, V>(table: map<K, V>)
    ensures table + map[] == table
  {
  }

  /** The reported count is the growth of the table; a refused request changes no table at all. */
  lemma InsertedIsGrowth(store: Store, r: Request, now: int)
    ensures var (after, response) := Post(store, r, now);
            && (response.Accepted? ==> response.inserted == |after.bars| - |store.bars| <= response.stored)
            && (response.Rejected? <==> Validated(r).None?)
            && (response.Rejected? ==> after == store)
  {
    hide Validated, Offered, HeartbeatOf, WithBaseline;
    if Validated(r).Some? {
      var rows := Validated(r).value;
      DisjointSize(store.bars, FreeRows(store.bars, rows));
      SmallerPart(store.bars, rows);
    }
  }

  lemma SmallerPart(table: map<BarKey, Candle>, rows: map<BarKey, Candle>)
    ensures |FreeRows(table, rows)| <= |rows|
  {
    var taken := map k | k in rows && k in table :: rows[k];
    DisjointSize(FreeRows(table, rows), taken);
    assert FreeRows(table, rows) + taken == rows;
  }

  // ----- Daily baselines -----

  lemma {:induction false} BaselineNeverChanges(events: seq<Event>, n: nat, key: DayKey)
    requires n <= |events| && key in Run(events[..n]).baselines
    ensures key in Run(events).baselines && Run(events).baselines[key] == Run(events[..n]).baselines[key]
    decreases |events| - n
  {
    if n == |events| {
      assert events[..n] == events;
    } else {
      RunStep(events, n);
      NextBaselines(Run(events[..n]), events[n]);
      hide Run, Next, OfferedBy;
      BaselineNeverChanges(events, n + 1, key);
    }
  }

  /** The heartbeat row an event writes for an instance. */
  function Written(e: Event, instance: string): Option<Heartbeat> {
    match e
    case Posted(r, now) =>
      if r.instance == instance && Validated(r).Some? then
        ValidatedMeans(r);
        Some(HeartbeatOf(r, now))
      else None
    case Legacy(i, h) => if i == instance && i != "" then Some(h) else None
    case _ => None
  }

  lemma ValidatedMeans(r: Request)
    ensures Validated(r).Some? ==> ValidAccount(r) && ValidHeader(r)
  {
  }

  /** The last event before n that wrote this instance's heartbeat. */
  ghost predicate LastWrite(events: seq<Event>, n: nat, instance: string, j: nat)
    requires n <= |events|
  {
    && j < n && Written(events[j], instance).Some?
    && forall i | j < i < n :: Written(events[i], instance).None?
  }

  lemma NextHeartbeats(store: Store, e: Event, instance: string)
    ensures Find(Next(store, e).heartbeats, instance)
            == if Written(e, instance).Some? then Written(e, instance) else Find(store.heartbeats, instance)
  {
  }

  lemma {:induction false} HeartbeatIsLastWrite(events: seq<Event>, n: nat, instance: string) returns (j: nat)
    requires n <= |events| && instance in Run(events[..n]).heartbeats
    ensures LastWrite(events, n, instance, j)
    ensures Some(Run(events[..n]).heartbeats[instance]) == Written(events[j], instance)
  {
    hide Written, Next;
    assert n > 0;
    RunStep(events, n - 1);
    NextHeartbeats(Run(events[..n - 1]), events[n - 1], instance);
    if Written(events[n - 1], instance).Some? {
      j := n - 1;
    } else {
      j := HeartbeatIsLastWrite(events, n - 1, instance);
    }
  }

  /** The baseline an event offers in the state it meets. */
  function OfferedBy(store: Store, e: Event): Option<(DayKey, Baseline)> {
    match e
    case Posted(r, now) =>
      if Validated(r).Some? then
        ValidatedMeans(r);
        Offered(Find(store.heartbeats, r.instance), r, now)
      else None
    case Manual(key, balance, instance) => Some((key, Baseline(balance, instance, ManualBroker)))
    case _ => None
  }

  lemma NextBaselines(store: Store, e: Event)
    ensures Next(store, e).baselines == WithBaseline(store.baselines, OfferedBy(store, e))
  {
    hide Offered, HeartbeatOf, FreeRows, Validated;
  }

  /** Every baseline was captured by one event, into a free place. */
  lemma {:induction false} BaselineOrigin(events: seq<Event>, key: DayKey) returns (i: nat)
    requires key in Run(events).baselines
    ensures i < |events| && key !in Run(events[..i]).baselines
    ensures OfferedBy(Run(events[..i]), events[i]) == Some((key, Run(events).baselines[key]))
  {
    hide Next, OfferedBy;
    assert events != [];
    var n := |events| - 1;
    NextBaselines(Run(events[..n]), events[n]);
    if key in Run(events[..n]).baselines {
      i := BaselineOrigin(events[..n], key);
      assert events[..n][..i] == events[..i];
    } else {
      i := n;
    }
  }

  /** What a rollover baseline rests on: the write j of the same instance directly before the capturing
      request i, by the same account on the same server, one broker day earlier, at most 90 seconds old. */
  ghost predicate Continuity(events: seq<Event>, i: nat, j: nat, key: DayKey, b: Baseline)
    requires i < |events|
  {
    && events[i].Posted? && LastWrite(events, i, b.source, j)
    && var h, r := Written(events[j], b.source).value, events[i].request;
       && r.instance == b.source && r.login == key.login && r.server == key.server && r.brokerDay == Given(key.day)
       && h.login == key.login && h.server == key.server && h.payloadServer == key.server
       && h.day == Some(key.day - 1) && h.balance == Some(b.openingBalance) && b.openingBalance > 0.0
       && 0 <= events[i].now - h.seenAt <= MAX_GAP
  }

  /** A rollover baseline is never a balance of the day it opens, nor of another account or server. */
  lemma RolloverBaseline(events: seq<Event>, key: DayKey)
    requires key in Run(events).baselines && Run(events).baselines[key].how == RolloverContinuity
    ensures exists i: nat, j: nat :: i < |events| && Continuity(events, i, j, key, Run(events).baselines[key])
  {
    hide Run, Next, LastWrite, HeartbeatOf, Validated;
    var b := Run(events).baselines[key];
    var i := BaselineOrigin(events, key);
    assert b.source in Run(events[..i]).heartbeats;
    var j := HeartbeatIsLastWrite(events, i, b.source);
    hide Written;
    assert Continuity(events, i, j, key, b);
  }

  /** What a valid request offers: with a complete broker history its reported opening balance, and
      otherwise the balance of the previous write, exactly when that was by the same account on the same
      server, for the broker day before, positive, and at most 90 seconds old. */
  lemma OfferedExactly(previous: Option<Heartbeat>, r: Request, now: int)
    requires ValidAccount(r)
    ensures var offer := Offered(previous, r, now);
            && (r.historyComplete ==>
                  && r.openingBalance.Some? && 0.0 < r.openingBalance.value && r.brokerDay.Given? && r.server != ""
                  && offer == Some((DayKey(r.login, r.server, r.brokerDay.value),
                                    Baseline(r.openingBalance.value, r.instance, BrokerHistory))))
            && (!r.historyComplete ==>
                  (offer.Some? <==>
                     && previous.Some? && r.server != "" && r.brokerDay.Given?
                     && var h := previous.value;
                        && h.login == r.login && h.server == r.server && h.payloadServer == r.server
                        && h.day == Some(r.brokerDay.value - 1) && 0 <= now - h.seenAt <= 90 * SECOND
                        && h.balance.Some? && 0.0 < h.balance.value))
            && (!r.historyComplete && offer.Some? ==>
                  offer == Some((DayKey(r.login, r.server, r.brokerDay.value),
                                 Baseline(previous.value.balance.value, r.instance, RolloverContinuity))))
  {
  }

  /** The event is a request with a complete history that reports this opening balance for this day. */
  ghost predicate Reports(e: Event, key: DayKey, b: Baseline) {
    && e.Posted? && Validated(e.request).Some? && e.request.historyComplete
    && e.request.login == key.login && e.request.server == key.server && e.request.brokerDay == Given(key.day)
    && e.request.instance == b.source && e.request.openingBalance == Some(b.openingBalance) && 0.0 < b.openingBalance
  }

  /** A baseline from the broker's history holds the opening balance a request reported for that day, and a
      manual one the balance an operator recorded for it. */
  lemma ReportedBaseline(events: seq<Event>, key: DayKey) returns (i: nat)
    requires key in Run(events).baselines
    ensures i < |events|
    ensures var b := Run(events).baselines[key];
            && (b.how == BrokerHistory ==> Reports(events[i], key, b))
            && (b.how == ManualBroker ==> events[i] == Manual(key, b.openingBalance, b.source))
  {
    i := BaselineOrigin(events, key);
    var store := Run(events[..i]);
    hide Run, Validated;
    if events[i].Posted? {
      var r := events[i].request;
      ValidatedMeans(r);
      OfferedExactly(Find(store.heartbeats, r.instance), r, events[i].now);
    }
    hide Offered, ValidAccount;
  }

  /** A day has a baseline exactly when some event offered one for it. */
  lemma {:induction false} BaselineStoredExactly(events: seq<Event>, key: DayKey)
    ensures key in Run(events).baselines <==> exists i :: 0 <= i < |events| && OffersFor(events, i, key)
  {
    hide Next, OfferedBy;
    if events != [] {
      var n := |events| - 1;
      var front := events[..n];
      BaselineStoredExactly(front, key);
      NextBaselines(Run(front), events[n]);
      assert forall i | 0 <= i < n :: events[..i] == front[..i];
      assert forall i | 0 <= i < n :: OffersFor(events, i, key) == OffersFor(front, i, key);
      assert OffersFor(events, n, key) <==> OfferedBy(Run(front), events[n]).Some? && OfferedBy(Run(front), events[n]).value.0 == key;
    }
  }

  ghost predicate OffersFor(events: seq<Event>, i: nat, key: DayKey)
    requires i < |events|
  {
    var offer := OfferedBy(Run(events[..i]), events[i]);
    offer.Some? && offer.value.0 == key
  }

  /** A request writes its instance's heartbeat exactly when it is accepted: with its account, its server,
      its day, its balance, and the time of writing. */
  lemma WrittenExactly(r: Request, now: int, instance: string)
    ensures var h := Written(Posted(r, now), instance);
            && (h.Some? <==> Validated(r).Some? && r.instance == instance)
            && (h.Some? ==>
                  && h.value.login == r.login && h.value.server == h.value.payloadServer == r.server && h.value.seenAt == now
                  && (h.value.day.Some? <==> r.brokerDay.Given?) && (r.brokerDay.Given? ==> h.value.day.value == r.brokerDay.value)
                  && r.account.Some? && h.value.balance == r.account.value.balance)
  {
    ValidatedMeans(r);
    hide Validated;
  }
}
