/** The telemetry endpoint: candles are inserted if absent, daily opening balances are captured once,
    and the instance's heartbeat is replaced. */
module Telemetry {
  import opened Wrappers
  import opened Candles
  import opened CandleIntake

  const MAX_GAP := 90 * SECOND
  const MAX_POSITIONS := 500

  datatype SymbolInfo = SymbolInfo(tickSize: Option<real>, tickValue: Option<real>, volumeMin: Option<real>,
                                   volumeMax: Option<real>, volumeStep: Option<real>, stopsLevel: Option<real>)

  /** The fields of a request body, texts trimmed; None: absent, not a finite number, or of the wrong type. */
  datatype Request = Request(
    instance: string, login: string, symbol: string, timeframe: string, server: string,
    bid: Option<real>, ask: Option<real>, point: Option<real>,
    bars: Option<seq<Bar>>, barSets: Field<seq<BarSet>>, symbolInfo: Field<SymbolInfo>,
    account: Option<Account>, positions: Option<nat>, tradeMode: Field<int>, brokerDay: Field<int>,
    historyComplete: bool, openingBalance: Option<real>, dealCount: Option<int>)

  datatype Account = Account(balance: Option<real>)

  // ----- Validation -----

  predicate ValidSymbolInfo(info: Field<SymbolInfo>) {
    match info
    case Missing => true
    case Malformed => false
    case Given(s) =>
      && s.tickSize.Some? && s.tickValue.Some? && s.volumeMin.Some? && s.volumeMax.Some? && s.volumeStep.Some?
      && s.stopsLevel.Some? && s.tickSize.value > 0.0 && s.tickValue.value > 0.0 && s.volumeMin.value > 0.0
      && s.volumeMax.value > 0.0 && s.volumeStep.value > 0.0 && s.stopsLevel.value >= 0.0
      && s.volumeMax.value >= s.volumeMin.value
  }

  /** Older EAs send one set through the top-level fields. */
  function SetsOf(r: Request): Option<seq<BarSet>> {
    match r.barSets
    case Missing => Some([BarSet(r.timeframe, r.bars)])
    case Malformed => None
    case Given(sets) => Some(sets)
  }

  predicate ValidHeader(r: Request) {
    && 0 < |r.instance| <= 128 && 0 < |r.login| <= 32 && 0 < |r.symbol| <= 32 && 0 < |r.timeframe| <= 16
    && r.bars.Some? && |r.bars.value| <= MAX_SET_BARS
    && r.bid.Some? && r.ask.Some? && r.point.Some?
    && r.bid.value > 0.0 && r.ask.value >= r.bid.value && r.point.value > 0.0
  }

  /** The part of the request that describes the account and its broker day. */
  predicate ValidAccount(r: Request) {
    && r.account.Some? && r.positions.Some? && r.positions.value <= MAX_POSITIONS
    && (r.tradeMode.Missing? || (r.tradeMode.Given? && r.tradeMode.value in {0, 1, 2}))
    && !r.brokerDay.Malformed?
    && (r.brokerDay.Given? && r.server != "" ==>
          r.account.value.balance.Some? && r.account.value.balance.value > 0.0)
    && (r.historyComplete ==>
          && r.brokerDay.Given? && r.server != ""
          && r.openingBalance.Some? && r.openingBalance.value > 0.0
          && r.dealCount.Some? && r.dealCount.value >= 0)
  }

  /** The candles to store; None: the request is refused. */
  function Validated(r: Request): Option<map<BarKey, Candle>> {
    if !ValidHeader(r) || SetsOf(r).None? then None
    else
      var rows :- Normalized(Feed(r.instance, r.symbol), SetsOf(r).value);
      if ValidSymbolInfo(r.symbolInfo) && ValidAccount(r) then Some(rows) else None
  }

  /** What a request may look like: named, quoted and described account, candles that are acceptable as
      a whole, sound symbol facts, and a balance wherever the broker day is told. */
  ghost predicate WellFormed(r: Request) {
    && 1 <= |r.instance| <= 128 && 1 <= |r.login| <= 32 && 1 <= |r.symbol| <= 32 && 1 <= |r.timeframe| <= 16
    && r.bars.Some? && |r.bars.value| <= 512
    && r.bid.Some? && r.ask.Some? && r.point.Some? && 0.0 < r.bid.value <= r.ask.value && 0.0 < r.point.value
    && r.account.Some? && r.positions.Some? && r.positions.value <= 500
    && r.tradeMode in {Missing, Given(0), Given(1), Given(2)} && !r.brokerDay.Malformed?
    && (r.brokerDay.Given? && r.server != "" ==> r.account.value.balance.Some? && 0.0 < r.account.value.balance.value)
    && (r.historyComplete ==>
          && r.brokerDay.Given? && r.server != "" && r.openingBalance.Some? && 0.0 < r.openingBalance.value
          && r.dealCount.Some? && 0 <= r.dealCount.value)
    && !r.symbolInfo.Malformed?
    && (r.symbolInfo.Given? ==>
          var s := r.symbolInfo.value;
          && s.tickSize.Some? && 0.0 < s.tickSize.value && s.tickValue.Some? && 0.0 < s.tickValue.value
          && s.volumeMin.Some? && s.volumeMax.Some? && 0.0 < s.volumeMin.value <= s.volumeMax.value
          && s.volumeStep.Some? && 0.0 < s.volumeStep.value && s.stopsLevel.Some? && 0.0 <= s.stopsLevel.value)
  }

  /** A request is accepted exactly when it is well formed and its candle sets, at most four, are
      acceptable; then its rows are exactly the submitted candles. */
  lemma ValidatedExactly(r: Request)
    ensures Validated(r).Some? <==>
            && WellFormed(r) && !r.barSets.Malformed?
            && |SetsOf(r).value| <= 4 && Acceptable(SetsOf(r).value)
    ensures Validated(r).Some? ==>
              forall key, c :: Has(Validated(r).value, key, c) <==> Submitted(Feed(r.instance, r.symbol), SetsOf(r).value, key, c)
  {
    if !r.barSets.Malformed? {
      NormalizedExactly(Feed(r.instance, r.symbol), SetsOf(r).value);
    }
    hide Normalized, Acceptable, Submitted;
  }

  // ----- The stored rows -----

  /** day and payloadServer are what the stored payload says; seenAt is set by every write. */
  datatype Heartbeat = Heartbeat(login: string, server: string, seenAt: int, day: Option<int>, payloadServer: string,
                                 balance: Option<real>)

  datatype Method = BrokerHistory | RolloverContinuity | ManualBroker

  datatype DayKey = DayKey(login: string, server: string, day: int)

  datatype Baseline = Baseline(openingBalance: real, source: string, how: Method)

  datatype Store = Store(bars: map<BarKey, Candle>, heartbeats: map<string, Heartbeat>, baselines: map<DayKey, Baseline>)

  datatype Response = Rejected | Accepted(stored: nat, inserted: nat)

  /** The previous write was by this account, a broker day earlier, and not long ago. */
  predicate Continuous(h: Heartbeat, r: Request, now: int) {
    && h.login == r.login && h.server == r.server && h.payloadServer == r.server
    && h.day.Some? && h.balance.Some? && r.brokerDay == Given(h.day.value + 1)
    && 0 <= now - h.seenAt <= MAX_GAP && h.balance.value > 0.0
  }

  /** The baseline a request offers: its own complete history, or else the balance before the rollover. */
  function Offered(previous: Option<Heartbeat>, r: Request, now: int): Option<(DayKey, Baseline)>
    requires ValidAccount(r)
  {
    if r.historyComplete then
      Some((DayKey(r.login, r.server, r.brokerDay.value), Baseline(r.openingBalance.value, r.instance, BrokerHistory)))
    else if previous.Some? && r.brokerDay.Given? && r.server != "" && Continuous(previous.value, r, now) then
      Some((DayKey(r.login, r.server, r.brokerDay.value),
            Baseline(previous.value.balance.value, r.instance, RolloverContinuity)))
    else None
  }

  function HeartbeatOf(r: Request, now: int): Heartbeat
    requires r.account.Some?
  {
    Heartbeat(r.login, r.server, now, if r.brokerDay.Given? then Some(r.brokerDay.value) else None, r.server,
              r.account.value.balance)
  }

  function Find<K, V>(table: map<K, V>, k: K): Option<V> {
    if k in table then Some(table[k]) else None
  }

  function WithBaseline(baselines: map<DayKey, Baseline>, offer: Option<(DayKey, Baseline)>): map<DayKey, Baseline> {
    if offer.None? then baselines else InsertAbsent(baselines, offer.value.0, offer.value.1)
  }

  /** The rows of a request whose key is free. */
  function FreeRows(table: map<BarKey, Candle>, rows: map<BarKey, Candle>): map<BarKey, Candle> {
    map k | k in rows && k !in table :: rows[k]
  }

  function Post(store: Store, r: Request, now: int): (Store, Response) {
    match Validated(r)
    case None => (store, Rejected)
    case Some(rows) =>
      var offer := Offered(Find(store.heartbeats, r.instance), r, now);
      (Store(store.bars + FreeRows(store.bars, rows), store.heartbeats[r.instance := HeartbeatOf(r, now)],
             WithBaseline(store.baselines, offer)),
       Accepted(|rows|, |FreeRows(store.bars, rows)|))
  }

  // ----- The endpoints -----

  class Backend {
    var bars: map<BarKey, Candle>
    var heartbeats: map<string, Heartbeat>
    var baselines: map<DayKey, Baseline>

    constructor ()
      ensures Rows() == Store(map[], map[], map[])
    {
      bars, heartbeats, baselines := map[], map[], map[];
    }

    ghost function Rows(): Store
      reads this
    {
      Store(bars, heartbeats, baselines)
    }

    /** The rows of one timeframe whose key is still free. */
    method InsertGroup(rows: map<BarKey, Candle>, t: Timeframe) returns (inserted: nat)
      modifies this`bars
      ensures bars == Inserted(old(bars), rows, {t})
      ensures inserted == |Part(FreeRows(old(bars), rows), {t})|
    {
      var group := map k | k in rows && k.timeframe == t && k !in bars :: rows[k];
      assert group == Part(FreeRows(bars, rows), {t});
      bars := bars + group;
      inserted := |group|;
    }

    /** One insert per timeframe group. */
    method InsertGroups(rows: map<BarKey, Candle>, groups: seq<Timeframe>) returns (inserted: nat)
      requires forall k | k in rows :: k.timeframe in groups
      requires forall i, j | 0 <= i < j < |groups| :: groups[i] != groups[j]
      modifies this`bars
      ensures bars == old(bars) + FreeRows(old(bars), rows)
      ensures inserted == |FreeRows(old(bars), rows)|
    {
      hide Part, FreeRows;
      inserted := 0;
      NoPart(FreeRows(bars, rows));
      assert Elements(groups[..0]) == {};
      for g := 0 to |groups|
        invariant bars == Inserted(old(bars), rows, Elements(groups[..g]))
        invariant inserted == |Part(FreeRows(old(bars), rows), Elements(groups[..g]))|
      {
        var more := InsertGroup(rows, groups[g]);
        assert Elements(groups[..g + 1]) == Elements(groups[..g]) + {groups[g]};
        GroupStep(old(bars), rows, Elements(groups[..g]), groups[g]);
        inserted := inserted + more;
      }
      assert groups[..|groups|] == groups;
      FreeAmong(old(bars), rows);
      WholePart(FreeRows(old(bars), rows), groups);
    }

    method Telemetry(r: Request, now: int) returns (response: Response)
      modifies this
      ensures (Rows(), response) == Post(old(Rows()), r, now)
    {
      hide ValidSymbolInfo, Normalized, Offered, HeartbeatOf, WithBaseline;
      if !ValidHeader(r) || SetsOf(r).None? {
        return Rejected;
      }
      var rows := Normalize(Feed(r.instance, r.symbol), SetsOf(r).value);
      if rows.None? || !ValidSymbolInfo(r.symbolInfo) || !ValidAccount(r) {
        return Rejected;
      }
      KnownTimeframes(Feed(r.instance, r.symbol), SetsOf(r).value);
      var offer := Offered(Find(heartbeats, r.instance), r, now);
      baselines := WithBaseline(baselines, offer);
      var inserted := InsertGroups(rows.value, [H1, M1, M15, M5]);
      heartbeats := heartbeats[r.instance := HeartbeatOf(r, now)];
      response := Accepted(|rows.value|, inserted);
    }
  }

  function Part(rows: map<BarKey, Candle>, timeframes: set<Timeframe>): map<BarKey, Candle> {
    map k | k in rows && k.timeframe in timeframes :: rows[k]
  }

  lemma FreeAmong(table: map<BarKey, Candle>, rows: map<BarKey, Candle>)
    ensures forall k | k in FreeRows(table, rows) :: k in rows
  {
  }

  lemma NoPart(rows: map<BarKey, Candle>)
    ensures Part(rows, {}) == map[]
  {
  }

  lemma WholePart(rows: map<BarKey, Candle>, groups: seq<Timeframe>)
    requires forall k | k in rows :: k.timeframe in groups
    ensures Part(rows, Elements(groups)) == rows
  {
  }

  lemma PartSum(rows: map<BarKey, Candle>, done: set<Timeframe>, t: Timeframe)
    ensures Part(rows, done + {t}) == Part(rows, done) + Part(rows, {t})
  {
  }

  lemma PartsDisjoint(rows: map<BarKey, Candle>, done: set<Timeframe>, t: Timeframe)
    requires t !in done
    ensures Part(rows, done).Keys !! Part(rows, {t}).Keys
  {
  }

  /** What the earlier groups inserted leaves the rows of another timeframe as free as before. */
  lemma StillFree(table: map<BarKey, Candle>, rows: map<BarKey, Candle>, done: set<Timeframe>, t: Timeframe)
    requires t !in done
    ensures Part(FreeRows(table + Part(FreeRows(table, rows), done), rows), {t}) == Part(FreeRows(table, rows), {t})
  {
  }

  lemma UnionAssociates<K, V>(a: map<K, V>, b: map<K, V>, c: map<K, V>)
    ensures (a + b) + c == a + (b + c)
  {
  }

  lemma GroupStep(table: map<BarKey, Candle>, rows: map<BarKey, Candle>, done: set<Timeframe>, t: Timeframe)
    requires t !in done
    ensures Inserted(Inserted(table, rows, done), rows, {t}) == Inserted(table, rows, done + {t})
    ensures |Part(FreeRows(table, rows), done + {t})|
            == |Part(FreeRows(table, rows), done)| + |Part(FreeRows(Inserted(table, rows, done), rows), {t})|
  {
    hide Part, FreeRows;
    var free := FreeRows(table, rows);
    StillFree(table, rows, done, t);
    PartSum(free, done, t);
    PartsDisjoint(free, done, t);
    DisjointSize(Part(free, done), Part(free, {t}));
    UnionAssociates(table, Part(free, done), Part(free, {t}));
  }

  function Inserted(table: map<BarKey, Candle>, rows: map<BarKey, Candle>, timeframes: set<Timeframe>): map<BarKey, Candle> {
    table + Part(FreeRows(table, rows), timeframes)
  }

  function Elements(s: seq<Timeframe>): set<Timeframe> {
    set t | t in s
  }

  lemma DisjointSize<K, V>(a: map<K, V>, b: map<K, V>)
    requires a.Keys !! b.Keys
    ensures |a + b| == |a| + |b|
  {
  }

  lemma KnownTimeframes(feed: Feed, sets: seq<BarSet>)
    ensures Normalized(feed, sets).Some? ==> forall k | k in Normalized(feed, sets).value :: !k.timeframe.Other?
  {
    hide Acceptable, Normalized, TimeframeNamed;
    NormalizedExactly(feed, sets);
    if Normalized(feed, sets).Some? {
      var rows := Normalized(feed, sets).value;
      forall k | k in rows
        ensures !k.timeframe.Other?
      {
        assert Has(rows, k, rows[k]);
        assert Submitted(feed, sets, k, rows[k]);
      }
    }
  }
}
