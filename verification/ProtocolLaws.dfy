/** What may reach the broker, and what is answered otherwise, in terms of clocks, scopes and permissions:
    for one processed response, and for every submission of every run. */
module ProtocolLaws {
  import opened Wrappers
  import opened Commands
  import opened CommandAnswers
  import opened CommandLifecycle
  import opened Protocol

  // ----- One processed response -----

  ghost predicate InScope(s: Scene, c: Row) {
    c.instance == s.instance && c.account == s.account && c.symbol == s.symbol
  }

  /** The response reads, is meant for this terminal, has not expired, and server and terminal both permit it. */
  ghost predicate MayAct(s: Scene, c: Row) {
    && s.parses && c.id != "" && InScope(s, c)
    && s.expiryReadable && s.now <= c.expiresAt
    && c.authorized && s.authorizationSeen && s.permitted
  }

  /** And asks for an order that passes the local checks. */
  ghost predicate MaySubmit(s: Scene, c: Row) {
    MayAct(s, c) && c.action != Noop && s.orderValid
  }

  /** An order goes to the broker exactly when the command may be submitted and is not the one remembered. */
  lemma SubmittedExactly(s: Scene, lastId: string, c: Row)
    ensures Process(s, lastId, c).submitted
            == if MaySubmit(s, c) && c.id != lastId then Some(Submission(c.id, s.brokerAccepts)) else None
  {
  }

  /** Which answer each failing guard gives; nothing is answered only when the response does not read.
      A response of this terminal is remembered, a foreign one is not. */
  lemma AnsweredExactly(s: Scene, lastId: string, c: Row)
    ensures var e := Process(s, lastId, c);
            && (e.ack.None? <==> !s.parses || c.id == "")
            && e.lastId == (if s.parses && c.id != "" && InScope(s, c) then c.id else lastId)
            && (e.ack.Some? ==>
                  var a, known := e.ack.value, InScope(s, c) && c.id != lastId;
                  && a.id == c.id && a.instance == s.instance && a.account == s.account
                  && (a.state == ReconciliationRequired <==> InScope(s, c) && c.id == lastId)
                  && (a.state == Expired <==> known && s.expiryReadable && c.expiresAt < s.now)
                  && (a.state == Executed <==>
                        known && MayAct(s, c) && (c.action == Noop || (s.orderValid && s.brokerAccepts)))
                  && (a.state == Failed <==>
                        known && MaySubmit(s, c) && c.action in {Close, ModifySlTp} && !s.brokerAccepts)
                  && a.state in {ReconciliationRequired, Expired, Executed, Failed, Rejected})
  {
  }

  /** The text each failing guard answers with, in the order they are looked at. */
  ghost function Texts(s: Scene, lastId: string, c: Row): seq<(bool, string)> {
    [ (!InScope(s, c), "COMMAND_SCOPE_MISMATCH"),
      (c.id == lastId, DUPLICATE),
      (!s.expiryReadable, "INVALID_COMMAND_EXPIRY"),
      (c.expiresAt < s.now, "COMMAND_EXPIRED_BEFORE_EXECUTION"),
      (!c.authorized || !s.authorizationSeen, "SERVER_AUTHORIZATION_MISSING"),
      (!s.permitted, "LOCAL_PERMISSION_DENIED"),
      (c.action == Noop, "NOOP"),
      (!s.orderValid, "LOCAL_CHECK_FAILED"),
      (!s.brokerAccepts, "BROKER_REFUSED"),
      (true, "BROKER_ACCEPTED") ]
  }

  lemma TextExactly(s: Scene, lastId: string, c: Row)
    requires s.parses && c.id != ""
    ensures Process(s, lastId, c).ack.Some? && FirstCase(Texts(s, lastId, c), Process(s, lastId, c).ack.value.result)
  {
    var k := if !InScope(s, c) then 0 else if c.id == lastId then 1 else if !s.expiryReadable then 2
             else if c.expiresAt < s.now then 3 else if !c.authorized || !s.authorizationSeen then 4
             else if !s.permitted then 5 else if c.action == Noop then 6 else if !s.orderValid then 7
             else if !s.brokerAccepts then 8 else 9;
    assert Texts(s, lastId, c)[k].1 == Process(s, lastId, c).ack.value.result;
    IsFirstCase(Texts(s, lastId, c), k);
  }

  // ----- Where a submission comes from -----

  /** Poll m of the run delivered this command, to a live account of the server it is bound to. */
  ghost predicate DeliveredAt(events: seq<Event>, m: nat, c: Row) {
    && m < |events| && events[m].PollServer?
    && var p := events[m].poll;
       && Next(RunSystem(events[..m]).rows, p).1 == Deliver(c)
       && p.enabled && Live(p) && c.server == p.heartbeat.value.server
       && c.instance == p.instance && c.account == p.account && c.symbol == p.heartbeat.value.symbol
       && c.authorized && c.state == Claimed && c.claimedAt == Some(p.now) && p.now < c.expiresAt
  }

  lemma DeliveryIsLive(events: seq<Event>, m: nat, c: Row)
    requires m < |events| && events[m].PollServer? && Next(RunSystem(events[..m]).rows, events[m].poll).1 == Deliver(c)
    ensures DeliveredAt(events, m, c)
  {
    DeliveryIsBound(RunSystem(events[..m]).rows, events[m].poll);
    hide RunSystem, Eligible;
  }

  lemma DeliveredEarlier(events: seq<Event>, m: nat, c: Row)
    requires events != [] && DeliveredAt(events[..|events| - 1], m, c)
    ensures DeliveredAt(events, m, c)
  {
    assert events[..|events| - 1][..m] == events[..m];
    hide RunSystem, Next, Live;
  }

  /** What is in flight was in flight before, or has just been delivered. */
  lemma FlightComesFrom(sys: System, event: Event, c: Row)
    requires c in Step(sys, event).inFlight
    ensures c in sys.inFlight || (event.PollServer? && Next(sys.rows, event.poll).1 == Deliver(c))
  {
    hide Next, Acknowledged, Inserted, ProcessOrCrash;
  }

  lemma {:induction false} FlightOrigin(events: seq<Event>, c: Row) returns (m: nat)
    requires c in RunSystem(events).inFlight
    ensures DeliveredAt(events, m, c)
  {
    hide Step, DeliveredAt, Next;
    m := |events| - 1;
    FlightComesFrom(RunSystem(events[..m]), events[m], c);
    if c in RunSystem(events[..m]).inFlight {
      m := FlightOrigin(events[..m], c);
      hide RunSystem;
      DeliveredEarlier(events, m, c);
    } else {
      DeliveryIsLive(events, m, c);
    }
  }

  /** Event n is the receipt of command c by a terminal that may submit it, and that did. */
  ghost predicate SubmittedBy(events: seq<Event>, n: nat, c: Row, b: Submission) {
    && n < |events| && events[n].Receive?
    && var sys, scene := RunSystem(events[..n]), events[n].scene;
       && c in sys.inFlight && c.id == b.id && MaySubmit(scene, c)
       && b.accepted == scene.brokerAccepts && scene.crash != BeforeBroker
  }

  lemma SubmissionComesFrom(sys: System, event: Event, k: nat)
    requires k < |Step(sys, event).broker|
    ensures if k < |sys.broker| then Step(sys, event).broker[k] == sys.broker[k]
            else
              && event.Receive? && event.i < |sys.inFlight|
              && var b, c := Step(sys, event).broker[k], sys.inFlight[event.i];
                 c.id == b.id && MaySubmit(event.scene, c) && b.accepted == event.scene.brokerAccepts
                 && event.scene.crash != BeforeBroker
  {
    if event.Receive? && event.i < |sys.inFlight| {
      SubmittedExactly(event.scene, LastId(sys, event.terminal), sys.inFlight[event.i]);
    }
    hide Next, Acknowledged, Inserted, Process, MaySubmit;
  }

  lemma SubmittedEarlier(events: seq<Event>, n: nat, c: Row, b: Submission)
    requires events != [] && SubmittedBy(events[..|events| - 1], n, c, b)
    ensures SubmittedBy(events, n, c, b)
  {
    assert events[..|events| - 1][..n] == events[..n];
    hide RunSystem, MaySubmit;
  }

  lemma DeliveredWithin(events: seq<Event>, n: nat, m: nat, c: Row)
    requires n <= |events| && DeliveredAt(events[..n], m, c)
    ensures m < n && DeliveredAt(events, m, c)
  {
    assert events[..n][..m] == events[..m];
    hide RunSystem, Next, Live;
  }

  /** Over every run, every order the broker ever saw was received at some event n by a terminal in scope,
      before its expiry, with both authorizations, permission and valid local checks; and the command had
      been delivered at an earlier event m to a live account of its own server. */
  lemma {:induction false} SubmissionOrigin(events: seq<Event>, k: nat) returns (n: nat, m: nat, c: Row)
    requires k < |RunSystem(events).broker|
    ensures SubmittedBy(events, n, c, RunSystem(events).broker[k])
    ensures m < n && DeliveredAt(events, m, c)
  {
    hide Step, DeliveredAt, MaySubmit;
    n := |events| - 1;
    var before := RunSystem(events[..n]);
    SubmissionComesFrom(before, events[n], k);
    if k < |before.broker| {
      n, m, c := SubmissionOrigin(events[..n], k);
      hide RunSystem;
      SubmittedEarlier(events, n, c, before.broker[k]);
      DeliveredEarlier(events, m, c);
    } else {
      c := before.inFlight[events[n].i];
      m := FlightOrigin(events[..n], c);
      hide RunSystem;
      DeliveredWithin(events, n, m, c);
    }
  }

  /** And conversely: whenever in a run a response is received that may be submitted, its order reaches the
      broker, unless the terminal dies first; and a terminal that survives sends its answer. */
  lemma ReceiptExactly(events: seq<Event>, i: nat, terminal: nat, scene: Scene)
    requires i < |RunSystem(events).inFlight|
    ensures var sys, c := RunSystem(events), RunSystem(events).inFlight[i];
            var after := Step(sys, Receive(i, terminal, scene));
            && after.broker == (if MaySubmit(scene, c) && scene.crash != BeforeBroker
                                then sys.broker + [Submission(c.id, scene.brokerAccepts)] else sys.broker)
            && after.rows == sys.rows && after.inFlight == Without(sys.inFlight, i)
            && (scene.crash == NoCrash && scene.parses && c.id != "" ==>
                  var ack := Process(scene, LastId(sys, terminal), c).ack;
                  ack.Some? && after.sent == sys.sent + {ack.value})
            && (scene.crash != NoCrash ==> after.sent == sys.sent)
  {
    SystemInvariant(events);
    var sys := RunSystem(events);
    hide RunSystem;
    var c := sys.inFlight[i];
    NotRemembered(sys, i, terminal);
    hide Inv;
    SubmittedExactly(scene, LastId(sys, terminal), c);
    AnsweredExactly(scene, LastId(sys, terminal), c);
    hide Process, MaySubmit, LastId;
  }

  lemma NotRemembered(sys: System, i: nat, terminal: nat)
    requires Inv(sys) && i < |sys.inFlight|
    ensures sys.inFlight[i].id != "" ==> LastId(sys, terminal) != sys.inFlight[i].id
  {
    assert !Consumed(sys, sys.inFlight[i].id);
  }

  /** The faults of the system are real: a response can be lost, a restart or a crash forgets the last
      command, and an acknowledgement that arrived can arrive again. */
  lemma FaultsAreReal(sys: System, i: nat, terminal: nat, scene: Scene, a: Ack, now: int)
    requires i < |sys.inFlight|
    ensures Step(sys, LoseResponse(i)) == sys.(inFlight := Without(sys.inFlight, i))
    ensures LastId(Step(sys, Restart(terminal)), terminal) == ""
    ensures forall t | t != terminal :: LastId(Step(sys, Restart(terminal)), t) == LastId(sys, t)
    ensures scene.crash != NoCrash ==> LastId(Step(sys, Receive(i, terminal, scene)), terminal) == ""
    ensures Step(sys, AckArrives(a, now)).sent == sys.sent
    ensures a in sys.sent ==> Step(sys, AckArrives(a, now)).rows == Acknowledged(sys.rows, a, now).0
  {
    hide Acknowledged, Process;
  }

  // ----- Executed orders are recorded -----

  /** Commands in flight and executed acknowledgements belong to rows of the table. */
  ghost predicate Known(sys: System) {
    && (forall c | c in sys.inFlight :: InTable(sys.rows, c.id, c.instance, c.account) && c.instance != "" && c.account != "")
    && (forall a | a in sys.sent && a.state == Executed :: InTable(sys.rows, a.id, a.instance, a.account) && AckReads(a))
  }

  ghost predicate InTable(rows: seq<Row>, id: string, instance: string, account: string) {
    exists k :: 0 <= k < |rows| && rows[k].id == id && rows[k].instance == instance && rows[k].account == account
  }

  lemma StaysInTable(before: seq<Row>, after: seq<Row>, id: string, instance: string, account: string)
    requires AllAdvance(before, after) && InTable(before, id, instance, account)
    ensures InTable(after, id, instance, account)
  {
    var k :| 0 <= k < |before| && before[k].id == id && before[k].instance == instance && before[k].account == account;
    assert Advances(before[k], after[k]);
  }

  lemma TableAdvances(sys: System, event: Event)
    ensures AllAdvance(sys.rows, Step(sys, event).rows)
  {
    match event {
      case Insert(r) => ApplyAdvances(sys.rows, DoInsert(r));
      case PollServer(p) => NextAdvances(sys.rows, p);
      case AckArrives(a, now) => AckAdvances(sys.rows, a, now);
      case _ => AdvanceReflexive(sys.rows);
    }
    hide AllAdvance, Next, Acknowledged, ProcessOrCrash;
    AdvanceReflexive(sys.rows);
  }

  lemma ExecutedComesFrom(sys: System, event: Event, a: Ack)
    requires a in Step(sys, event).sent && a.state == Executed
    ensures a in sys.sent
            || (a.id != "" && exists c :: c in sys.inFlight && c.id == a.id && c.instance == a.instance && c.account == a.account)
  {
    if event.Receive? && event.i < |sys.inFlight| {
      AnsweredExactly(event.scene, LastId(sys, event.terminal), sys.inFlight[event.i]);
    }
    hide Next, Acknowledged, Inserted, Process;
  }

  lemma DeliveredInTable(rows: seq<Row>, p: Poll, c: Row)
    requires Next(rows, p).1 == Deliver(c)
    ensures InTable(rows, c.id, c.instance, c.account) && c.instance != "" && c.account != ""
  {
    DeliveryIsBound(rows, p);
    assert WellFormed(p);
    hide Next, Eligible;
    var k :| 0 <= k < |rows| && rows[k].state == Pending && rows[k].Identity() == c.Identity();
    assert rows[k].id == rows[k].Identity().id && rows[k].instance == rows[k].Identity().instance;
    assert rows[k].account == rows[k].Identity().account;
  }

  lemma StepKnown(sys: System, event: Event)
    requires Known(sys)
    ensures Known(Step(sys, event))
  {
    TableAdvances(sys, event);
    var after := Step(sys, event);
    hide InTable, AllAdvance, Step;
    forall c | c in after.inFlight
      ensures InTable(after.rows, c.id, c.instance, c.account) && c.instance != "" && c.account != ""
    {
      FlightComesFrom(sys, event, c);
      if c !in sys.inFlight {
        DeliveredInTable(sys.rows, event.poll, c);
      }
      StaysInTable(sys.rows, after.rows, c.id, c.instance, c.account);
    }
    forall a | a in after.sent && a.state == Executed
      ensures InTable(after.rows, a.id, a.instance, a.account) && AckReads(a)
    {
      ExecutedComesFrom(sys, event, a);
      StaysInTable(sys.rows, after.rows, a.id, a.instance, a.account);
    }
  }

  lemma {:induction false} RunKnown(events: seq<Event>)
    ensures Known(RunSystem(events))
  {
    hide Known, Step;
    if events == [] {
      NothingKnown();
    } else {
      RunKnown(events[..|events| - 1]);
      StepKnown(RunSystem(events[..|events| - 1]), events[|events| - 1]);
    }
  }

  lemma NothingKnown()
    ensures Known(Start())
  {
  }

  /** Whatever was lost, repeated and reordered before: an executed acknowledgement that gets through
      finds its row delivered, and leaves it executed with that result and time unless it was terminal. */
  lemma ExecutedIsRecorded(events: seq<Event>, a: Ack, now: int) returns (k: nat)
    requires a in RunSystem(events).sent && a.state == Executed
    ensures var rows, after := RunSystem(events).rows, Step(RunSystem(events), AckArrives(a, now)).rows;
            && k < |rows| && rows[k].id == a.id && rows[k].state != Pending
            && after == if Rank(rows[k].state) == 4 then rows
                        else rows[k := rows[k].(state := Executed, result := a.result, completedAt := Some(now))]
  {
    SystemInvariant(events);
    RunKnown(events);
    var sys := RunSystem(events);
    hide RunSystem;
    assert InTable(sys.rows, a.id, a.instance, a.account);
    k :| 0 <= k < |sys.rows| && sys.rows[k].id == a.id && sys.rows[k].instance == a.instance && sys.rows[k].account == a.account;
    assert Settled(sys.rows, a.id);
    SettledIsUnique(sys.rows, a.id, k);
    hide Known, FlightOk, SeenOk, AtMostOnce, Honest, FlightClaimed, RowsOk, Acknowledged;
    AckExactly(sys.rows, a, now, k);
  }
}
