/** The command protocol end to end: the server's table, terminals that poll and acknowledge over a
    lossy channel, and the broker. Responses may be lost; acknowledgements may be lost, repeated and
    reordered; terminals may restart or crash before or after the broker call. */
module Protocol {
  import opened Wrappers
  import opened Commands
  import opened CommandLifecycle

  // ----- The terminal -----

  /** Where a terminal dies while processing a command, if it does. */
  datatype Crash = NoCrash | BeforeBroker | AfterBroker

  /** What the terminal finds when it processes a command: its own identity, its clock, whether the
      response parses, its permissions, the local order checks and the broker's answer. */
  datatype Scene = Scene(instance: string, account: string, symbol: string, now: int,
                         parses: bool, expiryReadable: bool, authorizationSeen: bool, permitted: bool,
                         orderValid: bool, brokerAccepts: bool, crash: Crash)

  datatype Submission = Submission(id: string, accepted: bool)

  datatype Effect = Effect(lastId: string, ack: Option<Ack>, submitted: Option<Submission>)

  const DUPLICATE := "DUPLICATE_COMMAND_ID_REQUIRES_RECONCILIATION"

  function Answer(s: Scene, c: Row, state: State, detail: string): Option<Ack> {
    Some(Ack(c.id, s.instance, s.account, state, detail))
  }

  /** The broker part of a permitted command: what reaches the broker and what is reported. */
  function Execute(s: Scene, c: Row): Effect {
    if c.action == Noop then Effect(c.id, Answer(s, c, Executed, "NOOP"), None)
    else if !s.orderValid then Effect(c.id, Answer(s, c, Rejected, "LOCAL_CHECK_FAILED"), None)
    else if s.brokerAccepts then Effect(c.id, Answer(s, c, Executed, "BROKER_ACCEPTED"), Some(Submission(c.id, true)))
    else Effect(c.id, Answer(s, c, if c.action == Open then Rejected else Failed, "BROKER_REFUSED"), Some(Submission(c.id, false)))
  }

  /** Processing one response: the remembered id, the acknowledgement and the broker submission. */
  function Process(s: Scene, lastId: string, c: Row): Effect {
    if !s.parses || c.id == "" then Effect(lastId, None, None)
    else if c.instance != s.instance || c.account != s.account || c.symbol != s.symbol then
      Effect(lastId, Answer(s, c, Rejected, "COMMAND_SCOPE_MISMATCH"), None)
    else if c.id == lastId then Effect(lastId, Answer(s, c, ReconciliationRequired, DUPLICATE), None)
    else if !s.expiryReadable then Effect(c.id, Answer(s, c, Rejected, "INVALID_COMMAND_EXPIRY"), None)
    else if s.now > c.expiresAt then Effect(c.id, Answer(s, c, Expired, "COMMAND_EXPIRED_BEFORE_EXECUTION"), None)
    else if !s.authorizationSeen || !c.authorized then Effect(c.id, Answer(s, c, Rejected, "SERVER_AUTHORIZATION_MISSING"), None)
    else if !s.permitted then Effect(c.id, Answer(s, c, Rejected, "LOCAL_PERMISSION_DENIED"), None)
    else Execute(s, c)
  }

  /** A crash loses the acknowledgement and the remembered id; after the broker call the order stands. */
  function ProcessOrCrash(s: Scene, lastId: string, c: Row): Effect {
    match s.crash
    case NoCrash => Process(s, lastId, c)
    case BeforeBroker => Effect("", None, None)
    case AfterBroker => Effect("", None, Process(s, lastId, c).submitted)
  }

  class Terminal {
    var lastCommandId: string

    constructor ()
      ensures lastCommandId == ""
    {
      lastCommandId := "";
    }

    method ProcessCommand(s: Scene, c: Row) returns (ack: Option<Ack>, submitted: Option<Submission>)
      modifies this
      ensures Process(s, old(lastCommandId), c) == Effect(lastCommandId, ack, submitted)
    {
      submitted := None;
      if !s.parses || c.id == "" {
        return None, None;
      }
      if c.instance != s.instance || c.account != s.account || c.symbol != s.symbol {
        return Answer(s, c, Rejected, "COMMAND_SCOPE_MISMATCH"), None;
      }
      if c.id == lastCommandId {
        return Answer(s, c, ReconciliationRequired, DUPLICATE), None;
      }
      lastCommandId := c.id;
      if !s.expiryReadable {
        return Answer(s, c, Rejected, "INVALID_COMMAND_EXPIRY"), None;
      }
      if s.now > c.expiresAt {
        return Answer(s, c, Expired, "COMMAND_EXPIRED_BEFORE_EXECUTION"), None;
      }
      if !s.authorizationSeen || !c.authorized {
        return Answer(s, c, Rejected, "SERVER_AUTHORIZATION_MISSING"), None;
      }
      if !s.permitted {
        return Answer(s, c, Rejected, "LOCAL_PERMISSION_DENIED"), None;
      }
      match c.action {
        case Noop =>
          return Answer(s, c, Executed, "NOOP"), None;
        case Open =>
          if !s.orderValid {
            return Answer(s, c, Rejected, "LOCAL_CHECK_FAILED"), None;
          }
          submitted := Some(Submission(c.id, s.brokerAccepts));
          ack := if s.brokerAccepts then Answer(s, c, Executed, "BROKER_ACCEPTED") else Answer(s, c, Rejected, "BROKER_REFUSED");
        case _ =>
          if !s.orderValid {
            return Answer(s, c, Rejected, "LOCAL_CHECK_FAILED"), None;
          }
          submitted := Some(Submission(c.id, s.brokerAccepts));
          ack := if s.brokerAccepts then Answer(s, c, Executed, "BROKER_ACCEPTED") else Answer(s, c, Failed, "BROKER_REFUSED");
      }
    }
  }

  // ----- The whole system -----

  /** rows: the table; inFlight: responses not yet received; sent: every acknowledgement ever sent;
      lastIds: what each running terminal remembers; broker: the submissions, oldest first. */
  datatype System = System(rows: seq<Row>, inFlight: seq<Row>, sent: set<Ack>, lastIds: map<nat, string>, broker: seq<Submission>)

  datatype Event =
    | Insert(row: Row)
    | PollServer(poll: Poll)
    | LoseResponse(i: nat)
    | Receive(i: nat, terminal: nat, scene: Scene)
    | AckArrives(ack: Ack, now: int)
    | Restart(terminal: nat)

  function LastId(sys: System, terminal: nat): string {
    if terminal in sys.lastIds then sys.lastIds[terminal] else ""
  }

  function Without<T>(s: seq<T>, i: nat): seq<T>
    requires i < |s|
  {
    s[..i] + s[i + 1..]
  }

  function Received(sys: System, i: nat, terminal: nat, scene: Scene): System
    requires i < |sys.inFlight|
  {
    var e := ProcessOrCrash(scene, LastId(sys, terminal), sys.inFlight[i]);
    sys.(inFlight := Without(sys.inFlight, i),
         lastIds := sys.lastIds[terminal := e.lastId],
         sent := if e.ack.Some? then sys.sent + {e.ack.value} else sys.sent,
         broker := if e.submitted.Some? then sys.broker + [e.submitted.value] else sys.broker)
  }

  function Step(sys: System, event: Event): System {
    match event
    case Insert(r) => if New(r) then sys.(rows := Inserted(sys.rows, r)) else sys
    case PollServer(p) =>
      var (rows, reply) := Next(sys.rows, p);
      sys.(rows := rows, inFlight := if reply.Deliver? then sys.inFlight + [reply.command] else sys.inFlight)
    case LoseResponse(i) => if i < |sys.inFlight| then sys.(inFlight := Without(sys.inFlight, i)) else sys
    case Receive(i, terminal, scene) => if i < |sys.inFlight| then Received(sys, i, terminal, scene) else sys
    case AckArrives(a, now) => if a in sys.sent then sys.(rows := Acknowledged(sys.rows, a, now).0) else sys
    case Restart(terminal) => sys.(lastIds := sys.lastIds - {terminal})
  }

  function Start(): System {
    System([], [], {}, map[], [])
  }

  function RunSystem(events: seq<Event>): System {
    if events == [] then Start() else Step(RunSystem(events[..|events| - 1]), events[|events| - 1])
  }

  // ----- The invariant -----

  /** The command with this id has left the pending state. */
  ghost predicate Settled(rows: seq<Row>, id: string) {
    exists k :: 0 <= k < |rows| && rows[k].id == id && rows[k].state != Pending
  }

  /** Some terminal has already seen the command with this id. */
  ghost predicate Consumed(sys: System, id: string) {
    || (exists a :: a in sys.sent && a.id == id)
    || (exists t :: t in sys.lastIds && sys.lastIds[t] == id && id != "")
    || (exists k :: 0 <= k < |sys.broker| && sys.broker[k].id == id)
  }

  ghost predicate FlightOk(sys: System) {
    && (forall i | 0 <= i < |sys.inFlight| :: Settled(sys.rows, sys.inFlight[i].id) && !Consumed(sys, sys.inFlight[i].id))
    && (forall i, j | 0 <= i < j < |sys.inFlight| :: sys.inFlight[i].id != sys.inFlight[j].id)
  }

  ghost predicate SeenOk(sys: System) {
    && (forall a | a in sys.sent :: Settled(sys.rows, a.id))
    && (forall t | t in sys.lastIds && sys.lastIds[t] != "" :: Settled(sys.rows, sys.lastIds[t]))
    && (forall k | 0 <= k < |sys.broker| :: Settled(sys.rows, sys.broker[k].id))
  }

  /** No command reaches the broker twice. */
  ghost predicate AtMostOnce(sys: System) {
    forall j, k | 0 <= j < k < |sys.broker| :: sys.broker[j].id != sys.broker[k].id
  }

  /** What the table may say of a command the broker accepted. */
  ghost predicate HonestRow(r: Row) {
    r.state in {Claimed, Executed}
  }

  ghost predicate Honest(sys: System) {
    forall k | 0 <= k < |sys.broker| && sys.broker[k].accepted ::
      && (forall a | a in sys.sent && a.id == sys.broker[k].id :: a.state == Executed)
      && (forall i | 0 <= i < |sys.rows| && sys.rows[i].id == sys.broker[k].id :: HonestRow(sys.rows[i]))
  }

  /** A response in flight is for a command that is still exactly claimed. */
  ghost predicate FlightClaimed(sys: System) {
    forall i, k | 0 <= i < |sys.inFlight| && 0 <= k < |sys.rows| && sys.rows[k].id == sys.inFlight[i].id ::
      sys.rows[k].state == Claimed
  }

  ghost predicate Inv(sys: System) {
    RowsOk(sys.rows) && FlightOk(sys) && SeenOk(sys) && AtMostOnce(sys) && Honest(sys) && FlightClaimed(sys)
  }

  // ----- Preservation, one event at a time -----

  lemma InsertKeeps(sys: System, r: Row)
    requires Inv(sys) && New(r)
    ensures Inv(sys.(rows := Inserted(sys.rows, r)))
  {
    var after := sys.(rows := Inserted(sys.rows, r));
    ApplyKeepsRows(sys.rows, DoInsert(r));
    ApplyAdvances(sys.rows, DoInsert(r));
    SettledAll(sys, after);
    if !HasId(sys.rows, r.id) {
      forall i | 0 <= i < |sys.inFlight|
        ensures sys.inFlight[i].id != r.id
      {
        assert Settled(sys.rows, sys.inFlight[i].id);
      }
      forall k | 0 <= k < |sys.broker|
        ensures sys.broker[k].id != r.id
      {
        assert Settled(sys.rows, sys.broker[k].id);
      }
    }
  }

  /** Advancing rows keep everything that only speaks of settled ids. */
  lemma SettledAll(sys: System, after: System)
    requires FlightOk(sys) && SeenOk(sys) && AllAdvance(sys.rows, after.rows)
    requires after == sys.(rows := after.rows)
    ensures FlightOk(after) && SeenOk(after)
  {
  }

  /** A poll changes pending rows only, and the one it delivers becomes claimed. */
  lemma NextOnlyPending(rows: seq<Row>, p: Poll)
    ensures |Next(rows, p).0| == |rows|
    ensures forall k | 0 <= k < |rows| && rows[k].state != Pending :: Next(rows, p).0[k] == rows[k]
    ensures forall k | 0 <= k < |rows| :: Next(rows, p).0[k].id == rows[k].id
    ensures var reply := Next(rows, p).1;
            reply.Deliver? ==> exists k :: 0 <= k < |rows| && rows[k].state == Pending
                                 && Next(rows, p).0[k] == reply.command && reply.command.state == Claimed
  {
    var expired := ExpireRows(rows, p);
    if p.heartbeat.Some? {
      OldestExact(expired, p, p.heartbeat.value.symbol);
    }
    hide Oldest, Authorization;
  }

  lemma SettledIsUnique(rows: seq<Row>, id: string, k: nat)
    requires RowsOk(rows) && k < |rows| && rows[k].id == id && Settled(rows, id)
    ensures rows[k].state != Pending
  {
  }

  lemma PollKeepsRows(sys: System, p: Poll)
    requires Inv(sys)
    ensures Inv(sys.(rows := Next(sys.rows, p).0))
  {
    var rows := Next(sys.rows, p).0;
    var after := sys.(rows := rows);
    NextKeepsRows(sys.rows, p);
    NextAdvances(sys.rows, p);
    NextOnlyPending(sys.rows, p);
    SettledAll(sys, after);
    hide Next;
    forall i, k | 0 <= i < |sys.inFlight| && 0 <= k < |rows| && rows[k].id == sys.inFlight[i].id
      ensures rows[k].state == Claimed
    {
      SettledIsUnique(sys.rows, sys.inFlight[i].id, k);
    }
    forall j, k | 0 <= j < |sys.broker| && sys.broker[j].accepted && 0 <= k < |rows| && rows[k].id == sys.broker[j].id
      ensures HonestRow(rows[k])
    {
      SettledIsUnique(sys.rows, sys.broker[j].id, k);
    }
  }

  /** A command that was pending has not been delivered before. */
  lemma PendingIsUnseen(sys: System, k: nat)
    requires RowsOk(sys.rows) && FlightOk(sys) && SeenOk(sys)
    requires k < |sys.rows| && sys.rows[k].state == Pending
    ensures !Consumed(sys, sys.rows[k].id)
    ensures forall i | 0 <= i < |sys.inFlight| :: sys.inFlight[i].id != sys.rows[k].id
  {
  }

  lemma DeliveryKeeps(sys: System, p: Poll)
    requires Inv(sys) && Next(sys.rows, p).1.Deliver?
    ensures Inv(Step(sys, PollServer(p)))
  {
    PollKeepsRows(sys, p);
    NextOnlyPending(sys.rows, p);
    var rows, c := Next(sys.rows, p).0, Next(sys.rows, p).1.command;
    var moved := sys.(rows := rows);
    var after := moved.(inFlight := sys.inFlight + [c]);
    assert after == Step(sys, PollServer(p));
    hide Next, Step;
    var k :| 0 <= k < |sys.rows| && sys.rows[k].state == Pending && rows[k] == c && c.state == Claimed;
    hide RowsOk, FlightOk, SeenOk, AtMostOnce, FlightClaimed, Consumed, Honest;
    PendingIsUnseen(sys, k);
    assert Settled(rows, c.id);
    hide Settled;
    SameConsumed(sys, moved, c.id);
    FlightGrows(moved, c);
    ClaimedInFlight(moved, c, k);
    OutsideFlight(moved, after);
  }

  lemma SameConsumed(sys: System, moved: System, id: string)
    requires moved == sys.(rows := moved.rows)
    ensures Consumed(moved, id) == Consumed(sys, id)
  {
  }

  /** These parts of the invariant do not read what is in flight. */
  lemma OutsideFlight(sys: System, after: System)
    requires after == sys.(inFlight := after.inFlight) && SeenOk(sys) && AtMostOnce(sys) && Honest(sys)
    ensures SeenOk(after) && AtMostOnce(after) && Honest(after)
  {
  }

  lemma ClaimedInFlight(sys: System, c: Row, k: nat)
    requires RowsOk(sys.rows) && FlightClaimed(sys) && k < |sys.rows| && sys.rows[k] == c && c.state == Claimed
    ensures FlightClaimed(sys.(inFlight := sys.inFlight + [c]))
  {
  }

  lemma FlightGrows(sys: System, c: Row)
    requires FlightOk(sys) && Settled(sys.rows, c.id) && !Consumed(sys, c.id)
    requires forall i | 0 <= i < |sys.inFlight| :: sys.inFlight[i].id != c.id
    ensures FlightOk(sys.(inFlight := sys.inFlight + [c]))
  {
  }

  lemma FewerInFlight(sys: System, i: nat)
    requires Inv(sys) && i < |sys.inFlight|
    ensures Inv(sys.(inFlight := Without(sys.inFlight, i)))
    ensures forall j | 0 <= j < |sys.inFlight| - 1 :: Without(sys.inFlight, i)[j].id != sys.inFlight[i].id
  {
    var after := sys.(inFlight := Without(sys.inFlight, i));
    forall j | 0 <= j < |after.inFlight|
      ensures !Consumed(after, after.inFlight[j].id)
    {
      assert Consumed(after, after.inFlight[j].id) == Consumed(sys, after.inFlight[j].id);
    }
  }

  /** What processing can do: speak of the processed command only, and report success exactly as the broker did. */
  lemma EffectShape(s: Scene, lastId: string, c: Row)
    ensures var e := ProcessOrCrash(s, lastId, c);
            && (e.lastId in {lastId, c.id, ""})
            && (e.ack.Some? ==> e.ack.value.id == c.id)
            && (e.submitted.Some? ==> e.submitted.value.id == c.id && c.id != "")
            && (e.submitted.Some? && e.submitted.value.accepted && e.ack.Some? ==> e.ack.value.state == Executed)
  {
  }

  lemma ReceiveKeeps(sys: System, i: nat, terminal: nat, scene: Scene)
    requires Inv(sys) && i < |sys.inFlight|
    ensures Inv(Received(sys, i, terminal, scene))
  {
    var c, lastId := sys.inFlight[i], LastId(sys, terminal);
    var e := ProcessOrCrash(scene, lastId, c);
    EffectShape(scene, lastId, c);
    var after := Received(sys, i, terminal, scene);
    hide ProcessOrCrash;
    assert after.rows == sys.rows && after.inFlight == Without(sys.inFlight, i);
    SubmissionsStayDistinct(sys, i, e);
    assert SeenOk(after) by { hide FlightOk, AtMostOnce, Honest, FlightClaimed, RowsOk; }
    assert AtMostOnce(after) by { hide FlightOk, SeenOk, Honest, FlightClaimed, RowsOk, Settled; }
    HonestStays(sys, after, c);
    FlightStays(sys, after, i, terminal);
    hide RowsOk, FlightOk, SeenOk, AtMostOnce, Honest, FlightClaimed, Received;
  }

  /** What stays in flight has not been seen by any terminal. */
  lemma FlightStays(sys: System, after: System, i: nat, terminal: nat)
    requires Inv(sys) && i < |sys.inFlight| && after.rows == sys.rows && after.inFlight == Without(sys.inFlight, i)
    requires forall a | a in after.sent :: a in sys.sent || a.id == sys.inFlight[i].id
    requires forall t | t in after.lastIds && t != terminal :: t in sys.lastIds && after.lastIds[t] == sys.lastIds[t]
    requires terminal in after.lastIds ==>
               after.lastIds[terminal] in {sys.inFlight[i].id, ""}
               || (terminal in sys.lastIds && after.lastIds[terminal] == sys.lastIds[terminal])
    requires |sys.broker| <= |after.broker|
    requires forall k | 0 <= k < |after.broker| :: (k < |sys.broker| && after.broker[k] == sys.broker[k])
                                                   || after.broker[k].id == sys.inFlight[i].id
    ensures FlightOk(after) && FlightClaimed(after)
  {
  }

  lemma SubmissionsStayDistinct(sys: System, i: nat, e: Effect)
    requires Inv(sys) && i < |sys.inFlight| && (e.submitted.Some? ==> e.submitted.value.id == sys.inFlight[i].id)
    ensures e.submitted.Some? ==> forall k | 0 <= k < |sys.broker| :: sys.broker[k].id != e.submitted.value.id
  {
  }

  lemma HonestStays(sys: System, after: System, c: Row)
    requires Inv(sys) && c in sys.inFlight && after.rows == sys.rows
    requires forall a | a in after.sent :: a in sys.sent || a.id == c.id
    requires forall k | 0 <= k < |after.broker| :: (k < |sys.broker| && after.broker[k] == sys.broker[k]) || (k == |sys.broker| && after.broker[k].id == c.id)
    requires |after.broker| > |sys.broker| && after.broker[|sys.broker|].accepted ==>
               forall a | a in after.sent && a.id == c.id :: a.state == Executed
    ensures Honest(after)
  {
  }

  lemma AckTouchesOne(rows: seq<Row>, a: Ack, now: int)
    requires RowsOk(rows)
    ensures |Acknowledged(rows, a, now).0| == |rows|
    ensures forall k | 0 <= k < |rows| && rows[k].id != a.id :: Acknowledged(rows, a, now).0[k] == rows[k]
    ensures forall k | 0 <= k < |rows| :: Acknowledged(rows, a, now).0[k] == rows[k]
                                            || (Acknowledged(rows, a, now).0[k].id == a.id == rows[k].id
                                                && Acknowledged(rows, a, now).0[k].state == a.state)
  {
    FindExact(rows, a);
    hide Find;
  }

  lemma AckKeeps(sys: System, a: Ack, now: int)
    requires Inv(sys) && a in sys.sent
    ensures Inv(sys.(rows := Acknowledged(sys.rows, a, now).0))
  {
    var rows := Acknowledged(sys.rows, a, now).0;
    var after := sys.(rows := rows);
    AckKeepsRows(sys.rows, a, now);
    AckAdvances(sys.rows, a, now);
    AckTouchesOne(sys.rows, a, now);
    SettledAll(sys, after);
    hide Acknowledged;
    forall i | 0 <= i < |sys.inFlight|
      ensures sys.inFlight[i].id != a.id
    {
      assert !Consumed(sys, sys.inFlight[i].id);
    }
  }

  lemma RestartKeeps(sys: System, terminal: nat)
    requires Inv(sys)
    ensures Inv(sys.(lastIds := sys.lastIds - {terminal}))
  {
  }

  lemma StepKeeps(sys: System, event: Event)
    requires Inv(sys)
    ensures Inv(Step(sys, event))
  {
    hide Inv, Next, Acknowledged, Received, Inserted;
    match event {
      case Insert(r) =>
        if New(r) {
          InsertKeeps(sys, r);
        }
      case PollServer(p) =>
        if Next(sys.rows, p).1.Deliver? {
          DeliveryKeeps(sys, p);
        } else {
          PollKeepsRows(sys, p);
        }
      case LoseResponse(i) =>
        if i < |sys.inFlight| {
          FewerInFlight(sys, i);
        }
      case Receive(i, terminal, scene) =>
        if i < |sys.inFlight| {
          ReceiveKeeps(sys, i, terminal, scene);
        }
      case AckArrives(a, now) =>
        if a in sys.sent {
          AckKeeps(sys, a, now);
        }
      case Restart(terminal) =>
        RestartKeeps(sys, terminal);
    }
  }

  lemma {:induction false} SystemInvariant(events: seq<Event>)
    ensures Inv(RunSystem(events))
  {
    if events != [] {
      SystemInvariant(events[..|events| - 1]);
      StepKeeps(RunSystem(events[..|events| - 1]), events[|events| - 1]);
      hide Inv, Step;
    }
  }

  // ----- The theorems -----

  /** Over every interleaving each command id reaches the broker at most once. */
  lemma BrokerAtMostOnce(events: seq<Event>, j: nat, k: nat)
    requires j < k < |RunSystem(events).broker|
    ensures RunSystem(events).broker[j].id != RunSystem(events).broker[k].id
  {
    SystemInvariant(events);
    hide RunSystem;
  }

  /** A command the broker accepted is never recorded rejected, expired, failed or in need of reconciliation. */
  lemma AcceptedIsNeverDenied(events: seq<Event>, k: nat, i: nat)
    requires k < |RunSystem(events).broker| && RunSystem(events).broker[k].accepted
    requires i < |RunSystem(events).rows| && RunSystem(events).rows[i].id == RunSystem(events).broker[k].id
    ensures RunSystem(events).rows[i].state in {Claimed, Executed}
    ensures Delivered(RunSystem(events).rows[i])
  {
    SystemInvariant(events);
    hide RunSystem;
  }

  /** No terminal ever takes its duplicate-id branch: a response in flight is never for an id it remembers. */
  lemma DuplicateBranchUnreachable(events: seq<Event>, i: nat, terminal: nat, scene: Scene)
    requires i < |RunSystem(events).inFlight|
    ensures var sys := RunSystem(events);
            var e := Process(scene, LastId(sys, terminal), sys.inFlight[i]);
            e.ack.Some? ==> e.ack.value.state != ReconciliationRequired
  {
    SystemInvariant(events);
    var sys := RunSystem(events);
    assert !Consumed(sys, sys.inFlight[i].id);
    hide RunSystem;
  }
}
