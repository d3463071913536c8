/** The server's command table: create, expire and claim, acknowledge. Each view is one transaction. */
module Commands {
  import opened Wrappers

  datatype State = Pending | Claimed | Received | Executing
                 | Executed | Rejected | Failed | Expired | ReconciliationRequired

  datatype Action = Noop | Open | Close | ModifySlTp

  datatype Row = Row(id: string, instance: string, account: string, symbol: string, action: Action,
                     server: string, decision: string, authorized: bool, expiresAt: int, createdAt: int,
                     state: State, claimedAt: Option<int>, completedAt: Option<int>, result: string)
  {
    /** What no transition touches. */
    function Identity(): Row {
      this.(state := Pending, claimedAt := None, completedAt := None, result := "")
    }
  }

  predicate Terminal(s: State) {
    s in {Executed, Rejected, Failed, Expired, ReconciliationRequired}
  }

  predicate Acknowledgeable(s: State) {
    Terminal(s) || s in {Received, Executing}
  }

  function Rank(s: State): nat {
    match s case Pending => 0 case Claimed => 1 case Received => 2 case Executing => 3 case _ => 4
  }

  // ----- Polling -----

  datatype Heartbeat = Heartbeat(account: string, server: string, payloadServer: string, symbol: string,
                                 ready: bool, tradeAllowed: bool, tradeMode: Option<int>, lastSeen: int)

  datatype Poll = Poll(instance: string, account: string, now: int, enabled: bool, heartbeat: Option<Heartbeat>, maxAge: int)

  datatype Refusal = HeartbeatMissing | HeartbeatStale | AccountLoginMismatch | AccountServerMismatch
                   | TerminalNotReady | TerminalTradingDisabled | DemoAccountRequired | CommandServerMismatch

  datatype Reply = BadRequest | Disabled | NotAuthorized(reason: Refusal) | NoCommand | Deliver(command: Row)

  predicate WellFormed(p: Poll) {
    0 < |p.instance| <= 128 && 0 < |p.account| <= 32
  }

  /** Every pending row of this instance and account that has reached its expiry expires. */
  function ExpireRow(r: Row, p: Poll): Row {
    if r.instance == p.instance && r.account == p.account && r.state == Pending && r.expiresAt <= p.now then
      r.(state := Expired, completedAt := Some(p.now))
    else r
  }

  function ExpireRows(rows: seq<Row>, p: Poll): seq<Row> {
    seq(|rows|, i requires 0 <= i < |rows| => ExpireRow(rows[i], p))
  }

  function Authorization(p: Poll): Option<Refusal> {
    match p.heartbeat
    case None => Some(HeartbeatMissing)
    case Some(h) =>
      var age := p.now - h.lastSeen;
      if age < 0 || age > p.maxAge then Some(HeartbeatStale)
      else if h.account != p.account then Some(AccountLoginMismatch)
      else if h.server == "" || h.payloadServer != h.server then Some(AccountServerMismatch)
      else if !h.ready then Some(TerminalNotReady)
      else if !h.tradeAllowed then Some(TerminalTradingDisabled)
      else if h.tradeMode != Some(0) then Some(DemoAccountRequired)
      else None
  }

  predicate Eligible(r: Row, p: Poll, symbol: string) {
    && r.instance == p.instance && r.account == p.account && r.symbol == symbol
    && r.state == Pending && p.now < r.expiresAt && r.authorized
  }

  /** The oldest eligible row; among equal creation times the first inserted. */
  function Oldest(rows: seq<Row>, p: Poll, symbol: string): (k: Option<nat>)
    ensures k.Some? ==> k.value < |rows|
  {
    if rows == [] then None
    else
      var n := |rows| - 1;
      var earlier := Oldest(rows[..n], p, symbol);
      if Eligible(rows[n], p, symbol) && (earlier.None? || rows[n].createdAt < rows[earlier.value].createdAt) then Some(n)
      else earlier
  }

  lemma {:induction false} OldestExact(rows: seq<Row>, p: Poll, symbol: string)
    ensures match Oldest(rows, p, symbol)
            case None => forall i | 0 <= i < |rows| :: !Eligible(rows[i], p, symbol)
            case Some(k) =>
              && k < |rows| && Eligible(rows[k], p, symbol)
              && forall i | 0 <= i < |rows| && Eligible(rows[i], p, symbol) :: rows[k].createdAt <= rows[i].createdAt
  {
    if rows != [] {
      OldestExact(rows[..|rows| - 1], p, symbol);
      hide Eligible;
    }
  }

  function Claim(rows: seq<Row>, p: Poll, h: Heartbeat): (seq<Row>, Reply) {
    OldestExact(rows, p, h.symbol);
    match Oldest(rows, p, h.symbol)
    case None => (rows, NoCommand)
    case Some(k) =>
      if rows[k].server == "" || rows[k].server != h.server then
        (rows[k := rows[k].(state := Rejected, result := "COMMAND_SERVER_MISMATCH", completedAt := Some(p.now))],
         NotAuthorized(CommandServerMismatch))
      else
        var claimed := rows[k].(state := Claimed, claimedAt := Some(p.now));
        (rows[k := claimed], Deliver(claimed))
  }

  /** One poll of the EA. */
  function Next(rows: seq<Row>, p: Poll): (seq<Row>, Reply) {
    if !WellFormed(p) then (rows, BadRequest)
    else if !p.enabled then (rows, Disabled)
    else
      var expired := ExpireRows(rows, p);
      match Authorization(p)
      case Some(reason) => (expired, NotAuthorized(reason))
      case None => Claim(expired, p, p.heartbeat.value)
  }

  // ----- Acknowledging -----

  datatype Ack = Ack(id: string, instance: string, account: string, state: State, result: string)

  datatype AckReply = AckBadRequest | NotFound | Duplicate | AlreadyTerminal | InvalidTransition | Recorded

  /** The row with this id, if it belongs to this instance and account. */
  function Find(rows: seq<Row>, a: Ack): Option<nat> {
    if rows == [] then None
    else
      var n := |rows| - 1;
      if rows[n].id == a.id && rows[n].instance == a.instance && rows[n].account == a.account then Some(n)
      else Find(rows[..n], a)
  }

  lemma {:induction false} FindExact(rows: seq<Row>, a: Ack)
    ensures match Find(rows, a)
            case None => forall i | 0 <= i < |rows| ::
              !(rows[i].id == a.id && rows[i].instance == a.instance && rows[i].account == a.account)
            case Some(k) => k < |rows| && rows[k].id == a.id && rows[k].instance == a.instance && rows[k].account == a.account
  {
    if rows != [] {
      FindExact(rows[..|rows| - 1], a);
    }
  }

  predicate Allowed(source: State, target: State) {
    match source
    case Pending => target in {Rejected, Expired}
    case Claimed => Acknowledgeable(target)
    case Received => Acknowledgeable(target) && target != Received
    case Executing => Acknowledgeable(target) && target !in {Received, Executing}
    case _ => false
  }

  function Acknowledged(rows: seq<Row>, a: Ack, now: int): (seq<Row>, AckReply) {
    FindExact(rows, a);
    if a.id == "" || a.instance == "" || a.account == "" || !Acknowledgeable(a.state) then (rows, AckBadRequest)
    else
      match Find(rows, a)
      case None => (rows, NotFound)
      case Some(k) =>
        var r := rows[k];
        if Terminal(r.state) then
          (rows, if r.state == a.state && r.result == a.result then Duplicate else AlreadyTerminal)
        else if !Allowed(r.state, a.state) then (rows, InvalidTransition)
        else
          var updated := r.(state := a.state, result := a.result,
                            completedAt := if Terminal(a.state) then Some(now) else r.completedAt);
          (rows[k := updated], Recorded)
  }

  // ----- Creating -----

  /** A new row, before any transition. */
  predicate New(r: Row) {
    r.state == Pending && r.claimedAt == None && r.completedAt == None
  }

  predicate HasId(rows: seq<Row>, id: string) {
    exists i :: 0 <= i < |rows| && rows[i].id == id
  }

  /** Insert unless the id exists. */
  function Inserted(rows: seq<Row>, r: Row): seq<Row> {
    if HasId(rows, r.id) then rows else rows + [r]
  }

  /** An approved decision for one account; the command id is a digest of the three names. */
  datatype Order = Order(decision: string, instance: string, account: string, server: string, symbol: string, now: int)

  function Joined(o: Order): string {
    o.decision + "|" + o.instance + "|" + o.account
  }

  function CommandId(o: Order, digest: string -> string): string {
    "ramon-open-" + digest(Joined(o))
  }

  function OpenRow(o: Order, digest: string -> string): Row {
    Row(CommandId(o, digest), o.instance, o.account, o.symbol, Open, o.server, o.decision, true,
        o.now + 60, o.now, Pending, None, None, "")
  }

  datatype Creation = Created(row: Row) | AlreadyExists(row: Row) | Collision

  function ById(rows: seq<Row>, id: string): (r: Row)
    requires HasId(rows, id)
    ensures r in rows && r.id == id
    decreases rows
  {
    if rows[|rows| - 1].id == id then rows[|rows| - 1]
    else
      assert HasId(rows[..|rows| - 1], id) by {
        var i :| 0 <= i < |rows| && rows[i].id == id;
        assert rows[..|rows| - 1][i].id == id;
      }
      ById(rows[..|rows| - 1], id)
  }

  function CreateOpen(rows: seq<Row>, o: Order, digest: string -> string): (seq<Row>, Creation) {
    var row := OpenRow(o, digest);
    if !HasId(rows, row.id) then (rows + [row], Created(row))
    else
      var r := ById(rows, row.id);
      if r.instance != o.instance || r.account != o.account || r.symbol != o.symbol || r.decision != o.decision then
        (rows, Collision)
      else (rows, AlreadyExists(r))
  }

  class CommandTable {
    var rows: seq<Row>

    constructor ()
      ensures rows == []
    {
      rows := [];
    }

    method NextCommand(p: Poll) returns (reply: Reply)
      modifies this
      ensures (rows, reply) == Next(old(rows), p)
    {
      if !WellFormed(p) {
        return BadRequest;
      }
      if !p.enabled {
        return Disabled;
      }
      rows := ExpireRows(rows, p);
      var refusal := Authorization(p);
      if refusal.Some? {
        return NotAuthorized(refusal.value);
      }
      var h := p.heartbeat.value;
      OldestExact(rows, p, h.symbol);
      var k := Oldest(rows, p, h.symbol);
      if k.None? {
        return NoCommand;
      }
      var command := rows[k.value];
      if command.server == "" || command.server != h.server {
        command := command.(state := Rejected, result := "COMMAND_SERVER_MISMATCH", completedAt := Some(p.now));
        rows := rows[k.value := command];
        return NotAuthorized(CommandServerMismatch);
      }
      command := command.(state := Claimed, claimedAt := Some(p.now));
      rows := rows[k.value := command];
      return Deliver(command);
    }

    method AcknowledgeCommand(a: Ack, now: int) returns (reply: AckReply)
      modifies this
      ensures (rows, reply) == Acknowledged(old(rows), a, now)
    {
      if a.id == "" || a.instance == "" || a.account == "" || !Acknowledgeable(a.state) {
        return AckBadRequest;
      }
      FindExact(rows, a);
      var k := Find(rows, a);
      if k.None? {
        return NotFound;
      }
      var command := rows[k.value];
      if Terminal(command.state) {
        return if command.state == a.state && command.result == a.result then Duplicate else AlreadyTerminal;
      }
      if !Allowed(command.state, a.state) {
        return InvalidTransition;
      }
      command := command.(state := a.state, result := a.result);
      if Terminal(a.state) {
        command := command.(completedAt := Some(now));
      }
      rows := rows[k.value := command];
      return Recorded;
    }

    method CreateOpenCommand(o: Order, digest: string -> string) returns (c: Creation)
      modifies this
      ensures (rows, c) == CreateOpen(old(rows), o, digest)
    {
      var row := OpenRow(o, digest);
      if !HasId(rows, row.id) {
        rows := rows + [row];
        return Created(row);
      }
      var existing := ById(rows, row.id);
      if existing.instance != o.instance || existing.account != o.account
         || existing.symbol != o.symbol || existing.decision != o.decision {
        return Collision;
      }
      return AlreadyExists(existing);
    }
  }
}
