/** What every step of the server keeps, over whole runs of polls, acknowledgements and creations. */
module CommandLifecycle {
  import opened Wrappers
  import opened Commands

  datatype Op = DoPoll(poll: Poll) | DoAck(ack: Ack, now: int) | DoInsert(row: Row)

  function Apply(rows: seq<Row>, op: Op): seq<Row> {
    match op
    case DoPoll(p) => Next(rows, p).0
    case DoAck(a, now) => Acknowledged(rows, a, now).0
    case DoInsert(r) => if New(r) then Inserted(rows, r) else rows
  }

  function Run(rows: seq<Row>, ops: seq<Op>): seq<Row> {
    if ops == [] then rows else Apply(Run(rows, ops[..|ops| - 1]), ops[|ops| - 1])
  }

  // ----- Rows only move forward -----

  /** A row either stays as it is or strictly rises in rank; its identity never changes. */
  ghost predicate Advances(before: Row, after: Row) {
    after == before || (Rank(before.state) < Rank(after.state) && after.Identity() == before.Identity())
  }

  ghost predicate AllAdvance(before: seq<Row>, after: seq<Row>) {
    |before| <= |after| && forall i | 0 <= i < |before| :: Advances(before[i], after[i])
  }

  lemma NextAdvances(rows: seq<Row>, p: Poll)
    ensures AllAdvance(rows, Next(rows, p).0) && |Next(rows, p).0| == |rows|
  {
    var expired := ExpireRows(rows, p);
    if p.heartbeat.Some? {
      OldestExact(expired, p, p.heartbeat.value.symbol);
    }
    hide Oldest, Authorization;
  }

  lemma AckAdvances(rows: seq<Row>, a: Ack, now: int)
    ensures AllAdvance(rows, Acknowledged(rows, a, now).0) && |Acknowledged(rows, a, now).0| == |rows|
  {
    FindExact(rows, a);
    hide Find;
  }

  lemma ApplyAdvances(rows: seq<Row>, op: Op)
    ensures AllAdvance(rows, Apply(rows, op))
  {
    match op {
      case DoPoll(p) => NextAdvances(rows, p);
      case DoAck(a, now) => AckAdvances(rows, a, now);
      case DoInsert(_) =>
    }
  }

  lemma AdvanceReflexive(rows: seq<Row>)
    ensures AllAdvance(rows, rows)
  {
  }

  lemma AdvanceTransitive(a: seq<Row>, c: seq<Row>, e: seq<Row>)
    requires AllAdvance(a, c) && AllAdvance(c, e)
    ensures AllAdvance(a, e)
  {
  }

  /** Over every run each row only rises in rank, so a terminal row, its state and result included,
      never changes again. */
  lemma {:induction false} RunAdvances(rows: seq<Row>, ops: seq<Op>)
    ensures AllAdvance(rows, Run(rows, ops))
    ensures forall i | 0 <= i < |rows| && Terminal(rows[i].state) :: i < |Run(rows, ops)| && Run(rows, ops)[i] == rows[i]
  {
    hide Advances, Terminal;
    if ops == [] {
      AdvanceReflexive(rows);
    } else {
      var before := Run(rows, ops[..|ops| - 1]);
      RunAdvances(rows, ops[..|ops| - 1]);
      ApplyAdvances(before, ops[|ops| - 1]);
      hide Apply, AllAdvance;
      AdvanceTransitive(rows, before, Run(rows, ops));
    }
    TerminalStays(rows, Run(rows, ops));
  }

  lemma TerminalStays(before: seq<Row>, after: seq<Row>)
    requires AllAdvance(before, after)
    ensures forall i | 0 <= i < |before| && Terminal(before[i].state) :: i < |after| && after[i] == before[i]
  {
  }

  // ----- What the fields mean -----

  /** A command past its claim was authorized, bound to a server, and claimed before its expiry. */
  ghost predicate Delivered(r: Row) {
    r.claimedAt.Some? && r.claimedAt.value < r.expiresAt && r.authorized && r.server != ""
  }

  ghost predicate RowOk(r: Row) {
    && (r.completedAt.Some? <==> Terminal(r.state))
    && (r.state in {Claimed, Received, Executing, Executed, Failed, ReconciliationRequired} ==> Delivered(r))
    && (r.claimedAt.Some? ==> Delivered(r))
    && (r.state == Pending ==> r.claimedAt == None)
  }

  ghost predicate RowsOk(rows: seq<Row>) {
    && (forall i | 0 <= i < |rows| :: RowOk(rows[i]))
    && (forall i, j | 0 <= i < j < |rows| :: rows[i].id != rows[j].id)
  }

  lemma NextKeepsRows(rows: seq<Row>, p: Poll)
    requires RowsOk(rows)
    ensures RowsOk(Next(rows, p).0)
  {
    ExpiryKeepsRows(rows, p);
    hide ExpireRows;
    if Authorization(p).None? {
      ClaimKeepsRows(ExpireRows(rows, p), p, p.heartbeat.value);
    }
    hide RowsOk, Claim;
  }

  lemma ExpiryKeepsRows(rows: seq<Row>, p: Poll)
    requires RowsOk(rows)
    ensures RowsOk(ExpireRows(rows, p))
  {
  }

  lemma ClaimKeepsRows(rows: seq<Row>, p: Poll, h: Heartbeat)
    requires RowsOk(rows)
    ensures RowsOk(Claim(rows, p, h).0)
  {
    OldestExact(rows, p, h.symbol);
    hide Oldest;
  }

  lemma AckKeepsRows(rows: seq<Row>, a: Ack, now: int)
    requires RowsOk(rows)
    ensures RowsOk(Acknowledged(rows, a, now).0)
  {
    FindExact(rows, a);
    hide Find;
  }

  lemma ApplyKeepsRows(rows: seq<Row>, op: Op)
    requires RowsOk(rows)
    ensures RowsOk(Apply(rows, op))
  {
    match op {
      case DoPoll(p) => NextKeepsRows(rows, p);
      case DoAck(a, now) => AckKeepsRows(rows, a, now);
      case DoInsert(_) =>
    }
  }

  /** Over every run: ids are unique, completion is stamped exactly on terminal rows, and every
      executed command was authorized and claimed before its expiry. */
  lemma {:induction false} LifecycleInvariant(ops: seq<Op>)
    ensures RowsOk(Run([], ops))
  {
    if ops != [] {
      LifecycleInvariant(ops[..|ops| - 1]);
      ApplyKeepsRows(Run([], ops[..|ops| - 1]), ops[|ops| - 1]);
      hide Apply, RowsOk;
    }
  }

  predicate Due(r: Row, p: Poll) {
    r.instance == p.instance && r.account == p.account && r.state == Pending && r.expiresAt <= p.now
  }

  /** What one admitted poll changes: the due rows expire, at most one other row moves, and that row was
      eligible and is either delivered or rejected for its server; nothing is delivered only when nothing
      is eligible. */
  lemma PollExactly(rows: seq<Row>, p: Poll)
    requires WellFormed(p) && p.enabled
    ensures |Next(rows, p).0| == |rows|
    ensures forall i | 0 <= i < |rows| && Due(rows[i], p) ::
              Next(rows, p).0[i] == rows[i].(state := Expired, completedAt := Some(p.now))
    ensures forall i | 0 <= i < |rows| && !Due(rows[i], p) && Next(rows, p).0[i] != rows[i] ::
              && Authorization(p).None? && p.heartbeat.Some? && Eligible(rows[i], p, p.heartbeat.value.symbol)
              && (if rows[i].server != "" && rows[i].server == p.heartbeat.value.server
                  then Next(rows, p).1 == Deliver(Next(rows, p).0[i])
                  else Next(rows, p).1 == NotAuthorized(CommandServerMismatch) && Next(rows, p).0[i].state == Rejected)
    ensures forall i, j | 0 <= i < j < |rows| && !Due(rows[i], p) && !Due(rows[j], p) ::
              Next(rows, p).0[i] == rows[i] || Next(rows, p).0[j] == rows[j]
    ensures Next(rows, p).1 == NoCommand <==>
            Authorization(p).None? && forall i | 0 <= i < |rows| :: !Eligible(rows[i], p, p.heartbeat.value.symbol)
  {
    var expired := ExpireRows(rows, p);
    if Authorization(p).None? {
      var symbol := p.heartbeat.value.symbol;
      OldestExact(expired, p, symbol);
      assert forall i | 0 <= i < |rows| :: Eligible(expired[i], p, symbol) == Eligible(rows[i], p, symbol);
      assert forall i | 0 <= i < |rows| && Eligible(rows[i], p, symbol) :: expired[i] == rows[i];
      hide Oldest;
    }
    hide Authorization;
  }

  /** A delivered command was the oldest eligible one, and its server is the live heartbeat's. */
  lemma DeliveryIsBound(rows: seq<Row>, p: Poll)
    requires Next(rows, p).1.Deliver?
    ensures var r := Next(rows, p).1.command;
            && p.heartbeat.Some? && r.server == p.heartbeat.value.server && r.server != ""
            && 0 <= p.now - p.heartbeat.value.lastSeen <= p.maxAge && p.heartbeat.value.tradeMode == Some(0)
            && p.heartbeat.value.account == p.account && p.heartbeat.value.payloadServer == r.server
            && p.heartbeat.value.ready && p.heartbeat.value.tradeAllowed && p.enabled
            && r.state == Claimed && r.claimedAt == Some(p.now) && p.now < r.expiresAt && r.authorized
            && r.instance == p.instance && r.account == p.account && r.symbol == p.heartbeat.value.symbol
            && |Next(rows, p).0| == |rows|
            && (exists k :: 0 <= k < |rows| && rows[k].state == Pending && rows[k].Identity() == r.Identity()
                            && Next(rows, p).0[k] == r)
            && (forall i | 0 <= i < |rows| && Eligible(rows[i], p, r.symbol) :: r.createdAt <= rows[i].createdAt)
  {
    var expired := ExpireRows(rows, p);
    var h := p.heartbeat.value;
    OldestExact(expired, p, h.symbol);
    var k := Oldest(expired, p, h.symbol).value;
    assert expired[k] == rows[k];
    hide Oldest, ExpireRows;
    assert rows[k].state == Pending && Next(rows, p).0[k] == Next(rows, p).1.command;
    assert forall i | 0 <= i < |rows| && Eligible(rows[i], p, h.symbol) :: expired[i] == rows[i];
  }

  // ----- Where a claim comes from -----

  /** A row keeps its claim, or has just been delivered. */
  ghost predicate ClaimKept(rows: seq<Row>, op: Op, k: nat, after: Row) {
    || (k < |rows| && rows[k].claimedAt == after.claimedAt && rows[k].Identity() == after.Identity())
    || (op.DoPoll? && Next(rows, op.poll).1 == Deliver(after))
  }

  lemma PollKeepsClaim(rows: seq<Row>, p: Poll, k: nat)
    requires k < |Next(rows, p).0| && Next(rows, p).0[k].claimedAt.Some?
    ensures ClaimKept(rows, DoPoll(p), k, Next(rows, p).0[k])
  {
    if Authorization(p).None? {
      OldestExact(ExpireRows(rows, p), p, p.heartbeat.value.symbol);
    }
    hide Authorization, Oldest, Eligible;
  }

  lemma ApplyKeepsClaim(rows: seq<Row>, op: Op, k: nat)
    requires k < |Apply(rows, op)| && Apply(rows, op)[k].claimedAt.Some?
    ensures ClaimKept(rows, op, k, Apply(rows, op)[k])
  {
    hide Find, HasId, Next;
    match op {
      case DoPoll(p) => PollKeepsClaim(rows, p, k);
      case DoAck(a, now) => FindExact(rows, a);
      case DoInsert(_) =>
    }
  }

  /** Poll n delivered this row, and it was authorized by a live heartbeat of the row's own server. */
  ghost predicate DeliveredBy(ops: seq<Op>, n: nat, r: Row) {
    && n < |ops| && ops[n].DoPoll?
    && var p, reply := ops[n].poll, Next(Run([], ops[..n]), ops[n].poll).1;
       && reply.Deliver? && reply.command.Identity() == r.Identity() && reply.command.claimedAt == r.claimedAt
       && WellFormed(p) && p.enabled && Authorization(p).None? && p.heartbeat.Some?
       && p.heartbeat.value.server == r.server && r.server != ""
       && r.instance == p.instance && r.account == p.account && r.symbol == p.heartbeat.value.symbol
       && r.claimedAt == Some(p.now) && p.now < r.expiresAt && r.authorized
  }

  lemma DeliveryAuthorizes(ops: seq<Op>, n: nat, r: Row)
    requires n < |ops| && ops[n].DoPoll? && Next(Run([], ops[..n]), ops[n].poll).1 == Deliver(r)
    ensures DeliveredBy(ops, n, r)
  {
    DeliveryIsBound(Run([], ops[..n]), ops[n].poll);
    hide Run, Eligible;
  }

  /** Over every run, each row that was ever claimed, so each executed one, was delivered by one poll,
      whose heartbeat reported the server the row is bound to. */
  lemma {:induction false} ClaimOrigin(ops: seq<Op>, k: nat) returns (n: nat)
    requires k < |Run([], ops)| && Run([], ops)[k].claimedAt.Some?
    ensures DeliveredBy(ops, n, Run([], ops)[k])
  {
    hide Apply, DeliveredBy, Next;
    n := |ops| - 1;
    var before := Run([], ops[..n]);
    ApplyKeepsClaim(before, ops[n], k);
    if k < |before| && before[k].claimedAt == Run([], ops)[k].claimedAt && before[k].Identity() == Run([], ops)[k].Identity() {
      n := ClaimOrigin(ops[..n], k);
      hide Run;
      DeliveredEarlier(ops, n, before[k], Run([], ops)[k]);
    } else {
      DeliveryAuthorizes(ops, n, Run([], ops)[k]);
    }
  }

  lemma DeliveredEarlier(ops: seq<Op>, n: nat, r: Row, after: Row)
    requires ops != [] && DeliveredBy(ops[..|ops| - 1], n, r)
    requires after.claimedAt == r.claimedAt && after.Identity() == r.Identity()
    ensures DeliveredBy(ops, n, after)
  {
    hide Run, Next, Authorization;
    assert ops[..|ops| - 1][..n] == ops[..n];
    SameNames(r, after);
  }

  lemma SameNames(r: Row, after: Row)
    requires after.Identity() == r.Identity()
    ensures after.server == r.server && after.instance == r.instance && after.account == r.account
            && after.symbol == r.symbol && after.expiresAt == r.expiresAt && after.authorized == r.authorized
  {
  }

  /** Repeating a terminal acknowledgement that was recorded is answered as a duplicate, whenever it
      arrives, and changes nothing; so lost answers may be retried. */
  lemma TerminalAckIsIdempotent(rows: seq<Row>, a: Ack, now: int, ops: seq<Op>, later: int)
    requires RowsOk(rows) && Acknowledged(rows, a, now).1 == Recorded && Terminal(a.state)
    ensures var table := Run(Acknowledged(rows, a, now).0, ops);
            Acknowledged(table, a, later) == (table, Duplicate)
  {
    var first := Acknowledged(rows, a, now).0;
    var k := RecordedRow(rows, a, now);
    AckKeepsRows(rows, a, now);
    hide Acknowledged, RowsOk, Run, Rank;
    RunKeepsRows(first, ops);
    RunAdvances(first, ops);
    RepeatedAck(Run(first, ops), a, later, k);
  }

  lemma RecordedRow(rows: seq<Row>, a: Ack, now: int) returns (k: nat)
    requires Acknowledged(rows, a, now).1 == Recorded
    ensures var after := Acknowledged(rows, a, now).0;
            k < |after| && Answers(after[k], a) && a.id != "" && a.instance != "" && a.account != ""
            && Acknowledgeable(a.state)
  {
    FindExact(rows, a);
    k := Find(rows, a).value;
    hide Find;
  }

  /** The row is the acknowledged one, in the acknowledged state. */
  predicate Answers(r: Row, a: Ack) {
    r.id == a.id && r.instance == a.instance && r.account == a.account && r.state == a.state && r.result == a.result
  }

  lemma RepeatedAck(table: seq<Row>, a: Ack, later: int, k: nat)
    requires RowsOk(table) && k < |table| && Answers(table[k], a) && Terminal(a.state)
    requires a.id != "" && a.instance != "" && a.account != ""
    ensures Acknowledged(table, a, later) == (table, Duplicate)
  {
    FindExact(table, a);
    hide Find, RowOk;
  }

  // ----- One command per decision and account -----

  lemma InsertedIsCreate(rows: seq<Row>, o: Order, digest: string -> string)
    ensures CreateOpen(rows, o, digest).0 == Inserted(rows, OpenRow(o, digest)) && New(OpenRow(o, digest))
  {
  }

  /** Asking again for the same decision, instance and account never makes a second row: later requests
      find the first row whatever happened to it, or report a collision and change nothing. */
  lemma OneCommandPerDecision(rows: seq<Row>, o: Order, again: Order, ops: seq<Op>, digest: string -> string)
    requires RowsOk(rows) && CreateOpen(rows, o, digest).1.Created?
    requires again.decision == o.decision && again.instance == o.instance && again.account == o.account
    ensures var later := Run(CreateOpen(rows, o, digest).0, ops);
            && CreateOpen(later, again, digest).0 == later
            && (again.symbol == o.symbol ==>
                  CreateOpen(later, again, digest).1.AlreadyExists?
                  && CreateOpen(later, again, digest).1.row.Identity() == OpenRow(o, digest))
            && (again.symbol != o.symbol ==> CreateOpen(later, again, digest).1 == Collision)
  {
    var first := CreateOpen(rows, o, digest).0;
    var later := Run(first, ops);
    var k := |first| - 1;
    InsertedIsCreate(rows, o, digest);
    ApplyKeepsRows(rows, DoInsert(OpenRow(o, digest)));
    RunKeepsRows(first, ops);
    RunAdvances(first, ops);
    assert CommandId(again, digest) == CommandId(o, digest);
    hide Run, RowsOk, Apply, CommandId;
    assert Advances(first[k], later[k]);
    SecondRequest(later, k, o, again, digest);
  }

  /** A request whose id names a row finds that row. */
  lemma SecondRequest(later: seq<Row>, k: nat, o: Order, again: Order, digest: string -> string)
    requires RowsOk(later) && k < |later| && later[k].Identity() == OpenRow(o, digest)
    requires CommandId(again, digest) == CommandId(o, digest)
    requires again.decision == o.decision && again.instance == o.instance && again.account == o.account
    ensures CreateOpen(later, again, digest).0 == later
    ensures again.symbol == o.symbol ==> CreateOpen(later, again, digest).1 == AlreadyExists(later[k])
    ensures again.symbol != o.symbol ==> CreateOpen(later, again, digest).1 == Collision
  {
  }

  lemma {:induction false} RunKeepsRows(rows: seq<Row>, ops: seq<Op>)
    requires RowsOk(rows)
    ensures RowsOk(Run(rows, ops))
  {
    if ops != [] {
      RunKeepsRows(rows, ops[..|ops| - 1]);
      ApplyKeepsRows(Run(rows, ops[..|ops| - 1]), ops[|ops| - 1]);
      hide Apply, RowsOk;
    }
  }

  /** A digest clash between different requests is detected: the stored command is left alone. */
  lemma ClashIsDetected(rows: seq<Row>, o: Order, digest: string -> string, k: nat)
    requires RowsOk(rows) && k < |rows| && rows[k].id == CommandId(o, digest)
    requires rows[k].decision != o.decision || rows[k].instance != o.instance || rows[k].account != o.account
    ensures CreateOpen(rows, o, digest) == (rows, Collision)
  {
    var r := ById(rows, rows[k].id);
    var j :| 0 <= j < |rows| && rows[j] == r;
    assert j == k;
  }
}
