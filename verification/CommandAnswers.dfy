/** What each command request is answered and what it changes, without the order in which the views look:
    when a poll delivers, when an acknowledgement is recorded, when a request creates a row. */
module CommandAnswers {
  import opened Wrappers
  import opened Commands
  import opened CommandLifecycle

  // ----- Acknowledging -----

  ghost predicate AckReads(a: Ack) {
    a.id != "" && a.instance != "" && a.account != "" && Rank(a.state) >= 2
  }

  ghost predicate IsFor(r: Row, a: Ack) {
    r.id == a.id && r.instance == a.instance && r.account == a.account
  }

  /** Forwards only, and a command that was never delivered can only be refused or expire. */
  ghost predicate MovesOn(source: State, target: State) {
    Rank(source) < Rank(target) && (source == Pending ==> target in {Rejected, Expired})
  }

  lemma RanksAre(s: State)
    ensures s == Pending <==> Rank(s) == 0
    ensures s == Claimed <==> Rank(s) == 1
    ensures s == Received <==> Rank(s) == 2
    ensures s == Executing <==> Rank(s) == 3
    ensures Terminal(s) <==> Rank(s) == 4
    ensures Acknowledgeable(s) <==> Rank(s) >= 2
  {
  }

  /** An acknowledgement that does not read, or for a row that is not there, is refused. */
  lemma AckRefusedExactly(rows: seq<Row>, a: Ack, now: int)
    ensures var (after, reply) := Acknowledged(rows, a, now);
            && (reply == AckBadRequest <==> !AckReads(a))
            && (reply == NotFound <==> AckReads(a) && forall i | 0 <= i < |rows| :: !IsFor(rows[i], a))
            && (reply in {AckBadRequest, NotFound} ==> after == rows)
  {
    RanksAre(a.state);
    FindExact(rows, a);
    hide Find, Rank;
  }

  /** One that reads and names row k is recorded exactly when it moves that row on, and then it changes
      that row alone; otherwise nothing changes, and the answer says why. */
  lemma AckExactly(rows: seq<Row>, a: Ack, now: int, k: nat)
    requires RowsOk(rows) && AckReads(a) && k < |rows| && IsFor(rows[k], a)
    ensures var (after, reply) := Acknowledged(rows, a, now);
            var r := rows[k];
            && (reply == Recorded <==> MovesOn(r.state, a.state))
            && (reply == Duplicate <==> Rank(r.state) == 4 && r.state == a.state && r.result == a.result)
            && (reply == AlreadyTerminal <==> Rank(r.state) == 4 && !(r.state == a.state && r.result == a.result))
            && (reply == InvalidTransition <==> Rank(r.state) < 4 && !MovesOn(r.state, a.state))
            && after == (if reply != Recorded then rows
                         else rows[k := r.(state := a.state, result := a.result,
                                           completedAt := if Rank(a.state) == 4 then Some(now) else None)])
  {
    RanksAre(a.state);
    RanksAre(rows[k].state);
    FindExact(rows, a);
    hide Find, Rank;
    var j := Find(rows, a).value;
    assert j == k;
    assert RowOk(rows[k]);
    hide RowsOk;
  }

  // ----- Polling -----

  /** The account was seen a moment ago, ready to trade, on a demo account of a known server. */
  ghost predicate Live(p: Poll) {
    && p.heartbeat.Some?
    && var h := p.heartbeat.value;
       && 0 <= p.now - h.lastSeen <= p.maxAge && h.account == p.account
       && h.server != "" && h.payloadServer == h.server
       && h.ready && h.tradeAllowed && h.tradeMode == Some(0)
  }

  /** A pending, authorized, unexpired command for the symbol the instance trades. */
  ghost predicate Waits(r: Row, p: Poll)
    requires p.heartbeat.Some?
  {
    && r.instance == p.instance && r.account == p.account && r.symbol == p.heartbeat.value.symbol
    && r.state == Pending && r.authorized && p.now < r.expiresAt
  }

  /** The first row among the oldest that wait. */
  ghost predicate NextInLine(rows: seq<Row>, p: Poll, k: nat)
    requires p.heartbeat.Some?
  {
    && k < |rows| && Waits(rows[k], p)
    && (forall i | 0 <= i < |rows| && Waits(rows[i], p) :: rows[k].createdAt <= rows[i].createdAt)
    && (forall i | 0 <= i < k && Waits(rows[i], p) :: rows[k].createdAt < rows[i].createdAt)
  }

  ghost function Refusals(p: Poll): seq<(bool, Refusal)> {
    if p.heartbeat.None? then [(true, HeartbeatMissing)]
    else
      var h := p.heartbeat.value;
      [ (p.now < h.lastSeen || p.now - h.lastSeen > p.maxAge, HeartbeatStale),
        (h.account != p.account, AccountLoginMismatch),
        (h.server == "" || h.payloadServer != h.server, AccountServerMismatch),
        (!h.ready, TerminalNotReady),
        (!h.tradeAllowed, TerminalTradingDisabled),
        (h.tradeMode != Some(0), DemoAccountRequired) ]
  }

  lemma RefusedExactly(p: Poll)
    ensures Authorization(p).None? <==> Live(p)
    ensures Authorization(p).Some? ==> FirstCase(Refusals(p), Authorization(p).value)
  {
    if Authorization(p).Some? {
      var k := if p.heartbeat.None? then 0
               else match Authorization(p).value
                    case HeartbeatStale => 0
                    case AccountLoginMismatch => 1
                    case AccountServerMismatch => 2
                    case TerminalNotReady => 3
                    case TerminalTradingDisabled => 4
                    case _ => 5;
      IsFirstCase(Refusals(p), k);
    }
  }

  lemma {:induction false} OldestIsNext(rows: seq<Row>, p: Poll)
    requires p.heartbeat.Some?
    ensures match Oldest(rows, p, p.heartbeat.value.symbol)
            case None => forall i | 0 <= i < |rows| :: !Waits(rows[i], p)
            case Some(k) => NextInLine(rows, p, k)
  {
    if rows != [] {
      OldestIsNext(rows[..|rows| - 1], p);
      assert forall r :: Eligible(r, p, p.heartbeat.value.symbol) <==> Waits(r, p);
      hide Eligible, Waits;
    }
  }

  /** A well-formed poll of an enabled server delivers, or refuses for its server, exactly the next
      command in line on a live account; nothing is delivered exactly when none waits. */
  lemma PollAnswers(rows: seq<Row>, p: Poll)
    requires 0 < |p.instance| <= 128 && 0 < |p.account| <= 32 && p.enabled
    ensures var (after, reply) := Next(rows, p);
            if !Live(p) then
              reply.NotAuthorized? && FirstCase(Refusals(p), reply.reason) && after == ExpireRows(rows, p)
            else if forall i | 0 <= i < |rows| :: !Waits(rows[i], p) then
              reply == NoCommand && after == ExpireRows(rows, p)
            else
              exists k: nat :: NextInLine(rows, p, k) && AnswersWith(rows, p, k, after, reply)
  {
    RefusedExactly(p);
    if Live(p) {
      var expired := ExpireRows(rows, p);
      OldestIsNext(expired, p);
      assert forall i | 0 <= i < |rows| :: Waits(expired[i], p) == Waits(rows[i], p);
      assert forall i | 0 <= i < |rows| && Waits(rows[i], p) :: expired[i] == rows[i];
      hide Oldest, Authorization, Live, Waits;
      var found := Oldest(expired, p, p.heartbeat.value.symbol);
      if found.Some? {
        assert NextInLine(rows, p, found.value);
        assert AnswersWith(rows, p, found.value, Next(rows, p).0, Next(rows, p).1);
      }
    }
  }

  /** The command is claimed and delivered to the server it is bound to, and rejected on any other. */
  ghost predicate AnswersWith(rows: seq<Row>, p: Poll, k: nat, after: seq<Row>, reply: Reply)
    requires p.heartbeat.Some? && k < |rows|
  {
    var r, expired := rows[k], ExpireRows(rows, p);
    if r.server != "" && r.server == p.heartbeat.value.server then
      var claimed := r.(state := Claimed, claimedAt := Some(p.now));
      after == expired[k := claimed] && reply == Deliver(claimed)
    else
      && reply == NotAuthorized(CommandServerMismatch)
      && after == expired[k := r.(state := Rejected, result := "COMMAND_SERVER_MISMATCH", completedAt := Some(p.now))]
  }

  // ----- Creating -----

  ghost predicate SameRequest(r: Row, o: Order) {
    r.decision == o.decision && r.instance == o.instance && r.account == o.account && r.symbol == o.symbol
  }

  /** A request creates a row exactly when its id is free; the row is pending, authorized, bound to the
      order's server, and expires after 60 seconds. Otherwise nothing changes, and the row with that id
      is returned if it answers the same request, else a collision is reported. */
  lemma CreatedExactly(rows: seq<Row>, o: Order, digest: string -> string)
    requires RowsOk(rows)
    ensures var (after, c) := CreateOpen(rows, o, digest);
            var id := "ramon-open-" + digest(o.decision + "|" + o.instance + "|" + o.account);
            && (c.Created? <==> forall i | 0 <= i < |rows| :: rows[i].id != id)
            && (c.Created? ==>
                  && after == rows + [c.row] && c.row.id == id && SameRequest(c.row, o) && c.row.server == o.server
                  && c.row.action == Open && c.row.state == Pending && c.row.authorized
                  && c.row.createdAt == o.now && c.row.expiresAt == o.now + 60
                  && c.row.claimedAt == c.row.completedAt == None && c.row.result == "")
            && (!c.Created? ==> after == rows)
            && forall k | 0 <= k < |rows| && rows[k].id == id ::
                 c == if SameRequest(rows[k], o) then AlreadyExists(rows[k]) else Collision
  {
    var id := CommandId(o, digest);
    if HasId(rows, id) {
      var r := ById(rows, id);
      var j :| 0 <= j < |rows| && rows[j] == r;
      assert forall k | 0 <= k < |rows| && rows[k].id == id :: k == j;
    }
    hide RowOk, ById;
  }
}
