/**
 * The signal stream of one connection: a loop that pages through the tenant's log from a
 * cursor and sends record by record until the authorization ends or the connection does.
 */
module SignalStream {
  import Log = EventLog
  import opened Replay
  import opened Signals
  import Theorems = EventLogTheorems
  import Tickets = StreamTickets

  /** The result of the race between sending, the end of the authorization and the send timeout. */
  datatype Race = Delivered | SendFailed | AuthorizationEnds | TimesOut

  /** What the surroundings do for one record: the clock reading before it is serialized, and how the send goes. */
  datatype Attempt = Attempt(now: nat, serializes: bool, race: Race)

  datatype Permit = Acquired | CapacityClosed | ExpiredWaiting

  /** What the surroundings do for one page: clock, permit, the log as the query sees it, and the sends. */
  datatype Round = Round(
    now: nat,
    permit: Permit,
    queryFails: bool,
    log: seq<Row>,
    attempts: seq<Attempt>,
    wakes: bool
  )

  predicate Goes(attempt: Attempt, authorizedUntil: nat) {
    attempt.now < authorizedUntil && attempt.serializes && attempt.race == Delivered
  }

  /** Nothing in this round ends the stream. */
  ghost predicate Undisturbed(round: Round, authorizedUntil: nat) {
    && round.now < authorizedUntil && round.permit == Acquired && !round.queryFails && round.wakes
    && forall i :: 0 <= i < |round.attempts| ==> Goes(round.attempts[i], authorizedUntil)
  }

  /** No round ends the stream, and from round `quiet` on the log stays as it is for long enough to be read. */
  ghost predicate Settles(rounds: seq<Round>, authorizedUntil: nat, quiet: nat, log: seq<Row>, start: nat) {
    && (forall i :: 0 <= i < |rounds| ==> Undisturbed(rounds[i], authorizedUntil))
    && (forall i :: quiet <= i < |rounds| ==> rounds[i].log == log)
    && quiet + |After(log, start)| <= |rounds|
  }

  /** A send that was started, with the clock reading, taken before serialization, that allowed it. */
  datatype Send = Send(row: Row, now: nat)

  function Rows(sends: seq<Send>): (rows: seq<Row>)
    ensures |rows| == |sends|
  {
    seq(|sends|, i requires 0 <= i < |sends| => sends[i].row)
  }

  /** `rows` are all that the log holds past `start` up to `cursor`. */
  ghost predicate Follows(log: seq<Row>, start: nat, rows: seq<Row>, cursor: nat) {
    && After(log, start) == rows + After(log, cursor)
    && cursor == NextCursor(rows, start) && forall i :: 0 <= i < |rows| ==> rows[i] in log && rows[i].cursor > start
  }

  lemma {:induction false} FollowsWindow(log: seq<Row>, start: nat, rows: seq<Row>, cursor: nat)
    requires Sorted(log) && Follows(log, start, rows, cursor)
    ensures rows == Window(log, start, cursor)
  {
    WindowThenAfter(log, start, cursor);
    var window, rest := Window(log, start, cursor), After(log, cursor);
    assert rows + rest == window + rest;
    assert |rows| == |window|;
    assert rows == (rows + rest)[..|rows|] == (window + rest)[..|window|] == window;
  }

  /** The next record to send is the next one of the log. */
  lemma {:induction false} FollowsSend(log: seq<Row>, start: nat, rows: seq<Row>, cursor: nat, page: seq<Row>)
    requires Sorted(log) && Follows(log, start, rows, cursor) && page != [] && page <= After(log, cursor)
    ensures Follows(log, start, rows + [page[0]], page[0].cursor)
    ensures page[1..] <= After(log, page[0].cursor)
  {
    var later, row := After(log, cursor), page[0];
    assert row == later[0];
    HeadOfAfter(log, cursor);
    PrefixTail(page, later);
    assert rows + later == rows + [row] + later[1..];
    forall i | 0 <= i < |rows + [row]| ensures (rows + [row])[i] in log && (rows + [row])[i].cursor > start {
      if i < |rows| {
        assert (rows + [row])[i] == rows[i];
      }
    }
  }

  lemma {:induction false} RowsSnoc(sends: seq<Send>, last: Send)
    ensures Rows(sends + [last]) == Rows(sends) + [last.row]
  {}

  lemma {:induction false} SendStep(
    log: seq<Row>, start: nat, sends: seq<Send>, cursor: nat, records: seq<Row>, i: nat, now: nat)
    requires Sorted(log) && Follows(log, start, Rows(sends), cursor)
    requires i < |records| && records[i..] <= After(log, cursor)
    ensures Follows(log, start, Rows(sends + [Send(records[i], now)]), records[i].cursor)
    ensures records[i + 1..] <= After(log, records[i].cursor)
  {
    FollowsSend(log, start, Rows(sends), cursor, records[i..]);
    RowsSnoc(sends, Send(records[i], now));
    assert records[i..][1..] == records[i + 1..];
  }

  /** Commits between two pages only add records past the cursor. */
  lemma {:induction false} FollowsGrowth(log: seq<Row>, log': seq<Row>, start: nat, rows: seq<Row>, cursor: nat)
    requires Sorted(log) && Sorted(log') && log <= log' && Follows(log, start, rows, cursor)
    ensures Follows(log', start, rows, cursor)
  {
    if rows != [] {
      FollowsWindow(log, start, rows, cursor);
      var i :| 0 <= i < |log| && log[i] == rows[|rows| - 1];
      Theorems.WindowKeptByGrowth(log, log', start, cursor);
      WindowThenAfter(log', start, cursor);
    }
  }

  /** The log that the tenant has after the first `moment` events of a run of the store. */
  function LogAt(events: seq<Log.Event>, moment: nat, tenant: TenantId): seq<Row>
    requires moment <= |events|
  {
    Log.LogOf(Log.Run(Log.INIT, events[..moment]), tenant)
  }

  /**
   * The queries of the rounds happen at later and later moments of one run of the store, in
   * which appends, enrolments and other readers go on as they like.
   */
  ghost predicate During(events: seq<Log.Event>, tenant: TenantId, moments: seq<nat>, rounds: seq<Round>) {
    && |moments| == |rounds|
    && (forall i :: 0 <= i < |moments| ==> moments[i] <= |events| && rounds[i].log == LogAt(events, moments[i], tenant))
    && forall i, j :: 0 <= i < j < |moments| ==> moments[i] <= moments[j]
  }

  /** What follows the log at one moment of a run follows it at every later one. */
  lemma {:induction false} FollowsRun(
    events: seq<Log.Event>, tenant: TenantId, m: nat, m': nat, start: nat, rows: seq<Row>, cursor: nat)
    requires m <= m' <= |events| && Follows(LogAt(events, m, tenant), start, rows, cursor)
    ensures Sorted(LogAt(events, m', tenant)) && Follows(LogAt(events, m', tenant), start, rows, cursor)
  {
    Theorems.LogAtMoments(events, m, m', tenant);
    Theorems.LogAtMoments(events, m', m', tenant);
    FollowsGrowth(LogAt(events, m, tenant), LogAt(events, m', tenant), start, rows, cursor);
  }

  lemma {:induction false} NothingYet(events: seq<Log.Event>, tenant: TenantId, start: nat)
    ensures Follows(LogAt(events, 0, tenant), start, [], start)
  {
    assert events[..0] == [];
  }

  lemma {:induction false} LaterIsShorter(log: seq<Row>, after: nat)
    ensures |After(log, after)| <= |log|
    decreases |log|
  {
    if log != [] {
      LaterIsShorter(log[..|log| - 1], after);
    }
  }

  class StreamSession {
    const authorizedUntil: nat
    const start: nat
    var cursor: nat
    var sends: seq<Send>

    constructor (authorizedUntil: nat, after: nat)
      ensures this.authorizedUntil == authorizedUntil && start == after && cursor == after && sends == []
    {
      this.authorizedUntil, start, cursor, sends := authorizedUntil, after, after, [];
    }

    /** No reading at or after the end of the authorization allowed a send, and the sends follow the log. */
    ghost predicate Valid(log: seq<Row>)
      reads this
    {
      && (forall i :: 0 <= i < |sends| ==> sends[i].now < authorizedUntil)
      && Follows(log, start, Rows(sends), cursor)
    }

    /** Sends one record of a page, unless the authorization has ended or the record does not serialize. */
    method SendRecord(records: seq<Row>, i: nat, attempt: Attempt, ghost log: seq<Row>) returns (open: bool)
      requires Sorted(log) && Valid(log) && i < |records| && records[i..] <= After(log, cursor)
      modifies this
      ensures Valid(log) && (open <==> Goes(attempt, authorizedUntil))
      ensures if attempt.now < authorizedUntil && attempt.serializes
        then && sends == old(sends) + [Send(records[i], attempt.now)] && cursor == records[i].cursor
             && records[i + 1..] <= After(log, cursor)
        else sends == old(sends) && cursor == old(cursor)
    {
      if attempt.now >= authorizedUntil {
        return false;
      }
      if !attempt.serializes {
        return false;
      }
      SendStep(log, start, sends, cursor, records, i, attempt.now);
      cursor := records[i].cursor;
      sends := sends + [Send(records[i], attempt.now)];
      return attempt.race == Delivered;
    }

    /** Sends the records of a page; stays open exactly if all of them were delivered. */
    method SendRecords(records: seq<Row>, attempts: seq<Attempt>, ghost log: seq<Row>)
      returns (open: bool, ghost sent: nat)
      requires Sorted(log) && Valid(log) && records <= After(log, cursor) && |records| <= |attempts|
      modifies this
      ensures Valid(log) && sent <= |records| && Rows(sends) == Rows(old(sends)) + records[..sent]
      ensures open <==> forall i :: 0 <= i < |records| ==> Goes(attempts[i], authorizedUntil)
      ensures (open ==> sent == |records|) && (sent == 0 ==> cursor == old(cursor))
    {
      sent := 0;
      for i := 0 to |records|
        invariant Valid(log) && Rows(sends) == Rows(old(sends)) + records[..i] && sent == i
        invariant records[i..] <= After(log, cursor)
        invariant forall k :: 0 <= k < i ==> Goes(attempts[k], authorizedUntil)
        invariant i == 0 ==> cursor == old(cursor)
      {
        RowsSnoc(sends, Send(records[i], attempts[i].now));
        ghost var before := sends;
        open := SendRecord(records, i, attempts[i], log);
        sent := if sends == before then i else i + 1;
        assert records[..i + 1] == records[..i] + [records[i]];
        if !open {
          return;
        }
      }
      return true, sent;
    }

    /** Loads one page from the log as the query sees it and sends it. */
    method StreamPage(round: Round, batchRows: nat, batchBytes: nat) returns (open: bool)
      requires Sorted(round.log) && Valid(round.log) && |round.attempts| >= |round.log|
      modifies this
      ensures Valid(round.log) && |old(sends)| <= |sends|
      ensures Undisturbed(round, authorizedUntil) ==> open
      ensures batchRows >= 1 && open ==> After(round.log, old(cursor)) == [] || |old(sends)| < |sends|
      ensures After(round.log, old(cursor)) == [] ==> cursor == old(cursor)
    {
      var records := Load(round.log, cursor, batchRows, batchBytes);
      LoadIsPage(round.log, cursor, batchRows, batchBytes);
      PageThenRest(round.log, cursor, batchRows, batchBytes);
      LaterIsShorter(round.log, cursor);
      ghost var sent: nat;
      open, sent := SendRecords(records, round.attempts, round.log);
      return open && (records != [] || round.wakes);
    }

    /**
     * Runs the loop for as long as the surroundings keep it going, beside any run of the store.
     * The sends are exactly the records that the store has committed past the start up to the
     * cursor, in order and once each, and each was allowed by a reading before the authorization
     * ended. A stream that is not disturbed sends every record once the log stays as it is.
     */
    method StreamSignals(
      rounds: seq<Round>, batchRows: nat, batchBytes: nat,
      ghost events: seq<Log.Event>, ghost tenant: TenantId, ghost moments: seq<nat>, ghost quiet: nat)
      requires sends == [] && cursor == start && During(events, tenant, moments, rounds)
      requires forall i :: 0 <= i < |rounds| ==> |rounds[i].attempts| >= |rounds[i].log|
      modifies this
      ensures forall i :: 0 <= i < |sends| ==> sends[i].now < authorizedUntil
      ensures Rows(sends) == Window(LogAt(events, |events|, tenant), start, cursor)
      ensures batchRows >= 1 && Settles(rounds, authorizedUntil, quiet, LogAt(events, |events|, tenant), start) ==>
        Rows(sends) == After(LogAt(events, |events|, tenant), start)
    {
      ghost var moment: nat, log := 0, LogAt(events, |events|, tenant);
      ghost var settles := batchRows >= 1 && Settles(rounds, authorizedUntil, quiet, log, start);
      NothingYet(events, tenant, start);
      for i := 0 to |rounds|
        invariant moment <= |events| && (i < |rounds| ==> moment <= moments[i])
        invariant Valid(LogAt(events, moment, tenant))
        invariant settles && i > quiet ==> i - quiet <= |sends| || After(log, cursor) == []
      {
        var round := rounds[i];
        if round.now >= authorizedUntil || round.permit != Acquired || round.queryFails {
          assert !Undisturbed(round, authorizedUntil);
          break;
        }
        FollowsRun(events, tenant, moment, moments[i], start, Rows(sends), cursor);
        moment := moments[i];
        var open := StreamPage(round, batchRows, batchBytes);
        if !open {
          break;
        }
      }
      FollowsRun(events, tenant, moment, |events|, start, Rows(sends), cursor);
      FollowsWindow(log, start, Rows(sends), cursor);
    }
  }

  /** What becomes of a request for a stream. */
  datatype Opening =
    | Opened(session: StreamSession)
    | Rejected
    | Unavailable
    | Refused(error: Tickets.TicketError)
    | Pending

  /**
   * Exchanges a ticket for a stream, if one of the server's stream slots is free. A stream opens
   * exactly for a redeemable ticket of an enabled tenant whose authorization the server's own
   * clock has not passed, and carries that authorization; the ticket is used up even if the
   * stream then does not open. While another transaction has the ticket's row the request waits.
   */
  method OpenStream(
    store: Tickets.TicketStore, freeSlots: nat, txn: nat, tenant: TenantId, id: Tickets.Id, after: nat, unixNow: nat)
    returns (r: Opening)
    requires Tickets.Inv(store.state) && txn !in store.state.txns
    modifies store
    ensures Tickets.Inv(store.state)
    ensures r.Unavailable? <==> freeSlots == 0
    ensures r.Refused? <==> freeSlots > 0 && !Tickets.Enabled(old(store.state), tenant)
    ensures r.Refused? ==> Tickets.TenantError(old(store.state), tenant) == Some(r.error)
    ensures r.Pending? <==>
      freeSlots > 0 && Tickets.Enabled(old(store.state), tenant) && Tickets.HeldByOther(old(store.state), txn, id)
    ensures r.Unavailable? || r.Refused? ==> store.state == old(store.state)
    ensures var tickets := old(store.state.tickets);
      r.Opened? || r.Rejected? ==>
        (r.Opened? <==> && id in tickets && Tickets.Redeemable(tickets[id], tenant, old(store.state.now))
                        && unixNow < tickets[id].authorizedUntil / Tickets.MICROS_PER_SECOND)
    ensures r.Opened? ==>
      && fresh(r.session) && r.session.sends == [] && r.session.start == r.session.cursor == after
      && r.session.authorizedUntil == old(store.state.tickets)[id].authorizedUntil / Tickets.MICROS_PER_SECOND
    ensures (r.Opened? || r.Rejected?) && id in store.state.tickets ==>
      !Tickets.Redeemable(store.state.tickets[id], tenant, store.state.now)
  {
    if freeSlots == 0 {
      return Unavailable;
    }
    var exchange := store.ConsumeStreamTicket(txn, tenant, id);
    match exchange
    case ExchangeWaits => return Pending;
    case ExchangeRefused(error) => return Refused(error);
    case NotGranted => return Rejected;
    case Granted(grant) =>
      var authorizedUntil := grant.authorizedUntil / Tickets.MICROS_PER_SECOND;
      if authorizedUntil <= unixNow {
        return Rejected;
      }
      var session := new StreamSession(authorizedUntil, after);
      return Opened(session);
  }
}
