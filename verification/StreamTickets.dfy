/**
 * Single-use stream tickets. Transactions that create, consume and clean up tickets interleave
 * statement by statement; each statement keeps the time at which it started, waits for rows
 * that another transaction has changed, and then takes effect. Times are in microseconds.
 */
module StreamTickets {
  import opened Numbers
  import opened Signals
  import opened Text

  const MICROS_PER_SECOND: nat := 1_000_000
  const MICROS_PER_MILLI: nat := 1_000
  const NANOS_PER_MILLI: nat := 1_000_000
  const MAX_STREAM_TICKET_TTL_NANOS: nat := 300_000_000_000
  const MAX_STREAM_TICKET_SUBJECT_BYTES: nat := 1_024
  const MAX_STREAM_TICKET_AUTHORIZATION_UNIX: nat := 253_402_300_799

  type Id = nat

  datatype Ticket = Ticket(
    tenant: TenantId,
    subject: string,
    authorizedUntil: nat,
    expiresAt: nat,
    consumedAt: Option<nat>
  )

  /** A row that a transaction has inserted and not yet committed. */
  datatype Fresh = Fresh(id: Id, ticket: Ticket)

  /** An open transaction; `at` is the time of its statement. */
  datatype Work =
    | Consume(tenant: TenantId, id: Id, at: nat, locked: bool)
    | Cleanup(tenant: TenantId, at: nat, rows: Option<set<Id>>, added: Option<Fresh>)

  /** What was asked for when a ticket was created. */
  datatype Issue = Issue(tenant: TenantId, subject: string, at: nat, ttl: nat, authorizedUntil: nat)

  datatype Grant = Grant(id: Id, tenant: TenantId, at: nat, subject: string, authorizedUntil: nat)

  datatype State = State(
    now: nat,
    tickets: map<Id, Ticket>,
    txns: map<nat, Work>,
    issued: map<Id, Issue>,
    grants: seq<Grant>,
    tenants: map<TenantId, bool>
  )

  const INIT := State(0, map[], map[], map[], [], map[])

  datatype Event =
    | Tick(elapsed: nat)
    | SetTenant(tenant: TenantId, enabled: bool)
    | BeginConsume(txn: nat, tenant: TenantId, id: Id)
    | LockTicket(txn: nat)
    | BeginCleanup(txn: nat, tenant: TenantId)
    | DeleteStale(txn: nat)
    | Insert(txn: nat, id: Id, subject: string, authorizedUnix: nat, ttlNanos: nat)
    | Commit(txn: nat)
    | Abort(txn: nat)

  /** The earlier of creation plus time to live and the end of the authorization. */
  function Deadline(i: Issue): nat {
    Min(i.at + i.ttl, i.authorizedUntil)
  }

  function TicketFor(i: Issue): Ticket {
    Ticket(i.tenant, i.subject, i.authorizedUntil, Deadline(i), None)
  }

  /** The `WHERE` clause of the exchange. */
  predicate Redeemable(t: Ticket, tenant: TenantId, at: nat) {
    t.tenant == tenant && t.consumedAt.None? && t.expiresAt > at
  }

  /** The `WHERE` clause of the cleanup. */
  predicate Stale(t: Ticket, tenant: TenantId, at: nat) {
    t.tenant == tenant && (t.consumedAt.Some? || t.expiresAt <= at)
  }

  function Locks(w: Work): set<Id> {
    match w
    case Consume(_, id, _, locked) => if locked then {id} else {}
    case Cleanup(_, _, rows, _) => if rows.Some? then rows.value else {}
  }

  /** Another transaction has changed this row. */
  predicate HeldByOther(s: State, txn: nat, id: Id) {
    exists x :: x in s.txns && x != txn && id in Locks(s.txns[x])
  }

  predicate Enabled(s: State, tenant: TenantId) {
    tenant in s.tenants && s.tenants[tenant]
  }

  /** Every open transaction shares a lock on its tenant's row, so that the tenant does not change meanwhile. */
  function StepSetTenant(s: State, tenant: TenantId, enabled: bool): State {
    if exists x :: x in s.txns && s.txns[x].tenant == tenant then s
    else s.(tenants := s.tenants[tenant := enabled])
  }

  predicate ValidSubject(subject: string) {
    subject != [] && Utf8Length(subject) <= MAX_STREAM_TICKET_SUBJECT_BYTES
  }

  predicate ValidTtl(nanos: nat) {
    nanos <= MAX_STREAM_TICKET_TTL_NANOS && nanos / NANOS_PER_MILLI > 0
  }

  predicate ValidRequest(authorizedUnix: nat, ttlNanos: nat) {
    authorizedUnix <= MAX_STREAM_TICKET_AUTHORIZATION_UNIX && ValidTtl(ttlNanos)
  }

  function Put(s: State, x: nat, w: Work): State {
    s.(txns := s.txns[x := w])
  }

  function Drop(s: State, x: nat): State {
    s.(txns := s.txns - {x})
  }

  function StepLockTicket(s: State, x: nat): State {
    if x !in s.txns || !s.txns[x].Consume? || s.txns[x].locked || HeldByOther(s, x, s.txns[x].id) then s
    else
      var w := s.txns[x];
      if w.id in s.tickets && Redeemable(s.tickets[w.id], w.tenant, w.at) then Put(s, x, w.(locked := true))
      else Drop(s, x)
  }

  function StaleRows(tickets: map<Id, Ticket>, tenant: TenantId, at: nat): set<Id> {
    set id | id in tickets && Stale(tickets[id], tenant, at)
  }

  function StepDeleteStale(s: State, x: nat): State {
    if x !in s.txns || !s.txns[x].Cleanup? || s.txns[x].rows.Some? then s
    else
      var w := s.txns[x];
      var stale := StaleRows(s.tickets, w.tenant, w.at);
      if exists id :: id in stale && HeldByOther(s, x, id) then s else Put(s, x, w.(rows := Some(stale)))
  }

  /** The ticket identifier is freshly drawn. An authorization that has ended aborts the transaction. */
  function StepInsert(s: State, x: nat, id: Id, subject: string, authorizedUnix: nat, ttlNanos: nat): State {
    if x !in s.txns || !s.txns[x].Cleanup? || s.txns[x].rows.None? || s.txns[x].added.Some? then s
    else if id in s.issued || !ValidSubject(subject) || !ValidRequest(authorizedUnix, ttlNanos) then s
    else if authorizedUnix * MICROS_PER_SECOND <= s.now then Drop(s, x)
    else
      var w := s.txns[x];
      var issue := Issue(w.tenant, subject, s.now, ttlNanos / NANOS_PER_MILLI * MICROS_PER_MILLI,
                         authorizedUnix * MICROS_PER_SECOND);
      Put(s, x, w.(added := Some(Fresh(id, TicketFor(issue))))).(issued := s.issued[id := issue])
  }

  function AddFresh(tickets: map<Id, Ticket>, added: Option<Fresh>): map<Id, Ticket> {
    if added.Some? then tickets[added.value.id := added.value.ticket] else tickets
  }

  function CommitWork(s: State, w: Work): State {
    match w
    case Consume(tenant, id, at, locked) =>
      if !locked || id !in s.tickets then s
      else
        var t := s.tickets[id];
        s.(tickets := s.tickets[id := t.(consumedAt := Some(at))],
           grants := s.grants + [Grant(id, tenant, at, t.subject, t.authorizedUntil)])
    case Cleanup(_, _, rows, added) =>
      if rows.None? then s else s.(tickets := AddFresh(s.tickets - rows.value, added))
  }

  /** A transaction begins with the check that its tenant is enabled. */
  function StepBegin(s: State, x: nat, w: Work): State {
    if x in s.txns || !Enabled(s, w.tenant) then s else Put(s, x, w)
  }

  function Step(s: State, e: Event): State {
    match e
    case Tick(elapsed) => s.(now := s.now + elapsed)
    case SetTenant(tenant, enabled) => StepSetTenant(s, tenant, enabled)
    case BeginConsume(x, tenant, id) => StepBegin(s, x, Consume(tenant, id, s.now, false))
    case LockTicket(x) => StepLockTicket(s, x)
    case BeginCleanup(x, tenant) => StepBegin(s, x, Cleanup(tenant, s.now, None, None))
    case DeleteStale(x) => StepDeleteStale(s, x)
    case Insert(x, id, subject, authorizedUnix, ttlNanos) => StepInsert(s, x, id, subject, authorizedUnix, ttlNanos)
    case Commit(x) => if x !in s.txns then s else CommitWork(Drop(s, x), s.txns[x])
    case Abort(x) => Drop(s, x)
  }

  function Run(s: State, events: seq<Event>): State {
    if events == [] then s else Step(Run(s, events[..|events| - 1]), events[|events| - 1])
  }

  // ---------------------------------------------------------------------------
  // The invariant
  // ---------------------------------------------------------------------------

  /** A stored ticket is as it was issued, apart from its consumption before the deadline. */
  predicate TicketOk(issued: map<Id, Issue>, id: Id, t: Ticket) {
    && id in issued && t.(consumedAt := None) == TicketFor(issued[id])
    && (t.consumedAt.Some? ==> t.consumedAt.value < Deadline(issued[id]))
  }

  ghost predicate TicketsOk(s: State) {
    forall id :: id in s.tickets ==> TicketOk(s.issued, id, s.tickets[id])
  }

  predicate FreshOk(s: State, f: Fresh) {
    && f.id in s.issued && f.id !in s.tickets && f.ticket == TicketFor(s.issued[f.id])
    && forall i :: 0 <= i < |s.grants| ==> s.grants[i].id != f.id
  }

  /** What a transaction saw when it locked its rows still holds. */
  predicate WorkOk(s: State, w: Work) {
    && w.at <= s.now && Enabled(s, w.tenant)
    && match w
       case Consume(tenant, id, at, locked) => locked ==> id in s.tickets && Redeemable(s.tickets[id], tenant, at)
       case Cleanup(tenant, at, rows, added) =>
         && (rows.Some? ==> forall id :: id in rows.value ==> id in s.tickets && Stale(s.tickets[id], tenant, at))
         && (added.Some? ==> FreshOk(s, added.value))
  }

  ghost predicate WorksOk(s: State) {
    forall x :: x in s.txns ==> WorkOk(s, s.txns[x])
  }

  predicate Apart(a: Work, b: Work) {
    && Locks(a) !! Locks(b)
    && (a.Cleanup? && a.added.Some? && b.Cleanup? && b.added.Some? ==> a.added.value.id != b.added.value.id)
  }

  ghost predicate Exclusive(s: State) {
    forall x, y :: x in s.txns && y in s.txns && x != y ==> Apart(s.txns[x], s.txns[y])
  }

  /** A grant went to the ticket's tenant, before its deadline, and the ticket is consumed or gone. */
  predicate GrantOk(s: State, g: Grant) {
    && g.id in s.issued && g.tenant == s.issued[g.id].tenant && g.at < Deadline(s.issued[g.id])
    && g.subject == s.issued[g.id].subject && g.authorizedUntil == s.issued[g.id].authorizedUntil
    && (g.id in s.tickets ==> s.tickets[g.id].consumedAt == Some(g.at))
  }

  predicate GrantsOk(s: State) {
    && (forall i :: 0 <= i < |s.grants| ==> GrantOk(s, s.grants[i]))
    && (forall i, j :: 0 <= i < j < |s.grants| ==> s.grants[i].id != s.grants[j].id)
  }

  ghost predicate Inv(s: State) {
    TicketsOk(s) && WorksOk(s) && Exclusive(s) && GrantsOk(s)
  }

  // ---------------------------------------------------------------------------
  // Every step keeps it
  // ---------------------------------------------------------------------------

  lemma {:induction false} PutKeeps(s: State, x: nat, w: Work)
    requires Inv(s) && WorkOk(s, w) && forall y :: y in s.txns && y != x ==> Apart(w, s.txns[y]) && Apart(s.txns[y], w)
    ensures Inv(Put(s, x, w))
  {
    var s' := Put(s, x, w);
    assert WorksOk(s') by {
      forall y | y in s'.txns ensures WorkOk(s', s'.txns[y]) {
        assert WorkOk(s, s'.txns[y]);
      }
    }
    assert GrantsOk(s') by {
      forall i | 0 <= i < |s'.grants| ensures GrantOk(s', s'.grants[i]) {
        assert GrantOk(s, s.grants[i]);
      }
    }
  }

  lemma {:induction false} DropKeeps(s: State, x: nat)
    requires Inv(s)
    ensures Inv(Drop(s, x))
  {
    var s' := Drop(s, x);
    assert WorksOk(s') by {
      forall y | y in s'.txns ensures WorkOk(s', s'.txns[y]) {
        assert WorkOk(s, s.txns[y]);
      }
    }
    assert GrantsOk(s') by {
      forall i | 0 <= i < |s'.grants| ensures GrantOk(s', s'.grants[i]) {
        assert GrantOk(s, s.grants[i]);
      }
    }
  }

  lemma {:induction false} LockTicketKeeps(s: State, x: nat)
    requires Inv(s)
    ensures Inv(StepLockTicket(s, x))
  {
    if StepLockTicket(s, x) != s {
      var w := s.txns[x];
      if w.id in s.tickets && Redeemable(s.tickets[w.id], w.tenant, w.at) {
        forall y | y in s.txns && y != x
          ensures Apart(w.(locked := true), s.txns[y]) && Apart(s.txns[y], w.(locked := true))
        {
          assert w.id !in Locks(s.txns[y]);
        }
        assert WorkOk(s, w);
        PutKeeps(s, x, w.(locked := true));
      } else {
        DropKeeps(s, x);
      }
    }
  }

  lemma {:induction false} DeleteStaleKeeps(s: State, x: nat)
    requires Inv(s)
    ensures Inv(StepDeleteStale(s, x))
  {
    if StepDeleteStale(s, x) != s {
      var w := s.txns[x];
      var stale := StaleRows(s.tickets, w.tenant, w.at);
      var w' := w.(rows := Some(stale));
      assert WorkOk(s, w);
      forall y | y in s.txns && y != x ensures Apart(w', s.txns[y]) && Apart(s.txns[y], w') {
        assert Apart(w, s.txns[y]) && Apart(s.txns[y], w);
        forall id | id in stale ensures id !in Locks(s.txns[y]) {
          assert !HeldByOther(s, x, id);
        }
      }
      PutKeeps(s, x, w');
    }
  }

  lemma {:induction false} IssueKeeps(s: State, id: Id, issue: Issue)
    requires Inv(s) && id !in s.issued
    ensures Inv(s.(issued := s.issued[id := issue])) && id !in s.tickets
  {
    var s' := s.(issued := s.issued[id := issue]);
    assert TicketsOk(s') by {
      forall k | k in s'.tickets ensures TicketOk(s'.issued, k, s'.tickets[k]) {
        assert TicketOk(s.issued, k, s.tickets[k]);
      }
    }
    assert WorksOk(s') by {
      forall y | y in s'.txns ensures WorkOk(s', s'.txns[y]) {
        assert WorkOk(s, s.txns[y]);
      }
    }
    assert GrantsOk(s') by {
      forall i | 0 <= i < |s'.grants| ensures GrantOk(s', s'.grants[i]) {
        assert GrantOk(s, s.grants[i]);
      }
    }
  }

  lemma {:induction false} InsertKeeps(s: State, x: nat, id: Id, subject: string, authorizedUnix: nat, ttlNanos: nat)
    requires Inv(s)
    ensures Inv(StepInsert(s, x, id, subject, authorizedUnix, ttlNanos))
  {
    var s' := StepInsert(s, x, id, subject, authorizedUnix, ttlNanos);
    if s' == Drop(s, x) {
      DropKeeps(s, x);
    } else if s' != s {
      var w := s.txns[x];
      assert WorkOk(s, w);
      IssueKeeps(s, id, s'.issued[id]);
      var mid := s.(issued := s'.issued);
      var w' := s'.txns[x];
      forall y | y in s.txns && y != x ensures Apart(w', s.txns[y]) && Apart(s.txns[y], w') {
        assert Apart(w, s.txns[y]) && Apart(s.txns[y], w) && WorkOk(s, s.txns[y]);
      }
      assert WorkOk(mid, w);
      assert FreshOk(mid, w'.added.value) by {
        forall i | 0 <= i < |s.grants| ensures s.grants[i].id != id {
          assert GrantOk(s, s.grants[i]);
        }
        assert id !in s.tickets;
      }
      PutKeeps(mid, x, w');
      assert s' == Put(mid, x, w');
    }
  }

  /** A transaction's rows are its own: committing it leaves what the others saw as it was. */
  lemma {:induction false} CommitLeavesOthers(s: State, w: Work, other: Work)
    requires WorkOk(s, w) && WorkOk(s, other) && Apart(w, other) && Apart(other, w)
    ensures WorkOk(CommitWork(s, w), other)
  {
    var s' := CommitWork(s, w);
    if other.Cleanup? && other.added.Some? {
      var f := other.added.value;
      assert FreshOk(s, f);
      forall i | 0 <= i < |s'.grants| ensures s'.grants[i].id != f.id {
        if i < |s.grants| {
          assert s'.grants[i] == s.grants[i];
        }
      }
    }
    if other.Cleanup? && other.rows.Some? {
      forall id | id in other.rows.value ensures id in s'.tickets && Stale(s'.tickets[id], other.tenant, other.at) {
        assert id in Locks(other) && id !in Locks(w);
        assert id in s.tickets && Stale(s.tickets[id], other.tenant, other.at);
      }
    }
    if other.Consume? && other.locked {
      assert other.id in Locks(other) && other.id !in Locks(w);
    }
  }

  lemma {:induction false} CommitConsumeKeeps(s: State, w: Work)
    requires TicketsOk(s) && GrantsOk(s) && WorkOk(s, w) && w.Consume? && w.locked
    ensures TicketsOk(CommitWork(s, w)) && GrantsOk(CommitWork(s, w))
  {
    var s' := CommitWork(s, w);
    assert TicketOk(s.issued, w.id, s.tickets[w.id]);
    forall k | k in s'.tickets ensures TicketOk(s'.issued, k, s'.tickets[k]) {
      assert TicketOk(s.issued, k, s.tickets[k]);
    }
    forall i | 0 <= i < |s'.grants| ensures GrantOk(s', s'.grants[i]) && (i < |s.grants| ==> s'.grants[i].id != w.id) {
      if i < |s.grants| {
        assert GrantOk(s, s.grants[i]);
      }
    }
  }

  lemma {:induction false} CommitCleanupKeeps(s: State, w: Work)
    requires TicketsOk(s) && GrantsOk(s) && WorkOk(s, w) && w.Cleanup? && w.rows.Some?
    ensures TicketsOk(CommitWork(s, w)) && GrantsOk(CommitWork(s, w))
  {
    var s' := CommitWork(s, w);
    forall k | k in s'.tickets ensures TicketOk(s'.issued, k, s'.tickets[k]) {
      if w.added.Some? && k == w.added.value.id {
        assert FreshOk(s, w.added.value);
      } else {
        assert TicketOk(s.issued, k, s.tickets[k]);
      }
    }
    forall i | 0 <= i < |s'.grants| ensures GrantOk(s', s'.grants[i]) {
      assert GrantOk(s, s.grants[i]);
      assert w.added.Some? ==> FreshOk(s, w.added.value);
    }
  }

  lemma {:induction false} CommitKeeps(s: State, x: nat)
    requires Inv(s) && x in s.txns
    ensures Inv(CommitWork(Drop(s, x), s.txns[x]))
  {
    var w, mid := s.txns[x], Drop(s, x);
    DropKeeps(s, x);
    assert WorkOk(s, w) && WorkOk(mid, w);
    var s' := CommitWork(mid, w);
    if s' != mid {
      if w.Consume? {
        CommitConsumeKeeps(mid, w);
      } else {
        CommitCleanupKeeps(mid, w);
      }
      forall y | y in s'.txns ensures WorkOk(s', s'.txns[y]) {
        assert y in s.txns && y != x;
        CommitLeavesOthers(mid, w, s.txns[y]);
      }
    }
  }

  lemma {:induction false} TickKeeps(s: State, elapsed: nat)
    requires Inv(s)
    ensures Inv(s.(now := s.now + elapsed))
  {
    var s' := s.(now := s.now + elapsed);
    forall y | y in s'.txns ensures WorkOk(s', s'.txns[y]) {
      assert WorkOk(s, s.txns[y]);
    }
    forall i | 0 <= i < |s'.grants| ensures GrantOk(s', s'.grants[i]) {
      assert GrantOk(s, s.grants[i]);
    }
  }

  lemma {:induction false} BeginKeeps(s: State, x: nat, w: Work)
    requires Inv(s) && w.at == s.now && (w.Consume? ==> !w.locked) && (w.Cleanup? ==> w.rows.None? && w.added.None?)
    ensures Inv(StepBegin(s, x, w))
  {
    if x !in s.txns && Enabled(s, w.tenant) {
      PutKeeps(s, x, w);
    }
  }

  lemma {:induction false} SetTenantKeeps(s: State, tenant: TenantId, enabled: bool)
    requires Inv(s)
    ensures Inv(StepSetTenant(s, tenant, enabled))
  {
    var s' := StepSetTenant(s, tenant, enabled);
    if s' != s {
      forall y | y in s'.txns ensures WorkOk(s', s'.txns[y]) {
        assert WorkOk(s, s.txns[y]) && s.txns[y].tenant != tenant;
      }
      forall i | 0 <= i < |s'.grants| ensures GrantOk(s', s'.grants[i]) {
        assert GrantOk(s, s.grants[i]);
      }
    }
  }

  lemma {:induction false} StepKeeps(s: State, e: Event)
    requires Inv(s)
    ensures Inv(Step(s, e))
  {
    match e
    case Tick(elapsed) => TickKeeps(s, elapsed);
    case SetTenant(tenant, enabled) => SetTenantKeeps(s, tenant, enabled);
    case BeginConsume(x, tenant, id) => BeginKeeps(s, x, Consume(tenant, id, s.now, false));
    case LockTicket(x) => LockTicketKeeps(s, x);
    case BeginCleanup(x, tenant) => BeginKeeps(s, x, Cleanup(tenant, s.now, None, None));
    case DeleteStale(x) => DeleteStaleKeeps(s, x);
    case Insert(x, id, subject, authorizedUnix, ttlNanos) => InsertKeeps(s, x, id, subject, authorizedUnix, ttlNanos);
    case Commit(x) =>
      if x in s.txns {
        CommitKeeps(s, x);
      }
    case Abort(x) => DropKeeps(s, x);
  }

  lemma {:induction false} RunKeeps(s: State, events: seq<Event>)
    requires Inv(s)
    ensures Inv(Run(s, events))
    decreases |events|
  {
    if events != [] {
      RunKeeps(s, events[..|events| - 1]);
      StepKeeps(Run(s, events[..|events| - 1]), events[|events| - 1]);
    }
  }

  // ---------------------------------------------------------------------------
  // What tickets guarantee
  // ---------------------------------------------------------------------------

  /**
   * In every run each ticket is granted at most once, only to its own tenant with the subject
   * and authorization it was created for, and strictly before both its time to live and the
   * authorization end.
   */
  lemma {:induction false} GrantedOnceInTime(events: seq<Event>)
    ensures var s := Run(INIT, events);
      && (forall i, j :: 0 <= i < j < |s.grants| ==> s.grants[i].id != s.grants[j].id)
      && forall i :: 0 <= i < |s.grants| ==>
           var g := s.grants[i];
           && g.id in s.issued
           && g.tenant == s.issued[g.id].tenant && g.subject == s.issued[g.id].subject
           && g.authorizedUntil == s.issued[g.id].authorizedUntil
           && g.at < s.issued[g.id].at + s.issued[g.id].ttl && g.at < s.issued[g.id].authorizedUntil
  {
    RunKeeps(INIT, events);
    var s := Run(INIT, events);
    forall i | 0 <= i < |s.grants|
      ensures var g := s.grants[i];
        && g.id in s.issued
        && g.tenant == s.issued[g.id].tenant && g.subject == s.issued[g.id].subject
        && g.authorizedUntil == s.issued[g.id].authorizedUntil
        && g.at < s.issued[g.id].at + s.issued[g.id].ttl && g.at < s.issued[g.id].authorizedUntil
    {
      assert GrantOk(s, s.grants[i]);
    }
  }

  /** A ticket is granted only while its tenant is enabled. */
  lemma {:induction false} GrantsNeedTheirTenant(s: State, e: Event)
    requires Inv(s) && Step(s, e).grants != s.grants
    ensures var grants := Step(s, e).grants;
      |grants| == |s.grants| + 1 && grants[..|s.grants|] == s.grants && Enabled(s, grants[|s.grants|].tenant)
  {
    assert WorkOk(s, s.txns[e.txn]);
  }

  predicate WasGranted(s: State, id: Id) {
    exists i :: 0 <= i < |s.grants| && s.grants[i].id == id
  }

  predicate Waiting(s: State, id: Id) {
    id in s.tickets && s.tickets[id].consumedAt.None?
  }

  lemma {:induction false} ClockOnlyAdvances(s: State, e: Event)
    ensures s.now <= Step(s, e).now
    ensures forall id :: id in s.issued ==> id in Step(s, e).issued && Step(s, e).issued[id] == s.issued[id]
  {}

  lemma {:induction false} GrantsGrow(s: State, e: Event, id: Id)
    requires WasGranted(s, id)
    ensures WasGranted(Step(s, e), id)
  {
    var i :| 0 <= i < |s.grants| && s.grants[i].id == id;
    assert Step(s, e).grants[i] == s.grants[i];
  }

  /** One step takes an unexpired ticket that waits only by granting it. */
  lemma {:induction false} WaitingStep(s: State, e: Event, id: Id)
    requires Inv(s) && Waiting(s, id) && s.now < s.tickets[id].expiresAt
    ensures Waiting(Step(s, e), id) || WasGranted(Step(s, e), id)
  {
    if e.Commit? && e.txn in s.txns {
      var w, s' := s.txns[e.txn], Step(s, e);
      assert WorkOk(s, w);
      if w.Consume? && w.locked && w.id == id {
        assert s'.grants[|s.grants|].id == id;
      }
      if w.Cleanup? && w.added.Some? {
        assert FreshOk(s, w.added.value);
      }
    }
  }

  /**
   * Cleanup never removes a ticket that can still be redeemed: until its deadline a ticket
   * that waits stays, through any run, unless it has been granted.
   */
  lemma {:induction false} TicketsSurvive(s: State, events: seq<Event>, id: Id)
    requires Inv(s) && Waiting(s, id) && Run(s, events).now < s.tickets[id].expiresAt
    ensures var s' := Run(s, events);
      WasGranted(s', id) || (Waiting(s', id) && s'.tickets[id].expiresAt == s.tickets[id].expiresAt)
    decreases |events|
  {
    if events != [] {
      var front, e := events[..|events| - 1], events[|events| - 1];
      var mid := Run(s, front);
      ClockOnlyAdvances(mid, e);
      TicketsSurvive(s, front, id);
      RunKeeps(s, front);
      if WasGranted(mid, id) {
        GrantsGrow(mid, e, id);
      } else {
        WaitingStep(mid, e, id);
        StepKeeps(mid, e);
        assert TicketOk(mid.issued, id, mid.tickets[id]);
        assert Waiting(Step(mid, e), id) ==> TicketOk(Step(mid, e).issued, id, Step(mid, e).tickets[id]);
      }
    }
  }

  // ---------------------------------------------------------------------------
  // The store's ticket calls, beside any other open transactions
  // ---------------------------------------------------------------------------

  datatype TicketError =
    | InvalidSubject
    | InvalidAuthorizationExpiry
    | InvalidTtl
    | TenantNotFound
    | TenantDisabled
    | AuthorizationExpired

  /** The first check of every transaction. */
  function TenantError(s: State, tenant: TenantId): (r: Option<TicketError>)
    ensures r.None? <==> Enabled(s, tenant)
  {
    if tenant !in s.tenants then Some(TenantNotFound)
    else if !s.tenants[tenant] then Some(TenantDisabled)
    else None
  }

  /** A call is answered, or waits for rows that another transaction has changed. */
  datatype Created = Issued | Refused(error: TicketError) | CreationWaits

  datatype Exchange = Granted(grant: Grant) | NotGranted | ExchangeRefused(error: TicketError) | ExchangeWaits

  datatype Cleaned = Removed(count: nat) | CleanupRefused(error: TicketError) | CleanupWaits

  /** The tickets that a cleanup for this tenant leaves. */
  function Kept(tickets: map<Id, Ticket>, tenant: TenantId, at: nat): map<Id, Ticket> {
    map id | id in tickets && !Stale(tickets[id], tenant, at) :: tickets[id]
  }

  lemma {:induction false} KeptIsRest(tickets: map<Id, Ticket>, tenant: TenantId, at: nat)
    ensures tickets - StaleRows(tickets, tenant, at) == Kept(tickets, tenant, at)
  {}

  lemma {:induction false} PutDrop(s: State, x: nat, w: Work)
    requires x !in s.txns
    ensures Drop(Put(s, x, w), x) == s
  {
    assert s.txns[x := w] - {x} == s.txns;
  }

  lemma {:induction false} PutAgain(s: State, x: nat, w: Work)
    ensures Drop(Put(s, x, w), x) == Drop(s, x)
  {
    assert s.txns[x := w] - {x} == s.txns - {x};
  }

  /** A cleanup or creation whose delete has not run yet. */
  predicate Undeleted(s: State, x: nat) {
    x in s.txns && s.txns[x].Cleanup? && s.txns[x].rows.None? && s.txns[x].added.None?
  }

  /** Its delete has to wait. */
  predicate DeleteWaits(s: State, x: nat)
    requires Undeleted(s, x)
  {
    exists id :: id in StaleRows(s.tickets, s.txns[x].tenant, s.txns[x].at) && HeldByOther(s, x, id)
  }

  /** The ticket that a creation asks for. */
  function NewTicket(tenant: TenantId, subject: string, authorizedUnix: nat, ttlNanos: nat, now: nat): Ticket {
    var ttl := ttlNanos / NANOS_PER_MILLI * MICROS_PER_MILLI;
    TicketFor(Issue(tenant, subject, now, ttl, authorizedUnix * MICROS_PER_SECOND))
  }

  /** From a delete that has run to the commit of the creation, or to its refusal. */
  lemma {:induction false} InsertsTicket(
    s: State, x: nat, id: Id, subject: string, authorizedUnix: nat, ttlNanos: nat)
    requires x in s.txns && s.txns[x].Cleanup? && s.txns[x].rows.Some? && s.txns[x].added.None?
    requires id !in s.issued && ValidSubject(subject) && ValidRequest(authorizedUnix, ttlNanos)
    ensures var inserted := Step(s, Insert(x, id, subject, authorizedUnix, ttlNanos));
      if authorizedUnix * MICROS_PER_SECOND <= s.now then inserted == Drop(s, x)
      else
        && x in inserted.txns
        && var done := Step(inserted, Commit(x));
           var ticket := NewTicket(s.txns[x].tenant, subject, authorizedUnix, ttlNanos, s.now);
           && done.tickets == (s.tickets - s.txns[x].rows.value)[id := ticket]
           && done.txns == s.txns - {x} && done.grants == s.grants && done.now == s.now && done.tenants == s.tenants
  {
    var inserted := Step(s, Insert(x, id, subject, authorizedUnix, ttlNanos));
    if x in inserted.txns {
      PutAgain(s, x, inserted.txns[x]);
      assert inserted.txns - {x} == s.txns - {x};
    }
  }

  lemma {:induction false} PositiveTtl(ttlNanos: nat)
    requires ValidTtl(ttlNanos)
    ensures ttlNanos / NANOS_PER_MILLI * MICROS_PER_MILLI > 0
  {}

  class TicketStore {
    var state: State

    constructor ()
      ensures state == INIT && Inv(state)
    {
      state := INIT;
    }

    method Perform(e: Event)
      requires Inv(state)
      modifies this
      ensures state == Step(old(state), e) && Inv(state)
    {
      StepKeeps(state, e);
      state := Step(state, e);
    }

    /** Runs the delete of a cleanup or creation, unless it has to wait. */
    method Delete(x: nat) returns (deleted: bool)
      requires Inv(state) && Undeleted(state, x)
      modifies this
      ensures Inv(state)
      ensures deleted <==> !DeleteWaits(old(state), x)
      ensures var w := old(state).txns[x];
        state == if deleted then Put(old(state), x, w.(rows := Some(StaleRows(old(state).tickets, w.tenant, w.at))))
                 else old(state)
    {
      Perform(DeleteStale(x));
      deleted := state.txns[x].rows.Some?;
    }

    /** Goes on with a creation that may have waited. A refused one leaves no trace, not even of its cleanup. */
    method ResumeCreate(x: nat, id: Id, subject: string, authorizedUnix: nat, ttlNanos: nat) returns (r: Created)
      requires Inv(state) && Undeleted(state, x) && id !in state.issued
      requires ValidSubject(subject) && ValidRequest(authorizedUnix, ttlNanos)
      modifies this
      ensures Inv(state)
      ensures r == if DeleteWaits(old(state), x) then CreationWaits
        else if authorizedUnix * MICROS_PER_SECOND <= old(state).now then Refused(AuthorizationExpired)
        else Issued
      ensures r.CreationWaits? ==> state == old(state)
      ensures r.Refused? ==> state == Drop(old(state), x)
      ensures r.Issued? ==>
        var w := old(state).txns[x];
        && state.tickets == Kept(old(state).tickets, w.tenant, w.at)[
             id := NewTicket(w.tenant, subject, authorizedUnix, ttlNanos, old(state).now)]
        && state.txns == old(state).txns - {x} && state.grants == old(state).grants
        && state.now == old(state).now && state.tenants == old(state).tenants
    {
      ghost var before := state;
      var deleted := Delete(x);
      if !deleted {
        return CreationWaits;
      }
      ghost var w := before.txns[x];
      KeptIsRest(before.tickets, w.tenant, w.at);
      InsertsTicket(state, x, id, subject, authorizedUnix, ttlNanos);
      PutAgain(before, x, state.txns[x]);
      Perform(Insert(x, id, subject, authorizedUnix, ttlNanos));
      if x !in state.txns {
        return Refused(AuthorizationExpired);
      }
      Perform(Commit(x));
      return Issued;
    }

    /**
     * Creates a ticket: redeemable at once, until the earlier of the time to live and the end
     * of the authorization. Of the other tickets only stale ones of the tenant go. A refused
     * creation changes nothing, a waiting one only opens its transaction.
     */
    method CreateStreamTicket(x: nat, id: Id, tenant: TenantId, subject: string, authorizedUnix: nat, ttlNanos: nat)
      returns (r: Created)
      requires Inv(state) && x !in state.txns && id !in state.issued
      modifies this
      ensures Inv(state)
      ensures r == if !ValidSubject(Trim(subject)) then Refused(InvalidSubject)
        else if authorizedUnix > MAX_STREAM_TICKET_AUTHORIZATION_UNIX then Refused(InvalidAuthorizationExpiry)
        else if !ValidTtl(ttlNanos) then Refused(InvalidTtl)
        else if !Enabled(old(state), tenant) then Refused(TenantError(old(state), tenant).value)
        else if exists k :: k in StaleRows(old(state).tickets, tenant, old(state).now) && HeldByOther(old(state), x, k)
        then CreationWaits
        else if authorizedUnix * MICROS_PER_SECOND <= old(state).now then Refused(AuthorizationExpired)
        else Issued
      ensures r.Refused? ==> state == old(state)
      ensures r.CreationWaits? ==> state == Put(old(state), x, Cleanup(tenant, old(state).now, None, None))
      ensures r.Issued? ==>
        && id in state.tickets && Redeemable(state.tickets[id], tenant, state.now)
        && state.tickets[id].subject == Trim(subject)
        && state.tickets[id].authorizedUntil == authorizedUnix * MICROS_PER_SECOND
        && state.tickets[id].expiresAt
             == Min(state.now + ttlNanos / NANOS_PER_MILLI * MICROS_PER_MILLI, authorizedUnix * MICROS_PER_SECOND)
        && state.tickets == Kept(old(state).tickets, tenant, state.now)[id := state.tickets[id]]
        && state.txns == old(state).txns && state.grants == old(state).grants
        && state.now == old(state).now && state.tenants == old(state).tenants
    {
      if !ValidSubject(Trim(subject)) {
        return Refused(InvalidSubject);
      }
      if authorizedUnix > MAX_STREAM_TICKET_AUTHORIZATION_UNIX {
        return Refused(InvalidAuthorizationExpiry);
      }
      if !ValidTtl(ttlNanos) {
        return Refused(InvalidTtl);
      }
      var refusal := TenantError(state, tenant);
      if refusal.Some? {
        return Refused(refusal.value);
      }
      PositiveTtl(ttlNanos);
      ghost var before := state;
      ghost var work := Cleanup(tenant, state.now, None, None);
      Perform(BeginCleanup(x, tenant));
      PutDrop(before, x, work);
      assert forall k :: HeldByOther(state, x, k) <==> HeldByOther(before, x, k);
      r := ResumeCreate(x, id, Trim(subject), authorizedUnix, ttlNanos);
    }

    /** Goes on with an exchange that may have waited; its statement keeps the time at which it started. */
    method ResumeConsume(x: nat) returns (r: Exchange)
      requires Inv(state) && x in state.txns && state.txns[x].Consume? && !state.txns[x].locked
      modifies this
      ensures Inv(state)
      ensures var w := old(state).txns[x];
        && !r.ExchangeRefused? && (r.ExchangeWaits? <==> HeldByOther(old(state), x, w.id))
        && (r.ExchangeWaits? ==> state == old(state))
        && (r.NotGranted? ==> state == Drop(old(state), x))
        && (!r.ExchangeWaits? ==>
              (r.Granted? <==> w.id in old(state).tickets && Redeemable(old(state).tickets[w.id], w.tenant, w.at)))
        && (r.Granted? ==>
              && r.grant.id == w.id && r.grant.tenant == w.tenant && r.grant.at == w.at
              && r.grant.subject == old(state).tickets[w.id].subject
              && r.grant.authorizedUntil == old(state).tickets[w.id].authorizedUntil
              && state == Drop(old(state), x).(
                   tickets := old(state).tickets[w.id := old(state).tickets[w.id].(consumedAt := Some(w.at))],
                   grants := old(state).grants + [r.grant]))
    {
      ghost var before := state;
      Perform(LockTicket(x));
      if x !in state.txns {
        return NotGranted;
      }
      if !state.txns[x].locked {
        return ExchangeWaits;
      }
      PutAgain(before, x, state.txns[x]);
      Perform(Commit(x));
      return Granted(state.grants[|state.grants| - 1]);
    }

    /** Granted exactly if the ticket is the tenant's, not consumed and not expired; otherwise nothing changes. */
    method ConsumeStreamTicket(x: nat, tenant: TenantId, id: Id) returns (r: Exchange)
      requires Inv(state) && x !in state.txns
      modifies this
      ensures Inv(state)
      ensures r.ExchangeRefused? <==> !Enabled(old(state), tenant)
      ensures r.ExchangeRefused? ==> TenantError(old(state), tenant) == Some(r.error)
      ensures r.ExchangeWaits? <==> Enabled(old(state), tenant) && HeldByOther(old(state), x, id)
      ensures r.ExchangeWaits? ==> state == Put(old(state), x, Consume(tenant, id, old(state).now, false))
      ensures r.NotGranted? || r.ExchangeRefused? ==> state == old(state)
      ensures !r.ExchangeWaits? && !r.ExchangeRefused? ==>
        (r.Granted? <==> id in old(state).tickets && Redeemable(old(state).tickets[id], tenant, old(state).now))
      ensures r.Granted? ==>
        && r.grant.id == id && r.grant.tenant == tenant && r.grant.at == old(state).now
        && r.grant.subject == old(state).tickets[id].subject
        && r.grant.authorizedUntil == old(state).tickets[id].authorizedUntil
        && state == old(state).(
             tickets := old(state).tickets[id := old(state).tickets[id].(consumedAt := Some(old(state).now))],
             grants := old(state).grants + [r.grant])
    {
      var refusal := TenantError(state, tenant);
      if refusal.Some? {
        return ExchangeRefused(refusal.value);
      }
      ghost var before := state;
      Perform(BeginConsume(x, tenant, id));
      PutDrop(before, x, Consume(tenant, id, before.now, false));
      assert HeldByOther(state, x, id) <==> HeldByOther(before, x, id);
      r := ResumeConsume(x);
    }

    /** Goes on with a cleanup that may have waited. */
    method ResumeCleanup(x: nat) returns (r: Cleaned)
      requires Inv(state) && Undeleted(state, x)
      modifies this
      ensures Inv(state)
      ensures var w := old(state).txns[x];
        && !r.CleanupRefused? && (r.CleanupWaits? <==> DeleteWaits(old(state), x))
        && (r.CleanupWaits? ==> state == old(state))
        && (r.Removed? ==>
              && state == Drop(old(state), x).(tickets := Kept(old(state).tickets, w.tenant, w.at))
              && r.count == |StaleRows(old(state).tickets, w.tenant, w.at)|)
    {
      ghost var before := state;
      var deleted := Delete(x);
      if !deleted {
        return CleanupWaits;
      }
      ghost var w := before.txns[x];
      KeptIsRest(before.tickets, w.tenant, w.at);
      PutAgain(before, x, state.txns[x]);
      r := Removed(|state.txns[x].rows.value|);
      Perform(Commit(x));
    }

    /** Of this tenant's tickets exactly those that can still be redeemed stay; no other tenant's ticket goes. */
    method CleanupStreamTickets(x: nat, tenant: TenantId) returns (r: Cleaned)
      requires Inv(state) && x !in state.txns
      modifies this
      ensures Inv(state)
      ensures r.CleanupRefused? <==> !Enabled(old(state), tenant)
      ensures r.CleanupRefused? ==> TenantError(old(state), tenant) == Some(r.error) && state == old(state)
      ensures r.CleanupWaits? <==>
        && Enabled(old(state), tenant)
        && exists k :: k in StaleRows(old(state).tickets, tenant, old(state).now) && HeldByOther(old(state), x, k)
      ensures r.CleanupWaits? ==> state == Put(old(state), x, Cleanup(tenant, old(state).now, None, None))
      ensures r.Removed? ==>
        && state == old(state).(tickets := Kept(old(state).tickets, tenant, old(state).now))
        && r.count == |StaleRows(old(state).tickets, tenant, old(state).now)|
        && forall id :: id in old(state).tickets && old(state).tickets[id].tenant == tenant ==>
             (id in state.tickets <==> Redeemable(old(state).tickets[id], tenant, old(state).now))
    {
      var refusal := TenantError(state, tenant);
      if refusal.Some? {
        return CleanupRefused(refusal.value);
      }
      ghost var before := state;
      ghost var work := Cleanup(tenant, state.now, None, None);
      Perform(BeginCleanup(x, tenant));
      PutDrop(before, x, work);
      assert forall k :: HeldByOther(state, x, k) <==> HeldByOther(before, x, k);
      r := ResumeCleanup(x);
    }
  }
}
