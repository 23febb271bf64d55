/** What the event log guarantees in every run, whatever the interleaving. */
module EventLogTheorems {
  import opened EventLog
  import opened EventLogSafety
  import Projection
  import opened Replay
  import opened Signals

  // ---------------------------------------------------------------------------
  // Growth of the log
  // ---------------------------------------------------------------------------

  /** `e` commits an append that inserted a row for tenant `t`. */
  predicate InsertingCommit(db: Db, e: Event, t: TenantId) {
    && e.Commit? && e.id in db.txns && db.txns[e.id].Append? && db.txns[e.id].phase.Projected?
    && db.txns[e.id].envelope.tenant == t
  }

  /** The tenant's log and projection are as before. */
  predicate SameData(db: Db, db': Db, t: TenantId)
    requires t in db.tenants
  {
    t in db'.tenants && db'.tenants[t].log == db.tenants[t].log && db'.tenants[t].projection == db.tenants[t].projection
  }

  lemma {:induction false} AdministrationKeepsData(db: Db, e: Event, t: TenantId)
    requires t in db.tenants && AdminStep(e)
    ensures SameData(db, Step(db, e), t)
  {}

  lemma {:induction false} AppendStepsKeepTenants(db: Db, e: Event)
    requires AppendStep(e)
    ensures Step(db, e).tenants == db.tenants
  {}

  predicate OtherStep(e: Event) {
    ReaderStep(e) || e.BeginEnrol? || e.CheckCapacity? || e.InsertAgent?
  }

  lemma {:induction false} OtherStepsKeepTenants(db: Db, e: Event)
    requires OtherStep(e)
    ensures Step(db, e).tenants == db.tenants
  {}

  lemma {:induction false} CommitKeepsData(db: Db, id: nat, t: TenantId)
    requires t in db.tenants && !InsertingCommit(db, Commit(id), t)
    ensures SameData(db, StepCommit(db, id), t)
  {
    if id in db.txns {
      match db.txns[id]
      case Enrol(_, _, _) =>
      case Append(_, _, _) =>
    }
  }

  /**
   * Only the commit of an append that inserted its row changes a tenant's log or
   * projection: rejected, conflicting, duplicate and rolled-back appends change neither.
   */
  lemma {:induction false} OnlyInsertingCommitsChange(db: Db, e: Event, t: TenantId)
    requires t in db.tenants && !InsertingCommit(db, e, t)
    ensures SameData(db, Step(db, e), t)
  {
    if e.Commit? {
      CommitKeepsData(db, e.id, t);
    } else if AppendStep(e) {
      AppendStepsKeepTenants(db, e);
    } else if OtherStep(e) {
      OtherStepsKeepTenants(db, e);
    } else {
      AdministrationKeepsData(db, e, t);
    }
  }

  /** A transaction about to commit has an enabled tenant and an enabled agent. */
  lemma {:induction false} CommitterIsEnabled(db: Db, id: nat)
    requires Inv(db) && id in db.txns && db.txns[id].Append? && db.txns[id].phase.Projected?
    ensures var e := db.txns[id].envelope;
      && e.tenant in db.tenants && db.tenants[e.tenant].enabled
      && e.agent in db.tenants[e.tenant].agents && db.tenants[e.tenant].agents[e.agent]
  {
    assert TxnOk(db, db.txns[id]);
  }

  lemma {:induction false} CommitAddsRow(db: Db, e: Event)
    requires e.Commit? && e.id in db.txns && db.txns[e.id].Append? && db.txns[e.id].phase.Projected?
    requires db.txns[e.id].envelope.tenant in db.tenants
    ensures var Append(envelope, bytes, Projected(cursor, projection)) := db.txns[e.id];
      Step(db, e) == CommitAppend(EndTxn(db, e.id), envelope, Row(cursor, envelope, bytes), projection)
  {}

  /** An inserting commit adds its one row, and only for a tenant and an agent that are enabled at that moment. */
  lemma {:induction false} InsertingCommitAddsItsRow(db: Db, e: Event, t: TenantId)
    requires Inv(db) && InsertingCommit(db, e, t)
    ensures t in db.tenants
    ensures
      var txn, db' := db.txns[e.id], Step(db, e);
      && t in db'.tenants
      && db'.tenants[t].log == db.tenants[t].log + [Row(txn.phase.cursor, txn.envelope, txn.bytes)]
      && db'.replies == db.replies + [Reply(txn.envelope, Committed(txn.phase.cursor, true))]
      && db.tenants[t].enabled
      && txn.envelope.agent in db.tenants[t].agents && db.tenants[t].agents[txn.envelope.agent]
  {
    CommitterIsEnabled(db, e.id);
    CommitAddsRow(db, e);
  }

  /** A step never creates a tenant with events. */
  lemma {:induction false} NewTenantsAreEmpty(db: Db, e: Event, t: TenantId)
    requires t !in db.tenants
    ensures LogOf(Step(db, e), t) == []
  {
    if AppendStep(e) {
      AppendStepsKeepTenants(db, e);
    } else if OtherStep(e) {
      OtherStepsKeepTenants(db, e);
    }
  }

  /** A step leaves a tenant's log alone or adds the row of a running append. */
  lemma {:induction false} LogStep(db: Db, e: Event, t: TenantId)
    requires Inv(db)
    ensures LogOf(Step(db, e), t) == LogOf(db, t)
         || exists i: nat, row: Row :: i in db.txns && db.txns[i].Append? && row.envelope == db.txns[i].envelope
                          && LogOf(Step(db, e), t) == LogOf(db, t) + [row]
  {
    if t !in db.tenants {
      NewTenantsAreEmpty(db, e, t);
    } else if InsertingCommit(db, e, t) {
      InsertingCommitAddsItsRow(db, e, t);
      var row := Row(db.txns[e.id].phase.cursor, db.txns[e.id].envelope, db.txns[e.id].bytes);
      assert LogOf(Step(db, e), t) == LogOf(db, t) + [row];
    } else {
      OnlyInsertingCommitsChange(db, e, t);
    }
  }

  lemma {:induction false} CommittedIsStored(db: Db, i: nat)
    requires Inv(db) && i < |db.replies| && db.replies[i].outcome.Committed?
    ensures Stored(LogOf(db, db.replies[i].envelope.tenant), db.replies[i].envelope, db.replies[i].outcome.cursor)
  {
    assert ReplyOk(db, db.replies[i]);
  }

  lemma {:induction false} LogGrows(db: Db, events: seq<Event>, t: TenantId)
    requires Inv(db)
    ensures LogOf(db, t) <= LogOf(Run(db, events), t)
    decreases |events|
  {
    if events != [] {
      var front, e := events[..|events| - 1], events[|events| - 1];
      LogGrows(db, front, t);
      RunKeeps(db, front);
      var mid := Run(db, front);
      if t in mid.tenants {
        if InsertingCommit(mid, e, t) {
          InsertingCommitAddsItsRow(mid, e, t);
        } else {
          OnlyInsertingCommitsChange(mid, e, t);
        }
      } else {
        assert LogOf(mid, t) == [];
      }
    }
  }

  lemma {:induction false} LogSorted(db: Db, t: TenantId)
    requires Inv(db)
    ensures Sorted(LogOf(db, t)) && KeysUnique(LogOf(db, t))
  {
    if t in db.tenants {
      assert TenantOk(t, db.tenants[t], db.nextCursor);
    }
  }

  lemma {:induction false} RunConcat(db: Db, a: seq<Event>, b: seq<Event>)
    ensures Run(Run(db, a), b) == Run(db, a + b)
    decreases |b|
  {
    if b == [] {
      assert a + b == a;
    } else {
      var front := b[..|b| - 1];
      RunConcat(db, a, front);
      assert (a + b)[..|a + b| - 1] == a + front;
    }
  }

  /** The logs that a tenant has at two moments of one run: both sorted, the earlier one a prefix. */
  lemma {:induction false} LogAtMoments(events: seq<Event>, i: nat, j: nat, t: TenantId)
    requires i <= j <= |events|
    ensures Sorted(LogOf(Run(INIT, events[..i]), t))
    ensures LogOf(Run(INIT, events[..i]), t) <= LogOf(Run(INIT, events[..j]), t)
  {
    var db := Run(INIT, events[..i]);
    RunKeeps(INIT, events[..i]);
    LogSorted(db, t);
    LogGrows(db, events[i..j], t);
    RunConcat(INIT, events[..i], events[i..j]);
    assert events[..i] + events[i..j] == events[..j];
  }

  // ---------------------------------------------------------------------------
  // Cursors are committed in order
  // ---------------------------------------------------------------------------

  /** The cursor that a running append has been given but not yet committed. */
  predicate Pending(db: Db, id: nat, t: TenantId, cursor: nat) {
    && id in db.txns && db.txns[id].Append? && db.txns[id].envelope.tenant == t
    && ((db.txns[id].phase.Inserted? && db.txns[id].phase.cursor == cursor)
     || (db.txns[id].phase.Projected? && db.txns[id].phase.cursor == cursor))
  }

  lemma {:induction false} PendingAboveCommitted(db: Db, t: TenantId)
    requires Inv(db)
    ensures forall id, c, i :: Pending(db, id, t, c) && 0 <= i < |LogOf(db, t)| ==> LogOf(db, t)[i].cursor < c
  {
    forall id, c, i | Pending(db, id, t, c) && 0 <= i < |LogOf(db, t)| ensures LogOf(db, t)[i].cursor < c {
      assert TxnOk(db, db.txns[id]);
    }
  }

  /**
   * In every run, cursors of a tenant are committed in increasing order; every cursor
   * pending in a transaction, and every one committed by any continuation of the run,
   * is above all those committed so far. Lock keys of different tenants may collide.
   */
  lemma {:induction false} CursorsCommitInOrder(events: seq<Event>, more: seq<Event>, t: TenantId)
    ensures
      var db, db' := Run(INIT, events), Run(Run(INIT, events), more);
      && Sorted(LogOf(db, t))
      && (forall id, c, i :: Pending(db, id, t, c) && 0 <= i < |LogOf(db, t)| ==> LogOf(db, t)[i].cursor < c)
      && LogOf(db, t) <= LogOf(db', t)
      && (forall i, j :: 0 <= i < |LogOf(db, t)| <= j < |LogOf(db', t)| ==>
            LogOf(db, t)[i].cursor < LogOf(db', t)[j].cursor)
  {
    var db := Run(INIT, events);
    RunKeeps(INIT, events);
    RunKeeps(db, more);
    LogSorted(db, t);
    LogSorted(Run(db, more), t);
    LogGrows(db, more, t);
    PendingAboveCommitted(db, t);
  }

  /** Distinct tenants can share a lock key; nothing above asks that they do not. */
  lemma {:induction false} LockKeysCollide()
    ensures exists a: TenantId, b: TenantId :: a != b && LockKey(a) == LockKey(b)
  {
    var a, b := TenantId(0, 0), TenantId(1, 1);
    assert a.high != b.high;
    assert LockKey(a) == LockKey(b);
  }

  // ---------------------------------------------------------------------------
  // Replay
  // ---------------------------------------------------------------------------

  lemma {:induction false} SelectSnoc(rows: seq<Row>, row: Row, cutoff: nat)
    ensures SelectUpTo(rows + [row], cutoff)
         == if row.cursor <= cutoff then SelectUpTo(rows, cutoff) + [row] else SelectUpTo(rows, cutoff)
  {
    assert (rows + [row])[..|rows|] == rows;
  }

  lemma {:induction false} WindowSnoc(log: seq<Row>, row: Row, low: nat, high: nat)
    requires low <= high && (row.cursor > high || row.cursor <= low)
    ensures Window(log + [row], low, high) == Window(log, low, high)
  {
    AfterSnoc(log, row, low);
    SelectSnoc(After(log, low), row, high);
  }

  lemma {:induction false} WindowKeptByGrowth(log: seq<Row>, log': seq<Row>, low: nat, high: nat)
    requires log <= log' && Sorted(log') && low <= high
    requires low == high || exists i :: 0 <= i < |log| && log[i].cursor == high
    ensures Window(log', low, high) == Window(log, low, high)
    decreases |log'|
  {
    if log != log' {
      var n := |log'| - 1;
      WindowKeptByGrowth(log, log'[..n], low, high);
      assert log' == log'[..n] + [log'[n]];
      assert low != high ==> high < log'[n].cursor;
      WindowSnoc(log'[..n], log'[n], low, high);
    }
  }

  /** The invariant of a reader pins down what it has received. */
  lemma {:induction false} ReaderHoldsWindow(log: seq<Row>, reader: Reader)
    requires Sorted(log) && ReaderOk(log, reader)
    ensures reader.received == Window(log, reader.start, reader.cursor)
    ensures Sorted(reader.received)
  {
    var later := After(log, reader.start);
    var window := Window(log, reader.start, reader.cursor);
    WindowThenAfter(log, reader.start, reader.cursor);
    assert |reader.received| == |window|;
    assert reader.received == later[..|window|] == window;
    AfterSorted(log, reader.start);
  }

  /**
   * In every run, a reader that started at any cursor and resumed, page by page and
   * connection by connection, from the last row it received, holds exactly the committed
   * rows between its start and its current cursor, once each and in order; and this stays
   * so in every continuation: no later commit lands behind the reader.
   */
  lemma {:induction false} ReplayIsExact(events: seq<Event>, more: seq<Event>, r: nat)
    requires r in Run(INIT, events).readers
    ensures
      var db, db' := Run(INIT, events), Run(Run(INIT, events), more);
      var reader := db.readers[r];
      && reader.received == Window(LogOf(db, reader.tenant), reader.start, reader.cursor)
      && reader.received == Window(LogOf(db', reader.tenant), reader.start, reader.cursor)
      && Sorted(reader.received)
  {
    var db := Run(INIT, events);
    var db' := Run(db, more);
    var reader := db.readers[r];
    var log := LogOf(db, reader.tenant);
    RunKeeps(INIT, events);
    RunKeeps(db, more);
    assert ReaderOk(log, reader);
    LogSorted(db, reader.tenant);
    LogSorted(db', reader.tenant);
    ReaderHoldsWindow(log, reader);
    LogGrows(db, more, reader.tenant);
    WindowKeptByGrowth(log, LogOf(db', reader.tenant), reader.start, reader.cursor);
  }

  // ---------------------------------------------------------------------------
  // The projection row
  // ---------------------------------------------------------------------------

  /**
   * In every run, the projection row is the fold of `observe` over the committed events in
   * cursor order, and its last cursor is the largest committed one.
   */
  lemma {:induction false} ProjectionIsFold(events: seq<Event>, t: TenantId)
    requires t in Run(INIT, events).tenants
    ensures
      var tenant := Run(INIT, events).tenants[t];
      && Sorted(tenant.log)
      && (tenant.projection.None? <==> tenant.log == [])
      && (tenant.log != [] ==>
            && tenant.projection.value.view == Projection.Fold(Envelopes(tenant.log))
            && (forall i :: 0 <= i < |tenant.log| ==> tenant.log[i].cursor <= tenant.projection.value.lastCursor)
            && tenant.log[|tenant.log| - 1].cursor == tenant.projection.value.lastCursor)
  {
    RunKeeps(INIT, events);
    assert TenantOk(t, Run(INIT, events).tenants[t], Run(INIT, events).nextCursor);
  }

  lemma {:induction false} EnvelopesAt(log: seq<Row>)
    ensures |Envelopes(log)| == |log|
    ensures forall i :: 0 <= i < |log| ==> Envelopes(log)[i] == log[i].envelope
    decreases |log|
  {
    if log != [] {
      EnvelopesAt(log[..|log| - 1]);
    }
  }

  lemma {:induction false} SubsetSize<T>(a: set<T>, b: set<T>)
    requires a <= b
    ensures |a| <= |b|
    decreases |a|
  {
    if a != {} {
      var x :| x in a;
      SubsetSize(a - {x}, b - {x});
    }
  }

  /**
   * In every run, a tenant has at most the allowed number of agents, and the projection
   * mentions only enrolled agents, so it obeys the same bound.
   */
  lemma {:induction false} AgentsAreBounded(events: seq<Event>, t: TenantId)
    requires t in Run(INIT, events).tenants
    ensures
      var tenant := Run(INIT, events).tenants[t];
      && |tenant.agents| <= MAX_AGENTS_PER_TENANT
      && (tenant.projection.Some? ==>
            && tenant.projection.value.view.agents.Keys <= tenant.agents.Keys
            && |tenant.projection.value.view.agents| <= MAX_AGENTS_PER_TENANT)
  {
    var db := Run(INIT, events);
    var tenant := db.tenants[t];
    RunKeeps(INIT, events);
    assert TenantOk(t, tenant, db.nextCursor);
    if tenant.projection.Some? {
      var seen := tenant.projection.value.view.agents;
      var envelopes := Envelopes(tenant.log);
      EnvelopesAt(tenant.log);
      Projection.FoldAgents(envelopes);
      forall a | a in seen ensures a in tenant.agents {
        assert Projection.AgentSummarised(envelopes, Projection.Fold(envelopes), a);
        var i :| Projection.SentBy(envelopes, a, i);
        assert RowOk(t, tenant.agents.Keys, db.nextCursor, tenant.log[i]);
      }
      SubsetSize(seen.Keys, tenant.agents.Keys);
      assert |seen| == |seen.Keys| && |tenant.agents| == |tenant.agents.Keys|;
    }
  }

  // ---------------------------------------------------------------------------
  // Repeated requests
  // ---------------------------------------------------------------------------

  /** Row `k`, and no other, stores the request `e`. */
  predicate StoredOnlyAt(log: seq<Row>, e: Envelope, k: nat) {
    && k < |log| && SameKey(log[k].envelope, e) && log[k].envelope.payload == e.payload
    && forall i :: 0 <= i < |log| && i != k ==> !SameKey(log[i].envelope, e)
  }

  /** What two successful replies to one request have in common. */
  lemma {:induction false} SuccessesAgree(log: seq<Row>, a: Reply, b: Reply)
    requires a.outcome.Committed? && b.outcome.Committed? && SameRequest(a.envelope, b.envelope) && KeysUnique(log)
    requires Stored(log, a.envelope, a.outcome.cursor) && Stored(log, b.envelope, b.outcome.cursor)
    ensures a.outcome.cursor == b.outcome.cursor && a.envelope.payload == b.envelope.payload
    ensures exists k :: 0 <= k < |log| && StoredOnlyAt(log, a.envelope, k) && log[k].cursor == a.outcome.cursor
  {
    var k :| && 0 <= k < |log| && log[k].cursor == a.outcome.cursor
             && SameKey(log[k].envelope, a.envelope) && log[k].envelope.payload == a.envelope.payload;
    assert StoredOnlyAt(log, a.envelope, k);
  }

  /**
   * In every run, all successful replies to one request name the same cursor, only the first
   * of them may report an insertion, and the log holds that request exactly once, unchanged.
   */
  lemma {:induction false} RepeatsReturnTheOriginal(events: seq<Event>, i: nat, j: nat)
    requires i < j < |Run(INIT, events).replies|
    requires var replies := Run(INIT, events).replies;
      && SameRequest(replies[i].envelope, replies[j].envelope)
      && replies[i].outcome.Committed? && replies[j].outcome.Committed?
    ensures
      var db := Run(INIT, events);
      var a, b := db.replies[i], db.replies[j];
      && a.outcome.cursor == b.outcome.cursor && !b.outcome.inserted
      && a.envelope.payload == b.envelope.payload
      && exists k :: 0 <= k < |LogOf(db, a.envelope.tenant)|
                  && StoredOnlyAt(LogOf(db, a.envelope.tenant), a.envelope, k)
                  && LogOf(db, a.envelope.tenant)[k].cursor == a.outcome.cursor
  {
    var db := Run(INIT, events);
    RunKeeps(INIT, events);
    var a, b := db.replies[i], db.replies[j];
    CommittedIsStored(db, i);
    CommittedIsStored(db, j);
    LogSorted(db, a.envelope.tenant);
    SuccessesAgree(LogOf(db, a.envelope.tenant), a, b);
  }
}
