/** Every step of the event log keeps its invariant, and what that means for every run. */
module EventLogSafety {
  import opened EventLog
  import Projection
  import opened Replay
  import opened Signals

  // ---------------------------------------------------------------------------
  // Changes to the transaction table, the identity column and the readers
  // ---------------------------------------------------------------------------

  /** Readers and replies depend only on the committed tables and on themselves. */
  lemma {:induction false} FrameReaders(db: Db, db': Db)
    requires ReadersOk(db) && db'.tenants == db.tenants && db'.readers == db.readers
    ensures ReadersOk(db')
  {
    forall r | r in db'.readers ensures ReaderOk(LogOf(db', db'.readers[r].tenant), db'.readers[r]) {
      assert ReaderOk(LogOf(db, db.readers[r].tenant), db.readers[r]);
    }
  }

  lemma {:induction false} FrameReplies(db: Db, db': Db)
    requires RepliesOk(db) && db'.tenants == db.tenants && db'.replies == db.replies
    ensures RepliesOk(db')
  {
    forall i | 0 <= i < |db'.replies| ensures ReplyOk(db', db'.replies[i]) {
      assert ReplyOk(db, db.replies[i]);
    }
  }

  lemma {:induction false} FrameTxns(db: Db, db': Db)
    requires TxnsOk(db) && db'.tenants == db.tenants && db'.nextCursor >= db.nextCursor
    requires forall i :: i in db'.txns ==> i in db.txns && db'.txns[i] == db.txns[i]
    ensures TxnsOk(db')
  {
    forall i | i in db'.txns ensures TxnOk(db', db'.txns[i]) {
      assert TxnOk(db, db.txns[i]);
    }
  }

  lemma {:induction false} PutTxnKeeps(db: Db, id: nat, txn: Txn)
    requires Inv(db) && TxnOk(db, txn)
    requires Holds(txn) ==> forall j :: j in db.txns && j != id && Holds(db.txns[j]) ==>
      LockKey(TenantOf(db.txns[j])) != LockKey(TenantOf(txn))
    ensures Inv(PutTxn(db, id, txn))
  {
    var db' := PutTxn(db, id, txn);
    forall i | i in db'.txns ensures TxnOk(db', db'.txns[i]) {
      assert i != id ==> TxnOk(db, db.txns[i]);
    }
    FrameReaders(db, db');
    FrameReplies(db, db');
  }

  lemma {:induction false} EndTxnKeeps(db: Db, id: nat)
    requires Inv(db)
    ensures Inv(EndTxn(db, id))
  {
    var db' := EndTxn(db, id);
    FrameTxns(db, db');
    FrameReaders(db, db');
    FrameReplies(db, db');
  }

  lemma {:induction false} BumpTenant(t: TenantId, tenant: Tenant, n: nat)
    requires TenantOk(t, tenant, n)
    ensures TenantOk(t, tenant, n + 1)
  {
    forall i | 0 <= i < |tenant.log| ensures RowOk(t, tenant.agents.Keys, n + 1, tenant.log[i]) {
      assert RowOk(t, tenant.agents.Keys, n, tenant.log[i]);
    }
  }

  lemma {:induction false} BumpKeeps(db: Db)
    requires Inv(db)
    ensures Inv(db.(nextCursor := db.nextCursor + 1))
  {
    var db' := db.(nextCursor := db.nextCursor + 1);
    forall t | t in db'.tenants ensures TenantOk(t, db'.tenants[t], db'.nextCursor) {
      BumpTenant(t, db.tenants[t], db.nextCursor);
    }
    FrameTxns(db, db');
    FrameReaders(db, db');
    FrameReplies(db, db');
  }

  lemma {:induction false} RespondReplies(db: Db, e: Envelope, outcome: Outcome)
    requires RepliesOk(db) && ReplyOk(db, Reply(e, outcome)) && (outcome.Committed? ==> !outcome.inserted)
    ensures RepliesOk(Respond(db, e, outcome))
  {
    var db' := Respond(db, e, outcome);
    forall i | 0 <= i < |db'.replies| ensures ReplyOk(db', db'.replies[i]) {
      if i < |db.replies| {
        assert ReplyOk(db, db.replies[i]);
      }
    }
  }

  lemma {:induction false} RespondKeeps(db: Db, e: Envelope, outcome: Outcome)
    requires Inv(db) && ReplyOk(db, Reply(e, outcome)) && (outcome.Committed? ==> !outcome.inserted)
    ensures Inv(Respond(db, e, outcome))
  {
    var db' := Respond(db, e, outcome);
    FrameTxns(db, db');
    FrameReaders(db, db');
    RespondReplies(db, e, outcome);
  }

  lemma {:induction false} PutReaderKeeps(db: Db, r: nat, reader: Reader)
    requires Inv(db) && ReaderOk(LogOf(db, reader.tenant), reader)
    ensures Inv(PutReader(db, r, reader))
  {
    var db' := PutReader(db, r, reader);
    FrameTxns(db, db');
    FrameReplies(db, db');
    assert ReadersOk(db') by {
      forall i | i in db'.readers ensures ReaderOk(LogOf(db', db'.readers[i].tenant), db'.readers[i]) {
        assert i != r ==> ReaderOk(LogOf(db, db.readers[i].tenant), db.readers[i]);
      }
    }
  }

  // ---------------------------------------------------------------------------
  // Changes to one tenant
  // ---------------------------------------------------------------------------

  /** Replacing a tenant without touching its log. */
  lemma {:induction false} TenantUpdateFrame(db: Db, db': Db)
    requires ReadersOk(db) && RepliesOk(db) && db'.readers == db.readers && db'.replies == db.replies
    requires forall u :: LogOf(db', u) == LogOf(db, u)
    ensures ReadersOk(db') && RepliesOk(db')
  {
    forall i | 0 <= i < |db'.replies| ensures ReplyOk(db', db'.replies[i]) {
      assert ReplyOk(db, db.replies[i]);
    }
    forall r | r in db'.readers ensures ReaderOk(LogOf(db', db'.readers[r].tenant), db'.readers[r]) {
      assert ReaderOk(LogOf(db, db.readers[r].tenant), db.readers[r]);
    }
  }

  lemma {:induction false} TenantUpdateTxns(db: Db, t: TenantId, tenant: Tenant)
    requires TenantsOk(db) && TxnsOk(db) && TenantOk(t, tenant, db.nextCursor)
    requires forall i :: i in db.txns && TenantOf(db.txns[i]) == t ==>
      TxnOk(db.(tenants := db.tenants[t := tenant]), db.txns[i])
    ensures TenantsOk(db.(tenants := db.tenants[t := tenant])) && TxnsOk(db.(tenants := db.tenants[t := tenant]))
  {
    var db' := db.(tenants := db.tenants[t := tenant]);
    forall u | u in db'.tenants ensures TenantOk(u, db'.tenants[u], db'.nextCursor) {
      assert u != t ==> TenantOk(u, db.tenants[u], db.nextCursor);
    }
    forall i | i in db'.txns ensures TxnOk(db', db'.txns[i]) {
      assert TxnOk(db, db.txns[i]);
    }
  }

  lemma {:induction false} TenantUpdateKeeps(db: Db, t: TenantId, tenant: Tenant)
    requires Inv(db) && TenantOk(t, tenant, db.nextCursor) && tenant.log == LogOf(db, t)
    requires forall i :: i in db.txns && TenantOf(db.txns[i]) == t ==>
      TxnOk(db.(tenants := db.tenants[t := tenant]), db.txns[i])
    ensures Inv(db.(tenants := db.tenants[t := tenant]))
  {
    var db' := db.(tenants := db.tenants[t := tenant]);
    TenantUpdateTxns(db, t, tenant);
    TenantUpdateFrame(db, db');
  }

  lemma {:induction false} CreateTenantKeeps(db: Db, t: TenantId)
    requires Inv(db)
    ensures Inv(StepCreateTenant(db, t))
  {
    if t !in db.tenants {
      forall i | i in db.txns ensures TenantOf(db.txns[i]) != t {
        assert TxnOk(db, db.txns[i]);
      }
      TenantUpdateKeeps(db, t, Tenant(true, map[], [], None));
    }
  }

  lemma {:induction false} SetTenantEnabledKeeps(db: Db, t: TenantId, enabled: bool)
    requires Inv(db)
    ensures Inv(StepSetTenantEnabled(db, t, enabled))
  {
    if StepSetTenantEnabled(db, t, enabled) != db {
      assert TenantOk(t, db.tenants[t], db.nextCursor);
      TenantUpdateKeeps(db, t, db.tenants[t].(enabled := enabled));
    }
  }

  lemma {:induction false} SetAgentEnabledKeeps(db: Db, t: TenantId, a: AgentId, enabled: bool)
    requires Inv(db)
    ensures Inv(StepSetAgentEnabled(db, t, a, enabled))
  {
    var db' := StepSetAgentEnabled(db, t, a, enabled);
    if db' != db {
      var tenant := db.tenants[t];
      var tenant' := tenant.(agents := tenant.agents[a := enabled]);
      assert TenantOk(t, tenant, db.nextCursor);
      assert tenant'.agents.Keys == tenant.agents.Keys;
      assert |tenant'.agents| == |tenant'.agents.Keys| == |tenant.agents.Keys| == |tenant.agents|;
      forall i | i in db.txns && TenantOf(db.txns[i]) == t ensures TxnOk(db', db.txns[i]) {
        assert TxnOk(db, db.txns[i]);
      }
      TenantUpdateKeeps(db, t, tenant');
    }
  }

  /** Committing an enrolment: the tenant lock keeps the checked capacity valid until now. */
  lemma {:induction false} CommitEnrolKeeps(db: Db, id: nat)
    requires Inv(db) && id in db.txns && db.txns[id].Enrol? && db.txns[id].stage.AgentInserted?
    ensures Inv(StepCommit(db, id))
  {
    var Enrol(t, a, _) := db.txns[id];
    assert TxnOk(db, db.txns[id]);
    var base := EndTxn(db, id);
    EndTxnKeeps(db, id);
    var tenant := base.tenants[t];
    var tenant' := tenant.(agents := tenant.agents[a := true]);
    assert TenantOk(t, tenant, base.nextCursor);
    assert tenant'.agents.Keys == tenant.agents.Keys + {a};
    assert |tenant'.agents| == |tenant'.agents.Keys| <= MAX_AGENTS_PER_TENANT by {
      if a in tenant.agents {
        assert tenant'.agents.Keys == tenant.agents.Keys;
      }
      assert |tenant.agents| == |tenant.agents.Keys|;
    }
    forall i | 0 <= i < |tenant'.log| ensures RowOk(t, tenant'.agents.Keys, base.nextCursor, tenant'.log[i]) {
      assert RowOk(t, tenant.agents.Keys, base.nextCursor, tenant.log[i]);
    }
    var db' := base.(tenants := base.tenants[t := tenant']);
    forall i | i in base.txns && TenantOf(base.txns[i]) == t ensures TxnOk(db', base.txns[i]) {
      assert TxnOk(base, base.txns[i]);
      assert !Holds(db.txns[i]);
    }
    TenantUpdateKeeps(base, t, tenant');
  }

  // ---------------------------------------------------------------------------
  // Committing an append
  // ---------------------------------------------------------------------------

  lemma {:induction false} ExistingSpec(log: seq<Row>, e: Envelope)
    ensures Existing(log, e).None? ==> forall i :: 0 <= i < |log| ==> !SameKey(log[i].envelope, e)
    ensures Existing(log, e).Some? ==> Existing(log, e).value in log && SameKey(Existing(log, e).value.envelope, e)
    decreases |log|
  {
    if log == [] {
    } else if !SameKey(log[|log| - 1].envelope, e) {
      var front := log[..|log| - 1];
      ExistingSpec(front, e);
      forall i | 0 <= i < |log| && Existing(log, e).None? ensures !SameKey(log[i].envelope, e) {
        assert i < |front| ==> front[i] == log[i];
      }
    }
  }

  /** A request that was not found may be stored at the next cursor. */
  lemma {:induction false} NotFoundIsFresh(t: TenantId, tenant: Tenant, nextCursor: nat, e: Envelope)
    requires TenantOk(t, tenant, nextCursor) && Existing(tenant.log, e).None?
    ensures FreshRow(tenant.log, e, nextCursor)
  {
    ExistingSpec(tenant.log, e);
    forall i | 0 <= i < |tenant.log| ensures tenant.log[i].cursor < nextCursor {
      assert RowOk(t, tenant.agents.Keys, nextCursor, tenant.log[i]);
    }
  }

  /** A request that was found with its own payload is stored. */
  lemma {:induction false} FoundIsStored(log: seq<Row>, e: Envelope)
    requires Existing(log, e).Some? && Existing(log, e).value.envelope.payload == e.payload
    ensures Stored(log, e, Existing(log, e).value.cursor)
  {
    ExistingSpec(log, e);
  }

  lemma {:induction false} ProjectionSnoc(log: seq<Row>, row: Row)
    requires FreshRow(log, row.envelope, row.cursor)
    ensures ProjectionOf(log + [row]) == Some(NextProjection(ProjectionOf(log), row.cursor, row.envelope))
  {
    var log' := log + [row];
    assert log'[..|log|] == log;
    var es := Envelopes(log');
    assert es[..|es| - 1] == Envelopes(log);
    assert Projection.Fold(es) == Projection.Observed(Projection.Fold(Envelopes(log)), row.envelope);
  }

  lemma {:induction false} AfterSnoc(log: seq<Row>, row: Row, after: nat)
    ensures After(log + [row], after) == if row.cursor > after then After(log, after) + [row] else After(log, after)
  {
    assert (log + [row])[..|log|] == log;
  }

  lemma {:induction false} StoredSnoc(log: seq<Row>, row: Row, e: Envelope, cursor: nat)
    requires Stored(log, e, cursor)
    ensures Stored(log + [row], e, cursor)
  {
    var i :| 0 <= i < |log| && log[i].cursor == cursor && SameKey(log[i].envelope, e)
      && log[i].envelope.payload == e.payload;
    assert (log + [row])[i] == log[i];
  }

  /** A commit above every committed cursor is past every reader of the tenant. */
  lemma {:induction false} ReaderSnoc(log: seq<Row>, row: Row, r: Reader)
    requires ReaderOk(log, r) && forall i :: 0 <= i < |log| ==> log[i].cursor < row.cursor
    ensures ReaderOk(log + [row], r)
  {
    var log' := log + [row];
    AfterSnoc(log, row, r.start);
    AfterSnoc(log, row, r.cursor);
    assert r.cursor == r.start || exists i :: 0 <= i < |log'| && log'[i].cursor == r.cursor by {
      if r.cursor != r.start {
        var i :| 0 <= i < |log| && log[i].cursor == r.cursor;
        assert log'[i].cursor == r.cursor;
      }
    }
  }

  lemma {:induction false} LogSnocOk(t: TenantId, tenant: Tenant, nextCursor: nat, row: Row, projection: ProjectionRow)
    requires TenantOk(t, tenant, nextCursor)
    requires RowOk(t, tenant.agents.Keys, nextCursor, row) && FreshRow(tenant.log, row.envelope, row.cursor)
    requires ProjectionOf(tenant.log + [row]) == Some(projection)
    ensures TenantOk(t, tenant.(log := tenant.log + [row], projection := Some(projection)), nextCursor)
  {
    var log' := tenant.log + [row];
    forall i | 0 <= i < |log'| ensures RowOk(t, tenant.agents.Keys, nextCursor, log'[i]) {
      assert i < |tenant.log| ==> RowOk(t, tenant.agents.Keys, nextCursor, tenant.log[i]);
    }
  }

  /** What holds when an append reaches its commit: its row extends the log, and no one else holds the lock. */
  predicate ReadyToCommit(db: Db, e: Envelope, row: Row, projection: ProjectionRow) {
    && e.tenant in db.tenants && row.envelope == e
    && RowOk(e.tenant, db.tenants[e.tenant].agents.Keys, db.nextCursor, row)
    && FreshRow(db.tenants[e.tenant].log, e, row.cursor)
    && ProjectionOf(db.tenants[e.tenant].log + [row]) == Some(projection)
    && (forall i :: i in db.txns && TenantOf(db.txns[i]) == e.tenant ==> !Holds(db.txns[i]))
  }

  lemma {:induction false} CommitKeepsTxns(db: Db, e: Envelope, row: Row, projection: ProjectionRow)
    requires TxnsOk(db) && ReadyToCommit(db, e, row, projection)
    ensures TxnsOk(CommitAppend(db, e, row, projection))
  {
    var db' := CommitAppend(db, e, row, projection);
    forall i | i in db'.txns ensures TxnOk(db', db'.txns[i]) {
      assert TxnOk(db, db.txns[i]);
      if TenantOf(db.txns[i]) == e.tenant {
        assert !Holds(db.txns[i]);
      }
    }
  }

  lemma {:induction false} CommitKeepsReaders(db: Db, e: Envelope, row: Row, projection: ProjectionRow)
    requires ReadersOk(db) && ReadyToCommit(db, e, row, projection)
    ensures ReadersOk(CommitAppend(db, e, row, projection))
  {
    var db' := CommitAppend(db, e, row, projection);
    forall r | r in db'.readers ensures ReaderOk(LogOf(db', db'.readers[r].tenant), db'.readers[r]) {
      var reader := db.readers[r];
      assert ReaderOk(LogOf(db, reader.tenant), reader);
      if reader.tenant == e.tenant {
        ReaderSnoc(db.tenants[e.tenant].log, row, reader);
        assert LogOf(db', reader.tenant) == db.tenants[e.tenant].log + [row];
      } else {
        assert LogOf(db', reader.tenant) == LogOf(db, reader.tenant);
      }
    }
  }

  lemma {:induction false} CommitKeepsReply(db: Db, e: Envelope, row: Row, projection: ProjectionRow, reply: Reply)
    requires ReadyToCommit(db, e, row, projection) && ReplyOk(db, reply)
    ensures ReplyOk(CommitAppend(db, e, row, projection), reply)
    ensures reply.outcome.Committed? ==> !SameRequest(reply.envelope, e)
  {
    var log := db.tenants[e.tenant].log;
    if reply.outcome.Committed? && reply.envelope.tenant == e.tenant {
      StoredSnoc(log, row, reply.envelope, reply.outcome.cursor);
    }
  }

  lemma {:induction false} CommitKeepsReplies(db: Db, e: Envelope, row: Row, projection: ProjectionRow)
    requires RepliesOk(db) && ReadyToCommit(db, e, row, projection)
    ensures RepliesOk(CommitAppend(db, e, row, projection))
  {
    var db' := CommitAppend(db, e, row, projection);
    var log, n := db.tenants[e.tenant].log, |db.replies|;
    forall i | 0 <= i < n
      ensures ReplyOk(db', db.replies[i])
      ensures db.replies[i].outcome.Committed? ==> !SameRequest(db.replies[i].envelope, e)
    {
      assert ReplyOk(db, db.replies[i]);
      CommitKeepsReply(db, e, row, projection, db.replies[i]);
    }
    assert LogOf(db', e.tenant)[|log|] == row;
    assert ReplyOk(db', db'.replies[n]);
    forall i | 0 <= i < |db'.replies| ensures ReplyOk(db', db'.replies[i]) {
      assert i < n ==> db'.replies[i] == db.replies[i];
    }
  }

  lemma {:induction false} CommitAppendKeeps(db: Db, id: nat)
    requires Inv(db) && id in db.txns && db.txns[id].Append? && db.txns[id].phase.Projected?
    ensures Inv(StepCommit(db, id))
  {
    var Append(e, bytes, Projected(cursor, projection)) := db.txns[id];
    assert TxnOk(db, db.txns[id]);
    var row := Row(cursor, e, bytes);
    var base := EndTxn(db, id);
    EndTxnKeeps(db, id);
    assert TenantOk(e.tenant, db.tenants[e.tenant], db.nextCursor);
    LogSnocOk(e.tenant, db.tenants[e.tenant], db.nextCursor, row, projection);
    CommitKeepsTxns(base, e, row, projection);
    CommitKeepsReaders(base, e, row, projection);
    CommitKeepsReplies(base, e, row, projection);
    assert TenantsOk(StepCommit(db, id)) && LocksExclude(StepCommit(db, id));
  }

  // ---------------------------------------------------------------------------
  // Every step
  // ---------------------------------------------------------------------------

  lemma {:induction false} BeginAppendKeeps(db: Db, id: nat, e: Envelope, bytes: nat)
    requires Inv(db)
    ensures Inv(StepBeginAppend(db, id, e, bytes))
  {
    if id in db.txns {
    } else if e.tenant !in db.tenants {
      RespondKeeps(db, e, Rejected(TenantNotFound));
    } else if !db.tenants[e.tenant].enabled {
      RespondKeeps(db, e, Rejected(TenantDisabled));
    } else {
      PutTxnKeeps(db, id, Append(e, bytes, TenantChecked));
    }
  }

  lemma {:induction false} BeginEnrolKeeps(db: Db, id: nat, t: TenantId, a: AgentId)
    requires Inv(db)
    ensures Inv(StepBeginEnrol(db, id, t, a))
  {
    if id !in db.txns && t in db.tenants && db.tenants[t].enabled {
      PutTxnKeeps(db, id, Enrol(t, a, EnrolTenantChecked));
    }
  }

  lemma {:induction false} LockKeeps(db: Db, id: nat)
    requires Inv(db)
    ensures Inv(StepLock(db, id))
  {
    if StepLock(db, id) != db {
      assert TxnOk(db, db.txns[id]);
      PutTxnKeeps(db, id, StepLock(db, id).txns[id]);
    }
  }

  lemma {:induction false} CheckAgentKeeps(db: Db, id: nat)
    requires Inv(db)
    ensures Inv(StepCheckAgent(db, id))
  {
    if id in db.txns && db.txns[id].Append? && db.txns[id].phase.Locked? {
      var Append(e, bytes, _) := db.txns[id];
      assert TxnOk(db, db.txns[id]);
      EndTxnKeeps(db, id);
      if e.agent !in db.tenants[e.tenant].agents {
        RespondKeeps(EndTxn(db, id), e, Rejected(AgentNotEnrolled));
      } else if !db.tenants[e.tenant].agents[e.agent] {
        RespondKeeps(EndTxn(db, id), e, Rejected(AgentDisabled));
      } else {
        PutTxnKeeps(db, id, Append(e, bytes, AgentChecked));
      }
    }
  }

  lemma {:induction false} InsertFreshKeeps(db: Db, id: nat, e: Envelope, bytes: nat)
    requires Inv(db) && id in db.txns && db.txns[id] == Append(e, bytes, AgentChecked)
    requires e.tenant in db.tenants && Existing(db.tenants[e.tenant].log, e).None?
    ensures Inv(PutTxn(db.(nextCursor := db.nextCursor + 1), id, Append(e, bytes, Inserted(db.nextCursor))))
  {
    var tenant := db.tenants[e.tenant];
    assert TxnOk(db, db.txns[id]) && TenantOk(e.tenant, tenant, db.nextCursor);
    NotFoundIsFresh(e.tenant, tenant, db.nextCursor, e);
    BumpKeeps(db);
    PutTxnKeeps(db.(nextCursor := db.nextCursor + 1), id, Append(e, bytes, Inserted(db.nextCursor)));
  }

  lemma {:induction false} InsertDuplicateKeeps(db: Db, id: nat, e: Envelope, bytes: nat, cursor: nat)
    requires Inv(db) && id in db.txns && db.txns[id] == Append(e, bytes, AgentChecked)
    requires e.tenant in db.tenants && Stored(db.tenants[e.tenant].log, e, cursor)
    ensures Inv(PutTxn(db.(nextCursor := db.nextCursor + 1), id, Append(e, bytes, Duplicate(cursor))))
  {
    assert TxnOk(db, db.txns[id]);
    BumpKeeps(db);
    PutTxnKeeps(db.(nextCursor := db.nextCursor + 1), id, Append(e, bytes, Duplicate(cursor)));
  }

  lemma {:induction false} InsertConflictKeeps(db: Db, id: nat, e: Envelope)
    requires Inv(db) && id in db.txns
    ensures Inv(Respond(EndTxn(db.(nextCursor := db.nextCursor + 1), id), e, Rejected(SequenceConflict)))
  {
    var bumped := db.(nextCursor := db.nextCursor + 1);
    BumpKeeps(db);
    EndTxnKeeps(bumped, id);
    RespondKeeps(EndTxn(bumped, id), e, Rejected(SequenceConflict));
  }

  lemma {:induction false} InsertAsKeeps(db: Db, id: nat, e: Envelope, bytes: nat)
    requires Inv(db) && id in db.txns && db.txns[id] == Append(e, bytes, AgentChecked) && e.tenant in db.tenants
    ensures Inv(StepInsert(db, id))
  {
    var found := Existing(db.tenants[e.tenant].log, e);
    var bumped := db.(nextCursor := db.nextCursor + 1);
    if found.None? {
      assert StepInsert(db, id) == PutTxn(bumped, id, Append(e, bytes, Inserted(db.nextCursor)));
      InsertFreshKeeps(db, id, e, bytes);
    } else if found.value.envelope.payload == e.payload {
      assert StepInsert(db, id) == PutTxn(bumped, id, Append(e, bytes, Duplicate(found.value.cursor)));
      FoundIsStored(db.tenants[e.tenant].log, e);
      InsertDuplicateKeeps(db, id, e, bytes, found.value.cursor);
    } else {
      assert StepInsert(db, id) == Respond(EndTxn(bumped, id), e, Rejected(SequenceConflict));
      InsertConflictKeeps(db, id, e);
    }
  }

  lemma {:induction false} InsertKeeps(db: Db, id: nat)
    requires Inv(db)
    ensures Inv(StepInsert(db, id))
  {
    if id in db.txns && db.txns[id].Append? && db.txns[id].phase.AgentChecked? && TenantOf(db.txns[id]) in db.tenants {
      InsertAsKeeps(db, id, db.txns[id].envelope, db.txns[id].bytes);
    } else {
      assert StepInsert(db, id) == db;
    }
  }

  lemma {:induction false} ProjectKeeps(db: Db, id: nat)
    requires Inv(db)
    ensures Inv(StepProject(db, id))
  {
    if id in db.txns && db.txns[id].Append? && db.txns[id].phase.Inserted? {
      var Append(e, bytes, Inserted(cursor)) := db.txns[id];
      assert TxnOk(db, db.txns[id]);
      assert TenantOk(e.tenant, db.tenants[e.tenant], db.nextCursor);
      ProjectionSnoc(db.tenants[e.tenant].log, Row(cursor, e, bytes));
      PutTxnKeeps(db, id, StepProject(db, id).txns[id]);
    }
  }

  lemma {:induction false} CheckCapacityKeeps(db: Db, id: nat)
    requires Inv(db)
    ensures Inv(StepCheckCapacity(db, id))
  {
    if id in db.txns && db.txns[id].Enrol? && db.txns[id].stage.EnrolLocked? {
      var Enrol(t, a, _) := db.txns[id];
      assert TxnOk(db, db.txns[id]);
      if a !in db.tenants[t].agents && |db.tenants[t].agents| >= MAX_AGENTS_PER_TENANT {
        EndTxnKeeps(db, id);
      } else {
        PutTxnKeeps(db, id, Enrol(t, a, CapacityChecked));
      }
    }
  }

  lemma {:induction false} InsertAgentKeeps(db: Db, id: nat)
    requires Inv(db)
    ensures Inv(StepInsertAgent(db, id))
  {
    if id in db.txns && db.txns[id].Enrol? && db.txns[id].stage.CapacityChecked? {
      assert TxnOk(db, db.txns[id]);
      PutTxnKeeps(db, id, db.txns[id].(stage := AgentInserted));
    }
  }

  lemma {:induction false} CommitKeeps(db: Db, id: nat)
    requires Inv(db)
    ensures Inv(StepCommit(db, id))
  {
    if id in db.txns {
      assert TxnOk(db, db.txns[id]);
      match db.txns[id]
      case Append(e, bytes, Projected(_, _)) => CommitAppendKeeps(db, id);
      case Append(e, bytes, Duplicate(cursor)) =>
        EndTxnKeeps(db, id);
        RespondKeeps(EndTxn(db, id), e, Committed(cursor, false));
      case Enrol(_, _, AgentInserted) => CommitEnrolKeeps(db, id);
      case _ =>
    }
  }

  lemma {:induction false} RollbackKeeps(db: Db, id: nat)
    requires Inv(db)
    ensures Inv(StepRollback(db, id))
  {
    if id in db.txns {
      EndTxnKeeps(db, id);
      if db.txns[id].Append? {
        RespondKeeps(EndTxn(db, id), db.txns[id].envelope, Rejected(RolledBack));
      }
    }
  }

  lemma {:induction false} OpenReaderKeeps(db: Db, r: nat, t: TenantId, start: nat)
    requires Inv(db)
    ensures Inv(StepOpenReader(db, r, t, start))
  {
    if r !in db.readers {
      assert After(LogOf(db, t), start) == [] + After(LogOf(db, t), start);
      PutReaderKeeps(db, r, Reader(t, start, start, [], []));
    }
  }

  lemma {:induction false} DisconnectKeeps(db: Db, r: nat)
    requires Inv(db)
    ensures Inv(StepDisconnect(db, r))
  {
    if r in db.readers {
      assert ReaderOk(LogOf(db, db.readers[r].tenant), db.readers[r]);
      PutReaderKeeps(db, r, db.readers[r].(buffer := []));
    }
  }

  lemma {:induction false} QueryKeeps(db: Db, r: nat, rows: nat, bytes: nat)
    requires Inv(db)
    ensures Inv(StepQuery(db, r, rows, bytes))
  {
    if r in db.readers && db.readers[r].buffer == [] && db.readers[r].tenant in db.tenants {
      var reader := db.readers[r];
      var log := LogOf(db, reader.tenant);
      assert ReaderOk(log, reader);
      assert TenantOk(reader.tenant, db.tenants[reader.tenant], db.nextCursor);
      LoadIsPage(log, reader.cursor, rows, bytes);
      PutReaderKeeps(db, r, reader.(buffer := Load(log, reader.cursor, rows, bytes)));
    }
  }

  lemma {:induction false} DeliverReaderOk(log: seq<Row>, reader: Reader)
    requires Sorted(log) && ReaderOk(log, reader) && reader.buffer != []
    ensures var row := reader.buffer[0];
      ReaderOk(log, reader.(cursor := row.cursor, received := reader.received + [row], buffer := reader.buffer[1..]))
  {
    var later := After(log, reader.cursor);
    HeadOfAfter(log, reader.cursor);
    PrefixTail(reader.buffer, later);
    assert reader.received + later == reader.received + [reader.buffer[0]] + later[1..];
  }

  lemma {:induction false} DeliverKeeps(db: Db, r: nat)
    requires Inv(db)
    ensures Inv(StepDeliver(db, r))
  {
    if r in db.readers && db.readers[r].buffer != [] {
      var reader := db.readers[r];
      var log := LogOf(db, reader.tenant);
      assert ReaderOk(log, reader);
      assert Sorted(log) by {
        if reader.tenant in db.tenants {
          assert TenantOk(reader.tenant, db.tenants[reader.tenant], db.nextCursor);
        }
      }
      DeliverReaderOk(log, reader);
      PutReaderKeeps(db, r, StepDeliver(db, r).readers[r]);
    }
  }

  /** The steps of an append, and roll-back, leave the tables as they are. */
  predicate AppendStep(e: Event) {
    e.BeginAppend? || e.Lock? || e.CheckAgent? || e.Insert? || e.Project? || e.Rollback?
  }

  lemma {:induction false} AppendStepKeeps(db: Db, e: Event)
    requires Inv(db) && AppendStep(e)
    ensures Inv(Step(db, e))
  {
    match e
    case BeginAppend(id, envelope, bytes) =>
      assert Step(db, e) == StepBeginAppend(db, id, envelope, bytes);
      BeginAppendKeeps(db, id, envelope, bytes);
    case Lock(id) =>
      assert Step(db, e) == StepLock(db, id);
      LockKeeps(db, id);
    case CheckAgent(id) =>
      assert Step(db, e) == StepCheckAgent(db, id);
      CheckAgentKeeps(db, id);
    case Insert(id) =>
      assert Step(db, e) == StepInsert(db, id);
      InsertKeeps(db, id);
    case Project(id) =>
      assert Step(db, e) == StepProject(db, id);
      ProjectKeeps(db, id);
    case Rollback(id) =>
      assert Step(db, e) == StepRollback(db, id);
      RollbackKeeps(db, id);
  }

  predicate ReaderStep(e: Event) {
    e.OpenReader? || e.Query? || e.Deliver? || e.Disconnect?
  }

  lemma {:induction false} ReaderStepKeeps(db: Db, e: Event)
    requires Inv(db) && ReaderStep(e)
    ensures Inv(Step(db, e))
  {
    match e
    case OpenReader(r, t, start) =>
      assert Step(db, e) == StepOpenReader(db, r, t, start);
      OpenReaderKeeps(db, r, t, start);
    case Query(r, rows, bytes) =>
      assert Step(db, e) == StepQuery(db, r, rows, bytes);
      QueryKeeps(db, r, rows, bytes);
    case Deliver(r) =>
      assert Step(db, e) == StepDeliver(db, r);
      DeliverKeeps(db, r);
    case Disconnect(r) =>
      assert Step(db, e) == StepDisconnect(db, r);
      DisconnectKeeps(db, r);
  }

  predicate AdminStep(e: Event) {
    e.CreateTenant? || e.SetTenantEnabled? || e.SetAgentEnabled?
  }

  lemma {:induction false} AdminStepKeeps(db: Db, e: Event)
    requires Inv(db) && AdminStep(e)
    ensures Inv(Step(db, e))
  {
    match e
    case CreateTenant(t) => CreateTenantKeeps(db, t);
    case SetTenantEnabled(t, enabled) => SetTenantEnabledKeeps(db, t, enabled);
    case SetAgentEnabled(t, a, enabled) => SetAgentEnabledKeeps(db, t, a, enabled);
  }

  lemma {:induction false} EnrolStepKeeps(db: Db, e: Event)
    requires Inv(db) && (e.BeginEnrol? || e.CheckCapacity? || e.InsertAgent? || e.Commit?)
    ensures Inv(Step(db, e))
  {
    match e
    case BeginEnrol(id, t, a) =>
      assert Step(db, e) == StepBeginEnrol(db, id, t, a);
      BeginEnrolKeeps(db, id, t, a);
    case CheckCapacity(id) =>
      assert Step(db, e) == StepCheckCapacity(db, id);
      CheckCapacityKeeps(db, id);
    case InsertAgent(id) =>
      assert Step(db, e) == StepInsertAgent(db, id);
      InsertAgentKeeps(db, id);
    case Commit(id) =>
      assert Step(db, e) == StepCommit(db, id);
      CommitKeeps(db, id);
  }

  lemma {:induction false} StepKeeps(db: Db, e: Event)
    requires Inv(db)
    ensures Inv(Step(db, e))
  {
    if AppendStep(e) {
      AppendStepKeeps(db, e);
    } else if ReaderStep(e) {
      ReaderStepKeeps(db, e);
    } else if AdminStep(e) {
      AdminStepKeeps(db, e);
    } else {
      EnrolStepKeeps(db, e);
    }
  }

  lemma {:induction false} RunKeeps(db: Db, events: seq<Event>)
    requires Inv(db)
    ensures Inv(Run(db, events))
    decreases |events|
  {
    if events != [] {
      RunKeeps(db, events[..|events| - 1]);
      StepKeeps(Run(db, events[..|events| - 1]), events[|events| - 1]);
    }
  }
}
