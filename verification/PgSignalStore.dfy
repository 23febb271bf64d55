/**
 * The store's append and enrolment calls, each running its whole transaction. A call is a
 * run of the event log machine, so every theorem about runs applies to it.
 */
module PgSignalStore {
  import opened EventLog
  import opened EventLogSafety
  import opened Signals

  /** Why an envelope is refused before anything is written. */
  function Refusal(db: Db, e: Envelope): Option<Error> {
    if e.tenant !in db.tenants then Some(TenantNotFound)
    else if !db.tenants[e.tenant].enabled then Some(TenantDisabled)
    else if e.agent !in db.tenants[e.tenant].agents then Some(AgentNotEnrolled)
    else if !db.tenants[e.tenant].agents[e.agent] then Some(AgentDisabled)
    else None
  }

  /** The tenant and the agent are known and enabled. */
  predicate Admitted(db: Db, e: Envelope) {
    Refusal(db, e).None?
  }

  predicate HasKey(log: seq<Row>, e: Envelope) {
    exists i :: 0 <= i < |log| && SameKey(log[i].envelope, e)
  }

  /** Some run of the event log machine leads from `a` to `b`. */
  ghost predicate Reaches(a: Db, b: Db) {
    exists events :: Run(a, events) == b
  }

  lemma {:induction false} ReachesSelf(db: Db)
    ensures Reaches(db, db)
  {
    assert Run(db, []) == db;
  }

  lemma {:induction false} ReachesStep(a: Db, b: Db, e: Event)
    requires Reaches(a, b)
    ensures Reaches(a, Step(b, e))
  {
    var events :| Run(a, events) == b;
    assert (events + [e])[..|events|] == events;
    assert Run(a, events + [e]) == Step(b, e);
  }

  lemma {:induction false} ReachesKeeps(a: Db, b: Db)
    requires Inv(a) && Reaches(a, b)
    ensures Inv(b)
  {
    var events :| Run(a, events) == b;
    RunKeeps(a, events);
  }

  lemma {:induction false} LockStep(db: Db, id: nat, e: Envelope, bytes: nat)
    requires id !in db.txns && LockFree(db, LockKey(e.tenant))
    ensures StepLock(PutTxn(db, id, Append(e, bytes, TenantChecked)), id) == PutTxn(db, id, Append(e, bytes, Locked))
  {
    var db' := PutTxn(db, id, Append(e, bytes, TenantChecked));
    assert LockFree(db', LockKey(e.tenant));
    assert db'.txns[id := Append(e, bytes, Locked)] == db.txns[id := Append(e, bytes, Locked)];
  }

  lemma {:induction false} CheckAgentStep(db: Db, id: nat, e: Envelope, bytes: nat)
    requires id !in db.txns && e.tenant in db.tenants && db.tenants[e.tenant].enabled
    ensures var db' := StepCheckAgent(PutTxn(db, id, Append(e, bytes, Locked)), id);
      if Admitted(db, e) then db' == PutTxn(db, id, Append(e, bytes, AgentChecked))
      else id !in db'.txns && db' == Respond(db, e, Rejected(Refusal(db, e).value))
  {
    var held := db.txns[id := Append(e, bytes, Locked)];
    assert held - {id} == db.txns;
    assert held[id := Append(e, bytes, AgentChecked)] == db.txns[id := Append(e, bytes, AgentChecked)];
  }

  /** An enrolment may add its agent: the agent is known already, or there is room for one more. */
  predicate HasRoom(db: Db, t: TenantId, a: AgentId) {
    && t in db.tenants && db.tenants[t].enabled
    && (a in db.tenants[t].agents || |db.tenants[t].agents| < MAX_AGENTS_PER_TENANT)
  }

  lemma {:induction false} EnrolLockStep(db: Db, id: nat, t: TenantId, a: AgentId)
    requires id !in db.txns && LockFree(db, LockKey(t))
    ensures StepLock(PutTxn(db, id, Enrol(t, a, EnrolTenantChecked)), id) == PutTxn(db, id, Enrol(t, a, EnrolLocked))
  {
    var db' := PutTxn(db, id, Enrol(t, a, EnrolTenantChecked));
    assert LockFree(db', LockKey(t));
    assert db'.txns[id := Enrol(t, a, EnrolLocked)] == db.txns[id := Enrol(t, a, EnrolLocked)];
  }

  /** After the lock, refused exactly for a new agent of a full tenant. */
  lemma {:induction false} CapacityStep(db: Db, id: nat, t: TenantId, a: AgentId)
    requires id !in db.txns && t in db.tenants && db.tenants[t].enabled
    ensures StepCheckCapacity(PutTxn(db, id, Enrol(t, a, EnrolLocked)), id)
         == if HasRoom(db, t, a) then PutTxn(db, id, Enrol(t, a, CapacityChecked)) else db
  {
    var held := db.txns[id := Enrol(t, a, EnrolLocked)];
    assert held - {id} == db.txns;
    assert held[id := Enrol(t, a, CapacityChecked)] == db.txns[id := Enrol(t, a, CapacityChecked)];
  }

  lemma {:induction false} InsertAgentStep(db: Db, id: nat, t: TenantId, a: AgentId)
    requires id !in db.txns && t in db.tenants
    ensures StepInsertAgent(PutTxn(db, id, Enrol(t, a, CapacityChecked)), id)
      == PutTxn(db, id, Enrol(t, a, AgentInserted))
    ensures StepCommit(PutTxn(db, id, Enrol(t, a, AgentInserted)), id) == CommitEnrol(db, t, a)
  {
    var held := db.txns[id := Enrol(t, a, CapacityChecked)];
    assert held[id := Enrol(t, a, AgentInserted)] == db.txns[id := Enrol(t, a, AgentInserted)];
    assert db.txns[id := Enrol(t, a, AgentInserted)] - {id} == db.txns;
  }

  /** From the agent check to the commit of an append. */
  lemma {:induction false} WriteSteps(db: Db, id: nat, e: Envelope, bytes: nat)
    requires id in db.txns && db.txns[id] == Append(e, bytes, AgentChecked) && e.tenant in db.tenants
    ensures
      var inserted := StepInsert(db, id);
      var done := StepCommit(StepProject(inserted, id), id);
      match Existing(db.tenants[e.tenant].log, e)
      case None =>
        && id in inserted.txns && done.nextCursor == db.nextCursor + 1
        && LogOf(done, e.tenant) == db.tenants[e.tenant].log + [Row(db.nextCursor, e, bytes)]
        && (forall t :: t != e.tenant ==> LogOf(done, t) == LogOf(db, t))
        && done.replies == db.replies + [Reply(e, Committed(db.nextCursor, true))]
      case Some(row) =>
        && (id in inserted.txns <==> row.envelope.payload == e.payload)
        && done.nextCursor == db.nextCursor + 1 && done.tenants == db.tenants
        && (id !in inserted.txns ==> done == inserted)
        && done.replies == db.replies + [Reply(e, if row.envelope.payload == e.payload then Committed(row.cursor, false)
                                                  else Rejected(SequenceConflict))]
  {
  }

  /** With unique keys, the row found for a request decides whether the log stores that request. */
  lemma {:induction false} OutcomeByKey(log: seq<Row>, e: Envelope)
    requires KeysUnique(log)
    ensures HasKey(log, e) <==> Existing(log, e).Some?
    ensures Existing(log, e).Some? ==>
      var row := Existing(log, e).value;
      if row.envelope.payload == e.payload then Stored(log, e, row.cursor) else forall c :: !Stored(log, e, c)
  {
    ExistingSpec(log, e);
  }

  /** The tenant is known and enabled: the first check of every call. */
  predicate Open(db: Db, t: TenantId) {
    t in db.tenants && db.tenants[t].enabled
  }

  /** A call is answered, or waits for the tenant's lock. */
  datatype Answer = Answered(outcome: Outcome) | AppendWaits

  datatype Enrolment = Enrolled | EnrolRefused | EnrolWaits

  /**
   * What an append that has the lock does. A refused envelope leaves the tables alone; a
   * repeated one returns the original cursor; a new one adds exactly its row. Every admitted
   * envelope uses up a cursor, stored or not.
   */
  ghost predicate Appended(before: Db, after: Db, e: Envelope, bytes: nat, outcome: Outcome) {
    var log := LogOf(before, e.tenant);
    && after.replies == before.replies + [Reply(e, outcome)]
    && after.nextCursor == before.nextCursor + (if Admitted(before, e) then 1 else 0)
    && (!Admitted(before, e) ==> outcome == Rejected(Refusal(before, e).value) && after.tenants == before.tenants)
    && (Admitted(before, e) && !HasKey(log, e) ==>
          && outcome == Committed(before.nextCursor, true)
          && LogOf(after, e.tenant) == log + [Row(outcome.cursor, e, bytes)]
          && forall t :: t != e.tenant ==> LogOf(after, t) == LogOf(before, t))
    && (Admitted(before, e) && HasKey(log, e) ==>
          && after.tenants == before.tenants
          && ((outcome.Committed? && !outcome.inserted && Stored(log, e, outcome.cursor))
           || (outcome == Rejected(SequenceConflict) && forall c :: !Stored(log, e, c))))
  }

  /** An append that has passed its first check and does not have the lock. */
  predicate Unlocked(db: Db, id: nat, e: Envelope, bytes: nat) {
    id in db.txns && db.txns[id] == Append(e, bytes, TenantChecked)
  }

  lemma {:induction false} EndPut(db: Db, id: nat)
    requires id in db.txns
    ensures PutTxn(EndTxn(db, id), id, db.txns[id]) == db
    ensures Holds(db.txns[id]) || forall key :: LockFree(EndTxn(db, id), key) <==> LockFree(db, key)
  {
    assert (db.txns - {id})[id := db.txns[id]] == db.txns;
    if !Holds(db.txns[id]) {
      forall key ensures LockFree(EndTxn(db, id), key) <==> LockFree(db, key) {}
    }
  }

  lemma {:induction false} PutEnd(db: Db, id: nat, txn: Txn)
    requires id !in db.txns
    ensures EndTxn(PutTxn(db, id, txn), id) == db
  {
    assert db.txns[id := txn] - {id} == db.txns;
  }

  /** The first check refuses the envelope or opens its transaction. */
  lemma {:induction false} BeginStep(db: Db, id: nat, e: Envelope, bytes: nat)
    requires id !in db.txns
    ensures StepBeginAppend(db, id, e, bytes)
         == if Open(db, e.tenant) then PutTxn(db, id, Append(e, bytes, TenantChecked))
            else Respond(db, e, Rejected(Refusal(db, e).value))
  {}

  lemma {:induction false} BeginEnrolStep(db: Db, id: nat, t: TenantId, a: AgentId)
    requires id !in db.txns
    ensures StepBeginEnrol(db, id, t, a) == if Open(db, t) then PutTxn(db, id, Enrol(t, a, EnrolTenantChecked)) else db
  {}

  lemma {:induction false} RefusedIsAppended(db: Db, e: Envelope, bytes: nat)
    requires Refusal(db, e).Some?
    ensures Appended(db, Respond(db, e, Rejected(Refusal(db, e).value)), e, bytes, Rejected(Refusal(db, e).value))
  {}

  class Store {
    var db: Db

    constructor ()
      ensures db == INIT && Inv(db)
    {
      db := INIT;
    }

    method Perform(e: Event, ghost start: Db)
      requires Reaches(start, db)
      modifies this
      ensures db == Step(old(db), e) && Reaches(start, db)
    {
      ReachesStep(start, db, e);
      db := Step(db, e);
    }

    /** The lock and the check of the agent. */
    method Admit(id: nat, e: Envelope, bytes: nat, ghost start: Db) returns (admitted: bool)
      requires Reaches(start, db) && Unlocked(db, id, e, bytes) && Open(db, e.tenant) && LockFree(db, LockKey(e.tenant))
      modifies this
      ensures Reaches(start, db)
      ensures var base := EndTxn(old(db), id);
        && (admitted <==> Admitted(base, e))
        && db == if admitted then PutTxn(base, id, Append(e, bytes, AgentChecked))
                 else Respond(base, e, Rejected(Refusal(base, e).value))
    {
      ghost var base := EndTxn(db, id);
      EndPut(db, id);
      LockStep(base, id, e, bytes);
      Perform(Lock(id), start);
      CheckAgentStep(base, id, e, bytes);
      Perform(CheckAgent(id), start);
      admitted := id in db.txns;
    }

    /** Insert, project and commit; an insertion that ends the transaction leaves nothing to do. */
    method PerformWrites(id: nat, ghost start: Db)
      requires Reaches(start, db)
      modifies this
      ensures Reaches(start, db) && db == StepCommit(StepProject(StepInsert(old(db), id), id), id)
    {
      Perform(Insert(id), start);
      if id in db.txns {
        Perform(Project(id), start);
        Perform(Commit(id), start);
      }
    }

    /** The writes of an admitted append: insert or find the duplicate, project, commit. */
    method Write(id: nat, e: Envelope, bytes: nat, ghost start: Db)
      returns (outcome: Outcome)
      requires Reaches(start, db)
      requires id in db.txns && db.txns[id] == Append(e, bytes, AgentChecked) && e.tenant in db.tenants
      modifies this
      ensures Reaches(start, db)
      ensures db.replies == old(db.replies) + [Reply(e, outcome)]
      ensures db.nextCursor == old(db.nextCursor) + 1
      ensures match Existing(old(db.tenants[e.tenant].log), e)
        case None =>
          && outcome == Committed(old(db.nextCursor), true)
          && LogOf(db, e.tenant) == old(db.tenants[e.tenant].log) + [Row(outcome.cursor, e, bytes)]
          && forall t :: t != e.tenant ==> LogOf(db, t) == LogOf(old(db), t)
        case Some(row) =>
          && db.tenants == old(db.tenants)
          && outcome == if row.envelope.payload == e.payload then Committed(row.cursor, false)
                        else Rejected(SequenceConflict)
    {
      WriteSteps(db, id, e, bytes);
      PerformWrites(id, start);
      outcome := db.replies[|db.replies| - 1].outcome;
    }

    /** The same, said of the request: stored already or not. */
    method WriteOnce(id: nat, e: Envelope, bytes: nat, ghost base: Db, ghost start: Db) returns (outcome: Outcome)
      requires Reaches(start, db) && Admitted(base, e) && KeysUnique(base.tenants[e.tenant].log)
      requires db == PutTxn(base, id, Append(e, bytes, AgentChecked))
      modifies this
      ensures Reaches(start, db) && Appended(base, db, e, bytes, outcome)
    {
      ghost var log := base.tenants[e.tenant].log;
      OutcomeByKey(log, e);
      outcome := Write(id, e, bytes, start);
      assert forall t :: LogOf(PutTxn(base, id, Append(e, bytes, AgentChecked)), t) == LogOf(base, t);
    }

    /** Goes on with an append that may have waited for the tenant's lock. */
    method ResumeAppend(id: nat, e: Envelope, bytes: nat, ghost start: Db) returns (r: Answer)
      requires Reaches(start, db) && Unlocked(db, id, e, bytes)
      requires Open(db, e.tenant) && KeysUnique(LogOf(db, e.tenant))
      modifies this
      ensures Reaches(start, db)
      ensures r.AppendWaits? <==> !LockFree(old(db), LockKey(e.tenant))
      ensures r.AppendWaits? ==> db == old(db)
      ensures r.Answered? ==> Appended(EndTxn(old(db), id), db, e, bytes, r.outcome)
    {
      if !LockFree(db, LockKey(e.tenant)) {
        return AppendWaits;
      }
      ghost var base := EndTxn(db, id);
      var admitted := Admit(id, e, bytes, start);
      if !admitted {
        RefusedIsAppended(base, e, bytes);
        return Answered(db.replies[|db.replies| - 1].outcome);
      }
      var outcome := WriteOnce(id, e, bytes, base, start);
      return Answered(outcome);
    }

    /**
     * Append one envelope beside any other open transactions. The call is answered as the
     * predicate says, or, while another transaction holds the tenant's lock, waits with only
     * its own transaction opened.
     */
    method AppendEnvelope(id: nat, e: Envelope, bytes: nat) returns (r: Answer)
      requires Inv(db) && id !in db.txns
      modifies this
      ensures Inv(db) && Reaches(old(db), db)
      ensures r.AppendWaits? <==> Open(old(db), e.tenant) && !LockFree(old(db), LockKey(e.tenant))
      ensures r.AppendWaits? ==> db == PutTxn(old(db), id, Append(e, bytes, TenantChecked))
      ensures r.Answered? ==> Appended(old(db), db, e, bytes, r.outcome)
    {
      ghost var start := db;
      ReachesSelf(db);
      BeginStep(db, id, e, bytes);
      Perform(BeginAppend(id, e, bytes), start);
      if id !in db.txns {
        RefusedIsAppended(start, e, bytes);
        r := Answered(db.replies[|db.replies| - 1].outcome);
      } else {
        assert KeysUnique(LogOf(db, e.tenant)) by {
          assert TenantOk(e.tenant, start.tenants[e.tenant], start.nextCursor);
        }
        PutEnd(start, id, db.txns[id]);
        EndPut(db, id);
        r := ResumeAppend(id, e, bytes, start);
      }
      ReachesKeeps(start, db);
    }

    method CommitAgent(id: nat, t: TenantId, a: AgentId, ghost base: Db, ghost start: Db)
      requires Reaches(start, db) && id !in base.txns && t in base.tenants
      requires db == PutTxn(base, id, Enrol(t, a, CapacityChecked))
      modifies this
      ensures Reaches(start, db) && db == CommitEnrol(base, t, a)
    {
      InsertAgentStep(base, id, t, a);
      Perform(InsertAgent(id), start);
      Perform(Commit(id), start);
    }

    method FinishEnrol(id: nat, t: TenantId, a: AgentId, ghost base: Db, ghost start: Db) returns (ok: bool)
      requires Reaches(start, db) && id !in base.txns && Open(base, t)
      requires db == PutTxn(base, id, Enrol(t, a, EnrolLocked))
      modifies this
      ensures Reaches(start, db)
      ensures ok <==> HasRoom(base, t, a)
      ensures db == if ok then CommitEnrol(base, t, a) else base
    {
      CapacityStep(base, id, t, a);
      Perform(CheckCapacity(id), start);
      ok := id in db.txns;
      if ok {
        CommitAgent(id, t, a, base, start);
      }
    }

    /** Goes on with an enrolment that may have waited for the tenant's lock. */
    method ResumeEnrol(id: nat, t: TenantId, a: AgentId, ghost start: Db) returns (r: Enrolment)
      requires Reaches(start, db) && id in db.txns && db.txns[id] == Enrol(t, a, EnrolTenantChecked) && Open(db, t)
      modifies this
      ensures Reaches(start, db)
      ensures r.EnrolWaits? <==> !LockFree(old(db), LockKey(t))
      ensures r.EnrolWaits? ==> db == old(db)
      ensures var base := EndTxn(old(db), id);
        && (r.Enrolled? <==> !r.EnrolWaits? && HasRoom(base, t, a))
        && (r.Enrolled? ==> db == CommitEnrol(base, t, a)) && (r.EnrolRefused? ==> db == base)
    {
      if !LockFree(db, LockKey(t)) {
        return EnrolWaits;
      }
      ghost var base := EndTxn(db, id);
      EndPut(db, id);
      EnrolLockStep(base, id, t, a);
      Perform(Lock(id), start);
      var ok := FinishEnrol(id, t, a, base, start);
      return if ok then Enrolled else EnrolRefused;
    }

    /**
     * Enrol one agent beside any other open transactions. An agent that is already enrolled is
     * accepted, and enabled again, even when the tenant is full; a refused call changes nothing.
     */
    method EnrolAgent(id: nat, t: TenantId, a: AgentId) returns (r: Enrolment)
      requires Inv(db) && id !in db.txns
      modifies this
      ensures Inv(db) && Reaches(old(db), db)
      ensures r.EnrolWaits? <==> Open(old(db), t) && !LockFree(old(db), LockKey(t))
      ensures r.EnrolWaits? ==> db == PutTxn(old(db), id, Enrol(t, a, EnrolTenantChecked))
      ensures r.Enrolled? <==> !r.EnrolWaits? && HasRoom(old(db), t, a)
      ensures r.Enrolled? ==> db == CommitEnrol(old(db), t, a)
      ensures r.EnrolRefused? ==> db == old(db)
    {
      ghost var start := db;
      ReachesSelf(db);
      BeginEnrolStep(db, id, t, a);
      var open := Open(db, t);
      Perform(BeginEnrol(id, t, a), start);
      if !open {
        r := EnrolRefused;
      } else {
        PutEnd(start, id, Enrol(t, a, EnrolTenantChecked));
        EndPut(db, id);
        r := ResumeEnrol(id, t, a, start);
      }
      ReachesKeeps(start, db);
    }
  }
}
