/**
 * The tenant event log under concurrency. Append and enrolment transactions and replay
 * readers interleave step by step over one shared database; any transaction may roll
 * back at any step. A run is a sequence of steps, and the theorems hold of every run.
 */
module EventLog {
  import opened Numbers
  import Projection
  import opened Replay
  import opened Signals

  const MAX_AGENTS_PER_TENANT: nat := 1_000

  /** The advisory lock key of a tenant: the two halves of its UUID, combined. */
  function LockKey(t: TenantId): bv64 {
    t.high ^ t.low
  }

  datatype ProjectionRow = ProjectionRow(lastCursor: nat, view: Projection.View)

  /** The committed rows that carry one tenant id. `log` is in commit order. */
  datatype Tenant = Tenant(
    enabled: bool,
    agents: map<AgentId, bool>,
    log: seq<Row>,
    projection: Option<ProjectionRow>
  )

  datatype AppendPhase =
    | TenantChecked
    | Locked
    | AgentChecked
    | Inserted(cursor: nat)
    | Projected(cursor: nat, projection: ProjectionRow)
    | Duplicate(cursor: nat)

  datatype EnrolPhase = EnrolTenantChecked | EnrolLocked | CapacityChecked | AgentInserted

  datatype Txn =
    | Append(envelope: Envelope, bytes: nat, phase: AppendPhase)
    | Enrol(tenant: TenantId, agent: AgentId, stage: EnrolPhase)

  datatype Error =
    | TenantNotFound
    | TenantDisabled
    | AgentNotEnrolled
    | AgentDisabled
    | SequenceConflict
    | RolledBack

  datatype Outcome = Committed(cursor: nat, inserted: bool) | Rejected(error: Error)

  datatype Reply = Reply(envelope: Envelope, outcome: Outcome)

  /** A replay client: what it received since `start`, and the page still being sent to it. */
  datatype Reader = Reader(tenant: TenantId, start: nat, cursor: nat, received: seq<Row>, buffer: seq<Row>)

  datatype Db = Db(
    tenants: map<TenantId, Tenant>,
    nextCursor: nat,
    txns: map<nat, Txn>,
    readers: map<nat, Reader>,
    replies: seq<Reply>
  )

  const INIT := Db(map[], 1, map[], map[], [])

  datatype Event =
    | CreateTenant(tenant: TenantId)
    | SetTenantEnabled(tenant: TenantId, enabled: bool)
    | SetAgentEnabled(tenant: TenantId, agent: AgentId, enabled: bool)
    | BeginAppend(id: nat, envelope: Envelope, bytes: nat)
    | BeginEnrol(id: nat, tenant: TenantId, agent: AgentId)
    | Lock(id: nat)
    | CheckAgent(id: nat)
    | Insert(id: nat)
    | Project(id: nat)
    | CheckCapacity(id: nat)
    | InsertAgent(id: nat)
    | Commit(id: nat)
    | Rollback(id: nat)
    | OpenReader(reader: nat, tenant: TenantId, start: nat)
    | Query(reader: nat, rows: nat, bytes: nat)
    | Deliver(reader: nat)
    | Disconnect(reader: nat)

  // ---------------------------------------------------------------------------
  // Steps. A step that is not enabled leaves the database as it is.
  // ---------------------------------------------------------------------------

  function TenantOf(txn: Txn): TenantId {
    if txn.Append? then txn.envelope.tenant else txn.tenant
  }

  /** Transaction-scoped advisory locks are held from acquisition to the end of the transaction. */
  predicate Holds(txn: Txn) {
    match txn
    case Append(_, _, phase) => !phase.TenantChecked?
    case Enrol(_, _, stage) => !stage.EnrolTenantChecked?
  }

  /** A shared row lock on the agent is held once the agent has been checked. */
  predicate SharesAgent(txn: Txn) {
    match txn
    case Append(_, _, phase) => !phase.TenantChecked? && !phase.Locked?
    case Enrol(_, _, stage) => stage.AgentInserted?
  }

  function AgentOf(txn: Txn): AgentId {
    if txn.Append? then txn.envelope.agent else txn.agent
  }

  predicate LockFree(db: Db, key: bv64) {
    forall i :: i in db.txns && Holds(db.txns[i]) ==> LockKey(TenantOf(db.txns[i])) != key
  }

  function PutTxn(db: Db, id: nat, txn: Txn): Db {
    db.(txns := db.txns[id := txn])
  }

  function EndTxn(db: Db, id: nat): Db {
    db.(txns := db.txns - {id})
  }

  function Respond(db: Db, envelope: Envelope, outcome: Outcome): Db {
    db.(replies := db.replies + [Reply(envelope, outcome)])
  }

  function StepCreateTenant(db: Db, t: TenantId): Db {
    if t in db.tenants then db else db.(tenants := db.tenants[t := Tenant(true, map[], [], None)])
  }

  /** Blocked by the shared lock that every open transaction of the tenant holds on the tenant row. */
  function StepSetTenantEnabled(db: Db, t: TenantId, enabled: bool): Db {
    if t !in db.tenants || exists i :: i in db.txns && TenantOf(db.txns[i]) == t then db
    else db.(tenants := db.tenants[t := db.tenants[t].(enabled := enabled)])
  }

  function StepSetAgentEnabled(db: Db, t: TenantId, a: AgentId, enabled: bool): Db {
    if t !in db.tenants || !db.tenants[t].enabled || a !in db.tenants[t].agents then db
    else if exists i :: i in db.txns && SharesAgent(db.txns[i]) && TenantOf(db.txns[i]) == t && AgentOf(db.txns[i]) == a
    then db
    else db.(tenants := db.tenants[t := db.tenants[t].(agents := db.tenants[t].agents[a := enabled])])
  }

  function StepBeginAppend(db: Db, id: nat, e: Envelope, bytes: nat): Db {
    if id in db.txns then db
    else if e.tenant !in db.tenants then Respond(db, e, Rejected(TenantNotFound))
    else if !db.tenants[e.tenant].enabled then Respond(db, e, Rejected(TenantDisabled))
    else PutTxn(db, id, Append(e, bytes, TenantChecked))
  }

  function StepBeginEnrol(db: Db, id: nat, t: TenantId, a: AgentId): Db {
    if id in db.txns || t !in db.tenants || !db.tenants[t].enabled then db
    else PutTxn(db, id, Enrol(t, a, EnrolTenantChecked))
  }

  function StepLock(db: Db, id: nat): Db {
    if id !in db.txns || Holds(db.txns[id]) || !LockFree(db, LockKey(TenantOf(db.txns[id]))) then db
    else match db.txns[id]
      case Append(e, bytes, _) => PutTxn(db, id, Append(e, bytes, Locked))
      case Enrol(t, a, _) => PutTxn(db, id, Enrol(t, a, EnrolLocked))
  }

  function StepCheckAgent(db: Db, id: nat): Db {
    if id !in db.txns || !db.txns[id].Append? || !db.txns[id].phase.Locked? then db else
      var Append(e, bytes, _) := db.txns[id];
      if e.tenant !in db.tenants || e.agent !in db.tenants[e.tenant].agents then
        Respond(EndTxn(db, id), e, Rejected(AgentNotEnrolled))
      else if !db.tenants[e.tenant].agents[e.agent] then
        Respond(EndTxn(db, id), e, Rejected(AgentDisabled))
      else
        PutTxn(db, id, Append(e, bytes, AgentChecked))
  }

  /** The committed row with the key of `e`, if there is one. */
  function Existing(log: seq<Row>, e: Envelope): Option<Row> {
    if log == [] then None
    else if SameKey(log[|log| - 1].envelope, e) then Some(log[|log| - 1])
    else Existing(log[..|log| - 1], e)
  }

  /** The identity column advances whether or not the insert meets a conflicting row. */
  function StepInsert(db: Db, id: nat): Db {
    if id !in db.txns || !db.txns[id].Append? || !db.txns[id].phase.AgentChecked?
      || TenantOf(db.txns[id]) !in db.tenants
    then db else
      var Append(e, bytes, _) := db.txns[id];
      var bumped := db.(nextCursor := db.nextCursor + 1);
      match Existing(db.tenants[e.tenant].log, e)
      case None => PutTxn(bumped, id, Append(e, bytes, Inserted(db.nextCursor)))
      case Some(row) =>
        if row.envelope.payload == e.payload then PutTxn(bumped, id, Append(e, bytes, Duplicate(row.cursor)))
        else Respond(EndTxn(bumped, id), e, Rejected(SequenceConflict))
  }

  function NextProjection(before: Option<ProjectionRow>, cursor: nat, e: Envelope): ProjectionRow {
    var row := if before.None? then ProjectionRow(0, Projection.EMPTY) else before.value;
    ProjectionRow(Max(row.lastCursor, cursor), Projection.Observed(row.view, e))
  }

  function StepProject(db: Db, id: nat): Db {
    if id !in db.txns || !db.txns[id].Append? || !db.txns[id].phase.Inserted? || TenantOf(db.txns[id]) !in db.tenants
    then db else
      var Append(e, bytes, Inserted(cursor)) := db.txns[id];
      PutTxn(db, id, Append(e, bytes, Projected(cursor, NextProjection(db.tenants[e.tenant].projection, cursor, e))))
  }

  function StepCheckCapacity(db: Db, id: nat): Db {
    if id !in db.txns || !db.txns[id].Enrol? || !db.txns[id].stage.EnrolLocked? || TenantOf(db.txns[id]) !in db.tenants
    then db else
      var Enrol(t, a, _) := db.txns[id];
      if a !in db.tenants[t].agents && |db.tenants[t].agents| >= MAX_AGENTS_PER_TENANT then EndTxn(db, id)
      else PutTxn(db, id, Enrol(t, a, CapacityChecked))
  }

  function StepInsertAgent(db: Db, id: nat): Db {
    if id !in db.txns || !db.txns[id].Enrol? || !db.txns[id].stage.CapacityChecked? then db
    else PutTxn(db, id, db.txns[id].(stage := AgentInserted))
  }

  function CommitAppend(db: Db, e: Envelope, row: Row, projection: ProjectionRow): Db
    requires e.tenant in db.tenants
  {
    var t := db.tenants[e.tenant];
    Respond(
      db.(tenants := db.tenants[e.tenant := t.(log := t.log + [row], projection := Some(projection))]),
      e, Committed(row.cursor, true))
  }

  function CommitEnrol(db: Db, t: TenantId, a: AgentId): Db
    requires t in db.tenants
  {
    db.(tenants := db.tenants[t := db.tenants[t].(agents := db.tenants[t].agents[a := true])])
  }

  function StepCommit(db: Db, id: nat): Db {
    if id !in db.txns || TenantOf(db.txns[id]) !in db.tenants then db
    else match db.txns[id]
      case Append(e, bytes, Projected(cursor, projection)) =>
        CommitAppend(EndTxn(db, id), e, Row(cursor, e, bytes), projection)
      case Append(e, bytes, Duplicate(cursor)) => Respond(EndTxn(db, id), e, Committed(cursor, false))
      case Enrol(t, a, AgentInserted) => CommitEnrol(EndTxn(db, id), t, a)
      case _ => db
  }

  function StepRollback(db: Db, id: nat): Db {
    if id !in db.txns then db
    else match db.txns[id]
      case Append(e, _, _) => Respond(EndTxn(db, id), e, Rejected(RolledBack))
      case Enrol(_, _, _) => EndTxn(db, id)
  }

  function PutReader(db: Db, r: nat, reader: Reader): Db {
    db.(readers := db.readers[r := reader])
  }

  /** One snapshot of the committed rows, taken when the previous page has been sent. */
  function StepQuery(db: Db, r: nat, rows: nat, bytes: nat): Db {
    if r !in db.readers || db.readers[r].buffer != [] then db else
      var reader := db.readers[r];
      if reader.tenant !in db.tenants || !db.tenants[reader.tenant].enabled then db
      else PutReader(db, r, reader.(buffer := Load(db.tenants[reader.tenant].log, reader.cursor, rows, bytes)))
  }

  function StepDeliver(db: Db, r: nat): Db {
    if r !in db.readers || db.readers[r].buffer == [] then db else
      var reader := db.readers[r];
      var row := reader.buffer[0];
      PutReader(db, r, reader.(cursor := row.cursor, received := reader.received + [row], buffer := reader.buffer[1..]))
  }

  function StepOpenReader(db: Db, r: nat, t: TenantId, start: nat): Db {
    if r in db.readers then db else PutReader(db, r, Reader(t, start, start, [], []))
  }

  function StepDisconnect(db: Db, r: nat): Db {
    if r !in db.readers then db else PutReader(db, r, db.readers[r].(buffer := []))
  }

  function Step(db: Db, e: Event): Db {
    match e
    case CreateTenant(t) => StepCreateTenant(db, t)
    case SetTenantEnabled(t, enabled) => StepSetTenantEnabled(db, t, enabled)
    case SetAgentEnabled(t, a, enabled) => StepSetAgentEnabled(db, t, a, enabled)
    case BeginAppend(id, envelope, bytes) => StepBeginAppend(db, id, envelope, bytes)
    case BeginEnrol(id, t, a) => StepBeginEnrol(db, id, t, a)
    case Lock(id) => StepLock(db, id)
    case CheckAgent(id) => StepCheckAgent(db, id)
    case Insert(id) => StepInsert(db, id)
    case Project(id) => StepProject(db, id)
    case CheckCapacity(id) => StepCheckCapacity(db, id)
    case InsertAgent(id) => StepInsertAgent(db, id)
    case Commit(id) => StepCommit(db, id)
    case Rollback(id) => StepRollback(db, id)
    case OpenReader(r, t, start) => StepOpenReader(db, r, t, start)
    case Query(r, rows, bytes) => StepQuery(db, r, rows, bytes)
    case Deliver(r) => StepDeliver(db, r)
    case Disconnect(r) => StepDisconnect(db, r)
  }

  function Run(db: Db, events: seq<Event>): Db {
    if events == [] then db else Step(Run(db, events[..|events| - 1]), events[|events| - 1])
  }

  // ---------------------------------------------------------------------------
  // The invariant
  // ---------------------------------------------------------------------------

  function Envelopes(log: seq<Row>): seq<Envelope> {
    if log == [] then [] else Envelopes(log[..|log| - 1]) + [log[|log| - 1].envelope]
  }

  /** The projection row that a log calls for. */
  function ProjectionOf(log: seq<Row>): Option<ProjectionRow> {
    if log == [] then None
    else Some(ProjectionRow(log[|log| - 1].cursor, Projection.Fold(Envelopes(log))))
  }

  predicate KeysUnique(log: seq<Row>) {
    forall i, j :: 0 <= i < j < |log| ==> !SameKey(log[i].envelope, log[j].envelope)
  }

  predicate RowOk(t: TenantId, agents: set<AgentId>, nextCursor: nat, row: Row) {
    row.envelope.tenant == t && row.envelope.agent in agents && row.cursor < nextCursor
  }

  predicate TenantOk(t: TenantId, tenant: Tenant, nextCursor: nat) {
    && Sorted(tenant.log)
    && KeysUnique(tenant.log)
    && (forall i :: 0 <= i < |tenant.log| ==> RowOk(t, tenant.agents.Keys, nextCursor, tenant.log[i]))
    && |tenant.agents| <= MAX_AGENTS_PER_TENANT
    && tenant.projection == ProjectionOf(tenant.log)
  }

  /** No committed row has the key of `e`, and all committed cursors are below `cursor`. */
  predicate FreshRow(log: seq<Row>, e: Envelope, cursor: nat) {
    forall i :: 0 <= i < |log| ==> log[i].cursor < cursor && !SameKey(log[i].envelope, e)
  }

  /** The log holds a row at `cursor` that stores exactly the request `e`. */
  predicate Stored(log: seq<Row>, e: Envelope, cursor: nat) {
    exists i ::
      && 0 <= i < |log| && log[i].cursor == cursor
      && SameKey(log[i].envelope, e) && log[i].envelope.payload == e.payload
  }

  predicate AppendOk(tenant: Tenant, e: Envelope, bytes: nat, phase: AppendPhase, nextCursor: nat) {
    && (!phase.TenantChecked? && !phase.Locked? ==> e.agent in tenant.agents && tenant.agents[e.agent])
    && match phase
       case Inserted(cursor) => cursor < nextCursor && FreshRow(tenant.log, e, cursor)
       case Projected(cursor, projection) =>
         && cursor < nextCursor
         && FreshRow(tenant.log, e, cursor)
         && ProjectionOf(tenant.log + [Row(cursor, e, bytes)]) == Some(projection)
       case Duplicate(cursor) => Stored(tenant.log, e, cursor)
       case _ => true
  }

  predicate EnrolOk(tenant: Tenant, a: AgentId, stage: EnrolPhase) {
    stage.CapacityChecked? || stage.AgentInserted? ==>
      a in tenant.agents || |tenant.agents| < MAX_AGENTS_PER_TENANT
  }

  predicate TxnOk(db: Db, txn: Txn) {
    && TenantOf(txn) in db.tenants
    && db.tenants[TenantOf(txn)].enabled
    && match txn
       case Append(e, bytes, phase) => AppendOk(db.tenants[e.tenant], e, bytes, phase, db.nextCursor)
       case Enrol(t, a, stage) => EnrolOk(db.tenants[t], a, stage)
  }

  predicate LocksExclude(db: Db) {
    forall i, j :: i in db.txns && j in db.txns && i != j && Holds(db.txns[i]) && Holds(db.txns[j]) ==>
      LockKey(TenantOf(db.txns[i])) != LockKey(TenantOf(db.txns[j]))
  }

  function LogOf(db: Db, t: TenantId): seq<Row> {
    if t in db.tenants then db.tenants[t].log else []
  }

  /**
   * What was received, then what a query from the current cursor would find, is the
   * whole replay from the start; the page in flight is the beginning of that query.
   */
  predicate ReaderOk(log: seq<Row>, r: Reader) {
    && r.start <= r.cursor
    && (r.cursor == r.start || exists i :: 0 <= i < |log| && log[i].cursor == r.cursor)
    && After(log, r.start) == r.received + After(log, r.cursor)
    && r.buffer <= After(log, r.cursor)
  }

  predicate ReplyOk(db: Db, reply: Reply) {
    reply.outcome.Committed? ==> Stored(LogOf(db, reply.envelope.tenant), reply.envelope, reply.outcome.cursor)
  }

  predicate IsInsert(reply: Reply) {
    reply.outcome.Committed? && reply.outcome.inserted
  }

  predicate SameRequest(a: Envelope, b: Envelope) {
    a.tenant == b.tenant && SameKey(a, b)
  }

  /** An insertion is the first success that is reported of a request. */
  predicate InsertedFirst(replies: seq<Reply>) {
    forall i, j :: 0 <= i < j < |replies| && replies[i].outcome.Committed? && IsInsert(replies[j]) ==>
      !SameRequest(replies[i].envelope, replies[j].envelope)
  }

  ghost predicate TenantsOk(db: Db) {
    forall t :: t in db.tenants ==> TenantOk(t, db.tenants[t], db.nextCursor)
  }

  ghost predicate TxnsOk(db: Db) {
    forall i :: i in db.txns ==> TxnOk(db, db.txns[i])
  }

  ghost predicate ReadersOk(db: Db) {
    forall r :: r in db.readers ==> ReaderOk(LogOf(db, db.readers[r].tenant), db.readers[r])
  }

  ghost predicate RepliesOk(db: Db) {
    (forall i :: 0 <= i < |db.replies| ==> ReplyOk(db, db.replies[i])) && InsertedFirst(db.replies)
  }

  ghost predicate Inv(db: Db) {
    TenantsOk(db) && TxnsOk(db) && LocksExclude(db) && ReadersOk(db) && RepliesOk(db)
  }
}
