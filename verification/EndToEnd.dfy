/**
 * One agent identity, from its durable allocator through its retry loop and an unreliable
 * network to the event log. The network may lose, duplicate, delay and reorder requests and
 * lose replies; the agent may crash at any step; other agents and tenants do as they like.
 */
module EndToEnd {
  import Log = EventLog
  import opened OtlpExport
  import Projection
  import Safety = EventLogSafety
  import Seq = DurableSequence
  import opened Signals
  import Theorems = EventLogTheorems

  datatype Identity = Identity(tenant: TenantId, agent: AgentId)

  /** A request as it travels: the server adds its own event id and receive time. */
  datatype Request = Request(sequence: nat, payload: Signal)

  /** A logical export and how far its retry loop has come. */
  datatype Export = Export(request: Request, attempts: nat, waiting: bool, refreshed: bool, result: Option<bool>)

  datatype System = System(allocator: Seq.State, exports: seq<Export>, network: set<Request>, db: Log.Db)

  const INIT := System(Seq.INIT, [], {}, Log.INIT)

  datatype Event =
    | Sequence(event: Seq.Event, payload: Signal)
    | Send(index: nat)
    | Answer(index: nat, outcome: Attempt, hasAuth: bool)
    | Abandon(index: nat)
    | Server(step: Log.Event)

  predicate Mine(who: Identity, e: Envelope) {
    e.tenant == who.tenant && e.agent == who.agent
  }

  function RequestOf(e: Envelope): Request {
    Request(e.sequence, e.payload)
  }

  /** The server has stored the request and said so. */
  predicate Acknowledged(db: Log.Db, who: Identity, r: Request) {
    exists i :: 0 <= i < |db.replies| && Mine(who, db.replies[i].envelope)
             && RequestOf(db.replies[i].envelope) == r && db.replies[i].outcome.Committed?
  }

  /** An allocator step; when it issues a value, the export that asked for it begins. */
  function StepSequence(s: System, e: Seq.Event, payload: Signal): System {
    var allocator := Seq.Step(s.allocator, e);
    var n := |allocator.issued|;
    if n <= |s.allocator.issued| then s.(allocator := allocator)
    else s.(allocator := allocator,
            exports := s.exports + [Export(Request(allocator.issued[n - 1], payload), 0, false, false, None)])
  }

  function StepSend(s: System, i: nat): System {
    if i >= |s.exports| || s.exports[i].result.Some? || s.exports[i].waiting
      || s.exports[i].attempts >= OTLP_MAX_ATTEMPTS
    then s
    else s.(exports := s.exports[i := s.exports[i].(attempts := s.exports[i].attempts + 1, waiting := true)],
            network := s.network + {s.exports[i].request})
  }

  /** Success is only reported by the server; any failure may be reported at any time. */
  function StepAnswer(s: System, who: Identity, i: nat, outcome: Attempt, hasAuth: bool): System {
    if i >= |s.exports| || s.exports[i].result.Some? then s else
      var x := s.exports[i];
      match outcome
      case Accepted =>
        if x.waiting && Acknowledged(s.db, who, x.request)
        then s.(exports := s.exports[i := x.(result := Some(true))]) else s
      case PrepareFailed => s.(exports := s.exports[i := x.(result := Some(false))])
      case Refused(code) =>
        var decision := RetryDecision(code, hasAuth, x.refreshed);
        if !x.waiting then s
        else if x.attempts == OTLP_MAX_ATTEMPTS || decision == Stop
        then s.(exports := s.exports[i := x.(result := Some(false))])
        else s.(exports := s.exports[i := x.(waiting := false, refreshed := x.refreshed || decision == RefreshAuth)])
  }

  /** Requests of this identity reach the server only through the network, any number of times. */
  function StepServer(s: System, who: Identity, e: Log.Event): System {
    if e.BeginAppend? && Mine(who, e.envelope) && RequestOf(e.envelope) !in s.network then s
    else s.(db := Log.Step(s.db, e))
  }

  function Step(s: System, who: Identity, e: Event): System {
    match e
    case Sequence(event, payload) => StepSequence(s, event, payload)
    case Send(i) => StepSend(s, i)
    case Answer(i, outcome, hasAuth) => StepAnswer(s, who, i, outcome, hasAuth)
    case Abandon(i) =>
      if i >= |s.exports| || s.exports[i].result.Some? then s
      else s.(exports := s.exports[i := s.exports[i].(result := Some(false))])
    case Server(step) => StepServer(s, who, step)
  }

  function Run(who: Identity, events: seq<Event>): System {
    if events == [] then INIT else Step(Run(who, events[..|events| - 1]), who, events[|events| - 1])
  }

  // ---------------------------------------------------------------------------
  // The invariant
  // ---------------------------------------------------------------------------

  ghost predicate TxnsSent(txns: map<nat, Log.Txn>, who: Identity, network: set<Request>) {
    forall i :: i in txns && txns[i].Append? && Mine(who, txns[i].envelope) ==> RequestOf(txns[i].envelope) in network
  }

  ghost predicate RowsSent(log: seq<Row>, who: Identity, network: set<Request>) {
    forall i :: 0 <= i < |log| && Mine(who, log[i].envelope) ==> RequestOf(log[i].envelope) in network
  }

  ghost predicate RepliesSent(replies: seq<Log.Reply>, who: Identity, network: set<Request>) {
    forall i :: 0 <= i < |replies| && Mine(who, replies[i].envelope) ==>
      RequestOf(replies[i].envelope) in network && replies[i].outcome != Log.Rejected(Log.SequenceConflict)
  }

  /** Every trace of the identity in the database stems from a request that was sent, and none was a conflict. */
  ghost predicate FromNetwork(db: Log.Db, who: Identity, network: set<Request>) {
    && TxnsSent(db.txns, who, network)
    && RowsSent(Log.LogOf(db, who.tenant), who, network)
    && RepliesSent(db.replies, who, network)
  }

  predicate RowsOf(log: seq<Row>, t: TenantId) {
    forall k :: 0 <= k < |log| ==> log[k].envelope.tenant == t
  }

  /** One payload per sequence. */
  ghost predicate Functional(network: set<Request>) {
    forall a, b :: a in network && b in network && a.sequence == b.sequence ==> a == b
  }

  predicate ExportOk(db: Log.Db, who: Identity, x: Export) {
    x.attempts <= OTLP_MAX_ATTEMPTS && (x.result == Some(true) ==> Acknowledged(db, who, x.request))
  }

  /** The exports carry the issued values, in order. */
  predicate ExportsMatch(exports: seq<Export>, issued: seq<nat>) {
    |exports| == |issued| && forall i :: 0 <= i < |exports| ==> exports[i].request.sequence == issued[i]
  }

  ghost predicate SentByExports(network: set<Request>, exports: seq<Export>) {
    forall r :: r in network ==> exists i :: 0 <= i < |exports| && exports[i].request == r
  }

  ghost predicate Inv(s: System, who: Identity) {
    && Seq.Inv(s.allocator)
    && Log.Inv(s.db)
    && ExportsMatch(s.exports, s.allocator.issued)
    && SentByExports(s.network, s.exports)
    && FromNetwork(s.db, who, s.network)
    && (forall i :: 0 <= i < |s.exports| ==> ExportOk(s.db, who, s.exports[i]))
  }

  lemma {:induction false} NetworkIsFunctional(s: System)
    requires Seq.Increasing(s.allocator.issued)
    requires ExportsMatch(s.exports, s.allocator.issued) && SentByExports(s.network, s.exports)
    ensures Functional(s.network)
  {
    forall a, b | a in s.network && b in s.network && a.sequence == b.sequence ensures a == b {
      var i :| 0 <= i < |s.exports| && s.exports[i].request == a;
      var j :| 0 <= j < |s.exports| && s.exports[j].request == b;
      assert s.allocator.issued[i] == s.allocator.issued[j];
      assert i == j;
    }
  }

  // ---------------------------------------------------------------------------
  // What one server step adds
  // ---------------------------------------------------------------------------

  predicate NewTxn(e: Log.Event, envelope: Envelope) {
    e.BeginAppend? && e.envelope == envelope
  }

  predicate OfTxn(db: Log.Db, envelope: Envelope) {
    exists i :: i in db.txns && db.txns[i].Append? && db.txns[i].envelope == envelope
  }

  /** The step keeps what the append `i` is about. */
  predicate SameAppend(db: Log.Db, db': Log.Db, i: nat) {
    i in db'.txns && db'.txns[i].Append? ==>
      i in db.txns && db.txns[i].Append? && db.txns[i].envelope == db'.txns[i].envelope
  }

  lemma {:induction false} AppendStepsKeepAppends(db: Log.Db, id: nat, i: nat)
    ensures SameAppend(db, Log.StepLock(db, id), i) && SameAppend(db, Log.StepCheckAgent(db, id), i)
    ensures SameAppend(db, Log.StepProject(db, id), i)
  {}

  lemma {:induction false} InsertKeepsAppends(db: Log.Db, id: nat, i: nat)
    ensures SameAppend(db, Log.StepInsert(db, id), i)
  {}

  lemma {:induction false} OtherStepsKeepAppends(db: Log.Db, id: nat, i: nat)
    ensures SameAppend(db, Log.StepCheckCapacity(db, id), i) && SameAppend(db, Log.StepInsertAgent(db, id), i)
    ensures SameAppend(db, Log.StepCommit(db, id), i) && SameAppend(db, Log.StepRollback(db, id), i)
  {}

  lemma {:induction false} TxnSources(db: Log.Db, e: Log.Event, i: nat)
    requires i in Log.Step(db, e).txns && Log.Step(db, e).txns[i].Append?
    ensures var envelope := Log.Step(db, e).txns[i].envelope; NewTxn(e, envelope) || OfTxn(db, envelope)
  {
    match e
    case Lock(id) => AppendStepsKeepAppends(db, id, i);
    case CheckAgent(id) => AppendStepsKeepAppends(db, id, i);
    case Project(id) => AppendStepsKeepAppends(db, id, i);
    case Insert(id) => InsertKeepsAppends(db, id, i);
    case CheckCapacity(id) => OtherStepsKeepAppends(db, id, i);
    case InsertAgent(id) => OtherStepsKeepAppends(db, id, i);
    case Commit(id) => OtherStepsKeepAppends(db, id, i);
    case Rollback(id) => OtherStepsKeepAppends(db, id, i);
    case _ =>
  }

  /** A conflict means that a different payload is stored under the same key. */
  predicate Conflicting(db: Log.Db, envelope: Envelope) {
    var log := Log.LogOf(db, envelope.tenant);
    exists k :: 0 <= k < |log| && SameKey(log[k].envelope, envelope) && log[k].envelope.payload != envelope.payload
  }

  /** What a new reply is about. */
  predicate ReplySource(db: Log.Db, e: Log.Event, reply: Log.Reply) {
    && (NewTxn(e, reply.envelope) || OfTxn(db, reply.envelope))
    && (reply.outcome == Log.Rejected(Log.SequenceConflict) ==> Conflicting(db, reply.envelope))
  }

  lemma {:induction false} InsertReplySource(db: Log.Db, id: nat)
    requires Log.StepInsert(db, id).replies != db.replies
    ensures exists reply ::
      ReplySource(db, Log.Insert(id), reply) && Log.StepInsert(db, id).replies == db.replies + [reply]
  {
    var e := db.txns[id].envelope;
    assert OfTxn(db, e);
    Safety.ExistingSpec(Log.LogOf(db, e.tenant), e);
    assert ReplySource(db, Log.Insert(id), Log.Reply(e, Log.Rejected(Log.SequenceConflict)));
  }

  lemma {:induction false} CheckAgentReplySource(db: Log.Db, id: nat)
    requires Log.StepCheckAgent(db, id).replies != db.replies
    ensures exists reply ::
      ReplySource(db, Log.CheckAgent(id), reply) && Log.StepCheckAgent(db, id).replies == db.replies + [reply]
  {
    var replies := Log.StepCheckAgent(db, id).replies;
    assert OfTxn(db, db.txns[id].envelope);
    assert ReplySource(db, Log.CheckAgent(id), replies[|db.replies|]);
  }

  lemma {:induction false} CommitReplySource(db: Log.Db, id: nat)
    requires Log.StepCommit(db, id).replies != db.replies
    ensures exists reply ::
      ReplySource(db, Log.Commit(id), reply) && Log.StepCommit(db, id).replies == db.replies + [reply]
  {
    var replies := Log.StepCommit(db, id).replies;
    assert OfTxn(db, db.txns[id].envelope);
    assert ReplySource(db, Log.Commit(id), replies[|db.replies|]);
  }

  lemma {:induction false} RollbackReplySource(db: Log.Db, id: nat)
    requires Log.StepRollback(db, id).replies != db.replies
    ensures exists reply ::
      ReplySource(db, Log.Rollback(id), reply) && Log.StepRollback(db, id).replies == db.replies + [reply]
  {
    var replies := Log.StepRollback(db, id).replies;
    assert OfTxn(db, db.txns[id].envelope);
    assert ReplySource(db, Log.Rollback(id), replies[|db.replies|]);
  }

  lemma {:induction false} ReplySources(db: Log.Db, e: Log.Event)
    ensures Log.Step(db, e).replies == db.replies
         || exists reply :: ReplySource(db, e, reply) && Log.Step(db, e).replies == db.replies + [reply]
  {
    if Log.Step(db, e).replies != db.replies {
      match e
      case BeginAppend(_, envelope, _) =>
        var reply := Log.Step(db, e).replies[|db.replies|];
        assert ReplySource(db, e, reply);
      case CheckAgent(id) => CheckAgentReplySource(db, id);
      case Insert(id) => InsertReplySource(db, id);
      case Commit(id) => CommitReplySource(db, id);
      case Rollback(id) => RollbackReplySource(db, id);
    }
  }

  // ---------------------------------------------------------------------------
  // Every step
  // ---------------------------------------------------------------------------

  lemma {:induction false} ServerKeepsTxns(db: Log.Db, who: Identity, network: set<Request>, e: Log.Event)
    requires TxnsSent(db.txns, who, network)
    requires e.BeginAppend? && Mine(who, e.envelope) ==> RequestOf(e.envelope) in network
    ensures TxnsSent(Log.Step(db, e).txns, who, network)
  {
    var txns := Log.Step(db, e).txns;
    forall i | i in txns && txns[i].Append? && Mine(who, txns[i].envelope)
      ensures RequestOf(txns[i].envelope) in network
    {
      TxnSources(db, e, i);
    }
  }

  lemma {:induction false} ServerKeepsRows(db: Log.Db, who: Identity, network: set<Request>, e: Log.Event)
    requires Log.Inv(db) && FromNetwork(db, who, network)
    ensures RowsSent(Log.LogOf(Log.Step(db, e), who.tenant), who, network)
  {
    Theorems.LogStep(db, e, who.tenant);
  }

  /** Two requests of the identity under one key are the same request. */
  lemma {:induction false} NoConflict(db: Log.Db, who: Identity, network: set<Request>, envelope: Envelope)
    requires RowsOf(Log.LogOf(db, who.tenant), who.tenant) && FromNetwork(db, who, network) && Functional(network)
    requires Mine(who, envelope) && RequestOf(envelope) in network
    ensures !Conflicting(db, envelope)
  {
    var log := Log.LogOf(db, who.tenant);
    forall k | 0 <= k < |log| && SameKey(log[k].envelope, envelope)
      ensures log[k].envelope.payload == envelope.payload
    {
      assert Mine(who, log[k].envelope);
      assert RequestOf(log[k].envelope) in network;
    }
  }

  lemma {:induction false} NewReplySent(
    db: Log.Db, who: Identity, network: set<Request>, e: Log.Event, reply: Log.Reply)
    requires RowsOf(Log.LogOf(db, who.tenant), who.tenant) && FromNetwork(db, who, network) && Functional(network)
    requires e.BeginAppend? && Mine(who, e.envelope) ==> RequestOf(e.envelope) in network
    requires ReplySource(db, e, reply) && Mine(who, reply.envelope)
    ensures RequestOf(reply.envelope) in network && reply.outcome != Log.Rejected(Log.SequenceConflict)
  {
    assert RequestOf(reply.envelope) in network;
    NoConflict(db, who, network, reply.envelope);
  }

  lemma {:induction false} ServerKeepsReplies(db: Log.Db, who: Identity, network: set<Request>, e: Log.Event)
    requires RowsOf(Log.LogOf(db, who.tenant), who.tenant) && FromNetwork(db, who, network) && Functional(network)
    requires e.BeginAppend? && Mine(who, e.envelope) ==> RequestOf(e.envelope) in network
    ensures RepliesSent(Log.Step(db, e).replies, who, network)
  {
    ReplySources(db, e);
    var replies := Log.Step(db, e).replies;
    if replies != db.replies {
      var reply :| ReplySource(db, e, reply) && replies == db.replies + [reply];
      if Mine(who, reply.envelope) {
        NewReplySent(db, who, network, e, reply);
      }
    }
  }

  lemma {:induction false} RowTenants(db: Log.Db, t: TenantId)
    requires Log.Inv(db)
    ensures RowsOf(Log.LogOf(db, t), t)
  {
    if t in db.tenants {
      assert Log.TenantOk(t, db.tenants[t], db.nextCursor);
      forall k | 0 <= k < |db.tenants[t].log| ensures db.tenants[t].log[k].envelope.tenant == t {
        assert Log.RowOk(t, db.tenants[t].agents.Keys, db.nextCursor, db.tenants[t].log[k]);
      }
    }
  }

  lemma {:induction false} AcknowledgedGrows(db: Log.Db, db': Log.Db, who: Identity, r: Request)
    requires db.replies <= db'.replies
    ensures Acknowledged(db, who, r) ==> Acknowledged(db', who, r)
  {
    if Acknowledged(db, who, r) {
      var i :| 0 <= i < |db.replies| && Mine(who, db.replies[i].envelope)
            && RequestOf(db.replies[i].envelope) == r && db.replies[i].outcome.Committed?;
      assert db'.replies[i] == db.replies[i];
    }
  }

  lemma {:induction false} ServerKeeps(s: System, who: Identity, e: Log.Event)
    requires Inv(s, who)
    ensures Inv(StepServer(s, who, e), who)
  {
    if !(e.BeginAppend? && Mine(who, e.envelope) && RequestOf(e.envelope) !in s.network) {
      NetworkIsFunctional(s);
      Safety.StepKeeps(s.db, e);
      ServerKeepsTxns(s.db, who, s.network, e);
      ServerKeepsRows(s.db, who, s.network, e);
      RowTenants(s.db, who.tenant);
      ServerKeepsReplies(s.db, who, s.network, e);
      ReplySources(s.db, e);
      forall i | 0 <= i < |s.exports| ensures ExportOk(Log.Step(s.db, e), who, s.exports[i]) {
        assert ExportOk(s.db, who, s.exports[i]);
        AcknowledgedGrows(s.db, Log.Step(s.db, e), who, s.exports[i].request);
      }
    }
  }

  /** Changing the progress of one export, with its request kept. */
  lemma {:induction false} UpdateExportKeeps(s: System, who: Identity, i: nat, x: Export)
    requires Inv(s, who) && i < |s.exports| && x.request == s.exports[i].request && ExportOk(s.db, who, x)
    ensures Inv(s.(exports := s.exports[i := x]), who)
  {
    var exports' := s.exports[i := x];
    forall r | r in s.network ensures exists j :: 0 <= j < |exports'| && exports'[j].request == r {
      var j :| 0 <= j < |s.exports| && s.exports[j].request == r;
      assert exports'[j].request == r;
    }
  }

  lemma {:induction false} SendKeeps(s: System, who: Identity, i: nat)
    requires Inv(s, who)
    ensures Inv(StepSend(s, i), who)
  {
    if StepSend(s, i) != s {
      var x := s.exports[i];
      assert ExportOk(s.db, who, x);
      UpdateExportKeeps(s, who, i, x.(attempts := x.attempts + 1, waiting := true));
      assert StepSend(s, i).exports[i].request == x.request;
    }
  }

  lemma {:induction false} AnswerKeeps(s: System, who: Identity, i: nat, outcome: Attempt, hasAuth: bool)
    requires Inv(s, who)
    ensures Inv(StepAnswer(s, who, i, outcome, hasAuth), who)
  {
    if i < |s.exports| && s.exports[i].result.None? {
      assert ExportOk(s.db, who, s.exports[i]);
      UpdateExportKeeps(s, who, i, StepAnswer(s, who, i, outcome, hasAuth).exports[i]);
    }
  }

  lemma {:induction false} IssuesOne(s: Seq.State, e: Seq.Event)
    ensures Seq.Step(s, e).issued == s.issued
         || (|Seq.Step(s, e).issued| == |s.issued| + 1 && s.issued <= Seq.Step(s, e).issued)
  {
  }

  lemma {:induction false} SequenceKeeps(s: System, who: Identity, e: Seq.Event, payload: Signal)
    requires Inv(s, who)
    ensures Inv(StepSequence(s, e, payload), who)
  {
    Seq.StepKeeps(s.allocator, e);
    IssuesOne(s.allocator, e);
    var s' := StepSequence(s, e, payload);
    assert s.exports <= s'.exports;
    forall r | r in s.network ensures exists j :: 0 <= j < |s'.exports| && s'.exports[j].request == r {
      var j :| 0 <= j < |s.exports| && s.exports[j].request == r;
      assert s'.exports[j] == s.exports[j];
    }
    forall i | 0 <= i < |s'.exports| ensures ExportOk(s'.db, who, s'.exports[i]) {
      assert i < |s.exports| ==> s'.exports[i] == s.exports[i];
    }
  }

  lemma {:induction false} StepKeeps(s: System, who: Identity, e: Event)
    requires Inv(s, who)
    ensures Inv(Step(s, who, e), who)
  {
    match e
    case Sequence(event, payload) => SequenceKeeps(s, who, event, payload);
    case Send(i) => SendKeeps(s, who, i);
    case Answer(i, outcome, hasAuth) => AnswerKeeps(s, who, i, outcome, hasAuth);
    case Abandon(i) =>
      if i < |s.exports| && s.exports[i].result.None? {
        assert ExportOk(s.db, who, s.exports[i]);
        UpdateExportKeeps(s, who, i, s.exports[i].(result := Some(false)));
      }
    case Server(step) => ServerKeeps(s, who, step);
  }

  lemma {:induction false} RunKeeps(who: Identity, events: seq<Event>)
    ensures Inv(Run(who, events), who)
    decreases |events|
  {
    if events != [] {
      RunKeeps(who, events[..|events| - 1]);
      StepKeeps(Run(who, events[..|events| - 1]), who, events[|events| - 1]);
    }
  }

  // ---------------------------------------------------------------------------
  // Exactly once
  // ---------------------------------------------------------------------------

  /** Where the log stores a request of the identity. */
  predicate StoredAt(db: Log.Db, who: Identity, r: Request, k: nat) {
    var log := Log.LogOf(db, who.tenant);
    k < |log| && Mine(who, log[k].envelope) && RequestOf(log[k].envelope) == r
  }

  lemma {:induction false} StoredMeansStoredAt(db: Log.Db, who: Identity, r: Request, e: Envelope, cursor: nat)
    requires Mine(who, e) && RequestOf(e) == r && Log.Stored(Log.LogOf(db, who.tenant), e, cursor)
    requires RowsOf(Log.LogOf(db, who.tenant), who.tenant)
    ensures exists k :: StoredAt(db, who, r, k)
  {
    var log := Log.LogOf(db, who.tenant);
    var k :| 0 <= k < |log| && log[k].cursor == cursor && SameKey(log[k].envelope, e)
      && log[k].envelope.payload == e.payload;
    assert StoredAt(db, who, r, k);
  }

  lemma {:induction false} AcknowledgedIsStored(db: Log.Db, who: Identity, r: Request)
    requires Log.Inv(db) && Acknowledged(db, who, r)
    ensures exists k :: StoredAt(db, who, r, k)
  {
    var i :| 0 <= i < |db.replies| && Mine(who, db.replies[i].envelope)
          && RequestOf(db.replies[i].envelope) == r && db.replies[i].outcome.Committed?;
    Theorems.CommittedIsStored(db, i);
    RowTenants(db, who.tenant);
    StoredMeansStoredAt(db, who, r, db.replies[i].envelope, db.replies[i].outcome.cursor);
  }

  /**
   * In every run: each export makes at most three attempts with one sequence of its own; it
   * adds at most one event; one event exactly once the export has reported success; and every
   * event of the identity is some export's, unchanged. No request ends in a sequence conflict.
   */
  lemma {:induction false} ExactlyOnce(who: Identity, events: seq<Event>)
    ensures
      var s := Run(who, events);
      var log := Log.LogOf(s.db, who.tenant);
      && (forall i :: 0 <= i < |s.exports| ==> s.exports[i].attempts <= OTLP_MAX_ATTEMPTS)
      && (forall i, j :: 0 <= i < j < |s.exports| ==> s.exports[i].request.sequence < s.exports[j].request.sequence)
      && (forall k, k' :: 0 <= k < k' < |log| && Mine(who, log[k].envelope) && Mine(who, log[k'].envelope) ==>
            log[k].envelope.sequence != log[k'].envelope.sequence)
      && (forall i :: 0 <= i < |s.exports| && s.exports[i].result == Some(true) ==>
            exists k :: StoredAt(s.db, who, s.exports[i].request, k))
      && (forall k :: 0 <= k < |log| && Mine(who, log[k].envelope) ==>
            exists i :: 0 <= i < |s.exports| && s.exports[i].request == RequestOf(log[k].envelope))
      && (forall i :: 0 <= i < |s.db.replies| && Mine(who, s.db.replies[i].envelope) ==>
            s.db.replies[i].outcome != Log.Rejected(Log.SequenceConflict))
  {
    var s := Run(who, events);
    var log := Log.LogOf(s.db, who.tenant);
    RunKeeps(who, events);
    Theorems.LogSorted(s.db, who.tenant);
    forall i | 0 <= i < |s.exports| ensures s.exports[i].attempts <= OTLP_MAX_ATTEMPTS {
      assert ExportOk(s.db, who, s.exports[i]);
    }
    forall i | 0 <= i < |s.exports| && s.exports[i].result == Some(true)
      ensures exists k :: StoredAt(s.db, who, s.exports[i].request, k)
    {
      assert ExportOk(s.db, who, s.exports[i]);
      AcknowledgedIsStored(s.db, who, s.exports[i].request);
    }
    forall i, j | 0 <= i < j < |s.exports| ensures s.exports[i].request.sequence < s.exports[j].request.sequence {
      assert s.allocator.issued[i] < s.allocator.issued[j];
    }
  }

  /**
   * In every run the projection has observed each stored event once: the agent's counters are
   * the sums over the events that the log holds of it, cut off at the largest u64.
   */
  lemma {:induction false} ObservedOnce(who: Identity, events: seq<Event>, f: Projection.Field)
    requires who.tenant in Run(who, events).db.tenants
    ensures
      var tenant := Run(who, events).db.tenants[who.tenant];
      var view := if tenant.projection.Some? then tenant.projection.value.view else Projection.EMPTY;
      Projection.Get(Projection.AgentEntry(view, who.agent).counters, f)
        == Projection.SaturatingAdd(0, Projection.SentTotal(Log.Envelopes(tenant.log), who.agent, f))
  {
    var db := Run(who, events).db;
    RunKeeps(who, events);
    assert Log.TenantOk(who.tenant, db.tenants[who.tenant], db.nextCursor);
    Projection.FoldCountsAgent(Log.Envelopes(db.tenants[who.tenant].log), who.agent, f);
  }
}
