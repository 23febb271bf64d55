/** The per-tenant signal projection: saturating counters, in total and per agent. */
module Projection {
  import Folds
  import opened Numbers
  import opened Signals

  datatype Counters = Counters(
    metricBatches: nat,
    metricPoints: nat,
    traceBatches: nat,
    spans: nat,
    logBatches: nat,
    logRecords: nat
  )

  datatype AgentView = AgentView(agent: AgentId, lastSequence: nat, lastReceivedAt: nat, counters: Counters)

  datatype View = View(counters: Counters, agents: map<AgentId, AgentView>)

  const ZERO := Counters(0, 0, 0, 0, 0, 0)
  const EMPTY := View(ZERO, map[])

  function SaturatingAdd(a: nat, b: nat): nat {
    if a + b <= U64_MAX then a + b else U64_MAX
  }

  function Flatten<T>(xss: seq<seq<T>>): seq<T> {
    if xss == [] then [] else xss[0] + Flatten(xss[1..])
  }

  function PointCount(metric: MetricData): nat {
    if metric.NoData? then 0 else |metric.points|
  }

  function TotalPoints(metrics: seq<MetricData>): nat {
    if metrics == [] then 0 else PointCount(metrics[0]) + TotalPoints(metrics[1..])
  }

  function TotalLength(scopes: seq<seq<Item>>): nat {
    if scopes == [] then 0 else |scopes[0]| + TotalLength(scopes[1..])
  }

  function ObservedCounters(c: Counters, signal: Signal): Counters {
    match signal
    case Metrics(resources) => c.(
      metricBatches := SaturatingAdd(c.metricBatches, 1),
      metricPoints := SaturatingAdd(c.metricPoints, TotalPoints(Flatten(Flatten(resources)))))
    case Traces(resources) => c.(
      traceBatches := SaturatingAdd(c.traceBatches, 1),
      spans := SaturatingAdd(c.spans, TotalLength(Flatten(resources))))
    case Logs(resources) => c.(
      logBatches := SaturatingAdd(c.logBatches, 1),
      logRecords := SaturatingAdd(c.logRecords, TotalLength(Flatten(resources))))
  }

  function AgentEntry(v: View, agent: AgentId): AgentView {
    if agent in v.agents then v.agents[agent] else AgentView(agent, 0, 0, ZERO)
  }

  function ObservedAgent(a: AgentView, e: Envelope): AgentView {
    AgentView(
      a.agent,
      Max(a.lastSequence, e.sequence),
      Max(a.lastReceivedAt, e.receivedAt),
      ObservedCounters(a.counters, e.payload))
  }

  function Observed(v: View, e: Envelope): View {
    View(
      ObservedCounters(v.counters, e.payload),
      v.agents[e.agent := ObservedAgent(AgentEntry(v, e.agent), e)])
  }

  /** The projection after observing `es` in order. */
  function Fold(es: seq<Envelope>): View {
    Folds.Fold(Observed, EMPTY, es)
  }

  /** The projection object that an append transaction updates in place. */
  class SignalProjection {
    var counters: Counters
    var agents: map<AgentId, AgentView>

    constructor ()
      ensures Value() == EMPTY
    {
      counters := ZERO;
      agents := map[];
    }

    function Value(): View
      reads this
    {
      View(counters, agents)
    }

    method Observe(e: Envelope)
      modifies this
      ensures Value() == Observed(old(Value()), e)
    {
      counters := ObservedCounters(counters, e.payload);
      if e.agent !in agents {
        agents := agents[e.agent := AgentView(e.agent, 0, 0, ZERO)];
      }
      var agent := agents[e.agent];
      agent := agent.(lastSequence := Max(agent.lastSequence, e.sequence));
      agent := agent.(lastReceivedAt := Max(agent.lastReceivedAt, e.receivedAt));
      agent := agent.(counters := ObservedCounters(agent.counters, e.payload));
      agents := agents[e.agent := agent];
    }
  }

  // ---------------------------------------------------------------------------
  // The projection does not depend on the order of observation
  // ---------------------------------------------------------------------------

  lemma {:induction false} CountersCommute(c: Counters, a: Signal, b: Signal)
    ensures ObservedCounters(ObservedCounters(c, a), b) == ObservedCounters(ObservedCounters(c, b), a)
  {
  }

  lemma {:induction false} AgentCommutes(v: AgentView, a: Envelope, b: Envelope)
    ensures ObservedAgent(ObservedAgent(v, a), b) == ObservedAgent(ObservedAgent(v, b), a)
  {
    CountersCommute(v.counters, a.payload, b.payload);
  }

  lemma {:induction false} ObservedCommutes(v: View, a: Envelope, b: Envelope)
    ensures Observed(Observed(v, a), b) == Observed(Observed(v, b), a)
  {
    CountersCommute(v.counters, a.payload, b.payload);
    if a.agent == b.agent {
      AgentCommutes(AgentEntry(v, a.agent), a, b);
      assert Observed(Observed(v, a), b).agents
          == v.agents[a.agent := ObservedAgent(ObservedAgent(AgentEntry(v, a.agent), a), b)];
    } else {
      assert Observed(Observed(v, a), b).agents == Observed(Observed(v, b), a).agents;
    }
  }

  /** Only the multiset of observed envelopes matters. */
  lemma {:induction false} FoldIgnoresOrder(xs: seq<Envelope>, ys: seq<Envelope>)
    requires multiset(xs) == multiset(ys)
    ensures Fold(xs) == Fold(ys)
  {
    forall v, a, b ensures Observed(Observed(v, a), b) == Observed(Observed(v, b), a) {
      ObservedCommutes(v, a, b);
    }
    Folds.FoldIgnoresOrder(Observed, EMPTY, xs, ys);
  }

  // ---------------------------------------------------------------------------
  // Totals over agents
  // ---------------------------------------------------------------------------

  datatype Field = MetricBatches | MetricPoints | TraceBatches | Spans | LogBatches | LogRecords

  function Get(c: Counters, f: Field): nat {
    match f
    case MetricBatches => c.metricBatches
    case MetricPoints => c.metricPoints
    case TraceBatches => c.traceBatches
    case Spans => c.spans
    case LogBatches => c.logBatches
    case LogRecords => c.logRecords
  }

  function DeltaCounters(signal: Signal): Counters {
    match signal
    case Metrics(resources) => ZERO.(metricBatches := 1, metricPoints := TotalPoints(Flatten(Flatten(resources))))
    case Traces(resources) => ZERO.(traceBatches := 1, spans := TotalLength(Flatten(resources)))
    case Logs(resources) => ZERO.(logBatches := 1, logRecords := TotalLength(Flatten(resources)))
  }

  function Delta(signal: Signal, f: Field): nat {
    Get(DeltaCounters(signal), f)
  }

  lemma {:induction false} GetObserved(c: Counters, signal: Signal, f: Field)
    requires Get(c, f) <= U64_MAX
    ensures Get(ObservedCounters(c, signal), f) == SaturatingAdd(Get(c, f), Delta(signal, f))
  {
  }

  /** The sum of a finite map's values. */
  ghost function SumValues(m: map<AgentId, nat>): nat
    decreases |m|
  {
    if m == map[] then 0 else
      var k :| k in m;
      m[k] + SumValues(m - {k})
  }

  lemma {:induction false} SumWithout(m: map<AgentId, nat>, k: AgentId)
    requires k in m
    ensures SumValues(m) == m[k] + SumValues(m - {k})
    decreases |m|
  {
    var j :| j in m && SumValues(m) == m[j] + SumValues(m - {j});
    if j != k {
      SumWithout(m - {j}, k);
      SumWithout(m - {k}, j);
      assert m - {j} - {k} == m - {k} - {j};
    }
  }

  ghost function FieldOf(v: View, f: Field): map<AgentId, nat> {
    map a | a in v.agents :: Get(v.agents[a].counters, f)
  }

  /** Every counter in range, and each total equal to the saturated sum over agents. */
  ghost predicate TotalsMatch(v: View) {
    && (forall a, f: Field :: a in v.agents ==> Get(v.agents[a].counters, f) <= U64_MAX)
    && (forall f: Field :: Get(v.counters, f) == SaturatingAdd(0, SumValues(FieldOf(v, f))))
  }

  /** The sum after one agent's value grows, saturating, by `d`. */
  lemma {:induction false} SumAfterAdd(m: map<AgentId, nat>, k: AgentId, d: nat)
    requires k in m ==> m[k] <= U64_MAX
    ensures var m' := m[k := SaturatingAdd(if k in m then m[k] else 0, d)];
      SaturatingAdd(0, SumValues(m')) == SaturatingAdd(SaturatingAdd(0, SumValues(m)), d)
  {
    var m' := m[k := SaturatingAdd(if k in m then m[k] else 0, d)];
    SumWithout(m', k);
    if k in m {
      SumWithout(m, k);
      assert m' - {k} == m - {k};
    } else {
      assert m' - {k} == m;
    }
  }

  lemma {:induction false} FieldOfObserved(v: View, e: Envelope, f: Field)
    requires TotalsMatch(v)
    ensures var m := FieldOf(v, f);
      FieldOf(Observed(v, e), f)
        == m[e.agent := SaturatingAdd(if e.agent in m then m[e.agent] else 0, Delta(e.payload, f))]
  {
    GetObserved(AgentEntry(v, e.agent).counters, e.payload, f);
  }

  lemma {:induction false} ObservedKeepsTotal(v: View, e: Envelope, f: Field)
    requires TotalsMatch(v)
    ensures Get(Observed(v, e).counters, f) == SaturatingAdd(0, SumValues(FieldOf(Observed(v, e), f)))
  {
    GetObserved(v.counters, e.payload, f);
    FieldOfObserved(v, e, f);
    SumAfterAdd(FieldOf(v, f), e.agent, Delta(e.payload, f));
  }

  /**
   * Despite saturation, in every reachable projection each total counter is the
   * sum of that counter over the agents, cut off at the largest u64.
   */
  lemma {:induction false} FoldTotalsMatch(es: seq<Envelope>)
    ensures TotalsMatch(Fold(es))
    decreases |es|
  {
    if es == [] {
      forall f: Field ensures FieldOf(EMPTY, f) == map[] {}
    } else {
      var front, e := es[..|es| - 1], es[|es| - 1];
      FoldTotalsMatch(front);
      forall f: Field
        ensures Get(ObservedAgent(AgentEntry(Fold(front), e.agent), e).counters, f) <= U64_MAX
      {
        GetObserved(AgentEntry(Fold(front), e.agent).counters, e.payload, f);
      }
      forall f: Field
        ensures Get(Observed(Fold(front), e).counters, f)
             == SaturatingAdd(0, SumValues(FieldOf(Observed(Fold(front), e), f)))
      {
        ObservedKeepsTotal(Fold(front), e, f);
      }
    }
  }

  // ---------------------------------------------------------------------------
  // Per-agent high-water marks
  // ---------------------------------------------------------------------------

  ghost predicate SentBy(es: seq<Envelope>, agent: AgentId, i: int) {
    0 <= i < |es| && es[i].agent == agent
  }

  /** `s` is the largest sequence that `agent` sent in `es`. */
  ghost predicate IsMaxSequence(es: seq<Envelope>, agent: AgentId, s: nat) {
    && (exists i :: SentBy(es, agent, i) && es[i].sequence == s)
    && (forall i :: SentBy(es, agent, i) ==> es[i].sequence <= s)
  }

  /** `at` is the latest time at which something of `agent` was received. */
  ghost predicate IsLatest(es: seq<Envelope>, agent: AgentId, at: nat) {
    && (exists i :: SentBy(es, agent, i) && es[i].receivedAt == at)
    && (forall i :: SentBy(es, agent, i) ==> es[i].receivedAt <= at)
  }

  /** `agent` appears in the projection exactly if it sent something, and then with its largest sequence. */
  ghost predicate AgentSummarised(es: seq<Envelope>, v: View, agent: AgentId) {
    && (agent in v.agents <==> exists i :: SentBy(es, agent, i))
    && (agent in v.agents ==> v.agents[agent].agent == agent && IsMaxSequence(es, agent, v.agents[agent].lastSequence))
  }

  lemma {:induction false} FoldSummarisesAgent(es: seq<Envelope>, agent: AgentId)
    ensures AgentSummarised(es, Fold(es), agent)
    decreases |es|
  {
    if es != [] {
      var n := |es| - 1;
      var front := es[..n];
      FoldSummarisesAgent(front, agent);
      assert Fold(es) == Observed(Fold(front), es[n]);
      assert forall i :: SentBy(front, agent, i) ==> SentBy(es, agent, i) && es[i] == front[i];
      assert forall i :: SentBy(es, agent, i) && i < n ==> SentBy(front, agent, i);
      if es[n].agent == agent {
        assert SentBy(es, agent, n);
      }
      if agent in Fold(front).agents {
        var i :| SentBy(front, agent, i) && front[i].sequence == Fold(front).agents[agent].lastSequence;
        assert SentBy(es, agent, i);
      }
    }
  }

  lemma {:induction false} FoldLatest(es: seq<Envelope>, agent: AgentId)
    requires agent in Fold(es).agents
    ensures IsLatest(es, agent, Fold(es).agents[agent].lastReceivedAt)
    decreases |es|
  {
    var n := |es| - 1;
    var front := es[..n];
    assert Fold(es) == Observed(Fold(front), es[n]);
    FoldSummarisesAgent(front, agent);
    assert forall i :: SentBy(front, agent, i) ==> SentBy(es, agent, i) && es[i] == front[i];
    assert forall i :: SentBy(es, agent, i) && i < n ==> SentBy(front, agent, i);
    if es[n].agent == agent {
      assert SentBy(es, agent, n);
    }
    if agent in Fold(front).agents {
      FoldLatest(front, agent);
      var i :| SentBy(front, agent, i) && front[i].receivedAt == Fold(front).agents[agent].lastReceivedAt;
      assert SentBy(es, agent, i);
    }
  }

  /** What the envelopes of one agent add to a counter. */
  function SentTotal(es: seq<Envelope>, agent: AgentId, f: Field): nat {
    if es == [] then 0
    else
      var n := |es| - 1;
      SentTotal(es[..n], agent, f) + if es[n].agent == agent then Delta(es[n].payload, f) else 0
  }

  /** Each counter of an agent is the sum over the envelopes it sent, cut off at the largest u64. */
  lemma {:induction false} FoldCountsAgent(es: seq<Envelope>, agent: AgentId, f: Field)
    ensures Get(AgentEntry(Fold(es), agent).counters, f) == SaturatingAdd(0, SentTotal(es, agent, f))
    decreases |es|
  {
    if es != [] {
      var n := |es| - 1;
      FoldCountsAgent(es[..n], agent, f);
      assert Fold(es) == Observed(Fold(es[..n]), es[n]);
      GetObserved(AgentEntry(Fold(es[..n]), agent).counters, es[n].payload, f);
    }
  }

  /** The projection lists exactly the agents that sent something, each with its largest sequence. */
  lemma {:induction false} FoldAgents(es: seq<Envelope>)
    ensures forall a :: AgentSummarised(es, Fold(es), a)
  {
    forall a ensures AgentSummarised(es, Fold(es), a) {
      FoldSummarisesAgent(es, a);
    }
  }
}
