/** Identities, signals and envelopes shared by the agent and the cloud store. */
module Signals {

  datatype Option<+T> = None | Some(value: T)

  /** A tenant is named by a UUID, kept as its two big-endian halves. */
  datatype TenantId = TenantId(high: bv64, low: bv64)

  type AgentId = string

  /** A data point, span or log record: opaque content with equality. */
  type Item = nat

  datatype MetricData =
    | Gauge(points: seq<Item>)
    | Sum(points: seq<Item>)
    | Histogram(points: seq<Item>)
    | ExponentialHistogram(points: seq<Item>)
    | Summary(points: seq<Item>)
    | NoData

  /** An OTLP request: resources hold scopes, scopes hold metrics, spans or log records. */
  datatype Signal =
    | Metrics(resourceMetrics: seq<seq<seq<MetricData>>>)
    | Traces(resourceSpans: seq<seq<seq<Item>>>)
    | Logs(resourceLogs: seq<seq<seq<Item>>>)

  datatype Envelope = Envelope(
    tenant: TenantId,
    eventId: nat,
    agent: AgentId,
    sequence: nat,
    receivedAt: nat,
    payload: Signal
  )

  /** The columns of the unique constraint that detects a repeated request. */
  predicate SameKey(a: Envelope, b: Envelope) {
    a.agent == b.agent && a.sequence == b.sequence
  }

  /** A committed event. `bytes` is the canonical JSON size of its payload. */
  datatype Row = Row(cursor: nat, envelope: Envelope, bytes: nat)
}
