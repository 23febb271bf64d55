/** The signal pipeline: route by signal kind, filter by receiver, fan out to every exporter. */
module Pipeline {
  import opened Bytes
  import opened Signals

  datatype ReceiverKind = SelfObservation | Device | Otlp | DatabaseLogs

  datatype PipelineConfig = PipelineConfig(receivers: seq<ReceiverKind>, exporters: seq<string>)

  datatype Routes = Routes(metrics: PipelineConfig, traces: PipelineConfig, logs: PipelineConfig)

  datatype ExporterFailure = ExporterFailure(exporter: string, message: string)

  function PipelineFor(routes: Routes, signal: Signal): PipelineConfig {
    match signal
    case Metrics(_) => routes.metrics
    case Traces(_) => routes.traces
    case Logs(_) => routes.logs
  }

  const MISSING := "pipeline references a missing exporter"

  /** The failure of one exporter, given what sending to it gives. */
  function FailureOf(known: set<string>, name: string, sending: Option<string>): Option<ExporterFailure> {
    if name !in known then Some(ExporterFailure(name, MISSING))
    else if sending.Some? then Some(ExporterFailure(name, sending.value))
    else None
  }

  /** The failures of the exporters, in the order in which they are listed. */
  function Failures(known: set<string>, names: seq<string>, sending: seq<Option<string>>): seq<ExporterFailure>
    requires |names| == |sending|
  {
    if names == [] then []
    else
      var n := |names| - 1;
      var failure := FailureOf(known, names[n], sending[n]);
      Failures(known, names[..n], sending[..n]) + if failure.Some? then [failure.value] else []
  }

  /** No failure hides another: that of the i-th exporter comes right after those of the exporters before it. */
  lemma {:induction false} NoFailureIsHidden(
    known: set<string>, names: seq<string>, sending: seq<Option<string>>, i: nat)
    requires |names| == |sending| && i < |names| && FailureOf(known, names[i], sending[i]).Some?
    ensures var all := Failures(known, names, sending);
      var rank := |Failures(known, names[..i], sending[..i])|;
      rank < |all| && all[rank] == FailureOf(known, names[i], sending[i]).value
    decreases |names|
  {
    var n := |names| - 1;
    if i < n {
      NoFailureIsHidden(known, names[..n], sending[..n], i);
      assert names[..n][..i] == names[..i] && sending[..n][..i] == sending[..i];
    }
  }

  /** And every reported failure is one of theirs. */
  lemma {:induction false} FailuresAreReal(known: set<string>, names: seq<string>, sending: seq<Option<string>>, k: nat)
    requires |names| == |sending| && k < |Failures(known, names, sending)|
    ensures exists i ::
      0 <= i < |names| && FailureOf(known, names[i], sending[i]) == Some(Failures(known, names, sending)[k])
    decreases |names|
  {
    var n := |names| - 1;
    if k < |Failures(known, names[..n], sending[..n])| {
      FailuresAreReal(known, names[..n], sending[..n], k);
      var i :| 0 <= i < n && FailureOf(known, names[..n][i], sending[..n][i])
        == Some(Failures(known, names[..n], sending[..n])[k]);
      assert names[i] == names[..n][i] && sending[i] == sending[..n][i];
    }
  }

  predicate AllSucceed(known: set<string>, names: seq<string>, sending: seq<Option<string>>)
    requires |names| == |sending|
  {
    forall i :: 0 <= i < |names| ==> FailureOf(known, names[i], sending[i]).None?
  }

  lemma {:induction false} NoFailures(known: set<string>, names: seq<string>, sending: seq<Option<string>>)
    requires |names| == |sending|
    ensures Failures(known, names, sending) == [] <==> AllSucceed(known, names, sending)
  {
    if Failures(known, names, sending) != [] {
      FailuresAreReal(known, names, sending, 0);
    }
    forall i | 0 <= i < |names| && FailureOf(known, names[i], sending[i]).Some?
      ensures Failures(known, names, sending) != []
    {
      NoFailureIsHidden(known, names, sending, i);
    }
  }

  /**
   * Exports a signal. A receiver that the signal's pipeline does not list is skipped with
   * success. Otherwise every listed exporter is attempted, whatever the others do; the export
   * succeeds exactly if all of them do, and a failed export reports all failures in order.
   */
  method Export(
    routes: Routes, known: set<string>, receiver: ReceiverKind, signal: Signal, sending: seq<Option<string>>)
    returns (r: Result<(), seq<ExporterFailure>>, attempted: seq<string>)
    requires |sending| == |PipelineFor(routes, signal).exporters|
    ensures var pipeline := PipelineFor(routes, signal);
      && attempted == (if receiver in pipeline.receivers then pipeline.exporters else [])
      && (r.Ok? <==> receiver !in pipeline.receivers || AllSucceed(known, pipeline.exporters, sending))
      && (r.Err? ==> r.error == Failures(known, pipeline.exporters, sending))
  {
    var pipeline := PipelineFor(routes, signal);
    attempted := [];
    if receiver !in pipeline.receivers {
      return Ok(()), attempted;
    }
    var names := pipeline.exporters;
    var failures := [];
    for i := 0 to |names|
      invariant attempted == names[..i]
      invariant failures == Failures(known, names[..i], sending[..i])
    {
      attempted := attempted + [names[i]];
      assert names[..i + 1][..i] == names[..i] && sending[..i + 1][..i] == sending[..i];
      var failure := FailureOf(known, names[i], sending[i]);
      if failure.Some? {
        failures := failures + [failure.value];
      }
    }
    assert names[..|names|] == names && sending[..|names|] == sending;
    NoFailures(known, names, sending);
    r := if failures == [] then Ok(()) else Err(failures);
  }
}
