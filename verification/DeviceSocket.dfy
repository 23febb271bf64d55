/**
 * The socket on which observation devices send signals: length-prefixed payloads, dispatched
 * to the edge-wire decoder or to the legacy JSON decoder, and lifted into metrics.
 */
module DeviceSocket {
  import opened Bytes
  import Decimal
  import opened Signals
  import Wire = EdgeWire

  const LEGACY_MAX_FRAME_BYTES: nat := 16 * 1024 * 1024

  datatype ReadError =
    | UnexpectedEof
    | FrameTooLarge
    | BadFrame(frameError: Wire.DecodeError)
    | BadRecord(recordError: Wire.DecodeError)
    | BadJson

  // ---------------------------------------------------------------------------
  // Framing
  // ---------------------------------------------------------------------------

  /** A byte stream as its reader sees it: the bytes still to come. */
  class ByteStream {
    var bytes: seq<Byte>

    constructor ()
      ensures bytes == []
    {
      bytes := [];
    }

    /** Exactly `count` bytes, or, at the end of the stream, none. */
    method ReadExact(count: nat) returns (r: Result<seq<Byte>, ReadError>)
      modifies this
      ensures r == if count <= |old(bytes)| then Ok(old(bytes)[..count]) else Err(UnexpectedEof)
      ensures bytes == if count <= |old(bytes)| then old(bytes)[count..] else []
    {
      if |bytes| < count {
        bytes := [];
        return Err(UnexpectedEof);
      }
      r := Ok(bytes[..count]);
      bytes := bytes[count..];
    }

    method WriteAll(data: seq<Byte>)
      modifies this
      ensures bytes == old(bytes) + data
    {
      bytes := bytes + data;
    }
  }

  function Framed(payload: seq<Byte>): (bytes: seq<Byte>)
    requires |payload| <= LEGACY_MAX_FRAME_BYTES
    ensures |bytes| == 4 + |payload|
  {
    Be32(|payload|) + payload
  }

  method WritePrefixed(writer: ByteStream, prefix: seq<Byte>, payload: seq<Byte>)
    modifies writer
    ensures writer.bytes == old(writer.bytes) + (prefix + payload)
  {
    writer.WriteAll(prefix);
    writer.WriteAll(payload);
  }

  method WriteSignalPayload(writer: ByteStream, payload: seq<Byte>) returns (written: bool)
    modifies writer
    ensures written <==> |payload| <= LEGACY_MAX_FRAME_BYTES
    ensures writer.bytes == if written then old(writer.bytes) + Framed(payload) else old(writer.bytes)
  {
    if |payload| > LEGACY_MAX_FRAME_BYTES {
      return false;
    }
    WritePrefixed(writer, Be32(|payload|), payload);
    return true;
  }

  datatype Taken = Taken(payload: seq<Byte>, rest: seq<Byte>)

  /** The first payload of a stream and what follows it. */
  function TakePayload(stream: seq<Byte>): Result<Taken, ReadError> {
    if |stream| < 4 then Err(UnexpectedEof)
    else
      var length := FromBe32(stream[..4]);
      if length > LEGACY_MAX_FRAME_BYTES then Err(FrameTooLarge)
      else if |stream| < 4 + length then Err(UnexpectedEof)
      else Ok(Taken(stream[4..4 + length], stream[4 + length..]))
  }

  lemma {:induction false} TakesParts(prefix: seq<Byte>, payload: seq<Byte>, rest: seq<Byte>)
    requires |prefix| == 4 && |payload| <= LEGACY_MAX_FRAME_BYTES
    requires FromBe32(prefix) == |payload|
    ensures TakePayload(prefix + payload + rest) == Ok(Taken(payload, rest))
  {
    var stream := prefix + payload + rest;
    assert stream[..4] == prefix;
    assert stream[4..4 + |payload|] == payload && stream[4 + |payload|..] == rest;
  }

  lemma {:induction false} TakenIsFramed(stream: seq<Byte>)
    requires TakePayload(stream).Ok?
    ensures var taken := TakePayload(stream).value;
      |taken.payload| <= LEGACY_MAX_FRAME_BYTES && stream == Framed(taken.payload) + taken.rest
  {
    var taken := TakePayload(stream).value;
    Be32Inverse(|taken.payload|, stream[..4]);
    assert stream == stream[..4] + taken.payload + taken.rest;
  }

  /** Framing and taking are inverse: a payload is taken exactly from the streams that start with its frame. */
  lemma {:induction false} TakeIsInverse(stream: seq<Byte>, payload: seq<Byte>, rest: seq<Byte>)
    ensures TakePayload(stream) == Ok(Taken(payload, rest))
      <==> |payload| <= LEGACY_MAX_FRAME_BYTES && stream == Framed(payload) + rest
  {
    if |payload| <= LEGACY_MAX_FRAME_BYTES && stream == Framed(payload) + rest {
      Be32Inverse(|payload|, Be32(|payload|));
      TakesParts(Be32(|payload|), payload, rest);
    }
    if TakePayload(stream) == Ok(Taken(payload, rest)) {
      TakenIsFramed(stream);
    }
  }

  // ---------------------------------------------------------------------------
  // Lifting samples into metrics
  // ---------------------------------------------------------------------------

  datatype Attribute = Attribute(key: string, text: seq<Byte>)

  /** A metric of an edge device; the value is the sample's. */
  datatype Metric = Metric(
    name: string,
    value: U32,
    unit: Option<string>,
    kind: Wire.Kind,
    attributes: seq<Attribute>
  )

  function KnownMetric(id: nat): Option<string> {
    if id == 1 then Some("edge.temperature")
    else if id == 2 then Some("edge.voltage.input")
    else if id == 3 then Some("edge.network.rssi")
    else if id == 4 then Some("edge.boot.count")
    else if id == 5 then Some("edge.watchdog.resets")
    else None
  }

  function MetricName(id: nat): string {
    match KnownMetric(id)
    case Some(name) => name
    case None => "edge.metric." + Decimal.Digits(id)
  }

  function KnownSensor(id: nat): Option<seq<Byte>> {
    if id == 1 then Some(Ascii("enclosure"))
    else if id == 2 then Some(Ascii("power"))
    else if id == 3 then Some(Ascii("wifi"))
    else if id == 4 then Some(Ascii("runtime"))
    else None
  }

  function UnitText(unit: Wire.Unit): Option<string> {
    match unit
    case NoUnit => None
    case Celsius => Some("C")
    case Volt => Some("V")
    case Dbm => Some("dBm")
    case Count => Some("1")
    case Percent => Some("%")
  }

  function Lift(identity: Wire.Identity, s: Wire.Sample): Metric {
    var sensor := match KnownSensor(s.sensorId)
      case Some(name) => [Attribute("sensor", name)]
      case None => [];
    Metric(MetricName(s.metricId), s.value, UnitText(s.unit), s.kind,
           [Attribute("device_id", identity.deviceId),
            Attribute("node_name", identity.nodeName),
            Attribute("metric_id", Decimal.Text(s.metricId)),
            Attribute("sensor_id", Decimal.Text(s.sensorId))] + sensor)
  }

  /** Different units have different texts. */
  lemma {:induction false} UnitTextInjective(u: Wire.Unit, v: Wire.Unit)
    requires UnitText(u) == UnitText(v)
    ensures u == v
  {
    assert |"C"| == 1 && "C"[0] == 'C' && "V"[0] == 'V' && "1"[0] == '1' && "%"[0] == '%' && |"dBm"| == 3;
  }

  /** The text of the first attribute with a key. */
  function Lookup(attributes: seq<Attribute>, key: string): Option<seq<Byte>> {
    if attributes == [] then None
    else if attributes[0].key == key then Some(attributes[0].text)
    else Lookup(attributes[1..], key)
  }

  lemma {:induction false} LookupCons(a: Attribute, rest: seq<Attribute>, key: string)
    ensures Lookup([a] + rest, key) == if a.key == key then Some(a.text) else Lookup(rest, key)
  {
    assert ([a] + rest)[1..] == rest;
  }

  lemma {:induction false} KeysDiffer()
    ensures "device_id" != "node_name" && "device_id" != "metric_id"
    ensures "device_id" != "sensor_id" && "device_id" != "sensor"
    ensures "node_name" != "metric_id" && "node_name" != "sensor_id" && "node_name" != "sensor"
    ensures "metric_id" != "sensor_id" && "metric_id" != "sensor" && "sensor_id" != "sensor"
  {
    assert "device_id"[0] == 'd' && "node_name"[0] == 'n' && "metric_id"[0] == 'm';
    assert "sensor_id"[0] == 's' && "sensor"[0] == 's';
    assert |"sensor_id"| == 9 && |"sensor"| == 6;
  }

  /**
   * Looking an attribute up by its key gives the field it is named after; the sensor name is
   * there exactly if known.
   */
  lemma {:induction false} AttributesByKey(identity: Wire.Identity, s: Wire.Sample, key: string)
    ensures Lookup(Lift(identity, s).attributes, key)
      == if key == "device_id" then Some(identity.deviceId)
         else if key == "node_name" then Some(identity.nodeName)
         else if key == "metric_id" then Some(Decimal.Text(s.metricId))
         else if key == "sensor_id" then Some(Decimal.Text(s.sensorId))
         else if key == "sensor" then KnownSensor(s.sensorId)
         else None
  {
    var sensor := match KnownSensor(s.sensorId) case Some(name) => [Attribute("sensor", name)] case None => [];
    var a3 := [Attribute("sensor_id", Decimal.Text(s.sensorId))] + sensor;
    var a2 := [Attribute("metric_id", Decimal.Text(s.metricId))] + a3;
    var a1 := [Attribute("node_name", identity.nodeName)] + a2;
    assert Lift(identity, s).attributes == [Attribute("device_id", identity.deviceId)] + a1;
    KeysDiffer();
    LookupCons(Attribute("device_id", identity.deviceId), a1, key);
    LookupCons(Attribute("node_name", identity.nodeName), a2, key);
    LookupCons(Attribute("metric_id", Decimal.Text(s.metricId)), a3, key);
    LookupCons(Attribute("sensor_id", Decimal.Text(s.sensorId)), sensor, key);
    assert Lookup(sensor, key) == if key == "sensor" then KnownSensor(s.sensorId) else None;
  }

  /** The sixth character tells the known names and the numbered ones apart. */
  lemma {:induction false} NameMarks(id: nat)
    ensures |MetricName(id)| > 5
    ensures MetricName(id)[5] == if id == 1 then 't' else if id == 2 then 'v' else if id == 3 then 'n'
                                 else if id == 4 then 'b' else if id == 5 then 'w' else 'm'
  {}

  /** Different metrics have different names. */
  lemma {:induction false} MetricNameInjective(m: nat, n: nat)
    requires MetricName(m) == MetricName(n)
    ensures m == n
  {
    NameMarks(m);
    NameMarks(n);
    if KnownMetric(m).None? && KnownMetric(n).None? {
      assert MetricName(m)[12..] == Decimal.Digits(m) && MetricName(n)[12..] == Decimal.Digits(n);
      Decimal.DigitsInjective(m, n);
    }
  }

  /** Nothing of a sample or of the device's identity is lost when it becomes a metric. */
  lemma {:induction false} LiftInjective(i1: Wire.Identity, s1: Wire.Sample, i2: Wire.Identity, s2: Wire.Sample)
    requires Lift(i1, s1) == Lift(i2, s2)
    ensures i1 == i2 && s1 == s2
  {
    var a, b := Lift(i1, s1).attributes, Lift(i2, s2).attributes;
    assert a[0] == b[0] && a[1] == b[1] && a[2] == b[2] && a[3] == b[3];
    Decimal.TextInjective(s1.metricId, s2.metricId);
    Decimal.TextInjective(s1.sensorId, s2.sensorId);
    UnitTextInjective(s1.unit, s2.unit);
  }

  function LiftAll(identity: Wire.Identity, samples: seq<Wire.Sample>): (r: seq<Metric>)
    ensures |r| == |samples|
  {
    seq(|samples|, i requires 0 <= i < |samples| => Lift(identity, samples[i]))
  }

  // ---------------------------------------------------------------------------
  // Decoding a payload
  // ---------------------------------------------------------------------------

  const SERVICE := "skid-edge-wire"
  const SCOPE := "skid-monitor-edge-wire"

  datatype DeviceSignal =
    | EdgeMetrics(service: string, scope: string, metrics: seq<Metric>)
    | Json(signal: Signal)

  type Items = seq<Result<Wire.Sample, Wire.DecodeError>>

  predicate AllValid(items: Items) {
    forall i :: 0 <= i < |items| ==> items[i].Ok?
  }

  /** The first item that is an error. */
  predicate FirstError(items: Items, e: Wire.DecodeError) {
    exists i :: 0 <= i < |items| && items[i] == Err(e) && AllValid(items[..i])
  }

  lemma {:induction false} ErrorAfter(done: Items, e: Wire.DecodeError, rest: Items)
    requires AllValid(done)
    ensures FirstError(done + ([Err(e)] + rest), e) && !AllValid(done + ([Err(e)] + rest))
  {
    var items := done + ([Err(e)] + rest);
    assert items[|done|] == Err(e) && items[..|done|] == done;
  }

  lemma {:induction false} LiftPush(identity: Wire.Identity, done: Items, s: Wire.Sample)
    requires AllValid(done)
    ensures AllValid(done + [Ok(s)])
    ensures LiftAll(identity, Wire.SamplesOf(done + [Ok(s)]))
      == LiftAll(identity, Wire.SamplesOf(done)) + [Lift(identity, s)]
  {
    assert Wire.SamplesOf(done + [Ok(s)]) == Wire.SamplesOf(done) + [s];
  }

  /** The records before `view` were valid and have been lifted. */
  ghost predicate Progress(frame: Wire.Frame, view: Wire.Iter, done: Items, metrics: seq<Metric>) {
    && Wire.Items(Wire.IterOf(frame)) == done + Wire.Items(view)
    && AllValid(done) && metrics == LiftAll(frame.identity, Wire.SamplesOf(done))
  }

  lemma {:induction false} ProgressStep(frame: Wire.Frame, view: Wire.Iter, done: Items, metrics: seq<Metric>)
    requires Progress(frame, view, done, metrics)
    ensures var items := Wire.Items(Wire.IterOf(frame));
      match Wire.Step(view).item
      case None => AllValid(items) && metrics == LiftAll(frame.identity, Wire.SamplesOf(items))
      case Some(Err(e)) => FirstError(items, e) && !AllValid(items)
      case Some(Ok(s)) => Progress(frame, Wire.Step(view).iter, done + [Ok(s)], metrics + [Lift(frame.identity, s)])
  {
    Wire.ItemsUnfold(view);
    var step := Wire.Step(view);
    if step.item.Some? {
      if step.item.value.Err? {
        ErrorAfter(done, step.item.value.error, Wire.Items(step.iter));
      } else {
        LiftPush(frame.identity, done, step.item.value.value);
        assert done + ([step.item.value] + Wire.Items(step.iter)) == done + [step.item.value] + Wire.Items(step.iter);
      }
    }
  }

  /**
   * The metrics are pushed one by one and the first bad record aborts: either every record is
   * valid and all are lifted in order, or the first error is reported.
   */
  method LiftRecords(frame: Wire.Frame) returns (r: Result<seq<Metric>, Wire.DecodeError>)
    ensures r.Ok? <==> AllValid(Wire.Items(Wire.IterOf(frame)))
    ensures r.Ok? ==> r.value == LiftAll(frame.identity, Wire.SamplesOf(Wire.Items(Wire.IterOf(frame))))
    ensures r.Err? ==> FirstError(Wire.Items(Wire.IterOf(frame)), r.error)
  {
    var metrics: seq<Metric> := [];
    var records := new Wire.EdgeMetricIter(frame);
    ghost var done: Items := [];
    while true
      invariant Progress(frame, records.View(), done, metrics)
      decreases records.remaining
    {
      ProgressStep(frame, records.View(), done, metrics);
      var item := records.Next();
      if item.None? {
        return Ok(metrics);
      }
      if item.value.Err? {
        return Err(item.value.error);
      }
      metrics := metrics + [Lift(frame.identity, item.value.value)];
      done := done + [item.value];
    }
  }

  /**
   * Success exactly if frame and records are valid, all of them lifted; else the frame's or
   * the first record's error.
   */
  ghost predicate EdgeOutcome(payload: seq<Byte>, r: Result<DeviceSignal, ReadError>) {
    match Wire.Decode(payload)
    case Err(e) => r == Err(BadFrame(e))
    case Ok(frame) =>
      var items := Wire.Items(Wire.IterOf(frame));
      if AllValid(items) then r == Ok(EdgeMetrics(SERVICE, SCOPE, LiftAll(frame.identity, Wire.SamplesOf(items))))
      else r.Err? && r.error.BadRecord? && FirstError(items, r.error.recordError)
  }

  lemma {:induction false} NoErrorBefore(items: Items, i: nat, j: nat)
    requires i < |items| && j < |items| && items[i].Err? && AllValid(items[..j])
    ensures j <= i
  {
    forall k | 0 <= k < j ensures items[k].Ok? {
      assert items[..j][k] == items[k];
    }
  }

  lemma {:induction false} FirstErrorUnique(items: Items, a: Wire.DecodeError, b: Wire.DecodeError)
    requires FirstError(items, a) && FirstError(items, b)
    ensures a == b
  {
    var i :| 0 <= i < |items| && items[i] == Err(a) && AllValid(items[..i]);
    var j :| 0 <= j < |items| && items[j] == Err(b) && AllValid(items[..j]);
    NoErrorBefore(items, i, j);
    NoErrorBefore(items, j, i);
  }

  /** There is only one such outcome. */
  lemma {:induction false} EdgeOutcomeUnique(
    payload: seq<Byte>, a: Result<DeviceSignal, ReadError>, b: Result<DeviceSignal, ReadError>)
    requires EdgeOutcome(payload, a) && EdgeOutcome(payload, b)
    ensures a == b
  {
    if Wire.Decode(payload).Ok? {
      var items := Wire.Items(Wire.IterOf(Wire.Decode(payload).value));
      if !AllValid(items) {
        FirstErrorUnique(items, a.error.recordError, b.error.recordError);
      }
    }
  }

  method DecodeEdgeWirePayload(payload: seq<Byte>) returns (r: Result<DeviceSignal, ReadError>)
    ensures EdgeOutcome(payload, r)
  {
    var decoded := Wire.Decode(payload);
    if decoded.Err? {
      return Err(BadFrame(decoded.error));
    }
    var metrics := LiftRecords(decoded.value);
    if metrics.Err? {
      return Err(BadRecord(metrics.error));
    }
    return Ok(EdgeMetrics(SERVICE, SCOPE, metrics.value));
  }

  /** A payload that is an edge frame with these samples, all of them valid. */
  ghost predicate CarriesSamples(
    payload: seq<Byte>, sequence: U16, identity: Wire.Identity, samples: seq<Wire.Sample>)
  {
    var decoded := Wire.Decode(payload);
    && Wire.IsEdgeWireFrame(payload) && decoded.Ok?
    && decoded.value.sequence == sequence && decoded.value.identity == identity
    && Wire.Items(Wire.IterOf(decoded.value)) == Wire.AllOk(samples)
  }

  lemma {:induction false} CarriedIsLifted(
    payload: seq<Byte>, sequence: U16, identity: Wire.Identity, samples: seq<Wire.Sample>,
    r: Result<DeviceSignal, ReadError>)
    requires CarriesSamples(payload, sequence, identity, samples) && EdgeOutcome(payload, r)
    ensures r == Ok(EdgeMetrics(SERVICE, SCOPE, LiftAll(identity, samples)))
  {
    assert Wire.SamplesOf(Wire.AllOk(samples)) == samples;
  }

  /** Edge frames go to the edge decoder, valid or not; all else to the legacy JSON decoder, the parameter `json`. */
  ghost predicate Received(payload: seq<Byte>, json: seq<Byte> -> Option<Signal>, r: Result<DeviceSignal, ReadError>) {
    if Wire.IsEdgeWireFrame(payload) then EdgeOutcome(payload, r)
    else r == match json(payload) case Some(signal) => Ok(Json(signal)) case None => Err(BadJson)
  }

  method DecodeDevicePayload(payload: seq<Byte>, json: seq<Byte> -> Option<Signal>)
    returns (r: Result<DeviceSignal, ReadError>)
    ensures Received(payload, json, r)
  {
    if !Wire.IsEdgeWireFrame(payload) {
      var parsed := json(payload);
      return if parsed.Some? then Ok(Json(parsed.value)) else Err(BadJson);
    }
    r := DecodeEdgeWirePayload(payload);
  }

  method ReadPayload(stream: ByteStream) returns (r: Result<seq<Byte>, ReadError>)
    modifies stream
    ensures match TakePayload(old(stream.bytes))
      case Err(e) => r == Err(e)
      case Ok(taken) => r == Ok(taken.payload) && stream.bytes == taken.rest
  {
    ghost var before := stream.bytes;
    var prefix := stream.ReadExact(4);
    if prefix.Err? {
      return prefix;
    }
    var length := FromBe32(prefix.value);
    if length > LEGACY_MAX_FRAME_BYTES {
      return Err(FrameTooLarge);
    }
    r := stream.ReadExact(length);
    assert r.Ok? ==> r.value == before[4..4 + length] && stream.bytes == before[4 + length..];
  }

  method ReadSignal(stream: ByteStream, json: seq<Byte> -> Option<Signal>) returns (r: Result<DeviceSignal, ReadError>)
    modifies stream
    ensures match TakePayload(old(stream.bytes))
      case Err(e) => r == Err(e)
      case Ok(taken) => stream.bytes == taken.rest && Received(taken.payload, json, r)
  {
    var payload := ReadPayload(stream);
    if payload.Err? {
      return Err(payload.error);
    }
    r := DecodeDevicePayload(payload.value, json);
  }

  /**
   * What a device encodes and sends arrives: for every identity, sequence number and list of
   * samples that the encoder accepts, the payload is taken whole from the stream, is dispatched
   * to the edge decoder, and carries that sequence number, identity and those samples in order.
   */
  lemma {:induction false} DevicePath(
    sequence: U16, identity: Wire.Identity, samples: seq<Wire.Sample>, rest: seq<Byte>)
    requires Wire.Encodable(identity, samples) && ValidUtf8(identity.deviceId) && ValidUtf8(identity.nodeName)
    ensures var payload := Wire.FrameBytes(sequence, identity, samples);
      && |payload| <= LEGACY_MAX_FRAME_BYTES
      && TakePayload(Framed(payload) + rest) == Ok(Taken(payload, rest))
      && CarriesSamples(payload, sequence, identity, samples)
  {
    var payload := Wire.FrameBytes(sequence, identity, samples);
    TakeIsInverse(Framed(payload) + rest, payload, rest);
    Wire.DecodesEncoded(sequence, identity, samples);
    Wire.FrameRoundTrip(sequence, identity, samples);
  }

  /** The device's buffer, encoded, framed, sent and read: the metrics of all its samples. */
  method SendAndReceive(
    out: array<Byte>, stream: ByteStream, sequence: U16, identity: Wire.Identity, samples: seq<Wire.Sample>,
    json: seq<Byte> -> Option<Signal>) returns (r: Result<DeviceSignal, ReadError>)
    requires Wire.Encodable(identity, samples) && ValidUtf8(identity.deviceId) && ValidUtf8(identity.nodeName)
    requires Wire.EncodedLength(identity, |samples|) <= out.Length && stream.bytes == []
    modifies out, stream
    ensures r == Ok(EdgeMetrics(SERVICE, SCOPE, LiftAll(identity, samples))) && stream.bytes == []
  {
    var length := Wire.EncodeMetricsFrame(out, sequence, identity, samples);
    DevicePath(sequence, identity, samples, []);
    var payload := out[..length.value];
    var _ := WriteSignalPayload(stream, payload);
    assert stream.bytes == Framed(payload) + [];
    r := ReadSignal(stream, json);
    CarriedIsLifted(payload, sequence, identity, samples, r);
  }
}
