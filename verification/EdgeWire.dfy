/**
 * The compact frame in which an edge device sends metric samples: an encoder into a
 * caller's buffer, a decoder, and an iterator over the records of a decoded frame.
 */
module EdgeWire {
  import opened Bytes
  import opened Signals

  const MAGIC: seq<Byte> := [0x53, 0x45]
  const VERSION: Byte := 1
  const FRAME_KIND_METRICS: Byte := 1
  const HEADER_LEN: nat := 10
  const RECORD_LEN: nat := 10
  const MAX_BYTE: nat := 255

  datatype EncodeError = FieldTooLong | TooManyMetrics | OutputTooSmall | MetricIdIsReserved | SensorIdIsReserved

  datatype DecodeError =
    | TooShort
    | BadMagic
    | UnsupportedVersion
    | UnsupportedKind
    | InvalidUtf8
    | TruncatedIdentity
    | BadRecordLength
    | ReservedMetricId
    | ReservedSensorId
    | UnknownMetricKind
    | UnknownUnit

  datatype Kind = Gauge | Sum | Histogram

  datatype Unit = NoUnit | Celsius | Volt | Dbm | Count | Percent

  /** A sample; the value is the bit pattern of its 32-bit float. */
  datatype Sample = Sample(metricId: U16, sensorId: U16, kind: Kind, unit: Unit, value: U32)

  /** UTF-8 text, both fields. */
  datatype Identity = Identity(deviceId: seq<Byte>, nodeName: seq<Byte>)

  datatype Frame = Frame(sequence: U16, flags: Byte, identity: Identity, metricCount: Byte, records: seq<Byte>)

  function KindCode(kind: Kind): Byte {
    match kind
    case Gauge => 1
    case Sum => 2
    case Histogram => 3
  }

  function KindOf(code: Byte): (r: Option<Kind>)
    ensures forall kind :: r == Some(kind) <==> KindCode(kind) == code
  {
    if code == 1 then Some(Kind.Gauge)
    else if code == 2 then Some(Kind.Sum)
    else if code == 3 then Some(Kind.Histogram)
    else None
  }

  function UnitCode(unit: Unit): Byte {
    match unit
    case NoUnit => 0
    case Celsius => 1
    case Volt => 2
    case Dbm => 3
    case Count => 4
    case Percent => 5
  }

  function UnitOf(code: Byte): (r: Option<Unit>)
    ensures forall unit :: r == Some(unit) <==> UnitCode(unit) == code
  {
    if code == 0 then Some(NoUnit)
    else if code == 1 then Some(Celsius)
    else if code == 2 then Some(Volt)
    else if code == 3 then Some(Dbm)
    else if code == 4 then Some(Count)
    else if code == 5 then Some(Percent)
    else None
  }

  // ---------------------------------------------------------------------------
  // Records
  // ---------------------------------------------------------------------------

  predicate ValidSample(s: Sample) {
    s.metricId != 0 && s.sensorId != 0
  }

  function RecordBytes(s: Sample): (bytes: seq<Byte>)
    ensures |bytes| == RECORD_LEN
  {
    Be16(s.metricId) + Be16(s.sensorId) + [KindCode(s.kind), UnitCode(s.unit)] + Be32(s.value)
  }

  function DecodeRecord(r: seq<Byte>): Result<Sample, DecodeError>
    requires |r| == RECORD_LEN
  {
    var metricId := FromBe16(r[0..2]);
    var sensorId := FromBe16(r[2..4]);
    if metricId == 0 then Err(ReservedMetricId)
    else if sensorId == 0 then Err(ReservedSensorId)
    else match KindOf(r[4])
      case None => Err(UnknownMetricKind)
      case Some(kind) => match UnitOf(r[5])
        case None => Err(UnknownUnit)
        case Some(unit) => Ok(Sample(metricId, sensorId, kind, unit, FromBe32(r[6..10])))
  }

  /** A record is the concatenation of its fields. */
  lemma {:induction false} RecordParts(r: seq<Byte>, s: Sample)
    requires |r| == RECORD_LEN
    ensures RecordBytes(s) == r <==>
      && r[0..2] == Be16(s.metricId) && r[2..4] == Be16(s.sensorId)
      && r[4] == KindCode(s.kind) && r[5] == UnitCode(s.unit) && r[6..10] == Be32(s.value)
  {
    assert r == r[0..2] + r[2..4] + [r[4], r[5]] + r[6..10];
    var bytes := RecordBytes(s);
    assert bytes[0..2] == Be16(s.metricId) && bytes[2..4] == Be16(s.sensorId) && bytes[6..10] == Be32(s.value);
  }

  /** Decoding and encoding of records are inverse: a record is accepted exactly if it encodes a valid sample. */
  lemma {:induction false} RecordRoundTrip(r: seq<Byte>, s: Sample)
    requires |r| == RECORD_LEN
    ensures DecodeRecord(r) == Ok(s) <==> ValidSample(s) && RecordBytes(s) == r
  {
    RecordParts(r, s);
    Be16Inverse(s.metricId, r[0..2]);
    Be16Inverse(s.sensorId, r[2..4]);
    Be32Inverse(s.value, r[6..10]);
    assert KindOf(r[4]) == Some(s.kind) <==> KindCode(s.kind) == r[4];
    assert UnitOf(r[5]) == Some(s.unit) <==> UnitCode(s.unit) == r[5];
  }

  function RecordsBytes(samples: seq<Sample>): (bytes: seq<Byte>)
    ensures |bytes| == RECORD_LEN * |samples|
  {
    if samples == [] then [] else RecordsBytes(samples[..|samples| - 1]) + RecordBytes(samples[|samples| - 1])
  }

  function RecordAt(records: seq<Byte>, i: nat): (r: seq<Byte>)
    requires RECORD_LEN * (i + 1) <= |records|
    ensures |r| == RECORD_LEN
  {
    records[RECORD_LEN * i..RECORD_LEN * i + RECORD_LEN]
  }

  lemma {:induction false} RecordAtAppend(front: seq<Byte>, n: nat, record: seq<Byte>, i: nat)
    requires |front| == RECORD_LEN * n && |record| == RECORD_LEN && i <= n
    ensures RecordAt(front + record, i) == if i < n then RecordAt(front, i) else record
  {
    var at := RECORD_LEN * i;
    if i < n {
      assert at + RECORD_LEN <= |front|;
      assert (front + record)[at..at + RECORD_LEN] == front[at..at + RECORD_LEN];
    } else {
      assert at == |front|;
      assert (front + record)[at..at + RECORD_LEN] == record;
    }
  }

  lemma {:induction false} RecordsBytesAt(samples: seq<Sample>, i: nat)
    requires i < |samples|
    ensures RecordAt(RecordsBytes(samples), i) == RecordBytes(samples[i])
    decreases |samples|
  {
    var n := |samples| - 1;
    var front := RecordsBytes(samples[..n]);
    RecordAtAppend(front, n, RecordBytes(samples[n]), i);
    if i < n {
      RecordsBytesAt(samples[..n], i);
    }
  }

  lemma {:induction false} RecordAtFront(records: seq<Byte>, n: nat, i: nat)
    requires i < n && RECORD_LEN * n <= |records|
    ensures RecordAt(records[..RECORD_LEN * n], i) == RecordAt(records, i)
  {}

  lemma {:induction false} FrontThenLast(records: seq<Byte>, n: nat)
    requires |records| == RECORD_LEN * (n + 1)
    ensures records == records[..RECORD_LEN * n] + RecordAt(records, n)
  {}

  /** Record bytes are determined record by record. */
  lemma {:induction false} RecordsFromParts(samples: seq<Sample>, records: seq<Byte>)
    requires |records| == RECORD_LEN * |samples|
    requires forall i {:trigger samples[i]} :: 0 <= i < |samples| ==> RecordAt(records, i) == RecordBytes(samples[i])
    ensures RecordsBytes(samples) == records
    decreases |samples|
  {
    if samples != [] {
      var n := |samples| - 1;
      var front := records[..RECORD_LEN * n];
      forall i {:trigger samples[i]} | 0 <= i < n ensures RecordAt(front, i) == RecordBytes(samples[..n][i]) {
        RecordAtFront(records, n, i);
      }
      RecordsFromParts(samples[..n], front);
      FrontThenLast(records, n);
    }
  }

  // ---------------------------------------------------------------------------
  // The iterator
  // ---------------------------------------------------------------------------

  datatype Iter = Iter(records: seq<Byte>, remaining: nat)

  datatype Stepped = Stepped(item: Option<Result<Sample, DecodeError>>, iter: Iter)

  function Step(it: Iter): Stepped {
    if it.remaining == 0 then Stepped(None, it)
    else if |it.records| < RECORD_LEN then Stepped(Some(Err(BadRecordLength)), it.(remaining := 0))
    else Stepped(Some(DecodeRecord(it.records[..RECORD_LEN])), Iter(it.records[RECORD_LEN..], it.remaining - 1))
  }

  /** All that the iterator yields until it ends. */
  function Items(it: Iter): seq<Result<Sample, DecodeError>>
    decreases it.remaining
  {
    var step := Step(it);
    if step.item == None then [] else [step.item.value] + Items(step.iter)
  }

  lemma {:induction false} ItemsUnfold(it: Iter)
    ensures var step := Step(it);
      && (step.item == None ==> Items(it) == [])
      && (step.item != None ==> Items(it) == [step.item.value] + Items(step.iter))
  {}

  lemma {:induction false} RecordAtTail(records: seq<Byte>, i: nat)
    requires i >= 1 && RECORD_LEN * (i + 1) <= |records|
    ensures RecordAt(records, i) == RecordAt(records[RECORD_LEN..], i - 1)
  {
    var rest, here, there := records[RECORD_LEN..], RecordAt(records, i), RecordAt(records[RECORD_LEN..], i - 1);
    forall k | 0 <= k < RECORD_LEN ensures here[k] == there[k] {
      assert there[k] == rest[RECORD_LEN * (i - 1) + k] == records[RECORD_LEN * i + k];
    }
  }

  /** An iterator over enough bytes yields one item per record, each from its own ten bytes only. */
  lemma {:induction false} ItemsAreRecords(it: Iter)
    requires |it.records| == RECORD_LEN * it.remaining
    ensures |Items(it)| == it.remaining
    ensures forall i {:trigger Items(it)[i]} :: 0 <= i < it.remaining ==>
      Items(it)[i] == DecodeRecord(RecordAt(it.records, i))
    decreases it.remaining
  {
    if it.remaining > 0 {
      var next := Iter(it.records[RECORD_LEN..], it.remaining - 1);
      ItemsUnfold(it);
      ItemsAreRecords(next);
      forall i {:trigger Items(it)[i]} | 0 <= i < it.remaining
        ensures Items(it)[i] == DecodeRecord(RecordAt(it.records, i))
      {
        if i == 0 {
          assert RecordAt(it.records, 0) == it.records[..RECORD_LEN];
        } else {
          assert Items(it)[i] == Items(next)[i - 1];
          RecordAtTail(it.records, i);
        }
      }
    }
  }

  class EdgeMetricIter {
    var records: seq<Byte>
    var remaining: nat

    constructor (frame: Frame)
      ensures View() == Iter(frame.records, frame.metricCount)
    {
      records, remaining := frame.records, frame.metricCount;
    }

    ghost function View(): Iter
      reads this
    {
      Iter(records, remaining)
    }

    method Next() returns (item: Option<Result<Sample, DecodeError>>)
      modifies this
      ensures Stepped(item, View()) == Step(old(View()))
    {
      if remaining == 0 {
        return None;
      }
      if |records| < RECORD_LEN {
        remaining := 0;
        return Some(Err(BadRecordLength));
      }
      var record := records[..RECORD_LEN];
      records := records[RECORD_LEN..];
      remaining := remaining - 1;
      return Some(DecodeRecord(record));
    }
  }

  // ---------------------------------------------------------------------------
  // Frames
  // ---------------------------------------------------------------------------

  predicate IsEdgeWireFrame(input: seq<Byte>) {
    |input| >= HEADER_LEN && input[0..2] == MAGIC
  }

  function Decode(input: seq<Byte>): Result<Frame, DecodeError> {
    if |input| < HEADER_LEN then Err(TooShort)
    else if input[0..2] != MAGIC then Err(BadMagic)
    else if input[2] != VERSION then Err(UnsupportedVersion)
    else if input[3] != FRAME_KIND_METRICS then Err(UnsupportedKind)
    else
      var deviceEnd := HEADER_LEN + input[8];
      var nodeEnd := deviceEnd + input[9];
      if |input| < nodeEnd then Err(TruncatedIdentity)
      else
        var deviceId := input[HEADER_LEN..deviceEnd];
        var nodeName := input[deviceEnd..nodeEnd];
        var records := input[nodeEnd..];
        if !ValidUtf8(deviceId) || !ValidUtf8(nodeName) then Err(InvalidUtf8)
        else if |records| != input[7] * RECORD_LEN then Err(BadRecordLength)
        else Ok(Frame(FromBe16(input[5..7]), input[4], Identity(deviceId, nodeName), input[7], records))
  }

  function EncodedLength(identity: Identity, count: nat): nat {
    HEADER_LEN + |identity.deviceId| + |identity.nodeName| + count * RECORD_LEN
  }

  /** What the encoder checks before it writes, in its order. */
  function Refusal(identity: Identity, samples: seq<Sample>, capacity: nat): Option<EncodeError> {
    if |identity.deviceId| > MAX_BYTE || |identity.nodeName| > MAX_BYTE then Some(FieldTooLong)
    else if |samples| > MAX_BYTE then Some(TooManyMetrics)
    else if exists i :: 0 <= i < |samples| && samples[i].metricId == 0 then Some(MetricIdIsReserved)
    else if exists i :: 0 <= i < |samples| && samples[i].sensorId == 0 then Some(SensorIdIsReserved)
    else if capacity < EncodedLength(identity, |samples|) then Some(OutputTooSmall)
    else None
  }

  /** What a frame can carry. */
  predicate Encodable(identity: Identity, samples: seq<Sample>) {
    && |identity.deviceId| <= MAX_BYTE && |identity.nodeName| <= MAX_BYTE && |samples| <= MAX_BYTE
    && forall i :: 0 <= i < |samples| ==> ValidSample(samples[i])
  }

  function Header(sequence: U16, identity: Identity, count: Byte): (bytes: seq<Byte>)
    requires |identity.deviceId| <= MAX_BYTE && |identity.nodeName| <= MAX_BYTE
    ensures |bytes| == HEADER_LEN
  {
    MAGIC + [VERSION, FRAME_KIND_METRICS, 0] + Be16(sequence) + [count, |identity.deviceId|, |identity.nodeName|]
  }

  /** The frame without its records. */
  function Preamble(sequence: U16, identity: Identity, count: Byte): (bytes: seq<Byte>)
    requires |identity.deviceId| <= MAX_BYTE && |identity.nodeName| <= MAX_BYTE
    ensures |bytes| == HEADER_LEN + |identity.deviceId| + |identity.nodeName|
  {
    Header(sequence, identity, count) + identity.deviceId + identity.nodeName
  }

  function FrameBytes(sequence: U16, identity: Identity, samples: seq<Sample>): (bytes: seq<Byte>)
    requires Encodable(identity, samples)
    ensures |bytes| == EncodedLength(identity, |samples|)
  {
    Preamble(sequence, identity, |samples|) + RecordsBytes(samples)
  }

  /** The buffer holds `bytes` at the cursor and is otherwise as before. */
  ghost predicate Wrote(before: seq<Byte>, after: seq<Byte>, cursor: nat, bytes: seq<Byte>) {
    cursor + |bytes| <= |before| && after == before[..cursor] + bytes + before[cursor + |bytes|..]
  }

  lemma {:induction false} WroteTwice(
    s0: seq<Byte>, s1: seq<Byte>, s2: seq<Byte>, cursor: nat, a: seq<Byte>, b: seq<Byte>)
    requires Wrote(s0, s1, cursor, a) && Wrote(s1, s2, cursor + |a|, b)
    ensures Wrote(s0, s2, cursor, a + b)
  {
    assert s1[..cursor + |a|] == s0[..cursor] + a;
    assert s1[cursor + |a| + |b|..] == s0[cursor + |a| + |b|..];
  }

  /** Writes `bytes` at the cursor and moves the cursor past them. */
  method Put(out: array<Byte>, cursor: nat, bytes: seq<Byte>) returns (next: nat)
    requires cursor + |bytes| <= out.Length
    modifies out
    ensures next == cursor + |bytes| && Wrote(old(out[..]), out[..], cursor, bytes)
  {
    next := cursor + |bytes|;
    forall i | 0 <= i < |bytes| {
      out[cursor + i] := bytes[i];
    }
  }

  method PutHeader(out: array<Byte>, sequence: U16, identity: Identity, count: Byte) returns (cursor: nat)
    requires |identity.deviceId| <= MAX_BYTE && |identity.nodeName| <= MAX_BYTE && HEADER_LEN <= out.Length
    modifies out
    ensures cursor == HEADER_LEN && Wrote(old(out[..]), out[..], 0, Header(sequence, identity, count))
  {
    ghost var s0 := out[..];
    cursor := Put(out, 0, MAGIC);
    ghost var s1 := out[..];
    cursor := Put(out, cursor, [VERSION, FRAME_KIND_METRICS, 0]);
    ghost var s2 := out[..];
    WroteTwice(s0, s1, s2, 0, MAGIC, [VERSION, FRAME_KIND_METRICS, 0]);
    cursor := Put(out, cursor, Be16(sequence));
    ghost var s3 := out[..];
    WroteTwice(s0, s2, s3, 0, MAGIC + [VERSION, FRAME_KIND_METRICS, 0], Be16(sequence));
    ghost var front := MAGIC + [VERSION, FRAME_KIND_METRICS, 0] + Be16(sequence);
    var lengths: seq<Byte> := [count, |identity.deviceId|, |identity.nodeName|];
    cursor := Put(out, cursor, lengths);
    WroteTwice(s0, s3, out[..], 0, front, lengths);
  }

  method PutRecord(out: array<Byte>, start: nat, sample: Sample) returns (cursor: nat)
    requires start + RECORD_LEN <= out.Length
    modifies out
    ensures cursor == start + RECORD_LEN && Wrote(old(out[..]), out[..], start, RecordBytes(sample))
  {
    var metricId, sensorId := Be16(sample.metricId), Be16(sample.sensorId);
    var codes: seq<Byte> := [KindCode(sample.kind), UnitCode(sample.unit)];
    ghost var s0 := out[..];
    cursor := Put(out, start, metricId);
    ghost var s1 := out[..];
    cursor := Put(out, cursor, sensorId);
    ghost var s2 := out[..];
    WroteTwice(s0, s1, s2, start, metricId, sensorId);
    cursor := Put(out, cursor, codes);
    ghost var s3 := out[..];
    WroteTwice(s0, s2, s3, start, metricId + sensorId, codes);
    cursor := Put(out, cursor, Be32(sample.value));
    WroteTwice(s0, s3, out[..], start, metricId + sensorId + codes, Be32(sample.value));
  }

  /** The frame up to its records. */
  method PutPreamble(out: array<Byte>, sequence: U16, identity: Identity, count: Byte) returns (cursor: nat)
    requires |identity.deviceId| <= MAX_BYTE && |identity.nodeName| <= MAX_BYTE
    requires EncodedLength(identity, 0) <= out.Length
    modifies out
    ensures cursor == EncodedLength(identity, 0)
    ensures Wrote(old(out[..]), out[..], 0, Preamble(sequence, identity, count))
  {
    ghost var s0 := out[..];
    cursor := PutHeader(out, sequence, identity, count);
    ghost var s1 := out[..];
    ghost var header := Header(sequence, identity, count);
    cursor := Put(out, cursor, identity.deviceId);
    ghost var s2 := out[..];
    WroteTwice(s0, s1, s2, 0, header, identity.deviceId);
    cursor := Put(out, cursor, identity.nodeName);
    WroteTwice(s0, s2, out[..], 0, header + identity.deviceId, identity.nodeName);
  }

  method PutRecords(out: array<Byte>, start: nat, samples: seq<Sample>)
    requires start + RECORD_LEN * |samples| <= out.Length
    modifies out
    ensures Wrote(old(out[..]), out[..], start, RecordsBytes(samples))
  {
    ghost var s0 := out[..];
    var cursor := start;
    for i := 0 to |samples|
      invariant cursor == start + RECORD_LEN * i
      invariant Wrote(s0, out[..], start, RecordsBytes(samples[..i]))
    {
      ghost var s1 := out[..];
      cursor := PutRecord(out, cursor, samples[i]);
      WroteTwice(s0, s1, out[..], start, RecordsBytes(samples[..i]), RecordBytes(samples[i]));
      assert samples[..i + 1][..i] == samples[..i];
    }
    assert samples[..|samples|] == samples;
  }

  /**
   * The frame goes to the start of the buffer and the rest of the buffer is unchanged; when
   * the encoder refuses, all of it is unchanged.
   */
  method EncodeMetricsFrame(out: array<Byte>, sequence: U16, identity: Identity, samples: seq<Sample>)
    returns (r: Result<nat, EncodeError>)
    modifies out
    ensures r.Ok? <==> Encodable(identity, samples) && EncodedLength(identity, |samples|) <= out.Length
    ensures r.Ok? ==> r.value <= out.Length && out[..r.value] == FrameBytes(sequence, identity, samples)
    ensures r.Ok? ==> out[r.value..] == old(out[..])[r.value..]
    ensures r.Err? ==> Refusal(identity, samples, out.Length) == Some(r.error) && out[..] == old(out[..])
  {
    var refusal := Refusal(identity, samples, out.Length);
    if refusal.Some? {
      return Err(refusal.value);
    }
    ghost var s0 := out[..];
    var cursor := PutPreamble(out, sequence, identity, |samples|);
    ghost var s1 := out[..];
    PutRecords(out, cursor, samples);
    WroteTwice(s0, s1, out[..], 0, Preamble(sequence, identity, |samples|), RecordsBytes(samples));
    return Ok(EncodedLength(identity, |samples|));
  }

  // ---------------------------------------------------------------------------
  // Properties of the format
  // ---------------------------------------------------------------------------

  function IterOf(frame: Frame): Iter {
    Iter(frame.records, frame.metricCount)
  }

  /** The decoder accepts an input made of such parts. */
  lemma {:induction false} DecodesParts(sequence: U16, identity: Identity, count: Byte, bytes: seq<Byte>)
    requires |identity.deviceId| <= MAX_BYTE && |identity.nodeName| <= MAX_BYTE
    requires ValidUtf8(identity.deviceId) && ValidUtf8(identity.nodeName)
    requires |bytes| == EncodedLength(identity, count)
    requires var deviceEnd := HEADER_LEN + |identity.deviceId|;
      && bytes[..HEADER_LEN] == Header(sequence, identity, count)
      && bytes[HEADER_LEN..deviceEnd] == identity.deviceId
      && bytes[deviceEnd..deviceEnd + |identity.nodeName|] == identity.nodeName
    ensures IsEdgeWireFrame(bytes)
    ensures Decode(bytes) == Ok(Frame(sequence, 0, identity, count, bytes[EncodedLength(identity, 0)..]))
  {
    var header := Header(sequence, identity, count);
    assert header[0..2] == MAGIC;
    assert bytes[0..2] == bytes[..HEADER_LEN][0..2] && bytes[5..7] == bytes[..HEADER_LEN][5..7];
    assert header[5..7] == Be16(sequence);
    Be16Inverse(sequence, bytes[5..7]);
    assert forall i :: 0 <= i < HEADER_LEN ==> bytes[i] == bytes[..HEADER_LEN][i];
  }

  lemma {:induction false} PreambleParts(sequence: U16, identity: Identity, count: Byte, records: seq<Byte>)
    requires |identity.deviceId| <= MAX_BYTE && |identity.nodeName| <= MAX_BYTE
    ensures var bytes := Preamble(sequence, identity, count) + records;
      var deviceEnd := HEADER_LEN + |identity.deviceId|;
      var nodeEnd := deviceEnd + |identity.nodeName|;
      && bytes[..HEADER_LEN] == Header(sequence, identity, count)
      && bytes[HEADER_LEN..deviceEnd] == identity.deviceId
      && bytes[deviceEnd..nodeEnd] == identity.nodeName
      && bytes[nodeEnd..] == records
  {
    var header := Header(sequence, identity, count);
    var bytes := Preamble(sequence, identity, count) + records;
    assert bytes == header + (identity.deviceId + (identity.nodeName + records));
  }

  /** The decoder accepts an encoded frame, with the sequence number and the identity it was given. */
  lemma {:induction false} DecodesEncoded(sequence: U16, identity: Identity, samples: seq<Sample>)
    requires Encodable(identity, samples) && ValidUtf8(identity.deviceId) && ValidUtf8(identity.nodeName)
    ensures IsEdgeWireFrame(FrameBytes(sequence, identity, samples))
    ensures Decode(FrameBytes(sequence, identity, samples))
      == Ok(Frame(sequence, 0, identity, |samples|, RecordsBytes(samples)))
  {
    PreambleParts(sequence, identity, |samples|, RecordsBytes(samples));
    DecodesParts(sequence, identity, |samples|, FrameBytes(sequence, identity, samples));
  }

  function AllOk(samples: seq<Sample>): seq<Result<Sample, DecodeError>> {
    seq(|samples|, i requires 0 <= i < |samples| => Ok(samples[i]))
  }

  /** Its records yield the samples in order. */
  lemma {:induction false} RecordsYieldSamples(samples: seq<Sample>)
    requires forall i :: 0 <= i < |samples| ==> ValidSample(samples[i])
    ensures Items(Iter(RecordsBytes(samples), |samples|)) == AllOk(samples)
  {
    var it := Iter(RecordsBytes(samples), |samples|);
    ItemsAreRecords(it);
    forall i | 0 <= i < |samples| ensures Items(it)[i] == Ok(samples[i]) {
      RecordsBytesAt(samples, i);
      RecordRoundTrip(RecordAt(it.records, i), samples[i]);
    }
  }

  /** A decoded frame gives back the sequence number, the identity and every sample in order. */
  lemma {:induction false} FrameRoundTrip(sequence: U16, identity: Identity, samples: seq<Sample>)
    requires Encodable(identity, samples) && ValidUtf8(identity.deviceId) && ValidUtf8(identity.nodeName)
    ensures var decoded := Decode(FrameBytes(sequence, identity, samples));
      && decoded.Ok? && decoded.value.sequence == sequence && decoded.value.identity == identity
      && Items(IterOf(decoded.value)) == AllOk(samples)
  {
    DecodesEncoded(sequence, identity, samples);
    RecordsYieldSamples(samples);
  }

  /** The length the header announces. */
  function ImpliedLength(input: seq<Byte>): nat
    requires |input| >= HEADER_LEN
  {
    HEADER_LEN + input[8] + input[9] + input[7] * RECORD_LEN
  }

  /** An accepted input has exactly the announced length. */
  lemma {:induction false} AcceptedLength(input: seq<Byte>)
    requires Decode(input).Ok?
    ensures |input| >= HEADER_LEN && |input| == ImpliedLength(input)
  {}

  /** So of an input and a strict extension of it at most one is accepted. */
  lemma {:induction false} NoPrefixDecodes(input: seq<Byte>, more: seq<Byte>)
    requires more != [] && Decode(input).Ok?
    ensures Decode(input + more).Err?
  {
    AcceptedLength(input);
    assert (input + more)[..HEADER_LEN] == input[..HEADER_LEN];
    assert |input + more| > |input|;
  }

  /** An accepted frame yields one item per announced metric, and no length error. */
  lemma {:induction false} AcceptedFrameItems(input: seq<Byte>)
    requires Decode(input).Ok?
    ensures var frame := Decode(input).value;
      && |frame.records| == RECORD_LEN * frame.metricCount
      && |Items(IterOf(frame))| == frame.metricCount
      && forall i {:trigger Items(IterOf(frame))[i]} :: 0 <= i < frame.metricCount ==>
           && Items(IterOf(frame))[i] == DecodeRecord(RecordAt(frame.records, i))
           && Items(IterOf(frame))[i] != Err(BadRecordLength)
  {
    ItemsAreRecords(IterOf(Decode(input).value));
  }

  /** The samples of a frame whose records are all valid. */
  function SamplesOf(items: seq<Result<Sample, DecodeError>>): (samples: seq<Sample>)
    requires forall i :: 0 <= i < |items| ==> items[i].Ok?
    ensures |samples| == |items|
  {
    seq(|items|, i requires 0 <= i < |items| => items[i].value)
  }

  lemma {:induction false} HeaderReencodes(header: seq<Byte>, identity: Identity)
    requires |header| == HEADER_LEN && header[0..2] == MAGIC && header[2] == VERSION
    requires header[3] == FRAME_KIND_METRICS && header[4] == 0
    requires |identity.deviceId| == header[8] && |identity.nodeName| == header[9]
    ensures Header(FromBe16(header[5..7]), identity, header[7]) == header
  {
    Be16Inverse(FromBe16(header[5..7]), header[5..7]);
    assert header == header[0..2] + [header[2], header[3], header[4]] + header[5..7]
      + [header[7], header[8], header[9]];
  }

  lemma {:induction false} PreambleReencodes(input: seq<Byte>)
    requires Decode(input).Ok? && Decode(input).value.flags == 0
    ensures var frame := Decode(input).value;
      Preamble(frame.sequence, frame.identity, frame.metricCount) + frame.records == input
  {
    var frame := Decode(input).value;
    var header := input[..HEADER_LEN];
    assert header[0..2] == input[0..2] && header[5..7] == input[5..7];
    HeaderReencodes(header, frame.identity);
    assert input == header + frame.identity.deviceId + frame.identity.nodeName + frame.records;
  }

  /** Encoding what an accepted frame without flags holds gives back the frame. */
  lemma {:induction false} FrameReencodes(input: seq<Byte>)
    requires Decode(input).Ok? && Decode(input).value.flags == 0
    requires forall i :: 0 <= i < |Items(IterOf(Decode(input).value))| ==> Items(IterOf(Decode(input).value))[i].Ok?
    ensures var frame := Decode(input).value;
      var samples := SamplesOf(Items(IterOf(frame)));
      Encodable(frame.identity, samples) && FrameBytes(frame.sequence, frame.identity, samples) == input
  {
    var frame := Decode(input).value;
    var samples := SamplesOf(Items(IterOf(frame)));
    AcceptedFrameItems(input);
    forall i {:trigger samples[i]} | 0 <= i < |samples|
      ensures ValidSample(samples[i]) && RecordAt(frame.records, i) == RecordBytes(samples[i])
    {
      assert Items(IterOf(frame))[i] == Ok(samples[i]);
      RecordRoundTrip(RecordAt(frame.records, i), samples[i]);
    }
    RecordsFromParts(samples, frame.records);
    PreambleReencodes(input);
  }

  /** The bytes of a header and of a record, written out: the format as devices must produce it. */
  lemma {:induction false} HeaderBytesAre(s0: Byte, s1: Byte, identity: Identity, count: Byte)
    requires |identity.deviceId| <= MAX_BYTE && |identity.nodeName| <= MAX_BYTE
    ensures Header(s0 * 0x100 + s1, identity, count)
         == [0x53, 0x45, 1, 1, 0, s0, s1, count, |identity.deviceId|, |identity.nodeName|]
  {
    Be16Is(s0 * 0x100 + s1, s0, s1);
  }

  lemma {:induction false} RecordBytesAre(
    m0: Byte, m1: Byte, i0: Byte, i1: Byte, kind: Kind, unit: Unit, v0: Byte, v1: Byte, v2: Byte, v3: Byte)
    ensures var value := ((v0 * 0x100 + v1) * 0x100 + v2) * 0x100 + v3;
      RecordBytes(Sample(m0 * 0x100 + m1, i0 * 0x100 + i1, kind, unit, value))
        == [m0, m1, i0, i1, KindCode(kind), UnitCode(unit), v0, v1, v2, v3]
  {
    Be16Is(m0 * 0x100 + m1, m0, m1);
    Be16Is(i0 * 0x100 + i1, i0, i1);
    Be32Is(((v0 * 0x100 + v1) * 0x100 + v2) * 0x100 + v3, v0, v1, v2, v3);
  }
}
