/**
 * The database log tailer: an incremental byte-to-line machine over a growing file, with
 * short reads, read errors and rollback of the whole tail state when an export fails.
 */
module DatabaseLogs {
  import opened Bytes
  import opened Numbers
  import opened Signals

  const NEWLINE: Byte := 10
  const RETURN: Byte := 13
  const ROTATION_FINGERPRINT_BYTES: nat := 64

  /** A complete line; a truncated one is exported with a marker appended. */
  datatype Line = Line(text: seq<Byte>, truncated: bool)

  /** The unfinished line: what is kept of it, and whether some of it was dropped. */
  datatype Partial = Partial(pending: seq<Byte>, truncated: bool)

  const NOTHING := Partial([], false)

  datatype Fed = Fed(lines: seq<Line>, partial: Partial)

  // ---------------------------------------------------------------------------
  // Incremental splitting
  // ---------------------------------------------------------------------------

  function DropReturn(text: seq<Byte>): seq<Byte> {
    if text != [] && text[|text| - 1] == RETURN then text[..|text| - 1] else text
  }

  /** The line that ends with `p`, if it is not blank. */
  function Complete(p: Partial): seq<Line> {
    var text := DropReturn(p.pending);
    if text != [] || p.truncated then [Line(text, p.truncated)] else []
  }

  function FeedByte(f: Fed, b: Byte, limit: nat): Fed {
    if b == NEWLINE then Fed(f.lines + Complete(f.partial), NOTHING)
    else if |f.partial.pending| < limit then f.(partial := f.partial.(pending := f.partial.pending + [b]))
    else f.(partial := f.partial.(truncated := true))
  }

  function FeedAll(f: Fed, bytes: seq<Byte>, limit: nat): Fed {
    if bytes == [] then f else FeedByte(FeedAll(f, bytes[..|bytes| - 1], limit), bytes[|bytes| - 1], limit)
  }

  /** The lines that `bytes` complete after the unfinished line `p`, and what they leave unfinished. */
  function Feed(p: Partial, bytes: seq<Byte>, limit: nat): Fed {
    FeedAll(Fed([], p), bytes, limit)
  }

  // ---------------------------------------------------------------------------
  // The reference: split the whole stream at its newlines
  // ---------------------------------------------------------------------------

  /** The stretches between newlines; the last one is still open. */
  function Segments(bytes: seq<Byte>): (segments: seq<seq<Byte>>)
    ensures segments != []
  {
    if bytes == [] then [[]] else
      var n := |bytes| - 1;
      var front := Segments(bytes[..n]);
      if bytes[n] == NEWLINE then front + [[]]
      else front[..|front| - 1] + [front[|front| - 1] + [bytes[n]]]
  }

  function Join(segments: seq<seq<Byte>>): seq<Byte>
    requires segments != []
  {
    if |segments| == 1 then segments[0]
    else Join(segments[..|segments| - 1]) + [NEWLINE] + segments[|segments| - 1]
  }

  /** What is kept of a stretch under the line limit. */
  function Bound(segment: seq<Byte>, limit: nat): Partial {
    Partial(segment[..Min(|segment|, limit)], |segment| > limit)
  }

  function CompleteAll(segments: seq<seq<Byte>>, limit: nat): seq<Line> {
    if segments == [] then []
    else CompleteAll(segments[..|segments| - 1], limit) + Complete(Bound(segments[|segments| - 1], limit))
  }

  /** Splitting all of `bytes` at once. */
  function Split(bytes: seq<Byte>, limit: nat): Fed {
    var segments := Segments(bytes);
    Fed(CompleteAll(segments[..|segments| - 1], limit), Bound(segments[|segments| - 1], limit))
  }

  lemma {:induction false} JoinNew(segments: seq<seq<Byte>>)
    requires segments != []
    ensures Join(segments + [[]]) == Join(segments) + [NEWLINE]
  {
    assert (segments + [[]])[..|segments|] == segments;
  }

  lemma {:induction false} JoinLonger(segments: seq<seq<Byte>>, b: Byte)
    requires segments != []
    ensures var n := |segments| - 1; Join(segments[..n] + [segments[n] + [b]]) == Join(segments) + [b]
  {
    var n := |segments| - 1;
    var longer := segments[..n] + [segments[n] + [b]];
    assert longer[..n] == segments[..n];
  }

  /** The stretches are newline-free and give back the bytes. */
  lemma {:induction false} SegmentsJoin(bytes: seq<Byte>)
    ensures Join(Segments(bytes)) == bytes
    ensures forall i :: 0 <= i < |Segments(bytes)| ==> NEWLINE !in Segments(bytes)[i]
    decreases |bytes|
  {
    if bytes != [] {
      var n := |bytes| - 1;
      var front := Segments(bytes[..n]);
      SegmentsJoin(bytes[..n]);
      assert bytes == bytes[..n] + [bytes[n]];
      if bytes[n] == NEWLINE {
        JoinNew(front);
      } else {
        JoinLonger(front, bytes[n]);
      }
    }
  }

  /** Feeding byte by byte is splitting at once. */
  lemma {:induction false} FeedIsSplit(bytes: seq<Byte>, limit: nat)
    ensures Feed(NOTHING, bytes, limit) == Split(bytes, limit)
    decreases |bytes|
  {
    if bytes == [] {
      assert Segments(bytes)[..0] == [];
    } else {
      var n := |bytes| - 1;
      var front, all := Segments(bytes[..n]), Segments(bytes);
      FeedIsSplit(bytes[..n], limit);
      if bytes[n] == NEWLINE {
        assert all[..|all| - 1] == front;
      } else {
        assert all[..|all| - 1] == front[..|front| - 1];
      }
    }
  }

  lemma {:induction false} FeedSnoc(f: Fed, bytes: seq<Byte>, b: Byte, limit: nat)
    ensures FeedAll(f, bytes + [b], limit) == FeedByte(FeedAll(f, bytes, limit), b, limit)
  {
    assert (bytes + [b])[..|bytes|] == bytes;
  }

  /** Feeding in two parts. */
  lemma {:induction false} FeedConcat(f: Fed, a: seq<Byte>, b: seq<Byte>, limit: nat)
    ensures FeedAll(f, a + b, limit) == FeedAll(FeedAll(f, a, limit), b, limit)
    decreases |b|
  {
    if b == [] {
      assert a + b == a;
    } else {
      var front, last := b[..|b| - 1], b[|b| - 1];
      FeedConcat(f, a, front, limit);
      assert a + b == (a + front) + [last];
      FeedSnoc(f, a + front, last, limit);
    }
  }

  /** Lines completed earlier do not matter to what follows. */
  lemma {:induction false} FeedAfter(f: Fed, bytes: seq<Byte>, limit: nat)
    ensures var fed := Feed(f.partial, bytes, limit);
      FeedAll(f, bytes, limit) == Fed(f.lines + fed.lines, fed.partial)
    decreases |bytes|
  {
    if bytes == [] {
      assert f.lines + [] == f.lines;
    } else {
      var front, last := bytes[..|bytes| - 1], bytes[|bytes| - 1];
      FeedAfter(f, front, limit);
      var fed := Feed(f.partial, front, limit);
      assert (f.lines + fed.lines) + Complete(fed.partial) == f.lines + (fed.lines + Complete(fed.partial));
    }
  }

  /** Extending what was fed by what follows. */
  lemma {:induction false} FeedExtends(a: seq<Byte>, b: seq<Byte>, before: Fed, limit: nat)
    requires before == Feed(NOTHING, a, limit)
    ensures var fed := Feed(before.partial, b, limit);
      Feed(NOTHING, a + b, limit) == Fed(before.lines + fed.lines, fed.partial)
  {
    FeedConcat(Fed([], NOTHING), a, b, limit);
    FeedAfter(before, b, limit);
  }

  // ---------------------------------------------------------------------------
  // Polling
  // ---------------------------------------------------------------------------

  datatype Start = Beginning | End

  datatype Tail = Tail(initialized: bool, offset: nat, fingerprint: Option<seq<Byte>>, partial: Partial)

  const FRESH := Tail(false, 0, None, NOTHING)

  function Fingerprint(file: seq<Byte>): seq<Byte> {
    file[..Min(|file|, ROTATION_FINGERPRINT_BYTES)]
  }

  predicate FingerprintReplaced(previous: seq<Byte>, current: seq<Byte>) {
    if |current| >= |previous| then !(previous <= current) else !(current <= previous)
  }

  /** The file looks truncated or replaced. */
  predicate Rotated(t: Tail, file: seq<Byte>) {
    || |file| < t.offset
    || (t.fingerprint.Some? && FingerprintReplaced(t.fingerprint.value, Fingerprint(file)))
  }

  /** The part of a poll before anything is read. */
  function Located(t: Tail, file: seq<Byte>, start: Start): Tail {
    if !t.initialized then
      t.(initialized := true, offset := if start.Beginning? then 0 else |file|, fingerprint := Some(Fingerprint(file)))
    else if Rotated(t, file) then
      t.(offset := 0, partial := NOTHING, fingerprint := Some(Fingerprint(file)))
    else
      t.(fingerprint := Some(Fingerprint(file)))
  }

  datatype Polled = Polled(lines: seq<Line>, tail: Tail)

  /** Take in the next `n` bytes. */
  function Advance(t: Tail, file: seq<Byte>, limit: nat, n: nat): Polled
    requires t.offset + n <= |file|
  {
    var fed := Feed(t.partial, file[t.offset..t.offset + n], limit);
    Polled(fed.lines, t.(offset := t.offset + n, partial := fed.partial))
  }

  /** Read on from a located tail; `count` is how much the read call happens to return. */
  function ReadOn(t: Tail, file: seq<Byte>, limit: nat, maxRead: nat, count: nat): Polled {
    if t.offset >= |file| then Polled([], t)
    else Advance(t, file, limit, Min(count, Min(|file| - t.offset, maxRead)))
  }

  /** One successful poll. */
  function Poll(t: Tail, file: seq<Byte>, start: Start, limit: nat, maxRead: nat, count: nat): Polled {
    ReadOn(Located(t, file, start), file, limit, maxRead, count)
  }

  datatype Reading = OpenFails | ReadFails | Reads(count: nat)

  /** One round: the file grew by `growth`, the poll reads or fails, the export of its lines succeeds or fails. */
  datatype Round = Round(growth: seq<Byte>, reading: Reading, exported: bool)

  /** A source being tailed since position `from`, and the lines whose export succeeded. */
  datatype Receiver = Receiver(file: seq<Byte>, from: nat, tail: Tail, delivered: seq<Line>)

  function StartOf(r: Receiver, located: Tail): nat {
    if r.tail.initialized then r.from else located.offset
  }

  function StepRound(r: Receiver, e: Round, start: Start, limit: nat, maxRead: nat): Receiver {
    var file := r.file + e.growth;
    var located := Located(r.tail, file, start);
    match e.reading
    case OpenFails => r.(file := file)
    case ReadFails => Receiver(file, StartOf(r, located), located, r.delivered)
    case Reads(count) =>
      var polled := Poll(r.tail, file, start, limit, maxRead, count);
      if polled.lines != [] && !e.exported then r.(file := file)
      else Receiver(file, StartOf(r, located), polled.tail, r.delivered + polled.lines)
  }

  function Run(file: seq<Byte>, rounds: seq<Round>, start: Start, limit: nat, maxRead: nat): Receiver {
    if rounds == [] then Receiver(file, 0, FRESH, [])
    else
      var before := Run(file, rounds[..|rounds| - 1], start, limit, maxRead);
      StepRound(before, rounds[|rounds| - 1], start, limit, maxRead)
  }

  // ---------------------------------------------------------------------------
  // Over an append-only file
  // ---------------------------------------------------------------------------

  /** Everything delivered, and the pending partial line, come from splitting `file[from..offset]` at once. */
  predicate Consumed(r: Receiver, limit: nat) {
    && r.from <= r.tail.offset <= |r.file|
    && Fed(r.delivered, r.tail.partial) == Split(r.file[r.from..r.tail.offset], limit)
  }

  /** The same, in terms of feeding byte by byte. */
  predicate Progress(file: seq<Byte>, from: nat, offset: nat, fed: Fed, limit: nat) {
    from <= offset <= |file| && fed == Feed(NOTHING, file[from..offset], limit)
  }

  predicate FingerprintOk(fingerprint: Option<seq<Byte>>, file: seq<Byte>) {
    fingerprint.Some? ==> fingerprint.value <= file && |fingerprint.value| <= ROTATION_FINGERPRINT_BYTES
  }

  predicate Inv(r: Receiver, start: Start, limit: nat) {
    && FingerprintOk(r.tail.fingerprint, r.file)
    && (if r.tail.initialized
        then (start.Beginning? ==> r.from == 0)
             && Progress(r.file, r.from, r.tail.offset, Fed(r.delivered, r.tail.partial), limit)
        else r.tail == FRESH && r.from == 0 && r.delivered == [])
  }

  lemma {:induction false} NoFalseRotation(t: Tail, file: seq<Byte>)
    requires t.offset <= |file|
    requires FingerprintOk(t.fingerprint, file)
    ensures !Rotated(t, file)
  {
    if t.fingerprint.Some? {
      var previous, current := t.fingerprint.value, Fingerprint(file);
      assert previous == file[..|previous|];
      assert |previous| <= |current|;
      assert previous == current[..|previous|];
    }
  }

  lemma {:induction false} GrowthKeeps(r: Receiver, growth: seq<Byte>, start: Start, limit: nat)
    requires Inv(r, start, limit)
    ensures Inv(r.(file := r.file + growth), start, limit)
  {
    if r.tail.initialized {
      assert (r.file + growth)[r.from..r.tail.offset] == r.file[r.from..r.tail.offset];
    }
  }

  /** Locating starts a fresh tail and otherwise only refreshes the fingerprint. */
  lemma {:induction false} LocateKeeps(r: Receiver, start: Start, limit: nat)
    requires Inv(r, start, limit)
    ensures var located := Located(r.tail, r.file, start);
      located.initialized && Inv(Receiver(r.file, StartOf(r, located), located, r.delivered), start, limit)
  {
    var located := Located(r.tail, r.file, start);
    if r.tail.initialized {
      NoFalseRotation(r.tail, r.file);
    } else {
      assert r.file[located.offset..located.offset] == [];
    }
  }

  lemma {:induction false} ProgressExtends(file: seq<Byte>, from: nat, offset: nat, n: nat, before: Fed, limit: nat)
    requires Progress(file, from, offset, before, limit) && offset + n <= |file|
    ensures var fed := Feed(before.partial, file[offset..offset + n], limit);
      Progress(file, from, offset + n, Fed(before.lines + fed.lines, fed.partial), limit)
  {
    var a, b := file[from..offset], file[offset..offset + n];
    assert file[from..offset + n] == a + b;
    FeedExtends(a, b, before, limit);
  }

  lemma {:induction false} AdvanceKeeps(r: Receiver, n: nat, start: Start, limit: nat)
    requires Inv(r, start, limit) && r.tail.initialized && r.tail.offset + n <= |r.file|
    ensures var polled := Advance(r.tail, r.file, limit, n);
      Inv(r.(tail := polled.tail, delivered := r.delivered + polled.lines), start, limit)
  {
    ProgressExtends(r.file, r.from, r.tail.offset, n, Fed(r.delivered, r.tail.partial), limit);
  }

  lemma {:induction false} ReadOnKeeps(r: Receiver, count: nat, start: Start, limit: nat, maxRead: nat)
    requires Inv(r, start, limit) && r.tail.initialized
    ensures var polled := ReadOn(r.tail, r.file, limit, maxRead, count);
      Inv(r.(tail := polled.tail, delivered := r.delivered + polled.lines), start, limit)
  {
    if r.tail.offset < |r.file| {
      AdvanceKeeps(r, Min(count, Min(|r.file| - r.tail.offset, maxRead)), start, limit);
    } else {
      assert r.(delivered := r.delivered + []) == r;
    }
  }

  lemma {:induction false} PollKeeps(r: Receiver, count: nat, start: Start, limit: nat, maxRead: nat)
    requires Inv(r, start, limit)
    ensures var polled := Poll(r.tail, r.file, start, limit, maxRead, count);
      var from := StartOf(r, Located(r.tail, r.file, start));
      Inv(Receiver(r.file, from, polled.tail, r.delivered + polled.lines), start, limit)
  {
    LocateKeeps(r, start, limit);
    var tail := Located(r.tail, r.file, start);
    ReadOnKeeps(Receiver(r.file, StartOf(r, tail), tail, r.delivered), count, start, limit, maxRead);
  }

  lemma {:induction false} RoundKeeps(r: Receiver, e: Round, start: Start, limit: nat, maxRead: nat)
    requires Inv(r, start, limit)
    ensures Inv(StepRound(r, e, start, limit, maxRead), start, limit)
  {
    var grown := r.(file := r.file + e.growth);
    GrowthKeeps(r, e.growth, start, limit);
    match e.reading
    case OpenFails =>
    case ReadFails => LocateKeeps(grown, start, limit);
    case Reads(count) => PollKeeps(grown, count, start, limit, maxRead);
  }

  lemma {:induction false} RunKeeps(file: seq<Byte>, rounds: seq<Round>, start: Start, limit: nat, maxRead: nat)
    ensures Inv(Run(file, rounds, start, limit, maxRead), start, limit)
    decreases |rounds|
  {
    if rounds != [] {
      RunKeeps(file, rounds[..|rounds| - 1], start, limit, maxRead);
      RoundKeeps(Run(file, rounds[..|rounds| - 1], start, limit, maxRead), rounds[|rounds| - 1], start, limit, maxRead);
    }
  }

  /**
   * Over an append-only file, for every run of polls with any read sizes, read errors and
   * export results: the lines whose export succeeded, with the pending partial line, are the
   * one-shot split of the bytes consumed; the pending line respects the limit; and no poll,
   * now or after any further growth, takes the file for a rotated one.
   */
  lemma {:induction false} TailRefinesSplit(
    file: seq<Byte>, rounds: seq<Round>, start: Start, limit: nat, maxRead: nat, growth: seq<Byte>)
    ensures
      var r := Run(file, rounds, start, limit, maxRead);
      && (r.tail.initialized ==> Consumed(r, limit) && (start.Beginning? ==> r.from == 0))
      && (!r.tail.initialized ==> r.delivered == [] && r.tail == FRESH)
      && |r.tail.partial.pending| <= limit
      && !Rotated(r.tail, r.file + growth)
  {
    var r := Run(file, rounds, start, limit, maxRead);
    RunKeeps(file, rounds, start, limit, maxRead);
    NoFalseRotation(r.tail, r.file + growth);
    if r.tail.initialized {
      FeedIsSplit(r.file[r.from..r.tail.offset], limit);
    }
  }

  /** A round in which the file does not grow, at least one byte is read if there is one, and the export succeeds. */
  predicate GoodRound(e: Round) {
    e.growth == [] && e.reading.Reads? && e.reading.count >= 1 && e.exported
  }

  /** Such a round moves on by at least one byte, unless it is at the end. */
  lemma {:induction false} RoundAdvances(r: Receiver, e: Round, start: Start, limit: nat, maxRead: nat, k: nat)
    requires Inv(r, start, limit) && GoodRound(e) && maxRead >= 1
    requires r.tail.initialized ==> r.tail.offset >= Min(|r.file|, k)
    requires !r.tail.initialized ==> k == 0
    ensures var r' := StepRound(r, e, start, limit, maxRead);
      r'.file == r.file && r'.tail.initialized && r'.tail.offset >= Min(|r.file|, k + 1)
  {
    assert r.file + e.growth == r.file;
    if r.tail.initialized {
      NoFalseRotation(r.tail, r.file);
    }
  }

  lemma {:induction false} RunMore(
    file: seq<Byte>, rounds: seq<Round>, more: seq<Round>, start: Start, limit: nat, maxRead: nat)
    requires more != []
    ensures var front, e := more[..|more| - 1], more[|more| - 1];
      Run(file, rounds + more, start, limit, maxRead)
        == StepRound(Run(file, rounds + front, start, limit, maxRead), e, start, limit, maxRead)
  {
    assert (rounds + more)[..|rounds + more| - 1] == rounds + more[..|more| - 1];
  }

  lemma {:induction false} RoundsAdvance(
    file: seq<Byte>, rounds: seq<Round>, more: seq<Round>, start: Start, limit: nat, maxRead: nat)
    requires maxRead >= 1 && forall i :: 0 <= i < |more| ==> GoodRound(more[i])
    ensures var r, r' := Run(file, rounds, start, limit, maxRead), Run(file, rounds + more, start, limit, maxRead);
      && r'.file == r.file
      && (more != [] ==> r'.tail.initialized) && (r'.tail.initialized ==> r'.tail.offset >= Min(|r.file|, |more|))
    decreases |more|
  {
    if more == [] {
      assert rounds + more == rounds;
    } else {
      var front, e := more[..|more| - 1], more[|more| - 1];
      RoundsAdvance(file, rounds, front, start, limit, maxRead);
      RunKeeps(file, rounds + front, start, limit, maxRead);
      var before := Run(file, rounds + front, start, limit, maxRead);
      RunMore(file, rounds, more, start, limit, maxRead);
      RoundAdvances(before, e, start, limit, maxRead, |front|);
    }
  }

  /**
   * Once the file stops growing, after any history and at most as many good rounds as the file
   * has bytes, everything has been read: the exported lines and the pending line are the
   * one-shot split of the whole file from where the tail began.
   */
  lemma {:induction false} TailCatchesUp(
    file: seq<Byte>, rounds: seq<Round>, more: seq<Round>, start: Start, limit: nat, maxRead: nat)
    requires maxRead >= 1 && forall i :: 0 <= i < |more| ==> GoodRound(more[i])
    requires |more| >= 1 && |more| >= |Run(file, rounds, start, limit, maxRead).file|
    ensures var r := Run(file, rounds + more, start, limit, maxRead);
      && r.file == Run(file, rounds, start, limit, maxRead).file && r.tail.offset == |r.file| && r.from <= |r.file|
      && Fed(r.delivered, r.tail.partial) == Split(r.file[r.from..], limit)
      && (start.Beginning? ==> r.from == 0)
  {
    RoundsAdvance(file, rounds, more, start, limit, maxRead);
    TailRefinesSplit(file, rounds + more, start, limit, maxRead, []);
    var r := Run(file, rounds + more, start, limit, maxRead);
    assert r.file[r.from..r.tail.offset] == r.file[r.from..];
  }

  /** A poll that does see a rotation goes on exactly like a new tail from the beginning of the new file. */
  lemma {:induction false} RotationStartsOver(
    t: Tail, file: seq<Byte>, start: Start, limit: nat, maxRead: nat, count: nat)
    requires t.initialized && Rotated(t, file)
    ensures Poll(t, file, start, limit, maxRead, count) == Poll(FRESH, file, Beginning, limit, maxRead, count)
  {
    assert Located(t, file, start) == Located(FRESH, file, Beginning);
  }

  // ---------------------------------------------------------------------------
  // The receiver's code
  // ---------------------------------------------------------------------------

  /** The tail state that a receiver keeps per source and updates in place. */
  class TailState {
    var initialized: bool
    var offset: nat
    var fingerprint: Option<seq<Byte>>
    var pendingLine: seq<Byte>
    var pendingLineTruncated: bool

    constructor ()
      ensures Value() == FRESH
    {
      initialized, offset, fingerprint, pendingLine, pendingLineTruncated := false, 0, None, [], false;
    }

    function Value(): Tail
      reads this
    {
      Tail(initialized, offset, fingerprint, Partial(pendingLine, pendingLineTruncated))
    }

    method CompleteLines(bytes: seq<Byte>, limit: nat) returns (lines: seq<Line>)
      modifies this
      ensures Fed(lines, Value().partial) == Feed(old(Value().partial), bytes, limit)
      ensures Value() == old(Value()).(partial := Value().partial)
    {
      lines := [];
      for i := 0 to |bytes|
        invariant Fed(lines, Value().partial) == Feed(old(Value().partial), bytes[..i], limit)
        invariant Value() == old(Value()).(partial := Value().partial)
      {
        assert bytes[..i + 1][..i] == bytes[..i];
        if bytes[i] == NEWLINE {
          if pendingLine != [] && pendingLine[|pendingLine| - 1] == RETURN {
            pendingLine := pendingLine[..|pendingLine| - 1];
          }
          if pendingLine != [] || pendingLineTruncated {
            lines := lines + [Line(pendingLine, pendingLineTruncated)];
          }
          pendingLine := [];
          pendingLineTruncated := false;
        } else if |pendingLine| < limit {
          pendingLine := pendingLine + [bytes[i]];
        } else {
          pendingLineTruncated := true;
        }
      }
      assert bytes[..|bytes|] == bytes;
    }

    /** Find where to read on: at the chosen end of a new source, anew if the file was rotated. */
    method Locate(file: seq<Byte>, start: Start)
      modifies this
      ensures Value() == Located(old(Value()), file, start)
    {
      var current := Fingerprint(file);
      if !initialized {
        offset := if start.Beginning? then 0 else |file|;
        fingerprint := Some(current);
        initialized := true;
      } else {
        var truncated := |file| < offset;
        var replaced := fingerprint.Some? && FingerprintReplaced(fingerprint.value, current);
        if truncated || replaced {
          offset := 0;
          pendingLine := [];
          pendingLineTruncated := false;
        }
        fingerprint := Some(current);
      }
    }

    /** Poll once; a failed read leaves the tail located but unread. */
    method PollSource(file: seq<Byte>, start: Start, limit: nat, maxRead: nat, reading: Reading)
      returns (lines: Option<seq<Line>>)
      modifies this
      ensures match reading
        case OpenFails => lines == None && Value() == old(Value())
        case ReadFails => Value() == Located(old(Value()), file, start) && (lines.None? || lines == Some([]))
        case Reads(count) =>
          lines.Some? && Polled(lines.value, Value()) == Poll(old(Value()), file, start, limit, maxRead, count)
    {
      if reading.OpenFails? {
        return None;
      }
      Locate(file, start);
      if offset >= |file| {
        return Some([]);
      }
      if reading.ReadFails? {
        return None;
      }
      var n := Min(reading.count, Min(|file| - offset, maxRead));
      var bytes := file[offset..offset + n];
      offset := offset + n;
      var complete := CompleteLines(bytes, limit);
      lines := Some(complete);
    }

    method Restore(checkpoint: Tail)
      modifies this
      ensures Value() == checkpoint
    {
      initialized, offset, fingerprint := checkpoint.initialized, checkpoint.offset, checkpoint.fingerprint;
      pendingLine, pendingLineTruncated := checkpoint.partial.pending, checkpoint.partial.truncated;
    }

    /** Poll and export; a failed export restores the checkpoint taken before the poll. */
    method PollAndExportSource(
      ghost from: nat, ghost delivered: seq<Line>,
      file: seq<Byte>, start: Start, limit: nat, maxRead: nat, reading: Reading, exported: bool)
      returns (batch: seq<Line>)
      modifies this
      ensures
        var before := Receiver(file, from, old(Value()), delivered);
        var r := StepRound(before, Round([], reading, exported), start, limit, maxRead);
        r.tail == Value() && r.delivered == delivered + batch
    {
      var checkpoint := Value();
      var lines := PollSource(file, start, limit, maxRead, reading);
      assert file + [] == file && delivered + [] == delivered;
      if lines.None? || lines.value == [] {
        return [];
      }
      if !exported {
        Restore(checkpoint);
        return [];
      }
      batch := lines.value;
    }
  }
}
