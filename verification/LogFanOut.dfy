/**
 * The tailer and the pipeline together: the batch of lines of a poll goes to every exporter of
 * the log pipeline, and is polled again from the checkpoint unless all of them accept it.
 */
module LogFanOut {
  import opened Bytes
  import Logs = DatabaseLogs
  import Pipeline
  import opened Signals

  datatype Config = Config(
    file: seq<Byte>, start: Logs.Start, limit: nat, maxRead: nat,
    pipeline: Pipeline.PipelineConfig, known: set<string>
  )

  /** One round: how the file grew, how the poll goes, and what sending to each exporter would give. */
  datatype Round = Round(growth: seq<Byte>, reading: Logs.Reading, sending: seq<Option<string>>)

  /** Lines that come after the first `at` lines of the file, and whether every exporter accepted them. */
  datatype Batch = Batch(at: nat, lines: seq<Logs.Line>, whole: bool)

  predicate WellFormed(c: Config, rounds: seq<Round>) {
    forall i :: 0 <= i < |rounds| ==> |rounds[i].sending| == |c.pipeline.exporters|
  }

  predicate Routed(c: Config) {
    Pipeline.DatabaseLogs in c.pipeline.receivers
  }

  predicate Accepts(c: Config, e: Round, i: nat)
    requires i < |c.pipeline.exporters| == |e.sending|
  {
    Routed(c) && Pipeline.FailureOf(c.known, c.pipeline.exporters[i], e.sending[i]).None?
  }

  /** What `Pipeline.Export` returns for the batch of a round. */
  predicate Exported(c: Config, e: Round)
    requires |e.sending| == |c.pipeline.exporters|
  {
    !Routed(c) || Pipeline.AllSucceed(c.known, c.pipeline.exporters, e.sending)
  }

  function LogRounds(c: Config, rounds: seq<Round>): seq<Logs.Round>
    requires WellFormed(c, rounds)
  {
    seq(|rounds|, i requires 0 <= i < |rounds| =>
      Logs.Round(rounds[i].growth, rounds[i].reading, Exported(c, rounds[i])))
  }

  /** The tailed source after some rounds. */
  function Source(c: Config, rounds: seq<Round>): Logs.Receiver
    requires WellFormed(c, rounds)
  {
    Logs.Run(c.file, LogRounds(c, rounds), c.start, c.limit, c.maxRead)
  }

  lemma {:induction false} SourceStep(c: Config, rounds: seq<Round>)
    requires WellFormed(c, rounds) && rounds != []
    ensures var front, e := rounds[..|rounds| - 1], rounds[|rounds| - 1];
      var step := Logs.Round(e.growth, e.reading, Exported(c, e));
      Source(c, rounds) == Logs.StepRound(Source(c, front), step, c.start, c.limit, c.maxRead)
  {
    var n := |rounds| - 1;
    assert LogRounds(c, rounds)[..n] == LogRounds(c, rounds[..n]);
  }

  /** The lines that the poll of the last round finds. */
  function Found(c: Config, rounds: seq<Round>): seq<Logs.Line>
    requires WellFormed(c, rounds) && rounds != []
  {
    var r, e := Source(c, rounds[..|rounds| - 1]), rounds[|rounds| - 1];
    if e.reading.Reads?
    then Logs.Poll(r.tail, r.file + e.growth, c.start, c.limit, c.maxRead, e.reading.count).lines
    else []
  }

  function LastBatch(c: Config, rounds: seq<Round>): Batch
    requires WellFormed(c, rounds) && rounds != []
  {
    Batch(|Source(c, rounds[..|rounds| - 1]).delivered|, Found(c, rounds), Exported(c, rounds[|rounds| - 1]))
  }

  /** The batches whose export succeeded, as the receiver sees it. */
  function Delivered(c: Config, rounds: seq<Round>): seq<Batch>
    requires WellFormed(c, rounds)
  {
    if rounds == [] then [] else
      var front, e := rounds[..|rounds| - 1], rounds[|rounds| - 1];
      Delivered(c, front) + if Found(c, rounds) != [] && Exported(c, e) then [LastBatch(c, rounds)] else []
  }

  /** The batches that exporter `i` accepted. */
  function Accepted(c: Config, rounds: seq<Round>, i: nat): seq<Batch>
    requires WellFormed(c, rounds) && i < |c.pipeline.exporters|
  {
    if rounds == [] then [] else
      var front, e := rounds[..|rounds| - 1], rounds[|rounds| - 1];
      Accepted(c, front, i) + if Found(c, rounds) != [] && Accepts(c, e, i) then [LastBatch(c, rounds)] else []
  }

  // ---------------------------------------------------------------------------
  // At least once
  // ---------------------------------------------------------------------------

  function Lines(batches: seq<Batch>): seq<Logs.Line> {
    if batches == [] then [] else Lines(batches[..|batches| - 1]) + batches[|batches| - 1].lines
  }

  lemma {:induction false} LinesSnoc(batches: seq<Batch>, last: Batch)
    ensures Lines(batches + [last]) == Lines(batches) + last.lines
  {
    assert (batches + [last])[..|batches|] == batches;
  }

  lemma {:induction false} LastDelivers(c: Config, rounds: seq<Round>)
    requires WellFormed(c, rounds) && rounds != []
    ensures var front, e := rounds[..|rounds| - 1], rounds[|rounds| - 1];
      Source(c, rounds).delivered
        == Source(c, front).delivered + if Exported(c, e) then Found(c, rounds) else []
  {
    SourceStep(c, rounds);
  }

  /** The delivered batches make up the delivered lines. */
  lemma {:induction false} DeliveredLines(c: Config, rounds: seq<Round>)
    requires WellFormed(c, rounds)
    ensures Lines(Delivered(c, rounds)) == Source(c, rounds).delivered
    decreases |rounds|
  {
    if rounds != [] {
      var front := rounds[..|rounds| - 1];
      DeliveredLines(c, front);
      LastDelivers(c, rounds);
      LinesSnoc(Delivered(c, front), LastBatch(c, rounds));
      assert Delivered(c, front) + [] == Delivered(c, front);
    }
  }

  /** The batches that every exporter accepted. */
  function Whole(batches: seq<Batch>): seq<Batch> {
    if batches == [] then [] else
      var last := batches[|batches| - 1];
      Whole(batches[..|batches| - 1]) + if last.whole then [last] else []
  }

  lemma {:induction false} WholeSnoc(batches: seq<Batch>, last: Batch)
    ensures Whole(batches + [last]) == Whole(batches) + if last.whole then [last] else []
  {
    assert (batches + [last])[..|batches|] == batches;
  }

  /**
   * Every exporter accepts every delivered batch, in order: leaving out what it accepted in
   * rounds in which another refused, it has accepted the delivered batches and no others.
   */
  lemma {:induction false} AtLeastOnce(c: Config, rounds: seq<Round>, i: nat)
    requires WellFormed(c, rounds) && i < |c.pipeline.exporters|
    ensures Whole(Accepted(c, rounds, i)) == if Routed(c) then Delivered(c, rounds) else []
    ensures !Routed(c) ==> Accepted(c, rounds, i) == []
    decreases |rounds|
  {
    if rounds != [] {
      var front := rounds[..|rounds| - 1];
      AtLeastOnce(c, front, i);
      WholeSnoc(Accepted(c, front, i), LastBatch(c, rounds));
      assert Accepted(c, front, i) + [] == Accepted(c, front, i);
      assert Delivered(c, front) + [] == Delivered(c, front);
    }
  }

  // ---------------------------------------------------------------------------
  // Exactly once
  // ---------------------------------------------------------------------------

  /** The last round finds lines that exporter `i` accepts and another exporter refuses. */
  predicate LastRepeats(c: Config, rounds: seq<Round>, i: nat)
    requires WellFormed(c, rounds) && i < |c.pipeline.exporters| && rounds != []
  {
    Found(c, rounds) != [] && Accepts(c, rounds[|rounds| - 1], i) && !Exported(c, rounds[|rounds| - 1])
  }

  predicate NeverRepeats(c: Config, rounds: seq<Round>, i: nat)
    requires WellFormed(c, rounds) && i < |c.pipeline.exporters|
  {
    rounds == [] || (NeverRepeats(c, rounds[..|rounds| - 1], i) && !LastRepeats(c, rounds, i))
  }

  /** The last round adds the same to both, unless it is one that exporter `i` will see repeated. */
  lemma {:induction false} LastRound(c: Config, rounds: seq<Round>, i: nat)
    requires WellFormed(c, rounds) && i < |c.pipeline.exporters| && Routed(c) && rounds != []
    ensures var n, batch := |rounds| - 1, LastBatch(c, rounds);
      var added := if Found(c, rounds) != [] && Exported(c, rounds[n]) then [batch] else [];
      && Delivered(c, rounds) == Delivered(c, rounds[..n]) + added
      && Accepted(c, rounds, i) == Accepted(c, rounds[..n], i) + (if LastRepeats(c, rounds, i) then [batch] else added)
      && (LastRepeats(c, rounds, i) ==> added == [])
  {
    var e := rounds[|rounds| - 1];
    if Exported(c, e) {
      assert Accepts(c, e, i);
    }
  }

  lemma {:induction false} AcceptedAtLeast(c: Config, rounds: seq<Round>, i: nat)
    requires WellFormed(c, rounds) && i < |c.pipeline.exporters| && Routed(c)
    ensures |Accepted(c, rounds, i)| >= |Delivered(c, rounds)|
    ensures |Accepted(c, rounds, i)| == |Delivered(c, rounds)| <==> NeverRepeats(c, rounds, i)
    ensures NeverRepeats(c, rounds, i) ==> Accepted(c, rounds, i) == Delivered(c, rounds)
    decreases |rounds|
  {
    if rounds != [] {
      AcceptedAtLeast(c, rounds[..|rounds| - 1], i);
      LastRound(c, rounds, i);
    }
  }

  /** Some exporter would accept a batch in this round and another one refuse it. */
  predicate Divided(c: Config, e: Round)
    requires |e.sending| == |c.pipeline.exporters|
  {
    && (exists i :: 0 <= i < |c.pipeline.exporters| && Accepts(c, e, i))
    && exists j :: 0 <= j < |c.pipeline.exporters| && !Accepts(c, e, j)
  }

  /** No round finds lines that one exporter accepts and another refuses. */
  predicate NoneSplit(c: Config, rounds: seq<Round>)
    requires WellFormed(c, rounds)
  {
    if rounds == [] then true
    else NoneSplit(c, rounds[..|rounds| - 1]) && (Found(c, rounds) == [] || !Divided(c, rounds[|rounds| - 1]))
  }

  lemma {:induction false} FailsAtSome(c: Config, e: Round)
    requires |e.sending| == |c.pipeline.exporters|
    ensures !Exported(c, e) <==> Routed(c) && exists j :: 0 <= j < |c.pipeline.exporters| && !Accepts(c, e, j)
  {
    if !Exported(c, e) {
      var j :| 0 <= j < |e.sending| && Pipeline.FailureOf(c.known, c.pipeline.exporters[j], e.sending[j]).Some?;
      assert !Accepts(c, e, j);
    }
  }

  lemma {:induction false} UnsplitNeverRepeats(c: Config, rounds: seq<Round>, i: nat)
    requires WellFormed(c, rounds) && Routed(c) && i < |c.pipeline.exporters| && NoneSplit(c, rounds)
    ensures NeverRepeats(c, rounds, i)
    decreases |rounds|
  {
    if rounds != [] {
      UnsplitNeverRepeats(c, rounds[..|rounds| - 1], i);
      FailsAtSome(c, rounds[|rounds| - 1]);
    }
  }

  lemma {:induction false} SplitRepeats(c: Config, rounds: seq<Round>) returns (i: nat)
    requires WellFormed(c, rounds) && Routed(c) && !NoneSplit(c, rounds)
    ensures i < |c.pipeline.exporters| && !NeverRepeats(c, rounds, i)
    decreases |rounds|
  {
    var front, e := rounds[..|rounds| - 1], rounds[|rounds| - 1];
    if !NoneSplit(c, front) {
      i := SplitRepeats(c, front);
    } else {
      FailsAtSome(c, e);
      i :| 0 <= i < |c.pipeline.exporters| && Accepts(c, e, i);
    }
  }

  /** Every exporter accepts every delivered batch exactly once, and nothing else, iff no round is split. */
  lemma {:induction false} ExactlyOnce(c: Config, rounds: seq<Round>)
    requires WellFormed(c, rounds) && Routed(c)
    ensures (forall i :: 0 <= i < |c.pipeline.exporters| ==> Accepted(c, rounds, i) == Delivered(c, rounds))
       <==> NoneSplit(c, rounds)
  {
    if NoneSplit(c, rounds) {
      forall i | 0 <= i < |c.pipeline.exporters| ensures Accepted(c, rounds, i) == Delivered(c, rounds) {
        UnsplitNeverRepeats(c, rounds, i);
        AcceptedAtLeast(c, rounds, i);
      }
    } else {
      var i := SplitRepeats(c, rounds);
      AcceptedAtLeast(c, rounds, i);
    }
  }

  // ---------------------------------------------------------------------------
  // Nothing else
  // ---------------------------------------------------------------------------

  /** All complete lines of the file from where the tail began. */
  function FileLines(r: Logs.Receiver, limit: nat): seq<Logs.Line>
    requires r.from <= |r.file|
  {
    Logs.Split(r.file[r.from..], limit).lines
  }

  predicate Placed(batch: Batch, lines: seq<Logs.Line>) {
    batch.at + |batch.lines| <= |lines| && lines[batch.at..batch.at + |batch.lines|] == batch.lines
  }

  /** More bytes only add lines. */
  lemma {:induction false} LinesGrow(a: seq<Byte>, b: seq<Byte>, limit: nat)
    ensures Logs.Split(a, limit).lines <= Logs.Split(a + b, limit).lines
  {
    Logs.FeedIsSplit(a, limit);
    Logs.FeedIsSplit(a + b, limit);
    Logs.FeedExtends(a, b, Logs.Feed(Logs.NOTHING, a, limit), limit);
  }

  /** What a tail has delivered are the first lines of its file. */
  lemma {:induction false} DeliveredFirst(r: Logs.Receiver, start: Logs.Start, limit: nat)
    requires Logs.Inv(r, start, limit)
    ensures r.from <= |r.file| && r.delivered <= FileLines(r, limit)
  {
    if r.tail.initialized {
      var read, unread := r.file[r.from..r.tail.offset], r.file[r.tail.offset..];
      assert r.file[r.from..] == read + unread;
      Logs.FeedIsSplit(read, limit);
      LinesGrow(read, unread, limit);
    }
  }

  lemma {:induction false} StaysPlaced(batch: Batch, lines: seq<Logs.Line>, more: seq<Logs.Line>)
    requires Placed(batch, lines) && lines <= more
    ensures Placed(batch, more)
  {
    assert more[batch.at..batch.at + |batch.lines|] == lines[batch.at..batch.at + |batch.lines|];
  }

  predicate Begun(r: Logs.Receiver, start: Logs.Start) {
    r.tail.initialized || start.Beginning?
  }

  /** The lines that a poll finds come right after those delivered, whether or not they get exported. */
  lemma {:induction false} PollPlaces(r: Logs.Receiver, count: nat, start: Logs.Start, limit: nat, maxRead: nat)
    requires Logs.Inv(r, start, limit)
    requires Logs.Poll(r.tail, r.file, start, limit, maxRead, count).lines != []
    ensures Begun(r, start) && r.from <= |r.file|
    ensures r.delivered + Logs.Poll(r.tail, r.file, start, limit, maxRead, count).lines <= FileLines(r, limit)
  {
    Logs.PollKeeps(r, count, start, limit, maxRead);
    var polled := Logs.Poll(r.tail, r.file, start, limit, maxRead, count);
    DeliveredFirst(Logs.Receiver(r.file, r.from, polled.tail, r.delivered + polled.lines), start, limit);
  }

  /** A tail that has begun keeps its beginning. */
  lemma {:induction false} RoundKeepsStart(
    r: Logs.Receiver, e: Logs.Round, start: Logs.Start, limit: nat, maxRead: nat)
    requires Logs.Inv(r, start, limit) && Begun(r, start)
    ensures var r' := Logs.StepRound(r, e, start, limit, maxRead);
      Begun(r', start) && r'.from == r.from && r'.file == r.file + e.growth
  {}

  lemma {:induction false} PrefixIsPlaced(before: seq<Logs.Line>, batch: Batch, lines: seq<Logs.Line>)
    requires before + batch.lines <= lines && batch.at == |before|
    ensures Placed(batch, lines)
  {
    assert lines[batch.at..batch.at + |batch.lines|] == (before + batch.lines)[|before|..];
  }

  lemma {:induction false} LastIsPlaced(c: Config, rounds: seq<Round>)
    requires WellFormed(c, rounds) && rounds != [] && Found(c, rounds) != []
    ensures var r := Source(c, rounds);
      Begun(r, c.start) && r.from <= |r.file| && Placed(LastBatch(c, rounds), FileLines(r, c.limit))
  {
    var front, e := rounds[..|rounds| - 1], rounds[|rounds| - 1];
    SourceStep(c, rounds);
    Logs.RunKeeps(c.file, LogRounds(c, front), c.start, c.limit, c.maxRead);
    var before := Source(c, front);
    var grown := before.(file := before.file + e.growth);
    Logs.GrowthKeeps(before, e.growth, c.start, c.limit);
    PollPlaces(grown, e.reading.count, c.start, c.limit, c.maxRead);
    RoundKeepsStart(before, Logs.Round(e.growth, e.reading, Exported(c, e)), c.start, c.limit, c.maxRead);
    PrefixIsPlaced(before.delivered, LastBatch(c, rounds), FileLines(grown, c.limit));
  }

  /** The lines of the file only grow, once the tail has begun. */
  lemma {:induction false} RoundGrowsLines(r: Logs.Receiver, e: Logs.Round, start: Logs.Start, limit: nat, maxRead: nat)
    requires Logs.Inv(r, start, limit) && Begun(r, start)
    ensures var r' := Logs.StepRound(r, e, start, limit, maxRead);
      r.from <= |r.file| && r'.from <= |r'.file| && FileLines(r, limit) <= FileLines(r', limit)
  {
    RoundKeepsStart(r, e, start, limit, maxRead);
    DeliveredFirst(r, start, limit);
    assert (r.file + e.growth)[r.from..] == r.file[r.from..] + e.growth;
    LinesGrow(r.file[r.from..], e.growth, limit);
  }

  /**
   * Whatever an exporter accepts, also in a round in which another refuses, are lines of the
   * file at the place that follows the lines delivered by then: a repeat repeats the same lines.
   */
  lemma {:induction false} AcceptedArePlaced(c: Config, rounds: seq<Round>, i: nat, k: nat)
    requires WellFormed(c, rounds) && i < |c.pipeline.exporters| && k < |Accepted(c, rounds, i)|
    ensures var r := Source(c, rounds);
      Begun(r, c.start) && r.from <= |r.file| && Placed(Accepted(c, rounds, i)[k], FileLines(r, c.limit))
    decreases |rounds|
  {
    var front, e := rounds[..|rounds| - 1], rounds[|rounds| - 1];
    if k < |Accepted(c, front, i)| {
      var before, step := Source(c, front), Logs.Round(e.growth, e.reading, Exported(c, e));
      AcceptedArePlaced(c, front, i, k);
      SourceStep(c, rounds);
      Logs.RunKeeps(c.file, LogRounds(c, front), c.start, c.limit, c.maxRead);
      RoundKeepsStart(before, step, c.start, c.limit, c.maxRead);
      RoundGrowsLines(before, step, c.start, c.limit, c.maxRead);
      StaysPlaced(Accepted(c, front, i)[k], FileLines(before, c.limit), FileLines(Source(c, rounds), c.limit));
    } else {
      LastIsPlaced(c, rounds);
    }
  }
}
