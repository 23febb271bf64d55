/**
 * The streamed response with one page of signals: a machine that emits a JSON object in
 * chunks, serializing one record at a time.
 */
module SignalPage {
  import opened Bytes
  import Decimal
  import opened Signals

  const REST_REPLAY_CHUNK_BYTES: nat := 65_536
  const COMMA: Byte := 0x2C

  function Prefix(): seq<Byte> {
    Ascii("{\"signals\":[")
  }

  function Suffix(nextCursor: nat): seq<Byte> {
    Ascii("],\"next_cursor\":") + Decimal.Text(nextCursor) + Ascii("}")
  }

  /** A record, by the outcome of serializing it. */
  datatype Record = Serializes(json: seq<Byte>) | Fails

  datatype Chunk = Data(bytes: seq<Byte>) | Failure

  /** One unit of the response as the client receives it. */
  datatype Symbol = Octet(byte: Byte) | Broken

  function Octets(bytes: seq<Byte>): (r: seq<Symbol>)
    ensures |r| == |bytes|
  {
    seq(|bytes|, i requires 0 <= i < |bytes| => Octet(bytes[i]))
  }

  function Symbols(chunk: Chunk): seq<Symbol> {
    match chunk
    case Data(bytes) => Octets(bytes)
    case Failure => [Broken]
  }

  datatype Page = Page(
    records: seq<Record>,
    nextCursor: nat,
    prefixSent: bool,
    firstRecord: bool,
    suffixSent: bool,
    pending: seq<Byte>
  )

  /** What is still to come after the prefix. A record that fails also suppresses the suffix. */
  function Rest(records: seq<Record>, nextCursor: nat, firstRecord: bool, suffixSent: bool): seq<Symbol> {
    if records == [] then
      if suffixSent then [] else Octets(Suffix(nextCursor))
    else match records[0]
      case Serializes(json) =>
        Octets((if firstRecord then [] else [COMMA]) + json) + Rest(records[1..], nextCursor, false, suffixSent)
      case Fails => [Broken] + Rest(records[1..], nextCursor, false, true)
  }

  /** All that is still to come. */
  function Upcoming(p: Page): seq<Symbol> {
    Octets(p.pending)
    + ((if p.prefixSent then [] else Octets(Prefix())) + Rest(p.records, p.nextCursor, p.firstRecord, p.suffixSent))
  }

  function Start(records: seq<Record>, nextCursor: nat): Page {
    Page(records, nextCursor, false, true, false, [])
  }

  lemma {:induction false} OctetsConcat(a: seq<Byte>, b: seq<Byte>)
    ensures Octets(a + b) == Octets(a) + Octets(b)
  {}

  lemma {:induction false} SplitPending(p: Page, n: nat)
    requires n <= |p.pending|
    ensures Upcoming(p) == Octets(p.pending[..n]) + Upcoming(p.(pending := p.pending[n..]))
  {
    var a, b := p.pending[..n], p.pending[n..];
    OctetsConcat(a, b);
    assert p.pending == a + b;
    var rest := (if p.prefixSent then [] else Octets(Prefix()))
      + Rest(p.records, p.nextCursor, p.firstRecord, p.suffixSent);
    assert Octets(a) + Octets(b) + rest == Octets(a) + (Octets(b) + rest);
  }

  lemma {:induction false} PrefixStep(p: Page)
    requires p.pending == [] && !p.prefixSent
    ensures Upcoming(p.(prefixSent := true, pending := Prefix())) == Upcoming(p)
  {}

  lemma {:induction false} RecordStep(p: Page)
    requires p.pending == [] && p.prefixSent && p.records != []
    ensures var rest := p.(records := p.records[1..], firstRecord := false);
      match p.records[0]
      case Serializes(json) => Upcoming(rest.(pending := (if p.firstRecord then [] else [COMMA]) + json)) == Upcoming(p)
      case Fails => Symbols(Failure) + Upcoming(rest.(suffixSent := true)) == Upcoming(p)
  {}

  lemma {:induction false} SuffixStep(p: Page)
    requires p.pending == [] && p.prefixSent && p.records == []
    ensures !p.suffixSent ==> Upcoming(p.(suffixSent := true, pending := Suffix(p.nextCursor))) == Upcoming(p)
    ensures p.suffixSent ==> Upcoming(p) == []
  {}

  datatype Refilled = More | Failed | Finished

  function StepsLeft(p: Page): nat {
    |p.records| + (if p.prefixSent then 0 else 1) + if p.suffixSent then 0 else 1
  }

  class SignalPageStream {
    const nextCursor: nat
    var records: seq<Record>
    var prefixSent: bool
    var firstRecord: bool
    var suffixSent: bool
    var pending: seq<Byte>

    constructor (records: seq<Record>, nextCursor: nat)
      ensures View() == Start(records, nextCursor)
    {
      this.records, this.nextCursor := records, nextCursor;
      prefixSent, firstRecord, suffixSent, pending := false, true, false, [];
    }

    ghost function View(): Page
      reads this
    {
      Page(records, nextCursor, prefixSent, firstRecord, suffixSent, pending)
    }

    /** Prepares more pending bytes, unless a record fails or nothing is left. */
    method Refill() returns (step: Refilled)
      requires pending == []
      modifies this
      ensures match step
        case More => Upcoming(View()) == Upcoming(old(View())) && StepsLeft(View()) < StepsLeft(old(View()))
        case Failed => Upcoming(old(View())) == [Broken] + Upcoming(View())
        case Finished => Upcoming(old(View())) == [] && View() == old(View())
    {
      ghost var page := View();
      if !prefixSent {
        PrefixStep(page);
        prefixSent := true;
        pending := Prefix();
        return More;
      }
      if records != [] {
        RecordStep(page);
        var record := records[0];
        records := records[1..];
        var comma := if firstRecord then [] else [COMMA];
        firstRecord := false;
        if record.Fails? {
          suffixSent := true;
          return Failed;
        }
        pending := comma + record.json;
        return More;
      }
      SuffixStep(page);
      if !suffixSent {
        suffixSent := true;
        pending := Suffix(nextCursor);
        return More;
      }
      return Finished;
    }

    /** Every chunk is the next piece of what was to come; there is none exactly at the end. */
    method NextChunk() returns (chunk: Option<Chunk>)
      modifies this
      ensures chunk.None? <==> Upcoming(old(View())) == []
      ensures chunk.Some? ==> Upcoming(old(View())) == Symbols(chunk.value) + Upcoming(View())
      ensures chunk.Some? && chunk.value.Data? ==> 1 <= |chunk.value.bytes| <= REST_REPLAY_CHUNK_BYTES
    {
      while pending == []
        invariant Upcoming(View()) == Upcoming(old(View()))
        decreases StepsLeft(View())
      {
        var step := Refill();
        if step == Finished {
          return None;
        }
        if step == Failed {
          return Some(Failure);
        }
      }
      var length := if |pending| < REST_REPLAY_CHUNK_BYTES then |pending| else REST_REPLAY_CHUNK_BYTES;
      SplitPending(View(), length);
      chunk := Some(Data(pending[..length]));
      pending := pending[length..];
    }
  }

  // ---------------------------------------------------------------------------
  // The whole response
  // ---------------------------------------------------------------------------

  predicate AllSerialize(records: seq<Record>) {
    forall i :: 0 <= i < |records| ==> records[i].Serializes?
  }

  /** The records separated by commas. */
  function Joined(records: seq<Record>): seq<Byte>
    requires AllSerialize(records)
  {
    if records == [] then []
    else
      var n := |records| - 1;
      Joined(records[..n]) + (if n == 0 then [] else [COMMA]) + records[n].json
  }

  function Body(records: seq<Record>, nextCursor: nat): seq<Byte>
    requires AllSerialize(records)
  {
    Prefix() + Joined(records) + Suffix(nextCursor)
  }

  /** The comma-joined text of records that follow others. */
  function Following(records: seq<Record>): seq<Byte>
    requires AllSerialize(records)
  {
    if records == [] then [] else [COMMA] + records[0].json + Following(records[1..])
  }

  lemma {:induction false} FollowingSnoc(records: seq<Record>, record: Record)
    requires AllSerialize(records) && record.Serializes?
    ensures Following(records + [record]) == Following(records) + [COMMA] + record.json
    decreases |records|
  {
    var all := records + [record];
    if records == [] {
      assert all[1..] == [];
    } else {
      FollowingSnoc(records[1..], record);
      assert all[1..] == records[1..] + [record];
    }
  }

  lemma {:induction false} Reassociate<T>(a: seq<T>, b: seq<T>, c: seq<T>, d: seq<T>)
    ensures a + b + c + d == a + (b + c + d)
  {}

  lemma {:induction false} JoinedFollowing(records: seq<Record>)
    requires AllSerialize(records) && records != []
    ensures Joined(records) == records[0].json + Following(records[1..])
    decreases |records|
  {
    var n := |records| - 1;
    if n == 0 {
      assert records[..0] == [];
    } else {
      var middle, last := records[..n][1..], records[n];
      JoinedFollowing(records[..n]);
      FollowingSnoc(middle, last);
      assert middle + [last] == records[1..];
      Reassociate(records[0].json, Following(middle), [COMMA], last.json);
    }
  }

  lemma {:induction false} RestFollowing(records: seq<Record>, nextCursor: nat)
    requires AllSerialize(records)
    ensures Rest(records, nextCursor, false, false) == Octets(Following(records) + Suffix(nextCursor))
    decreases |records|
  {
    if records == [] {
      assert [] + Suffix(nextCursor) == Suffix(nextCursor);
    } else {
      RestFollowing(records[1..], nextCursor);
      var head, tail := [COMMA] + records[0].json, Following(records[1..]) + Suffix(nextCursor);
      OctetsConcat(head, tail);
      assert head + tail == Following(records) + Suffix(nextCursor);
    }
  }

  lemma {:induction false} RestFirst(records: seq<Record>, nextCursor: nat)
    requires AllSerialize(records) && records != []
    ensures Rest(records, nextCursor, true, false)
         == Octets(records[0].json) + Rest(records[1..], nextCursor, false, false)
  {
    assert [] + records[0].json == records[0].json;
  }

  lemma {:induction false} RestIsJoined(records: seq<Record>, nextCursor: nat)
    requires AllSerialize(records)
    ensures Rest(records, nextCursor, true, false) == Octets(Joined(records) + Suffix(nextCursor))
  {
    if records == [] {
      assert [] + Suffix(nextCursor) == Suffix(nextCursor);
    } else {
      JoinedFollowing(records);
      RestFollowing(records[1..], nextCursor);
      var json, tail := records[0].json, Following(records[1..]) + Suffix(nextCursor);
      RestFirst(records, nextCursor);
      OctetsConcat(json, tail);
      assert (json + Following(records[1..])) + Suffix(nextCursor) == json + tail;
    }
  }

  lemma {:induction false} StartParts(records: seq<Record>, nextCursor: nat)
    ensures Upcoming(Start(records, nextCursor)) == Octets(Prefix()) + Rest(records, nextCursor, true, false)
  {}

  lemma {:induction false} OctetsOfThree(a: seq<Byte>, b: seq<Byte>, c: seq<Byte>)
    ensures Octets(a) + Octets(b + c) == Octets(a + b + c)
  {}

  /** If every record serializes, exactly the prefix, the joined records and the suffix are to come. */
  lemma {:induction false} StartIsBody(records: seq<Record>, nextCursor: nat)
    requires AllSerialize(records)
    ensures Upcoming(Start(records, nextCursor)) == Octets(Body(records, nextCursor))
  {
    StartParts(records, nextCursor);
    RestIsJoined(records, nextCursor);
    OctetsOfThree(Prefix(), Joined(records), Suffix(nextCursor));
  }

  /** The symbols of a response in which some record fails: never the suffix, and at least one failure. */
  lemma {:induction false} FailureIsVisible(records: seq<Record>, nextCursor: nat, first: bool, sent: bool)
    requires !AllSerialize(records)
    ensures Broken in Rest(records, nextCursor, first, sent)
    ensures Rest(records, nextCursor, first, sent) == Rest(records, nextCursor, first, true)
    decreases |records|
  {
    if records[0].Serializes? {
      FailureIsVisible(records[1..], nextCursor, false, sent);
    }
  }

  // ---------------------------------------------------------------------------
  // A record that fails
  // ---------------------------------------------------------------------------

  /** The first record that fails. */
  function FirstFailing(records: seq<Record>): (k: nat)
    requires !AllSerialize(records)
    ensures k < |records| && records[k].Fails? && AllSerialize(records[..k])
  {
    if records[0].Fails? then 0 else 1 + FirstFailing(records[1..])
  }

  /** Up to the first failing record, what is to come after others is their text; then the failure and the rest. */
  lemma {:induction false} RestAtFailure(records: seq<Record>, nextCursor: nat, sent: bool, k: nat)
    requires k < |records| && records[k].Fails? && AllSerialize(records[..k])
    ensures Rest(records, nextCursor, false, sent)
         == Octets(Following(records[..k])) + ([Broken] + Rest(records[k + 1..], nextCursor, false, true))
    decreases k
  {
    if k == 0 {
      assert Octets(Following(records[..0])) == [];
    } else {
      RestAtFailure(records[1..], nextCursor, sent, k - 1);
      assert records[1..][..k - 1] == records[..k][1..] && records[1..][k..] == records[k + 1..];
      OctetsConcat([COMMA] + records[0].json, Following(records[..k][1..]));
    }
  }

  lemma {:induction false} RestFromFirst(records: seq<Record>, nextCursor: nat, k: nat)
    requires k < |records| && records[k].Fails? && AllSerialize(records[..k])
    ensures Rest(records, nextCursor, true, false)
         == Octets(Joined(records[..k])) + ([Broken] + Rest(records[k + 1..], nextCursor, false, true))
  {
    if k == 0 {
      assert Octets(Joined(records[..0])) == [];
    } else {
      RestAtFailure(records[1..], nextCursor, false, k - 1);
      assert records[1..][..k - 1] == records[..k][1..] && records[1..][k..] == records[k + 1..];
      JoinedFollowing(records[..k]);
      assert [] + records[0].json == records[0].json;
      OctetsConcat(records[0].json, Following(records[..k][1..]));
    }
  }

  /** What comes after the first failure: nothing exactly if the record that failed was the last. */
  function AfterFailure(records: seq<Record>, nextCursor: nat): seq<Symbol>
    requires !AllSerialize(records)
  {
    Rest(records[FirstFailing(records) + 1..], nextCursor, false, true)
  }

  lemma {:induction false} OctetsThenBroken(a: seq<Byte>, b: seq<Byte>, rest: seq<Symbol>)
    ensures Octets(a) + (Octets(b) + ([Broken] + rest)) == Octets(a + b) + [Broken] + rest
  {
    OctetsConcat(a, b);
  }

  lemma {:induction false} NothingAfterLast(records: seq<Record>, nextCursor: nat)
    requires !AllSerialize(records)
    ensures AfterFailure(records, nextCursor) == [] <==> FirstFailing(records) == |records| - 1
  {
    var rest := records[FirstFailing(records) + 1..];
    assert |rest| == |records| - 1 - FirstFailing(records);
  }

  /** A response with a failed record: the prefix, the records before it, the failure, and the records after it. */
  lemma {:induction false} FailedResponse(records: seq<Record>, nextCursor: nat)
    requires !AllSerialize(records)
    ensures var k := FirstFailing(records);
      Upcoming(Start(records, nextCursor))
        == Octets(Prefix() + Joined(records[..k])) + [Broken] + AfterFailure(records, nextCursor)
    ensures AfterFailure(records, nextCursor) == [] <==> FirstFailing(records) == |records| - 1
  {
    var k := FirstFailing(records);
    StartParts(records, nextCursor);
    RestFromFirst(records, nextCursor, k);
    OctetsThenBroken(Prefix(), Joined(records[..k]), AfterFailure(records, nextCursor));
    NothingAfterLast(records, nextCursor);
  }

  /** A failure is the last thing the client receives. */
  predicate EndsAtFailure(symbols: seq<Symbol>) {
    forall i :: 0 <= i < |symbols| && symbols[i] == Broken ==> i == |symbols| - 1
  }

  lemma {:induction false} EndsAtFailureSplit(front: seq<Byte>, rest: seq<Symbol>)
    ensures EndsAtFailure(Octets(front) + [Broken] + rest) <==> rest == []
  {
    var all := Octets(front) + [Broken] + rest;
    assert all[|front|] == Broken;
    forall i | 0 <= i < |front| ensures all[i] != Broken {
      assert all[i] == Octets(front)[i];
    }
  }

  /** Nothing follows a failed record, for a page of any records, exactly if none but the last fails. */
  lemma {:induction false} NothingFollowsFailure(records: seq<Record>, nextCursor: nat)
    ensures EndsAtFailure(Upcoming(Start(records, nextCursor)))
      <==> forall i :: 0 <= i < |records| - 1 ==> records[i].Serializes?
  {
    if AllSerialize(records) {
      StartIsBody(records, nextCursor);
    } else {
      var k := FirstFailing(records);
      FailedResponse(records, nextCursor);
      EndsAtFailureSplit(Prefix() + Joined(records[..k]), AfterFailure(records, nextCursor));
      if k == |records| - 1 {
        forall i | 0 <= i < |records| - 1 ensures records[i].Serializes? {
          assert records[i] == records[..k][i];
        }
      }
    }
  }

  /** A page on which something does follow: the second record comes after the failure of the first. */
  lemma {:induction false} RecordFollowsFailure(json: seq<Byte>, nextCursor: nat)
    ensures var records := [Fails, Serializes(json)];
      && !EndsAtFailure(Upcoming(Start(records, nextCursor)))
      && Upcoming(Start(records, nextCursor)) == Octets(Prefix()) + [Broken] + Octets([COMMA] + json)
  {
    var records := [Fails, Serializes(json)];
    assert records[0].Fails?;
    NothingFollowsFailure(records, nextCursor);
    FailedResponse(records, nextCursor);
    assert Prefix() + Joined(records[..0]) == Prefix();
    var rest := records[1..];
    assert rest == [Serializes(json)] && rest[1..] == [];
    assert Rest(rest, nextCursor, false, true) == Octets([COMMA] + json) + Rest([], nextCursor, false, true);
  }

  function Concat(chunks: seq<Chunk>): seq<Symbol> {
    if chunks == [] then [] else Concat(chunks[..|chunks| - 1]) + Symbols(chunks[|chunks| - 1])
  }

  lemma {:induction false} ConcatSnoc(chunks: seq<Chunk>, chunk: Chunk, rest: seq<Symbol>)
    ensures Concat(chunks + [chunk]) + rest == Concat(chunks) + (Symbols(chunk) + rest)
  {
    assert (chunks + [chunk])[..|chunks|] == chunks;
  }

  lemma {:induction false} InConcat<T>(x: T, a: seq<T>, b: seq<T>)
    ensures x in a + b <==> x in a || x in b
  {}

  lemma {:induction false} BrokenIffFailure(chunks: seq<Chunk>)
    ensures Broken in Concat(chunks) <==> Failure in chunks
    decreases |chunks|
  {
    if chunks != [] {
      var front, last := chunks[..|chunks| - 1], chunks[|chunks| - 1];
      BrokenIffFailure(front);
      InConcat(Broken, Concat(front), Symbols(last));
      InConcat(Failure, front, [last]);
      assert chunks == front + [last];
    }
  }

  lemma {:induction false} DrainedWhole(chunks: seq<Chunk>, records: seq<Record>, nextCursor: nat)
    requires Concat(chunks) == Upcoming(Start(records, nextCursor))
    ensures AllSerialize(records) ==> Concat(chunks) == Octets(Body(records, nextCursor)) && Failure !in chunks
    ensures !AllSerialize(records) ==>
      && Failure in chunks
      && Concat(chunks) == Octets(Prefix() + Joined(records[..FirstFailing(records)])) + [Broken]
                           + AfterFailure(records, nextCursor)
  {
    BrokenIffFailure(chunks);
    if AllSerialize(records) {
      StartIsBody(records, nextCursor);
    } else {
      FailedResponse(records, nextCursor);
      FailureIsVisible(records, nextCursor, true, false);
    }
  }

  /**
   * Draining the stream ends. The chunks concatenate to the whole response, for any number and
   * size of records, and no chunk is empty or larger than the limit.
   */
  method Drain(records: seq<Record>, nextCursor: nat) returns (chunks: seq<Chunk>)
    ensures forall i :: 0 <= i < |chunks| && chunks[i].Data? ==> 1 <= |chunks[i].bytes| <= REST_REPLAY_CHUNK_BYTES
    ensures AllSerialize(records) ==> Concat(chunks) == Octets(Body(records, nextCursor)) && Failure !in chunks
    ensures !AllSerialize(records) ==>
      && Failure in chunks
      && Concat(chunks) == Octets(Prefix() + Joined(records[..FirstFailing(records)])) + [Broken]
                           + AfterFailure(records, nextCursor)
  {
    var page := new SignalPageStream(records, nextCursor);
    ghost var whole := Upcoming(page.View());
    chunks := [];
    while true
      invariant Concat(chunks) + Upcoming(page.View()) == whole
      invariant forall i :: 0 <= i < |chunks| && chunks[i].Data? ==> 1 <= |chunks[i].bytes| <= REST_REPLAY_CHUNK_BYTES
      decreases |Upcoming(page.View())|
    {
      var chunk := page.NextChunk();
      if chunk.None? {
        break;
      }
      ConcatSnoc(chunks, chunk.value, Upcoming(page.View()));
      chunks := chunks + [chunk.value];
    }
    assert Concat(chunks) == whole;
    DrainedWhole(chunks, records, nextCursor);
  }
}
