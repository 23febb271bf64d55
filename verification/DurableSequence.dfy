/**
 * The file-backed sequence allocator. Processes open it, allocate, fail and exit, and the
 * machine crashes, in any order and at any step of a persist; `durable` is the set of
 * contents that a crash may leave behind for the state file.
 */
module DurableSequence {
  import opened Decimal
  import opened Numbers
  import opened Signals

  const MAX_SEQUENCE_STATE_BYTES: nat := 64

  // ---------------------------------------------------------------------------
  // The state file
  // ---------------------------------------------------------------------------

  function Encode(next: nat): string {
    Digits(next) + "\n"
  }

  function StripNewline(s: string): string {
    if s != [] && s[|s| - 1] == '\n' then s[..|s| - 1] else s
  }

  /** The value in a state file, or nothing if the file is corrupt. */
  function Decode(content: string): Option<nat> {
    if |content| == 0 || |content| > MAX_SEQUENCE_STATE_BYTES then None else
      var text := StripNewline(content);
      if text == [] || !AllDigits(text) then None
      else if Value(text) > U64_MAX || Value(text) == 0 then None
      else Some(Value(text))
  }

  /** The file format round-trips for every value but the reserved zero. */
  lemma {:induction false} DecodeEncode(next: nat)
    requires 1 <= next <= U64_MAX
    ensures Decode(Encode(next)) == Some(next)
  {
    DigitsValue(next);
    assert next < Pow10(20) by {
      assert Pow10(5) == 100_000;
      assert Pow10(10) == 100_000 * Pow10(5);
      assert Pow10(15) == 100_000 * Pow10(10);
      assert Pow10(20) == 100_000 * Pow10(15);
    }
    DigitsLength(next, 20);
    assert StripNewline(Encode(next)) == Digits(next);
  }

  // ---------------------------------------------------------------------------
  // The machine
  // ---------------------------------------------------------------------------

  datatype File = Absent | File(content: string)

  /** How far a persist has come: temporary file created, written, synced, renamed into place. */
  datatype Stage = Created | Written | Synced | Renamed

  /** The temporary file: its content, and the contents a crash may leave of it. */
  datatype Temp = Temp(content: string, onDisk: set<string>)

  const EMPTY_TEMP := Temp("", {""})

  datatype Allocator =
    | Inspecting(initial: nat)
    | Ready(next: nat)
    | Persisting(next: nat, value: nat, opening: bool, stage: Stage, temp: Temp)

  datatype State = State(
    visible: File,
    durable: set<File>,
    lock: Option<nat>,
    live: map<nat, Allocator>,
    issued: seq<nat>
  )

  const INIT := State(Absent, {Absent}, None, map[], [])

  datatype Event =
    | Open(process: nat, initial: nat)
    | Inspect(process: nat)
    | Allocate(process: nat)
    | Advance(process: nat)
    | Fail(process: nat)
    | Exit(process: nat)
    | Crash(left: File)

  function Put(s: State, p: nat, a: Allocator): State {
    s.(live := s.live[p := a])
  }

  /** Dropping an allocator releases the lock it holds. */
  function Close(s: State, p: nat): State {
    s.(live := s.live - {p}, lock := if s.lock == Some(p) then None else s.lock)
  }

  function StepInspect(s: State, p: nat, initial: nat): State {
    match s.visible
    case Absent => Put(s, p, Persisting(Max(initial, 1), Max(initial, 1), true, Created, EMPTY_TEMP))
    case File(content) =>
      match Decode(content)
      case None => Close(s, p)
      case Some(next) => Put(s, p, Ready(next))
  }

  function StepAdvance(s: State, p: nat, a: Allocator): State
    requires a.Persisting?
  {
    match a.stage
    case Created =>
      var text := Encode(a.value);
      Put(s, p, a.(stage := Written, temp := Temp(text, set k | 0 <= k <= |text| :: text[..k])))
    case Written => Put(s, p, a.(stage := Synced, temp := a.temp.(onDisk := {a.temp.content})))
    case Synced =>
      var renamed := set c | c in a.temp.onDisk :: File(c);
      Put(s.(visible := File(a.temp.content), durable := s.durable + renamed), p, a.(stage := Renamed))
    case Renamed =>
      var synced := s.(durable := {s.visible});
      if a.opening then Put(synced, p, Ready(a.value))
      else Put(synced.(issued := s.issued + [a.next]), p, Ready(a.value))
  }

  function Step(s: State, e: Event): State {
    match e
    case Open(p, initial) =>
      if s.lock.Some? || initial > U64_MAX then s
      else Put(s.(lock := Some(p)), p, Inspecting(initial))
    case Inspect(p) =>
      if p in s.live && s.live[p].Inspecting? then StepInspect(s, p, s.live[p].initial) else s
    case Allocate(p) =>
      if p in s.live && s.live[p].Ready? && s.live[p].next < U64_MAX
      then Put(s, p, Persisting(s.live[p].next, s.live[p].next + 1, false, Created, EMPTY_TEMP))
      else s
    case Advance(p) =>
      if p in s.live && s.live[p].Persisting? then StepAdvance(s, p, s.live[p]) else s
    case Fail(p) =>
      if p !in s.live || !s.live[p].Persisting? then s
      else if s.live[p].opening then Close(s, p)
      else Put(s, p, Ready(s.live[p].next))
    case Exit(p) => Close(s, p)
    case Crash(left) =>
      if left in s.durable then State(left, {left}, None, map[], s.issued) else s
  }

  function Run(s: State, events: seq<Event>): State {
    if events == [] then s else Step(Run(s, events[..|events| - 1]), events[|events| - 1])
  }

  // ---------------------------------------------------------------------------
  // The invariant
  // ---------------------------------------------------------------------------

  predicate Above(n: nat, issued: seq<nat>) {
    forall i :: 0 <= i < |issued| ==> issued[i] < n
  }

  predicate Holds(content: string, v: nat) {
    1 <= v <= U64_MAX && content == Encode(v)
  }

  /** A file from which no reopen can reuse an issued value: complete, and above all of them. */
  ghost predicate FileOk(f: File, issued: seq<nat>) {
    match f
    case Absent => issued == []
    case File(content) => exists v :: Holds(content, v) && Above(v, issued)
  }

  predicate AllocatorOk(s: State, a: Allocator) {
    match a
    case Inspecting(initial) => initial <= U64_MAX
    case Ready(next) => Above(next, s.issued) && 1 <= next <= U64_MAX
    case Persisting(next, value, opening, stage, temp) =>
      && Above(next, s.issued) && Above(value, s.issued)
      && 1 <= next <= U64_MAX && 1 <= value <= U64_MAX
      && value == (if opening then next else next + 1)
      && (stage.Written? || stage.Synced? ==> temp.content == Encode(value))
      && (stage.Synced? ==> temp.onDisk == {temp.content})
      && (stage.Renamed? ==> s.visible == File(Encode(value)))
  }

  predicate Increasing(issued: seq<nat>) {
    forall i, j :: 0 <= i < j < |issued| ==> issued[i] < issued[j]
  }

  ghost predicate Inv(s: State) {
    && (forall f :: f in s.durable ==> FileOk(f, s.issued))
    && s.visible in s.durable
    && (forall p :: p in s.live ==> s.lock == Some(p) && AllocatorOk(s, s.live[p]))
    && Increasing(s.issued)
  }

  lemma {:induction false} RenameKeeps(s: State, p: nat)
    requires Inv(s) && p in s.live && s.live[p].Persisting? && s.live[p].stage.Synced?
    ensures Inv(StepAdvance(s, p, s.live[p]))
  {
    var a := s.live[p];
    assert AllocatorOk(s, a);
    assert Holds(Encode(a.value), a.value);
    assert FileOk(File(Encode(a.value)), s.issued);
  }

  lemma {:induction false} IssueKeeps(s: State, p: nat)
    requires Inv(s) && p in s.live && s.live[p].Persisting? && s.live[p].stage.Renamed?
    ensures Inv(StepAdvance(s, p, s.live[p]))
  {
    var a := s.live[p];
    assert AllocatorOk(s, a);
    if !a.opening {
      assert Holds(Encode(a.value), a.value);
      assert FileOk(s.visible, s.issued + [a.next]);
    }
  }

  lemma {:induction false} InspectKeeps(s: State, p: nat)
    requires Inv(s) && p in s.live && s.live[p].Inspecting?
    ensures Inv(StepInspect(s, p, s.live[p].initial))
  {
    assert FileOk(s.visible, s.issued);
    if s.visible.File? {
      var v :| Holds(s.visible.content, v) && Above(v, s.issued);
      DecodeEncode(v);
      assert StepInspect(s, p, s.live[p].initial) == Put(s, p, Ready(v));
    }
  }

  lemma {:induction false} StepKeeps(s: State, e: Event)
    requires Inv(s)
    ensures Inv(Step(s, e))
  {
    match e
    case Advance(p) =>
      if p in s.live && s.live[p].Persisting? {
        match s.live[p].stage
        case Created => assert AllocatorOk(s, s.live[p]);
        case Written => assert AllocatorOk(s, s.live[p]);
        case Synced => RenameKeeps(s, p);
        case Renamed => IssueKeeps(s, p);
      }
    case Inspect(p) =>
      if p in s.live && s.live[p].Inspecting? {
        InspectKeeps(s, p);
      }
    case Allocate(p) => assert p in s.live ==> AllocatorOk(s, s.live[p]);
    case Fail(p) => assert p in s.live ==> AllocatorOk(s, s.live[p]);
    case Open(p, initial) =>
    case Exit(p) =>
    case Crash(left) =>
  }

  lemma {:induction false} RunKeeps(s: State, events: seq<Event>)
    requires Inv(s)
    ensures Inv(Run(s, events))
    decreases |events|
  {
    if events != [] {
      RunKeeps(s, events[..|events| - 1]);
      StepKeeps(Run(s, events[..|events| - 1]), events[|events| - 1]);
    }
  }

  // ---------------------------------------------------------------------------
  // What every history guarantees
  // ---------------------------------------------------------------------------

  /**
   * For every history of opens, allocations, failures, exits and crashes: the values issued
   * increase strictly across all process lifetimes; every value a reopen can read, now or
   * after a crash, is above all of them, and no reopen finds the file missing once a value
   * was issued; and at most one allocator is live.
   */
  lemma {:induction false} NoValueIsReused(events: seq<Event>)
    ensures
      var s := Run(INIT, events);
      && Increasing(s.issued)
      && (forall f, v :: f in s.durable + {s.visible} && f.File? && Decode(f.content) == Some(v) ==> Above(v, s.issued))
      && (Absent in s.durable + {s.visible} ==> s.issued == [])
      && (forall p, q :: p in s.live && q in s.live ==> p == q)
  {
    var s := Run(INIT, events);
    RunKeeps(INIT, events);
    forall f, v | f in s.durable + {s.visible} && f.File? && Decode(f.content) == Some(v) ensures Above(v, s.issued) {
      assert FileOk(f, s.issued);
      var w :| Holds(f.content, w) && Above(w, s.issued);
      DecodeEncode(w);
    }
    assert forall p :: p in s.live ==> s.lock == Some(p);
    assert Absent in s.durable + {s.visible} ==> FileOk(Absent, s.issued);
  }

  /** The issued values only ever grow at the end. */
  lemma {:induction false} IssuedGrows(s: State, events: seq<Event>)
    ensures s.issued <= Run(s, events).issued
    decreases |events|
  {
    if events != [] {
      IssuedGrows(s, events[..|events| - 1]);
    }
  }

  function Rank(stage: Stage): nat {
    match stage
    case Created => 0
    case Written => 1
    case Synced => 2
    case Renamed => 3
  }

  /** The allocator as a process sees it: one call, with a possible I/O failure at some stage. */
  class Sequence {
    var s: State
    const process: nat

    constructor (s: State, process: nat)
      ensures this.s == s && this.process == process
    {
      this.s := s;
      this.process := process;
    }

    predicate Valid()
      reads this
    {
      process in s.live && s.live[process].Ready?
    }

    /**
     * Allocate the next value: persist its successor first, and only then return it. An
     * exhausted counter or a failure at any stage of the persist returns nothing and leaves
     * the counter where it was.
     */
    method NextBlocking(failAt: Option<Stage>) returns (r: Option<nat>)
      requires Valid() && Inv(s)
      modifies this
      ensures Valid() && Inv(s)
      ensures var n := old(s.live[process].next);
        match r
        case None =>
          && (failAt.Some? || n == U64_MAX)
          && s.issued == old(s.issued) && s.live[process] == Ready(n)
        case Some(v) =>
          && failAt.None? && v == n < U64_MAX
          && s.issued == old(s.issued) + [n] && s.live[process] == Ready(n + 1)
          && s.visible == File(Encode(n + 1)) && s.durable == {s.visible}
    {
      var n := s.live[process].next;
      if n == U64_MAX {
        return None;
      }
      StepKeeps(s, Allocate(process));
      s := Step(s, Allocate(process));
      while s.live[process].Persisting?
        invariant Inv(s) && process in s.live
        invariant s.live[process].Persisting? ==>
          && s.live[process].next == n && s.live[process].value == n + 1 && !s.live[process].opening
          && s.issued == old(s.issued)
          && (failAt.Some? ==> Rank(s.live[process].stage) <= Rank(failAt.value))
        invariant !s.live[process].Persisting? ==>
          && failAt.None? && s.live[process] == Ready(n + 1) && s.issued == old(s.issued) + [n]
          && s.visible == File(Encode(n + 1)) && s.durable == {s.visible}
        decreases if s.live[process].Persisting? then 4 - Rank(s.live[process].stage) else 0
      {
        assert AllocatorOk(s, s.live[process]);
        if failAt == Some(s.live[process].stage) {
          StepKeeps(s, Fail(process));
          s := Step(s, Fail(process));
          return None;
        }
        StepKeeps(s, Advance(process));
        s := Step(s, Advance(process));
      }
      r := Some(n);
    }
  }
}
