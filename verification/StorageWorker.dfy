/**
 * The worker thread that owns the state database. It serves two queues, telemetry and control,
 * polling control before each telemetry command; any number of threads send meanwhile.
 */
module StorageWorker {
  /** A database write; opaque here. */
  type Telemetry = nat

  datatype Control = Save(profile: nat) | Shutdown

  /** A control command with what had been sent and handled when it was queued. */
  datatype Queued = Queued(command: Control, telemetrySent: nat, telemetryHandled: nat)

  /** Where the worker's loop is. */
  datatype Place =
    | PollControl
    | AwaitTelemetry
    | Handling(command: Telemetry)
    | AwaitControl
    | Draining
    | Acknowledged
    | Stopped

  /**
   * The queues are the parts of the sent commands that the worker has not taken. `served` holds,
   * for each control command taken, how much telemetry had been handled by then.
   */
  datatype State = State(
    telemetry: seq<Telemetry>,
    control: seq<Queued>,
    telemetrySender: bool,
    controlSender: bool,
    controlOpen: bool,
    place: Place,
    sentTelemetry: seq<Telemetry>,
    sentControl: seq<Queued>,
    handled: seq<Telemetry>,
    served: seq<nat>
  )

  const INIT := State([], [], true, true, true, PollControl, [], [], [], [])

  datatype Event =
    | SendTelemetry(telemetry: Telemetry)
    | SendControl(control: Control)
    | DropTelemetrySender
    | DropControlSender
    | Work(timeout: bool)

  predicate Over(s: State) {
    s.place == Acknowledged || s.place == Stopped
  }

  /** Takes the first control command; a save is written at once. */
  function TakeControl(s: State, onShutdown: Place): State
    requires s.control != []
  {
    s.(control := s.control[1..], served := s.served + [|s.handled|],
       place := if s.control[0].command == Shutdown then onShutdown else PollControl)
  }

  /** The worker's next step; `timeout` says whether a wait for telemetry gives up. */
  function WorkerStep(s: State, timeout: bool): State {
    match s.place
    case PollControl =>
      if !s.controlOpen then s.(place := AwaitTelemetry)
      else if s.control != [] then TakeControl(s, Draining)
      else s.(place := AwaitTelemetry, controlOpen := s.controlSender)
    case AwaitTelemetry =>
      if s.telemetry != [] then s.(place := Handling(s.telemetry[0]), telemetry := s.telemetry[1..])
      else if !s.telemetrySender then s.(place := if s.controlOpen then AwaitControl else Stopped)
      else if s.controlOpen && timeout then s.(place := PollControl)
      else s
    case Handling(command) => s.(handled := s.handled + [command], place := PollControl)
    case AwaitControl =>
      if s.control != [] then TakeControl(s, Acknowledged)
      else if !s.controlSender then s.(place := Stopped)
      else s
    case Draining =>
      if s.telemetry != [] then s.(handled := s.handled + [s.telemetry[0]], telemetry := s.telemetry[1..])
      else s.(place := Acknowledged)
    case Acknowledged => s
    case Stopped => s
  }

  /** Sending fails once the worker is gone. */
  function Step(s: State, e: Event): State {
    match e
    case SendTelemetry(command) =>
      if !s.telemetrySender || Over(s) then s
      else s.(telemetry := s.telemetry + [command], sentTelemetry := s.sentTelemetry + [command])
    case SendControl(command) =>
      if !s.controlSender || Over(s) then s
      else
        var queued := Queued(command, |s.sentTelemetry|, |s.handled|);
        s.(control := s.control + [queued], sentControl := s.sentControl + [queued])
    case DropTelemetrySender => s.(telemetrySender := false)
    case DropControlSender => s.(controlSender := false)
    case Work(timeout) => WorkerStep(s, timeout)
  }

  function Run(s: State, events: seq<Event>): State {
    if events == [] then s else Step(Run(s, events[..|events| - 1]), events[|events| - 1])
  }

  // ---------------------------------------------------------------------------
  // The invariant
  // ---------------------------------------------------------------------------

  function InHand(s: State): seq<Telemetry> {
    if s.place.Handling? then [s.place.command] else []
  }

  /** Both queues are first in, first out, and nothing is lost or repeated. */
  predicate InOrder(s: State) {
    && s.sentTelemetry == s.handled + InHand(s) + s.telemetry
    && |s.served| <= |s.sentControl| && s.control == s.sentControl[|s.served|..]
  }

  /** How much telemetry may have been handled since a waiting control command was queued. */
  function Slack(s: State): nat {
    if s.place == PollControl then 1 else 0
  }

  predicate Prompt(s: State) {
    && (forall i :: 0 <= i < |s.served| && i < |s.sentControl| ==> s.served[i] <= s.sentControl[i].telemetryHandled + 1)
    && (s.place != Draining && !Over(s) ==>
          forall i :: 0 <= i < |s.control| ==> |s.handled| <= s.control[i].telemetryHandled + Slack(s))
  }

  /** The command that ended the service was a shutdown, and what was sent before it has been or will be handled. */
  predicate Ending(s: State) {
    s.place == Draining || s.place == Acknowledged ==>
      && 0 < |s.served| <= |s.sentControl|
      && s.sentControl[|s.served| - 1].command == Shutdown
      && (s.place == Acknowledged ==> s.sentControl[|s.served| - 1].telemetrySent <= |s.handled|)
  }

  predicate Sends(s: State) {
    && (forall i :: 0 <= i < |s.sentControl| ==> s.sentControl[i].telemetrySent <= |s.sentTelemetry|)
    && (!s.controlOpen ==> !s.controlSender && s.control == [])
    && (s.place == AwaitControl ==> !s.telemetrySender && s.telemetry == [])
    && (s.place == Stopped ==> s.telemetry == [] && s.control == [] && !s.telemetrySender && !s.controlSender)
  }

  predicate Inv(s: State) {
    InOrder(s) && Prompt(s) && Ending(s) && Sends(s)
  }

  lemma {:induction false} TakeControlKeeps(s: State, onShutdown: Place)
    requires Inv(s) && s.control != [] && (s.place == PollControl || s.place == AwaitControl)
    requires onShutdown == if s.place == PollControl then Draining else Acknowledged
    ensures Inv(TakeControl(s, onShutdown))
  {
    var s', k := TakeControl(s, onShutdown), |s.served|;
    assert s.control[0] == s.sentControl[k];
    assert s'.control == s.sentControl[k + 1..];
    forall i | 0 <= i < |s'.control| ensures s'.control[i] == s.control[i + 1] {}
  }

  /** Taking the first telemetry command keeps the order. */
  lemma {:induction false} TakeTelemetryKeeps(handled: seq<Telemetry>, waiting: seq<Telemetry>)
    requires waiting != []
    ensures handled + waiting == handled + [waiting[0]] + waiting[1..]
  {
    assert waiting == [waiting[0]] + waiting[1..];
  }

  lemma {:induction false} AwaitTelemetryKeeps(s: State, timeout: bool)
    requires Inv(s) && s.place == AwaitTelemetry
    ensures Inv(WorkerStep(s, timeout))
  {
    if s.telemetry != [] {
      TakeTelemetryKeeps(s.handled, s.telemetry);
      assert s.handled + [] == s.handled;
    }
  }

  lemma {:induction false} DrainingKeeps(s: State, timeout: bool)
    requires Inv(s) && s.place == Draining
    ensures Inv(WorkerStep(s, timeout))
  {
    assert s.handled + [] == s.handled;
    if s.telemetry != [] {
      TakeTelemetryKeeps(s.handled, s.telemetry);
      assert s.handled + [s.telemetry[0]] + [] == s.handled + [s.telemetry[0]];
    } else {
      assert s.sentTelemetry == s.handled;
    }
  }

  lemma {:induction false} HandlingKeeps(s: State, timeout: bool)
    requires Inv(s) && s.place.Handling?
    ensures Inv(WorkerStep(s, timeout))
  {
    var done := s.handled + [s.place.command];
    assert done + [] == done;
  }

  lemma {:induction false} WorkerKeeps(s: State, timeout: bool)
    requires Inv(s)
    ensures Inv(WorkerStep(s, timeout))
  {
    match s.place
    case PollControl =>
      if s.controlOpen && s.control != [] {
        TakeControlKeeps(s, Draining);
      }
    case AwaitTelemetry => AwaitTelemetryKeeps(s, timeout);
    case Handling(_) => HandlingKeeps(s, timeout);
    case AwaitControl =>
      if s.control != [] {
        TakeControlKeeps(s, Acknowledged);
      }
    case Draining => DrainingKeeps(s, timeout);
    case Acknowledged =>
    case Stopped =>
  }

  lemma {:induction false} SendControlKeeps(s: State, command: Control)
    requires Inv(s)
    ensures Inv(Step(s, SendControl(command)))
  {
    if s.controlSender && !Over(s) {
      var s' := Step(s, SendControl(command));
      assert s'.control == s'.sentControl[|s.served|..];
    }
  }

  lemma {:induction false} StepKeeps(s: State, e: Event)
    requires Inv(s)
    ensures Inv(Step(s, e))
  {
    match e
    case SendTelemetry(_) =>
    case SendControl(command) => SendControlKeeps(s, command);
    case DropTelemetrySender =>
    case DropControlSender =>
    case Work(timeout) => WorkerKeeps(s, timeout);
  }

  lemma {:induction false} RunKeeps(s: State, events: seq<Event>)
    requires Inv(s)
    ensures Inv(Run(s, events))
    decreases |events|
  {
    if events != [] {
      RunKeeps(s, events[..|events| - 1]);
      StepKeeps(Run(s, events[..|events| - 1]), events[|events| - 1]);
    }
  }

  // ---------------------------------------------------------------------------
  // What the worker guarantees in every schedule
  // ---------------------------------------------------------------------------

  /** Telemetry is handled in the order sent, exactly once; nothing is lost while the worker lives. */
  lemma {:induction false} HandledInOrder(events: seq<Event>)
    ensures var s := Run(INIT, events);
      s.handled <= s.sentTelemetry && s.sentTelemetry == s.handled + InHand(s) + s.telemetry
  {
    RunKeeps(INIT, events);
  }

  /** At most one telemetry command is handled between a control command being queued and being taken. */
  lemma {:induction false} ControlIsPrompt(events: seq<Event>)
    ensures var s := Run(INIT, events);
      && |s.served| <= |s.sentControl|
      && forall i :: 0 <= i < |s.served| ==> s.served[i] <= s.sentControl[i].telemetryHandled + 1
  {
    RunKeeps(INIT, events);
  }

  /**
   * Once a shutdown is acknowledged, every control command sent before it has been taken and
   * every telemetry command sent before it has been handled.
   */
  lemma {:induction false} ShutdownIsComplete(events: seq<Event>)
    requires Run(INIT, events).place == Acknowledged
    ensures var s := Run(INIT, events);
      && 0 < |s.served| <= |s.sentControl| && s.sentControl[|s.served| - 1].command == Shutdown
      && s.control == s.sentControl[|s.served|..]
      && var before := s.sentControl[|s.served| - 1].telemetrySent;
         before <= |s.sentTelemetry| && s.sentTelemetry[..before] <= s.handled
  {
    RunKeeps(INIT, events);
  }

  /** A worker that stops because both sides hung up has handled everything. */
  lemma {:induction false} StoppingIsComplete(events: seq<Event>)
    requires Run(INIT, events).place == Stopped
    ensures var s := Run(INIT, events);
      s.handled == s.sentTelemetry && |s.served| == |s.sentControl|
  {
    RunKeeps(INIT, events);
  }

  // ---------------------------------------------------------------------------
  // Progress
  // ---------------------------------------------------------------------------

  predicate ShutdownPending(s: State) {
    s.place == Draining || exists i :: 0 <= i < |s.control| && s.control[i].command == Shutdown
  }

  function Steps(s: State): nat {
    3 * |s.telemetry| + 2 * |s.control|
    + match s.place
      case PollControl => 1
      case AwaitTelemetry => 2
      case Handling(_) => 2
      case AwaitControl => 1
      case Draining => 1
      case Acknowledged => 0
      case Stopped => 0
  }

  /** With a shutdown waiting, every step of the worker brings the acknowledgement closer. */
  lemma {:induction false} WorkerProgress(s: State)
    requires Sends(s) && ShutdownPending(s) && !Over(s)
    ensures var s' := WorkerStep(s, true);
      && Steps(s') < Steps(s) && s'.sentTelemetry == s.sentTelemetry
      && (s'.place == Acknowledged || (ShutdownPending(s') && !Over(s')))
      && (s'.place == Acknowledged ==> s'.telemetry == [])
  {
    var s' := WorkerStep(s, true);
    if s.place != Draining {
      var i :| 0 <= i < |s.control| && s.control[i].command == Shutdown;
      if s'.control != s.control && i > 0 {
        assert s'.control[i - 1].command == Shutdown;
      }
    }
  }

  /** The steps of the worker in a schedule, not counting those that are still waiting for telemetry. */
  function WorkSteps(events: seq<Event>): nat {
    if events == [] then 0
    else WorkSteps(events[..|events| - 1]) + if events[|events| - 1] == Work(true) then 1 else 0
  }

  /** The steps that what others send in a schedule can cost the worker. */
  function SendCost(events: seq<Event>): nat {
    if events == [] then 0
    else SendCost(events[..|events| - 1]) + match events[|events| - 1]
      case SendTelemetry(_) => 3
      case SendControl(_) => 2
      case _ => 0
  }

  predicate Closing(s: State) {
    ShutdownPending(s) && !Over(s)
  }

  /** Sends and hang-ups keep the shutdown pending and cost what they cost. */
  lemma {:induction false} OthersCost(s: State, e: Event)
    requires Closing(s) && !e.Work?
    ensures Closing(Step(s, e)) && Steps(Step(s, e)) <= Steps(s) + SendCost([e])
  {
    assert [e][..0] == [];
    var s' := Step(s, e);
    if s.place != Draining {
      var i :| 0 <= i < |s.control| && s.control[i].command == Shutdown;
      assert s'.control[i] == s.control[i];
    }
  }

  /** A step in which the worker may wait for telemetry does not take it back. */
  lemma {:induction false} WaitingCosts(s: State)
    requires Sends(s) && Closing(s)
    ensures var s' := WorkerStep(s, false); s' == s || s' == WorkerStep(s, true)
  {}

  lemma {:induction false} CostSnoc(events: seq<Event>, e: Event)
    ensures WorkSteps(events + [e]) == WorkSteps(events) + WorkSteps([e])
    ensures SendCost(events + [e]) == SendCost(events) + SendCost([e])
  {
    assert (events + [e])[..|events|] == events && [e][..0] == [];
  }

  /** One step of any schedule: acknowledged, or closer by the worker's steps and no farther than what was sent. */
  lemma {:induction false} ClosingStep(s: State, e: Event)
    requires Inv(s) && Closing(s)
    ensures var s' := Step(s, e);
      s'.place == Acknowledged
      || (Closing(s') && Steps(s') + WorkSteps([e]) <= Steps(s) + SendCost([e]))
  {
    assert [e][..0] == [];
    match e
    case Work(timeout) =>
      WorkerProgress(s);
      if !timeout {
        WaitingCosts(s);
      }
    case SendTelemetry(_) => OthersCost(s, e);
    case SendControl(_) => OthersCost(s, e);
    case DropTelemetrySender => OthersCost(s, e);
    case DropControlSender => OthersCost(s, e);
  }

  lemma {:induction false} AcknowledgedStays(s: State, e: Event)
    requires s.place == Acknowledged
    ensures Step(s, e).place == Acknowledged
  {}

  /** Acknowledged, or within reach: `work` steps of the worker done, `cost` caused by what was sent. */
  predicate Near(start: nat, s: State, work: nat, cost: nat) {
    s.place == Acknowledged || (Closing(s) && Steps(s) + work <= start + cost)
  }

  lemma {:induction false} NearStep(start: nat, s: State, e: Event, work: nat, cost: nat)
    requires Inv(s) && Near(start, s, work, cost)
    ensures Near(start, Step(s, e), work + WorkSteps([e]), cost + SendCost([e]))
  {
    if s.place == Acknowledged {
      AcknowledgedStays(s, e);
    } else {
      ClosingStep(s, e);
    }
  }

  lemma {:induction false} StaysNear(s: State, events: seq<Event>)
    requires Inv(s) && Closing(s)
    ensures Near(Steps(s), Run(s, events), WorkSteps(events), SendCost(events))
    decreases |events|
  {
    if events != [] {
      var front, e := events[..|events| - 1], events[|events| - 1];
      StaysNear(s, front);
      RunKeeps(s, front);
      NearStep(Steps(s), Run(s, front), e, WorkSteps(front), SendCost(front));
      CostSnoc(front, e);
      assert events == front + [e];
    }
  }

  /**
   * While others go on sending: once a shutdown is queued, the worker acknowledges it within
   * three steps for each telemetry and two for each control command that is queued or still
   * sent, and at most two more. A step that goes on waiting for telemetry does not count.
   */
  lemma {:induction false} ShutdownIsBounded(s: State, events: seq<Event>)
    requires Inv(s) && Closing(s) && WorkSteps(events) >= Steps(s) + SendCost(events)
    ensures Run(s, events).place == Acknowledged
  {
    StaysNear(s, events);
  }

  /** The state after the queued telemetry has been drained. */
  function Drained(s: State): State {
    s.(telemetry := [], handled := s.handled + s.telemetry)
  }

  /** Draining is what the worker does step by step, and leads to a complete acknowledgement. */
  lemma {:induction false} DrainedKeeps(s: State)
    requires Inv(s) && s.place == Draining
    ensures Inv(Drained(s).(place := Acknowledged)) && Drained(s).handled == s.sentTelemetry
    decreases |s.telemetry|
  {
    WorkerKeeps(s, false);
    var s' := WorkerStep(s, false);
    assert s.handled + [] == s.handled;
    if s.telemetry != [] {
      TakeTelemetryKeeps(s.handled, s.telemetry);
      DrainedKeeps(s');
      assert Drained(s') == Drained(s);
    }
  }

  class Worker {
    var state: State

    constructor ()
      ensures state == INIT && Inv(state)
    {
      state := INIT;
    }

    /** Handles all the telemetry that is queued. */
    method DrainTelemetry()
      modifies this
      ensures state == Drained(old(state))
    {
      ghost var before := state;
      while state.telemetry != []
        invariant state == before.(telemetry := state.telemetry, handled := state.handled)
        invariant before.handled + before.telemetry == state.handled + state.telemetry
        decreases |state.telemetry|
      {
        TakeTelemetryKeeps(state.handled, state.telemetry);
        state := state.(handled := state.handled + [state.telemetry[0]], telemetry := state.telemetry[1..]);
      }
    }

    /**
     * The loop of the worker from when a shutdown is queued and no one sends any more: it ends,
     * acknowledges, and all the telemetry has been handled in order.
     */
    method RunUntilShutdown()
      requires Inv(state) && ShutdownPending(state) && !Over(state)
      modifies this
      ensures Inv(state) && state.place == Acknowledged
      ensures state.sentTelemetry == old(state.sentTelemetry) == state.handled
    {
      while state.place != Draining && state.place != Acknowledged
        invariant Inv(state) && (state.place == Acknowledged || (ShutdownPending(state) && !Over(state)))
        invariant state.sentTelemetry == old(state.sentTelemetry)
        invariant state.place == Acknowledged ==> state.telemetry == []
        decreases Steps(state)
      {
        WorkerProgress(state);
        WorkerKeeps(state, true);
        state := WorkerStep(state, true);
      }
      if state.place == Draining {
        DrainedKeeps(state);
        DrainTelemetry();
        state := state.(place := Acknowledged);
      }
    }
  }
}
