/**
 * The character model cache: the interface thread asks a loader thread for a model and shows
 * a result only if it answers the current request, recognised by its generation.
 */
module AvatarModel {
  import opened Signals
  import opened Text

  datatype Profile = Profile(modelPath: string, animationPaths: seq<string>, shaderPath: string)

  /** The paths that identify a model, all of them together. */
  datatype Paths = Paths(model: string, animations: seq<string>, shader: string)

  datatype Request = Request(generation: nat, paths: Paths)

  /** What the loader returns; the content is opaque. */
  datatype Completed = Completed(request: Request, outcome: Option<nat>)

  /** A shown model, with the request it was decoded for. */
  datatype Asset = Asset(content: nat, request: Request)

  datatype Error = DecodeFailed | QueueFailed | LoaderStopped

  datatype Cache = Cache(
    requested: Option<Paths>,
    asset: Option<Asset>,
    error: Option<Error>,
    generation: nat,
    active: Option<nat>
  )

  /** The loader thread with its two channels. */
  datatype Loader = Loader(requests: seq<Request>, working: Option<Request>, results: seq<Completed>, alive: bool)

  datatype State = State(cache: Cache, loader: Loader)

  const INIT := State(Cache(None, None, None, 0, None), Loader([], None, [], true))

  // ---------------------------------------------------------------------------
  // The interface thread
  // ---------------------------------------------------------------------------

  /** Trimmed, without the empty ones. */
  function NonEmptyTrimmed(paths: seq<string>): seq<string> {
    if paths == [] then []
    else
      var n := |paths| - 1;
      var path := Trim(paths[n]);
      NonEmptyTrimmed(paths[..n]) + if path == [] then [] else [path]
  }

  function PathsOf(p: Profile): Paths {
    Paths(Trim(p.modelPath), NonEmptyTrimmed(p.animationPaths), Trim(p.shaderPath))
  }

  lemma {:induction false} AllTrimmed(paths: seq<string>)
    ensures forall i :: 0 <= i < |NonEmptyTrimmed(paths)| ==>
      Trimmed(NonEmptyTrimmed(paths)[i]) && NonEmptyTrimmed(paths)[i] != []
    decreases |paths|
  {
    if paths != [] {
      AllTrimmed(paths[..|paths| - 1]);
      TrimIsTrimmed(paths[|paths| - 1]);
    }
  }

  lemma {:induction false} TrimmedStay(paths: seq<string>)
    requires forall i :: 0 <= i < |paths| ==> Trimmed(paths[i]) && paths[i] != []
    ensures NonEmptyTrimmed(paths) == paths
    decreases |paths|
  {
    if paths != [] {
      var front, last := paths[..|paths| - 1], paths[|paths| - 1];
      TrimmedStay(front);
      TrimIsTrimmed(last);
      assert paths == front + [last];
    }
  }

  /** Every trimmed path that is not empty is kept, after those of the paths before it. */
  lemma {:induction false} PathsKept(paths: seq<string>, i: nat)
    requires i < |paths| && Trim(paths[i]) != []
    ensures var kept := NonEmptyTrimmed(paths);
      var rank := |NonEmptyTrimmed(paths[..i])|;
      rank < |kept| && kept[rank] == Trim(paths[i])
    decreases |paths|
  {
    var n := |paths| - 1;
    if i < n {
      PathsKept(paths[..n], i);
      assert paths[..n][..i] == paths[..i];
    }
  }

  /** Normalising is idempotent: a profile that spells its normal paths out asks for the same model. */
  lemma {:induction false} PathsAreNormal(p: Profile)
    ensures var q := PathsOf(p); PathsOf(Profile(q.model, q.animations, q.shader)) == q
  {
    TrimIsTrimmed(p.modelPath);
    TrimIsTrimmed(Trim(p.modelPath));
    TrimIsTrimmed(p.shaderPath);
    TrimIsTrimmed(Trim(p.shaderPath));
    AllTrimmed(p.animationPaths);
    TrimmedStay(NonEmptyTrimmed(p.animationPaths));
  }

  /** A change of any path forgets the model and starts a new generation. */
  function Requested(c: Cache, p: Profile): Cache {
    if c.requested == Some(PathsOf(p)) then c
    else c.(requested := Some(PathsOf(p)), asset := None, error := None, generation := c.generation + 1)
  }

  function Invalidated(c: Cache): Cache {
    c.(requested := None, asset := None, error := None, generation := c.generation + 1)
  }

  predicate HasPath(c: Cache) {
    c.requested.Some? && c.requested.value.model != []
  }

  /** One attempt to receive a result. */
  function Polled(s: State): State {
    var c := s.cache;
    if s.loader.results == [] then
      if s.loader.alive then s
      else s.(cache := c.(active := None, error := if HasPath(c) then Some(LoaderStopped) else c.error))
    else
      var done := s.loader.results[0];
      var idle := c.(active := None);
      var cache := if done.request.generation != c.generation then idle
                   else match done.outcome
                     case Some(content) => idle.(asset := Some(Asset(content, done.request)))
                     case None => idle.(error := Some(DecodeFailed));
      State(cache, s.loader.(results := s.loader.results[1..]))
  }

  predicate NeedsLoad(c: Cache) {
    HasPath(c) && c.asset.None? && c.error.None? && c.active.None?
  }

  function Started(s: State): State {
    if !NeedsLoad(s.cache) then s
    else if !s.loader.alive then s.(cache := s.cache.(error := Some(QueueFailed)))
    else
      var request := Request(s.cache.generation, s.cache.requested.value);
      State(s.cache.(active := Some(s.cache.generation)), s.loader.(requests := s.loader.requests + [request]))
  }

  /** One frame of the interface. The loader may act between its three parts. */
  function Synced(s: State, p: Profile): State {
    Started(Polled(s.(cache := Requested(s.cache, p))))
  }

  // ---------------------------------------------------------------------------
  // Interleavings with the loader thread
  // ---------------------------------------------------------------------------

  datatype Event =
    | RequestPaths(profile: Profile)
    | PollLoader
    | StartLoad
    | Invalidate
    | LoaderTakes
    | LoaderReturns(outcome: Option<nat>)
    | LoaderDies

  /** A loader that dies drops its channel ends; results already sent can still be received. */
  function Step(s: State, e: Event): State {
    match e
    case RequestPaths(p) => s.(cache := Requested(s.cache, p))
    case PollLoader => Polled(s)
    case StartLoad => Started(s)
    case Invalidate => s.(cache := Invalidated(s.cache))
    case LoaderTakes =>
      var l := s.loader;
      if !l.alive || l.working.Some? || l.requests == [] then s
      else s.(loader := l.(requests := l.requests[1..], working := Some(l.requests[0])))
    case LoaderReturns(outcome) =>
      var l := s.loader;
      if !l.alive || l.working.None? then s
      else s.(loader := l.(working := None, results := l.results + [Completed(l.working.value, outcome)]))
    case LoaderDies => s.(loader := s.loader.(requests := [], working := None, alive := false))
  }

  function Run(s: State, events: seq<Event>): State {
    if events == [] then s else Step(Run(s, events[..|events| - 1]), events[|events| - 1])
  }

  // ---------------------------------------------------------------------------
  // The invariant
  // ---------------------------------------------------------------------------

  /** The loads that were asked for and whose result was not received. */
  function Outstanding(l: Loader): nat {
    |l.requests| + |l.results| + if l.working.Some? then 1 else 0
  }

  predicate IsOutstanding(l: Loader, r: Request) {
    r in l.requests || l.working == Some(r) || exists i :: 0 <= i < |l.results| && l.results[i].request == r
  }

  /** A request of the current generation asks for the current paths. */
  predicate Answers(c: Cache, r: Request) {
    r.generation <= c.generation && (r.generation == c.generation ==> c.requested == Some(r.paths))
  }

  predicate OneLoad(s: State) {
    && Outstanding(s.loader) <= 1
    && (s.cache.active.None? ==> Outstanding(s.loader) == 0)
    && (!s.loader.alive ==> s.loader.requests == [] && s.loader.working.None?)
  }

  ghost predicate OutstandingOk(s: State) {
    forall r :: IsOutstanding(s.loader, r) ==>
      && Answers(s.cache, r) && s.cache.active == Some(r.generation)
      && (s.cache.asset.Some? ==> r.generation < s.cache.generation)
  }

  /** The shown model was decoded for the current paths at the current generation. */
  predicate AssetOk(c: Cache) {
    c.asset.Some? ==>
      c.asset.value.request.generation == c.generation && c.requested == Some(c.asset.value.request.paths)
  }

  ghost predicate Inv(s: State) {
    OneLoad(s) && OutstandingOk(s) && AssetOk(s.cache)
  }

  lemma {:induction false} PolledKeeps(s: State)
    requires Inv(s)
    ensures Inv(Polled(s))
  {
    if s.loader.results != [] {
      var done := s.loader.results[0];
      assert IsOutstanding(s.loader, done.request);
      assert Outstanding(Polled(s).loader) == 0;
    }
  }

  lemma {:induction false} StartedKeeps(s: State)
    requires Inv(s)
    ensures Inv(Started(s))
  {
    if NeedsLoad(s.cache) && s.loader.alive {
      var request := Request(s.cache.generation, s.cache.requested.value);
      var l := Started(s).loader;
      assert l == Loader([request], None, [], true);
      forall r | IsOutstanding(l, r) ensures r == request {}
    }
  }

  lemma {:induction false} LoaderKeeps(s: State, e: Event)
    requires Inv(s) && (e.LoaderTakes? || e.LoaderReturns? || e.LoaderDies?)
    ensures Inv(Step(s, e))
  {
    var l, l' := s.loader, Step(s, e).loader;
    forall r | IsOutstanding(l', r) ensures IsOutstanding(l, r) {
      if e.LoaderReturns? && l.alive && l.working.Some? {
        assert l'.requests == [] && l'.results == [Completed(l.working.value, e.outcome)];
      }
    }
  }

  lemma {:induction false} StepKeeps(s: State, e: Event)
    requires Inv(s)
    ensures Inv(Step(s, e))
  {
    match e
    case RequestPaths(p) =>
    case PollLoader => PolledKeeps(s);
    case StartLoad => StartedKeeps(s);
    case Invalidate =>
    case LoaderTakes => LoaderKeeps(s, e);
    case LoaderReturns(_) => LoaderKeeps(s, e);
    case LoaderDies => LoaderKeeps(s, e);
  }

  lemma {:induction false} RunKeeps(s: State, events: seq<Event>)
    requires Inv(s)
    ensures Inv(Run(s, events))
    decreases |events|
  {
    if events != [] {
      RunKeeps(s, events[..|events| - 1]);
      StepKeeps(Run(s, events[..|events| - 1]), events[|events| - 1]);
    }
  }

  lemma {:induction false} InitHolds()
    ensures Inv(INIT)
  {}

  // ---------------------------------------------------------------------------
  // What the cache guarantees
  // ---------------------------------------------------------------------------

  /** In every interleaving at most one load is outstanding. */
  lemma {:induction false} AtMostOneLoad(events: seq<Event>)
    ensures Outstanding(Run(INIT, events).loader) <= 1
  {
    InitHolds();
    RunKeeps(INIT, events);
  }

  /**
   * In every interleaving a shown model was decoded for exactly the current model, animation
   * and shader paths, by a request of the current generation.
   */
  lemma {:induction false} ShownModelIsCurrent(events: seq<Event>)
    ensures var c := Run(INIT, events).cache;
      c.asset.Some? ==> c.requested.Some? && c.asset.value.request == Request(c.generation, c.requested.value)
  {
    InitHolds();
    RunKeeps(INIT, events);
  }

  /** Synchronising again with the same paths keeps the shown model and asks for nothing. */
  lemma {:induction false} RepeatedSyncIsQuiet(s: State, p: Profile)
    requires Inv(s) && s.cache.requested == Some(PathsOf(p)) && s.cache.asset.Some?
    ensures var s' := Synced(s, p);
      && s'.cache.asset == s.cache.asset && s'.cache.generation == s.cache.generation
      && s'.loader.requests == s.loader.requests
  {
    if s.loader.results != [] {
      assert IsOutstanding(s.loader, s.loader.results[0].request);
    }
  }

  /** A stale result is dropped when it arrives, and the current paths are asked for in the same frame. */
  lemma {:induction false} StaleResultIsDropped(s: State, p: Profile)
    requires Inv(s) && s.cache.requested != Some(PathsOf(p)) && PathsOf(p).model != []
    requires s.loader.alive && s.loader.results != []
    ensures var s' := Synced(s, p);
      && s'.cache.asset.None? && s'.cache.error.None?
      && s'.loader.requests == [Request(s'.cache.generation, PathsOf(p))]
  {
    assert IsOutstanding(s.loader, s.loader.results[0].request);
  }

  /** Once a load of the current paths is done, the next frame shows it. */
  lemma {:induction false} FinishedLoadIsShown(s: State, p: Profile, content: nat)
    requires Inv(s) && s.cache.requested == Some(PathsOf(p)) && s.loader.alive && s.loader.results == []
    requires s.loader.working == Some(Request(s.cache.generation, PathsOf(p)))
    ensures var s' := Synced(Step(s, LoaderReturns(Some(content))), p);
      s'.cache.asset == Some(Asset(content, Request(s.cache.generation, PathsOf(p))))
  {}

  // ---------------------------------------------------------------------------
  // The cache object
  // ---------------------------------------------------------------------------

  class AvatarModelLoader {
    var requests: seq<Request>
    var working: Option<Request>
    var results: seq<Completed>
    var alive: bool

    constructor ()
      ensures View() == INIT.loader
    {
      requests, working, results, alive := [], None, [], true;
    }

    ghost function View(): Loader
      reads this
    {
      Loader(requests, working, results, alive)
    }

    /** Queues a request; fails once the thread is gone. */
    method Send(request: Request) returns (sent: bool)
      modifies this
      ensures sent == old(alive)
      ensures View() == if sent then old(View()).(requests := old(requests) + [request]) else old(View())
    {
      if alive {
        requests := requests + [request];
      }
      return alive;
    }

    method TryReceive() returns (done: Option<Completed>)
      modifies this
      ensures done == if old(results) == [] then None else Some(old(results)[0])
      ensures View() == if old(results) == [] then old(View()) else old(View()).(results := old(results)[1..])
    {
      if results == [] {
        return None;
      }
      done := Some(results[0]);
      results := results[1..];
    }
  }

  class AvatarModelCache {
    const loader: AvatarModelLoader
    var requestedPath: Option<string>
    var requestedAnimations: Option<seq<string>>
    var requestedShader: Option<string>
    var asset: Option<Asset>
    var error: Option<Error>
    var generation: nat
    var active: Option<nat>

    /** The three requested fields are set and cleared together. */
    ghost predicate Valid()
      reads this
    {
      requestedPath.Some? == requestedAnimations.Some? == requestedShader.Some?
    }

    ghost function View(): State
      requires Valid()
      reads this, loader
    {
      var requested := if requestedPath.None? then None
                       else Some(Paths(requestedPath.value, requestedAnimations.value, requestedShader.value));
      State(Cache(requested, asset, error, generation, active), loader.View())
    }

    constructor ()
      ensures Valid() && fresh(loader) && View() == INIT
    {
      loader := new AvatarModelLoader();
      requestedPath, requestedAnimations, requestedShader := None, None, None;
      asset, error, generation, active := None, None, 0, None;
    }

    method PollLoader()
      requires Valid()
      modifies this, loader
      ensures Valid() && View() == Polled(old(View()))
    {
      var done := loader.TryReceive();
      if done.None? {
        if !loader.alive {
          active := None;
          if requestedPath.Some? && requestedPath.value != [] {
            error := Some(LoaderStopped);
          }
        }
        return;
      }
      active := None;
      if done.value.request.generation != generation {
        return;
      }
      match done.value.outcome {
        case Some(content) => asset := Some(Asset(content, done.value.request));
        case None => error := Some(DecodeFailed);
      }
    }

    method StartLoadIfNeeded()
      requires Valid()
      modifies this, loader
      ensures Valid() && View() == Started(old(View()))
    {
      if requestedPath.None? || requestedPath.value == [] || asset.Some? || error.Some? || active.Some? {
        return;
      }
      var paths := Paths(requestedPath.value, requestedAnimations.value, requestedShader.value);
      var sent := loader.Send(Request(generation, paths));
      if sent {
        active := Some(generation);
      } else {
        error := Some(QueueFailed);
      }
    }

    method Sync(profile: Profile)
      requires Valid()
      modifies this, loader
      ensures Valid() && View() == Synced(old(View()), profile)
    {
      var paths := PathsOf(profile);
      if requestedPath != Some(paths.model)
         || requestedAnimations != Some(paths.animations)
         || requestedShader != Some(paths.shader)
      {
        requestedPath := Some(paths.model);
        requestedAnimations := Some(paths.animations);
        requestedShader := Some(paths.shader);
        asset := None;
        error := None;
        generation := generation + 1;
      }
      PollLoader();
      StartLoadIfNeeded();
    }

    method Invalidate()
      requires Valid()
      modifies this
      ensures Valid() && View() == old(View()).(cache := Invalidated(old(View()).cache))
    {
      requestedPath, requestedAnimations, requestedShader := None, None, None;
      asset, error := None, None;
      generation := generation + 1;
    }
  }
}
