/** One component and the state machine that moves it through its stages. */
module Lifecycle {
  import opened Stages

  datatype StopOutcome = StopOk | StopError | StopPanic

  /** What the component's own code does when a call reaches it. */
  datatype Hooks = Hooks(initOk: bool, postInitOk: bool, stop: StopOutcome)

  /** What one call returns to its caller. */
  datatype Result = Done | InitFailed | PostInitFailed | StopFailed | Panicked

  /** A stage notification and a state notification, each with its previous and current value. */
  datatype Move = Move(prev: Stage, cur: Stage)
  datatype Turn = Turn(was: State, now: State)

  /** The hooks a call runs and the goroutines it launches. */
  datatype Effect =
    | ChannelMade
    | CallbackAdded
    | ReaderSpawned
    | InitRan(ok: bool)
    | PostInitRan(ok: bool)
    | PreStartSpawned
    | StartLaunched
    | StopRan(outcome: StopOutcome)
    | RoutesRemoved
    | TornDown
    | Unregistered

  /** How often the effects that matter have happened, and how many happened too early. */
  datatype Tally = Tally(
    readers: nat, inits: nat, failedInits: nat, postInits: nat, failedPostInits: nat,
    launches: nat, stops: nat, teardowns: nat, removals: nat, early: nat)
  {
    /** What the effect depends on has happened. */
    predicate Due(e: Effect) {
      match e
      case InitRan(_) => 0 < readers
      case PostInitRan(_) => 0 < inits
      case PreStartSpawned | StartLaunched => 0 < postInits
      case StopRan(_) => 0 < launches
      case TornDown => 0 < stops + failedInits + failedPostInits
      case Unregistered => 0 < teardowns
      case _ => true
    }

    function Count(e: Effect): Tally {
      var t := if Due(e) then this else this.(early := early + 1);
      match e
      case ReaderSpawned => t.(readers := readers + 1)
      case InitRan(ok) => if ok then t.(inits := inits + 1) else t.(failedInits := failedInits + 1)
      case PostInitRan(ok) =>
        if ok then t.(postInits := postInits + 1) else t.(failedPostInits := failedPostInits + 1)
      case StartLaunched => t.(launches := launches + 1)
      case StopRan(outcome) => if outcome == StopOk then t.(stops := stops + 1) else t
      case TornDown => t.(teardowns := teardowns + 1)
      case Unregistered => t.(removals := removals + 1)
      case _ => t
    }
  }

  const ZERO := Tally(0, 0, 0, 0, 0, 0, 0, 0, 0, 0)

  /** The tally of a sequence of effects. */
  function Replay(effects: seq<Effect>): Tally {
    if effects == [] then ZERO else Replay(effects[..|effects| - 1]).Count(effects[|effects| - 1])
  }

  /** A component with everything it has notified and done so far. */
  datatype Life = Life(
    stage: Stage, state: State, moves: seq<Move>, turns: seq<Turn>, effects: seq<Effect>, tally: Tally)

  const NEWBORN := Life(Submitted, Inactive, [], [], [], ZERO)

  // ---------- what one call does ----------

  function Announce(l: Life, s: Stage): Life {
    l.(stage := s, state := StateAt(s), moves := l.moves + [Move(l.stage, s)],
       turns := l.turns + if l.state == StateAt(s) then [] else [Turn(l.state, StateAt(s))])
  }

  function Do(l: Life, e: Effect): Life { l.(effects := l.effects + [e], tally := l.tally.Count(e)) }

  function Wire(l: Life): Life {
    Announce(Do(Do(Do(l, ChannelMade), CallbackAdded), ReaderSpawned), Preinitialized)
  }

  function GiveUp(l: Life): Life { Announce(Announce(l, Aborting), Tearingdown) }

  function Initialize(l: Life, hooks: Hooks): Life {
    var tried := Do(Announce(l, Initializing), InitRan(hooks.initOk));
    if !hooks.initOk then GiveUp(tried)
    else
      var triedBoth := Do(tried, PostInitRan(hooks.postInitOk));
      if !hooks.postInitOk then GiveUp(triedBoth) else Announce(triedBoth, Initialized)
  }

  function Launch(l: Life): Life {
    Announce(Do(Announce(Do(l, PreStartSpawned), Starting), StartLaunched), Started)
  }

  function GoDown(l: Life): Life { Do(Announce(Do(l, TornDown), Teareddown), Unregistered) }

  function Halt(l: Life, hooks: Hooks): Life {
    var tried := Do(l, StopRan(hooks.stop));
    if hooks.stop != StopOk then tried
    else GoDown(Announce(Do(tried, RoutesRemoved), Stopped))
  }

  /** One call of the state machine; its arms are chosen by the stage it finds. */
  function Call(l: Life, control: Control, hooks: Hooks): Life {
    match l.stage
    case Submitted => Initialize(Wire(Announce(l, Preinitializing)), hooks)
    case Preinitializing => Initialize(Wire(l), hooks)
    case Preinitialized => Initialize(l, hooks)
    case Initialized | Restarting => Launch(l)
    case Started =>
      if control == RestartMmux then Do(l, ReaderSpawned)
      else if control == RestartAfter then Announce(l, Restarting)
      else if control == Shutdown then Announce(l, Stopping)
      else l
    case Stopping => Halt(l, hooks)
    case Stopped | Tearingdown => GoDown(l)
    case Initializing | Starting | Teareddown | Aborting => l
  }

  /** The stage a call leaves behind. */
  function NextStage(s: Stage, control: Control, hooks: Hooks): Stage {
    match s
    case Submitted | Preinitializing | Preinitialized =>
      if hooks.initOk && hooks.postInitOk then Initialized else Tearingdown
    case Initialized | Restarting => Started
    case Started =>
      if control == RestartAfter then Restarting else if control == Shutdown then Stopping else Started
    case Stopping => if hooks.stop == StopOk then Teareddown else Stopping
    case Stopped | Tearingdown => Teareddown
    case Initializing | Starting | Teareddown | Aborting => s
  }

  function CallResult(s: Stage, hooks: Hooks): Result {
    match s
    case Submitted | Preinitializing | Preinitialized =>
      if !hooks.initOk then InitFailed else if !hooks.postInitOk then PostInitFailed else Done
    case Stopping =>
      if hooks.stop == StopOk then Done else if hooks.stop == StopError then StopFailed else Panicked
    case _ => Done
  }

  /** What a Shutdown message leads to: a call and, if that leaves the component at Stopping, another. */
  function ShutDown(l: Life, first: Hooks, second: Hooks): Life {
    var once := Call(l, Shutdown, first);
    if CallResult(l.stage, first) != Panicked && once.stage == Stopping then Call(once, Shutdown, second) else once
  }

  function ShutdownAnswer(s: Stage, first: Hooks, second: Hooks): Result {
    if CallResult(s, first) == Panicked then Panicked
    else if NextStage(s, Shutdown, first) == Stopping then CallResult(Stopping, second)
    else Done
  }

  /** The stage that a Shutdown message leaves behind. */
  function ShutdownStage(s: Stage, first: Hooks, second: Hooks): Stage {
    var once := NextStage(s, Shutdown, first);
    if CallResult(s, first) != Panicked && once == Stopping then NextStage(once, Shutdown, second) else once
  }

  // ---------- the stages visited ----------

  const PRELUDE: seq<Stage> := [Submitted, Preinitializing, Preinitialized, Initializing]
  const ABORTED_RUN: seq<Stage> := PRELUDE + [Aborting, Tearingdown, Teareddown]

  /** A run up to Started, when Start has been launched `launches` times. */
  function ServingRun(launches: nat): seq<Stage> {
    if launches == 0 then PRELUDE
    else ServingRun(launches - 1) + [if launches == 1 then Initialized else Restarting, Starting, Started]
  }

  function WholeRun(launches: nat): seq<Stage> { ServingRun(launches) + [Stopping, Stopped, Teareddown] }

  /** The only way to be at stage `s` after the given number of launches. */
  function Path(s: Stage, launches: nat, aborted: bool): seq<Stage> {
    match s
    case Submitted => PRELUDE[..1]
    case Preinitializing => PRELUDE[..2]
    case Preinitialized => PRELUDE[..3]
    case Initializing => PRELUDE
    case Initialized => PRELUDE + [Initialized]
    case Starting => ServingRun(launches) + [if launches == 0 then Initialized else Restarting, Starting]
    case Started => ServingRun(launches)
    case Restarting => ServingRun(launches) + [Restarting]
    case Stopping => ServingRun(launches) + [Stopping]
    case Stopped => ServingRun(launches) + [Stopping, Stopped]
    case Aborting => PRELUDE + [Aborting]
    case Tearingdown => PRELUDE + [Aborting, Tearingdown]
    case Teareddown => if aborted then ABORTED_RUN else WholeRun(launches)
  }

  predicate Aborted(l: Life) { 0 < l.tally.failedInits + l.tally.failedPostInits }

  /** The notifications are exactly the steps of a path: each starts where the one before it ended. */
  predicate Traces(moves: seq<Move>, path: seq<Stage>) {
    && |path| == |moves| + 1
    && forall i :: 0 <= i < |moves| ==> moves[i] == Move(path[i], path[i + 1])
  }

  const UP: Turn := Turn(Inactive, Active)
  const DOWN: Turn := Turn(Active, Inactive)

  /** The state notifications sent by the time stage `s` is announced. */
  function TurnsBy(s: Stage, aborted: bool): seq<Turn> {
    match s
    case Initialized | Starting | Started | Restarting => [UP]
    case Stopping | Stopped => [UP, DOWN]
    case Teareddown => if aborted then [] else [UP, DOWN]
    case _ => []
  }

  /** Between two announcements: the notifications are those of the path to the present stage, and
      State is in step with Stage. */
  ghost predicate OnPath(l: Life) {
    && l.state == StateAt(l.stage)
    && Traces(l.moves, Path(l.stage, l.tally.launches, Aborted(l)))
    && l.turns == TurnsBy(l.stage, Aborted(l))
  }

  /** The stages in which a component is seen between two calls. */
  predicate AtRest(s: Stage) {
    s.Submitted? || s.Initialized? || s.Started? || s.Restarting? || s.Stopping? || s.Tearingdown? || s.Teareddown?
  }

  /** The stages between two calls and how often Start has been launched by then. */
  predicate Possible(s: Stage, launches: nat) {
    match s
    case Submitted | Initialized | Tearingdown => launches == 0
    case Started | Restarting | Stopping => 0 < launches
    case Teareddown => true
    case _ => false
  }

  predicate Served(l: Life) {
    l.stage.Started? || l.stage.Restarting? || l.stage.Stopping? || (l.stage.Teareddown? && !Aborted(l))
  }

  /** How often each thing has happened, between two calls. */
  predicate Ledger(l: Life) {
    var t := l.tally;
    && t.early == 0
    && (0 < t.readers <==> l.stage != Submitted)
    && t.inits + t.failedInits == (if l.stage == Submitted then 0 else 1)
    && t.postInits + t.failedPostInits == t.inits
    && (l.stage == Tearingdown ==> t.postInits == 0)
    && (l.stage == Initialized || Served(l) ==> t.postInits == 1)
    && (if Served(l) then 0 < t.launches else t.launches == 0)
    && t.stops == (if l.stage == Teareddown && !Aborted(l) then 1 else 0)
    && t.teardowns == t.removals == (if l.stage == Teareddown then 1 else 0)
  }

  lemma TracesThen(moves: seq<Move>, path: seq<Stage>, s: Stage)
    requires Traces(moves, path)
    ensures Traces(moves + [Move(path[|path| - 1], s)], path + [s])
  {
  }

  /** One announcement that takes the path to one stage more. */
  lemma AnnounceOnPath(l: Life, s: Stage, path: seq<Stage>)
    requires OnPath(l)
    requires path == Path(l.stage, l.tally.launches, Aborted(l)) && 0 < |path| && path[|path| - 1] == l.stage
    requires Path(s, l.tally.launches, Aborted(l)) == path + [s]
    requires TurnsBy(s, Aborted(l))
             == l.turns + if StateAt(l.stage) == StateAt(s) then [] else [Turn(StateAt(l.stage), StateAt(s))]
    ensures OnPath(Announce(l, s))
  {
    TracesThen(l.moves, path, s);
  }

  lemma DoOnPath(l: Life, e: Effect)
    requires OnPath(l) && e != StartLaunched && e != InitRan(false) && e != PostInitRan(false)
    ensures OnPath(Do(l, e))
  {
  }

  /** What is known of a component between two calls. */
  ghost predicate Sound(l: Life) {
    AtRest(l.stage) && OnPath(l) && Ledger(l)
  }

  lemma NewbornSound(l: Life)
    requires l.stage == Submitted && l.state == Inactive && l.moves == [] && l.turns == [] && l.tally == ZERO
    ensures Sound(l)
  {
    assert |PRELUDE[..1]| == 1;
  }

  lemma WireOnPath(l: Life)
    requires OnPath(l) && l.stage == Preinitializing
    ensures OnPath(Wire(l))
  {
    var made := Do(l, ChannelMade);
    var added := Do(made, CallbackAdded);
    DoOnPath(l, ChannelMade);
    DoOnPath(made, CallbackAdded);
    DoOnPath(added, ReaderSpawned);
    AnnounceOnPath(Do(added, ReaderSpawned), Preinitialized, PRELUDE[..2]);
  }

  lemma GiveUpOnPath(l: Life)
    requires OnPath(l) && l.stage == Initializing
    ensures OnPath(GiveUp(l))
  {
    AnnounceOnPath(l, Aborting, PRELUDE);
    AnnounceOnPath(Announce(l, Aborting), Tearingdown, PRELUDE + [Aborting]);
  }

  /** At Initializing the path does not depend on what the hooks return. */
  lemma TryOnPath(l: Life, e: Effect)
    requires OnPath(l) && l.stage == Initializing && (e.InitRan? || e.PostInitRan?)
    ensures OnPath(Do(l, e))
  {
  }

  lemma InitializeOnPath(l: Life, hooks: Hooks)
    requires OnPath(l) && l.stage == Preinitialized && !Aborted(l)
    ensures OnPath(Initialize(l, hooks))
  {
    var trying := Announce(l, Initializing);
    AnnounceOnPath(l, Initializing, PRELUDE[..3]);
    var tried := Do(trying, InitRan(hooks.initOk));
    TryOnPath(trying, InitRan(hooks.initOk));
    if !hooks.initOk {
      GiveUpOnPath(tried);
    } else {
      var triedBoth := Do(tried, PostInitRan(hooks.postInitOk));
      TryOnPath(tried, PostInitRan(hooks.postInitOk));
      if !hooks.postInitOk {
        GiveUpOnPath(triedBoth);
      } else {
        AnnounceOnPath(triedBoth, Initialized, PRELUDE);
      }
    }
  }

  lemma BootOnPath(l: Life, hooks: Hooks)
    requires OnPath(l) && l.stage == Submitted && !Aborted(l)
    ensures OnPath(Initialize(Wire(Announce(l, Preinitializing)), hooks))
  {
    var first := Announce(l, Preinitializing);
    AnnounceOnPath(l, Preinitializing, PRELUDE[..1]);
    WireOnPath(first);
    InitializeOnPath(Wire(first), hooks);
  }

  lemma BootKeeps(l: Life, hooks: Hooks)
    requires Sound(l) && l.stage == Submitted
    ensures Sound(Initialize(Wire(Announce(l, Preinitializing)), hooks))
  {
    BootOnPath(l, hooks);
  }

  lemma ServingGrows(n: nat)
    ensures ServingRun(n) + [if n == 0 then Initialized else Restarting] + [Starting] + [Started] == ServingRun(n + 1)
  {
    assert ServingRun(n + 1) == ServingRun(n) + [if n == 0 then Initialized else Restarting, Starting, Started];
  }

  lemma LaunchOnPath(l: Life)
    requires OnPath(l) && !Aborted(l)
    requires (l.stage == Initialized && l.tally.launches == 0) || (l.stage == Restarting && 0 < l.tally.launches)
    ensures OnPath(Launch(l))
  {
    var ready := Do(l, PreStartSpawned);
    var n := l.tally.launches;
    DoOnPath(l, PreStartSpawned);
    var path := ServingRun(n) + [if n == 0 then Initialized else Restarting];
    AnnounceOnPath(ready, Starting, path);
    var starting := Announce(ready, Starting);
    TracesThen(starting.moves, path + [Starting], Started);
    ServingGrows(n);
  }

  lemma LaunchKeeps(l: Life)
    requires Sound(l) && (l.stage == Initialized || l.stage == Restarting)
    ensures Sound(Launch(l))
  {
    LaunchOnPath(l);
  }

  lemma StepAside(l: Life, s: Stage)
    requires Sound(l) && l.stage == Started && (s == Restarting || s == Stopping)
    ensures Sound(Announce(l, s))
  {
    var n := l.tally.launches;
    assert ServingRun(n)[|ServingRun(n)| - 1] == Started;
    AnnounceOnPath(l, s, ServingRun(n));
  }

  lemma GoDownOnPath(l: Life)
    requires OnPath(l) && (if Aborted(l) then l.stage == Tearingdown else l.stage == Stopped)
    ensures OnPath(GoDown(l))
  {
    var torn := Do(l, TornDown);
    var n := l.tally.launches;
    DoOnPath(l, TornDown);
    var path := if Aborted(l) then PRELUDE + [Aborting, Tearingdown] else ServingRun(n) + [Stopping, Stopped];
    AnnounceOnPath(torn, Teareddown, path);
    DoOnPath(Announce(torn, Teareddown), Unregistered);
  }

  lemma TearDownKeeps(l: Life)
    requires Sound(l) && l.stage == Tearingdown
    ensures Sound(GoDown(l))
  {
    GoDownOnPath(l);
  }

  lemma HaltOnPath(l: Life, hooks: Hooks)
    requires OnPath(l) && l.stage == Stopping && !Aborted(l)
    ensures OnPath(Halt(l, hooks))
  {
    var tried := Do(l, StopRan(hooks.stop));
    DoOnPath(l, StopRan(hooks.stop));
    if hooks.stop == StopOk {
      var removed := Do(tried, RoutesRemoved);
      DoOnPath(tried, RoutesRemoved);
      AnnounceOnPath(removed, Stopped, ServingRun(l.tally.launches) + [Stopping]);
      GoDownOnPath(Announce(removed, Stopped));
    }
  }

  lemma HaltLedger(l: Life, hooks: Hooks)
    requires Ledger(l) && l.stage == Stopping
    ensures Ledger(Halt(l, hooks)) && AtRest(Halt(l, hooks).stage)
  {
  }

  lemma HaltKeeps(l: Life, hooks: Hooks)
    requires Sound(l) && l.stage == Stopping
    ensures Sound(Halt(l, hooks))
  {
    HaltOnPath(l, hooks);
    HaltLedger(l, hooks);
  }

  lemma StartedKeeps(l: Life, control: Control, hooks: Hooks)
    requires Sound(l) && l.stage == Started
    ensures Sound(Call(l, control, hooks))
  {
    DoOnPath(l, ReaderSpawned);
    StepAside(l, Restarting);
    StepAside(l, Stopping);
  }

  /** Every call, with any control value and any outcome of the hooks, keeps what is known. */
  lemma CallKeeps(l: Life, control: Control, hooks: Hooks)
    requires Sound(l)
    ensures Sound(Call(l, control, hooks))
  {
    match l.stage
    case Submitted => BootKeeps(l, hooks);
    case Initialized | Restarting => LaunchKeeps(l);
    case Started => StartedKeeps(l, control, hooks);
    case Stopping => HaltKeeps(l, hooks);
    case Tearingdown => TearDownKeeps(l);
    case Teareddown =>
  }

  lemma ShutdownKeeps(l: Life, first: Hooks, second: Hooks)
    requires Sound(l)
    ensures Sound(ShutDown(l, first, second))
  {
    CallKeeps(l, Shutdown, first);
    CallKeeps(Call(l, Shutdown, first), Shutdown, second);
  }

  lemma NextStageIs(l: Life, control: Control, hooks: Hooks)
    ensures Call(l, control, hooks).stage == NextStage(l.stage, control, hooks)
  {
  }

  /** The control value matters at Started alone, where three of them do something. */
  lemma ControlMattersExactlyWhen(l: Life, control: Control, hooks: Hooks)
    requires AtRest(l.stage)
    ensures Call(l, control, hooks) != Call(l, NoControl, hooks)
            <==> l.stage == Started && control in {RestartAfter, RestartMmux, Shutdown}
    ensures l.stage == Started ==> Call(l, NoControl, hooks) == l
    ensures l.stage == Started ==>
              && (Call(l, control, hooks).stage == Restarting <==> control == RestartAfter)
              && (Call(l, control, hooks).stage == Stopping <==> control == Shutdown)
  {
    if l.stage == Started {
      assert |Do(l, ReaderSpawned).effects| > |l.effects|;
    }
  }

  lemma ShutdownStageIs(l: Life, first: Hooks, second: Hooks)
    ensures ShutDown(l, first, second).stage == ShutdownStage(l.stage, first, second)
  {
    NextStageIs(l, Shutdown, first);
    NextStageIs(Call(l, Shutdown, first), Shutdown, second);
  }

  /** A Shutdown that is acknowledged has torn the component down, except that one found at Initialized or
      Restarting was started by it. */
  lemma AcknowledgedShutdownStopsExactlyWhen(l: Life, first: Hooks, second: Hooks)
    requires AtRest(l.stage) && l.stage != Submitted && ShutdownAnswer(l.stage, first, second) == Done
    ensures ShutDown(l, first, second).stage == Teareddown <==> !(l.stage == Initialized || l.stage == Restarting)
    ensures l.stage == Initialized || l.stage == Restarting ==> ShutDown(l, first, second).stage == Started
  {
    ShutdownStageIs(l, first, second);
  }

  // ---------- the tally is the tally of the effects ----------

  predicate Honest(l: Life) { l.tally == Replay(l.effects) }

  lemma NewbornHonest(l: Life)
    requires l.effects == [] && l.tally == ZERO
    ensures Honest(l)
  {
  }

  lemma DoHonest(l: Life, e: Effect)
    requires Honest(l)
    ensures Honest(Do(l, e))
  {
    assert (l.effects + [e])[..|l.effects|] == l.effects;
  }

  lemma InitializeHonest(l: Life, hooks: Hooks)
    requires Honest(l)
    ensures Honest(Initialize(l, hooks))
  {
    var trying := Announce(l, Initializing);
    var tried := Do(trying, InitRan(hooks.initOk));
    DoHonest(trying, InitRan(hooks.initOk));
    DoHonest(tried, PostInitRan(hooks.postInitOk));
  }

  lemma WireHonest(l: Life)
    requires Honest(l)
    ensures Honest(Wire(l))
  {
    DoHonest(l, ChannelMade);
    DoHonest(Do(l, ChannelMade), CallbackAdded);
    DoHonest(Do(Do(l, ChannelMade), CallbackAdded), ReaderSpawned);
  }

  lemma GoDownHonest(l: Life)
    requires Honest(l)
    ensures Honest(GoDown(l))
  {
    DoHonest(l, TornDown);
    DoHonest(Announce(Do(l, TornDown), Teareddown), Unregistered);
  }

  lemma HaltHonest(l: Life, hooks: Hooks)
    requires Honest(l)
    ensures Honest(Halt(l, hooks))
  {
    var tried := Do(l, StopRan(hooks.stop));
    DoHonest(l, StopRan(hooks.stop));
    DoHonest(tried, RoutesRemoved);
    GoDownHonest(Announce(Do(tried, RoutesRemoved), Stopped));
  }

  lemma LaunchHonest(l: Life)
    requires Honest(l)
    ensures Honest(Launch(l))
  {
    DoHonest(l, PreStartSpawned);
    DoHonest(Announce(Do(l, PreStartSpawned), Starting), StartLaunched);
  }

  lemma CallHonest(l: Life, control: Control, hooks: Hooks)
    requires Honest(l)
    ensures Honest(Call(l, control, hooks))
  {
    match l.stage
    case Submitted =>
      WireHonest(Announce(l, Preinitializing));
      InitializeHonest(Wire(Announce(l, Preinitializing)), hooks);
    case Preinitializing =>
      WireHonest(l);
      InitializeHonest(Wire(l), hooks);
    case Preinitialized => InitializeHonest(l, hooks);
    case Initialized | Restarting => LaunchHonest(l);
    case Started => DoHonest(l, ReaderSpawned);
    case Stopping => HaltHonest(l, hooks);
    case Stopped | Tearingdown => GoDownHonest(l);
    case _ =>
  }

  lemma {:induction false} EarlyGrows(effects: seq<Effect>, n: nat)
    requires n <= |effects|
    ensures Replay(effects[..n]).early <= Replay(effects).early
    decreases |effects| - n
  {
    if n < |effects| {
      EarlyGrows(effects, n + 1);
      assert effects[..n + 1][..n] == effects[..n];
    } else {
      assert effects[..n] == effects;
    }
  }

  /** With nothing counted early, each effect happened after what it depends on. */
  lemma NothingEarly(effects: seq<Effect>, i: nat)
    requires Replay(effects).early == 0 && i < |effects|
    ensures Replay(effects[..i]).Due(effects[i])
  {
    EarlyGrows(effects, i + 1);
    assert effects[..i + 1][..i] == effects[..i];
  }

  // ---------- the effects, in full ----------

  /** Effects that may come any number of times: a message loop after the first, and a Stop that fails. */
  predicate Repeatable(e: Effect) { e.ReaderSpawned? || (e.StopRan? && !e.outcome.StopOk?) }

  predicate Repeats(before: seq<Effect>, e: Effect) {
    if e.ReaderSpawned? then ReaderSpawned in before else Repeatable(e)
  }

  /** The effects without these. */
  function Essential(effects: seq<Effect>): seq<Effect> {
    if effects == [] then []
    else
      var before, e := Essential(effects[..|effects| - 1]), effects[|effects| - 1];
      if Repeats(before, e) then before else before + [e]
  }

  const WIRED: seq<Effect> := [ChannelMade, CallbackAdded, ReaderSpawned]
  const BOOTED: seq<Effect> := WIRED + [InitRan(true), PostInitRan(true)]

  const STOPPED: seq<Effect> := [StopRan(StopOk), RoutesRemoved, TornDown, Unregistered]

  /** Every launch right after a PreStart of its own. */
  function Launches(n: nat): seq<Effect> { if n == 0 then [] else Launches(n - 1) + [PreStartSpawned, StartLaunched] }

  function Failed(initOk: bool): seq<Effect> {
    WIRED + if initOk then [InitRan(true), PostInitRan(false)] else [InitRan(false)]
  }

  /** All that is essential, in order, for a component seen at a stage after the given number of launches; a
      component torn down without one has failed in its Init or in its PostInit. */
  function Journal(s: Stage, launches: nat, initOk: bool): seq<Effect> {
    match s
    case Initialized => BOOTED
    case Started | Restarting | Stopping => BOOTED + Launches(launches)
    case Tearingdown => Failed(initOk)
    case Teareddown =>
      if launches == 0 then Failed(initOk) + [TornDown, Unregistered]
      else BOOTED + Launches(launches) + STOPPED
    case _ => []
  }

  /** What one call adds, by the stage it finds. */
  function Added(s: Stage, control: Control, hooks: Hooks): seq<Effect> {
    match s
    case Submitted => WIRED + if hooks.initOk then [InitRan(true), PostInitRan(hooks.postInitOk)] else [InitRan(false)]
    case Initialized | Restarting => [PreStartSpawned, StartLaunched]
    case Started => if control == RestartMmux then [ReaderSpawned] else []
    case Stopping => if hooks.stop == StopOk then STOPPED else [StopRan(hooks.stop)]
    case Tearingdown => [TornDown, Unregistered]
    case _ => []
  }

  lemma WireAdds(l: Life)
    ensures Wire(l).effects == l.effects + WIRED
  {
  }

  lemma InitializeAdds(l: Life, hooks: Hooks)
    ensures Initialize(l, hooks).effects
            == l.effects + if hooks.initOk then [InitRan(true), PostInitRan(hooks.postInitOk)] else [InitRan(false)]
  {
  }

  lemma GoDownAdds(l: Life)
    ensures GoDown(l).effects == l.effects + [TornDown, Unregistered]
  {
  }

  lemma HaltAdds(l: Life, hooks: Hooks)
    requires l.stage == Stopping
    ensures Halt(l, hooks).effects == l.effects + Added(Stopping, NoControl, hooks)
  {
    if hooks.stop == StopOk {
      GoDownAdds(Announce(Do(Do(l, StopRan(hooks.stop)), RoutesRemoved), Stopped));
    }
  }

  lemma CallAdds(l: Life, control: Control, hooks: Hooks)
    requires AtRest(l.stage)
    ensures Call(l, control, hooks).effects == l.effects + Added(l.stage, control, hooks)
  {
    match l.stage
    case Submitted =>
      WireAdds(Announce(l, Preinitializing));
      InitializeAdds(Wire(Announce(l, Preinitializing)), hooks);
    case Stopping => HaltAdds(l, hooks);
    case Tearingdown => GoDownAdds(l);
    case _ =>
  }

  lemma EssentialOne(before: seq<Effect>, e: Effect)
    ensures Essential(before + [e])
            == if Repeats(Essential(before), e) then Essential(before) else Essential(before) + [e]
  {
    assert (before + [e])[..|before|] == before;
  }

  lemma EssentialTwo(before: seq<Effect>, d: Effect, e: Effect)
    requires !Repeatable(d) && !Repeatable(e)
    ensures Essential(before + [d, e]) == Essential(before) + [d, e]
  {
    EssentialOne(before, d);
    EssentialOne(before + [d], e);
    assert before + [d, e] == before + [d] + [e];
  }

  lemma WiredEssential(before: seq<Effect>)
    requires Essential(before) == []
    ensures Essential(before + WIRED) == WIRED
  {
    EssentialTwo(before, ChannelMade, CallbackAdded);
    EssentialOne(before + [ChannelMade, CallbackAdded], ReaderSpawned);
    assert before + WIRED == before + [ChannelMade, CallbackAdded] + [ReaderSpawned];
  }

  lemma BootEssential(before: seq<Effect>, hooks: Hooks)
    requires Essential(before) == []
    ensures Essential(before + Added(Submitted, NoControl, hooks))
            == if hooks.initOk && hooks.postInitOk then BOOTED else Failed(hooks.initOk)
  {
    WiredEssential(before);
    if hooks.initOk {
      EssentialTwo(before + WIRED, InitRan(true), PostInitRan(hooks.postInitOk));
      assert before + Added(Submitted, NoControl, hooks)
             == before + WIRED + [InitRan(true), PostInitRan(hooks.postInitOk)];
    } else {
      EssentialOne(before + WIRED, InitRan(false));
      assert before + Added(Submitted, NoControl, hooks) == before + WIRED + [InitRan(false)];
    }
  }

  lemma StoppedEssential(before: seq<Effect>)
    ensures Essential(before + STOPPED) == Essential(before) + STOPPED
  {
    EssentialTwo(before, StopRan(StopOk), RoutesRemoved);
    EssentialTwo(before + [StopRan(StopOk), RoutesRemoved], TornDown, Unregistered);
    assert before + STOPPED == before + [StopRan(StopOk), RoutesRemoved] + [TornDown, Unregistered];
  }

  lemma LaunchEssential(before: seq<Effect>, n: nat)
    requires Essential(before) == BOOTED + Launches(n)
    ensures Essential(before + [PreStartSpawned, StartLaunched]) == BOOTED + Launches(n + 1)
  {
    EssentialTwo(before, PreStartSpawned, StartLaunched);
    assert BOOTED + Launches(n) + [PreStartSpawned, StartLaunched] == BOOTED + Launches(n + 1);
  }

  lemma ReaderEssential(before: seq<Effect>, n: nat)
    requires Essential(before) == BOOTED + Launches(n)
    ensures Essential(before + [ReaderSpawned]) == Essential(before)
  {
    assert (BOOTED + Launches(n))[2] == ReaderSpawned;
    EssentialOne(before, ReaderSpawned);
  }

  /** The journal with what one call adds is the journal of where it leads. */
  predicate Continues(before: seq<Effect>, s: Stage, n: nat, ok: bool, control: Control, hooks: Hooks) {
    Essential(before + Added(s, control, hooks))
    == Journal(NextStage(s, control, hooks), if s == Initialized || s == Restarting then n + 1 else n,
               if s == Submitted then hooks.initOk else ok)
  }

  lemma StartedContinues(before: seq<Effect>, n: nat, ok: bool, control: Control, hooks: Hooks)
    requires Essential(before) == Journal(Started, n, ok)
    ensures Continues(before, Started, n, ok, control, hooks)
  {
    ReaderEssential(before, n);
    assert before + [] == before;
  }

  lemma StoppingContinues(before: seq<Effect>, n: nat, ok: bool, control: Control, hooks: Hooks)
    requires Essential(before) == Journal(Stopping, n, ok) && 0 < n
    ensures Continues(before, Stopping, n, ok, control, hooks)
  {
    if hooks.stop == StopOk {
      StoppedEssential(before);
    } else {
      EssentialOne(before, StopRan(hooks.stop));
    }
  }

  lemma LaunchContinues(before: seq<Effect>, s: Stage, n: nat, ok: bool, control: Control, hooks: Hooks)
    requires Essential(before) == Journal(s, n, ok) && (s == Restarting || (s == Initialized && n == 0))
    ensures Continues(before, s, n, ok, control, hooks)
  {
    assert BOOTED == BOOTED + Launches(0);
    LaunchEssential(before, n);
  }

  lemma TearDownContinues(before: seq<Effect>, ok: bool, control: Control, hooks: Hooks)
    requires Essential(before) == Journal(Tearingdown, 0, ok)
    ensures Continues(before, Tearingdown, 0, ok, control, hooks)
  {
    EssentialTwo(before, TornDown, Unregistered);
  }

  lemma JournalContinues(before: seq<Effect>, s: Stage, n: nat, ok: bool, control: Control, hooks: Hooks)
    requires Essential(before) == Journal(s, n, ok) && Possible(s, n)
    ensures Continues(before, s, n, ok, control, hooks)
  {
    match s
    case Submitted => BootEssential(before, hooks);
    case Initialized | Restarting => LaunchContinues(before, s, n, ok, control, hooks);
    case Started => StartedContinues(before, n, ok, control, hooks);
    case Stopping => StoppingContinues(before, n, ok, control, hooks);
    case Tearingdown => TearDownContinues(before, ok, control, hooks);
    case Teareddown => assert before + [] == before;
  }

  /** How often an effect has happened. */
  function Times(effects: seq<Effect>, e: Effect): nat {
    if effects == [] then 0
    else Times(effects[..|effects| - 1], e) + if effects[|effects| - 1] == e then 1 else 0
  }

  lemma TimesThen(effects: seq<Effect>, d: Effect, e: Effect)
    ensures Times(effects + [d], e) == Times(effects, e) + if d == e then 1 else 0
  {
    assert (effects + [d])[..|effects|] == effects;
  }

  lemma {:induction false} TimesAdd(a: seq<Effect>, b: seq<Effect>, e: Effect)
    ensures Times(a + b, e) == Times(a, e) + Times(b, e)
    decreases |b|
  {
    if b == [] {
      assert a + b == a;
    } else {
      var front, d := b[..|b| - 1], b[|b| - 1];
      TimesAdd(a, front, e);
      TimesThen(a + front, d, e);
      assert a + b == (a + front) + [d];
    }
  }

  lemma TimesTwo(c: Effect, d: Effect, e: Effect)
    ensures Times([c], e) == if c == e then 1 else 0
    ensures Times([c, d], e) == (if c == e then 1 else 0) + (if d == e then 1 else 0)
  {
    TimesThen([], c, e);
    TimesThen([c], d, e);
    assert [] + [c] == [c] && [c] + [d] == [c, d];
  }

  /** No other effect is lost from the journal. */
  lemma {:induction false} EssentialTimes(effects: seq<Effect>, e: Effect)
    requires !Repeatable(e)
    ensures Times(Essential(effects), e) == Times(effects, e)
  {
    if effects != [] {
      var front, last := effects[..|effects| - 1], effects[|effects| - 1];
      EssentialTimes(front, e);
      TimesThen(Essential(front), last, e);
    }
  }

  lemma {:induction false} LaunchesTimes(n: nat, e: Effect)
    ensures Times(Launches(n), e) == if e == PreStartSpawned || e == StartLaunched then n else 0
  {
    if 0 < n {
      LaunchesTimes(n - 1, e);
      TimesTwo(PreStartSpawned, StartLaunched, e);
      TimesAdd(Launches(n - 1), [PreStartSpawned, StartLaunched], e);
    }
  }

  /** How often an effect other than a hook or the launch of a message loop has happened, to be seen at a stage
      after the given number of launches. */
  function HowOften(e: Effect, s: Stage, launches: nat): nat {
    match e
    case ChannelMade | CallbackAdded => if s == Submitted then 0 else 1
    case PreStartSpawned | StartLaunched => launches
    case RoutesRemoved => if s == Teareddown && 0 < launches then 1 else 0
    case TornDown | Unregistered => if s == Teareddown then 1 else 0
    case _ => 0
  }

  predicate IsHook(e: Effect) { e.InitRan? || e.PostInitRan? || e.StopRan? }

  lemma WiredTimes(e: Effect)
    ensures Times(WIRED, e) == if e == ChannelMade || e == CallbackAdded || e == ReaderSpawned then 1 else 0
  {
    TimesTwo(ChannelMade, CallbackAdded, e);
    TimesThen([ChannelMade, CallbackAdded], ReaderSpawned, e);
    assert [ChannelMade, CallbackAdded] + [ReaderSpawned] == WIRED;
  }

  /** After the wiring come hooks only, whichever of them failed. */
  lemma TriedTimes(tried: seq<Effect>, e: Effect)
    requires !IsHook(e) && |tried| <= 2 && forall d :: d in tried ==> IsHook(d)
    ensures Times(WIRED + tried, e) == Times(WIRED, e)
  {
    TimesAdd(WIRED, tried, e);
    if |tried| == 1 {
      TimesTwo(tried[0], tried[0], e);
      assert tried == [tried[0]];
    } else if |tried| == 2 {
      TimesTwo(tried[0], tried[1], e);
      assert tried == [tried[0], tried[1]];
    }
  }

  lemma OpeningTimes(ok: bool, e: Effect)
    requires !IsHook(e) && e != ReaderSpawned
    ensures Times(BOOTED, e) == Times(Failed(ok), e) == if e == ChannelMade || e == CallbackAdded then 1 else 0
  {
    WiredTimes(e);
    TriedTimes([InitRan(true), PostInitRan(true)], e);
    TriedTimes(if ok then [InitRan(true), PostInitRan(false)] else [InitRan(false)], e);
  }

  lemma EndTimes(e: Effect)
    requires !IsHook(e)
    ensures Times(STOPPED, e) == if e == RoutesRemoved || e == TornDown || e == Unregistered then 1 else 0
    ensures Times([TornDown, Unregistered], e) == if e == TornDown || e == Unregistered then 1 else 0
  {
    TimesTwo(StopRan(StopOk), RoutesRemoved, e);
    TimesTwo(TornDown, Unregistered, e);
    TimesAdd([StopRan(StopOk), RoutesRemoved], [TornDown, Unregistered], e);
    assert STOPPED == [StopRan(StopOk), RoutesRemoved] + [TornDown, Unregistered];
  }

  lemma ServedTimes(n: nat, e: Effect)
    requires !IsHook(e) && e != ReaderSpawned && 0 < n
    ensures Times(BOOTED + Launches(n), e) == HowOften(e, Started, n)
    ensures Times(BOOTED + Launches(n) + STOPPED, e) == HowOften(e, Teareddown, n)
  {
    OpeningTimes(true, e);
    EndTimes(e);
    LaunchesTimes(n, e);
    TimesAdd(BOOTED, Launches(n), e);
    TimesAdd(BOOTED + Launches(n), STOPPED, e);
  }

  lemma FailedTimes(ok: bool, e: Effect)
    requires !IsHook(e) && e != ReaderSpawned
    ensures Times(BOOTED, e) == HowOften(e, Initialized, 0)
    ensures Times(Failed(ok), e) == HowOften(e, Tearingdown, 0)
    ensures Times(Failed(ok) + [TornDown, Unregistered], e) == HowOften(e, Teareddown, 0)
  {
    OpeningTimes(ok, e);
    EndTimes(e);
    TimesAdd(Failed(ok), [TornDown, Unregistered], e);
  }

  lemma JournalTimes(s: Stage, n: nat, ok: bool, e: Effect)
    requires Possible(s, n) && !IsHook(e) && e != ReaderSpawned
    ensures Times(Journal(s, n, ok), e) == HowOften(e, s, n)
  {
    if 0 < n {
      ServedTimes(n, e);
    } else {
      FailedTimes(ok, e);
    }
  }

  /** The effects of a component are those of its journal. */
  ghost predicate Recorded(l: Life) {
    exists ok: bool :: Essential(l.effects) == Journal(l.stage, l.tally.launches, ok)
  }

  lemma NewbornRecorded(l: Life)
    requires l.stage == Submitted && l.effects == []
    ensures Recorded(l)
  {
    assert Essential(l.effects) == Journal(l.stage, l.tally.launches, true);
  }

  predicate Tells(r: Result, more: seq<Effect>) {
    && (r == InitFailed <==> InitRan(false) in more) && (r == PostInitFailed <==> PostInitRan(false) in more)
    && (r == StopFailed <==> StopRan(StopError) in more) && (r == Panicked <==> StopRan(StopPanic) in more)
  }

  lemma BootTells(hooks: Hooks)
    ensures Tells(CallResult(Submitted, hooks), Added(Submitted, NoControl, hooks))
  {
    assert WIRED == [ChannelMade, CallbackAdded, ReaderSpawned];
  }

  /** The result of a call tells which hook has failed in it, if any. */
  lemma ResultTells(l: Life, control: Control, hooks: Hooks) returns (more: seq<Effect>)
    requires AtRest(l.stage)
    ensures Call(l, control, hooks).effects == l.effects + more
    ensures Tells(CallResult(l.stage, hooks), more)
  {
    more := Added(l.stage, control, hooks);
    CallAdds(l, control, hooks);
    if l.stage == Submitted {
      BootTells(hooks);
    }
  }

  /** What a Shutdown adds at Started or Stopping: one Stop, or two if the first returned an error. */
  function AddedByShutdown(s: Stage, first: Hooks, second: Hooks): seq<Effect> {
    if s == Started then Added(Stopping, Shutdown, second)
    else if first.stop == StopError then [StopRan(StopError)] + Added(Stopping, Shutdown, second)
    else Added(Stopping, Shutdown, first)
  }

  lemma ShutdownAdds(l: Life, first: Hooks, second: Hooks)
    requires l.stage == Started || l.stage == Stopping
    ensures ShutDown(l, first, second).effects == l.effects + AddedByShutdown(l.stage, first, second)
  {
    var once := Call(l, Shutdown, first);
    CallAdds(l, Shutdown, first);
    NextStageIs(l, Shutdown, first);
    if l.stage == Started || first.stop == StopError {
      CallAdds(once, Shutdown, second);
    }
  }

  /** The last of the effects is that of a Stop that ended so, and none before it is a panic. */
  predicate EndsWith(more: seq<Effect>, answer: Result) {
    && more != []
    && more[|more| - 1] == (match answer
                            case Done => Unregistered
                            case StopFailed => StopRan(StopError)
                            case _ => StopRan(StopPanic))
    && forall i :: 0 <= i < |more| - 1 ==> more[i] != StopRan(StopPanic)
  }

  lemma StopEnds(control: Control, hooks: Hooks)
    ensures EndsWith(Added(Stopping, control, hooks), CallResult(Stopping, hooks))
  {
  }

  /** Such a Shutdown told from its effects: its answer is that of the Stop that ran last, it tears the component
      down exactly if that succeeded, and nothing follows a Stop that panicked. */
  lemma ShutdownTells(l: Life, first: Hooks, second: Hooks) returns (more: seq<Effect>)
    requires l.stage == Started || l.stage == Stopping
    ensures ShutDown(l, first, second).effects == l.effects + more
    ensures EndsWith(more, ShutdownAnswer(l.stage, first, second))
    ensures ShutdownAnswer(l.stage, first, second) == Done <==> ShutDown(l, first, second).stage == Teareddown
  {
    more := AddedByShutdown(l.stage, first, second);
    ShutdownAdds(l, first, second);
    ShutdownStageIs(l, first, second);
    StopEnds(Shutdown, first);
    StopEnds(Shutdown, second);
  }

  // ---------- the component itself ----------

  class Component {
    var stage: Stage
    var state: State
    var moves: seq<Move>
    var turns: seq<Turn>
    var effects: seq<Effect>
    ghost var tally: Tally

    ghost function View(): Life
      reads this
    {
      Life(stage, state, moves, turns, effects, tally)
    }

    /** State is in step with Stage. */
    ghost predicate Valid()
      reads this
    {
      state == StateAt(stage)
    }

    constructor ()
      ensures Valid() && View() == NEWBORN
    {
      stage, state := Submitted, Inactive;
      moves, turns, effects, tally := [], [], [], ZERO;
    }

    method Perform(e: Effect)
      modifies this`effects, this`tally
      ensures View() == Do(old(View()), e)
    {
      effects := effects + [e];
      tally := tally.Count(e);
    }

    method SetState(s: State)
      modifies this`state, this`turns
      ensures state == s
      ensures turns == old(turns) + if old(state) == s then [] else [Turn(old(state), s)]
    {
      var prevState := state;
      state := s;
      if state != prevState {
        turns := turns + [Turn(prevState, s)];
      }
    }

    method SetStage(s: Stage)
      modifies this`stage, this`state, this`moves, this`turns
      ensures Valid() && View() == Announce(old(View()), s)
    {
      var change := Move(stage, s);
      stage := s;
      moves := moves + [change];
      if Rank(Initialized) <= Rank(stage) <= Rank(Started) {
        SetState(Active);
      } else {
        SetState(Inactive);
      }
    }

    /** The arm entered at Preinitializing, up to the fallthrough. */
    method RunPreinitializing()
      modifies this
      ensures Valid() && View() == Wire(old(View()))
    {
      Perform(ChannelMade);
      Perform(CallbackAdded);
      Perform(ReaderSpawned);
      SetStage(Preinitialized);
    }

    /** The arm entered at Preinitialized. */
    method RunPreinitialized(hooks: Hooks) returns (r: Result)
      modifies this
      ensures Valid() && View() == Initialize(old(View()), hooks) && r == CallResult(Preinitialized, hooks)
    {
      SetStage(Initializing);
      Perform(InitRan(hooks.initOk));
      if !hooks.initOk {
        SetStage(Aborting);
        SetStage(Tearingdown);
        return InitFailed;
      }
      Perform(PostInitRan(hooks.postInitOk));
      if !hooks.postInitOk {
        SetStage(Aborting);
        SetStage(Tearingdown);
        return PostInitFailed;
      }
      SetStage(Initialized);
      r := Done;
    }

    /** The arm entered at Tearingdown, or by falling through from Stopped. */
    method RunTearingdown()
      modifies this
      ensures Valid() && View() == GoDown(old(View()))
    {
      Perform(TornDown);
      SetStage(Teareddown);
      Perform(Unregistered);
    }

    /** The arm entered at Stopping. */
    method RunStopping(hooks: Hooks) returns (r: Result)
      requires Valid()
      modifies this
      ensures Valid() && View() == Halt(old(View()), hooks) && r == CallResult(Stopping, hooks)
    {
      Perform(StopRan(hooks.stop));
      if hooks.stop == StopError {
        return StopFailed;
      } else if hooks.stop == StopPanic {
        return Panicked;
      }
      Perform(RoutesRemoved);
      SetStage(Stopped);
      RunTearingdown();
      r := Done;
    }

    /** One call of the state machine, from taking the mutating lock to releasing it. `at` is the
        arm being executed, so that assigning it is a Go fallthrough. */
    method ComponentLifecycleFsm(control: Control, hooks: Hooks) returns (r: Result)
      requires Valid()
      modifies this
      ensures Valid()
      ensures View() == Call(old(View()), control, hooks)
      ensures stage == NextStage(old(stage), control, hooks)
      ensures r == CallResult(old(stage), hooks)
    {
      var at := stage;
      r := Done;
      if at == Submitted {
        SetStage(Preinitializing);
        at := Preinitializing;
      }
      if at == Preinitializing {
        RunPreinitializing();
        at := Preinitialized;
      }
      match at
      case Preinitialized => r := RunPreinitialized(hooks);
      case Initialized | Restarting =>
        Perform(PreStartSpawned);
        SetStage(Starting);
        Perform(StartLaunched);
        SetStage(Started);
      case Started =>
        match control {
          case RestartMmux => Perform(ReaderSpawned);
          case RestartAfter => SetStage(Restarting);
          case Shutdown => SetStage(Stopping);
          case _ =>
        }
      case Stopping => r := RunStopping(hooks);
      case Stopped | Tearingdown => RunTearingdown();
      case _ =>
    }

    /** The message loop's handling of a Shutdown. */
    method HandleShutdown(first: Hooks, second: Hooks) returns (answer: Result)
      requires Valid()
      modifies this
      ensures Valid() && View() == ShutDown(old(View()), first, second)
      ensures stage == ShutdownStage(old(stage), first, second)
      ensures answer == ShutdownAnswer(old(stage), first, second)
    {
      var r := ComponentLifecycleFsm(Shutdown, first);
      if r == Panicked {
        return Panicked;
      }
      answer := Done;
      if stage == Stopping {
        answer := ComponentLifecycleFsm(Shutdown, second);
      }
    }
  }
}
