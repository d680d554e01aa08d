/** All the goroutines that can call the state machine of one component, interleaved freely: Add
    workers, the message loop and its deferred restart, Start and its deferred restart. A call holds
    the component's mutating lock throughout, so it is one atomic step. */
module Interleaving {
  import opened Lifecycle
  import opened Runs
  import opened Stages
  
  /** A live message loop, waiting on the channel or handling the message sent in position `pos`. */
  datatype Reader = Idle | Busy(pos: nat)

  /** One message being handled: begun and ended (answered, or abandoned by a panic or a return). */
  datatype Handling = Began(pos: nat) | Ended(pos: nat)

  /** `reloads`, `retries` and `relaunches` count the goroutines about to make, respectively, a
      RestartMmux call, the first and the second RestartAfter call of a Start that returned.
      `lost`, `strays` and `bounced` are history: RestartMmux calls that ran at a stage other than
      Started, calls other than a relaunch that ran at Restarting, and relaunches that ran at Started.
      `ended` counts the goroutines that came to nothing: a Start that was not to be retried, a retry
      that failed, and a relaunch that found the component closing. */
  datatype Sys = Sys(
    life: Life,
    readers: seq<Reader>,
    reloads: nat,
    starts: nat,
    retries: nat,
    relaunches: nat,
    sent: nat,
    taken: nat,
    wire: seq<Handling>,
    lost: nat,
    strays: nat,
    bounced: nat,
    ended: nat)

  const INITIAL := Sys(NEWBORN, [], 0, 0, 0, 0, 0, 0, [], 0, 0, 0, 0)

  /** `OtherCall` is any call not listed separately, whoever makes it: an Add worker (no control
      value), a message loop handling a Shutdown, and, more liberally than the code, anyone with any
      other control value. Only the deferred function of a message loop passes RestartMmux. */
  datatype Step =
    | OtherCall(control: Control, hooks: Hooks)
    | Send
    | Take(reader: nat)
    | Answer(reader: nat)
    | LoopEnds(reader: nat)
    | Reload(hooks: Hooks)
    | StartReturns(restartable: bool)
    | Retry(hooks: Hooks)
    | Relaunch(hooks: Hooks)

  predicate Enabled(s: Sys, step: Step) {
    match step
    case OtherCall(control, _) => control != RestartMmux
    case Send => s.life.stage != Submitted
    case Take(r) => r < |s.readers| && s.readers[r] == Idle && s.taken < s.sent
    case Answer(r) => r < |s.readers| && s.readers[r].Busy?
    case LoopEnds(r) => r < |s.readers|
    case Reload(_) => 0 < s.reloads
    case StartReturns(_) => 0 < s.starts
    case Retry(_) => 0 < s.retries
    case Relaunch(_) => 0 < s.relaunches
  }

  /** A call of the state machine, with the goroutines it launches. */
  function Calling(s: Sys, control: Control, hooks: Hooks): Sys {
    var after := Call(s.life, control, hooks);
    s.(life := after,
       readers := s.readers + if s.life.tally.readers < after.tally.readers then [Idle] else [],
       starts := s.starts + if s.life.tally.launches < after.tally.launches then 1 else 0)
  }

  function CountStray(s: Sys): Sys { if s.life.stage == Restarting then s.(strays := s.strays + 1) else s }

  /** The state with a RestartMmux call no longer pending, just before it runs. */
  function Discounted(s: Sys): Sys
    requires 0 < s.reloads
  {
    CountStray(s).(reloads := s.reloads - 1, lost := s.lost + if s.life.stage == Started then 0 else 1)
  }

  /** The state with a relaunch no longer pending, just before it runs. */
  function Relaunching(s: Sys): Sys
    requires 0 < s.relaunches
  {
    s.(relaunches := s.relaunches - 1,
       bounced := s.bounced + (if s.life.stage == Started then 1 else 0),
       ended := s.ended + (if s.life.stage == Started || s.life.stage == Restarting then 0 else 1))
  }

  function Apply(s: Sys, step: Step): Sys
    requires Enabled(s, step)
  {
    match step
    case OtherCall(control, hooks) => Calling(CountStray(s), control, hooks)
    case Send => s.(sent := s.sent + 1)
    case Take(r) =>
      s.(readers := s.readers[r := Busy(s.taken)], taken := s.taken + 1, wire := s.wire + [Began(s.taken)])
    case Answer(r) =>
      s.(readers := s.readers[r := Idle], wire := s.wire + [Ended(s.readers[r].pos)])
    case LoopEnds(r) =>
      s.(readers := s.readers[..r] + s.readers[r + 1..],
         wire := s.wire + (if s.readers[r].Busy? then [Ended(s.readers[r].pos)] else []),
         reloads := s.reloads + 1)
    case Reload(hooks) =>
      Calling(Discounted(s), RestartMmux, hooks)
    case StartReturns(restartable) =>
      if Rank(s.life.stage) < Rank(Stopping) && restartable
      then s.(starts := s.starts - 1, retries := s.retries + 1)
      else s.(starts := s.starts - 1, ended := s.ended + 1)
    case Retry(hooks) =>
      var t := Calling(CountStray(s).(retries := s.retries - 1), RestartAfter, hooks);
      if CallResult(s.life.stage, hooks) == Done then t.(relaunches := t.relaunches + 1) else t.(ended := t.ended + 1)
    case Relaunch(hooks) => Calling(Relaunching(s), RestartAfter, hooks)
  }

  predicate Next(s: Sys, step: Step, t: Sys) { Enabled(s, step) && t == Apply(s, step) }

  /** The run is one of the component from its creation, and has led to `s`. */
  ghost predicate Leads(run: Run<Sys, Step>, s: Sys) { Connects(run, Next, INITIAL, s) }

  // ---------- what every step keeps ----------

  ghost predicate InOrder(wire: seq<Handling>) {
    forall k :: 0 <= k < |wire| ==> wire[k] == if k % 2 == 0 then Began(k / 2) else Ended(k / 2)
  }

  /** There is one message loop, live or about to be brought back, unless a restart of it was lost;
      messages are handled one at a time, in the order of the channel. */
  ghost predicate OneReader(s: Sys) {
    && |s.readers| + s.reloads + s.lost == (if s.life.stage == Submitted then 0 else 1)
    && s.taken <= s.sent
    && InOrder(s.wire)
    && (if |s.readers| == 1 && s.readers[0].Busy?
        then |s.wire| == 2 * s.taken - 1 && s.readers[0].pos == s.taken - 1
        else |s.wire| == 2 * s.taken)
  }

  /** Each launch is accounted for: the Start is live, on its way to the next, or over; the first launch and
      those of strays bring one in, a relaunch that launches keeps its own going. */
  ghost predicate StartsAccounted(s: Sys) {
    s.starts + s.retries + s.relaunches + s.bounced + s.ended
      == (if s.life.tally.launches == 0 then 0 else 1) + s.strays
    && (s.life.tally.launches == 0 ==> s.strays == 0)
  }

  ghost predicate Inv(s: Sys) {
    Sound(s.life) && Honest(s.life) && Recorded(s.life) && OneReader(s) && StartsAccounted(s)
  }

  lemma BootLaunches(l: Life, hooks: Hooks)
    ensures Initialize(l, hooks).tally.readers == l.tally.readers
            && Initialize(l, hooks).tally.launches == l.tally.launches
    ensures Wire(l).tally.readers == l.tally.readers + 1 && Wire(l).tally.launches == l.tally.launches
  {
  }

  lemma HaltLaunches(l: Life, hooks: Hooks)
    ensures Halt(l, hooks).tally.readers == l.tally.readers && Halt(l, hooks).tally.launches == l.tally.launches
    ensures GoDown(l).tally.readers == l.tally.readers && GoDown(l).tally.launches == l.tally.launches
  {
  }

  predicate LaunchesReader(s: Stage, control: Control) { s == Submitted || (s == Started && control == RestartMmux) }

  predicate LaunchesStart(s: Stage) { s == Initialized || s == Restarting }

  /** The goroutines that one call launches. */
  lemma CallLaunches(l: Life, control: Control, hooks: Hooks)
    requires AtRest(l.stage)
    ensures Call(l, control, hooks).tally.readers
            == l.tally.readers + if LaunchesReader(l.stage, control) then 1 else 0
    ensures Call(l, control, hooks).tally.launches
            == l.tally.launches + if l.stage == Initialized || l.stage == Restarting then 1 else 0
  {
    match l.stage
    case Submitted =>
      BootLaunches(Announce(l, Preinitializing), hooks);
      BootLaunches(Wire(Announce(l, Preinitializing)), hooks);
    case Stopping => HaltLaunches(l, hooks);
    case Tearingdown => HaltLaunches(l, hooks);
    case _ =>
  }

  /** A call made by a goroutine that has already been discounted, giving state `t`. */
  lemma CallingLaunches(t: Sys, control: Control, hooks: Hooks)
    requires AtRest(t.life.stage)
    ensures
      var u := Calling(t, control, hooks);
      && u.life == Call(t.life, control, hooks) && u.life.stage == NextStage(t.life.stage, control, hooks)
      && u == t.(life := u.life,
                 readers := t.readers + if LaunchesReader(t.life.stage, control) then [Idle] else [],
                 starts := t.starts + if t.life.stage == Initialized || t.life.stage == Restarting then 1 else 0)
      && u.life.tally.launches == t.life.tally.launches + (u.starts - t.starts)
  {
    CallLaunches(t.life, control, hooks);
    NextStageIs(t.life, control, hooks);
  }

  /** Every call keeps the journal. */
  lemma CallRecords(l: Life, control: Control, hooks: Hooks)
    requires Sound(l) && Recorded(l)
    ensures Recorded(Call(l, control, hooks))
  {
    var n, after := l.tally.launches, Call(l, control, hooks);
    var ok: bool :| Essential(l.effects) == Journal(l.stage, n, ok);
    OnItsPath(l);
    CallLaunches(l, control, hooks);
    NextStageIs(l, control, hooks);
    CallAdds(l, control, hooks);
    JournalContinues(l.effects, l.stage, n, ok, control, hooks);
    RecordedAs(after, if l.stage == Submitted then hooks.initOk else ok);
  }

  lemma RecordedAs(l: Life, ok: bool)
    requires Essential(l.effects) == Journal(l.stage, l.tally.launches, ok)
    ensures Recorded(l)
  {
  }

  lemma CallingKeeps(t: Sys, control: Control, hooks: Hooks)
    requires Sound(t.life) && Honest(t.life) && Recorded(t.life)
    ensures
      var u := Calling(t, control, hooks);
      && Sound(u.life) && Honest(u.life) && Recorded(u.life) && u.life.stage != Submitted
      && u == t.(life := u.life,
                 readers := t.readers + if LaunchesReader(t.life.stage, control) then [Idle] else [],
                 starts := t.starts + if t.life.stage == Initialized || t.life.stage == Restarting then 1 else 0)
      && u.life.tally.launches == t.life.tally.launches + (u.starts - t.starts)
  {
    CallKeeps(t.life, control, hooks);
    CallHonest(t.life, control, hooks);
    CallRecords(t.life, control, hooks);
    CallingLaunches(t, control, hooks);
  }

  lemma WireThen(wire: seq<Handling>, h: Handling)
    requires InOrder(wire) && h == if |wire| % 2 == 0 then Began(|wire| / 2) else Ended(|wire| / 2)
    ensures InOrder(wire + [h])
  {
  }

  /** The steps of the channel and of its reader. */
  lemma ReaderStepKeeps(s: Sys, step: Step)
    requires OneReader(s) && s.life.stage != Submitted && Enabled(s, step)
    requires step.Send? || step.Take? || step.Answer? || step.LoopEnds?
    ensures OneReader(Apply(s, step))
  {
    match step
    case Send =>
    case Take(r) => WireThen(s.wire, Began(s.taken));
    case Answer(r) => WireThen(s.wire, Ended(s.readers[r].pos));
    case LoopEnds(r) => if s.readers[r].Busy? { WireThen(s.wire, Ended(s.readers[r].pos)); }
  }

  /** A call that launches no message loop does not disturb it. */
  lemma ReaderUndisturbed(s: Sys, t: Sys)
    requires OneReader(s) && s.life.stage != Submitted && t.life.stage != Submitted
    requires t.readers == s.readers && t.reloads == s.reloads && t.lost == s.lost
    requires t.taken == s.taken && t.sent == s.sent && t.wire == s.wire
    ensures OneReader(t)
  {
  }

  /** A reload brings the loop back, idle, or loses it. */
  lemma ReaderReloaded(s: Sys, t: Sys, back: bool)
    requires OneReader(s) && 0 < s.reloads && t.life.stage != Submitted
    requires t.readers == s.readers + (if back then [Idle] else []) && t.reloads == s.reloads - 1
    requires t.lost == s.lost + (if back then 0 else 1)
    requires t.taken == s.taken && t.sent == s.sent && t.wire == s.wire
    ensures OneReader(t)
  {
  }

  /** A call that counts as a stray at Restarting keeps the account. */
  lemma StartsStayAccounted(s: Sys, u: Sys)
    requires StartsAccounted(s) && Ledger(s.life) && AtRest(s.life.stage)
    requires u.starts == s.starts + if s.life.stage == Initialized || s.life.stage == Restarting then 1 else 0
    requires u.life.tally.launches == s.life.tally.launches + (u.starts - s.starts)
    requires u.retries + u.relaunches + u.ended == s.retries + s.relaunches + s.ended && u.bounced == s.bounced
    requires u.strays == s.strays + if s.life.stage == Restarting then 1 else 0
    ensures StartsAccounted(u)
  {
  }

  lemma ReloadReader(s: Sys, hooks: Hooks)
    requires OneReader(s) && AtRest(s.life.stage) && Enabled(s, Reload(hooks))
    ensures OneReader(Apply(s, Reload(hooks)))
  {
    CallingLaunches(Discounted(s), RestartMmux, hooks);
    ReaderReloaded(s, Apply(s, Reload(hooks)), s.life.stage == Started);
  }

  lemma ReloadStarts(s: Sys, hooks: Hooks)
    requires StartsAccounted(s) && Ledger(s.life) && AtRest(s.life.stage) && Enabled(s, Reload(hooks))
    ensures StartsAccounted(Apply(s, Reload(hooks)))
  {
    CallingLaunches(Discounted(s), RestartMmux, hooks);
    StartsStayAccounted(s, Apply(s, Reload(hooks)));
  }

  lemma ReloadKeeps(s: Sys, hooks: Hooks)
    requires Inv(s) && Enabled(s, Reload(hooks))
    ensures Inv(Apply(s, Reload(hooks)))
  {
    CallKeeps(s.life, RestartMmux, hooks);
    CallHonest(s.life, RestartMmux, hooks);
    CallRecords(s.life, RestartMmux, hooks);
    ReloadReader(s, hooks);
    ReloadStarts(s, hooks);
  }

  lemma RetryStarts(s: Sys, hooks: Hooks)
    requires StartsAccounted(s) && Ledger(s.life) && AtRest(s.life.stage) && Enabled(s, Retry(hooks))
    ensures StartsAccounted(Apply(s, Retry(hooks)))
  {
    CallingLaunches(CountStray(s).(retries := s.retries - 1), RestartAfter, hooks);
    StartsStayAccounted(s, Apply(s, Retry(hooks)));
  }

  lemma RetryReader(s: Sys, hooks: Hooks)
    requires OneReader(s) && AtRest(s.life.stage) && s.life.stage != Submitted && Enabled(s, Retry(hooks))
    ensures OneReader(Apply(s, Retry(hooks)))
  {
    CallingLaunches(CountStray(s).(retries := s.retries - 1), RestartAfter, hooks);
    ReaderUndisturbed(s, Apply(s, Retry(hooks)));
  }

  lemma RetryKeeps(s: Sys, hooks: Hooks)
    requires Inv(s) && Enabled(s, Retry(hooks))
    ensures Inv(Apply(s, Retry(hooks)))
  {
    CallKeeps(s.life, RestartAfter, hooks);
    CallHonest(s.life, RestartAfter, hooks);
    CallRecords(s.life, RestartAfter, hooks);
    RetryReader(s, hooks);
    RetryStarts(s, hooks);
  }

  lemma RelaunchStarts(s: Sys, hooks: Hooks)
    requires StartsAccounted(s) && Ledger(s.life) && AtRest(s.life.stage) && Enabled(s, Relaunch(hooks))
    ensures StartsAccounted(Apply(s, Relaunch(hooks)))
  {
    CallingLaunches(Relaunching(s), RestartAfter, hooks);
  }

  lemma RelaunchReader(s: Sys, hooks: Hooks)
    requires OneReader(s) && AtRest(s.life.stage) && s.life.stage != Submitted && Enabled(s, Relaunch(hooks))
    ensures OneReader(Apply(s, Relaunch(hooks)))
  {
    CallingLaunches(Relaunching(s), RestartAfter, hooks);
    ReaderUndisturbed(s, Apply(s, Relaunch(hooks)));
  }

  lemma RelaunchKeeps(s: Sys, hooks: Hooks)
    requires Inv(s) && Enabled(s, Relaunch(hooks))
    ensures Inv(Apply(s, Relaunch(hooks)))
  {
    CallKeeps(s.life, RestartAfter, hooks);
    CallHonest(s.life, RestartAfter, hooks);
    CallRecords(s.life, RestartAfter, hooks);
    RelaunchReader(s, hooks);
    RelaunchStarts(s, hooks);
  }

  lemma OtherCallKeeps(s: Sys, control: Control, hooks: Hooks)
    requires Inv(s) && control != RestartMmux
    ensures Inv(Apply(s, OtherCall(control, hooks)))
  {
    CallingKeeps(CountStray(s), control, hooks);
  }

  lemma StepKeeps(s: Sys, step: Step)
    requires Inv(s) && Enabled(s, step)
    ensures Inv(Apply(s, step))
  {
    match step
    case OtherCall(control, hooks) => OtherCallKeeps(s, control, hooks);
    case Reload(hooks) => ReloadKeeps(s, hooks);
    case StartReturns(_) =>
    case Retry(hooks) => RetryKeeps(s, hooks);
    case Relaunch(hooks) => RelaunchKeeps(s, hooks);
    case _ => ReaderStepKeeps(s, step);
  }

  lemma InitialInv(s: Sys)
    requires s.readers == [] && s.wire == []
    requires s.reloads == s.lost == s.taken == s.sent == 0
    requires s.starts == s.retries == s.relaunches == s.bounced == s.strays == s.ended == 0
    requires Sound(s.life) && Honest(s.life) && s.life.stage == Submitted && s.life.effects == []
    ensures Inv(s)
  {
    NewbornRecorded(s.life);
  }

  lemma NextKeeps(t: Sys, step: Step, u: Sys)
    requires Inv(t) && Next(t, step, u)
    ensures Inv(u)
  {
    StepKeeps(t, step);
  }

  lemma StepsKeep(inv: Sys -> bool, next: (Sys, Step, Sys) -> bool)
    requires inv == Inv && next == Next
    ensures Inductive(inv, next)
  {
    forall s, step, t | inv(s) && next(s, step, t)
      ensures inv(t)
    {
      NextKeeps(s, step, t);
    }
  }

  lemma HoldsAtFirst(inv: Sys -> bool, next: (Sys, Step, Sys) -> bool, run: Run<Sys, Step>, s: Sys)
    requires inv == Inv && next == Next && Leads(run, s)
    ensures inv(INITIAL) && Connects(run, next, INITIAL, s)
  {
    InitialKept();
  }

  lemma RunHolds(run: Run<Sys, Step>, s: Sys, inv: Sys -> bool, next: (Sys, Step, Sys) -> bool)
    requires inv == Inv && next == Next && Leads(run, s)
    ensures inv(s)
  {
    HoldsAtFirst(inv, next, run, s);
    StepsKeep(inv, next);
    Kept(run, next, INITIAL, s, inv);
  }

  lemma RunKeeps(run: Run<Sys, Step>, s: Sys)
    requires Leads(run, s)
    ensures Inv(s)
  {
    RunHolds(run, s, Inv, Next);
  }

  lemma RunAtRest(run: Run<Sys, Step>, s: Sys)
    requires Leads(run, s)
    ensures AtRest(s.life.stage)
  {
    RunKeeps(run, s);
  }

  lemma InitialKept()
    ensures Inv(INITIAL)
  {
    NewbornSound(INITIAL.life);
    NewbornHonest(INITIAL.life);
    InitialInv(INITIAL);
  }

  // ---------- what holds of every run ----------

  /** The stage sequences that a component may go through. */
  ghost predicate Shaped(path: seq<Stage>) {
    path <= ABORTED_RUN || exists n: nat :: 0 < n && path <= WholeRun(n)
  }

  /** The way there: a component torn down without ever having been launched has aborted. */
  function PathTo(s: Stage, launches: nat): seq<Stage> { Path(s, launches, launches == 0) }

  lemma PathShaped(s: Stage, launches: nat)
    requires Possible(s, launches)
    ensures
      var path := PathTo(s, launches);
      Shaped(path) && 0 < |path| && path[0] == Submitted && path[|path| - 1] == s
  {
    ServingStarts(launches);
    ServingGrows(launches);
    match s
    case Initialized => assert PathTo(s, launches) <= WholeRun(1);
    case Restarting => assert PathTo(s, launches) <= WholeRun(launches + 1);
    case Started | Stopping => assert PathTo(s, launches) <= WholeRun(launches);
    case Teareddown => assert 0 < launches ==> PathTo(s, launches) <= WholeRun(launches);
    case _ =>
  }

  lemma OnItsPath(l: Life)
    requires Sound(l)
    ensures Possible(l.stage, l.tally.launches) && Traces(l.moves, PathTo(l.stage, l.tally.launches))
    ensures l.turns in [[], [UP], [UP, DOWN]]
  {
  }

  /** However the calls interleave, whatever their control values and whatever the hooks return, the
      stage notifications link up from Submitted to the present stage along one of the shapes. */
  lemma RunShape(run: Run<Sys, Step>, s: Sys) returns (path: seq<Stage>)
    requires Leads(run, s)
    ensures AtRest(s.life.stage) && s.life.state == StateAt(s.life.stage)
    ensures Possible(s.life.stage, s.life.tally.launches) && path == PathTo(s.life.stage, s.life.tally.launches)
    ensures Traces(s.life.moves, path) && Shaped(path)
    ensures path[0] == Submitted && path[|path| - 1] == s.life.stage
    ensures s.life.turns in [[], [UP], [UP, DOWN]]
  {
    RunKeeps(run, s);
    OnItsPath(s.life);
    PathShaped(s.life.stage, s.life.tally.launches);
    path := PathTo(s.life.stage, s.life.tally.launches);
  }

  lemma {:induction false} ServingStarts(n: nat)
    ensures PRELUDE <= ServingRun(n) && (0 < n ==> ServingRun(n)[|ServingRun(n)| - 1] == Started)
  {
    if 0 < n {
      ServingStarts(n - 1);
    }
  }

  predicate Closing(s: Stage) {
    s.Stopping? || s.Stopped? || s.Tearingdown? || s.Teareddown? || s.Aborting?
  }

  lemma {:induction false} ServingOpen(n: nat)
    ensures forall i :: 0 <= i < |ServingRun(n)| ==> !Closing(ServingRun(n)[i])
  {
    if 0 < n {
      ServingOpen(n - 1);
    }
  }

  /** Once a component is closing it never serves again, and nothing follows Teareddown. */
  lemma NoReturn(path: seq<Stage>, i: nat, j: nat)
    requires Shaped(path) && i < j < |path|
    ensures Closing(path[i]) ==> Closing(path[j])
    ensures path[i] != Teareddown
  {
    if path <= ABORTED_RUN {
      assert path[i] == ABORTED_RUN[i] && path[j] == ABORTED_RUN[j];
    } else {
      var n: nat :| 0 < n && path <= WholeRun(n);
      ServingOpen(n);
      assert path[i] == WholeRun(n)[i] && path[j] == WholeRun(n)[j];
    }
  }

  /** How often a path enters a stage. */
  function Entries(path: seq<Stage>, s: Stage): nat { multiset(path)[s] }

  lemma RestartsInRound(n: nat)
    ensures Entries([if n == 1 then Initialized else Restarting, Starting, Started], Restarting)
            == if n == 1 then 0 else 1
  {
  }

  lemma {:induction false} RestartsInServing(n: nat)
    ensures Entries(ServingRun(n), Restarting) == if n == 0 then 0 else n - 1
  {
    if 0 < n {
      var round := [if n == 1 then Initialized else Restarting, Starting, Started];
      RestartsInServing(n - 1);
      RestartsInRound(n);
      EntriesAppend(ServingRun(n - 1), round);
      assert ServingRun(n) == ServingRun(n - 1) + round;
    }
  }

  lemma EntriesAppend(a: seq<Stage>, b: seq<Stage>)
    ensures forall s :: Entries(a + b, s) == Entries(a, s) + Entries(b, s)
  {
    assert multiset(a + b) == multiset(a) + multiset(b);
  }

  lemma RestartsInPath(s: Stage, launches: nat)
    requires s == Started || s == Restarting
    ensures Entries(Path(s, launches, false), Restarting) == if s == Started && 0 < launches then launches - 1
                                                            else if s == Restarting && 0 < launches then launches
                                                            else if s == Started then 0 else 1
  {
    RestartsInServing(launches);
    EntriesAppend(ServingRun(launches), [Restarting]);
  }

  lemma LedgerSays(l: Life)
    requires Ledger(l) && AtRest(l.stage)
    ensures
      var t := l.tally;
      && t.early == 0
      && t.inits + t.failedInits <= 1 && t.postInits + t.failedPostInits == t.inits
      && (0 < t.launches ==> t.postInits == 1)
      && (0 < t.launches <==> Served(l))
      && t.teardowns == t.removals == (if l.stage == Teareddown then 1 else 0)
  {
  }

  /** The effects of any run, in full: leaving aside the message loops launched after the first and the Stops
      that failed, they are exactly those of the journal, in its order. */
  lemma WholeJournal(run: Run<Sys, Step>, s: Sys) returns (initOk: bool)
    requires Leads(run, s)
    ensures Essential(s.life.effects) == Journal(s.life.stage, s.life.tally.launches, initOk)
    ensures Replay(s.life.effects).early == 0
  {
    RunKeeps(run, s);
    LedgerSays(s.life);
    initOk :| Essential(s.life.effects) == Journal(s.life.stage, s.life.tally.launches, initOk);
  }

  /** Of each effect other than a hook or the launch of a message loop, how often it has happened: the channel
      is made and the callback added once, on leaving Submitted; every launch has its PreStart; the routes
      are removed once, at Teareddown after any launch and never after none; and the tear-down happens once. */
  lemma TimesOfEach(run: Run<Sys, Step>, s: Sys, e: Effect)
    requires Leads(run, s) && !IsHook(e) && e != ReaderSpawned
    ensures Times(s.life.effects, e) == HowOften(e, s.life.stage, s.life.tally.launches)
  {
    var ok := WholeJournal(run, s);
    RunPossible(run, s);
    EssentialTimes(s.life.effects, e);
    JournalTimes(s.life.stage, s.life.tally.launches, ok, e);
  }

  lemma RunPossible(run: Run<Sys, Step>, s: Sys)
    requires Leads(run, s)
    ensures Possible(s.life.stage, s.life.tally.launches)
  {
    RunKeeps(run, s);
    OnItsPath(s.life);
  }

  /** Init and PostInit run at most once, PostInit only after Init succeeded and Start only after
      both; Start is launched once more than Restarting is entered, and as often at Restarting; the
      tear-down has happened exactly once at Teareddown and never before. */
  lemma OnceOnly(run: Run<Sys, Step>, s: Sys) returns (path: seq<Stage>)
    requires Leads(run, s)
    ensures Traces(s.life.moves, path)
    ensures
      var t := Replay(s.life.effects);
      && t.early == 0
      && t.inits + t.failedInits <= 1 && t.postInits + t.failedPostInits == t.inits
      && (0 < t.launches ==> t.postInits == 1)
      && t.teardowns == t.removals == (if s.life.stage == Teareddown then 1 else 0)
      && (s.life.stage == Started ==> t.launches == Entries(path, Restarting) + 1)
      && (s.life.stage == Restarting ==> t.launches == Entries(path, Restarting))
  {
    RunKeeps(run, s);
    LedgerSays(s.life);
    path := Path(s.life.stage, s.life.tally.launches, Aborted(s.life));
    if s.life.stage == Started || s.life.stage == Restarting {
      RestartsInPath(s.life.stage, s.life.tally.launches);
    }
  }

  /** At most one message loop, counting the restart about to bring it back; none at Submitted; and
      the messages are handled one at a time, in the order they were sent. */
  lemma SingleReader(run: Run<Sys, Step>, s: Sys)
    requires Leads(run, s)
    ensures |s.readers| + s.reloads <= 1 && (s.life.stage == Submitted ==> |s.readers| + s.reloads == 0)
    ensures InOrder(s.wire) && 2 * s.taken - 1 <= |s.wire| <= 2 * s.taken && s.taken <= s.sent
  {
    RunKeeps(run, s);
  }

  /** A component past Submitted is without a message loop for good exactly when a RestartMmux call
      has run at a stage other than Started. */
  lemma ReaderLostExactlyWhen(run: Run<Sys, Step>, s: Sys)
    requires Leads(run, s) && s.life.stage != Submitted
    ensures |s.readers| + s.reloads == 0 <==> 0 < s.lost
    ensures s.lost <= 1
  {
    RunKeeps(run, s);
  }

  /** Live Start calls are exactly as many as strays and the first launch brought in, less those on their
      way to the next launch, bounced or over; so once launched at most one is live exactly when these make
      up for the strays. */
  lemma StartOverlapExactlyWhen(run: Run<Sys, Step>, s: Sys)
    requires Leads(run, s)
    ensures s.starts + s.retries + s.relaunches + s.bounced + s.ended
            == (if s.life.tally.launches == 0 then 0 else 1) + s.strays
    ensures s.life.tally.launches == 0 ==> s.starts == 0
    ensures 0 < s.life.tally.launches ==>
              (s.starts <= 1 <==> s.strays <= s.retries + s.relaunches + s.bounced + s.ended)
  {
    RunKeeps(run, s);
  }

  predicate IsCall(step: Step) { step.OtherCall? || step.Reload? || step.Retry? || step.Relaunch? }

  lemma StepStarts(s: Sys, step: Step)
    requires AtRest(s.life.stage) && Enabled(s, step)
    ensures Apply(s, step).starts
            == s.starts + if IsCall(step) then (if LaunchesStart(s.life.stage) then 1 else 0)
                          else if step.StartReturns? then -1 else 0
  {
    match step
    case OtherCall(control, hooks) => CallingLaunches(CountStray(s), control, hooks);
    case Reload(hooks) => CallingLaunches(Discounted(s), RestartMmux, hooks);
    case Retry(hooks) => CallingLaunches(CountStray(s).(retries := s.retries - 1), RestartAfter, hooks);
    case Relaunch(hooks) => CallingLaunches(Relaunching(s), RestartAfter, hooks);
    case _ =>
  }

  /** What makes a second Start live: a call, with whatever control value, that finds Restarting while one
      is. */
  lemma SecondStartExactlyWhen(run: Run<Sys, Step>, s: Sys, step: Step)
    requires Leads(run, s) && s.starts <= 1 && Enabled(s, step)
    ensures 1 < Apply(s, step).starts <==> IsCall(step) && s.life.stage == Restarting && s.starts == 1
  {
    RunAtRest(run, s);
    NoStartYet(run, s);
    StepStarts(s, step);
  }

  lemma NoStartYet(run: Run<Sys, Step>, s: Sys)
    requires Leads(run, s)
    ensures s.life.stage == Initialized ==> s.starts == 0
  {
    RunKeeps(run, s);
  }

  // ---------- what a Start that returned leads to ----------

  /** A Start that returns leaves a goroutine behind that will retry it exactly when the component is
      restartable and has not begun to close; otherwise it is over. */
  lemma RetriedExactlyWhen(run: Run<Sys, Step>, s: Sys, restartable: bool)
    requires Leads(run, s) && Enabled(s, StartReturns(restartable))
    ensures
      var t := Apply(s, StartReturns(restartable));
      && t.starts == s.starts - 1 && t.retries + t.ended == s.retries + s.ended + 1
      && (t.retries == s.retries + 1 <==> restartable && !Closing(s.life.stage))
      && t.life == s.life && t.relaunches == s.relaunches
  {
    RunAtRest(run, s);
  }

  /** A retry goes on to its second call unless the first returned an error, which is what the Stop of a
      component found at Stopping returned. */
  lemma RelaunchedExactlyWhen(run: Run<Sys, Step>, s: Sys, hooks: Hooks)
    requires Leads(run, s) && Enabled(s, Retry(hooks))
    ensures
      var t := Apply(s, Retry(hooks));
      && t.retries == s.retries - 1 && t.relaunches + t.ended == s.relaunches + s.ended + 1
      && (t.relaunches == s.relaunches <==> s.life.stage == Stopping && hooks.stop != StopOk)
  {
    RunAtRest(run, s);
    NoRetryYet(run, s);
    CallingLaunches(CountStray(s).(retries := s.retries - 1), RestartAfter, hooks);
  }

  /** Before the first launch nothing waits to be started again. */
  lemma NoRetryYet(run: Run<Sys, Step>, s: Sys)
    requires Leads(run, s)
    ensures s.life.tally.launches == 0 ==> s.starts == s.retries == s.relaunches == s.bounced == s.ended == 0
    ensures s.life.stage == Submitted ==> s.life.tally.launches == 0
  {
    RunKeeps(run, s);
  }

  /** Nobody asks for a restart: no Start that returns is restartable, and no call carries RestartAfter. */
  predicate Unasked(step: Step) {
    && (step.StartReturns? ==> !step.restartable)
    && (step.OtherCall? ==> step.control != RestartAfter)
  }

  predicate UnaskedNext(s: Sys, step: Step, t: Sys) { Next(s, step, t) && Unasked(step) }

  ghost predicate StartedOnce(s: Sys) {
    && Inv(s) && s.retries == s.relaunches == s.strays == s.bounced == 0
    && s.life.tally.launches <= 1 && s.life.stage != Restarting
  }

  lemma UnaskedCall(s: Sys, t: Sys, control: Control, hooks: Hooks)
    requires StartedOnce(s) && control != RestartAfter && t.life == s.life
    ensures
      var u := Calling(t, control, hooks);
      && u.life.stage != Restarting && u.life.tally.launches <= 1
      && u.retries == t.retries && u.relaunches == t.relaunches && u.strays == t.strays && u.bounced == t.bounced
  {
    CallingLaunches(t, control, hooks);
  }

  lemma UnaskedKeeps(s: Sys, step: Step, t: Sys)
    requires StartedOnce(s) && UnaskedNext(s, step, t)
    ensures StartedOnce(t)
  {
    StepKeeps(s, step);
    match step
    case OtherCall(control, hooks) => UnaskedCall(s, CountStray(s), control, hooks);
    case Reload(hooks) => UnaskedCall(s, Discounted(s), RestartMmux, hooks);
    case _ =>
  }

  lemma UnaskedStepsKeep(inv: Sys -> bool, next: (Sys, Step, Sys) -> bool)
    requires inv == StartedOnce && next == UnaskedNext
    ensures Inductive(inv, next)
  {
    forall s, step, t | inv(s) && next(s, step, t)
      ensures inv(t)
    {
      UnaskedKeeps(s, step, t);
    }
  }

  lemma UnaskedRun(run: Run<Sys, Step>, s: Sys, next: (Sys, Step, Sys) -> bool)
    requires Leads(run, s) && next == UnaskedNext
    requires forall i :: 0 <= i < |run.steps| ==> Unasked(run.steps[i])
    ensures Connects(run, next, INITIAL, s)
  {
    forall i | 0 <= i < |run.steps|
      ensures next(run.states[i], run.steps[i], run.states[i + 1])
    {
      assert Next(run.states[i], run.steps[i], run.states[i + 1]);
      assert Unasked(run.steps[i]);
    }
  }

  lemma UnaskedAtFirst(inv: Sys -> bool)
    requires inv == StartedOnce
    ensures inv(INITIAL)
  {
    InitialUnasked();
  }

  lemma NothingAsked(s: Sys)
    requires Inv(s) && s.retries == s.relaunches == s.strays == s.bounced == 0
    requires s.life.tally.launches == 0 && s.life.stage == Submitted
    ensures StartedOnce(s)
  {
  }

  lemma InitialUnasked()
    ensures StartedOnce(INITIAL)
  {
    InitialKept();
    NothingAsked(INITIAL);
  }

  lemma UnaskedRunHolds(run: Run<Sys, Step>, s: Sys, inv: Sys -> bool, next: (Sys, Step, Sys) -> bool)
    requires inv == StartedOnce && next == UnaskedNext && Connects(run, next, INITIAL, s)
    ensures inv(s)
  {
    UnaskedAtFirst(inv);
    UnaskedStepsKeep(inv, next);
    Kept(run, next, INITIAL, s, inv);
  }

  /** A component that nobody asks to restart is never restarted, whatever the interleaving and whatever its
      hooks return: no goroutine waits to start it again, Start is launched at most once, and Restarting is
      never entered. */
  lemma NoRestartUnasked(run: Run<Sys, Step>, s: Sys) returns (path: seq<Stage>)
    requires Leads(run, s) && forall i :: 0 <= i < |run.steps| ==> Unasked(run.steps[i])
    ensures s.retries == s.relaunches == 0 && s.starts <= s.life.tally.launches <= 1
    ensures s.life.stage != Restarting
    ensures Traces(s.life.moves, path) && Restarting !in path
  {
    UnaskedRun(run, s, UnaskedNext);
    UnaskedRunHolds(run, s, StartedOnce, UnaskedNext);
    assert StartedOnce(s);
    path := RunShape(run, s);
    NoRestartOnPath(s.life.stage, s.life.tally.launches);
  }

  lemma NoRestartOnPath(stage: Stage, launches: nat)
    requires Possible(stage, launches) && launches <= 1 && stage != Restarting
    ensures Restarting !in PathTo(stage, launches)
  {
    assert ServingRun(1) == PRELUDE + [Initialized, Starting, Started];
  }

  // ---------- runs that do happen ----------

  const WELL := Hooks(true, true, StopOk)

  lemma StepThen(run: Run<Sys, Step>, s: Sys, step: Step) returns (longer: Run<Sys, Step>, t: Sys)
    requires Leads(run, s) && Enabled(s, step)
    ensures t == Apply(s, step) && Leads(longer, t)
  {
    t := Apply(s, step);
    assert Next(s, step, t);
    longer := OneStepMore(run, Next, INITIAL, s, step, t);
  }

  lemma Beginning() returns (run: Run<Sys, Step>, s: Sys)
    ensures Leads(run, s) && s.life.stage == Submitted
    ensures s.readers == [] && s.reloads == s.starts == s.retries == s.relaunches == s.strays == s.bounced == 0
    ensures s.life.tally.launches == s.sent == s.taken == 0 && s.wire == []
  {
    s := INITIAL;
    NoSteps(Next, s);
    run := Run([], [s]);
  }

  /** One more call, by a goroutine that is not one of those counted. */
  lemma CallThen(run: Run<Sys, Step>, s: Sys, control: Control, hooks: Hooks) returns (longer: Run<Sys, Step>, t: Sys)
    requires Leads(run, s) && control != RestartMmux
    ensures Leads(longer, t)
    ensures t.life.stage == NextStage(s.life.stage, control, hooks)
    ensures t.readers == s.readers + if s.life.stage == Submitted then [Idle] else []
    ensures t.starts == s.starts + if s.life.stage == Initialized || s.life.stage == Restarting then 1 else 0
    ensures t.life.tally.launches == s.life.tally.launches + (t.starts - s.starts)
    ensures t.reloads == s.reloads && t.retries == s.retries && t.relaunches == s.relaunches
    ensures t.sent == s.sent && t.taken == s.taken && t.wire == s.wire
    ensures t.bounced == s.bounced && t.strays == s.strays + if s.life.stage == Restarting then 1 else 0
  {
    RunAtRest(run, s);
    CallingLaunches(CountStray(s), control, hooks);
    longer, t := StepThen(run, s, OtherCall(control, hooks));
  }

  /** An Add: two calls without a control value. */
  lemma Activated() returns (run: Run<Sys, Step>, s: Sys)
    ensures Leads(run, s) && s.life.stage == Started && s.life.tally.launches == s.starts == 1
    ensures s.readers == [Idle] && s.retries == s.relaunches == s.strays == s.bounced == 0
    ensures s.sent == s.taken == 0 && s.wire == []
  {
    run, s := Beginning();
    run, s := CallThen(run, s, NoControl, WELL);
    run, s := CallThen(run, s, NoControl, WELL);
  }

  lemma RetryThen(run: Run<Sys, Step>, s: Sys) returns (longer: Run<Sys, Step>, t: Sys)
    requires Leads(run, s) && s.life.stage == Started && 0 < s.retries
    ensures Leads(longer, t) && t.life.stage == Restarting && t.life.tally.launches == s.life.tally.launches
    ensures t == s.(life := t.life, retries := s.retries - 1, relaunches := s.relaunches + 1)
  {
    RunAtRest(run, s);
    CallingLaunches(s.(retries := s.retries - 1), RestartAfter, WELL);
    longer, t := StepThen(run, s, Retry(WELL));
  }

  /** Start returns and its deferred function takes the component to Restarting. */
  lemma StartedAgain(run: Run<Sys, Step>, s: Sys) returns (longer: Run<Sys, Step>, t: Sys)
    requires Leads(run, s) && s.life.stage == Started && 0 < s.starts
    ensures Leads(longer, t) && t.life.stage == Restarting && t.life.tally.launches == s.life.tally.launches
    ensures t == s.(life := t.life, starts := s.starts - 1, relaunches := s.relaunches + 1)
  {
    var r, u := StepThen(run, s, StartReturns(true));
    longer, t := RetryThen(r, u);
  }

  lemma RelaunchThen(run: Run<Sys, Step>, s: Sys) returns (longer: Run<Sys, Step>, t: Sys)
    requires Leads(run, s) && 0 < s.relaunches
    requires s.life.stage == Restarting || s.life.stage == Started
    ensures Leads(longer, t)
    ensures t.life.stage == if s.life.stage == Started then Restarting else Started
    ensures t.life.tally.launches == s.life.tally.launches + (t.starts - s.starts)
    ensures t == s.(life := t.life, relaunches := s.relaunches - 1,
                    starts := s.starts + (if s.life.stage == Restarting then 1 else 0),
                    bounced := s.bounced + (if s.life.stage == Started then 1 else 0))
  {
    RunAtRest(run, s);
    CallingLaunches(Relaunching(s), RestartAfter, WELL);
    longer, t := StepThen(run, s, Relaunch(WELL));
  }

  /** Any number of launches is reached, through restarts. */
  lemma {:induction false} ServingHappens(n: nat) returns (run: Run<Sys, Step>, s: Sys)
    requires 0 < n
    ensures Leads(run, s) && s.life.stage == Started && s.life.tally.launches == n
    ensures s.starts == 1 && s.retries == s.relaunches == 0
  {
    if n == 1 {
      run, s := Activated();
    } else {
      run, s := ServingHappens(n - 1);
      run, s := StartedAgain(run, s);
      run, s := RelaunchThen(run, s);
    }
  }

  /** Any number of messages is sent, taken and answered. */
  lemma {:induction false} HandlingHappens(n: nat) returns (run: Run<Sys, Step>, s: Sys)
    ensures Leads(run, s) && s.life.stage == Started && s.readers == [Idle]
    ensures s.sent == s.taken == n && |s.wire| == 2 * n && InOrder(s.wire)
  {
    if n == 0 {
      run, s := Activated();
    } else {
      run, s := HandlingHappens(n - 1);
      run, s := StepThen(run, s, Send);
      run, s := StepThen(run, s, Take(0));
      run, s := StepThen(run, s, Answer(0));
    }
    SingleReader(run, s);
  }

  /** The number of launches tells the two ends apart. */
  lemma ClosedShape(run: Run<Sys, Step>, s: Sys)
    requires Leads(run, s) && s.life.stage == Teareddown
    ensures Traces(s.life.moves, if s.life.tally.launches == 0 then ABORTED_RUN else WholeRun(s.life.tally.launches))
  {
    RunKeeps(run, s);
    assert Path(Teareddown, s.life.tally.launches, true) == ABORTED_RUN;
    assert Path(Teareddown, s.life.tally.launches, false) == WholeRun(s.life.tally.launches);
  }

  lemma RunPath(run: Run<Sys, Step>, s: Sys)
    requires Leads(run, s)
    ensures Traces(s.life.moves, PathTo(s.life.stage, s.life.tally.launches))
  {
    RunKeeps(run, s);
    OnItsPath(s.life);
  }

  /** Every path that RunShape allows is that of some run, so it says exactly which there are. */
  lemma EveryShapeHappens(stage: Stage, n: nat) returns (run: Run<Sys, Step>, s: Sys)
    requires Possible(stage, n)
    ensures Leads(run, s) && s.life.stage == stage && s.life.tally.launches == n
    ensures Traces(s.life.moves, PathTo(stage, n))
  {
    if 0 < n {
      run, s := ServingHappens(n);
      if stage == Restarting {
        run, s := StartedAgain(run, s);
      } else if stage != Started {
        run, s := CallThen(run, s, Shutdown, WELL);
        if stage == Teareddown {
          run, s := CallThen(run, s, Shutdown, WELL);
        }
      }
    } else {
      run, s := Beginning();
      if stage != Submitted {
        run, s := CallThen(run, s, NoControl, WELL.(initOk := stage == Initialized));
        if stage == Teareddown {
          run, s := CallThen(run, s, NoControl, WELL);
        }
      }
    }
    RunPath(run, s);
  }

  /** A call that finds Restarting ahead of the relaunch starts the component; the relaunch then
      sends it back to Restarting with that Start still live, and the next call doubles it. */
  lemma TwoLiveStarts() returns (run: Run<Sys, Step>, s: Sys)
    ensures Leads(run, s) && s.life.stage == Started && s.starts == 2 && s.strays == 2 && s.bounced == 1
  {
    run, s := Activated();
    run, s := StartedAgain(run, s);
    run, s := CallThen(run, s, NoControl, WELL);
    run, s := RelaunchThen(run, s);
    run, s := CallThen(run, s, NoControl, WELL);
  }

  lemma ReloadThen(run: Run<Sys, Step>, s: Sys) returns (longer: Run<Sys, Step>, t: Sys)
    requires Leads(run, s) && s.life.stage == Initialized && 0 < s.reloads
    ensures Leads(longer, t) && t.life.stage == Started
    ensures t.readers == s.readers && t.reloads == s.reloads - 1
  {
    RunAtRest(run, s);
    CallingLaunches(Discounted(s), RestartMmux, WELL);
    longer, t := StepThen(run, s, Reload(WELL));
  }

  /** A message loop that dies before the component is started is never brought back. */
  lemma StartedWithoutReader() returns (run: Run<Sys, Step>, s: Sys)
    ensures Leads(run, s) && s.life.stage == Started && s.readers == [] && s.reloads == 0
  {
    run, s := Beginning();
    run, s := CallThen(run, s, NoControl, WELL);
    run, s := StepThen(run, s, LoopEnds(0));
    run, s := ReloadThen(run, s);
  }
}
