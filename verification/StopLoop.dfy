/** The loop that stops the components of a container, latest first: when it ends and what it sends. */
module StopLoop {
  import opened Lifecycle
  import opened Registry
  import opened Stages
  import opened Wrappers

  /** How a call of Stop turns out: it returns or panics, or never comes back. */
  datatype Ending = Finishes(outcome: StopOutcome) | Hangs

  /** A component as the loop finds it: its stage, how its Stop turns out at each call and how many of these
      calls were made, whether its message loop is there, and whether the container being stopped is the one
      that its state machine removes it from. */
  datatype Child = Child(stage: Stage, stops: nat -> Ending, calls: nat, reader: bool, managed: bool)

  /** What the map holds under a name: the container itself, or a component. */
  datatype Member = Own | Held(child: Child)

  /** The list and the map of the container, and to whom Shutdowns were sent that were handled. */
  datatype Loop = Loop(components: seq<string>, entries: map<string, Member>, sent: seq<string>)

  /** SendSyncMessage lets the message through, and there is a message loop to handle it. Before the stages
      seen between calls have passed Submitted there is no channel. */
  predicate Hears(c: Child) {
    c.reader && AtRest(c.stage) && c.stage != Submitted && Rank(c.stage) < Rank(Stopping)
  }

  function Outcome(o: StopOutcome): Hooks { Hooks(true, true, o) }

  /** The next call of Stop, made by a call of the state machine that finds Stopping. */
  function CallStop(c: Child, control: Control): Child
    requires c.stage == Stopping
  {
    match c.stops(c.calls)
    case Hangs => c.(calls := c.calls + 1)
    case Finishes(o) => c.(stage := NextStage(Stopping, control, Outcome(o)), calls := c.calls + 1)
  }

  /** The deferred call of a message loop that has ended, by returning or by a panic. At Started it brings the
      loop back; at Stopping, after a panic, it calls Stop once more. A panic there is recovered by nobody:
      it ends the process, and the loop that waits for the component with it. */
  function Deferred(c: Child): Child {
    if c.stage == Stopping then CallStop(c, RestartMmux).(reader := false)
    else c.(stage := NextStage(c.stage, RestartMmux, Outcome(StopOk)), reader := c.stage == Started)
  }

  /** The component once its message loop has handled a Shutdown. The message loop goes on after a Stop that
      returned an error; it ends after any other, with its deferred call, unless Stop never comes back. */
  function Shut(c: Child): Child {
    var once := c.(stage := NextStage(c.stage, Shutdown, Outcome(StopOk)));
    if once.stage != Stopping then Deferred(once)
    else
      var stopped := CallStop(once, Shutdown);
      match c.stops(c.calls)
      case Hangs => stopped.(reader := false)
      case Finishes(StopError) => stopped
      case Finishes(_) => Deferred(stopped)
  }

  lemma ShutStage(c: Child, first: Hooks, second: Hooks)
    requires Hears(c) && c.stops(c.calls) == Finishes(first.stop) && c.stops(c.calls + 1) == Finishes(second.stop)
    ensures
      var after := ShutdownStage(c.stage, first, first);
      Shut(c).stage
      == if c.stage == Started && first.stop == StopError then after else NextStage(after, RestartMmux, second)
  {
    match c.stage
    case Started => match first.stop { case StopOk => case StopError => case StopPanic => }
    case _ =>
  }

  /** These are the calls of the state machine that a Shutdown and the deferred call make. */
  lemma ShutIs(c: Child, l: Life, first: Hooks, second: Hooks)
    requires Hears(c) && c.stops(c.calls) == Finishes(first.stop) && c.stops(c.calls + 1) == Finishes(second.stop)
    requires l.stage == c.stage
    ensures
      var after := ShutDown(l, first, first);
      Shut(c).stage
      == (if c.stage == Started && first.stop == StopError then after else Call(after, RestartMmux, second)).stage
  {
    var after := ShutDown(l, first, first);
    ShutStage(c, first, second);
    ShutdownStageIs(l, first, first);
    NextStageIs(after, RestartMmux, second);
  }

  /** One turn of the loop. */
  function Turn(s: Loop): Loop
    requires s.components != []
  {
    var cName := s.components[|s.components| - 1];
    if cName in s.entries && s.entries[cName].Held? && Hears(s.entries[cName].child) then
      var child := Shut(s.entries[cName].child);
      if child.stage == Teareddown && child.managed
      then Loop(WithoutLast(s.components, cName), s.entries - {cName}, s.sent + [cName])
      else Loop(s.components, s.entries[cName := Held(child)], s.sent + [cName])
    else s
  }

  /** The last remaining component is the container itself. */
  predicate OwnRemains(s: Loop) {
    |s.components| == 1 && s.components[0] in s.entries && s.entries[s.components[0]].Own?
  }

  /** The loop, for at most `fuel` turns. */
  function Run(s: Loop, fuel: nat): Option<Loop>
    decreases fuel
  {
    if s.components == [] || OwnRemains(s) then Some(s)
    else if fuel == 0 then None
    else Run(Turn(s), fuel - 1)
  }

  ghost predicate Ends(s: Loop) { exists fuel: nat :: Run(s, fuel).Some? }

  // ---------- when it ends ----------

  /** The next Stop succeeds, or panics and the one that the deferred call makes succeeds. */
  predicate StopsWell(c: Child) {
    c.stops(c.calls) == Finishes(StopOk)
    || (c.stops(c.calls) == Finishes(StopPanic) && c.stops(c.calls + 1) == Finishes(StopOk))
  }

  /** The component has a message loop that removes it from this container, has been started or is about to
      be, and is to stop well. */
  predicate Leaves(c: Child) {
    c.managed && c.reader && (c.stage.Initialized? || c.stage.Started? || c.stage.Restarting?) && StopsWell(c)
  }

  predicate Stoppable(s: Loop) {
    && NoDuplicates(s.components)
    && forall i :: 0 <= i < |s.components| ==> StoppableAt(s, i)
  }

  predicate StoppableAt(s: Loop, i: int)
    requires 0 <= i < |s.components|
  {
    s.components[i] in s.entries
    && match s.entries[s.components[i]]
       case Own => i == 0
       case Held(child) => Leaves(child)
  }

  /** How many Shutdowns take the component down: one that finds it at Initialized or Restarting starts it. */
  function Due(c: Child): nat { if c.stage == Started then 1 else 2 }

  /** A component that leaves is one step nearer to it after a Shutdown, and leaves after the last. */
  lemma ShutLeaves(c: Child)
    requires Hears(c)
    ensures Shut(c).stage == Teareddown <==> c.stage == Started && StopsWell(c)
    ensures Leaves(Shut(c)) <==> c.stage != Started && Leaves(c)
    ensures Leaves(Shut(c)) ==> Due(Shut(c)) == 1
  {
  }

  lemma {:induction false} EndsOnlyIf(s: Loop, fuel: nat)
    requires Run(s, fuel).Some?
    ensures Stoppable(s)
    decreases fuel
  {
    if s.components != [] && !OwnRemains(s) {
      var last := |s.components| - 1;
      var cName := s.components[last];
      var t := Turn(s);
      EndsOnlyIf(t, fuel - 1);
      if cName in s.entries && s.entries[cName].Held? && Hears(s.entries[cName].child) {
        ShutLeaves(s.entries[cName].child);
        if t.components == s.components {
          NotRemoved(s, t, cName);
        } else {
          LastGone(s.components);
          BeforeRemoval(s, t, cName);
        }
      }
    }
  }

  lemma LastGone(list: seq<string>)
    requires list != []
    ensures WithoutLast(list, list[|list| - 1]) == list[..|list| - 1]
  {
  }

  lemma NotRemoved(s: Loop, t: Loop, cName: string)
    requires s.components != [] && cName == s.components[|s.components| - 1]
    requires cName in s.entries && s.entries[cName].Held?
    requires t.components == s.components && Stoppable(t)
    requires t.entries.Keys == s.entries.Keys && t.entries[cName].Held?
    requires forall name :: name in s.entries && name != cName ==> t.entries[name] == s.entries[name]
    requires Leaves(t.entries[cName].child) ==> Leaves(s.entries[cName].child)
    ensures Stoppable(s)
  {
    var last := |s.components| - 1;
    assert StoppableAt(t, last);
    forall i | 0 <= i < |s.components|
      ensures StoppableAt(s, i)
    {
      assert StoppableAt(t, i);
    }
  }

  lemma BeforeRemoval(s: Loop, t: Loop, cName: string)
    requires s.components != [] && cName == s.components[|s.components| - 1]
    requires cName in s.entries && s.entries[cName].Held? && Leaves(s.entries[cName].child)
    requires t.components == s.components[..|s.components| - 1] && t.entries == s.entries - {cName} && Stoppable(t)
    ensures Stoppable(s)
  {
    var last := |s.components| - 1;
    forall i | 0 <= i < last
      ensures StoppableAt(s, i) && s.components[i] != cName
    {
      assert StoppableAt(t, i);
    }
    forall i, j | 0 <= i < j < |s.components|
      ensures s.components[i] != s.components[j]
    {
      if j < last {
        assert t.components[i] != t.components[j];
      }
    }
  }

  /** The Shutdowns sent to the components of the list, the latest first. */
  function Told(list: seq<string>, entries: map<string, Member>): seq<string> {
    if list == [] then []
    else
      var cName := list[|list| - 1];
      var rest := Told(list[..|list| - 1], entries);
      if cName in entries && entries[cName].Held?
      then if Due(entries[cName].child) == 1 then [cName] + rest else [cName] + ([cName] + rest)
      else rest
  }

  lemma {:induction false} ToldElsewhere(list: seq<string>, entries: map<string, Member>, more: map<string, Member>)
    requires forall name :: name in list ==> (name in entries <==> name in more)
    requires forall name :: name in list && name in entries ==> more[name] == entries[name]
    ensures Told(list, more) == Told(list, entries)
  {
    if list != [] {
      ToldElsewhere(list[..|list| - 1], entries, more);
    }
  }

  /** What the loop leaves: at most the container's own entry. */
  function LeftBy(s: Loop): seq<string> {
    if s.components != [] && s.components[0] in s.entries && s.entries[s.components[0]].Own?
    then s.components[..1] else []
  }

  /** The loop looks at a component under the name that comes last. */
  ghost predicate LooksAt(s: Loop, cName: string, child: Child) {
    && s.components != [] && s.components[|s.components| - 1] == cName
    && cName in s.entries && s.entries[cName] == Held(child)
  }

  lemma LastLeaves(s: Loop) returns (cName: string, child: Child)
    requires Stoppable(s) && s.components != [] && !OwnRemains(s)
    ensures LooksAt(s, cName, child) && Leaves(child) && cName !in s.components[..|s.components| - 1]
  {
    assert StoppableAt(s, |s.components| - 1);
    cName := s.components[|s.components| - 1];
    child := s.entries[cName].child;
  }

  lemma TurnStarts(s: Loop, cName: string, child: Child)
    requires LooksAt(s, cName, child) && Leaves(child) && Due(child) == 2
    ensures Turn(s) == Loop(s.components, s.entries[cName := Held(Shut(child))], s.sent + [cName])
    ensures Leaves(Shut(child)) && Due(Shut(child)) == 1
  {
    ShutLeaves(child);
  }

  lemma TurnRemoves(s: Loop, cName: string, child: Child)
    requires LooksAt(s, cName, child) && Leaves(child) && Due(child) == 1
    ensures Turn(s) == Loop(s.components[..|s.components| - 1], s.entries - {cName}, s.sent + [cName])
  {
    ShutLeaves(child);
    LastGone(s.components);
  }

  /** The first Shutdown of two. */
  lemma StartsFirst(s: Loop, t: Loop, cName: string, child: Child)
    requires Stoppable(s) && !OwnRemains(s) && LooksAt(s, cName, child) && Leaves(child) && Due(child) == 2
    requires cName !in s.components[..|s.components| - 1] && Leaves(Shut(child))
    requires t == Loop(s.components, s.entries[cName := Held(Shut(child))], s.sent + [cName])
    ensures Stoppable(t) && !OwnRemains(t) && LeftBy(t) == LeftBy(s)
  {
    var front := s.components[..|s.components| - 1];
    forall i | 0 <= i < |s.components|
      ensures StoppableAt(t, i)
    {
      assert StoppableAt(s, i);
      assert i < |front| ==> s.components[i] == front[i];
    }
    assert |front| != 0 ==> s.components[0] == front[0] != cName;
  }

  /** The last Shutdown. */
  lemma LeavesLast(s: Loop, t: Loop, cName: string, child: Child)
    requires Stoppable(s) && LooksAt(s, cName, child) && cName !in s.components[..|s.components| - 1]
    requires t == Loop(s.components[..|s.components| - 1], s.entries - {cName}, s.sent + [cName])
    ensures Stoppable(t) && LeftBy(t) == LeftBy(s)
  {
    forall i | 0 <= i < |t.components|
      ensures StoppableAt(t, i)
    {
      assert StoppableAt(s, i);
      assert s.components[i] == t.components[i] != cName;
    }
  }

  lemma ToldTwice(s: Loop, t: Loop, cName: string, child: Child)
    requires LooksAt(s, cName, child) && Due(child) == 2 && Due(Shut(child)) == 1
    requires cName !in s.components[..|s.components| - 1]
    requires t == Loop(s.components, s.entries[cName := Held(Shut(child))], s.sent + [cName])
    ensures t.sent + Told(t.components, t.entries) == s.sent + Told(s.components, s.entries)
  {
    var rest := Told(s.components[..|s.components| - 1], s.entries);
    ToldElsewhere(s.components[..|s.components| - 1], s.entries, t.entries);
    assert Told(t.components, t.entries) == [cName] + rest;
    assert Told(s.components, s.entries) == [cName] + ([cName] + rest);
  }

  lemma ToldOnce(s: Loop, t: Loop, cName: string, child: Child)
    requires LooksAt(s, cName, child) && Due(child) == 1 && cName !in s.components[..|s.components| - 1]
    requires t == Loop(s.components[..|s.components| - 1], s.entries - {cName}, s.sent + [cName])
    ensures t.sent + Told(t.components, t.entries) == s.sent + Told(s.components, s.entries)
  {
    ToldElsewhere(t.components, s.entries, t.entries);
    assert Told(s.components, s.entries) == [cName] + Told(t.components, s.entries);
  }

  /** Turns enough to tell every component twice, but for a last one to be told once. */
  predicate Enough(s: Loop, fuel: nat) {
    s.components == [] || 2 * |s.components| <= fuel
    || (2 * |s.components| == fuel + 1
        && var cName := s.components[|s.components| - 1];
           cName in s.entries && (s.entries[cName].Own? || Due(s.entries[cName].child) == 1))
  }

  lemma {:induction false} EndsIf(s: Loop, fuel: nat) returns (t: Loop)
    requires Stoppable(s) && Enough(s, fuel)
    ensures Run(s, fuel) == Some(t)
    ensures t.components == LeftBy(s) && t.sent == s.sent + Told(s.components, s.entries)
    decreases fuel
  {
    if s.components == [] {
      t := s;
    } else if OwnRemains(s) {
      assert Told(s.components[..0], s.entries) == [];
      t := s;
    } else {
      var cName, child := LastLeaves(s);
      var u := Turn(s);
      if Due(child) == 2 {
        TurnStarts(s, cName, child);
        StartsFirst(s, u, cName, child);
        ToldTwice(s, u, cName, child);
        assert LooksAt(u, cName, Shut(child));
      } else {
        TurnRemoves(s, cName, child);
        LeavesLast(s, u, cName, child);
        ToldOnce(s, u, cName, child);
      }
      t := EndsIf(u, fuel - 1);
    }
  }

  /** A list that can be stopped is stopped: each component is sent one Shutdown, or two if it was found
      at Initialized or Restarting, the latest first; the container itself is sent none, and its own entry
      is all that may be left. */
  lemma StopsBackwards(s: Loop) returns (t: Loop)
    requires Stoppable(s)
    ensures Run(s, 2 * |s.components|) == Some(t)
    ensures t.components == LeftBy(s) && t.sent == s.sent + Told(s.components, s.entries)
  {
    t := EndsIf(s, 2 * |s.components|);
  }

  /** The loop ends exactly when no name is listed twice and every entry is the container's own, in the
      first place, or a component that a message loop of this container takes down: one that has not begun
      to close and whose Stop succeeds, at once or, after a panic, when called again. Otherwise it runs, or
      blocks, for ever. */
  lemma StopEndsExactlyWhen(s: Loop)
    ensures Ends(s) <==> Stoppable(s)
  {
    if Stoppable(s) {
      var t := StopsBackwards(s);
    }
    forall fuel: nat | Run(s, fuel).Some?
      ensures Stoppable(s)
    {
      EndsOnlyIf(s, fuel);
    }
  }

  // ---------- a whole tree ----------

  /** A component with those added to it, and its own entry among them if it was added to itself. The endings
      of its Stop are those of its own code, after the loop over what it holds. */
  datatype Part = Part(name: string, child: Child, own: seq<string>, kids: seq<Part>)

  function Names(kids: seq<Part>): (names: seq<string>)
    ensures |names| == |kids|
    ensures forall i :: 0 <= i < |kids| ==> names[i] == kids[i].name
  {
    if kids == [] then [] else Names(kids[..|kids| - 1]) + [kids[|kids| - 1].name]
  }

  /** A component as the loop above it sees it: a Stop whose own loop does not end never comes back. */
  ghost function Seen(p: Part): Child
    decreases p
  {
    if Ends(LoopOver(p.own, p.kids)) then p.child else p.child.(stops := (n: nat) => Hangs)
  }

  ghost function Members(kids: seq<Part>): map<string, Member>
    decreases kids, 0
  {
    if kids == [] then map[]
    else
      var last := kids[|kids| - 1];
      Members(kids[..|kids| - 1])[last.name := Held(Seen(last))]
  }

  /** The loop of a container that holds the given components, after its own entries if it has any. */
  ghost function LoopOver(own: seq<string>, kids: seq<Part>): Loop
    decreases kids, 1
  {
    Loop(own + Names(kids), (map name | name in own :: Own) + Members(kids), [])
  }

  /** A container and all those below it have no name twice and at most one entry of their own, and every
      component below can leave. */
  predicate AllWell(own: seq<string>, kids: seq<Part>)
    decreases kids
  {
    && |own| <= 1 && NoDuplicates(own + Names(kids))
    && forall i :: 0 <= i < |kids| ==> Leaves(kids[i].child) && AllWell(kids[i].own, kids[i].kids)
  }

  lemma {:induction false} MembersNamed(kids: seq<Part>)
    ensures forall name :: name in Members(kids) ==> name in Names(kids)
    decreases kids
  {
    if kids != [] {
      MembersNamed(kids[..|kids| - 1]);
    }
  }

  lemma {:induction false} MemberAt(kids: seq<Part>, i: nat)
    requires i < |kids| && NoDuplicates(Names(kids))
    ensures kids[i].name in Members(kids) && Members(kids)[kids[i].name] == Held(Seen(kids[i]))
    decreases kids
  {
    var n := |kids| - 1;
    if i < n {
      assert Names(kids) == Names(kids[..n]) + [kids[n].name];
      assert Names(kids)[i] != Names(kids)[n];
      assert forall j :: 0 <= j < n ==> Names(kids)[j] == Names(kids[..n])[j];
      MemberAt(kids[..n], i);
      assert kids[..n][i] == kids[i];
    }
  }

  lemma PartsApart(own: seq<string>, names: seq<string>)
    requires NoDuplicates(own + names)
    ensures NoDuplicates(names) && forall name :: name in own ==> name !in names
  {
    assert forall i :: 0 <= i < |own| ==> (own + names)[i] == own[i];
    assert forall i :: 0 <= i < |names| ==> (own + names)[|own| + i] == names[i];
  }

  lemma KidAt(own: seq<string>, kids: seq<Part>, i: nat)
    requires NoDuplicates(own + Names(kids)) && i < |kids|
    ensures
      var s := LoopOver(own, kids);
      |own| + i < |s.components| && (StoppableAt(s, |own| + i) <==> Leaves(Seen(kids[i])))
  {
    PartsApart(own, Names(kids));
    MemberAt(kids, i);
    assert LoopOver(own, kids).components[|own| + i] == Names(kids)[i] == kids[i].name;
  }

  lemma OwnAt(own: seq<string>, kids: seq<Part>, i: nat)
    requires NoDuplicates(own + Names(kids)) && i < |own|
    ensures StoppableAt(LoopOver(own, kids), i) <==> i == 0
  {
    PartsApart(own, Names(kids));
    MembersNamed(kids);
    assert own[i] in own && own[i] !in Members(kids);
    assert LoopOver(own, kids).components[i] == own[i];
  }

  lemma LoopOverStoppable(own: seq<string>, kids: seq<Part>)
    ensures Stoppable(LoopOver(own, kids))
            <==> && |own| <= 1 && NoDuplicates(own + Names(kids))
                 && forall i :: 0 <= i < |kids| ==> Leaves(Seen(kids[i]))
  {
    var s := LoopOver(own, kids);
    if NoDuplicates(own + Names(kids)) {
      forall i | 0 <= i < |s.components|
        ensures StoppableAt(s, i) <==> if i < |own| then i == 0 else Leaves(Seen(kids[i - |own|]))
      {
        if i < |own| {
          OwnAt(own, kids, i);
        } else {
          KidAt(own, kids, i - |own|);
        }
      }
      PlacesMeet(s, own, kids);
    }
  }

  lemma PlacesMeet(s: Loop, own: seq<string>, kids: seq<Part>)
    requires |s.components| == |own| + |kids| && NoDuplicates(s.components)
    requires forall i :: 0 <= i < |s.components| ==>
               (StoppableAt(s, i) <==> if i < |own| then i == 0 else Leaves(Seen(kids[i - |own|])))
    ensures Stoppable(s) <==> |own| <= 1 && forall i :: 0 <= i < |kids| ==> Leaves(Seen(kids[i]))
  {
    if Stoppable(s) {
      assert 1 < |s.components| ==> StoppableAt(s, 1);
      forall i | 0 <= i < |kids|
        ensures Leaves(Seen(kids[i]))
      {
        assert StoppableAt(s, |own| + i);
      }
    } else if forall i :: 0 <= i < |kids| ==> Leaves(Seen(kids[i])) {
      var i :| 0 <= i < |s.components| && !StoppableAt(s, i);
      assert i < |own|;
    }
  }

  /** Shutting down the components of a container, at any depth, ends exactly when every one of them can
      leave: one failing Stop anywhere below keeps every container above it from ending. */
  lemma {:induction false} TreeStopsExactlyWhen(own: seq<string>, kids: seq<Part>)
    ensures Ends(LoopOver(own, kids)) <==> AllWell(own, kids)
    decreases kids
  {
    StopEndsExactlyWhen(LoopOver(own, kids));
    LoopOverStoppable(own, kids);
    forall i | 0 <= i < |kids|
      ensures Leaves(Seen(kids[i])) <==> Leaves(kids[i].child) && AllWell(kids[i].own, kids[i].kids)
    {
      TreeStopsExactlyWhen(kids[i].own, kids[i].kids);
    }
  }
}
