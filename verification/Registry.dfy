/** The registry of a container: the order in which its components were added and the map by name,
    changed by the Add worker and by the removal of a component that was torn down. */
module Registry {
  import opened Lifecycle
  import opened Stages
  import opened Wrappers

  /** What Add answers. */
  datatype AddResult = Added | ActivationFailed(reason: Result) | AlreadyActivated(name: string)

  // ---------- the order of the components ----------

  /** The list without the last occurrence of a name. */
  function WithoutLast(list: seq<string>, name: string): seq<string> {
    if list == [] then []
    else
      var n := |list| - 1;
      if list[n] == name then list[..n] else WithoutLast(list[..n], name) + [list[n]]
  }

  predicate NoDuplicates(list: seq<string>) { forall i, j :: 0 <= i < j < |list| ==> list[i] != list[j] }

  /** Some way of striking out entries of `whole` leaves `part`. */
  predicate Subsequence(part: seq<string>, whole: seq<string>) {
    part == []
    || (whole != []
        && ((part[|part| - 1] == whole[|whole| - 1] && Subsequence(part[..|part| - 1], whole[..|whole| - 1]))
            || Subsequence(part, whole[..|whole| - 1])))
  }

  lemma SubsequenceBoth(part: seq<string>, whole: seq<string>, name: string)
    requires Subsequence(part, whole)
    ensures Subsequence(part + [name], whole + [name])
  {
    assert (part + [name])[..|part|] == part && (whole + [name])[..|whole|] == whole;
  }

  lemma {:induction false} SubsequenceInit(part: seq<string>, whole: seq<string>)
    requires part != [] && Subsequence(part, whole)
    ensures Subsequence(part[..|part| - 1], whole)
    decreases |whole|
  {
    var n := |whole| - 1;
    if part[|part| - 1] == whole[n] && Subsequence(part[..|part| - 1], whole[..n]) {
    } else {
      SubsequenceInit(part, whole[..n]);
    }
  }

  lemma {:induction false} SubsequenceRemoved(part: seq<string>, whole: seq<string>, name: string)
    requires Subsequence(part, whole)
    ensures Subsequence(WithoutLast(part, name), whole)
    decreases |whole|
  {
    if part != [] {
      var m, n := |part| - 1, |whole| - 1;
      if part[m] == name {
        SubsequenceInit(part, whole);
      } else if part[m] == whole[n] && Subsequence(part[..m], whole[..n]) {
        SubsequenceRemoved(part[..m], whole[..n], name);
        SubsequenceBoth(WithoutLast(part[..m], name), whole[..n], part[m]);
        assert whole == whole[..n] + [whole[n]];
      } else {
        SubsequenceRemoved(part, whole[..n], name);
      }
    }
  }

  lemma {:induction false} RemovedSet(list: seq<string>, name: string)
    requires NoDuplicates(list)
    ensures NoDuplicates(WithoutLast(list, name))
    ensures forall x :: x in WithoutLast(list, name) <==> x in list && x != name
    ensures name !in list ==> WithoutLast(list, name) == list
    decreases |list|
  {
    if list != [] {
      var n := |list| - 1;
      assert list == list[..n] + [list[n]];
      RemovedSet(list[..n], name);
      assert list[n] !in list[..n];
    }
  }

  // ---------- the registry and its operations ----------

  /** An entry of the map: the stored name and the component, here its identity. */
  datatype Entry<T> = Entry(cName: string, comp: T)

  datatype Reg<T> = Reg(components: seq<string>, entries: map<string, Entry<T>>, activations: seq<string>)

  function Remove<T>(r: Reg<T>, name: string): Reg<T> {
    r.(components := WithoutLast(r.components, name), entries := r.entries - {name})
  }

  function Insert<T>(r: Reg<T>, name: string, comp: T): Reg<T> {
    Reg(r.components + [name], r.entries[name := Entry(name, comp)], r.activations + [name])
  }

  /** The call tears the component down, and so removes its name from the container. */
  predicate Unregisters(stage: Stage, hooks: Hooks) {
    stage.Stopped? || stage.Tearingdown? || (stage.Stopping? && hooks.stop.StopOk?)
  }

  /** What one turn of the Add worker answers, for a component found at `stage`. */
  function Answer<T>(r: Reg<T>, name: string, stage: Stage, hooks: Hooks): AddResult {
    if CallResult(stage, hooks) != Done then ActivationFailed(CallResult(stage, hooks))
    else if name in r.entries && !Unregisters(stage, hooks) then AlreadyActivated(name)
    else Added
  }

  function Activate<T>(r: Reg<T>, name: string, comp: T, stage: Stage, hooks: Hooks): Reg<T> {
    var called := if Unregisters(stage, hooks) then Remove(r, name) else r;
    if Answer(r, name, stage, hooks) == Added then Insert(called, name, comp) else called
  }

  /** The stage at which one turn of the Add worker leaves the component. */
  function StageAfterAdd<T>(r: Reg<T>, name: string, stage: Stage, hooks: Hooks): Stage {
    var first := NextStage(stage, NoControl, hooks);
    if Answer(r, name, stage, hooks) == Added then NextStage(first, NoControl, hooks) else first
  }

  /** No name twice; the list and the map hold the same names; each entry under its own name; and the
      list in the order of the activations that are still registered. */
  ghost predicate RegInv<T>(r: Reg<T>) {
    && NoDuplicates(r.components)
    && (forall name :: name in r.components <==> name in r.entries)
    && (forall name :: name in r.entries ==> r.entries[name].cName == name)
    && Subsequence(r.components, r.activations)
  }

  datatype Op<T> = Adding(name: string, comp: T, stage: Stage, hooks: Hooks) | Removing(name: string)

  function ApplyOp<T>(r: Reg<T>, op: Op<T>): Reg<T> {
    match op
    case Adding(name, comp, stage, hooks) => Activate(r, name, comp, stage, hooks)
    case Removing(name) => Remove(r, name)
  }

  function RunOps<T>(r: Reg<T>, ops: seq<Op<T>>): Reg<T> {
    if ops == [] then r else ApplyOp(RunOps(r, ops[..|ops| - 1]), ops[|ops| - 1])
  }

  lemma RemoveKeeps<T>(r: Reg<T>, name: string)
    requires RegInv(r)
    ensures RegInv(Remove(r, name))
  {
    RemovedSet(r.components, name);
    SubsequenceRemoved(r.components, r.activations, name);
  }

  lemma NoDuplicatesThen(list: seq<string>, name: string)
    requires NoDuplicates(list) && name !in list
    ensures NoDuplicates(list + [name])
  {
  }

  lemma InsertKeeps<T>(r: Reg<T>, name: string, comp: T)
    requires RegInv(r) && name !in r.entries
    ensures RegInv(Insert(r, name, comp))
  {
    var t := Insert(r, name, comp);
    assert t.components == r.components + [name];
    assert name !in r.components;
    SubsequenceBoth(r.components, r.activations, name);
    NoDuplicatesThen(r.components, name);
  }

  lemma ActivateKeeps<T>(r: Reg<T>, name: string, comp: T, stage: Stage, hooks: Hooks)
    requires RegInv(r)
    ensures RegInv(Activate(r, name, comp, stage, hooks))
  {
    RemoveKeeps(r, name);
    var called := if Unregisters(stage, hooks) then Remove(r, name) else r;
    if Answer(r, name, stage, hooks) == Added {
      InsertKeeps(called, name, comp);
    }
  }

  /** Across any activations, failed and rejected ones included, and any removals. */
  lemma {:induction false} RegistryInvariant<T>(r: Reg<T>, ops: seq<Op<T>>)
    requires RegInv(r)
    ensures RegInv(RunOps(r, ops))
    decreases |ops|
  {
    if ops != [] {
      var n := |ops| - 1;
      RegistryInvariant(r, ops[..n]);
      match ops[n]
      case Adding(name, comp, stage, hooks) => ActivateKeeps(RunOps(r, ops[..n]), name, comp, stage, hooks);
      case Removing(name) => RemoveKeeps(RunOps(r, ops[..n]), name);
    }
  }

  /** A nil answer does not mean that the component runs: it does exactly when the component had not
      begun to close. A component whose Init failed is at Tearingdown; adding it again is answered nil,
      evicts whatever holds its name, and registers it torn down. */
  lemma AnsweredNilRunsExactlyWhen<T>(r: Reg<T>, name: string, comp: T, stage: Stage, hooks: Hooks)
    requires AtRest(stage) && Answer(r, name, stage, hooks) == Added
    ensures
      var after := Activate(r, name, comp, stage, hooks);
      name in after.entries && after.entries[name] == Entry(name, comp) && after.components != []
      && after.components[|after.components| - 1] == name
    ensures StageAfterAdd(r, name, stage, hooks) == Started <==> Rank(stage) < Rank(Stopping)
    ensures Rank(Stopping) <= Rank(stage) ==> StageAfterAdd(r, name, stage, hooks) == Teareddown
  {
  }

  // ---------- the container ----------

  /** A component; it may hold others. */
  class Container {
    const name: string
    var stage: Stage
    /** The container it was set to belong to. */
    var container: Container?
    /** The container whose worker wired it, and whose state machine its message loop calls. */
    var manager: Container?
    var components: seq<string>
    var cComponents: map<string, Entry<Container>>
    ghost var activations: seq<string>

    constructor (name: string)
      ensures this.name == name && stage == Submitted && container == null && manager == null
      ensures components == [] && cComponents == map[] && activations == []
    {
      this.name := name;
      stage, container, manager := Submitted, null, null;
      components, cComponents, activations := [], map[], [];
    }

    ghost function View(): Reg<Container>
      reads this
    {
      Reg(components, cComponents, activations)
    }

    method RemoveComponent(name: string) returns (found: bool)
      modifies this`components, this`cComponents
      ensures View() == Remove(old(View()), name)
      ensures found <==> name in old(components)
    {
      cComponents := cComponents - {name};
      var indx := |components| - 1;
      assert components[..indx + 1] == components;
      while 0 <= indx && components[indx] != name
        invariant -1 <= indx < |components|
        invariant forall j :: indx < j < |components| ==> components[j] != name
        invariant WithoutLast(components, name) == WithoutLast(components[..indx + 1], name) + components[indx + 1..]
      {
        assert components[..indx + 1][..indx] == components[..indx];
        assert components[indx..] == [components[indx]] + components[indx + 1..];
        indx := indx - 1;
      }
      found := 0 <= indx;
      if found {
        assert components[..indx + 1][..indx] == components[..indx];
        components := components[..indx] + components[indx + 1..];
      }
    }

    /** Holding any component at all needs the map that Init makes. */
    ghost predicate Initialised()
      reads this
    {
      stage == Submitted ==> components == [] && cComponents == map[]
    }

    /** The first call of the worker on a component, seen from the registries: Init makes a new map, the
        message loop remembers this container, and a tear-down removes the name. */
    method CallFsm(comp: Container, hooks: Hooks) returns (r: Result)
      requires AtRest(comp.stage) && comp.Initialised()
      modifies this`components, this`cComponents, comp`stage, comp`manager, comp`cComponents
      ensures comp.stage == NextStage(old(comp.stage), NoControl, hooks) && r == CallResult(old(comp.stage), hooks)
      ensures View() == if Unregisters(old(comp.stage), hooks) then Remove(old(View()), comp.name) else old(View())
      ensures comp.manager == if old(comp.stage) == Submitted then this else old(comp.manager)
      ensures comp != this ==> comp.cComponents == old(comp.cComponents)
    {
      var was := comp.stage;
      if was == Submitted {
        comp.manager := this;
        comp.cComponents := map[];
      }
      comp.stage := NextStage(was, NoControl, hooks);
      r := CallResult(was, hooks);
      if Unregisters(was, hooks) {
        var _ := RemoveComponent(comp.name);
      }
    }

    /** What the worker does once the first call has succeeded and the routes are installed: the component is
        refused, or entered and started. */
    method Enter(nextComp: Container, hooks: Hooks) returns (answer: AddResult)
      modifies this`components, this`cComponents, this`activations, nextComp`container, nextComp`stage
      ensures answer == if nextComp.name in old(cComponents) then AlreadyActivated(nextComp.name) else Added
      ensures View() == if answer == Added then Insert(old(View()), nextComp.name, nextComp) else old(View())
      ensures nextComp.stage
              == if answer == Added then NextStage(old(nextComp.stage), NoControl, hooks) else old(nextComp.stage)
      ensures nextComp.container == if nextComp != this then this else old(nextComp.container)
    {
      if nextComp != this {
        nextComp.container := this;
      }
      if nextComp.name in cComponents {
        return AlreadyActivated(nextComp.name);
      }
      cComponents := cComponents[nextComp.name := Entry(nextComp.name, nextComp)];
      components := components + [nextComp.name];
      activations := activations + [nextComp.name];
      nextComp.stage := NextStage(nextComp.stage, NoControl, hooks);
      answer := Added;
    }

    /** One turn of the Add worker, seen from the registry. */
    method ActivateNext(nextComp: Container, hooks: Hooks) returns (answer: AddResult)
      requires AtRest(nextComp.stage) && nextComp.Initialised()
      requires nextComp == this || stage != Submitted
      modifies this, nextComp
      ensures answer == Answer(old(View()), nextComp.name, old(nextComp.stage), hooks)
      ensures View() == Activate(old(View()), nextComp.name, nextComp, old(nextComp.stage), hooks)
      ensures nextComp.stage == StageAfterAdd(old(View()), nextComp.name, old(nextComp.stage), hooks)
      ensures old(RegInv(View())) ==> RegInv(View())
      ensures nextComp.manager == if old(nextComp.stage) == Submitted then this else old(nextComp.manager)
      ensures nextComp.container
              == if CallResult(old(nextComp.stage), hooks) == Done && nextComp != this then this
                 else old(nextComp.container)
      ensures nextComp != this ==>
                && nextComp.components == old(nextComp.components) && nextComp.cComponents == old(nextComp.cComponents)
                && stage == old(stage) && manager == old(manager)
    {
      ghost var before, at := View(), nextComp.stage;
      var r := CallFsm(nextComp, hooks);
      if r != Done {
        answer := ActivationFailed(r);
      } else {
        answer := Enter(nextComp, hooks);
      }
      assert View() == Activate(before, nextComp.name, nextComp, at, hooks);
      ActivateOnce(before, nextComp.name, nextComp, at, hooks);
    }
  }

  lemma ActivateOnce<T>(r: Reg<T>, name: string, comp: T, stage: Stage, hooks: Hooks)
    ensures RegInv(r) ==> RegInv(Activate(r, name, comp, stage, hooks))
  {
    if RegInv(r) {
      ActivateKeeps(r, name, comp, stage, hooks);
    }
  }
}
