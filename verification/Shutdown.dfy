/** Shutting down a tree of containers: a Shutdown message to the topmost one stops its components,
    which stop theirs, each removing itself from the container above. */
module Shutdown {
  import opened Lifecycle
  import opened Registry
  import opened Stages
  import opened Wrappers

  /** The components that have announced Stopped, in order. */
  class Journal {
    var stopped: seq<Container>

    constructor ()
      ensures stopped == []
    {
      stopped := [];
    }
  }

  /** A container with the components added to it, the latest last. Each node carries the set of all
      the components below it. */
  datatype Tree = Tree(node: Container, kids: Forest, repr: set<Container>)
  datatype Forest = Empty | Snoc(front: Forest, last: Tree, all: set<Container>)

  function Repr(f: Forest): set<Container> { if f.Empty? then {} else f.all }

  /** The sets are right and no component is in the tree twice. */
  ghost predicate WellFormed(t: Tree) {
    t.node in t.repr && Repr(t.kids) == t.repr - {t.node} && WellFormedAll(t.kids)
  }

  ghost predicate WellFormedAll(f: Forest) {
    f.Snoc? ==>
      && WellFormedAll(f.front) && WellFormed(f.last)
      && Repr(f.front) !! f.last.repr && f.all == Repr(f.front) + f.last.repr
  }

  function Names(f: Forest): seq<string> {
    if f.Empty? then [] else Names(f.front) + [f.last.node.name]
  }

  /** Each component is in the map under its name. */
  ghost predicate Entered(entries: map<string, Entry<Container>>, f: Forest) {
    f.Snoc? ==>
      Entered(entries, f.front) && f.last.node.name in entries && entries[f.last.node.name].comp == f.last.node
  }

  function OwnEntry(c: Container, own: bool): seq<string> { if own then [c.name] else [] }

  /** The list and the map hold exactly the given components, after the container's own entry if it has
      one. */
  ghost predicate Lists(list: seq<string>, entries: map<string, Entry<Container>>, c: Container, own: bool, f: Forest) {
    && list == OwnEntry(c, own) + Names(f)
    && NoDuplicates(list)
    && (forall name :: name in list <==> name in entries)
    && (own ==> c.name in entries && entries[c.name].comp == c)
    && Entered(entries, f)
  }

  ghost predicate Registers(c: Container, own: bool, f: Forest)
    reads c
  {
    Lists(c.components, c.cComponents, c, own, f)
  }

  /** The component was wired by the container above it, is started, registers its own components, and
      they are held by it in the same way. */
  ghost predicate HeldBy(t: Tree, above: Container)
    requires WellFormed(t)
    reads t.repr
    decreases t
  {
    t.node.stage == Started && t.node.manager == above && Registers(t.node, false, t.kids) && AllHeldBy(t.kids, t.node)
  }

  ghost predicate AllHeldBy(f: Forest, above: Container)
    requires WellFormedAll(f)
    reads Repr(f)
    decreases f
  {
    f.Snoc? ==> AllHeldBy(f.front, above) && HeldBy(f.last, above)
  }

  /** Every component of the set is torn down and holds nothing. */
  ghost predicate Down(all: set<Container>)
    reads all
  {
    forall c :: c in all ==> c.stage == Teareddown && c.components == [] && c.cComponents == map[]
  }

  /** Post-order, with siblings from the last to the first. */
  function Order(t: Tree): seq<Container> { SiblingOrder(t.kids) + [t.node] }

  function SiblingOrder(f: Forest): seq<Container> {
    if f.Empty? then [] else Order(f.last) + SiblingOrder(f.front)
  }

  /** Pre-order: each container before what it holds, and siblings from the first to the last. */
  function PreOrder(t: Tree): seq<Container> { [t.node] + PreOrderAll(t.kids) }

  function PreOrderAll(f: Forest): seq<Container> {
    if f.Empty? then [] else PreOrderAll(f.front) + PreOrder(f.last)
  }

  /** Shutdown visits the components in exactly the reverse of that order. */
  lemma {:induction false} ReverseOfPreOrder(t: Tree)
    ensures Order(t) == Reversed(PreOrder(t))
    decreases t, 1
  {
    ReverseOfPreOrderAll(t.kids);
    ReversedConcat([t.node], PreOrderAll(t.kids));
    ReversedGrows([], t.node);
    assert [] + [t.node] == [t.node];
  }

  lemma {:induction false} ReverseOfPreOrderAll(f: Forest)
    ensures SiblingOrder(f) == Reversed(PreOrderAll(f))
    decreases f, 0
  {
    if f.Snoc? {
      ReverseOfPreOrderAll(f.front);
      ReverseOfPreOrder(f.last);
      ReversedConcat(PreOrderAll(f.front), PreOrder(f.last));
    }
  }

  ghost predicate Once(all: seq<Container>, s: set<Container>) {
    && (forall c :: c in s ==> c in all)
    && (forall i :: 0 <= i < |all| ==> all[i] in s)
    && (forall i, j :: 0 <= i < j < |all| ==> all[i] != all[j])
  }

  lemma OnceApart(a: seq<Container>, s: set<Container>, b: seq<Container>, t: set<Container>)
    requires Once(a, s) && Once(b, t) && s !! t
    ensures Once(a + b, s + t)
  {
  }

  /** Every component of a well-formed tree is visited, exactly once. */
  lemma {:induction false} OrderVisitsOnce(t: Tree)
    requires WellFormed(t)
    ensures Once(Order(t), t.repr)
    decreases t, 1
  {
    SiblingsVisitedOnce(t.kids);
    OnceApart(SiblingOrder(t.kids), Repr(t.kids), [t.node], {t.node});
    assert Repr(t.kids) + {t.node} == t.repr;
  }

  lemma {:induction false} SiblingsVisitedOnce(f: Forest)
    requires WellFormedAll(f)
    ensures Once(SiblingOrder(f), Repr(f))
    decreases f, 0
  {
    if f.Snoc? {
      SiblingsVisitedOnce(f.front);
      OrderVisitsOnce(f.last);
      OnceApart(Order(f.last), f.last.repr, SiblingOrder(f.front), Repr(f.front));
      assert f.last.repr + Repr(f.front) == Repr(f);
    }
  }

  // ---------- the registry of one container ----------

  lemma {:induction false} EnteredWithout(entries: map<string, Entry<Container>>, f: Forest, name: string)
    requires Entered(entries, f) && name !in Names(f)
    ensures Entered(entries - {name}, f)
    decreases f
  {
    if f.Snoc? {
      EnteredWithout(entries, f.front, name);
    }
  }

  /** The entry the loop looks at: the last component left, or else the container's own. */
  lemma LastEntry(list: seq<string>, entries: map<string, Entry<Container>>, c: Container, own: bool, f: Forest)
    requires Lists(list, entries, c, own, f) && list != []
    ensures list[|list| - 1] in entries
    ensures
      var name := list[|list| - 1];
      if f.Snoc? then name == f.last.node.name && entries[name].comp == f.last.node
      else own && |list| == 1 && entries[name].comp == c
  {
  }

  lemma LastIsNew(list: seq<string>)
    requires list != [] && NoDuplicates(list)
    ensures list[|list| - 1] !in list[..|list| - 1]
    ensures WithoutLast(list, list[|list| - 1]) == list[..|list| - 1]
  {
  }

  /** Removing the name of the last component leaves the registry of the others. */
  lemma LastRemoved(list: seq<string>, entries: map<string, Entry<Container>>, c: Container, own: bool, f: Forest)
    requires f.Snoc? && Lists(list, entries, c, own, f)
    ensures Lists(WithoutLast(list, f.last.node.name), entries - {f.last.node.name}, c, own, f.front)
    ensures |WithoutLast(list, f.last.node.name)| == |list| - 1
  {
    var name, n := f.last.node.name, |list| - 1;
    LastIsNew(list);
    assert list[..n] == OwnEntry(c, own) + Names(f.front);
    RemovedSet(list, name);
    assert forall x :: x in Names(f.front) ==> x in list[..n];
    EnteredWithout(entries, f.front, name);
    assert own ==> list[..n][0] == c.name;
  }

  lemma Associates<T>(a: seq<T>, b: seq<T>, c: seq<T>)
    ensures (a + b) + c == a + (b + c)
  {
  }

  // ---------- the recursion ----------

  /** The components of `left` are still held; the rest of the forest is down. */
  ghost predicate Halfway(c: Container, own: bool, f: Forest, left: Forest, rest: set<Container>)
    reads c, Repr(left), rest
  {
    && WellFormedAll(left) && c !in Repr(left) && c !in rest
    && Repr(left) + rest == Repr(f) && Repr(left) !! rest
    && Registers(c, own, left) && AllHeldBy(left, c) && Down(rest)
  }

  /** One turn of the loop that finds a component. */
  method StopLast(c: Container, journal: Journal, ghost f: Forest, ghost own: bool, ghost left: Forest,
                  ghost rest: set<Container>)
    requires left.Snoc? && Halfway(c, own, f, left, rest)
    modifies left.last.repr, c`components, c`cComponents, journal
    ensures Halfway(c, own, f, left.front, rest + left.last.repr)
    ensures journal.stopped + SiblingOrder(left.front) == old(journal.stopped) + SiblingOrder(left)
    ensures |c.components| == |old(c.components)| - 1
    decreases left, 0
  {
    assert WellFormedAll(left) && AllHeldBy(left, c);
    assert HeldBy(left.last, c);
    LastEntry(c.components, c.cComponents, c, own, left);
    LastRemoved(c.components, c.cComponents, c, own, left);
    var cName := c.components[|c.components| - 1];
    var comp := c.cComponents[cName].comp;
    Associates(journal.stopped, Order(left.last), SiblingOrder(left.front));
    var accepted := SendShutdown(comp, journal, left.last, false);
  }

  lemma Begun(c: Container, own: bool, f: Forest)
    requires WellFormedAll(f) && c !in Repr(f) && Registers(c, own, f) && AllHeldBy(f, c)
    ensures Halfway(c, own, f, f, {})
  {
  }

  /** What the loop sees at its last position. */
  lemma Seen(c: Container, own: bool, f: Forest, left: Forest, rest: set<Container>)
    requires Halfway(c, own, f, left, rest)
    ensures left.Snoc? ==> left.last.repr <= Repr(f) && c !in left.last.repr && c.components != []
    ensures c.components == [] ==> left.Empty? && !own
    ensures c.components != [] ==>
              var name := c.components[|c.components| - 1];
              && name in c.cComponents
              && (c.cComponents[name].comp != c <==> left.Snoc?)
              && (left.Empty? ==> |c.components| == 1)
  {
    assert Lists(c.components, c.cComponents, c, own, left);
    if c.components != [] {
      LastEntry(c.components, c.cComponents, c, own, left);
      if left.Snoc? {
        assert WellFormedAll(left);
        assert WellFormed(left.last);
      }
    }
  }

  lemma Finished(c: Container, own: bool, f: Forest, rest: set<Container>)
    requires Halfway(c, own, f, Empty, rest)
    ensures Registers(c, own, Empty) && Down(Repr(f))
  {
    assert rest == Repr(f);
  }

  /** Container.Stop. Every component is sent one Shutdown, the latest first, and the container itself
      none; the loop ends with at most the container's own entry left. */
  method Stop(c: Container, journal: Journal, ghost f: Forest, ghost own: bool)
    requires WellFormedAll(f) && c !in Repr(f)
    requires Registers(c, own, f) && AllHeldBy(f, c)
    modifies Repr(f), c`components, c`cComponents, journal
    ensures Registers(c, own, Empty) && Down(Repr(f))
    ensures journal.stopped == old(journal.stopped) + SiblingOrder(f)
    decreases f, 1
  {
    ghost var left, rest := f, {};
    Begun(c, own, f);
    var last := |c.components| - 1;
    while 0 <= last
      invariant left == f || left < f
      invariant Halfway(c, own, f, left, rest)
      invariant last == |c.components| - 1
      invariant journal.stopped + SiblingOrder(left) == old(journal.stopped) + SiblingOrder(f)
      decreases |c.components|
    {
      Seen(c, own, f, left, rest);
      var cName := c.components[last];
      var cComp := c.cComponents[cName].comp;
      if cComp != c {
        StopLast(c, journal, f, own, left, rest);
        rest := rest + left.last.repr;
        left := left.front;
      }
      if last == 0 && cComp == c {
        Finished(c, own, f, rest);
        return;
      }
      last := |c.components| - 1;
    }
    Seen(c, own, f, left, rest);
    Finished(c, own, f, rest);
  }

  lemma NothingLeft(list: seq<string>, entries: map<string, Entry<Container>>, c: Container, own: bool)
    requires Lists(list, entries, c, own, Empty)
    ensures own ==> WithoutLast(list, c.name) == [] && entries - {c.name} == map[]
    ensures !own ==> list == [] && entries == map[]
  {
    if own {
      assert list == [c.name];
      assert forall name :: name in entries ==> name == c.name;
      assert entries - {c.name} == map[];
    } else {
      assert forall name :: name !in entries;
      assert entries == map[];
    }
  }

  /** The second call of the state machine: Stop, and then removal from the manager. */
  method TakeDown(comp: Container, hooks: Hooks, journal: Journal, ghost t: Tree, ghost own: bool)
    requires t.node == comp && WellFormed(t) && comp.stage == Stopping && hooks.stop == StopOk && comp.manager != null
    requires Registers(comp, own, t.kids) && AllHeldBy(t.kids, comp)
    requires if own then comp.manager == comp else comp.manager !in t.repr
    modifies t.repr, comp.manager`components, comp.manager`cComponents, journal
    ensures Down(t.repr)
    ensures journal.stopped == old(journal.stopped) + Order(t)
    ensures !own ==> old(comp.manager).components == WithoutLast(old(comp.manager.components), comp.name)
    ensures !own ==> old(comp.manager).cComponents == old(comp.manager.cComponents) - {comp.name}
    decreases t, 2
  {
    Stop(comp, journal, t.kids, own);
    NothingLeft(comp.components, comp.cComponents, comp, own);
    Associates(old(journal.stopped), SiblingOrder(t.kids), [comp]);
    journal.stopped := journal.stopped + [comp];
    comp.stage := NextStage(comp.stage, Control.Shutdown, hooks);
    var manager := comp.manager;
    var _ := manager.RemoveComponent(comp.name);
  }

  /** SendSyncMessage with a Shutdown, as handled by the message loop of a started component: two calls
      of the state machine, the second of which stops it and removes it from its manager. */
  method SendShutdown(comp: Container, journal: Journal, ghost t: Tree, ghost own: bool) returns (accepted: bool)
    requires t.node == comp && WellFormed(t) && comp.stage == Started && comp.manager != null
    requires Registers(comp, own, t.kids) && AllHeldBy(t.kids, comp)
    requires if own then comp.manager == comp else comp.manager !in t.repr
    modifies t.repr, comp.manager`components, comp.manager`cComponents, journal
    ensures accepted && Down(t.repr)
    ensures journal.stopped == old(journal.stopped) + Order(t)
    ensures !own ==> old(comp.manager).components == WithoutLast(old(comp.manager.components), comp.name)
    ensures !own ==> old(comp.manager).cComponents == old(comp.manager.cComponents) - {comp.name}
    decreases t, 3
  {
    if Rank(Stopping) <= Rank(comp.stage) {
      return false;
    }
    var hooks := Hooks(true, true, StopOk);
    comp.stage := NextStage(comp.stage, Control.Shutdown, hooks);
    if comp.stage == Stopping {
      TakeDown(comp, hooks, journal, t, own);
    }
    accepted := true;
  }
}
