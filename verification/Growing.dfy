/** The trees that Shutdown takes down are those that Add builds, whatever is added where and however it turns
    out. */
module Growing {
  import opened Lifecycle
  import opened Registry
  import opened Shutdown
  import opened Stages

  /** A running container and the components held below it, at any depth. */
  ghost predicate Standing(root: Container, own: bool, f: Forest)
    reads root, Repr(f)
  {
    root.stage == Started && (own ==> root.manager == root)
    && WellFormedAll(f) && root !in Repr(f) && Registers(root, own, f) && AllHeldBy(f, root)
  }

  // ---------- the tree without one of its containers ----------

  /** HeldBy, but for the container `c`: of it, only what it holds is looked at. */
  ghost predicate HeldAround(t: Tree, above: Container, c: Container)
    requires WellFormed(t)
    reads t.repr - {c}
    decreases t
  {
    if t.node == c then AllHeldAround(t.kids, c, c)
    else
      && t.node.stage == Started && t.node.manager == above && Registers(t.node, false, t.kids)
      && AllHeldAround(t.kids, t.node, c)
  }

  ghost predicate AllHeldAround(f: Forest, above: Container, c: Container)
    requires WellFormedAll(f)
    reads Repr(f) - {c}
    decreases f
  {
    f.Snoc? ==> AllHeldAround(f.front, above, c) && HeldAround(f.last, above, c)
  }

  /** What the container `c` of the tree holds. */
  function KidsOf(t: Tree, c: Container): Forest
    decreases t
  {
    if t.node == c then t.kids else KidsIn(t.kids, c)
  }

  function KidsIn(f: Forest, c: Container): Forest
    decreases f
  {
    if f.Empty? then Empty else if c in f.last.repr then KidsOf(f.last, c) else KidsIn(f.front, c)
  }

  /** The container above `c` in the tree. */
  function AboveOf(t: Tree, above: Container, c: Container): Container
    decreases t
  {
    if t.node == c then above else AboveIn(t.kids, t.node, c)
  }

  function AboveIn(f: Forest, above: Container, c: Container): Container
    decreases f
  {
    if f.Empty? then above else if c in f.last.repr then AboveOf(f.last, above, c) else AboveIn(f.front, above, c)
  }

  /** What is known of `c` itself. */
  ghost predicate InPlace(c: Container, above: Container, kids: Forest)
    reads c
  {
    c.stage == Started && c.manager == above && Registers(c, false, kids)
  }

  lemma {:induction false} Opens(t: Tree, above: Container, c: Container)
    requires WellFormed(t) && HeldBy(t, above)
    ensures HeldAround(t, above, c)
    ensures c in t.repr ==> InPlace(c, AboveOf(t, above, c), KidsOf(t, c))
    decreases t
  {
    OpensAll(t.kids, t.node, c);
  }

  lemma {:induction false} OpensAll(f: Forest, above: Container, c: Container)
    requires WellFormedAll(f) && AllHeldBy(f, above)
    ensures AllHeldAround(f, above, c)
    ensures c in Repr(f) ==> InPlace(c, AboveIn(f, above, c), KidsIn(f, c))
    decreases f
  {
    if f.Snoc? {
      OpensAll(f.front, above, c);
      Opens(f.last, above, c);
    }
  }

  /** Putting `c` back as it was. */
  lemma {:induction false} Closes(t: Tree, above: Container, c: Container)
    requires WellFormed(t) && HeldAround(t, above, c)
    requires c in t.repr ==> InPlace(c, AboveOf(t, above, c), KidsOf(t, c))
    ensures HeldBy(t, above)
    decreases t
  {
    ClosesAll(t.kids, t.node, c);
  }

  lemma {:induction false} ClosesAll(f: Forest, above: Container, c: Container)
    requires WellFormedAll(f) && AllHeldAround(f, above, c)
    requires c in Repr(f) ==> InPlace(c, AboveIn(f, above, c), KidsIn(f, c))
    ensures AllHeldBy(f, above)
    decreases f
  {
    if f.Snoc? {
      ClosesAll(f.front, above, c);
      Closes(f.last, above, c);
    }
  }

  // ---------- the tree with one component more ----------

  function Added1(f: Forest, leaf: Tree): Forest { Snoc(f, leaf, Repr(f) + leaf.repr) }

  function Grown(t: Tree, c: Container, leaf: Tree): Tree
    decreases t
  {
    Tree(t.node, if t.node == c then Added1(t.kids, leaf) else GrownIn(t.kids, c, leaf), t.repr + leaf.repr)
  }

  function GrownIn(f: Forest, c: Container, leaf: Tree): Forest
    decreases f
  {
    if f.Empty? then Empty
    else if c in f.last.repr then Snoc(f.front, Grown(f.last, c, leaf), f.all + leaf.repr)
    else Snoc(GrownIn(f.front, c, leaf), f.last, f.all + leaf.repr)
  }

  lemma {:induction false} GrownWellFormed(t: Tree, c: Container, leaf: Tree)
    requires WellFormed(t) && WellFormed(leaf) && c in t.repr && t.repr !! leaf.repr
    ensures WellFormed(Grown(t, c, leaf))
    decreases t
  {
    if t.node != c {
      GrownInWellFormed(t.kids, c, leaf);
    }
  }

  lemma {:induction false} GrownInWellFormed(f: Forest, c: Container, leaf: Tree)
    requires WellFormedAll(f) && WellFormed(leaf) && c in Repr(f) && Repr(f) !! leaf.repr
    ensures WellFormedAll(GrownIn(f, c, leaf)) && Repr(GrownIn(f, c, leaf)) == Repr(f) + leaf.repr
    decreases f
  {
    if c in f.last.repr {
      GrownWellFormed(f.last, c, leaf);
    } else {
      GrownInWellFormed(f.front, c, leaf);
    }
  }

  /** The registry of a container does not change when something is added further down. */
  lemma {:induction false} SameEntries(
      list: seq<string>, entries: map<string, Entry<Container>>, b: Container, own: bool,
      f: Forest, c: Container, leaf: Tree)
    requires Lists(list, entries, b, own, f)
    ensures Lists(list, entries, b, own, GrownIn(f, c, leaf))
  {
    SameNames(f, c, leaf);
    StillEntered(entries, f, c, leaf);
  }

  lemma {:induction false} SameNames(f: Forest, c: Container, leaf: Tree)
    ensures Names(GrownIn(f, c, leaf)) == Names(f)
    decreases f
  {
    if f.Snoc? {
      SameNames(f.front, c, leaf);
    }
  }

  lemma {:induction false} StillEntered(entries: map<string, Entry<Container>>, f: Forest, c: Container, leaf: Tree)
    requires Entered(entries, f)
    ensures Entered(entries, GrownIn(f, c, leaf))
    decreases f
  {
    if f.Snoc? {
      StillEntered(entries, f.front, c, leaf);
    }
  }

  /** Putting `c` back with one component more. */
  lemma {:induction false} ClosesGrown(t: Tree, above: Container, c: Container, leaf: Tree)
    requires WellFormed(t) && c in t.repr && HeldAround(t, above, c) && WellFormed(Grown(t, c, leaf))
    requires WellFormed(leaf) && HeldBy(leaf, c) && t.repr !! leaf.repr
    requires InPlace(c, AboveOf(t, above, c), Added1(KidsOf(t, c), leaf))
    ensures HeldBy(Grown(t, c, leaf), above)
    decreases t
  {
    if t.node == c {
      ClosesAll(t.kids, c, c);
    } else {
      ClosesGrownIn(t.kids, t.node, c, leaf);
      SameEntries(t.node.components, t.node.cComponents, t.node, false, t.kids, c, leaf);
    }
  }

  lemma {:induction false} ClosesGrownIn(f: Forest, above: Container, c: Container, leaf: Tree)
    requires WellFormedAll(f) && c in Repr(f) && AllHeldAround(f, above, c) && WellFormedAll(GrownIn(f, c, leaf))
    requires WellFormed(leaf) && HeldBy(leaf, c) && Repr(f) !! leaf.repr
    requires InPlace(c, AboveIn(f, above, c), Added1(KidsIn(f, c), leaf))
    ensures AllHeldBy(GrownIn(f, c, leaf), above)
    decreases f
  {
    if c in f.last.repr {
      ClosesAll(f.front, above, c);
      ClosesGrown(f.last, above, c, leaf);
    } else {
      ClosesGrownIn(f.front, above, c, leaf);
      Closes(f.last, above, c);
    }
  }

  // ---------- one Add ----------

  lemma {:induction false} EnteredWith(entries: map<string, Entry<Container>>, f: Forest, c: Container)
    requires Entered(entries, f) && c.name !in entries
    ensures Entered(entries[c.name := Entry(c.name, c)], f)
    decreases f
  {
    if f.Snoc? {
      EnteredWith(entries, f.front, c);
    }
  }

  lemma {:induction false} ListGrows(list: seq<string>, entries: map<string, Entry<Container>>,
                                     c: Container, own: bool, f: Forest, t: Tree)
    requires Lists(list, entries, c, own, f) && t.node.name !in entries
    ensures Lists(list + [t.node.name], entries[t.node.name := Entry(t.node.name, t.node)], c, own,
                  Snoc(f, t, Repr(f) + t.repr))
  {
    Associates(OwnEntry(c, own), Names(f), [t.node.name]);
    EnteredWith(entries, f, t.node);
  }

  lemma {:induction false} LeafHeld(t: Tree, c: Container)
    requires t.kids == Empty && t.repr == {t.node} && t.node.stage == Started && t.node.manager == c
    requires t.node.components == [] && t.node.cComponents == map[]
    ensures WellFormed(t) && HeldBy(t, c)
  {
  }

  /** A component that has not been added to anything. */
  ghost predicate New(comp: Container)
    reads comp
  {
    comp.stage == Submitted && comp.Initialised()
  }

  /** What the worker makes of a new component: it is entered and started when its hooks succeed and its name
      is free, and the registry stays as it is otherwise. */
  lemma {:induction false} NewActivated(r: Reg<Container>, name: string, comp: Container, hooks: Hooks)
    ensures Answer(r, name, Submitted, hooks) == Added <==> hooks.initOk && hooks.postInitOk && name !in r.entries
    ensures Activate(r, name, comp, Submitted, hooks)
            == if Answer(r, name, Submitted, hooks) == Added then Insert(r, name, comp) else r
    ensures Answer(r, name, Submitted, hooks) == Added ==> StageAfterAdd(r, name, Submitted, hooks) == Started
    ensures StageAfterAdd(r, name, Submitted, hooks) != Submitted
  {
  }

  /** A container added to itself. */
  method Bootstrap(c: Container, hooks: Hooks)
    requires New(c) && hooks.initOk && hooks.postInitOk
    modifies c
    ensures Standing(c, true, Empty)
  {
    ghost var r := c.View();
    NewActivated(r, c.name, c, hooks);
    var answer := c.ActivateNext(c, hooks);
    assert c.components == [c.name] && c.cComponents == map[c.name := Entry(c.name, c)];
    assert Lists(c.components, c.cComponents, c, true, Empty);
  }

  function LeafOf(comp: Container): Tree { Tree(comp, Empty, {comp}) }

  /** What Add answers for a new component when the container holds components of the given names. */
  function Answered(names: seq<string>, name: string, hooks: Hooks): AddResult {
    if CallResult(Submitted, hooks) != Done then ActivationFailed(CallResult(Submitted, hooks))
    else if name in names then AlreadyActivated(name)
    else Added
  }

  /** The registry of one container, before and after. */
  method AddOne(c: Container, ghost own: bool, comp: Container, hooks: Hooks, ghost kids: Forest)
    returns (answer: AddResult)
    requires c.stage != Submitted && Registers(c, own, kids) && New(comp) && comp != c
    modifies c, comp
    ensures Registers(c, own, if answer == Added then Added1(kids, LeafOf(comp)) else kids)
    ensures answer == Added ==> HeldBy(LeafOf(comp), c)
    ensures answer == Answered(OwnEntry(c, own) + Names(kids), comp.name, hooks)
    ensures c.stage == old(c.stage) && c.manager == old(c.manager) && comp.stage != Submitted
  {
    ghost var leaf := LeafOf(comp);
    NewActivated(c.View(), comp.name, comp, hooks);
    if comp.name !in c.cComponents {
      ListGrows(c.components, c.cComponents, c, own, kids, leaf);
    }
    answer := c.ActivateNext(comp, hooks);
    if answer == Added {
      LeafHeld(leaf, c);
    }
  }

  /** The names that the container `c` of the tree holds, its own among them if it was added to itself. */
  function NamesAt(root: Container, own: bool, f: Forest, c: Container): seq<string> {
    if c == root then OwnEntry(root, own) + Names(f) else Names(KidsIn(f, c))
  }

  /** The tree with a new component below `c`. */
  function Growth(root: Container, f: Forest, c: Container, comp: Container): Forest {
    if c == root then Added1(f, LeafOf(comp)) else GrownIn(f, c, LeafOf(comp))
  }

  /** Adding to a container somewhere below the topmost one. */
  method AddBelow(root: Container, ghost own: bool, c: Container, comp: Container, hooks: Hooks, ghost f: Forest)
    returns (answer: AddResult)
    requires Standing(root, own, f) && c in Repr(f) && New(comp) && comp != root && comp !in Repr(f)
    modifies c, comp
    ensures Standing(root, own, if answer == Added then Growth(root, f, c, comp) else f)
    ensures answer == Answered(NamesAt(root, own, f, c), comp.name, hooks) && comp.stage != Submitted
  {
    ghost var kids, leaf := KidsIn(f, c), LeafOf(comp);
    OpensAll(f, root, c);
    answer := AddOne(c, false, comp, hooks, kids);
    assert OwnEntry(c, false) + Names(kids) == Names(kids);
    assert AllHeldAround(f, root, c);
    if answer == Added {
      GrownInWellFormed(f, c, leaf);
      ClosesGrownIn(f, root, c, leaf);
      SameEntries(root.components, root.cComponents, root, own, f, c, leaf);
    } else {
      ClosesAll(f, root, c);
    }
  }

  /** Adding to the topmost container. */
  method AddHere(root: Container, ghost own: bool, comp: Container, hooks: Hooks, ghost f: Forest)
    returns (answer: AddResult)
    requires Standing(root, own, f) && New(comp) && comp != root && comp !in Repr(f)
    modifies root, comp
    ensures Standing(root, own, if answer == Added then Growth(root, f, root, comp) else f)
    ensures answer == Answered(NamesAt(root, own, f, root), comp.name, hooks) && comp.stage != Submitted
  {
    answer := AddOne(root, own, comp, hooks, f);
    assert AllHeldBy(f, root);
    if answer == Added {
      ghost var g := Growth(root, f, root, comp);
      assert WellFormed(LeafOf(comp));
      assert WellFormedAll(g) && AllHeldBy(g, root);
    }
  }

  /** Adding a new component to any of the containers there are: it becomes the last component of that
      container exactly when its hooks succeed and the container holds no component of its name. */
  method Add(root: Container, ghost own: bool, c: Container, comp: Container, hooks: Hooks, ghost f: Forest)
    returns (answer: AddResult)
    requires Standing(root, own, f) && (c == root || c in Repr(f)) && New(comp) && comp != root && comp !in Repr(f)
    modifies c, comp
    ensures Standing(root, own, if answer == Added then Growth(root, f, c, comp) else f)
    ensures answer == Answered(NamesAt(root, own, f, c), comp.name, hooks) && comp.stage != Submitted
  {
    if c == root {
      answer := AddHere(root, own, comp, hooks, f);
    } else {
      answer := AddBelow(root, own, c, comp, hooks, f);
    }
  }

  // ---------- any sequence of Adds ----------

  /** An Add of a new component to one of the containers there are, and how its hooks turn out. */
  datatype Addition = Addition(into: nat, comp: Container, hooks: Hooks)

  /** The containers there are, in the order in which they were added, and what stands below the topmost one. */
  datatype Site = Site(members: seq<Container>, f: Forest)

  /** The container that the component is added to. */
  function Target(s: Site, a: Addition): Container
    requires s.members != []
  {
    s.members[a.into % |s.members|]
  }

  function AnswerTo(root: Container, own: bool, s: Site, a: Addition): AddResult
    requires s.members != []
  {
    Answered(NamesAt(root, own, s.f, Target(s, a)), a.comp.name, a.hooks)
  }

  function After(root: Container, own: bool, s: Site, a: Addition): Site
    requires s.members != []
  {
    if AnswerTo(root, own, s, a) == Added
    then Site(s.members + [a.comp], Growth(root, s.f, Target(s, a), a.comp))
    else s
  }

  /** What a sequence of Adds builds. */
  function Built(root: Container, own: bool, adds: seq<Addition>): (s: Site)
    ensures s.members != []
  {
    if adds == [] then Site([root], Empty)
    else After(root, own, Built(root, own, adds[..|adds| - 1]), adds[|adds| - 1])
  }

  /** How a sequence of Adds is answered: each by what the ones before it have built. */
  function AnswersTo(root: Container, own: bool, adds: seq<Addition>): (answers: seq<AddResult>)
    ensures |answers| == |adds|
  {
    if adds == [] then []
    else
      var front := adds[..|adds| - 1];
      AnswersTo(root, own, front) + [AnswerTo(root, own, Built(root, own, front), adds[|adds| - 1])]
  }

  ghost predicate AllNew(adds: seq<Addition>)
    reads set a | a in adds :: a.comp
  {
    Apart(adds) && NewFrom(adds, 0)
  }

  ghost function Comps(adds: seq<Addition>): set<Container> { set a | a in adds :: a.comp }

  lemma {:induction false} NextAddition(adds: seq<Addition>, i: nat)
    requires i < |adds| && Apart(adds)
    ensures adds[i].comp !in Comps(adds[..i]) && adds[i].comp in Comps(adds)
    ensures Comps(adds[..i + 1]) == Comps(adds[..i]) + {adds[i].comp}
    ensures forall k :: i < k < |adds| ==> adds[k].comp !in Comps(adds[..i + 1])
  {
    assert adds[..i + 1] == adds[..i] + [adds[i]];
    assert adds[i] in adds;
    forall a | a in adds[..i]
      ensures a.comp != adds[i].comp
    {
      var j :| 0 <= j < i && adds[j] == a;
    }
    forall k, a | i < k < |adds| && a in adds[..i + 1]
      ensures a.comp != adds[k].comp
    {
      var j :| 0 <= j < i + 1 && adds[j] == a;
    }
  }

  ghost predicate NewFrom(adds: seq<Addition>, i: nat)
    reads Comps(adds)
  {
    forall k :: i <= k < |adds| ==> adds[k] in adds && New(adds[k].comp)
  }

  ghost predicate Apart(adds: seq<Addition>) {
    forall i, j :: 0 <= i < j < |adds| ==> adds[i].comp != adds[j].comp
  }

  /** The members are the topmost container and those below it. */
  ghost predicate Accounted(root: Container, s: Site, comps: set<Container>) {
    && WellFormedAll(s.f) && root !in Repr(s.f) && root in s.members && Repr(s.f) <= comps
    && (forall k :: 0 <= k < |s.members| ==> s.members[k] == root || s.members[k] in Repr(s.f))
    && forall c :: c in Repr(s.f) ==> c in s.members
  }

  lemma {:induction false} GrowthAccounted(root: Container, s: Site, comps: set<Container>,
                                           c: Container, comp: Container)
    requires Accounted(root, s, comps) && comp !in comps && comp != root && (c == root || c in Repr(s.f))
    ensures Accounted(root, Site(s.members + [comp], Growth(root, s.f, c, comp)), comps + {comp})
    ensures Repr(Growth(root, s.f, c, comp)) == Repr(s.f) + {comp}
  {
    var leaf, g := LeafOf(comp), Growth(root, s.f, c, comp);
    assert WellFormed(leaf);
    if c != root {
      GrownInWellFormed(s.f, c, leaf);
    }
    forall d | d in Repr(g)
      ensures d in s.members + [comp]
    {
      assert d == comp || d in Repr(s.f);
    }
  }

  lemma {:induction false} BuiltAccounted(root: Container, own: bool, adds: seq<Addition>)
    requires Apart(adds) && root !in Comps(adds)
    ensures Accounted(root, Built(root, own, adds), Comps(adds))
    decreases |adds|
  {
    if adds != [] {
      var n := |adds| - 1;
      var s, a := Built(root, own, adds[..n]), adds[n];
      NextAddition(adds, n);
      assert adds[..n + 1] == adds;
      BuiltAccounted(root, own, adds[..n]);
      assert Target(s, a) in s.members;
      if AnswerTo(root, own, s, a) == Added {
        GrowthAccounted(root, s, Comps(adds[..n]), Target(s, a), a.comp);
      }
    }
  }

  /** The first `i` Adds are done. */
  ghost predicate Underway(root: Container, own: bool, adds: seq<Addition>, i: nat)
    reads root, Comps(adds)
  {
    && i <= |adds| && NewFrom(adds, i) && Apart(adds) && root !in Comps(adds)
    && Repr(Built(root, own, adds[..i]).f) <= Comps(adds)
    && Standing(root, own, Built(root, own, adds[..i]).f)
  }

  lemma {:induction false} BuiltNext(root: Container, own: bool, adds: seq<Addition>, i: nat)
    requires i < |adds| && Apart(adds) && root !in Comps(adds)
    ensures
      var s, a := Built(root, own, adds[..i]), adds[i];
      && Built(root, own, adds[..i + 1]) == After(root, own, s, a)
      && (Target(s, a) == root || Target(s, a) in Repr(s.f)) && Repr(s.f) <= Comps(adds[..i])
  {
    var s, a := Built(root, own, adds[..i]), adds[i];
    NextAddition(adds, i);
    assert adds[..i + 1][..i] == adds[..i];
    assert Comps(adds[..i]) <= Comps(adds);
    BuiltAccounted(root, own, adds[..i]);
    var k := a.into % |s.members|;
    assert s.members[k] == root || s.members[k] in Repr(s.f);
  }

  lemma {:induction false} BuiltWithin(root: Container, own: bool, adds: seq<Addition>, i: nat)
    requires i <= |adds| && Apart(adds) && root !in Comps(adds)
    ensures Repr(Built(root, own, adds[..i]).f) <= Comps(adds)
  {
    assert Comps(adds[..i]) <= Comps(adds);
    BuiltAccounted(root, own, adds[..i]);
  }

  lemma {:induction false} OthersAhead(adds: seq<Addition>, i: nat)
    requires i < |adds| && Apart(adds)
    ensures adds[i].comp in Comps(adds) && adds[i].comp !in Comps(adds[..i])
    ensures forall k :: i < k < |adds| ==> adds[k].comp !in Comps(adds[..i]) && adds[k].comp != adds[i].comp
    ensures forall k :: 0 <= k < |adds| ==> adds[k].comp in Comps(adds)
  {
    NextAddition(adds, i);
    assert forall k :: 0 <= k < |adds| ==> adds[k] in adds;
  }

  method AddNext(root: Container, ghost own: bool, adds: seq<Addition>, i: nat, members: seq<Container>)
    returns (answer: AddResult)
    requires i < |adds| && Underway(root, own, adds, i) && members == Built(root, own, adds[..i]).members
    modifies root, Comps(adds)
    ensures Underway(root, own, adds, i + 1)
    ensures answer == AnswerTo(root, own, Built(root, own, adds[..i]), adds[i])
  {
    var a := adds[i];
    var c := members[a.into % |members|];
    BuiltNext(root, own, adds, i);
    BuiltWithin(root, own, adds, i + 1);
    OthersAhead(adds, i);
    ghost var f := Built(root, own, adds[..i]).f;
    answer := Add(root, own, c, a.comp, a.hooks, f);
    assert NewFrom(adds, i + 1);
  }

  lemma {:induction false} StepOn(root: Container, own: bool, adds: seq<Addition>, i: nat)
    requires i < |adds|
    ensures
      var answer := AnswerTo(root, own, Built(root, own, adds[..i]), adds[i]);
      && AnswersTo(root, own, adds[..i + 1]) == AnswersTo(root, own, adds[..i]) + [answer]
      && Built(root, own, adds[..i + 1]).members
         == Built(root, own, adds[..i]).members + if answer == Added then [adds[i].comp] else []
  {
    assert adds[..i + 1][..i] == adds[..i];
  }

  ghost predicate Progress(root: Container, own: bool, adds: seq<Addition>, i: nat, answers: seq<AddResult>,
                           members: seq<Container>)
    reads root, Comps(adds)
  {
    && Underway(root, own, adds, i)
    && answers == AnswersTo(root, own, adds[..i]) && members == Built(root, own, adds[..i]).members
  }

  method AddAnother(root: Container, ghost own: bool, adds: seq<Addition>, i: nat, answers: seq<AddResult>,
                    members: seq<Container>)
    returns (more: seq<AddResult>, grown: seq<Container>)
    requires i < |adds| && Progress(root, own, adds, i, answers, members)
    modifies root, Comps(adds)
    ensures Progress(root, own, adds, i + 1, more, grown)
  {
    StepOn(root, own, adds, i);
    var answer := AddNext(root, own, adds, i, members);
    more := answers + [answer];
    grown := members + if answer == Added then [adds[i].comp] else [];
  }

  lemma {:induction false} Begins(root: Container, own: bool, adds: seq<Addition>)
    requires Standing(root, own, Empty) && AllNew(adds) && root !in Comps(adds)
    ensures Progress(root, own, adds, 0, [], [root])
  {
    assert adds[..0] == [];
  }

  /** Whatever new components are added, in whatever order, to whichever of the containers there are by
      then, with whatever names and outcomes of their hooks: each is answered by its hooks and the names
      there are where it is added, and what stands below the topmost container is the tree of those whose
      Add succeeded, each put where it was added. */
  method AddAll(root: Container, ghost own: bool, adds: seq<Addition>)
    returns (answers: seq<AddResult>, members: seq<Container>)
    requires Standing(root, own, Empty) && AllNew(adds) && root !in Comps(adds)
    modifies root, Comps(adds)
    ensures Standing(root, own, Built(root, own, adds).f) && members == Built(root, own, adds).members
    ensures answers == AnswersTo(root, own, adds)
  {
    answers, members := [], [root];
    Begins(root, own, adds);
    for i := 0 to |adds|
      invariant Progress(root, own, adds, i, answers, members)
    {
      answers, members := AddAnother(root, own, adds, i, answers, members);
    }
    assert adds[..|adds|] == adds;
  }

  function TreeOf(root: Container, s: Site): Tree { Tree(root, s.f, Repr(s.f) + {root}) }

  lemma {:induction false} StandsAsTree(root: Container, s: Site, comps: set<Container>)
    requires Accounted(root, s, comps)
    ensures WellFormed(TreeOf(root, s)) && Once(Order(TreeOf(root, s)), set c | c in s.members)
    ensures TreeOf(root, s).repr == set c | c in s.members
  {
    var t := TreeOf(root, s);
    forall k | 0 <= k < |s.members|
      ensures s.members[k] in t.repr
    {
    }
    assert t.repr == set c | c in s.members;
    OrderVisitsOnce(t);
  }

  /** And one Shutdown takes it all down, each component once, in post-order. */
  method AddAllThenShutdown(root: Container, hooks: Hooks, adds: seq<Addition>, journal: Journal)
    returns (answers: seq<AddResult>, members: seq<Container>)
    requires New(root) && hooks.initOk && hooks.postInitOk && AllNew(adds) && root !in Comps(adds)
    modifies root, Comps(adds), journal
    ensures answers == AnswersTo(root, true, adds)
    ensures members == Built(root, true, adds).members && Down(set c | c in members)
    ensures journal.stopped == old(journal.stopped) + Order(TreeOf(root, Built(root, true, adds)))
    ensures Once(Order(TreeOf(root, Built(root, true, adds))), set c | c in members)
  {
    Bootstrap(root, hooks);
    answers, members := AddAll(root, true, adds);
    BuiltAccounted(root, true, adds);
    StandsAsTree(root, Built(root, true, adds), Comps(adds));
    ShutdownStanding(root, journal, Built(root, true, adds));
  }

  method ShutdownStanding(root: Container, journal: Journal, ghost s: Site)
    requires Standing(root, true, s.f) && WellFormed(TreeOf(root, s))
    modifies TreeOf(root, s).repr, journal
    ensures Down(TreeOf(root, s).repr)
    ensures journal.stopped == old(journal.stopped) + Order(TreeOf(root, s))
  {
    var accepted := SendShutdown(root, journal, TreeOf(root, s), true);
  }
}
