/** The order in which a tree built by Adds is taken down, told by the Adds. */
module StopOrder {
  import opened Growing
  import opened Registry
  import opened Shutdown
  import opened Wrappers

  /** The components whose Add succeeded, in order. */
  function Accepted(adds: seq<Addition>, answers: seq<AddResult>): seq<Container>
    requires |answers| == |adds|
  {
    if adds == [] then []
    else
      var n := |adds| - 1;
      Accepted(adds[..n], answers[..n]) + if answers[n] == Added then [adds[n].comp] else []
  }

  /** The containers there are in the end are the topmost one and those whose Add succeeded, in order. */
  lemma {:induction false} MembersAreAccepted(root: Container, own: bool, adds: seq<Addition>)
    ensures Built(root, own, adds).members == [root] + Accepted(adds, AnswersTo(root, own, adds))
    decreases |adds|
  {
    if adds != [] {
      var n := |adds| - 1;
      MembersAreAccepted(root, own, adds[..n]);
      assert AnswersTo(root, own, adds)[..n] == AnswersTo(root, own, adds[..n]);
    }
  }

  /** The order in which the whole tree is taken down. */
  function StopOrderOf(root: Container, f: Forest): seq<Container> { SiblingOrder(f) + [root] }

  // ---------- where things are in a tree ----------

  function Nodes(f: Forest): seq<Container> {
    if f.Empty? then [] else Nodes(f.front) + [f.last.node]
  }

  /** The components at `c` and below it. */
  function SubOf(t: Tree, c: Container): set<Container>
    decreases t
  {
    if t.node == c then t.repr else Sub(t.kids, c)
  }

  function Sub(f: Forest, c: Container): set<Container>
    decreases f
  {
    if f.Empty? then {} else if c in f.last.repr then SubOf(f.last, c) else Sub(f.front, c)
  }

  /** The container is on the way from the top to the component that pre-order comes to last. */
  predicate OnSpine(f: Forest, c: Container)
    decreases f
  {
    f.Snoc? && (f.last.node == c || OnSpine(f.last.kids, c))
  }

  lemma {:induction false} NodesInside(f: Forest, k: nat)
    requires WellFormedAll(f) && k < |Nodes(f)|
    ensures Nodes(f)[k] in Repr(f)
    decreases f
  {
    if k < |Nodes(f.front)| {
      NodesInside(f.front, k);
    }
  }

  lemma {:induction false} SubInside(f: Forest, c: Container)
    requires WellFormedAll(f)
    ensures Sub(f, c) <= Repr(f)
    decreases f
  {
    if f.Snoc? {
      if c !in f.last.repr {
        SubInside(f.front, c);
      } else if f.last.node != c {
        SubInside(f.last.kids, c);
      }
    }
  }

  lemma {:induction false} SpineInside(f: Forest, c: Container)
    requires WellFormedAll(f) && OnSpine(f, c)
    ensures c in f.last.repr
    decreases f
  {
    if f.last.node != c {
      SpineInside(f.last.kids, c);
    }
  }

  // ---------- pre-order and the order of the Adds ----------

  lemma {:induction false} InsertedInTree(t: Tree, c: Container, leaf: Tree)
    returns (p: seq<Container>, q: seq<Container>)
    requires WellFormed(t) && c in t.repr && leaf.kids == Empty
    ensures PreOrder(t) == p + q && PreOrder(Grown(t, c, leaf)) == p + [leaf.node] + q && p != []
    ensures q == [] <==> t.node == c || OnSpine(t.kids, c)
    decreases t
  {
    if t.node == c {
      p, q := PreOrder(t), [];
      assert PreOrder(leaf) == [leaf.node];
      assert PreOrder(Grown(t, c, leaf)) == [t.node] + (PreOrderAll(t.kids) + [leaf.node]);
    } else {
      p, q := Inserted(t.kids, c, leaf);
      assert [t.node] + (p + [leaf.node] + q) == ([t.node] + p) + [leaf.node] + q;
      assert [t.node] + (p + q) == ([t.node] + p) + q;
      p := [t.node] + p;
    }
  }

  /** A component added below `c` comes, in pre-order, right after all that is below `c` already: last of all
      exactly when `c` is on the spine. */
  lemma {:induction false} Inserted(f: Forest, c: Container, leaf: Tree) returns (p: seq<Container>, q: seq<Container>)
    requires WellFormedAll(f) && c in Repr(f) && leaf.kids == Empty
    ensures PreOrderAll(f) == p + q && PreOrderAll(GrownIn(f, c, leaf)) == p + [leaf.node] + q && p != []
    ensures q == [] <==> OnSpine(f, c)
    decreases f
  {
    if c in f.last.repr {
      var front := PreOrderAll(f.front);
      p, q := InsertedInTree(f.last, c, leaf);
      assert front + (p + [leaf.node] + q) == (front + p) + [leaf.node] + q;
      assert front + (p + q) == (front + p) + q;
      p := front + p;
    } else {
      var last := PreOrder(f.last);
      p, q := Inserted(f.front, c, leaf);
      assert (p + [leaf.node] + q) + last == p + [leaf.node] + (q + last);
      assert (p + q) + last == p + (q + last);
      q := q + last;
      if OnSpine(f, c) {
        SpineInside(f, c);
      }
    }
  }

  /** The last component in pre-order is below exactly the containers on the spine. */
  lemma {:induction false} SpineEnds(f: Forest, c: Container)
    requires WellFormedAll(f) && c in Repr(f)
    ensures PreOrderAll(f) != []
    ensures PreOrderAll(f)[|PreOrderAll(f)| - 1] in f.last.repr
    ensures OnSpine(f, c) <==> PreOrderAll(f)[|PreOrderAll(f)| - 1] in Sub(f, c)
    decreases f
  {
    var t := f.last;
    LastInside(f);
    if c in t.repr {
      if t.node != c {
        SpineEnds(t.kids, c);
        assert PreOrder(t)[|PreOrder(t)| - 1] == PreOrderAll(t.kids)[|PreOrderAll(t.kids)| - 1];
      }
    } else {
      SubInside(f.front, c);
      if OnSpine(f, c) {
        SpineInside(f, c);
      }
    }
  }

  lemma {:induction false} LastInside(f: Forest)
    requires WellFormedAll(f) && f.Snoc?
    ensures PreOrderAll(f) != [] && PreOrderAll(f)[|PreOrderAll(f)| - 1] in f.last.repr
    decreases f
  {
    var t := f.last;
    if t.kids.Snoc? {
      LastInside(t.kids);
      assert PreOrder(t)[|PreOrder(t)| - 1] == PreOrderAll(t.kids)[|PreOrderAll(t.kids)| - 1];
    } else {
      assert PreOrder(t) == [t.node];
    }
  }

  lemma {:induction false} PreOrderInside(f: Forest)
    requires WellFormedAll(f)
    ensures forall k :: 0 <= k < |PreOrderAll(f)| ==> PreOrderAll(f)[k] in Repr(f)
    decreases f
  {
    if f.Snoc? {
      PreOrderInside(f.front);
      PreOrderInside(f.last.kids);
      var a, t := PreOrderAll(f.front), f.last;
      forall k | 0 <= k < |PreOrderAll(f)|
        ensures PreOrderAll(f)[k] in Repr(f)
      {
        if k < |a| {
          assert PreOrderAll(f)[k] == a[k];
        } else if k == |a| {
          assert PreOrderAll(f)[k] == t.node;
        } else {
          assert PreOrderAll(f)[k] == PreOrder(t)[k - |a|] == PreOrderAll(t.kids)[k - |a| - 1];
        }
      }
    }
  }

  /** The Add goes to the container added last or to one above it. */
  predicate Follows(root: Container, s: Site, a: Addition)
    requires s.members != []
  {
    Target(s, a) == root || s.members[|s.members| - 1] in Sub(s.f, Target(s, a))
  }

  /** Every Add that succeeded did so. */
  predicate InOrder(root: Container, own: bool, adds: seq<Addition>) {
    adds == []
    || (InOrder(root, own, adds[..|adds| - 1])
        && var s, a := Built(root, own, adds[..|adds| - 1]), adds[|adds| - 1];
           AnswerTo(root, own, s, a) == Added ==> Follows(root, s, a))
  }

  lemma {:induction false} InsertedLast<T>(p: seq<T>, x: T, q: seq<T>, all: seq<T>)
    requires x !in p + q
    ensures p + [x] + q == all + [x] <==> q == [] && p == all
  {
    var s := p + [x] + q;
    if q == [] {
      assert s == p + [x];
      assert (p + [x])[..|p|] == p && (all + [x])[..|all|] == all;
    } else {
      assert s[|s| - 1] == q[|q| - 1] == (p + q)[|p + q| - 1];
      assert (all + [x])[|all|] == x;
    }
  }

  /** One more Add keeps pre-order in step with the Adds exactly when it was and the Add follows. */
  lemma {:induction false} OneMoreInStep(root: Container, s: Site, comps: set<Container>, a: Addition)
    requires Accounted(root, s, comps) && a.comp !in comps && a.comp != root
    requires s.members[0] == root && s.members != []
    ensures
      var c := Target(s, a);
      [root] + PreOrderAll(Growth(root, s.f, c, a.comp)) == s.members + [a.comp]
      <==> [root] + PreOrderAll(s.f) == s.members && Follows(root, s, a)
  {
    var c := Target(s, a);
    if c == root {
      AtTheTop(root, s, comps, a.comp);
    } else {
      assert c in s.members;
      FurtherDown(root, s, comps, c, a.comp);
    }
  }

  lemma {:induction false} Strange(root: Container, s: Site, comps: set<Container>, comp: Container)
    requires Accounted(root, s, comps) && comp !in comps && comp != root
    ensures comp !in [root] + PreOrderAll(s.f)
  {
    PreOrderInside(s.f);
  }

  lemma {:induction false} AtTheTop(root: Container, s: Site, comps: set<Container>, comp: Container)
    requires Accounted(root, s, comps) && comp !in comps && comp != root
    ensures [root] + PreOrderAll(Growth(root, s.f, root, comp)) == s.members + [comp]
            <==> [root] + PreOrderAll(s.f) == s.members
  {
    var before := [root] + PreOrderAll(s.f);
    Strange(root, s, comps, comp);
    assert PreOrder(LeafOf(comp)) == [comp];
    assert before + [] == before;
    InsertedLast(before, comp, [], s.members);
    assert [root] + (PreOrderAll(s.f) + [comp]) == before + [comp] + [];
  }

  lemma {:induction false} FurtherDown(root: Container, s: Site, comps: set<Container>, c: Container, comp: Container)
    requires Accounted(root, s, comps) && comp !in comps && comp != root && c in Repr(s.f) && c != root
    requires s.members[0] == root && s.members != []
    ensures [root] + PreOrderAll(Growth(root, s.f, c, comp)) == s.members + [comp]
            <==> [root] + PreOrderAll(s.f) == s.members && s.members[|s.members| - 1] in Sub(s.f, c)
  {
    Strange(root, s, comps, comp);
    var before := PreOrderAll(s.f);
    var p, q := Inserted(s.f, c, LeafOf(comp));
    assert [root] + (p + q) == ([root] + p) + q;
    InsertedLast([root] + p, comp, q, s.members);
    assert [root] + (p + [comp] + q) == ([root] + p) + [comp] + q;
    SpineEnds(s.f, c);
    assert ([root] + before)[|before|] == before[|before| - 1];
    assert q == [] ==> before == p;
  }

  lemma {:induction false} RootFirst(root: Container, own: bool, adds: seq<Addition>)
    ensures Built(root, own, adds).members[0] == root
    decreases |adds|
  {
    if adds != [] {
      RootFirst(root, own, adds[..|adds| - 1]);
    }
  }

  predicate InStep(root: Container, s: Site) { [root] + PreOrderAll(s.f) == s.members }

  lemma {:induction false} InStepNext(root: Container, own: bool, s: Site, comps: set<Container>, a: Addition)
    requires s.members != [] && s.members[0] == root && Accounted(root, s, comps)
    requires a.comp !in comps && a.comp != root
    ensures InStep(root, After(root, own, s, a))
            <==> InStep(root, s) && (AnswerTo(root, own, s, a) == Added ==> Follows(root, s, a))
  {
    OneMoreInStep(root, s, comps, a);
  }

  lemma {:induction false} InStepExactlyWhen(root: Container, own: bool, adds: seq<Addition>)
    requires Apart(adds) && root !in Comps(adds)
    ensures InStep(root, Built(root, own, adds)) <==> InOrder(root, own, adds)
    decreases |adds|
  {
    if adds != [] {
      var front, a := adds[..|adds| - 1], adds[|adds| - 1];
      NextAddition(adds, |adds| - 1);
      assert adds[..|adds|] == adds;
      InStepExactlyWhen(root, own, front);
      BuiltAccounted(root, own, front);
      RootFirst(root, own, front);
      InStepNext(root, own, Built(root, own, front), Comps(front), a);
    }
  }

  /** After any sequence of Adds, components stop in the reverse of the order in which they were added exactly
      when each Add that succeeded went to the container added last or to one above it. */
  lemma {:induction false} ReverseOfAddsExactlyWhen(root: Container, own: bool, adds: seq<Addition>)
    requires Apart(adds) && root !in Comps(adds)
    ensures StopOrderOf(root, Built(root, own, adds).f) == Reversed(Built(root, own, adds).members)
            <==> InOrder(root, own, adds)
  {
    var s := Built(root, own, adds);
    var t := TreeOf(root, s);
    ReverseOfPreOrder(t);
    InStepExactlyWhen(root, own, adds);
    ReversedTwice(PreOrder(t));
    ReversedTwice(s.members);
  }

  lemma {:induction false} LeafOrder(c: Container)
    ensures Order(LeafOf(c)) == [c]
  {
    assert SiblingOrder(Empty) + [c] == [c];
  }

  lemma {:induction false} LastOrder(f: Forest, last: seq<Container>, front: seq<Container>)
    requires f.Snoc? && Order(f.last) == last && SiblingOrder(f.front) == front
    ensures SiblingOrder(f) == last + front
    ensures front == [] ==> SiblingOrder(f) == last
  {
    assert last + [] == last;
  }

  /** It is not so in general: with `b` added after `a` and `c` then added to `a`, `b` stops first. */
  lemma {:induction false} NotTheReverse(root: Container, a: Container, b: Container, c: Container)
    requires a != b && c != a && c != b && root != a && root != b && root != c
    ensures
      var f := Growth(root, Growth(root, Growth(root, Empty, root, a), root, b), a, c);
      StopOrderOf(root, f) == [b, c, a, root] && [b, c, a, root] != Reversed([root, a, b, c])
  {
    var x := Added1(Empty, LeafOf(a));
    var y := Added1(x, LeafOf(b));
    var t := Grown(LeafOf(a), a, LeafOf(c));
    LeafOrder(b);
    LeafOrder(c);
    assert t.kids == Added1(Empty, LeafOf(c));
    LastOrder(t.kids, [c], []);
    assert Order(t) == [c] + [a] == [c, a];
    var g := GrownIn(x, a, LeafOf(c));
    assert g.Snoc? && g.last == t && g.front == Empty;
    LastOrder(g, [c, a], []);
    var f := GrownIn(y, a, LeafOf(c));
    assert f.Snoc? && f.last == LeafOf(b) && f.front == g;
    LastOrder(f, [b], [c, a]);
    assert StopOrderOf(root, f) == [b] + [c, a] + [root] == [b, c, a, root];
    ReversedGrows([root, a, b], c);
    assert [root, a, b] + [c] == [root, a, b, c];
    assert Reversed([root, a, b, c])[0] == c;
  }

  // ---------- siblings, and what is below them ----------

  ghost predicate Before(all: seq<Container>, x: Container, y: Container) {
    exists i, j :: 0 <= i < j < |all| && all[i] == x && all[j] == y
  }

  lemma {:induction false} BeforeLeft(a: seq<Container>, b: seq<Container>, x: Container, y: Container)
    requires Before(a, x, y)
    ensures Before(a + b, x, y)
  {
    var i, j :| 0 <= i < j < |a| && a[i] == x && a[j] == y;
    assert (a + b)[i] == x && (a + b)[j] == y;
  }

  lemma {:induction false} BeforeRight(a: seq<Container>, b: seq<Container>, x: Container, y: Container)
    requires Before(b, x, y)
    ensures Before(a + b, x, y)
  {
    var i, j :| 0 <= i < j < |b| && b[i] == x && b[j] == y;
    assert (a + b)[|a| + i] == x && (a + b)[|a| + j] == y;
  }

  lemma {:induction false} BeforeAcross(a: seq<Container>, b: seq<Container>, x: Container, y: Container)
    requires x in a && y in b
    ensures Before(a + b, x, y)
  {
    var i :| 0 <= i < |a| && a[i] == x;
    var j :| 0 <= j < |b| && b[j] == y;
    assert (a + b)[i] == x && (a + b)[|a| + j] == y;
  }

  /** Side by side: the later one, with all below it, stops before the earlier one and all below that. */
  lemma {:induction false} LaterFirst(f: Forest, i: nat, j: nat, x: Container, y: Container)
    requires WellFormedAll(f) && i < j < |Nodes(f)| && x in Sub(f, Nodes(f)[i]) && y in Sub(f, Nodes(f)[j])
    ensures Before(SiblingOrder(f), y, x)
    decreases f
  {
    var n := |Nodes(f.front)|;
    NodesInside(f.front, i);
    SubInside(f.front, Nodes(f.front)[i]);
    if j == n {
      SiblingsVisitedOnce(f.front);
      OrderVisitsOnce(f.last);
      BeforeAcross(Order(f.last), SiblingOrder(f.front), y, x);
    } else {
      NodesInside(f.front, j);
      LaterFirst(f.front, i, j, x, y);
      BeforeRight(Order(f.last), SiblingOrder(f.front), y, x);
    }
  }

  /** The same for the components of any container in the tree. */
  lemma {:induction false} LaterKidFirst(f: Forest, c: Container, i: nat, j: nat, x: Container, y: Container)
    requires WellFormedAll(f) && c in Repr(f) && i < j < |Nodes(KidsIn(f, c))|
    requires x in Sub(f, Nodes(KidsIn(f, c))[i]) && y in Sub(f, Nodes(KidsIn(f, c))[j])
    ensures Before(SiblingOrder(f), y, x)
    decreases f
  {
    KidsInside(f, c, i);
    KidsInside(f, c, j);
    var t := f.last;
    if c in t.repr {
      if t.node == c {
        LaterFirst(t.kids, i, j, x, y);
      } else {
        LaterKidFirst(t.kids, c, i, j, x, y);
      }
      BeforeLeft(SiblingOrder(t.kids), [t.node], y, x);
      BeforeLeft(Order(t), SiblingOrder(f.front), y, x);
    } else {
      LaterKidFirst(f.front, c, i, j, x, y);
      BeforeRight(Order(t), SiblingOrder(f.front), y, x);
    }
  }

  /** What a container of the tree holds is in the same part of it. */
  lemma {:induction false} KidsInside(f: Forest, c: Container, k: nat)
    requires WellFormedAll(f) && c in Repr(f) && k < |Nodes(KidsIn(f, c))|
    ensures
      var d := Nodes(KidsIn(f, c))[k];
      && d in Repr(f) && d != c
      && (c in f.last.repr ==> d in f.last.repr && d != f.last.node)
      && (c !in f.last.repr ==> d in Repr(f.front) && d !in f.last.repr)
    decreases f
  {
    var t := f.last;
    if c !in t.repr {
      KidsInside(f.front, c, k);
    } else if t.node == c {
      NodesInside(t.kids, k);
    } else {
      KidsInside(t.kids, c, k);
    }
  }

  /** What is below a container of the tree stops before it. */
  lemma {:induction false} BelowFirst(f: Forest, c: Container, x: Container)
    requires WellFormedAll(f) && c in Repr(f) && x in Sub(f, c) && x != c
    ensures Before(SiblingOrder(f), x, c)
    decreases f
  {
    var t := f.last;
    if c in t.repr {
      if t.node == c {
        SiblingsVisitedOnce(t.kids);
        BeforeAcross(SiblingOrder(t.kids), [c], x, c);
      } else {
        BelowFirst(t.kids, c, x);
        BeforeLeft(SiblingOrder(t.kids), [t.node], x, c);
      }
      BeforeLeft(Order(t), SiblingOrder(f.front), x, c);
    } else {
      BelowFirst(f.front, c, x);
      BeforeRight(Order(t), SiblingOrder(f.front), x, c);
    }
  }

  /** What the container `c` of the whole tree holds, in order, and all that is at or below it. */
  function KidsAt(root: Container, f: Forest, c: Container): seq<Container> {
    Nodes(if c == root then f else KidsIn(f, c))
  }

  function AtOrBelow(root: Container, f: Forest, c: Container): set<Container> {
    if c == root then Repr(f) + {root} else Sub(f, c)
  }

  /** The components whose Add to `c` succeeded, in order. */
  function AddedTo(root: Container, own: bool, adds: seq<Addition>, c: Container): seq<Container> {
    if adds == [] then []
    else
      var front, a := adds[..|adds| - 1], adds[|adds| - 1];
      var s := Built(root, own, front);
      AddedTo(root, own, front, c)
      + if AnswerTo(root, own, s, a) == Added && Target(s, a) == c then [a.comp] else []
  }

  lemma {:induction false} GrownNodes(f: Forest, c: Container, leaf: Tree)
    ensures Nodes(GrownIn(f, c, leaf)) == Nodes(f)
    decreases f
  {
    if f.Snoc? {
      GrownNodes(f.front, c, leaf);
    }
  }

  /** What each container holds after a component was added to one of them. */
  lemma {:induction false} GrownKids(f: Forest, c: Container, leaf: Tree, d: Container)
    requires WellFormedAll(f) && WellFormed(leaf) && c in Repr(f) && Repr(f) !! leaf.repr && d in Repr(f)
    ensures Nodes(KidsIn(GrownIn(f, c, leaf), d)) == Nodes(KidsIn(f, d)) + if c == d then [leaf.node] else []
    decreases f
  {
    var t, g := f.last, GrownIn(f, c, leaf);
    if c in t.repr {
      assert g.last == Grown(t, c, leaf) && g.front == f.front;
      if d in t.repr {
        if t.node == c && d != c {
          assert KidsIn(Added1(t.kids, leaf), d) == KidsIn(t.kids, d);
        } else if t.node != c && d == t.node {
          GrownNodes(t.kids, c, leaf);
        } else if t.node != c {
          GrownKids(t.kids, c, leaf, d);
        }
      }
    } else {
      assert g.last == t && g.front == GrownIn(f.front, c, leaf);
      if d !in t.repr {
        GrownKids(f.front, c, leaf, d);
      }
    }
  }

  lemma {:induction false} OnTop(f: Forest, comp: Container)
    ensures KidsIn(Added1(f, LeafOf(comp)), comp) == Empty
    ensures forall d :: d in Repr(f) && d != comp ==> KidsIn(Added1(f, LeafOf(comp)), d) == KidsIn(f, d)
    ensures Nodes(Added1(f, LeafOf(comp))) == Nodes(f) + [comp]
  {
    assert KidsOf(LeafOf(comp), comp) == Empty;
  }

  /** The new component holds nothing. */
  lemma {:induction false} LeafHoldsNothing(f: Forest, c: Container, comp: Container)
    requires WellFormedAll(f) && c in Repr(f) && comp !in Repr(f)
    ensures KidsIn(GrownIn(f, c, LeafOf(comp)), comp) == Empty
    decreases f
  {
    var t, leaf := f.last, LeafOf(comp);
    if c in t.repr {
      if t.node != c {
        LeafHoldsNothing(t.kids, c, comp);
      } else {
        OnTop(t.kids, comp);
      }
    } else {
      LeafHoldsNothing(f.front, c, comp);
    }
  }

  lemma {:induction false} KidsNext(root: Container, s: Site, comps: set<Container>, c: Container, comp: Container,
                                    d: Container)
    requires Accounted(root, s, comps) && comp !in comps && comp != root && c in s.members && d in s.members
    ensures KidsAt(root, Growth(root, s.f, c, comp), d)
            == KidsAt(root, s.f, d) + if c == d then [comp] else []
    ensures KidsAt(root, Growth(root, s.f, c, comp), comp) == []
  {
    var leaf := LeafOf(comp);
    assert WellFormed(leaf);
    assert c == root || c in Repr(s.f);
    assert d == root || d in Repr(s.f);
    if c == root {
      OnTop(s.f, comp);
    } else {
      GrownNodes(s.f, c, leaf);
      LeafHoldsNothing(s.f, c, comp);
      if d != root {
        GrownKids(s.f, c, leaf, d);
      }
    }
  }

  /** Every container holds, in order, the components whose Add to it succeeded. */
  lemma {:induction false} KidsAreAdded(root: Container, own: bool, adds: seq<Addition>, c: Container)
    requires Apart(adds) && root !in Comps(adds)
    ensures c in Built(root, own, adds).members ==>
              KidsAt(root, Built(root, own, adds).f, c) == AddedTo(root, own, adds, c)
    ensures c !in Built(root, own, adds).members ==> AddedTo(root, own, adds, c) == []
    decreases |adds|
  {
    if adds != [] {
      var front, a := adds[..|adds| - 1], adds[|adds| - 1];
      var s := Built(root, own, front);
      NextAddition(adds, |adds| - 1);
      assert adds[..|adds|] == adds;
      KidsAreAdded(root, own, front, c);
      BuiltAccounted(root, own, front);
      assert Target(s, a) in s.members;
      if AnswerTo(root, own, s, a) == Added {
        if c in s.members {
          KidsNext(root, s, Comps(front), Target(s, a), a.comp, c);
        } else {
          KidsNext(root, s, Comps(front), Target(s, a), a.comp, Target(s, a));
        }
      }
    }
  }

  /** After any sequence of Adds: of two components added to one container, the one added later, with all
      below it, stops before the one added earlier and all below that; and all that a container holds, at
      any depth, stops before it. */
  lemma {:induction false} SiblingsStopInReverse(root: Container, own: bool, adds: seq<Addition>, c: Container,
                                                 i: nat, j: nat, x: Container, y: Container)
    requires Apart(adds) && root !in Comps(adds) && c in Built(root, own, adds).members
    requires i < j < |AddedTo(root, own, adds, c)|
    requires x in AtOrBelow(root, Built(root, own, adds).f, AddedTo(root, own, adds, c)[i])
    requires y in AtOrBelow(root, Built(root, own, adds).f, AddedTo(root, own, adds, c)[j])
    ensures Before(StopOrderOf(root, Built(root, own, adds).f), y, x)
  {
    var s := Built(root, own, adds);
    KidsAreAdded(root, own, adds, c);
    BuiltAccounted(root, own, adds);
    if c == root {
      NodesInside(s.f, i);
      NodesInside(s.f, j);
      LaterFirst(s.f, i, j, x, y);
    } else {
      assert c in Repr(s.f);
      KidsInside(s.f, c, i);
      KidsInside(s.f, c, j);
      LaterKidFirst(s.f, c, i, j, x, y);
    }
    BeforeLeft(SiblingOrder(s.f), [root], y, x);
  }

  lemma {:induction false} HeldStopFirst(root: Container, own: bool, adds: seq<Addition>, c: Container, x: Container)
    requires Apart(adds) && root !in Comps(adds) && c in Built(root, own, adds).members
    requires x in AtOrBelow(root, Built(root, own, adds).f, c) && x != c
    ensures Before(StopOrderOf(root, Built(root, own, adds).f), x, c)
  {
    var s := Built(root, own, adds);
    BuiltAccounted(root, own, adds);
    if c == root {
      SiblingsVisitedOnce(s.f);
      BeforeAcross(SiblingOrder(s.f), [root], x, root);
    } else {
      BelowFirst(s.f, c, x);
      BeforeLeft(SiblingOrder(s.f), [root], x, c);
    }
  }
}
