/** What one listener of a component hears over a run of its message loop. */
module Delivery {
  import opened Messages

  /** The changes a listener was told, in order. */
  function Heard(log: seq<Event>, listener: nat): seq<Change> {
    if log == [] then []
    else
      var before, last := Heard(log[..|log| - 1], listener), log[|log| - 1];
      if last.Told? && last.listener == listener then before + [last.change] else before
  }

  /** How often a listener is registered. */
  function Times(listeners: seq<nat>, listener: nat): nat {
    if listeners == [] then 0
    else Times(listeners[..|listeners| - 1], listener) + if listeners[|listeners| - 1] == listener then 1 else 0
  }

  lemma {:induction false} HeardConcat(a: seq<Event>, b: seq<Event>, listener: nat)
    ensures Heard(a + b, listener) == Heard(a, listener) + Heard(b, listener)
    decreases |b|
  {
    if b == [] {
      assert a + b == a;
    } else {
      var n := |b| - 1;
      HeardConcat(a, b[..n], listener);
      assert (a + b)[..|a + b| - 1] == a + b[..n];
    }
  }

  lemma {:induction false} HeardTelling(listeners: seq<nat>, change: Change, listener: nat)
    ensures |Heard(Telling(listeners, change), listener)| == Times(listeners, listener)
    ensures forall c :: c in Heard(Telling(listeners, change), listener) ==> c == change
    decreases |listeners|
  {
    if listeners != [] {
      var n := |listeners| - 1;
      HeardTelling(listeners[..n], change, listener);
      var told := Telling(listeners[..n], change);
      assert (told + [Told(listeners[n], change)])[..|told|] == told;
    }
  }

  /** Both lists are told one after the other; a listener that is in one of them once hears the change once. */
  lemma {:induction false} HeardOnce(callbacks: seq<nat>, subscribers: seq<nat>, change: Change, listener: nat)
    requires Times(callbacks, listener) + Times(subscribers, listener) == 1
    ensures Heard(Telling(callbacks, change) + Telling(subscribers, change), listener) == [change]
  {
    HeardTelling(callbacks, change, listener);
    HeardTelling(subscribers, change, listener);
    HeardConcat(Telling(callbacks, change), Telling(subscribers, change), listener);
    var heard := Heard(Telling(callbacks, change) + Telling(subscribers, change), listener);
    assert |heard| == 1 && heard[0] in heard;
  }

  /** The listener is registered once and, after `before`, has heard every change since number `n`. */
  ghost predicate InStep(s: Comp, listener: nat, before: seq<Change>, n: nat) {
    && Times(s.callbacks, listener) + Times(s.subscribers, listener) == 1
    && n <= |s.changes| && Heard(s.log, listener) == before + s.changes[n..]
  }

  /** Nobody registers or unregisters a listener. */
  predicate Still(os: seq<Outside>) { forall i :: 0 <= i < |os| ==> !os[i].Listeners? }

  ghost predicate StillThroughout(steps: seq<Step>) {
    forall i :: 0 <= i < |steps| ==> StillStep(steps[i])
  }

  predicate StillStep(step: Step) {
    match step
    case Between(o) => !o.Listeners?
    case Receive(_, l) => Still(l.after) && Still(l.late)
  }

  predicate SameListeners(s: Comp, t: Comp) {
    t.callbacks == s.callbacks && t.subscribers == s.subscribers && t.log == s.log && t.changes == s.changes
  }

  lemma {:induction false} StillKeeps(w: World, s: Comp, os: seq<Outside>)
    requires Still(os)
    ensures SameListeners(s, AfterAll(w, s, os))
  {
    if os != [] {
      StillKeeps(w, s, os[..|os| - 1]);
    }
  }

  lemma {:induction false} HeardMore(log: seq<Event>, callbacks: seq<nat>, subscribers: seq<nat>, change: Change,
                                     listener: nat)
    requires Times(callbacks, listener) + Times(subscribers, listener) == 1
    ensures Heard(log + Telling(callbacks, change) + Telling(subscribers, change), listener)
            == Heard(log, listener) + [change]
  {
    var told := Telling(callbacks, change) + Telling(subscribers, change);
    assert log + Telling(callbacks, change) + Telling(subscribers, change) == log + told;
    HeardConcat(log, told, listener);
    HeardOnce(callbacks, subscribers, change, listener);
  }

  lemma {:induction false} OneChangeMore(before: seq<Change>, changes: seq<Change>, n: nat, change: Change)
    requires n <= |changes|
    ensures before + changes[n..] + [change] == before + (changes + [change])[n..]
  {
  }

  lemma {:induction false} PublishedInStep(w: World, s: Comp, listener: nat, before: seq<Change>, n: nat)
    requires InStep(s, listener, before, n)
    ensures InStep(Published(w, s), listener, before, n)
  {
    var t := Published(w, s);
    var change := t.changes[|s.changes|];
    assert t.log == s.log + Telling(s.callbacks, change) + Telling(s.subscribers, change);
    assert t.changes == s.changes + [change] && t.callbacks == s.callbacks && t.subscribers == s.subscribers;
    HeardMore(s.log, s.callbacks, s.subscribers, change, listener);
    OneChangeMore(before, s.changes, n, change);
  }

  lemma {:induction false} AnsweredInStep(s: Comp, ok: bool, gone: bool, listener: nat, before: seq<Change>, n: nat)
    requires InStep(s, listener, before, n)
    ensures InStep(Answered(s, ok, gone).comp, listener, before, n)
  {
    assert (s.log + [Replied(ok)])[..|s.log|] == s.log;
  }

  lemma {:induction false} PublishingInStep(w: World, s: Comp, l: Luck, listener: nat, before: seq<Change>, n: nat)
    requires InStep(s, listener, before, n) && Still(l.late)
    ensures InStep(Publishing(w, s, l).comp, listener, before, n)
  {
    StillKeeps(w, s, l.late);
    PublishedInStep(w, AfterAll(w, s, l.late), listener, before, n);
    AnsweredInStep(Published(w, AfterAll(w, s, l.late)), true, l.senderGone, listener, before, n);
  }

  lemma {:induction false} PersistThenPublishInStep(
      w: World, s: Comp, l: Luck, listener: nat, before: seq<Change>, n: nat)
    requires InStep(s, listener, before, n) && Still(l.after) && Still(l.late)
    ensures InStep(PersistThenPublish(w, s, l).comp, listener, before, n)
  {
    StillKeeps(w, s, l.after);
    var t := Saving(w, AfterAll(w, s, l.after), l.nonce, l.works);
    AnsweredInStep(t, false, l.senderGone, listener, before, n);
    PublishingInStep(w, t, l, listener, before, n);
  }

  lemma {:induction false} ThroughHandlerInStep(w: World, s: Comp, l: Luck, listener: nat, before: seq<Change>, n: nat)
    requires InStep(s, listener, before, n) && Still(l.after) && Still(l.late)
    ensures InStep(ThroughHandler(w, s, l).comp, listener, before, n)
  {
    var t := s.(content := l.content);
    match l.handler
    case Panicked =>
    case Failed => AnsweredInStep(t, false, l.senderGone, listener, before, n);
    case Fine => PersistThenPublishInStep(w, t, l, listener, before, n);
  }

  lemma {:induction false} HandledInStep(w: World, s: Comp, m: Message, l: Luck, listener: nat, before: seq<Change>,
                                         n: nat)
    requires InStep(s, listener, before, n) && Still(l.after) && Still(l.late)
    ensures InStep(Handled(w, s, m, l).comp, listener, before, n)
  {
    AnsweredInStep(s, false, l.senderGone, listener, before, n);
    match m
    case Shutdown =>
      StillKeeps(w, s, l.after);
      AnsweredInStep(AfterAll(w, s, l.after), l.stop.Fine?, l.senderGone, listener, before, n);
    case NotifyPeers => PublishingInStep(w, s, l, listener, before, n);
    case PersistNow => PersistThenPublishInStep(w, s, l, listener, before, n);
    case Of(_) => ThroughHandlerInStep(w, s, l, listener, before, n);
    case Other => ThroughHandlerInStep(w, s, l, listener, before, n);
    case _ =>
  }

  lemma {:induction false} RunInStep(w: World, s: Comp, steps: seq<Step>, listener: nat, before: seq<Change>, n: nat)
    requires InStep(s, listener, before, n) && StillThroughout(steps)
    ensures InStep(Run(w, s, steps), listener, before, n)
  {
    if steps != [] {
      var front, step := steps[..|steps| - 1], steps[|steps| - 1];
      assert StillStep(step);
      RunInStep(w, s, front, listener, before, n);
      if step.Receive? {
        HandledInStep(w, Run(w, s, front), step.m, step.l, listener, before, n);
      }
    }
  }

  /** Over any run during which nobody registers or unregisters, a listener that is registered once hears
      every change that is published, once, in the order of publishing, and nothing else. */
  lemma {:induction false} HearsEveryChangeOnce(w: World, s: Comp, steps: seq<Step>, listener: nat)
    requires Times(s.callbacks, listener) + Times(s.subscribers, listener) == 1 && StillThroughout(steps)
    ensures
      var t := Run(w, s, steps);
      |s.changes| <= |t.changes| && Heard(t.log, listener) == Heard(s.log, listener) + t.changes[|s.changes|..]
  {
    assert s.changes[|s.changes|..] == [];
    RunInStep(w, s, steps, listener, Heard(s.log, listener), |s.changes|);
  }
}
