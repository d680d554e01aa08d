/** What holds of every run of the message loop. */
module MessageLaws {
  import opened Wrappers
  import opened Persistence
  import opened StoreCache
  import opened Messages

  // ---------- tags only move forward ----------

  lemma {:induction false} AfterAllGrows(w: World, s: Comp, os: seq<Outside>)
    ensures s.past <= AfterAll(w, s, os).past && s.copies <= AfterAll(w, s, os).copies
    ensures AfterAll(w, s, os).changes == s.changes && AfterAll(w, s, os).cache == s.cache
  {
    if os != [] {
      AfterAllGrows(w, s, os[..|os| - 1]);
    }
  }

  ghost predicate Grown(s: Comp, t: Comp) { s.past <= t.past && s.copies <= t.copies }

  lemma {:induction false} PersistThenPublishGrows(w: World, s: Comp, l: Luck)
    ensures Grown(s, PersistThenPublish(w, s, l).comp)
  {
    AfterAllGrows(w, s, l.after);
    AfterAllGrows(w, Saving(w, AfterAll(w, s, l.after), l.nonce, l.works), l.late);
  }

  lemma {:induction false} HandledGrows(w: World, s: Comp, m: Message, l: Luck)
    ensures Grown(s, Handled(w, s, m, l).comp)
  {
    match m
    case Shutdown => AfterAllGrows(w, s, l.after);
    case NotifyPeers => AfterAllGrows(w, s, l.late);
    case PersistNow => PersistThenPublishGrows(w, s, l);
    case Of(_) => PersistThenPublishGrows(w, s.(content := l.content), l);
    case Other => PersistThenPublishGrows(w, s.(content := l.content), l);
    case _ =>
  }

  lemma {:induction false} RunGrows(w: World, s: Comp, steps: seq<Step>)
    ensures s.past <= Run(w, s, steps).past && s.copies <= Run(w, s, steps).copies
  {
    if steps != [] {
      var before, step := steps[..|steps| - 1], steps[|steps| - 1];
      RunGrows(w, s, before);
      if step.Receive? {
        HandledGrows(w, Run(w, s, before), step.m, step.l);
      }
    }
  }

  lemma {:induction false} TagsDiffer(w: World, i: nat, j: nat)
    requires FreshTags(w)
    ensures Tag(w, i) == Tag(w, j) <==> i == j
  {
  }

  /** A change was published and the sender got a reply without an error. */
  predicate Acknowledged(w: World, s: Comp, m: Message, l: Luck) {
    var h := Handled(w, s, m, l);
    h.loop.Next? && |h.comp.changes| > |s.changes| && h.comp.log != [] && h.comp.log[|h.comp.log| - 1] == Replied(true)
  }

  /** The content that was published last. */
  function LastPublished(s: Comp): Content
    requires s.changes != []
  {
    s.changes[|s.changes| - 1].cur.content
  }

  lemma {:induction false} PublishedHash(w: World, s: Comp, m: Message, l: Luck)
    requires Acknowledged(w, s, m, l)
    ensures
      var t := Handled(w, s, m, l).comp;
      w.hash(LastPublished(t)).Some? ==> HashOf(t.past) == w.hash(LastPublished(t)).value
  {
  }

  /** No lost update: once a message is acknowledged having published a content whose hash is not the one
      stored when the message was taken, a copy whose tag was issued before that is refused from then on,
      whatever happens meanwhile and later. */
  lemma {:induction false} NoLostUpdate(w: World, s: Comp, m: Message, l: Luck, later: seq<Step>, copy: Copy,
                                        issued: nat, luck: Luck)
    requires FreshTags(w) && Acknowledged(w, s, m, l)
    requires
      var now := w.hash(LastPublished(Handled(w, s, m, l).comp));
      now.Some? && now.value != HashOf(s.past)
    requires copy.name == w.name && copy.typ == w.typ && issued <= |s.past| && copy.etag == Tag(w, issued)
    ensures
      var t := Run(w, Handled(w, s, m, l).comp, later);
      Handled(w, t, Of(copy), luck) == Answered(t, false, luck.senderGone)
  {
    var u := Handled(w, s, m, l).comp;
    HandledGrows(w, s, m, l);
    PublishedHash(w, s, m, l);
    assert |u.past| > |s.past|;
    var t := Run(w, u, later);
    RunGrows(w, u, later);
    TagsDiffer(w, issued, |t.past|);
  }

  /** With nobody interfering, a message that takes the content to `l.content` and is acknowledged leaves the
      tag of its sender's copy valid exactly when it did not change the stored hash. */
  lemma {:induction false} StaleExactlyWhenHashChanged(w: World, s: Comp, copy: Copy, l: Luck)
    requires FreshTags(w) && l.after == [] && l.late == []
    requires copy.etag == CurrentTag(w, s) && copy.name == w.name && copy.typ == w.typ
             && Acknowledged(w, s, Of(copy), l)
    ensures Outdated(w, Handled(w, s, Of(copy), l).comp, Of(copy))
            <==> w.hash(l.content).Some? && w.hash(l.content).value != HashOf(s.past)
  {
    var t := Handled(w, s, Of(copy), l).comp;
    HandledGrows(w, s, Of(copy), l);
    TagsDiffer(w, |s.past|, |t.past|);
  }

  /** The messages that go through persist. */
  predicate Persists(m: Message) { m.PersistNow? || m.Of? || m.Other? }

  /** The content that a message leaves. */
  function Made(s: Comp, m: Message, l: Luck): Content { if m.PersistNow? then s.content else l.content }

  /** The message is refused for its tag, its handler fails, or the update does. */
  predicate Fails(w: World, s: Comp, m: Message, l: Luck) {
    || Outdated(w, s, m)
    || (!m.PersistNow? && l.handler != Fine)
    || SavingFails(w, s.(content := Made(s, m, l)), l.nonce, l.works)
  }

  /** A message publishes exactly when it does not fail. One that fails leaves tag, hash and cache as they
      are even when its handler changed the content, so the same copy is still let in. */
  lemma {:induction false} PublishesExactlyWhen(w: World, s: Comp, m: Message, l: Luck)
    requires Persists(m) && l.after == []
    ensures
      var h := Handled(w, s, m, l);
      && (h.comp.changes == s.changes <==> Fails(w, s, m, l))
      && (Fails(w, s, m, l) ==>
            && h.comp.past == s.past && h.comp.cache == s.cache && h.comp.copies == s.copies
            && h.comp.log == (if h.loop.Broken? then s.log else s.log + [Replied(false)]))
  {
    var t := Saving(w, s.(content := Made(s, m, l)), l.nonce, l.works);
    AfterAllGrows(w, t, l.late);
    if !Outdated(w, s, m) && (m.PersistNow? || l.handler.Fine?) {
      assert Handled(w, s, m, l) == PersistThenPublish(w, s.(content := Made(s, m, l)), l);
    }
  }

  // ---------- every message, whatever happens meanwhile ----------

  /** The replies that senders were handed. */
  function Replies(log: seq<Event>): seq<bool> {
    if log == [] then []
    else Replies(log[..|log| - 1]) + if log[|log| - 1].Replied? then [log[|log| - 1].ok] else []
  }

  lemma {:induction false} RepliesThen(log: seq<Event>, e: Event)
    ensures Replies(log + [e]) == Replies(log) + if e.Replied? then [e.ok] else []
  {
    assert (log + [e])[..|log|] == log;
  }

  lemma {:induction false} TellingSilent(log: seq<Event>, listeners: seq<nat>, change: Change)
    ensures Replies(log + Telling(listeners, change)) == Replies(log)
    decreases |listeners|
  {
    if listeners == [] {
      assert log + Telling(listeners, change) == log;
    } else {
      var front, last := listeners[..|listeners| - 1], listeners[|listeners| - 1];
      TellingSilent(log, front, change);
      RepliesThen(log + Telling(front, change), Told(last, change));
      assert log + Telling(listeners, change) == (log + Telling(front, change)) + [Told(last, change)];
    }
  }

  /** The listeners are told one after the other, in their order. */
  lemma {:induction false} TellingInOrder(listeners: seq<nat>, change: Change)
    ensures |Telling(listeners, change)| == |listeners|
    ensures forall i :: 0 <= i < |listeners| ==> Telling(listeners, change)[i] == Told(listeners[i], change)
  {
    if listeners != [] {
      TellingInOrder(listeners[..|listeners| - 1], change);
    }
  }

  lemma {:induction false} AfterAllSilent(w: World, s: Comp, os: seq<Outside>)
    ensures AfterAll(w, s, os).log == s.log
  {
    if os != [] {
      AfterAllSilent(w, s, os[..|os| - 1]);
    }
  }

  /** The replies and the number of changes after the reply to a message that found `s`. */
  ghost predicate Closes(s: Comp, h: Handling, replies: seq<bool>, published: nat) {
    && Replies(h.comp.log) == Replies(s.log) + replies
    && s.changes <= h.comp.changes && |h.comp.changes| == |s.changes| + published
  }

  lemma {:induction false} AnsweredCloses(s: Comp, t: Comp, ok: bool, gone: bool)
    requires t.log == s.log && t.changes == s.changes
    ensures Closes(s, Answered(t, ok, gone), if gone then [] else [ok], 0)
  {
    RepliesThen(t.log, Replied(ok));
  }

  lemma {:induction false} PublishingCloses(w: World, s: Comp, t: Comp, l: Luck)
    requires t.log == s.log && t.changes == s.changes
    ensures Closes(s, Publishing(w, t, l), if l.senderGone then [] else [true], 1)
  {
    var u := AfterAll(w, t, l.late);
    AfterAllGrows(w, t, l.late);
    AfterAllSilent(w, t, l.late);
    var p := Published(w, u);
    var change := p.changes[|u.changes|];
    TellingSilent(u.log, u.callbacks, change);
    TellingSilent(u.log + Telling(u.callbacks, change), u.subscribers, change);
    RepliesThen(p.log, Replied(true));
  }

  /** The database is found to refuse the update, after whatever happened since the handler. */
  predicate StoringFails(w: World, s: Comp, m: Message, l: Luck) {
    SavingFails(w, AfterAll(w, s.(content := Made(s, m, l)), l.after), l.nonce, l.works)
  }

  lemma {:induction false} PersistCloses(w: World, s: Comp, t: Comp, l: Luck)
    requires t.log == s.log && t.changes == s.changes
    ensures
      var fails := SavingFails(w, AfterAll(w, t, l.after), l.nonce, l.works);
      Closes(s, PersistThenPublish(w, t, l), if l.senderGone then [] else [!fails], if fails then 0 else 1)
  {
    var u := Saving(w, AfterAll(w, t, l.after), l.nonce, l.works);
    AfterAllGrows(w, t, l.after);
    AfterAllSilent(w, t, l.after);
    AnsweredCloses(s, u, false, l.senderGone);
    PublishingCloses(w, s, u, l);
  }

  /** The handler runs: the message is no component's own copy with another tag than the current one. */
  predicate RunsHandler(w: World, s: Comp, m: Message) { m.Other? || (m.Of? && !Outdated(w, s, m)) }

  /** The message ends the loop by a panic in what is called, or by carrying no component. */
  predicate Panics(w: World, s: Comp, m: Message, l: Luck) {
    m.NotAComponent? || (m.Shutdown? && l.stop.Panicked?) || (RunsHandler(w, s, m) && l.handler.Panicked?)
  }

  /** A change is published. */
  predicate Publishes(w: World, s: Comp, m: Message, l: Luck) {
    m.NotifyPeers? || ((m.PersistNow? || (RunsHandler(w, s, m) && l.handler.Fine?)) && !StoringFails(w, s, m, l))
  }

  /** When the loop breaks and when it returns. */
  lemma {:induction false} LoopAfter(w: World, s: Comp, m: Message, l: Luck)
    ensures Handled(w, s, m, l).loop == Broken <==> Panics(w, s, m, l) || l.senderGone
    ensures Handled(w, s, m, l).loop == Returned <==> m == Shutdown && l.stop == Fine && !l.senderGone
  {
  }

  /** A message given to the handler. */
  lemma {:induction false} HandlerCloses(w: World, s: Comp, l: Luck)
    ensures
      var fails := l.handler != Fine || StoringFails(w, s, Other, l);
      Closes(s, ThroughHandler(w, s, l), if l.handler.Panicked? || l.senderGone then [] else [!fails],
             if fails then 0 else 1)
  {
    var t := s.(content := l.content);
    match l.handler
    case Panicked =>
    case Failed => AnsweredCloses(s, t, false, l.senderGone);
    case Fine => PersistCloses(w, s, t, l);
  }

  /** A message that nothing is published for. */
  lemma {:induction false} ControlCloses(w: World, s: Comp, m: Message, l: Luck)
    requires m.NoType? || m.NoLookup? || m.Shutdown? || m.NotAComponent? || Outdated(w, s, m)
    ensures
      var h := Handled(w, s, m, l);
      Closes(s, h, if h.loop == Broken then [] else [m == Shutdown && l.stop == Fine], 0)
  {
    AfterAllGrows(w, s, l.after);
    AfterAllSilent(w, s, l.after);
    AnsweredCloses(s, AfterAll(w, s, l.after), l.stop.Fine?, l.senderGone);
    AnsweredCloses(s, s, false, l.senderGone);
  }

  /** The sender is told that all is well. */
  predicate Accepts(w: World, s: Comp, m: Message, l: Luck) {
    Publishes(w, s, m, l) || (m.Shutdown? && l.stop.Fine?)
  }

  lemma {:induction false} HandledCloses(w: World, s: Comp, m: Message, l: Luck)
    requires RunsHandler(w, s, m)
    ensures Closes(s, Handled(w, s, m, l), if l.handler.Panicked? || l.senderGone then [] else [Publishes(w, s, m, l)],
                   if Publishes(w, s, m, l) then 1 else 0)
  {
    HandlerCloses(w, s, l);
    assert Handled(w, s, m, l) == ThroughHandler(w, s, l);
  }

  lemma {:induction false} AllClose(w: World, s: Comp, m: Message, l: Luck)
    ensures Closes(s, Handled(w, s, m, l),
                   if Panics(w, s, m, l) || l.senderGone then [] else [Accepts(w, s, m, l)],
                   if Publishes(w, s, m, l) then 1 else 0)
  {
    if m.PersistNow? {
      PersistCloses(w, s, s, l);
    } else if m.NotifyPeers? {
      PublishingCloses(w, s, s, l);
    } else if RunsHandler(w, s, m) {
      HandledCloses(w, s, m, l);
    } else {
      ControlCloses(w, s, m, l);
      LoopAfter(w, s, m, l);
    }
  }

  /** Every kind of message, whatever happens meanwhile: the loop breaks exactly when something panics or the
      sender has given up, and returns exactly after a Shutdown whose Stop succeeded; otherwise the sender gets
      exactly one reply, without an error exactly when a change was published or the component stopped. */
  lemma {:induction false} EveryMessageAnswered(w: World, s: Comp, m: Message, l: Luck)
    ensures
      var h := Handled(w, s, m, l);
      && (h.loop == Broken <==> Panics(w, s, m, l) || l.senderGone)
      && (h.loop == Returned <==> m == Shutdown && l.stop == Fine && !l.senderGone)
      && Closes(s, h, if h.loop == Broken then [] else [Publishes(w, s, m, l) || (m == Shutdown && l.stop == Fine)],
                if Publishes(w, s, m, l) then 1 else 0)
  {
    LoopAfter(w, s, m, l);
    AllClose(w, s, m, l);
  }

  /** A NotifyPeers, whatever happens before the copy is made, publishes exactly one change: the content as it
      then is, its tag refreshed, told to every callback and then every subscriber right before the reply, and
      cached. Nothing is stored, and if nobody else touches the content it is the one found. */
  lemma {:induction false} NotifyPeersPublishes(w: World, s: Comp, l: Luck)
    requires !l.senderGone
    ensures
      var h, found := Handled(w, s, NotifyPeers, l), AfterAll(w, s, l.late);
      && h.loop == Next && Settled(w, s, h.comp, found.content)
      && h.comp.callbacks == found.callbacks && h.comp.subscribers == found.subscribers
      && h.comp.saved == found.saved
      && (Quiet(l.late) ==> h.comp.content == s.content && h.comp.saved == s.saved)
  {
    AfterAllGrows(w, s, l.late);
    AfterAllSilent(w, s, l.late);
    QuietKeeps(w, s, l.late);
  }

  lemma {:induction false} PublishingIsCurrent(w: World, s: Comp, t: Comp, l: Luck)
    requires t.log == s.log && t.changes == s.changes && !l.senderGone
    ensures Settled(w, s, Publishing(w, t, l).comp, Publishing(w, t, l).comp.content)
  {
    AfterAllGrows(w, t, l.late);
    AfterAllSilent(w, t, l.late);
  }

  /** Whatever the message and whoever interferes: what a change published for it hands out is the content that
      the message leaves, under its current tag, also in the cache, and told right before the reply. */
  lemma {:induction false} PublishedIsCurrent(w: World, s: Comp, m: Message, l: Luck)
    requires Publishes(w, s, m, l) && !l.senderGone
    ensures Settled(w, s, Handled(w, s, m, l).comp, Handled(w, s, m, l).comp.content)
  {
    if m.NotifyPeers? {
      PublishingIsCurrent(w, s, s, l);
    } else {
      var t := s.(content := Made(s, m, l));
      var u := AfterAll(w, t, l.after);
      AfterAllGrows(w, t, l.after);
      AfterAllSilent(w, t, l.after);
      PublishingIsCurrent(w, s, Saving(w, u, l.nonce, l.works), l);
      assert Handled(w, s, m, l) == PersistThenPublish(w, t, l) == Publishing(w, Saving(w, u, l.nonce, l.works), l);
    }
  }

  /** Nobody else touches the content or persists: copies are taken and listeners come and go. */
  predicate Quiet(os: seq<Outside>) { forall i :: 0 <= i < |os| ==> os[i].CopyOut? || os[i].Listeners? }

  lemma {:induction false} QuietKeeps(w: World, s: Comp, os: seq<Outside>)
    ensures Quiet(os) ==> AfterAll(w, s, os).content == s.content && AfterAll(w, s, os).saved == s.saved
  {
    if os != [] {
      QuietKeeps(w, s, os[..|os| - 1]);
    }
  }

  lemma {:induction false} QuietPersist(w: World, s: Comp, l: Luck)
    requires Quiet(l.after) && Quiet(l.late)
    ensures
      var t := PersistThenPublish(w, s, l).comp;
      && t.content == s.content
      && t.saved == if w.persistence then Persisted(s.saved, w.flatten(s.content, l.nonce), l.works) else s.saved
  {
    var u := Saving(w, AfterAll(w, s, l.after), l.nonce, l.works);
    QuietKeeps(w, s, l.after);
    QuietKeeps(w, u, l.late);
  }

  /** With nobody else at work, the content is replaced exactly by a handler that runs, and the entries of the
      content are handed to the database exactly when persistence is enabled and no step before that fails. */
  lemma {:induction false} ContentAndEntries(w: World, s: Comp, m: Message, l: Luck)
    requires Quiet(l.after) && Quiet(l.late)
    ensures
      var t := Handled(w, s, m, l).comp;
      && t.content == (if RunsHandler(w, s, m) then l.content else s.content)
      && t.saved == if w.persistence && (m == PersistNow || (RunsHandler(w, s, m) && l.handler == Fine))
                    then Persisted(s.saved, w.flatten(t.content, l.nonce), l.works) else s.saved
  {
    if m.PersistNow? {
      QuietPersist(w, s, l);
    } else if RunsHandler(w, s, m) {
      QuietPersist(w, s.(content := l.content), l);
      assert Handled(w, s, m, l) == ThroughHandler(w, s, l);
    } else {
      QuietKeeps(w, s, l.after);
      QuietKeeps(w, s, l.late);
    }
  }

  /** A copy of a component of another name, or of another concrete type, is handled whatever tag it carries, and
      so is a copy with the current tag: each like a message that carries no component. */
  lemma {:induction false} LetIn(w: World, s: Comp, copy: Copy, l: Luck)
    requires copy.name != w.name || copy.typ != w.typ || copy.etag == CurrentTag(w, s)
    ensures Handled(w, s, Of(copy), l) == Handled(w, s, Other, l)
  {
  }

  /** What others do shows: a copy taken has the content as it is under the tag current then, listeners that come
      while a NotifyPeers is handled are the ones told, and a lifecycle call hands the entries to the database. */
  lemma {:induction false} OthersAct(w: World, s: Comp, l: Luck, callbacks: seq<nat>, subscribers: seq<nat>, nonce: nat)
    ensures
      var t := After(w, s, CopyOut);
      t.content == s.content && t.copies == s.copies + [Copy(w.name, w.typ, CurrentTag(w, t), s.content)]
    ensures
      l.late == [Listeners(callbacks, subscribers)] && !l.senderGone ==>
        var t := Handled(w, s, NotifyPeers, l).comp;
        |t.changes| == |s.changes| + 1
        && t.log == s.log + Telling(callbacks, t.changes[|s.changes|]) + Telling(subscribers, t.changes[|s.changes|])
                    + [Replied(true)]
    ensures
      w.persistence && w.flatten(s.content, nonce) != [] ==>
        After(w, s, LifecyclePersist(nonce, true)).saved.cache == Some(w.flatten(s.content, nonce))
  {
    if l.late == [Listeners(callbacks, subscribers)] {
      assert AfterAll(w, s, l.late) == After(w, s, Listeners(callbacks, subscribers));
    }
  }

  /** Changing the state issues a new tag exactly when the hash of the content is not the stored one. */
  lemma {:induction false} StateChangeRefreshes(w: World, s: Comp, content: Content)
    requires FreshTags(w)
    ensures CurrentTag(w, After(w, s, StateChange(content))) != CurrentTag(w, s)
            <==> w.hash(content).Some? && w.hash(content).value != HashOf(s.past)
  {
    TagsDiffer(w, |s.past|, |After(w, s, StateChange(content)).past|);
  }

  // ---------- tags name contents ----------

  /** The tag of the copy was issued, and was issued for the hash of its content if that has one. */
  ghost predicate Genuine(w: World, past: seq<nat>, c: Copy) {
    exists n: nat :: IssuedAs(w, past, c, n)
  }

  predicate IssuedAs(w: World, past: seq<nat>, c: Copy, n: nat) {
    n <= |past| && c.etag == Tag(w, n) && (w.hash(c.content).Some? ==> w.hash(c.content).value == HashOf(past[..n]))
  }

  ghost predicate AllGenuine(w: World, s: Comp) {
    forall i :: 0 <= i < |s.copies| ==> Genuine(w, s.past, s.copies[i])
  }

  lemma {:induction false} GenuineLater(w: World, past: seq<nat>, more: seq<nat>, c: Copy)
    requires Genuine(w, past, c) && past <= more
    ensures Genuine(w, more, c)
  {
    var n: nat :| IssuedAs(w, past, c, n);
    assert more[..n] == past[..n];
    assert IssuedAs(w, more, c, n);
  }

  lemma {:induction false} CopiedGenuine(w: World, s: Comp)
    requires AllGenuine(w, s)
    ensures AllGenuine(w, Copied(w, s))
  {
    var r := Refreshed(w, s);
    forall i | 0 <= i < |s.copies|
      ensures Genuine(w, r.past, s.copies[i])
    {
      GenuineLater(w, s.past, r.past, s.copies[i]);
    }
    assert r.past[..|r.past|] == r.past;
    assert IssuedAs(w, r.past, CopyOf(w, r), |r.past|);
  }

  lemma {:induction false} RefreshedGenuine(w: World, s: Comp)
    requires AllGenuine(w, s)
    ensures AllGenuine(w, Refreshed(w, s))
  {
    var r := Refreshed(w, s);
    forall i | 0 <= i < |s.copies|
      ensures Genuine(w, r.past, s.copies[i])
    {
      GenuineLater(w, s.past, r.past, s.copies[i]);
    }
  }

  lemma {:induction false} AfterGenuine(w: World, s: Comp, o: Outside)
    requires AllGenuine(w, s)
    ensures AllGenuine(w, After(w, s, o))
  {
    match o
    case CopyOut => CopiedGenuine(w, s);
    case StateChange(content) => RefreshedGenuine(w, s.(content := content));
    case _ =>
  }

  lemma {:induction false} AfterAllGenuine(w: World, s: Comp, os: seq<Outside>)
    requires AllGenuine(w, s)
    ensures AllGenuine(w, AfterAll(w, s, os))
  {
    if os != [] {
      AfterAllGenuine(w, s, os[..|os| - 1]);
      AfterGenuine(w, AfterAll(w, s, os[..|os| - 1]), os[|os| - 1]);
    }
  }

  lemma {:induction false} PublishingGenuine(w: World, s: Comp, l: Luck)
    requires AllGenuine(w, s)
    ensures AllGenuine(w, Publishing(w, s, l).comp)
  {
    AfterAllGenuine(w, s, l.late);
    CopiedGenuine(w, AfterAll(w, s, l.late));
  }

  lemma {:induction false} PersistThenPublishGenuine(w: World, s: Comp, l: Luck)
    requires AllGenuine(w, s)
    ensures AllGenuine(w, PersistThenPublish(w, s, l).comp)
  {
    AfterAllGenuine(w, s, l.after);
    PublishingGenuine(w, Saving(w, AfterAll(w, s, l.after), l.nonce, l.works), l);
  }

  lemma {:induction false} HandledGenuine(w: World, s: Comp, m: Message, l: Luck)
    requires AllGenuine(w, s)
    ensures AllGenuine(w, Handled(w, s, m, l).comp)
  {
    match m
    case Shutdown => AfterAllGenuine(w, s, l.after);
    case NotifyPeers => PublishingGenuine(w, s, l);
    case PersistNow => PersistThenPublishGenuine(w, s, l);
    case Of(_) => PersistThenPublishGenuine(w, s.(content := l.content), l);
    case Other => PersistThenPublishGenuine(w, s.(content := l.content), l);
    case _ =>
  }

  lemma {:induction false} RunGenuine(w: World, s: Comp, steps: seq<Step>)
    requires AllGenuine(w, s)
    ensures AllGenuine(w, Run(w, s, steps))
  {
    if steps != [] {
      var before := Run(w, s, steps[..|steps| - 1]);
      RunGenuine(w, s, steps[..|steps| - 1]);
      match steps[|steps| - 1]
      case Between(o) => AfterGenuine(w, before, o);
      case Receive(m, l) => HandledGenuine(w, before, m, l);
    }
  }

  /** In every run, two copies that carry one tag were made of contents with one hash. */
  lemma {:induction false} EqualTagsEqualHashes(w: World, content: Content, entry: Option<Doc>, steps: seq<Step>,
                                                i: nat, j: nat)
    requires FreshTags(w)
    requires i < |Run(w, Newborn(content, entry), steps).copies| && j < |Run(w, Newborn(content, entry), steps).copies|
    ensures
      var c, d := Run(w, Newborn(content, entry), steps).copies[i], Run(w, Newborn(content, entry), steps).copies[j];
      c.etag == d.etag && w.hash(c.content).Some? && w.hash(d.content).Some? ==> w.hash(c.content) == w.hash(d.content)
  {
    var s := Run(w, Newborn(content, entry), steps);
    RunGenuine(w, Newborn(content, entry), steps);
    var c, d := s.copies[i], s.copies[j];
    var m: nat :| IssuedAs(w, s.past, c, m);
    var n: nat :| IssuedAs(w, s.past, d, n);
    TagsDiffer(w, m, n);
  }

  // ---------- acknowledged means stored and published ----------

  /** The database holds entries that the content flattens to. */
  ghost predicate Stored(w: World, s: Comp) {
    s.saved.entry.Some? && exists n :: s.saved.entry.value == w.flatten(s.content, n)
  }

  /** What may happen next to a message without touching the content: copies, listeners, and lifecycle calls
      whose writes succeed. */
  predicate Calm(os: seq<Outside>) {
    forall i :: 0 <= i < |os| ==> os[i].CopyOut? || os[i].Listeners? || (os[i].LifecyclePersist? && os[i].works)
  }

  lemma {:induction false} CalmKeeps(w: World, s: Comp, os: seq<Outside>)
    requires Calm(os) && Honest(s.saved)
    ensures
      var t := AfterAll(w, s, os);
      && Honest(t.saved) && t.content == s.content && t.log == s.log && (Stored(w, s) ==> Stored(w, t))
  {
    if os != [] {
      var o, before := os[|os| - 1], AfterAll(w, s, os[..|os| - 1]);
      CalmKeeps(w, s, os[..|os| - 1]);
      if o.LifecyclePersist? {
        SavedStays(w, before, o.nonce);
      }
    }
  }

  lemma {:induction false} SavedStays(w: World, s: Comp, nonce: nat)
    requires Honest(s.saved)
    ensures Honest(Saving(w, s, nonce, true).saved)
    ensures Stored(w, s) || (w.persistence && w.flatten(s.content, nonce) != [])
            ==> Stored(w, Saving(w, s, nonce, true))
  {
    var t := Saving(w, s, nonce, true);
    if w.persistence && w.flatten(s.content, nonce) != [] {
      assert t.saved.entry == Some(w.flatten(t.content, nonce));
    }
  }

  /** The message has been acknowledged with everything in step: the content is the given one, tag and hash
      match it, the component cache is its copy, and that copy was handed to every callback and then every
      subscriber, right before the reply. */
  predicate Settled(w: World, s: Comp, t: Comp, content: Content) {
    && t.content == content
    && (w.hash(content).Some? ==> HashOf(t.past) == w.hash(content).value)
    && t.cache == Some(Copy(w.name, w.typ, CurrentTag(w, t), content))
    && |t.changes| == |s.changes| + 1 && t.cache == Some(t.changes[|s.changes|].cur)
    && var change := t.changes[|s.changes|];
       t.log == s.log + Telling(t.callbacks, change) + Telling(t.subscribers, change) + [Replied(true)]
  }

  lemma {:induction false} PublishingSettles(w: World, s: Comp, c: Comp, l: Luck)
    requires Calm(l.late) && Honest(c.saved) && Stored(w, c) && !l.senderGone
    requires c.log == s.log && c.changes == s.changes
    ensures
      var t := Publishing(w, c, l).comp;
      Settled(w, s, t, c.content) && Stored(w, t) && Honest(t.saved)
  {
    CalmKeeps(w, c, l.late);
    AfterAllGrows(w, c, l.late);
  }

  lemma {:induction false} PersistSettles(w: World, s: Comp, l: Luck)
    requires Honest(s.saved) && Calm(l.after) && Calm(l.late) && !l.senderGone
    requires w.persistence && w.flatten(s.content, l.nonce) != []
    requires !SavingFails(w, AfterAll(w, s, l.after), l.nonce, l.works)
    ensures
      var t := PersistThenPublish(w, s, l).comp;
      Settled(w, s, t, s.content) && Stored(w, t) && Honest(t.saved)
  {
    CalmKeeps(w, s, l.after);
    AfterAllGrows(w, s, l.after);
    var c := Saving(w, AfterAll(w, s, l.after), l.nonce, l.works);
    assert c.saved.entry == Some(w.flatten(c.content, l.nonce));
    PublishingSettles(w, s, c, l);
  }

  lemma {:induction false} AcknowledgedSettles(w: World, s: Comp, m: Message, l: Luck)
    requires Persists(m) && Acknowledged(w, s, m, l) && Honest(s.saved) && Calm(l.after) && Calm(l.late)
    requires w.persistence && w.flatten(Made(s, m, l), l.nonce) != []
    ensures
      var t := Handled(w, s, m, l).comp;
      Settled(w, s, t, Made(s, m, l)) && Stored(w, t) && Honest(t.saved)
  {
    var a := s.(content := Made(s, m, l));
    assert Handled(w, s, m, l) == PersistThenPublish(w, a, l);
    AfterAllGrows(w, a, l.after);
    PersistSettles(w, a, l);
  }

  /** How the component lays out its persistable fields: the struct, the values that a content gives its
      tagged leaves, and what they are encrypted with, given the nonces of one call. */
  datatype Layout = Layout(
    fields: seq<Field>, typeName: string, values: Content -> seq<Value>,
    cipher: Cipher, key: string, draws: nat -> nat -> Option<Nonce>)
  {
    function Leaves(): seq<Place> { Places(fields, typeName) }
  }

  /** The contents are flattened as marshalType does it, one entry for each tagged leaf. */
  ghost predicate Flattens(w: World, y: Layout) {
    && Ideal(y.cipher) && UniqueNames(y.Leaves())
    && forall content, nonce ::
         && Entries(w.flatten(content, nonce), y.Leaves(), y.values(content), Vault(y.cipher, y.key, y.draws(nonce)))
         && AllFit(y.values(content), y.Leaves())
  }

  /** A later load: the fields restored into, what they hold, and the entries by name. */
  datatype Reload = Reload(target: seq<Field>, was: seq<Value>, pTypes: map<string, PType>, vault: Vault)

  ghost predicate Reloads(r: Reload, y: Layout, doc: Doc) {
    && SameType(y.fields, r.target) && |r.was| == |Places(r.target, y.typeName)|
    && r.vault.cipher == y.cipher && r.vault.key == y.key && LastOfEach(r.pTypes, doc)
  }

  /** Restoring from the entries gives every carried leaf of the content back, and leaves all others alone,
      exactly when their values survive, which they do if they are safe. */
  ghost predicate Decodes(doc: Doc, y: Layout, content: Content, r: Reload) {
    Reloads(r, y, doc) ==>
      var to := Places(r.target, y.typeName);
      && AllReadable(to, r.pTypes, y.key) && |y.values(content)| == |y.Leaves()|
      && (AllCameBack(to, y.values(content), r.was, RestoredAll(to, r.was, r.pTypes, r.vault))
          <==> AllSurvive(y.Leaves(), y.values(content), doc))
      && (AllSafe(y.Leaves(), y.values(content)) ==> AllSurvive(y.Leaves(), y.values(content), doc))
  }

  lemma {:induction false} StoredDecodes(w: World, s: Comp, y: Layout, r: Reload)
    requires Stored(w, s) && Flattens(w, y)
    ensures Decodes(s.saved.entry.value, y, s.content, r)
  {
    var doc := s.saved.entry.value;
    if Reloads(r, y, doc) {
      var n :| doc == w.flatten(s.content, n);
      var vault := Vault(y.cipher, y.key, y.draws(n));
      var values, to := y.values(s.content), Places(r.target, y.typeName);
      assert Entries(doc, y.Leaves(), values, vault) && AllFit(values, y.Leaves());
      EntriesReadable(doc, y.Leaves(), values, vault);
      EveryReadable(to, doc, r.pTypes, y.key);
      RoundTripExactlyWhen(doc, y.fields, values, r.target, r.was, y.typeName, vault, r.pTypes);
      DrawsIrrelevant(to, r.was, r.pTypes, vault, r.vault);
      AllSafeSurvive(doc, y.Leaves(), values, vault);
    }
  }

  lemma {:induction false} EveryReadable(places: seq<Place>, items: seq<PType>, pTypes: map<string, PType>, key: string)
    requires LastOfEach(pTypes, items) && forall e :: e in items ==> Readable(e, key)
    ensures AllReadable(places, pTypes, key)
  {
    LastsReadable(places, items, pTypes, key);
  }

  /** Restoring draws no nonces. */
  lemma {:induction false} DrawsIrrelevant(places: seq<Place>, was: seq<Value>, pTypes: map<string, PType>, v: Vault,
                                           u: Vault)
    requires |was| == |places| && AllReadable(places, pTypes, v.key) && u.cipher == v.cipher && u.key == v.key
    ensures RestoredAll(places, was, pTypes, u) == RestoredAll(places, was, pTypes, v)
  {
    forall k | 0 <= k < |places|
      ensures RestoredAll(places, was, pTypes, u)[k] == RestoredAll(places, was, pTypes, v)[k]
    {
      assert CanRestore(places[k], pTypes, v.key);
      assert Takes(places[k], pTypes) ==> TextOf(pTypes[places[k].name], u) == TextOf(pTypes[places[k].name], v);
    }
  }

  /** A message through persist that is acknowledged, with the database holding what was last handed to it
      and nobody else touching the content, has everything in step with the content its handler made, and
      any later load from the database gives the leaves of that content back. */
  lemma {:induction false} AcknowledgedMeansStoredAndPublished(
      w: World, s: Comp, m: Message, l: Luck, y: Layout, r: Reload)
    requires Persists(m) && Acknowledged(w, s, m, l) && Honest(s.saved) && Calm(l.after) && Calm(l.late)
    requires w.persistence && Flattens(w, y) && y.Leaves() != []
    ensures
      var t := Handled(w, s, m, l).comp;
      && Settled(w, s, t, Made(s, m, l)) && Honest(t.saved)
      && t.saved.entry.Some? && Decodes(t.saved.entry.value, y, Made(s, m, l), r)
  {
    assert |w.flatten(Made(s, m, l), l.nonce)| == |y.Leaves()|;
    AcknowledgedSettles(w, s, m, l);
    StoredDecodes(w, Handled(w, s, m, l).comp, y, r);
  }

  /** Every update in the steps works. */
  predicate Works(o: Outside) { o.LifecyclePersist? ==> o.works }

  ghost predicate WorksThroughout(steps: seq<Step>) { forall i :: 0 <= i < |steps| ==> WorksIn(steps[i]) }

  predicate WorksIn(step: Step) {
    match step
    case Between(o) => Works(o)
    case Receive(_, l) => l.works && AllWorking(l.after) && AllWorking(l.late)
  }

  predicate AllWorking(os: seq<Outside>) { forall i :: 0 <= i < |os| ==> Works(os[i]) }

  lemma {:induction false} AfterAllHonest(w: World, s: Comp, os: seq<Outside>)
    requires Honest(s.saved) && AllWorking(os)
    ensures Honest(AfterAll(w, s, os).saved)
  {
    if os != [] {
      AfterAllHonest(w, s, os[..|os| - 1]);
    }
  }

  lemma {:induction false} PersistThenPublishHonest(w: World, s: Comp, l: Luck)
    requires Honest(s.saved) && l.works && AllWorking(l.after) && AllWorking(l.late)
    ensures Honest(PersistThenPublish(w, s, l).comp.saved)
  {
    AfterAllHonest(w, s, l.after);
    AfterAllHonest(w, Saving(w, AfterAll(w, s, l.after), l.nonce, l.works), l.late);
  }

  lemma {:induction false} HandledHonest(w: World, s: Comp, m: Message, l: Luck)
    requires Honest(s.saved) && l.works && AllWorking(l.after) && AllWorking(l.late)
    ensures Honest(Handled(w, s, m, l).comp.saved)
  {
    match m
    case Shutdown => AfterAllHonest(w, s, l.after);
    case NotifyPeers => AfterAllHonest(w, s, l.late);
    case PersistNow => PersistThenPublishHonest(w, s, l);
    case Of(_) => PersistThenPublishHonest(w, s.(content := l.content), l);
    case Other => PersistThenPublishHonest(w, s.(content := l.content), l);
    case _ =>
  }

  /** As long as every update works, the database holds what was last handed to it. */
  lemma {:induction false} RunHonest(w: World, s: Comp, steps: seq<Step>)
    requires Honest(s.saved) && WorksThroughout(steps)
    ensures Honest(Run(w, s, steps).saved)
  {
    if steps != [] {
      var before, step := Run(w, s, steps[..|steps| - 1]), steps[|steps| - 1];
      RunHonest(w, s, steps[..|steps| - 1]);
      assert WorksIn(step);
      if step.Receive? {
        HandledHonest(w, before, step.m, step.l);
      }
    }
  }

  /** The same after every run of a component in which no update failed. */
  lemma {:induction false} AcknowledgedInEveryRun(
      w: World, content: Content, entry: Option<Doc>, steps: seq<Step>,
      s: Comp, m: Message, l: Luck, y: Layout, r: Reload)
    requires WorksThroughout(steps) && s == Run(w, Newborn(content, entry), steps)
    requires Persists(m) && Acknowledged(w, s, m, l) && Calm(l.after) && Calm(l.late)
    requires w.persistence && Flattens(w, y) && y.Leaves() != []
    ensures
      var t := Handled(w, s, m, l).comp;
      && Settled(w, s, t, Made(s, m, l))
      && t.saved.entry.Some? && Decodes(t.saved.entry.value, y, Made(s, m, l), r)
  {
    RunHonest(w, Newborn(content, entry), steps);
    AcknowledgedMeansStoredAndPublished(w, s, m, l, y, r);
  }

  /** Failed updates are the exception: with nobody interfering, an acknowledged message leaves its entries in
      the database exactly when they are not the ones handed over last, or the database holds them already. */
  lemma {:induction false} AcknowledgedStoredExactlyWhen(w: World, s: Comp, m: Message, l: Luck)
    requires Persists(m) && Acknowledged(w, s, m, l) && l.after == [] && l.late == []
    requires w.persistence && w.flatten(Made(s, m, l), l.nonce) != []
    ensures
      var doc := w.flatten(Made(s, m, l), l.nonce);
      Handled(w, s, m, l).comp.saved.entry == Some(doc) <==> (s.saved.cache != Some(doc) || s.saved.entry == Some(doc))
  {
    assert Handled(w, s, m, l) == PersistThenPublish(w, s.(content := Made(s, m, l)), l);
  }

  /** So a message that failed in the database and is sent again is acknowledged, and published, without
      being stored. */
  lemma {:induction false} RetryPublishesUnstored(w: World, s: Comp, l: Luck)
    requires l.handler.Fine? && l.after == [] && l.late == [] && !l.works && !l.senderGone && w.persistence
    requires
      var doc := w.flatten(l.content, l.nonce);
      doc != [] && s.saved.cache != Some(doc) && s.saved.entry != Some(doc)
    ensures
      var first := Handled(w, s, Other, l);
      var second := Handled(w, first.comp, Other, l);
      && first.comp.log == s.log + [Replied(false)] && first.comp.changes == s.changes
      && Acknowledged(w, first.comp, Other, l) && second.comp.saved.entry == s.saved.entry
      && LastPublished(second.comp) == l.content
  {
  }

  /** And what another goroutine writes between persisting and publishing is published under a tag of its
      own, while the database holds what the handler made. */
  lemma {:induction false} LateWritePublishesUnstored(w: World, s: Comp, l: Luck, content: Content)
    requires l.handler.Fine? && l.after == [] && l.late == [Mutate(content)] && l.works && w.persistence
    requires w.flatten(l.content, l.nonce) != [] && Honest(s.saved)
    ensures
      var t := Handled(w, s, Other, l).comp;
      && t.saved.entry == Some(w.flatten(l.content, l.nonce))
      && |t.changes| == |s.changes| + 1 && LastPublished(t) == t.content == content
  {
    var c := s.(content := l.content);
    assert Handled(w, s, Other, l) == PersistThenPublish(w, c, l);
    var u := Saving(w, c, l.nonce, true);
    assert AfterAll(w, u, l.late) == After(w, u, Mutate(content));
  }

  // ---------- the chain of changes ----------

  /** The first change has the current copy twice, every other one starts from where the one before it ended,
      and the component cache is where the last one ended. */
  ghost predicate Chained(s: Comp) {
    && s.cache == (if s.changes == [] then None else Some(s.changes[|s.changes| - 1].cur))
    && forall i :: 0 <= i < |s.changes| ==> s.changes[i].prev == s.changes[if i == 0 then 0 else i - 1].cur
  }

  lemma {:induction false} PublishedChained(w: World, s: Comp)
    requires Chained(s)
    ensures Chained(Published(w, s))
  {
    var t := Published(w, s);
    forall i | 0 <= i < |t.changes|
      ensures t.changes[i].prev == t.changes[if i == 0 then 0 else i - 1].cur
    {
      if i < |s.changes| {
        assert t.changes[i] == s.changes[i];
      }
    }
  }

  lemma {:induction false} PublishingChained(w: World, s: Comp, l: Luck)
    requires Chained(s)
    ensures Chained(Publishing(w, s, l).comp)
  {
    AfterAllGrows(w, s, l.late);
    PublishedChained(w, AfterAll(w, s, l.late));
  }

  lemma {:induction false} PersistThenPublishChained(w: World, s: Comp, l: Luck)
    requires Chained(s)
    ensures Chained(PersistThenPublish(w, s, l).comp)
  {
    AfterAllGrows(w, s, l.after);
    PublishingChained(w, Saving(w, AfterAll(w, s, l.after), l.nonce, l.works), l);
  }

  lemma {:induction false} HandledChained(w: World, s: Comp, m: Message, l: Luck)
    requires Chained(s)
    ensures Chained(Handled(w, s, m, l).comp)
  {
    match m
    case Shutdown => AfterAllGrows(w, s, l.after);
    case NotifyPeers => PublishingChained(w, s, l);
    case PersistNow => PersistThenPublishChained(w, s, l);
    case Of(_) => PersistThenPublishChained(w, s.(content := l.content), l);
    case Other => PersistThenPublishChained(w, s.(content := l.content), l);
    case _ =>
  }

  /** In every run, refused and failed messages included, the changes published form a chain. */
  lemma {:induction false} ChangesChain(w: World, content: Content, entry: Option<Doc>, steps: seq<Step>)
    ensures Chained(Run(w, Newborn(content, entry), steps))
  {
    if steps != [] {
      var before := Run(w, Newborn(content, entry), steps[..|steps| - 1]);
      ChangesChain(w, content, entry, steps[..|steps| - 1]);
      if steps[|steps| - 1].Receive? {
        HandledChained(w, before, steps[|steps| - 1].m, steps[|steps| - 1].l);
      }
    }
  }
}
