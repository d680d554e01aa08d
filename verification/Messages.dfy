/** The message loop of a component: the check of entity tags, the handler, persisting, publishing and the reply. */
module Messages {
  import opened Wrappers
  import opened StoreCache

  /** The exported fields of a component, other than its entity tag. */
  type Content(==, !new)

  /** What a component is and what it depends on: its name and concrete type, the hash of its fields if they
      can be hashed, the identifiers that the source of fresh ones yields, and the entries that its fields
      flatten to with the nonces of one call. */
  datatype World = World(
    name: string,
    typ: string,
    hash: Content -> Option<nat>,
    uuid: nat -> string,
    flatten: (Content, nat) -> Doc,
    persistence: bool)

  ghost predicate FreshTags(w: World) {
    && (forall i :: w.uuid(i) != "")
    && (forall i, j :: w.uuid(i) == w.uuid(j) ==> i == j)
  }

  /** The entity tag after `n` refreshes. */
  function Tag(w: World, n: nat): string { if n == 0 then "" else w.uuid(n - 1) }

  datatype Copy = Copy(name: string, typ: string, etag: string, content: Content)

  datatype Change = Change(prev: Copy, cur: Copy)

  datatype Event = Told(listener: nat, change: Change) | Replied(ok: bool)

  /** A component with its past: the hashes at each refresh of its tag, every copy made of it, the changes
      published and what its listeners and senders were handed. */
  datatype Comp = Comp(
    content: Content,
    past: seq<nat>,
    cache: Option<Copy>,
    saved: Saved,
    callbacks: seq<nat>,
    subscribers: seq<nat>,
    copies: seq<Copy>,
    changes: seq<Change>,
    log: seq<Event>)

  /** The hash stored at the last refresh. */
  function HashOf(past: seq<nat>): nat { if past == [] then 0 else past[|past| - 1] }

  function CurrentTag(w: World, s: Comp): string { Tag(w, |s.past|) }

  function Newborn(content: Content, entry: Option<Doc>): Comp {
    Comp(content, [], None, Saved(None, entry), [], [], [], [], [])
  }

  // ---------- the steps ----------

  /** UpdateComponentEtag: a new tag if the hash has changed. */
  function Refreshed(w: World, s: Comp): Comp {
    match w.hash(s.content)
    case Some(h) => if h != HashOf(s.past) then s.(past := s.past + [h]) else s
    case None => s
  }

  function CopyOf(w: World, s: Comp): Copy { Copy(w.name, w.typ, CurrentTag(w, s), s.content) }

  /** createCopy. */
  function Copied(w: World, s: Comp): Comp {
    var r := Refreshed(w, s);
    r.(copies := r.copies + [CopyOf(w, r)])
  }

  function Saving(w: World, s: Comp, nonce: nat, works: bool): Comp {
    if w.persistence then s.(saved := Persisted(s.saved, w.flatten(s.content, nonce), works)) else s
  }

  predicate SavingFails(w: World, s: Comp, nonce: nat, works: bool) {
    w.persistence && Reply(s.saved, w.flatten(s.content, nonce), works).UpdateFailed?
  }

  function Telling(listeners: seq<nat>, change: Change): seq<Event> {
    if listeners == [] then []
    else Telling(listeners[..|listeners| - 1], change) + [Told(listeners[|listeners| - 1], change)]
  }

  /** The copy that is published: a (previous, current) pair for every callback and then every subscriber. */
  function Published(w: World, s: Comp): Comp {
    var r := Copied(w, s);
    var copy := CopyOf(w, r);
    var change := Change(if r.cache.Some? then r.cache.value else copy, copy);
    r.(cache := Some(copy), changes := r.changes + [change],
       log := r.log + Telling(r.callbacks, change) + Telling(r.subscribers, change))
  }

  /** What other goroutines may do to the component while a message is handled: take a copy, mutate fields,
      change the state, which refreshes the tag, persist at the end of a lifecycle call, (un)register listeners. */
  datatype Outside =
    | CopyOut
    | Mutate(content: Content)
    | StateChange(content: Content)
    | LifecyclePersist(nonce: nat, works: bool)
    | Listeners(callbacks: seq<nat>, subscribers: seq<nat>)

  function After(w: World, s: Comp, o: Outside): Comp {
    match o
    case CopyOut => Copied(w, s)
    case Mutate(content) => s.(content := content)
    case StateChange(content) => Refreshed(w, s.(content := content))
    case LifecyclePersist(nonce, works) => Saving(w, s, nonce, works)
    case Listeners(callbacks, subscribers) => s.(callbacks := callbacks, subscribers := subscribers)
  }

  function AfterAll(w: World, s: Comp, os: seq<Outside>): Comp {
    if os == [] then s else After(w, AfterAll(w, s, os[..|os| - 1]), os[|os| - 1])
  }

  // ---------- one message ----------

  /** What a message asks for. `NotAComponent` is a component message that carries something else, `Other` any
      other message, control messages with other values included. */
  datatype Message = NoType | NoLookup | Shutdown | PersistNow | NotifyPeers | NotAComponent | Of(copy: Copy) | Other

  datatype Outcome = Fine | Failed | Panicked

  /** What is not decided by the loop: how the handler ends and what it makes of the content, what happens
      between it and persisting and between persisting and publishing, the nonces drawn and whether the
      update works, how the Stop of a shutdown ends, and whether the sender has given up. */
  datatype Luck = Luck(handler: Outcome, content: Content, after: seq<Outside>, nonce: nat, works: bool,
                       late: seq<Outside>, stop: Outcome, senderGone: bool)

  /** Whether the loop goes on to the next message, has returned, or has ended in a panic. */
  datatype Loop = Next | Returned | Broken

  datatype Handling = Handling(comp: Comp, loop: Loop)

  /** Replying to a sender that has given up panics. */
  function Answered(s: Comp, ok: bool, gone: bool): Handling {
    if gone then Handling(s, Broken) else Handling(s.(log := s.log + [Replied(ok)]), Next)
  }

  function Publishing(w: World, s: Comp, l: Luck): Handling {
    Answered(Published(w, AfterAll(w, s, l.late)), true, l.senderGone)
  }

  function PersistThenPublish(w: World, s: Comp, l: Luck): Handling {
    var t := AfterAll(w, s, l.after);
    var u := Saving(w, t, l.nonce, l.works);
    if SavingFails(w, t, l.nonce, l.works) then Answered(u, false, l.senderGone) else Publishing(w, u, l)
  }

  /** A copy of this component, of the same concrete type, that does not carry the current tag. */
  predicate Outdated(w: World, s: Comp, m: Message) {
    m.Of? && m.copy.name == w.name && m.copy.typ == w.typ && m.copy.etag != CurrentTag(w, s)
  }

  function ThroughHandler(w: World, s: Comp, l: Luck): Handling {
    var t := s.(content := l.content);
    match l.handler
    case Panicked => Handling(t, Broken)
    case Failed => Answered(t, false, l.senderGone)
    case Fine => PersistThenPublish(w, t, l)
  }

  /** A Stop that panics leaves the sender without a reply; one that fails is answered, and the loop goes on. */
  function Stopping(s: Comp, l: Luck): Handling {
    match l.stop
    case Panicked => Handling(s, Broken)
    case Failed => Answered(s, false, l.senderGone)
    case Fine =>
      var h := Answered(s, true, l.senderGone);
      if h.loop.Broken? then h else Handling(h.comp, Returned)
  }

  function Handled(w: World, s: Comp, m: Message, l: Luck): Handling {
    match m
    case NoType => Answered(s, false, l.senderGone)
    case NoLookup => Answered(s, false, l.senderGone)
    case Shutdown => Stopping(AfterAll(w, s, l.after), l)
    case PersistNow => PersistThenPublish(w, s, l)
    case NotifyPeers => Publishing(w, s, l)
    case NotAComponent => Handling(s, Broken)
    case Of(_) => if Outdated(w, s, m) then Answered(s, false, l.senderGone) else ThroughHandler(w, s, l)
    case Other => ThroughHandler(w, s, l)
  }

  // ---------- runs ----------

  /** A run of a component: messages, each with its luck, and what happens between them. */
  datatype Step = Between(o: Outside) | Receive(m: Message, l: Luck)

  function Stepped(w: World, s: Comp, step: Step): Comp {
    match step
    case Between(o) => After(w, s, o)
    case Receive(m, l) => Handled(w, s, m, l).comp
  }

  function Run(w: World, s: Comp, steps: seq<Step>): Comp {
    if steps == [] then s else Stepped(w, Run(w, s, steps[..|steps| - 1]), steps[|steps| - 1])
  }

  // ---------- the loop ----------

  class Component {
    const w: World
    const store: Persister
    var content: Content
    var etag: string
    var hash: nat
    var drawn: nat
    var componentCache: Option<Copy>
    var callbacks: seq<nat>
    var subscribers: seq<nat>
    ghost var past: seq<nat>
    ghost var copies: seq<Copy>
    ghost var changes: seq<Change>
    ghost var log: seq<Event>

    /** The stored hash and the tag are those of the last refresh. */
    ghost predicate Valid()
      reads this
    {
      hash == HashOf(past) && drawn == |past| && etag == Tag(w, drawn)
    }

    ghost function View(): Comp
      reads this, store, store.db
    {
      Comp(content, past, componentCache, store.View(), callbacks, subscribers, copies, changes, log)
    }

    constructor (w: World, content: Content, db: Database)
      ensures Valid() && this.w == w && View() == Newborn(content, db.EntryOf(w.name))
    {
      this.w, this.content, etag, hash, drawn := w, content, "", 0, 0;
      componentCache, callbacks, subscribers := None, [], [];
      past, copies, changes, log := [], [], [], [];
      store := new Persister(w.name, db);
    }

    method UpdateComponentEtag()
      requires Valid()
      modifies this`hash, this`etag, this`drawn, this`past
      ensures Valid() && View() == Refreshed(w, old(View()))
    {
      var newHash := w.hash(content);
      if newHash.None? {
        return;
      }
      if newHash.value != hash {
        hash := newHash.value;
        etag, drawn := w.uuid(drawn), drawn + 1;
        past := past + [hash];
      }
    }

    method CreateCopy() returns (copy: Copy)
      requires Valid()
      modifies this`hash, this`etag, this`drawn, this`past, this`copies
      ensures Valid() && View() == Copied(w, old(View())) && copy == CopyOf(w, View())
    {
      UpdateComponentEtag();
      copy := Copy(w.name, w.typ, etag, content);
      copies := copies + [copy];
    }

    method Persist(nonce: nat, works: bool) returns (failed: bool)
      requires Valid()
      modifies store, store.db
      ensures Valid() && View() == Saving(w, old(View()), nonce, works)
      ensures failed == SavingFails(w, old(View()), nonce, works)
    {
      failed := false;
      if w.persistence {
        var answer := store.Persist(w.flatten(content, nonce), works);
        failed := answer.UpdateFailed?;
      }
    }

    /** invokeCallbacks or notifySubscribers. */
    ghost method Tell(listeners: seq<nat>, change: Change)
      modifies this`log
      ensures log == old(log) + Telling(listeners, change)
    {
      ghost var before := log;
      for i := 0 to |listeners|
        invariant log == before + Telling(listeners[..i], change)
      {
        assert listeners[..i + 1][..i] == listeners[..i];
        log := log + [Told(listeners[i], change)];
      }
      assert listeners[..|listeners|] == listeners;
    }

    method Publish()
      requires Valid()
      modifies this
      ensures Valid() && View() == Published(w, old(View()))
    {
      var cCopy := CreateCopy();
      var prevCompObj := if componentCache.Some? then componentCache.value else cCopy;
      componentCache := Some(cCopy);
      ghost var change := Change(prevCompObj, cCopy);
      changes := changes + [change];
      Tell(callbacks, change);
      Tell(subscribers, change);
    }

    method Interfere(o: Outside)
      requires Valid()
      modifies this, store, store.db
      ensures Valid() && View() == After(w, old(View()), o)
    {
      match o
      case CopyOut => var _ := CreateCopy();
      case Mutate(c) => content := c;
      case StateChange(c) =>
        content := c;
        UpdateComponentEtag();
      case LifecyclePersist(nonce, works) => var _ := Persist(nonce, works);
      case Listeners(cbs, subs) => callbacks, subscribers := cbs, subs;
    }

    method InterfereAll(os: seq<Outside>)
      requires Valid()
      modifies this, store, store.db
      ensures Valid() && View() == AfterAll(w, old(View()), os)
    {
      ghost var before := View();
      for i := 0 to |os|
        invariant Valid() && View() == AfterAll(w, before, os[..i])
      {
        assert os[..i + 1][..i] == os[..i];
        Interfere(os[i]);
      }
      assert os[..|os|] == os;
    }

    method Answer(ok: bool, gone: bool) returns (loop: Loop)
      requires Valid()
      modifies this`log
      ensures Valid() && Handling(View(), loop) == Answered(old(View()), ok, gone)
    {
      if gone {
        return Broken;
      }
      log := log + [Replied(ok)];
      return Next;
    }

    method NotifyListeners(l: Luck) returns (loop: Loop)
      requires Valid()
      modifies this, store, store.db
      ensures Valid() && Handling(View(), loop) == Publishing(w, old(View()), l)
    {
      InterfereAll(l.late);
      Publish();
      loop := Answer(true, l.senderGone);
    }

    method PersistComponent(l: Luck) returns (loop: Loop)
      requires Valid()
      modifies this, store, store.db
      ensures Valid() && Handling(View(), loop) == PersistThenPublish(w, old(View()), l)
    {
      InterfereAll(l.after);
      var failed := Persist(l.nonce, l.works);
      if failed {
        loop := Answer(false, l.senderGone);
      } else {
        loop := NotifyListeners(l);
      }
    }

    method HandleMessage(l: Luck) returns (loop: Loop)
      requires Valid()
      modifies this, store, store.db
      ensures Valid() && Handling(View(), loop) == ThroughHandler(w, old(View()), l)
    {
      content := l.content;
      match l.handler
      case Panicked => loop := Broken;
      case Failed => loop := Answer(false, l.senderGone);
      case Fine => loop := PersistComponent(l);
    }

    /** The body of the loop. */
    method Dispatch(m: Message, l: Luck) returns (loop: Loop)
      requires Valid()
      modifies this, store, store.db
      ensures Valid() && Handling(View(), loop) == Handled(w, old(View()), m, l)
    {
      match m
      case NoType => loop := Answer(false, l.senderGone);
      case NoLookup => loop := Answer(false, l.senderGone);
      case Shutdown =>
        InterfereAll(l.after);
        if l.stop.Panicked? {
          return Broken;
        }
        loop := Answer(l.stop.Fine?, l.senderGone);
        if l.stop.Fine? && loop.Next? {
          loop := Returned;
        }
      case PersistNow => loop := PersistComponent(l);
      case NotifyPeers => loop := NotifyListeners(l);
      case NotAComponent => loop := Broken;
      case Of(copy) =>
        if copy.name == w.name && copy.typ == w.typ && etag != copy.etag {
          loop := Answer(false, l.senderGone);
        } else {
          loop := HandleMessage(l);
        }
      case Other => loop := HandleMessage(l);
    }

    /** The loop over the messages in the channel, until it is empty or the loop ends. */
    method StartMmux(queue: seq<(Message, Luck)>) returns (taken: nat, loop: Loop)
      requires Valid()
      modifies this, store, store.db
      ensures Valid() && taken <= |queue| && (loop.Next? ==> taken == |queue|)
      ensures View() == Run(w, old(View()), Steps(queue[..taken]))
      ensures forall i :: 0 <= i < taken ==>
                Handled(w, Run(w, old(View()), Steps(queue[..i])), queue[i].0, queue[i].1).loop
                == if i == taken - 1 then loop else Next
    {
      taken, loop := 0, Next;
      ghost var before := View();
      while taken < |queue| && loop.Next?
        invariant Valid() && taken <= |queue|
        invariant View() == Run(w, before, Steps(queue[..taken]))
        invariant forall i :: 0 <= i < taken ==>
                    Handled(w, Run(w, before, Steps(queue[..i])), queue[i].0, queue[i].1).loop
                    == if i == taken - 1 then loop else Next
        decreases |queue| - taken
      {
        StepsMore(queue, taken);
        loop := Dispatch(queue[taken].0, queue[taken].1);
        taken := taken + 1;
      }
    }
  }

  function Steps(queue: seq<(Message, Luck)>): (steps: seq<Step>)
    ensures |steps| == |queue|
  {
    if queue == [] then [] else Steps(queue[..|queue| - 1]) + [Receive(queue[|queue| - 1].0, queue[|queue| - 1].1)]
  }

  lemma {:induction false} StepsMore(queue: seq<(Message, Luck)>, i: nat)
    requires i < |queue|
    ensures Steps(queue[..i + 1])[..i] == Steps(queue[..i])
    ensures Steps(queue[..i + 1])[i] == Receive(queue[i].0, queue[i].1)
  {
    assert queue[..i + 1][..i] == queue[..i];
  }
}
