/** The callback list and the subscribers of a component: registration, removal by index, one round of
    notification, and tear-down. */
module Callbacks {
  import opened Stages
  import opened Wrappers

  /** A registration: at the head of the list or at its tail. */
  datatype Registration<F> = Registration(isHead: bool, callback: F)

  /** One invocation: the callback, the index it is told, and the notification. */
  datatype Invocation<F, N> = Invocation(callback: F, index: nat, notification: N)

  /** The callbacks registered at the given end, in order of registration. */
  function RegisteredAt<F>(rs: seq<Registration<F>>, isHead: bool): seq<F> {
    if rs == [] then []
    else
      var n := |rs| - 1;
      RegisteredAt(rs[..n], isHead) + if rs[n].isHead == isHead then [rs[n].callback] else []
  }

  function Register<F>(list: seq<F>, r: Registration<F>): seq<F> {
    if r.isHead then [r.callback] + list else list + [r.callback]
  }

  function RegisterAll<F>(list: seq<F>, rs: seq<Registration<F>>): seq<F> {
    if rs == [] then list else Register(RegisterAll(list, rs[..|rs| - 1]), rs[|rs| - 1])
  }

  /** With no removals, the list is the head registrations, latest first, then what was there, then the
      tail registrations in order. */
  lemma {:induction false} RegistrationOrder<F>(list: seq<F>, rs: seq<Registration<F>>)
    ensures RegisterAll(list, rs) == Reversed(RegisteredAt(rs, true)) + list + RegisteredAt(rs, false)
    decreases |rs|
  {
    if rs != [] {
      var n := |rs| - 1;
      RegistrationOrder(list, rs[..n]);
      ReversedGrows(RegisteredAt(rs[..n], true), rs[n].callback);
      if rs[n].isHead {
        assert RegisteredAt(rs, true) == RegisteredAt(rs[..n], true) + [rs[n].callback];
        assert RegisteredAt(rs, false) == RegisteredAt(rs[..n], false);
      } else {
        assert RegisteredAt(rs, true) == RegisteredAt(rs[..n], true);
      }
    }
  }

  /** The list without the entry at index `i`; unchanged when there is none. */
  function Without<F>(list: seq<F>, i: nat): seq<F> {
    if i < |list| then list[..i] + list[i + 1..] else list
  }

  /** The entries at odd positions. */
  function OddOnes<F>(list: seq<F>): seq<F> {
    seq(|list| / 2, k requires 0 <= k < |list| / 2 => list[2 * k + 1])
  }

  /** The odd ones among the first `2 * i` entries, then the rest: the list after `i` removals at the
      indices 0, 1, .. i - 1. */
  function Thinned<F>(list: seq<F>, i: nat): seq<F>
    requires 2 * i <= |list|
  {
    seq(i, k requires 0 <= k < i => list[2 * k + 1]) + list[2 * i..]
  }

  lemma ThinnedStep<F>(list: seq<F>, i: nat)
    requires 2 * i < |list|
    ensures |Thinned(list, i)| == |list| - i
    ensures 2 * (i + 1) <= |list| ==> Without(Thinned(list, i), i) == Thinned(list, i + 1)
    ensures 2 * (i + 1) > |list| ==> Without(Thinned(list, i), i) == OddOnes(list)
  {
    var t := Thinned(list, i);
    assert Without(t, i) == t[..i] + t[i + 1..];
  }

  class CallbackList<F(==), N> {
    var stage: Stage
    var callbacks: seq<F>
    var subscribers: map<string, nat>
    var invoked: seq<Invocation<F, N>>

    constructor ()
      ensures stage == Submitted && callbacks == [] && subscribers == map[] && invoked == []
    {
      stage, callbacks, subscribers, invoked := Submitted, [], map[], [];
    }

    method Callback(isHead: bool, callback: F) returns (ok: bool)
      modifies this`callbacks
      ensures ok <==> Rank(stage) <= Rank(Started)
      ensures callbacks == if ok then Register(old(callbacks), Registration(isHead, callback)) else old(callbacks)
    {
      if Rank(stage) > Rank(Started) {
        return false;
      }
      if isHead {
        callbacks := [callback] + callbacks;
      } else {
        callbacks := callbacks + [callback];
      }
      ok := true;
    }

    /** A sequence of registrations. */
    method CallbackAll(rs: seq<Registration<F>>)
      requires Rank(stage) <= Rank(Started)
      modifies this`callbacks
      ensures callbacks == Reversed(RegisteredAt(rs, true)) + old(callbacks) + RegisteredAt(rs, false)
    {
      for i := 0 to |rs|
        invariant callbacks == RegisterAll(old(callbacks), rs[..i])
      {
        assert rs[..i + 1][..i] == rs[..i];
        var _ := Callback(rs[i].isHead, rs[i].callback);
      }
      assert rs[..|rs|] == rs;
      RegistrationOrder(old(callbacks), rs);
    }

    method RemoveCallback(cbIndx: nat) returns (ok: bool)
      modifies this`callbacks
      ensures ok <==> cbIndx < |old(callbacks)|
      ensures callbacks == Without(old(callbacks), cbIndx)
    {
      if cbIndx >= |callbacks| {
        return false;
      }
      callbacks := callbacks[..cbIndx] + callbacks[cbIndx + 1..];
      ok := true;
    }

    /** The removals made from inside one callback. */
    method RemoveCallbacks(indices: seq<nat>)
      modifies this`callbacks
      ensures callbacks == RemoveAll(old(callbacks), indices)
    {
      for k := 0 to |indices|
        invariant callbacks == RemoveAll(old(callbacks), indices[..k])
      {
        assert indices[..k + 1][..k] == indices[..k];
        var _ := RemoveCallback(indices[k]);
      }
      assert indices[..|indices|] == indices;
    }

    method Unsubscribe(subscriber: string) returns (ok: bool)
      modifies this`subscribers
      ensures ok <==> subscriber in old(subscribers)
      ensures subscribers == old(subscribers) - {subscriber}
    {
      ok := subscriber in subscribers;
      if ok {
        subscribers := subscribers - {subscriber};
      }
    }

    /** One round of notification. While it runs, callback `i` removes the indices in `removes[i]`, so
        the list shrinks under the loop. Every callback of the list as it was is invoked, once, in
        order, with its own position. */
    method InvokeCallbacks(notification: N, removes: seq<seq<nat>>)
      requires |removes| == |callbacks|
      modifies this`callbacks, this`invoked
      ensures invoked == old(invoked) + seq(|old(callbacks)|, i requires 0 <= i < |old(callbacks)| =>
                Invocation(old(callbacks)[i], i, notification))
      ensures callbacks == RemoveRounds(old(callbacks), removes)
    {
      var callbackFuncs := callbacks;
      ghost var before := invoked;
      for cbIndx := 0 to |callbackFuncs|
        invariant |invoked| == |before| + cbIndx && invoked[..|before|] == before
        invariant forall i :: 0 <= i < cbIndx ==> invoked[|before| + i] == Invocation(callbackFuncs[i], i, notification)
        invariant callbacks == RemoveRounds(callbackFuncs, removes[..cbIndx])
      {
        invoked := invoked + [Invocation(callbackFuncs[cbIndx], cbIndx, notification)];
        RemoveCallbacks(removes[cbIndx]);
        assert removes[..cbIndx + 1][..cbIndx] == removes[..cbIndx];
      }
      assert removes[..|callbackFuncs|] == removes;
    }

    /** The range expression is evaluated once, so the loop runs once for each original callback; the
        list it removes from gets shorter. */
    method TearDown()
      modifies this`callbacks, this`subscribers
      ensures callbacks == OddOnes(old(callbacks)) && |callbacks| == |old(callbacks)| / 2
      ensures subscribers == map[]
    {
      ghost var before := callbacks;
      assert before == [] ==> OddOnes(before) == [];
      if 0 < |callbacks| {
        var n := |callbacks|;
        for cbIndx := 0 to n
          invariant if 2 * cbIndx <= n then callbacks == Thinned(before, cbIndx) else callbacks == OddOnes(before)
        {
          if 2 * cbIndx < n {
            ThinnedStep(before, cbIndx);
          } else if 2 * cbIndx == n {
            assert Thinned(before, cbIndx) == OddOnes(before);
          }
          var _ := RemoveCallback(cbIndx);
        }
      }
      var left := subscribers.Keys;
      while left != {}
        modifies this`subscribers
        invariant left == subscribers.Keys
        decreases left
      {
        var subscriber :| subscriber in left;
        var _ := Unsubscribe(subscriber);
        left := left - {subscriber};
      }
    }
  }

  function RemoveAll<F>(list: seq<F>, indices: seq<nat>): seq<F> {
    if indices == [] then list else Without(RemoveAll(list, indices[..|indices| - 1]), indices[|indices| - 1])
  }

  function RemoveRounds<F>(list: seq<F>, removes: seq<seq<nat>>): seq<F> {
    if removes == [] then list else RemoveAll(RemoveRounds(list, removes[..|removes| - 1]), removes[|removes| - 1])
  }

  /** Each callback removes the index it was told. */
  function SelfRemoving(n: nat): seq<seq<nat>> { seq(n, i requires 0 <= i < n => [i]) }

  lemma {:induction false} SelfRemovalThins<F>(list: seq<F>, n: nat)
    requires n <= |list|
    ensures RemoveRounds(list, SelfRemoving(n)) == if 2 * n <= |list| then Thinned(list, n) else OddOnes(list)
  {
    if n == 0 {
      assert Thinned(list, 0) == list;
    } else {
      SelfRemovalThins(list, n - 1);
      assert SelfRemoving(n)[..n - 1] == SelfRemoving(n - 1);
      var before := RemoveRounds(list, SelfRemoving(n - 1));
      assert [n - 1][..0] == [];
      assert RemoveAll(before, [n - 1]) == Without(before, n - 1);
      if 2 * (n - 1) < |list| {
        ThinnedStep(list, n - 1);
      } else if 2 * (n - 1) == |list| {
        assert Thinned(list, n - 1) == OddOnes(list);
      }
    }
  }

  /** Callbacks that remove themselves by the index they are told empty the list exactly when there is
      at most one of them; of more, every second one stays registered. */
  lemma SelfRemovalLeavesOddOnes<F>(list: seq<F>)
    ensures RemoveRounds(list, SelfRemoving(|list|)) == OddOnes(list)
    ensures RemoveRounds(list, SelfRemoving(|list|)) == [] <==> |list| <= 1
  {
    SelfRemovalThins(list, |list|);
    if list == [] {
      assert Thinned(list, 0) == OddOnes(list);
    }
  }
}
