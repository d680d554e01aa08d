/** The protocol between the callers of Add and the one worker of a container: a queue of capacity one
    towards the worker, an unbuffered channel back, and any number of callers. */
module Activation {
  import opened Runs

  /** The result of activating the component that `caller` added. */
  datatype Outcome = Outcome(caller: nat, ok: bool)

  datatype Worker = Resting | Activating(caller: nat) | Answering(outcome: Outcome)

  /** Callers are numbered in order of arrival. One that is `sending` has not got its component into the
      queue; one that is `waiting` has, and waits for an answer. `sent`, `taken`, `produced` and
      `received` are the histories of the two channels. */
  datatype Sys = Sys(
    next: nat,
    sending: set<nat>,
    waiting: set<nat>,
    returned: map<nat, Outcome>,
    queue: seq<nat>,
    worker: Worker,
    sent: seq<nat>,
    taken: seq<nat>,
    produced: seq<Outcome>,
    received: seq<Outcome>,
    overlapped: bool)

  const CAPACITY := 1
  const INITIAL := Sys(0, {}, {}, map[], [], Resting, [], [], [], [], false)

  datatype Step = Arrive | Send(caller: nat) | Take | Finish(ok: bool) | Deliver(caller: nat)

  predicate Enabled(s: Sys, step: Step) {
    match step
    case Arrive => true
    case Send(i) => i in s.sending && |s.queue| < CAPACITY
    case Take => s.worker.Resting? && s.queue != []
    case Finish(_) => s.worker.Activating?
    case Deliver(i) => s.worker.Answering? && i in s.waiting
  }

  function Apply(s: Sys, step: Step): Sys
    requires Enabled(s, step)
  {
    match step
    case Arrive => s.(next := s.next + 1, sending := s.sending + {s.next})
    case Send(i) =>
      s.(sending := s.sending - {i}, waiting := s.waiting + {i}, queue := s.queue + [i], sent := s.sent + [i],
         overlapped := s.overlapped || s.waiting != {})
    case Take => s.(queue := s.queue[1..], taken := s.taken + [s.queue[0]], worker := Activating(s.queue[0]))
    case Finish(ok) =>
      var o := Outcome(s.worker.caller, ok);
      s.(worker := Answering(o), produced := s.produced + [o])
    case Deliver(i) =>
      s.(waiting := s.waiting - {i}, returned := s.returned[i := s.worker.outcome], worker := Resting,
         received := s.received + [s.worker.outcome])
  }

  predicate Next(s: Sys, step: Step, t: Sys) { Enabled(s, step) && t == Apply(s, step) }

  /** The run is one of the container from its first Add, and has led to `s`. */
  ghost predicate Leads(run: Run<Sys, Step>, s: Sys) { Connects(run, Next, INITIAL, s) }

  // ---------- what every step keeps ----------

  function Busy(w: Worker): nat { if w.Resting? then 0 else 1 }

  function Unanswered(w: Worker): seq<Outcome> { if w.Answering? then [w.outcome] else [] }

  /** Each caller is in one place, and those waiting are as many as the components queued or in the
      worker's hands. */
  ghost predicate Balanced(s: Sys) {
    && (forall i :: i in s.sending || i in s.waiting || i in s.returned <==> 0 <= i < s.next)
    && s.sending !! s.waiting && s.sending !! s.returned.Keys && s.waiting !! s.returned.Keys
    && |s.waiting| == |s.queue| + Busy(s.worker)
    && |s.queue| <= CAPACITY
  }

  /** Components are taken in the order they were sent, and no result is lost or made up. */
  ghost predicate Conserved(s: Sys) {
    s.sent == s.taken + s.queue && s.produced == s.received + Unanswered(s.worker)
  }

  /** As long as no two callers waited at once, whoever is waiting is whom the worker works for. */
  ghost predicate Matched(s: Sys) {
    && |s.waiting| <= 1
    && (forall k :: 0 <= k < |s.queue| ==> s.queue[k] in s.waiting)
    && (s.worker.Activating? ==> s.worker.caller in s.waiting)
    && (s.worker.Answering? ==> s.worker.outcome.caller in s.waiting)
    && (forall i :: i in s.returned ==> s.returned[i].caller == i)
  }

  ghost predicate Inv(s: Sys) {
    Balanced(s) && Conserved(s) && (s.overlapped || Matched(s))
  }

  lemma OneOnly(s: set<nat>, i: nat, j: nat)
    requires i in s && j in s && |s| <= 1
    ensures i == j
  {
    if i != j {
      assert |{i, j}| == 2;
      Larger({i, j}, s);
    }
  }

  lemma {:induction false} Larger(a: set<nat>, b: set<nat>)
    requires a <= b
    ensures |a| <= |b|
    decreases a
  {
    if a != {} {
      var x :| x in a;
      Larger(a - {x}, b - {x});
    }
  }

  lemma SendBalanced(s: Sys, i: nat)
    requires Balanced(s) && Enabled(s, Send(i))
    ensures Balanced(Apply(s, Send(i)))
  {
    assert i !in s.waiting && i !in s.returned.Keys;
    assert |s.waiting + {i}| == |s.waiting| + 1;
  }

  lemma DeliverBalanced(s: Sys, i: nat)
    requires Balanced(s) && Enabled(s, Deliver(i))
    ensures Balanced(Apply(s, Deliver(i)))
  {
    assert i !in s.sending;
    assert s.returned[i := s.worker.outcome].Keys == s.returned.Keys + {i};
    assert |s.waiting - {i}| == |s.waiting| - 1;
  }

  lemma ArriveBalanced(s: Sys)
    requires Balanced(s)
    ensures Balanced(Apply(s, Arrive))
  {
    assert s.next !in s.sending && s.next !in s.waiting && s.next !in s.returned;
  }

  lemma BalanceKept(s: Sys, step: Step)
    requires Balanced(s) && Enabled(s, step)
    ensures Balanced(Apply(s, step))
  {
    match step
    case Arrive => ArriveBalanced(s);
    case Send(i) => SendBalanced(s, i);
    case Deliver(i) => DeliverBalanced(s, i);
    case _ =>
  }

  lemma MatchKept(s: Sys, step: Step)
    requires Balanced(s) && Matched(s) && Enabled(s, step)
    requires step.Send? ==> s.waiting == {}
    ensures Matched(Apply(s, step))
  {
    match step
    case Arrive =>
    case Send(i) => assert |s.queue| + Busy(s.worker) == 0;
    case Take =>
    case Finish(_) =>
    case Deliver(i) =>
      OneOnly(s.waiting, i, s.worker.outcome.caller);
      assert |s.queue| == 0;
  }

  lemma StepKeeps(s: Sys, step: Step)
    requires Inv(s) && Enabled(s, step)
    ensures Inv(Apply(s, step))
  {
    BalanceKept(s, step);
    if !Apply(s, step).overlapped {
      MatchKept(s, step);
    }
    if step.Take? {
      assert s.taken + s.queue == s.taken + [s.queue[0]] + s.queue[1..];
    }
  }

  lemma StepsKeep(inv: Sys -> bool, next: (Sys, Step, Sys) -> bool)
    requires inv == Inv && next == Next
    ensures Inductive(inv, next)
  {
    forall s, step, t | inv(s) && next(s, step, t)
      ensures inv(t)
    {
      StepKeeps(s, step);
    }
  }

  lemma RunKeeps(run: Run<Sys, Step>, s: Sys)
    requires Leads(run, s)
    ensures Inv(s)
  {
    InitialInv();
    StepsKeep(Inv, Next);
    Kept(run, Next, INITIAL, s, Inv);
  }

  lemma InitialInv()
    ensures Inv(INITIAL)
  {
  }

  // ---------- what holds of every run ----------

  /** The worker always has a receiver, components are activated in the order they entered the queue,
      and the results received are those produced but for the one in hand. */
  lemma ProtocolHolds(run: Run<Sys, Step>, s: Sys)
    requires Leads(run, s)
    ensures |s.waiting| == |s.queue| + Busy(s.worker)
    ensures s.worker.Answering? ==> exists i :: Enabled(s, Deliver(i))
    ensures s.taken <= s.sent
    ensures multiset(s.produced) == multiset(s.received) + multiset(Unanswered(s.worker))
  {
    RunKeeps(run, s);
    if s.worker.Answering? {
      assert s.waiting != {};
      var i :| i in s.waiting;
      assert Enabled(s, Deliver(i));
    }
  }

  /** The steps still due to the callers present. */
  function Due(s: Sys): nat {
    4 * |s.sending| + 3 * |s.queue| + if s.worker.Activating? then 2 else if s.worker.Answering? then 1 else 0
  }

  /** Some step other than an arrival is enabled as long as a caller has not returned, and each such step
      brings the end one closer; so with no further arrivals every caller gets an answer. */
  lemma Progress(run: Run<Sys, Step>, s: Sys) returns (step: Step)
    requires Leads(run, s)
    ensures Due(s) == 0 <==> s.sending == {} && s.waiting == {}
    ensures Due(s) != 0 ==> !step.Arrive? && Enabled(s, step)
  {
    RunKeeps(run, s);
    step := Arrive;
    if s.worker.Activating? {
      step := Finish(true);
    } else if s.worker.Answering? {
      var i :| i in s.waiting;
      step := Deliver(i);
    } else if s.queue != [] {
      step := Take;
    } else if s.sending != {} {
      var i :| i in s.sending;
      step := Send(i);
    }
  }

  lemma StepPays(s: Sys, step: Step)
    requires Balanced(s) && Enabled(s, step) && !step.Arrive?
    ensures Due(Apply(s, step)) == Due(s) - 1
  {
  }

  /** If no caller had to wait beside another, every answer went to the caller it was for. */
  lemma OwnAnswer(run: Run<Sys, Step>, s: Sys)
    requires Leads(run, s) && !s.overlapped
    ensures forall i :: i in s.returned ==> s.returned[i].caller == i
  {
    RunKeeps(run, s);
  }

  lemma StepThen(run: Run<Sys, Step>, s: Sys, step: Step) returns (longer: Run<Sys, Step>, t: Sys)
    requires Leads(run, s) && Enabled(s, step)
    ensures t == Apply(s, step) && Leads(longer, t) && longer.steps == run.steps + [step]
  {
    t := Apply(s, step);
    assert Next(s, step, t);
    longer := OneStepMore(run, Next, INITIAL, s, step, t);
  }

  /** Otherwise two callers wait at once, and from there the run can go on so that one of them is given
      the other's result: Add then answers an error for a component that was activated, or nil for one
      that was not. */
  lemma AnswersCanCross(run: Run<Sys, Step>, s: Sys, ok: bool) returns (longer: Run<Sys, Step>, t: Sys, i: nat)
    requires Leads(run, s) && 2 <= |s.waiting|
    ensures Leads(longer, t) && run.steps <= longer.steps
    ensures i in t.returned && t.returned[i].caller != i && (t.returned[i].ok == ok || s.worker.Answering?)
  {
    RunKeeps(run, s);
    longer, t := run, s;
    if t.worker.Resting? {
      longer, t := StepThen(longer, t, Take);
    }
    if t.worker.Activating? {
      longer, t := StepThen(longer, t, Finish(ok));
    }
    var owner := t.worker.outcome.caller;
    if t.waiting <= {owner} {
      Larger(t.waiting, {owner});
      assert false;
    }
    i :| i in t.waiting && i != owner;
    longer, t := StepThen(longer, t, Deliver(i));
  }
}
