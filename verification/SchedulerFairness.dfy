/** Bounded bypass: how many tasks a thread can take before an entry it may take. */
module SchedulerFairness {
  import opened FiberModel
  import opened SchedulerState
  import opened SchedulerQueue
  import opened SchedulerInvariant
  import opened SchedulerTheorems

  function ScansBy(acts: seq<Action>, t: ThreadId): nat {
    if acts == [] then 0 else (if acts[0] == Scan(t) then 1 else 0) + ScansBy(acts[1..], t)
  }

  /** Some worker takes work w during the run. */
  ghost predicate TakenDuring(s: State, acts: seq<Action>, w: Work)
    requires Run(s, acts)
    decreases |acts|
  {
    acts != [] &&
      (|| (acts[0].Scan? && At(Apply(s, acts[0]), acts[0].t, Holding(w)))
       || TakenDuring(Apply(s, acts[0]), acts[1..], w))
  }

  /** A step leaves the entry at position p there, or moves it one place forward
      because an earlier entry was taken, or takes it. */
  lemma EntryStep(s: State, a: Action, p: nat)
    requires Enabled(s, a) && p < |s.queue|
    ensures
      var s' := Apply(s, a); var e := s.queue[p];
      || (a.Scan? && At(s', a.t, Holding(e.work)))
      || (p < |s'.queue| && s'.queue[p] == e && (a.Scan? ==> !Eligible(e, s.fibers, a.t)))
      || (0 <= p - 1 < |s'.queue| && s'.queue[p - 1] == e)
  {
    if a.Scan? {
      ScanTakes(s, a.t);
      var k := FirstEligible(s.queue, s.fibers, a.t);
      assert k < p ==> Without(s.queue, k)[p - 1] == s.queue[p];
      assert p < k && k < |s.queue| ==> Without(s.queue, k)[p] == s.queue[p];
    } else {
      QueueAppends(s, a);
    }
  }

  /** The fiber that step a swaps in. */
  predicate SwapsIn(s: State, a: Action, f: FiberId) {
    || (a.Resume? && a.t in s.workers && s.workers[a.t].pc == Holding(RunFiber(f)))
    || (a.StartCb? && a.t in s.workers && CbFiberFor(s, a.t, a.f) == f)
  }

  lemma TaskSwapsIn(s: State, a: Action, f: FiberId)
    requires Enabled(s, a) && TaskStep(a) && Executing(Apply(s, a), f)
    ensures Executing(s, f) || SwapsIn(s, a, f)
  {
  }

  lemma LoopKeepsFibers(s: State, a: Action)
    requires Enabled(s, a) && LoopStep(a)
    ensures Apply(s, a).fibers == s.fibers
  {
  }

  lemma FireKeepsFibers(s: State, who: Caller, key: Key)
    requires key in s.slots
    ensures Fired(s, who, key).fibers == s.fibers
  {
  }

  lemma CallStartsNone(s: State, a: Action, f: FiberId)
    requires Enabled(s, a) && CallStep(a)
    ensures Executing(Apply(s, a), f) ==> Executing(s, f)
  {
  }

  /** A fiber starts to execute only by being swapped in. */
  lemma StartsBySwap(s: State, a: Action, f: FiberId)
    requires Enabled(s, a) && Executing(Apply(s, a), f)
    ensures Executing(s, f) || SwapsIn(s, a, f)
  {
    if a.Scan? {
      ScanTakes(s, a.t);
    } else if TaskStep(a) {
      TaskSwapsIn(s, a, f);
    } else if LoopStep(a) {
      LoopKeepsFibers(s, a);
    } else if a.Fire? {
      FireKeepsFibers(s, a.who, a.key);
    } else {
      CallStartsNone(s, a, f);
    }
  }

  /** No step swaps in a fiber whose wake-up sits in the queue. */
  lemma QueuedIsNotSwappedIn(s: State, a: Action, p: nat, f: FiberId)
    requires Core(s) && Enabled(s, a) && p < |s.queue| && s.queue[p].work == RunFiber(f) && !Executing(s, f)
    ensures !SwapsIn(s, a, f)
  {
    assert Carries(s, InQueue(p), RunFiber(f));
    assert f in s.fibers;
    if a.Resume? {
      assert !Carries(s, InHand(a.t), RunFiber(f));
    } else if a.StartCb? {
      var cb := s.workers[a.t].cbFiber;
      assert cb.Some? ==> PrivateTo(s, a.t, cb.value);
      assert !Carries(s, Yielding(a.t), RunFiber(f));
    }
  }

  /** While its wake-up sits in the queue, a fiber that does not execute cannot start to. */
  lemma QueuedFiberStaysOut(s: State, a: Action, p: nat, f: FiberId)
    requires Core(s) && Allowed(s, a) && p < |s.queue| && s.queue[p].work == RunFiber(f) && !Executing(s, f)
    ensures !Executing(Apply(s, a), f)
  {
    QueuedIsNotSwappedIn(s, a, p, f);
    if Executing(Apply(s, a), f) {
      StartsBySwap(s, a, f);
    }
  }

  /** So an entry that thread t may take now stays one it may take. */
  lemma EligibleStays(s: State, a: Action, p: nat, t: ThreadId)
    requires Core(s) && Allowed(s, a) && p < |s.queue| && Eligible(s.queue[p], s.fibers, t)
    ensures Eligible(s.queue[p], Apply(s, a).fibers, t)
  {
    if s.queue[p].work.RunFiber? {
      QueuedFiberStaysOut(s, a, p, s.queue[p].work.fiber);
    }
  }

  /** An entry at position p that thread t may take has been taken by the time t has
      scanned p + 1 times, whatever others add, take or run in between. */
  lemma {:induction false} BoundedBypass(s: State, acts: seq<Action>, t: ThreadId, p: nat)
    requires Inv(s) && Run(s, acts) && p < |s.queue| && Eligible(s.queue[p], s.fibers, t)
    requires ScansBy(acts, t) > p
    ensures TakenDuring(s, acts, s.queue[p].work)
    decreases |acts|
  {
    var s' := Apply(s, acts[0]);
    var e := s.queue[p];
    InvStep(s, acts[0]);
    EntryStep(s, acts[0], p);
    EligibleStays(s, acts[0], p, t);
    if acts[0].Scan? && At(s', acts[0].t, Holding(e.work)) {
    } else if 0 <= p - 1 < |s'.queue| && s'.queue[p - 1] == e {
      BoundedBypass(s', acts[1..], t, p - 1);
    } else {
      BoundedBypass(s', acts[1..], t, p);
    }
  }

  /** A fiber that yielded as READY is taken again once any one thread, pinned or
      not before, has scanned more often than there were entries ahead of it. */
  lemma YieldedFiberIsTakenAgain(s: State, t: ThreadId, acts: seq<Action>, u: ThreadId)
    requires Reached(s) && Enabled(s, Requeue(t)) && Run(Apply(s, Requeue(t)), acts)
    requires ScansBy(acts, u) > |s.queue|
    ensures TakenDuring(Apply(s, Requeue(t)), acts, RunFiber(s.workers[t].pc.fiber))
  {
    ReachedInv(s);
    InvStep(s, Requeue(t));
    BoundedBypass(Apply(s, Requeue(t)), acts, u, |s.queue|);
  }
}
