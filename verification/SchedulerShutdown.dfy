/** Shutting down: READY fibers are never forgotten, what can remain in the queue
    when all workers have left, and when `stopping()` stays true. */
module SchedulerShutdown {
  import opened Wrappers
  import opened FiberModel
  import opened SchedulerState
  import opened SchedulerInvariant
  import opened SchedulerCounts
  import opened SchedulerJobs
  import opened SchedulerQueue

  // ---------------------------------------------------------------- READY fibers

  predicate IsReady(s: State, f: FiberId) {
    f in s.fibers && s.fibers[f].state == READY
  }

  /** f is in the queue, in a worker's hand, or about to be requeued. */
  ghost predicate Awake(s: State, f: FiberId) {
    exists src: Source :: !src.InSlot? && Carries(s, src, RunFiber(f))
  }

  ghost predicate ReadyAwake(s: State) {
    forall f :: IsReady(s, f) ==> Awake(s, f)
  }

  /** The wake-up of f at src is still there, or f is READY no longer. */
  ghost predicate AwakeAt(s': State, src: Source, f: FiberId) {
    IsReady(s', f) ==> Carries(s', src, RunFiber(f))
  }

  /** Only a requeueing takes away the wake-up of a fiber that stays READY. */
  lemma TaskStaysAwake(s: State, a: Action, src: Source, f: FiberId)
    requires Enabled(s, a) && TaskStep(a) && !a.Requeue?
    requires a.YieldReady? ==> s.workers[a.t].pc.fiber != f
    requires Carries(s, src, RunFiber(f)) && !src.InSlot?
    ensures AwakeAt(Apply(s, a), src, f)
  {
  }

  lemma LoopStaysAwake(s: State, a: Action, src: Source, f: FiberId)
    requires Enabled(s, a) && LoopStep(a) && Carries(s, src, RunFiber(f)) && !src.InSlot?
    ensures AwakeAt(Apply(s, a), src, f)
  {
  }

  lemma CallStaysAwake(s: State, a: Action, src: Source, f: FiberId)
    requires Enabled(s, a) && CallStep(a) && Carries(s, src, RunFiber(f)) && !src.InSlot?
    ensures AwakeAt(Apply(s, a), src, f)
  {
  }

  lemma FireStaysAwake(s: State, who: Caller, key: Key, src: Source, f: FiberId)
    requires key in s.slots && Carries(s, src, RunFiber(f)) && !src.InSlot?
    ensures AwakeAt(Fired(s, who, key), src, f)
  {
  }

  lemma RequeueKeepsAwake(s: State, t: ThreadId, src: Source, f: FiberId)
    requires Inspects(s, t) && Carries(s, src, RunFiber(f))
    ensures Carries(Requeued(s, t), if src == Yielding(t) then InQueue(|s.queue|) else src, RunFiber(f))
  {
  }

  /** A scan moves a wake-up from the queue to the worker's hand, or leaves it. */
  lemma ScanKeepsAwake(s: State, t: ThreadId, src: Source, f: FiberId)
    requires Core(s) && At(s, t, Head) && Carries(s, src, RunFiber(f)) && !src.InSlot?
    ensures Awake(Scanned(s, t), f)
  {
    var k := FirstEligible(s.queue, s.fibers, t);
    if k < |s.queue| {
      TakeLosesNothing(s, t, k, src, RunFiber(f));
    } else {
      assert Carries(Scanned(s, t), src, RunFiber(f));
    }
  }

  /** A fiber becomes READY only by its own yield. */
  predicate YieldsReady(s: State, a: Action, f: FiberId) {
    a.YieldReady? && a.t in s.workers && s.workers[a.t].pc.Running? && s.workers[a.t].pc.fiber == f
  }

  lemma TaskReadies(s: State, a: Action, f: FiberId)
    requires Enabled(s, a) && TaskStep(a) && IsReady(Apply(s, a), f)
    ensures IsReady(s, f) || YieldsReady(s, a, f)
  {
  }

  lemma LoopReadies(s: State, a: Action, f: FiberId)
    requires Enabled(s, a) && LoopStep(a) && IsReady(Apply(s, a), f)
    ensures IsReady(s, f)
  {
  }

  lemma CallReadies(s: State, a: Action, f: FiberId)
    requires Enabled(s, a) && CallStep(a) && IsReady(Apply(s, a), f)
    ensures IsReady(s, f)
  {
  }

  lemma FireReadies(s: State, who: Caller, key: Key, f: FiberId)
    requires key in s.slots && IsReady(Fired(s, who, key), f)
    ensures IsReady(s, f)
  {
  }

  lemma BecomesReady(s: State, a: Action, f: FiberId)
    requires Enabled(s, a) && IsReady(Apply(s, a), f) && !IsReady(s, f)
    ensures YieldsReady(s, a, f)
  {
    if a.Scan? {
      ScanTakes(s, a.t);
    } else if TaskStep(a) {
      TaskReadies(s, a, f);
    } else if LoopStep(a) {
      LoopReadies(s, a, f);
    } else if a.Fire? {
      FireReadies(s, a.who, a.key, f);
    } else {
      CallReadies(s, a, f);
    }
  }

  lemma YieldIsAwake(s: State, t: ThreadId)
    requires Executes(s, t)
    ensures Awake(YieldedReady(s, t), s.workers[t].pc.fiber)
  {
    assert Carries(YieldedReady(s, t), Yielding(t), RunFiber(s.workers[t].pc.fiber));
  }

  lemma ReadyAwakeStep(s: State, a: Action)
    requires Core(s) && ReadyAwake(s) && Allowed(s, a)
    ensures ReadyAwake(Apply(s, a))
  {
    var s' := Apply(s, a);
    forall f | IsReady(s', f) ensures Awake(s', f) {
      if IsReady(s, f) {
        assert Awake(s, f);
        var src: Source :| !src.InSlot? && Carries(s, src, RunFiber(f));
        MovesAwake(s, a, src, f);
      } else {
        BecomesReady(s, a, f);
        YieldIsAwake(s, a.t);
      }
    }
  }

  lemma MovesAwake(s: State, a: Action, src: Source, f: FiberId)
    requires Core(s) && Allowed(s, a) && IsReady(s, f)
    requires Carries(s, src, RunFiber(f)) && !src.InSlot? && IsReady(Apply(s, a), f)
    ensures Awake(Apply(s, a), f)
  {
    if a.Scan? {
      ScanKeepsAwake(s, a.t, src, f);
    } else if a.Requeue? {
      RequeueKeepsAwake(s, a.t, src, f);
    } else if TaskStep(a) {
      assert a.YieldReady? ==> RunBy(s, s.workers[a.t].pc.fiber, a.t);
      TaskStaysAwake(s, a, src, f);
    } else if LoopStep(a) {
      LoopStaysAwake(s, a, src, f);
    } else if a.Fire? {
      FireStaysAwake(s, a.who, a.key, src, f);
    } else {
      CallStaysAwake(s, a, src, f);
    }
  }

  // ---------------------------------------------------------------- draining

  /** The worker has left `run` or is bound to leave without another scan. */
  predicate Through(w: Worker) {
    w.pc == Left || (w.pc == Empty && w.idle == TERM)
  }

  ghost predicate AllThrough(s: State) {
    forall t :: t in s.workers ==> Through(s.workers[t])
  }

  ghost predicate PinnedAway(s: State, t: ThreadId) {
    forall i :: 0 <= i < |s.queue| ==> s.queue[i].thread != ANY_THREAD && s.queue[i].thread != t
  }

  /** Once nobody will scan again, what is left in the queue is pinned to threads
      other than the last one that scanned. */
  ghost predicate Drained(s: State) {
    s.lastScan.Some? && AllThrough(s) ==> PinnedAway(s, s.lastScan.value)
  }

  /** Only a scan or an exit brings a worker through. */
  lemma BecomesThrough(s: State, a: Action, t: ThreadId)
    requires Enabled(s, a) && Mover(a) == Some(t)
    requires t in s.workers && t in Apply(s, a).workers && Through(Apply(s, a).workers[t])
    ensures a.Scan? || a.Exit?
    ensures a.Exit? ==> Through(s.workers[t]) && Apply(s, a).queue == s.queue && Apply(s, a).lastScan == s.lastScan
  {
  }

  /** When no worker is in user code or in the event loop, calls come from outside. */
  lemma CallsFromOutside(s: State, a: Action)
    requires Enabled(s, a) && Mover(a) == None && AllThrough(s)
    ensures Apply(s, a).lastScan == None || (Apply(s, a).queue == s.queue && Apply(s, a).lastScan == s.lastScan)
  {
  }

  lemma LastScanDrains(s: State, t: ThreadId)
    requires Core(s) && At(s, t, Head) && FirstEligible(s.queue, s.fibers, t) == |s.queue|
    requires AllThrough(Scanned(s, t))
    ensures PinnedAway(s, t)
  {
    forall i | 0 <= i < |s.queue| ensures s.queue[i].thread != ANY_THREAD && s.queue[i].thread != t {
      assert !Eligible(s.queue[i], s.fibers, t);
      forall f, u ensures !RunBy(s, f, u) {
        assert u in s.workers && u != t ==> Through(Scanned(s, t).workers[u]);
      }
      assert s.queue[i].work.RunFiber? ==> !Executing(s, s.queue[i].work.fiber);
    }
  }

  lemma DrainedStep(s: State, a: Action)
    requires Core(s) && Drained(s) && Enabled(s, a)
    ensures Drained(Apply(s, a))
  {
    var s' := Apply(s, a);
    OneMoves(s, a);
    if s'.lastScan.Some? && AllThrough(s') {
      if Mover(a) == None {
        CallsFromOutside(s, a);
      } else {
        var t := Mover(a).value;
        BecomesThrough(s, a, t);
        if a.Scan? {
          LastScanDrains(s, t);
        } else {
          forall u | u in s.workers ensures Through(s.workers[u]) {
            assert Through(s'.workers[u]);
          }
        }
      }
    }
  }

  // ---------------------------------------------------------------- quiescence

  /** Worker t has lowered the active counter and has not yet requeued a READY fiber. */
  predicate InWindow(s: State, t: ThreadId) {
    Inspects(s, t) && s.fibers[s.workers[t].pc.fiber].state == READY
  }

  ghost predicate Quiescent(s: State) {
    Stopping(s) && forall t :: !InWindow(s, t)
  }

  /** Calls that bring new work, or a restart, from outside the scheduler. */
  predicate External(a: Action) {
    match a
    case ScheduleFiber(who, _, _) => who.ByOutside?
    case ScheduleCb(who, _) => who.ByOutside?
    case ArmCb(who, _) => who.ByOutside?
    case ClearStopFlag => true
    case _ => false
  }

  /** With the active counter at zero no worker holds, runs or is leaving a task. */
  lemma NobodyActive(s: State)
    requires Counts(s) && s.active == 0
    ensures forall t :: t in s.workers ==> !CountedActive(s.workers[t].pc)
  {
    assert ActiveSet(s.workers) == {};
    assert forall t :: t in s.workers && CountedActive(s.workers[t].pc) ==> t in ActiveSet(s.workers);
  }

  /** With the pending counter at zero there is no event slot that could fire. */
  lemma NothingPending(s: State)
    requires Counts(s) && s.pending == 0
    ensures s.slots == map[]
  {
  }

  /** Quiescent, and so nobody has a task and no event can fire. */
  ghost predicate AtRest(s: State) {
    Quiescent(s) && s.slots == map[] && forall t :: t in s.workers ==> !CountedActive(s.workers[t].pc)
  }

  /** At rest a worker with a task can only be letting go of an ended fiber, and calls
      that bring no work from outside only create fibers or set flags. */
  lemma RestLimits(s: State, a: Action)
    requires AtRest(s) && Enabled(s, a) && !External(a)
    ensures TaskStep(a) ==> a.Settle?
    ensures CallStep(a) ==> a.NewFiber? || a.SetAutoStop? || a.SetStopFlag?
    ensures !a.Fire?
  {
    forall t ensures a != Requeue(t) {
      assert !InWindow(s, t);
    }
  }

  lemma ScanKeepsQuiescent(s: State, t: ThreadId)
    requires Quiescent(s) && At(s, t, Head)
    ensures Quiescent(Scanned(s, t))
  {
    forall u ensures !InWindow(Scanned(s, t), u) {
      assert !InWindow(s, u);
    }
  }

  lemma SettleKeepsQuiescent(s: State, t: ThreadId)
    requires Quiescent(s) && Enabled(s, Settle(t))
    ensures Quiescent(Settled(s, t))
  {
    forall u ensures !InWindow(Settled(s, t), u) {
      assert !InWindow(s, u);
    }
  }

  lemma LoopKeepsQuiescent(s: State, a: Action)
    requires Quiescent(s) && Enabled(s, a) && LoopStep(a)
    ensures Quiescent(Apply(s, a))
  {
    forall u ensures !InWindow(Apply(s, a), u) {
      assert !InWindow(s, u);
    }
  }

  lemma CallKeepsQuiescent(s: State, a: Action)
    requires Core(s) && Quiescent(s) && Enabled(s, a) && (a.NewFiber? || a.SetAutoStop? || a.SetStopFlag?)
    ensures Quiescent(Apply(s, a))
  {
    forall u ensures !InWindow(Apply(s, a), u) {
      assert !InWindow(s, u);
      assert u in s.workers && s.workers[u].pc.Done? ==> Mentions(s.workers[u].pc, s.workers[u].pc.fiber);
    }
  }

  lemma QuiescenceStep(s: State, a: Action)
    requires Core(s) && Counts(s) && Quiescent(s) && Enabled(s, a) && !External(a)
    ensures Quiescent(Apply(s, a))
  {
    NobodyActive(s);
    NothingPending(s);
    RestLimits(s, a);
    if a.Scan? {
      ScanKeepsQuiescent(s, a.t);
    } else if TaskStep(a) {
      SettleKeepsQuiescent(s, a.t);
    } else if LoopStep(a) {
      LoopKeepsQuiescent(s, a);
    } else {
      CallKeepsQuiescent(s, a);
    }
  }

  /** In the window, the next step of the worker ends the quiescence. */
  lemma WindowEndsStopping(s: State, t: ThreadId)
    requires InWindow(s, t)
    ensures Run(s, [Requeue(t)]) && !Stopping(After(s, [Requeue(t)]))
  {
    var s' := Apply(s, Requeue(t));
    assert Run(s', []);
    assert [Requeue(t)][1..] == [];
    assert After(s, [Requeue(t)]) == s';
    assert |s'.queue| > 0;
  }
}
