/** What each step does to the queue: a scan takes at most one entry out, and any other
    step appends at most one. */
module SchedulerQueue {
  import opened Wrappers
  import opened FiberModel
  import opened SchedulerState

  /** The thread that a step which appends pins the new entry to. */
  function PinOf(a: Action): ThreadId {
    match a
    case ScheduleFiber(_, _, pin) => pin
    case ScheduleCb(_, pin) => pin
    case _ => ANY_THREAD
  }

  /** A call from outside that may append to the queue. */
  predicate OutsidePush(a: Action) {
    match a
    case ScheduleFiber(who, _, _) => who.ByOutside?
    case ScheduleCb(who, _) => who.ByOutside?
    case Fire(who, _) => who.ByOutside?
    case _ => false
  }

  ghost predicate Appends(s: State, s': State, pin: ThreadId, outside: bool) {
    && s.queue <= s'.queue && |s'.queue| <= |s.queue| + 1
    && (|s'.queue| > |s.queue| ==> s'.queue[|s.queue|].thread == pin)
    && (!outside ==> s'.lastScan == s.lastScan)
  }

  lemma TaskAppends(s: State, a: Action)
    requires Enabled(s, a) && TaskStep(a)
    ensures Appends(s, Apply(s, a), ANY_THREAD, false)
  {
  }

  lemma LoopAppends(s: State, a: Action)
    requires Enabled(s, a) && LoopStep(a)
    ensures Appends(s, Apply(s, a), ANY_THREAD, false)
  {
  }

  lemma FireAppends(s: State, who: Caller, key: Key)
    requires key in s.slots
    ensures Appends(s, Fired(s, who, key), ANY_THREAD, who.ByOutside?)
  {
  }

  lemma CallAppends(s: State, a: Action)
    requires Enabled(s, a) && CallStep(a)
    ensures Appends(s, Apply(s, a), PinOf(a), OutsidePush(a))
  {
  }

  lemma QueueAppends(s: State, a: Action)
    requires Enabled(s, a) && !a.Scan?
    ensures Appends(s, Apply(s, a), PinOf(a), OutsidePush(a))
  {
    if TaskStep(a) {
      TaskAppends(s, a);
    } else if LoopStep(a) {
      LoopAppends(s, a);
    } else if a.Fire? {
      FireAppends(s, a.who, a.key);
    } else {
      CallAppends(s, a);
    }
  }

  /** A scan takes the first eligible entry, or nothing. */
  lemma ScanTakes(s: State, t: ThreadId)
    requires Enabled(s, Scan(t))
    ensures var k := FirstEligible(s.queue, s.fibers, t); var s' := Apply(s, Scan(t));
      && s'.queue == (if k < |s.queue| then Without(s.queue, k) else s.queue) && s'.lastScan == Some(t)
      && (k < |s.queue| ==> At(s', t, Holding(s.queue[k].work)))
      && s'.fibers == s.fibers
  {
  }

  /** Entry e is pinned to another thread than t, or is a fiber that executes. */
  predicate NotFor(s: State, e: Entry, t: ThreadId) {
    || (e.thread != -1 && e.thread != t)
    || (e.work.RunFiber? && e.work.fiber in s.fibers && s.fibers[e.work.fiber].state == EXEC)
  }

  predicate NothingFor(s: State, t: ThreadId) {
    forall i :: 0 <= i < |s.queue| ==> NotFor(s, s.queue[i], t)
  }

  /** A scan takes exactly the first entry that is neither pinned elsewhere nor an
      executing fiber, and finds nothing exactly when there is no such entry. */
  lemma ScanChooses(s: State, t: ThreadId)
    requires Enabled(s, Scan(t))
    ensures var k := FirstEligible(s.queue, s.fibers, t); var s' := Apply(s, Scan(t));
      && (forall i :: 0 <= i < k ==> NotFor(s, s.queue[i], t))
      && (k < |s.queue| <==> !NothingFor(s, t))
      && (k < |s.queue| ==>
            !NotFor(s, s.queue[k], t) && At(s', t, Holding(s.queue[k].work)) && s'.queue == s.queue[..k] + s.queue[k + 1..])
      && (k == |s.queue| ==> At(s', t, Empty) && s'.queue == s.queue)
  {
    var k := FirstEligible(s.queue, s.fibers, t);
    assert forall i :: 0 <= i < |s.queue| ==> Eligible(s.queue[i], s.fibers, t) == !NotFor(s, s.queue[i], t);
  }
}
