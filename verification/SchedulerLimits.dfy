/** What the scheduler does not promise: runs that show why the conditions in
    SchedulerTheorems are there. */
module SchedulerLimits {
  import opened Wrappers
  import opened FiberModel
  import opened SchedulerState
  import opened SchedulerInvariant
  import opened SchedulerTheorems
  import opened SchedulerRuns

  /** Two workers t and u of a scheduler that was told to stop, and the one fiber 0. */
  ghost predicate Scene(s: State, queue: seq<Entry>, fs: FiberState, active: int,
                        t: ThreadId, wt: Worker, u: ThreadId, wu: Worker)
  {
    && s.queue == queue && s.active == active
    && s.slots == map[] && s.pending == 0 && s.autoStop && s.stopFlag
    && s.fibers.Keys == {0} && s.fibers[0].state == fs
    && t != u && s.workers.Keys == {t, u} && s.workers[t] == wt && s.workers[u] == wu
  }

  function W(pc: Pc, idle: FiberState): Worker {
    Worker(pc, None, idle)
  }

  const WAKE := Entry(RunFiber(0), ANY_THREAD)

  lemma ToldToStop() returns (s: State)
    ensures Reached(s) && s == Init({1, 2}).(autoStop := true)
  {
    var a := Init({1, 2});
    assert Run(a, []) && After(a, []) == a;
    s := Extend(a, SetAutoStop);
  }

  lemma OneFiber() returns (s: State)
    ensures Reached(s) && Scene(s, [], INIT, 0, 1, W(Outside, INIT), 2, W(Outside, INIT))
  {
    var a := ToldToStop();
    s := Extend(a, NewFiber(0));
  }

  lemma OneWake() returns (s: State)
    ensures Reached(s) && Scene(s, [WAKE], INIT, 0, 1, W(Outside, INIT), 2, W(Outside, INIT))
  {
    var before := OneFiber();
    assert Free(before, 0);
    s := Extend(before, ScheduleFiber(ByOutside, 0, ANY_THREAD));
  }

  lemma BothWorkersReady() returns (s: State)
    ensures Reached(s) && Scene(s, [WAKE], INIT, 0, 1, W(Head, INIT), 2, W(Head, INIT))
  {
    var a := OneWake();
    var b := Extend(a, Enter(1));
    assert Scene(b, [WAKE], INIT, 0, 1, W(Head, INIT), 2, W(Outside, INIT));
    s := Extend(b, Enter(2));
  }

  // ---------------------------------------------------------------- a second wake-up

  lemma TakeWake(s: State, queue: seq<Entry>, fs: FiberState, active: int, t: ThreadId, i: FiberState, u: ThreadId, wu: Worker)
    returns (s': State)
    requires Scene(s, [WAKE] + queue, fs, active, t, W(Head, i), u, wu) && fs != EXEC
    ensures Step(s, Scan(t), s')
    ensures Scene(s', queue, fs, active + 1, t, W(Holding(RunFiber(0)), i), u, wu)
  {
    assert s.queue[0] == WAKE;
    assert FirstEligible(s.queue, s.fibers, t) == 0;
    s' := Taken(s, t, 0);
  }

  lemma ResumeWake(s: State, fs: FiberState, active: int, t: ThreadId, i: FiberState, u: ThreadId, wu: Worker)
    returns (s': State)
    requires Scene(s, [], fs, active, t, W(Holding(RunFiber(0)), i), u, wu) && !Dead(fs)
    ensures Step(s, Resume(t), s')
    ensures Scene(s', [], EXEC, active, t, W(Running(0, false), i), u, wu)
  {
    s' := Resumed(s, t);
  }

  lemma WakeAgain(s: State) returns (s': State)
    requires Scene(s, [WAKE], INIT, 0, 1, W(Head, INIT), 2, W(Head, INIT))
    ensures Enabled(s, ScheduleFiber(ByOutside, 0, ANY_THREAD))
    ensures s' == Apply(s, ScheduleFiber(ByOutside, 0, ANY_THREAD))
    ensures Scene(s', [WAKE] + [WAKE], INIT, 0, 1, W(Head, INIT), 2, W(Head, INIT))
  {
    s' := Push(s, ByOutside, RunFiber(0), ANY_THREAD);
  }

  /** Why a fiber may have only one wake-up: schedule a queued fiber a second time,
      and steps the code allows lead worker 2 to swap in a fiber that worker 1 is
      executing, which is what `swapIn` asserts against. */
  lemma DoubleWakeBreaksSwapIn() returns (before: State, woken: State, one: State, two: State, both: State)
    ensures Reached(before) && Enabled(before, ScheduleFiber(ByOutside, 0, ANY_THREAD))
    ensures woken == Apply(before, ScheduleFiber(ByOutside, 0, ANY_THREAD))
    ensures Step(woken, Scan(1), one) && Step(one, Scan(2), two) && Step(two, Resume(1), both)
    ensures Executing(both, 0) && RunBy(both, 0, 1)
    ensures HoldsFiber(both, 2) && both.workers[2].pc.work == RunFiber(0) && Enabled(both, Resume(2))
  {
    before := BothWorkersReady();
    woken := WakeAgain(before);
    one := TakeWake(woken, [WAKE], INIT, 0, 1, INIT, 2, W(Head, INIT));
    assert [WAKE] + [] == [WAKE];
    two := TakeWake(one, [], INIT, 1, 2, INIT, 1, W(Holding(RunFiber(0)), INIT));
    both := ResumeWake(two, INIT, 2, 1, INIT, 2, W(Holding(RunFiber(0)), INIT));
  }

  /** Worker 2 is about to swap in fiber 0, which worker 1 is executing. */
  predicate SwapsInExecuting(s: State) {
    Executing(s, 0) && RunBy(s, 0, 1) && HoldsFiber(s, 2) && s.workers[2].pc.work == RunFiber(0)
  }

  lemma WokenWhileRunning() returns (s: State)
    ensures Reached(s) && Scene(s, [WAKE], EXEC, 1, 1, W(Running(0, false), INIT), 2, W(Head, INIT))
  {
    var a := BothWorkersReady();
    var b := RunWake(a, INIT, 1, INIT, 2, W(Head, INIT));
    assert Free(b, 0);
    s := Extend(b, ScheduleFiber(ByOutside, 0, ANY_THREAD));
  }

  lemma RequeueTwice(s: State) returns (s': State)
    requires Scene(s, [WAKE], READY, 1, 1, W(Back(0, false), INIT), 2, W(Head, INIT))
    ensures Leads(s, s') && Scene(s', [WAKE] + [WAKE], READY, 0, 1, W(Head, INIT), 2, W(Head, INIT))
  {
    var a := ActiveLowered(s, 1);
    LeadsByOne(s, LowerActive(1));
    s' := Requeued(a, 1);
    LeadsByOne(a, Requeue(1));
    LeadsOn(s, a, s');
  }

  lemma TwoWakesCollide(s: State) returns (s': State)
    requires Scene(s, [WAKE] + [WAKE], READY, 0, 1, W(Head, INIT), 2, W(Head, INIT))
    ensures Leads(s, s') && SwapsInExecuting(s')
  {
    var a := TakeWake(s, [WAKE], READY, 0, 1, INIT, 2, W(Head, INIT));
    LeadsByOne(s, Scan(1));
    assert [WAKE] + [] == [WAKE];
    var b := TakeWake(a, [], READY, 1, 2, INIT, 1, W(Holding(RunFiber(0)), INIT));
    LeadsByOne(a, Scan(2));
    LeadsOn(s, a, b);
    s' := ResumeWake(b, READY, 2, 1, INIT, 2, W(Holding(RunFiber(0)), INIT));
    LeadsByOne(b, Resume(1));
    LeadsOn(s, b, s');
  }

  /** Why a fiber with a wake-up outstanding may not yield as READY: it is queued twice. */
  lemma ReadyWithWakeBreaksSwapIn() returns (before: State, after: State)
    ensures Reached(before) && Enabled(before, YieldReady(1))
    ensures Leads(Apply(before, YieldReady(1)), after) && SwapsInExecuting(after)
  {
    before := WokenWhileRunning();
    var a := YieldedReady(before, 1);
    var b := RequeueTwice(a);
    after := TwoWakesCollide(b);
    LeadsOn(a, b, after);
  }

  // ---------------------------------------------------------------- callback fibers

  /** A worker with a callback fiber. */
  function C(pc: Pc): Worker {
    Worker(pc, Some(0), INIT)
  }

  /** Worker 2 is about to swap in fiber 0, which is live and has nothing to run. */
  predicate SwapsInEmpty(s: State) {
    HoldsFiber(s, 2) && s.workers[2].pc.work == RunFiber(0) && s.fibers[0] == FiberRec(INIT, None)
  }

  lemma CallbackQueued() returns (s: State)
    ensures Reached(s) && s == PushNew(Init({1, 2}).(autoStop := true), ByOutside, ANY_THREAD)
  {
    var a := ToldToStop();
    s := Extend(a, ScheduleCb(ByOutside, ANY_THREAD));
  }

  /** Workers 1 and 2 of a scheduler with no fiber yet. */
  ghost predicate Before(s: State, queue: seq<Entry>, active: int, w1: Worker) {
    && s.queue == queue && s.active == active && s.slots == map[] && s.pending == 0
    && s.autoStop && s.stopFlag && s.fibers == map[]
    && s.workers.Keys == {1, 2} && s.workers[1] == w1 && s.workers[2] == W(Head, INIT)
  }

  lemma CallbackWaits() returns (s: State)
    ensures Reached(s) && Before(s, [Entry(RunCb(0), ANY_THREAD)], 0, W(Head, INIT))
  {
    var a := CallbackQueued();
    var b := Extend(a, Enter(2));
    s := Extend(b, Enter(1));
  }

  lemma CallbackTaken() returns (s: State)
    ensures Reached(s) && Before(s, [], 1, W(Holding(RunCb(0)), INIT))
  {
    var a := CallbackWaits();
    assert FirstEligible(a.queue, a.fibers, 1) == 0;
    s := Extend(a, Scan(1));
  }

  lemma CallbackRuns() returns (s: State)
    ensures Reached(s) && Scene(s, [], EXEC, 1, 1, C(Running(0, true)), 2, W(Head, INIT))
  {
    var a := CallbackTaken();
    s := Extend(a, StartCb(1, 0));
  }

  lemma SettleBlank(s: State, queue: seq<Entry>) returns (s': State)
    requires Scene(s, queue, TERM, 1, 1, C(Back(0, true)), 2, W(Head, INIT))
    ensures Leads(s, s') && Scene(s', queue, INIT, 0, 1, C(Head), 2, W(Head, INIT)) && s'.fibers[0].body == None
  {
    var a := ActiveLowered(s, 1);
    LeadsByOne(s, LowerActive(1));
    s' := Settled(a, 1);
    LeadsByOne(a, Settle(1));
    LeadsOn(s, a, s');
  }

  lemma TakeBlank(s: State) returns (s': State)
    requires Scene(s, [WAKE], INIT, 0, 1, C(Head), 2, W(Head, INIT)) && s.fibers[0].body == None
    ensures Leads(s, s') && SwapsInEmpty(s')
  {
    assert [WAKE] + [] == [WAKE];
    s' := TakeWake(s, [], INIT, 0, 2, INIT, 1, C(Head));
    LeadsByOne(s, Scan(2));
  }

  lemma CallbackWoken() returns (s: State)
    ensures Reached(s) && Scene(s, [WAKE], EXEC, 1, 1, C(Running(0, true)), 2, W(Head, INIT))
  {
    var a := CallbackRuns();
    assert Free(a, 0);
    s := Extend(a, ScheduleFiber(ByOutside, 0, ANY_THREAD));
  }

  /** Why a callback fiber with a wake-up outstanding may not end: it is blanked, and the
      wake-up makes another worker resume it with nothing to run. */
  lemma EndWithWakeResumesEmpty() returns (before: State, after: State)
    ensures Reached(before) && Enabled(before, Finish(1, false))
    ensures Leads(Apply(before, Finish(1, false)), after) && SwapsInEmpty(after)
  {
    before := CallbackWoken();
    var a := Finished(before, 1, false);
    var b := SettleBlank(a, [WAKE]);
    after := TakeBlank(b);
    LeadsOn(a, b, after);
  }

  lemma CallbackEnded() returns (s: State)
    ensures Reached(s) && Scene(s, [], TERM, 1, 1, C(Back(0, true)), 2, W(Head, INIT))
  {
    var a := CallbackRuns();
    assert Free(a, 0);
    s := Extend(a, Finish(1, false));
  }

  lemma ReachedOn(s: State, s': State)
    requires Reached(s) && Leads(s, s')
    ensures Reached(s')
  {
    var ids, acts :| Run(Init(ids), acts) && s == After(Init(ids), acts);
    var more :| Run(s, more) && Closed(more) && After(s, more) == s';
    RunConcat(Init(ids), acts, more);
  }

  /** Why a worker's blank callback fiber may not be scheduled: the same happens. */
  lemma ScheduledBlankResumesEmpty() returns (before: State, after: State)
    ensures Reached(before) && Enabled(before, ScheduleFiber(ByOutside, 0, ANY_THREAD))
    ensures Free(before, 0) && KeptForReuse(before, 0)
    ensures Leads(Apply(before, ScheduleFiber(ByOutside, 0, ANY_THREAD)), after) && SwapsInEmpty(after)
  {
    var ended := CallbackEnded();
    before := SettleBlank(ended, []);
    ReachedOn(ended, before);
    assert before.workers[1].cbFiber == Some(0);
    var a := Push(before, ByOutside, RunFiber(0), ANY_THREAD);
    assert [] + [WAKE] == [WAKE];
    after := TakeBlank(a);
  }

  // ---------------------------------------------------------------- stranded work

  lemma RunWake(s: State, fs: FiberState, t: ThreadId, i: FiberState, u: ThreadId, wu: Worker) returns (s': State)
    requires Reached(s) && Scene(s, [WAKE], fs, 0, t, W(Head, i), u, wu) && fs in {INIT, READY}
    ensures Reached(s') && Scene(s', [], EXEC, 1, t, W(Running(0, false), i), u, wu)
  {
    assert [WAKE] + [] == [WAKE];
    var taken := TakeWake(s, [], fs, 0, t, i, u, wu);
    var a := Extend(s, Scan(t));
    s' := ResumeWake(a, fs, 1, t, i, u, wu);
    var b := Extend(a, Resume(t));
  }

  /** The fiber yields as READY, and worker t stops counting it before requeueing it. */
  lemma IntoWindow(s: State, t: ThreadId, i: FiberState, u: ThreadId, j: FiberState) returns (s': State)
    requires Reached(s) && Scene(s, [], EXEC, 1, t, W(Running(0, false), i), u, W(Head, j))
    ensures Reached(s') && Scene(s', [], READY, 0, t, W(Done(0, false), i), u, W(Head, j))
  {
    assert Free(s, 0);
    var a := Extend(s, YieldReady(t));
    assert Scene(a, [], READY, 1, t, W(Back(0, false), i), u, W(Head, j));
    s' := Extend(a, LowerActive(t));
  }

  lemma FindNothing(s: State, queue: seq<Entry>, fs: FiberState, active: int, t: ThreadId, wt: Worker, u: ThreadId, i: FiberState)
    returns (s': State)
    requires Reached(s) && Scene(s, queue, fs, active, t, wt, u, W(Head, i))
    requires forall k :: 0 <= k < |queue| ==> queue[k].thread == t && t != ANY_THREAD
    ensures Reached(s') && Scene(s', queue, fs, active, t, wt, u, W(Empty, i)) && s'.lastScan == Some(u)
  {
    var k := FirstEligible(s.queue, s.fibers, u);
    assert k == |s.queue|;
    s' := Extend(s, Scan(u));
  }

  lemma SeeStopping(s: State, t: ThreadId, wt: Worker, u: ThreadId) returns (s': State)
    requires Reached(s) && Scene(s, [], READY, 0, t, wt, u, W(IdleCheck, EXEC))
    ensures Reached(s') && Scene(s', [], READY, 0, t, wt, u, W(IdleBack, TERM))
  {
    s' := Extend(s, CheckStop(u));
  }

  /** While t is in the window, the idle fiber of u sees `stopping()` hold and ends. */
  lemma FooledIdle(s: State, t: ThreadId, wt: Worker, u: ThreadId) returns (s': State)
    requires Reached(s) && Scene(s, [], READY, 0, t, wt, u, W(Empty, INIT))
    ensures Reached(s') && Scene(s', [], READY, 0, t, wt, u, W(Head, TERM))
  {
    var a := Extend(s, EnterIdle(u));
    var b := SeeStopping(a, t, wt, u);
    s' := Extend(b, LowerIdle(u));
  }

  lemma OutOfWindow(s: State, t: ThreadId, i: FiberState, u: ThreadId, wu: Worker) returns (s': State)
    requires Reached(s) && Scene(s, [], READY, 0, t, W(Done(0, false), i), u, wu)
    ensures Reached(s') && Scene(s', [WAKE], READY, 0, t, W(Head, i), u, wu)
  {
    s' := Extend(s, Requeue(t));
  }

  lemma Fool(s: State, fs: FiberState, t: ThreadId, i: FiberState, u: ThreadId) returns (s': State)
    requires Reached(s) && Scene(s, [WAKE], fs, 0, t, W(Head, i), u, W(Head, INIT)) && fs in {INIT, READY}
    ensures Reached(s') && Scene(s', [WAKE], READY, 0, t, W(Head, i), u, W(Head, TERM))
  {
    var r := RunWake(s, fs, t, i, u, W(Head, INIT));
    var a := IntoWindow(r, t, i, u, INIT);
    var b := FindNothing(a, [], READY, 0, t, W(Done(0, false), i), u, INIT);
    var c := FooledIdle(b, t, W(Done(0, false), i), u);
    s' := OutOfWindow(c, t, i, u, W(Head, TERM));
  }

  lemma FoolOther(s: State) returns (s': State)
    requires Reached(s) && Scene(s, [WAKE], READY, 0, 1, W(Head, INIT), 2, W(Head, TERM))
    ensures Reached(s') && Scene(s', [WAKE], READY, 0, 2, W(Head, TERM), 1, W(Head, TERM))
  {
    s' := Fool(s, READY, 2, TERM, 1);
  }

  lemma BothFooled() returns (s: State)
    ensures Reached(s) && Scene(s, [WAKE], READY, 0, 2, W(Head, TERM), 1, W(Head, TERM))
  {
    var start := BothWorkersReady();
    var a := Fool(start, INIT, 1, INIT, 2);
    s := FoolOther(a);
  }

  lemma LastRun(s: State) returns (s': State)
    requires Reached(s) && Scene(s, [WAKE], READY, 0, 2, W(Head, TERM), 1, W(Head, TERM))
    ensures Reached(s') && Scene(s', [], EXEC, 1, 1, W(Running(0, false), TERM), 2, W(Left, TERM))
  {
    var b := RunWake(s, READY, 1, TERM, 2, W(Head, TERM));
    var c := FindNothing(b, [], EXEC, 1, 1, W(Running(0, false), TERM), 2, TERM);
    s' := Extend(c, Exit(2));
  }

  /** What is left once worker 2 is gone: work for worker 2 alone. */
  ghost predicate Stranded(s: State, pc: Pc) {
    && |s.queue| == 1 && s.queue[0].thread == 2
    && Scene(s, s.queue, HOLD, 0, 2, W(Left, TERM), 1, W(pc, TERM))
  }

  lemma PinAndHold(s: State) returns (s': State)
    requires Reached(s) && Scene(s, [], EXEC, 1, 1, W(Running(0, false), TERM), 2, W(Left, TERM))
    ensures Reached(s') && Stranded(s', Head)
  {
    var a := Extend(s, ScheduleCb(ByFiber(1), 2));
    s' := Extend(a, YieldHold(1));
  }

  lemma LeaveItBehind(s: State) returns (s': State)
    requires Reached(s) && Stranded(s, Head)
    ensures Reached(s') && Stranded(s', Left) && s'.lastScan == Some(1)
  {
    var a := FindNothing(s, s.queue, HOLD, 0, 2, W(Left, TERM), 1, TERM);
    s' := Extend(a, Exit(1));
  }

  /** The pin in DrainedAtExit cannot be dropped: there is a run, with no outside call
      once the workers have entered, in which both leave while a callback that a fiber
      scheduled for one of them is still queued. */
  lemma PinnedWorkCanBeStranded() returns (s: State)
    ensures Reached(s) && forall t :: t in s.workers ==> s.workers[t].pc == Left
    ensures s.lastScan == Some(1) && |s.queue| == 1 && s.queue[0].thread == 2
  {
    var a := BothFooled();
    var b := LastRun(a);
    var c := PinAndHold(b);
    s := LeaveItBehind(c);
  }
}
