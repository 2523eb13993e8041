/** Exactly when work can be left behind: from a state in which `stopping()` holds, a run
    without new work from outside can end with every worker out of `run` and something
    still queued if and only if a worker in the requeue window can still be outlived by
    its fiber. */
module SchedulerStranding {
  import opened Wrappers
  import opened FiberModel
  import opened SchedulerState
  import opened SchedulerInvariant
  import opened SchedulerCounts
  import opened SchedulerShutdown
  import opened SchedulerTheorems
  import opened SchedulerRuns
  import opened SchedulerTermination

  ghost predicate AllLeft(s: State) {
    forall t :: t in s.workers ==> s.workers[t].pc == Left
  }

  /** Worker t is about to requeue a fiber that some worker can take again and again
      leave the queue with: t itself if its idle fiber has ended, or another one that
      will still scan. */
  ghost predicate Outlived(s: State, t: ThreadId) {
    InWindow(s, t) && (s.workers[t].idle == TERM || exists u :: u != t && u in s.workers && !Through(s.workers[u]))
  }

  /** The workers other than those in ts are where they were. */
  ghost predicate OthersStay(s: State, s': State, ts: set<ThreadId>) {
    && s'.workers.Keys == s.workers.Keys
    && forall r :: r in s.workers && r !in ts ==> s'.workers[r] == s.workers[r] && InWindow(s', r) == InWindow(s, r)
  }

  /** s leads to s', where the invariant and `stopping()` hold. */
  ghost predicate LeadsCalmly(s: State, s': State, ts: set<ThreadId>) {
    Leads(s, s') && Inv(s') && Stopping(s') && OthersStay(s, s', ts)
  }

  lemma LeadsKeepsInv(s: State, s': State)
    requires Inv(s) && Leads(s, s')
    ensures Inv(s')
  {
    var acts :| Run(s, acts) && Closed(acts) && After(s, acts) == s';
    RunKeepsInv(s, acts);
  }

  // ---------------------------------------------------------------- leaving

  lemma OthersUntouched(s: State, a: Action, t: ThreadId)
    requires Core(s) && Counts(s) && Stopping(s) && !InWindow(s, t) && Allowed(s, a) && Mover(a) == Some(t)
    ensures OthersStay(s, Apply(s, a), {t})
  {
    NobodyActive(s);
    OneMoves(s, a);
    var s' := Apply(s, a);
    forall r | r in s.workers && r != t ensures InWindow(s', r) == InWindow(s, r) {
      if a.Settle? && s.workers[t].pc.viaCb {
        assert PrivateTo(s, t, s.workers[t].pc.fiber);
        assert s.workers[r].pc.Done? ==> Mentions(s.workers[r].pc, s.workers[r].pc.fiber);
      }
    }
  }

  /** On its own, while `stopping()` holds, worker t can go on until it has left, or
      until its idle fiber has ended and it is about to scan. */
  lemma Advance(s: State, t: ThreadId, goal: nat) returns (s': State)
    requires Inv(s) && Stopping(s) && t in s.workers && !InWindow(s, t)
    requires goal == 0 || (goal == 2 && StepsToLeave(s.workers[t]) >= 2)
    ensures LeadsCalmly(s, s', {t}) && StepsToLeave(s'.workers[t]) == goal
    decreases StepsToLeave(s.workers[t])
  {
    if StepsToLeave(s.workers[t]) == goal {
      LeadsNowhere(s);
      return s;
    }
    var a := AlwaysAStep(s, t);
    OneMoves(s, a);
    var next := Apply(s, a);
    OwnStep(s, a, t);
    InvStep(s, a);
    OthersUntouched(s, a, t);
    s' := Advance(next, t, goal);
    LeadsByOne(s, a);
    LeadsOn(s, next, s');
  }

  // ---------------------------------------------------------------- the fiber runs on

  /** From s, worker u has taken the fiber f that t was about to requeue, and runs it. */
  ghost predicate RunsOn(s: State, s': State, t: ThreadId, u: ThreadId, f: FiberId) {
    && t in s.workers && u in s.workers && f in s.fibers && s'.workers.Keys == s.workers.Keys
    && s'.queue == [] && s'.active == 1 && s'.pending == 0 && s'.slots == map[] && s'.autoStop && s'.stopFlag
    && s'.fibers == s.fibers[f := FiberRec(EXEC, s.fibers[f].body)]
    && s'.workers[u].pc == Running(f, false) && s'.workers[u].idle == s.workers[u].idle
    && (t != u ==> s'.workers[t].pc == Head && s'.workers[t].idle == s.workers[t].idle)
    && forall r :: r in s.workers && r != t && r != u ==> s'.workers[r] == s.workers[r]
  }

  ghost predicate Requeueing(s: State, s1: State, t: ThreadId, f: FiberId) {
    && s1.queue == [Entry(RunFiber(f), ANY_THREAD)] && s1.active == 0 && s1.pending == 0
    && s1.slots == map[] && s1.autoStop && s1.stopFlag && s1.fibers == s.fibers && IsReady(s, f)
    && s1.workers.Keys == s.workers.Keys && t in s.workers
    && s1.workers[t].pc == Head && s1.workers[t].idle == s.workers[t].idle
    && forall r :: r in s.workers && r != t ==> s1.workers[r] == s.workers[r]
  }

  lemma Requeues(s: State, t: ThreadId) returns (s1: State)
    requires Inv(s) && Stopping(s) && InWindow(s, t)
    ensures Leads(s, s1) && Requeueing(s, s1, t, s.workers[t].pc.fiber)
  {
    NothingPending(s);
    s1 := Requeued(s, t);
    LeadsByOne(s, Requeue(t));
  }

  lemma TakesOver(s: State, s1: State, t: ThreadId, u: ThreadId, f: FiberId) returns (s': State)
    requires Requeueing(s, s1, t, f) && At(s1, u, Head)
    ensures Leads(s1, s') && RunsOn(s, s', t, u, f)
  {
    assert s1.queue[0].work == RunFiber(f);
    assert FirstEligible(s1.queue, s1.fibers, u) == 0;
    var s2 := Taken(s1, u, 0);
    LeadsByOne(s1, Scan(u));
    s' := Resumed(s2, u);
    LeadsByOne(s2, Resume(u));
    LeadsOn(s1, s2, s');
  }

  /** Worker t leaves the window, and worker u runs the fiber again. */
  lemma RunsAgain(s: State, t: ThreadId, u: ThreadId) returns (s': State)
    requires Inv(s) && Stopping(s) && InWindow(s, t) && (u == t || At(s, u, Head))
    ensures Leads(s, s') && Inv(s') && RunsOn(s, s', t, u, s.workers[t].pc.fiber)
  {
    var s1 := Requeues(s, t);
    s' := TakesOver(s, s1, t, u, s.workers[t].pc.fiber);
    LeadsOn(s, s1, s');
    LeadsKeepsInv(s, s');
  }

  /** No other worker is in the window with the same fiber. */
  lemma OneWindow(s: State, t: ThreadId, r: ThreadId)
    requires Core(s) && InWindow(s, t) && InWindow(s, r) && r != t
    ensures s.workers[r].pc.fiber != s.workers[t].pc.fiber
  {
    var f := s.workers[t].pc.fiber;
    assert Carries(s, Yielding(t), RunFiber(f)) && !Carries(s, Yielding(r), RunFiber(f));
  }

  lemma OthersAfter(s: State, s': State, t: ThreadId, u: ThreadId, f: FiberId, fr: FiberRec)
    requires Core(s) && InWindow(s, t) && f == s.workers[t].pc.fiber
    requires s'.workers.Keys == s.workers.Keys && s'.fibers == s.fibers[f := fr]
    requires forall r :: r in s.workers && r != t && r != u ==> s'.workers[r] == s.workers[r]
    ensures OthersStay(s, s', {t, u})
  {
    forall r | r in s.workers && r != t && r != u ensures InWindow(s', r) == InWindow(s, r) {
      if s.workers[r].pc.Done? && s.workers[r].pc.fiber == f {
        OneWindow(s, t, r);
      }
    }
  }

  /** The worker in the window runs its fiber again, which then waits. */
  lemma StepOut(s: State, t: ThreadId) returns (s': State)
    requires Inv(s) && Stopping(s) && InWindow(s, t)
    ensures LeadsCalmly(s, s', {t}) && At(s', t, Head)
  {
    var f := s.workers[t].pc.fiber;
    var s1 := RunsAgain(s, t, t);
    s' := YieldedHold(s1, t);
    LeadsByOne(s1, YieldHold(t));
    LeadsOn(s, s1, s');
    LeadsKeepsInv(s, s');
    assert s'.fibers == s.fibers[f := s'.fibers[f]];
    OthersAfter(s, s', t, t, f, s'.fibers[f]);
  }

  /** The fiber moves on: worker t is at the loop head, and u is in the window. */
  lemma HandOver(s: State, t: ThreadId, u: ThreadId) returns (s': State)
    requires Inv(s) && Stopping(s) && InWindow(s, t) && u != t && At(s, u, Head)
    ensures Leads(s, s') && Inv(s') && Stopping(s') && s'.workers.Keys == s.workers.Keys
    ensures InWindow(s', u) && s'.workers[u].idle == s.workers[u].idle
  {
    var f := s.workers[t].pc.fiber;
    var s1 := RunsAgain(s, t, u);
    NobodyWakes(s1, f, u);
    var s2 := YieldedReady(s1, u);
    LeadsByOne(s1, YieldReady(u));
    s' := ActiveLowered(s2, u);
    LeadsByOne(s2, LowerActive(u));
    LeadsOn(s, s1, s2);
    LeadsOn(s, s2, s');
    LeadsKeepsInv(s, s');
  }

  lemma OnlyActive(s: State, t: ThreadId, u: ThreadId)
    requires Counts(s) && s.active == 1 && t in s.workers && u in s.workers
    requires CountedActive(s.workers[t].pc) && CountedActive(s.workers[u].pc)
    ensures t == u
  {
    CardinalityWithout(ActiveSet(s.workers), t);
    CardinalityWithout(ActiveSet(s.workers) - {t}, u);
  }

  /** With the queue and the event slots empty and one worker active, a running fiber
      has no wake-up. */
  lemma NobodyWakes(s: State, f: FiberId, u: ThreadId)
    requires Core(s) && Counts(s) && s.queue == [] && s.slots == map[] && s.active == 1 && RunBy(s, f, u)
    ensures Free(s, f)
  {
    forall t | t in s.workers && CountedActive(s.workers[t].pc) ensures t == u {
      OnlyActive(s, t, u);
    }
    assert Executing(s, f);
  }

  /** Wherever worker v is, it can go on alone until the goal. */
  lemma Send(s: State, v: ThreadId, goal: nat) returns (s': State)
    requires Inv(s) && Stopping(s) && v in s.workers
    requires goal == 0 || (goal == 2 && StepsToLeave(s.workers[v]) >= 2)
    ensures LeadsCalmly(s, s', {v}) && StepsToLeave(s'.workers[v]) == goal
  {
    if InWindow(s, v) {
      var out := StepOut(s, v);
      s' := Advance(out, v, goal);
      LeadsOn(s, out, s');
    } else {
      s' := Advance(s, v, goal);
    }
  }

  // ---------------------------------------------------------------- leaving work behind

  ghost predicate OnlyLeft(s: State, t: ThreadId, todo: set<ThreadId>) {
    forall r :: r in s.workers && r != t && r !in todo ==> s.workers[r].pc == Left
  }

  /** While t stays in the window, every other worker can get out. */
  lemma ClearOthers(s: State, t: ThreadId, todo: set<ThreadId>) returns (s': State)
    requires Inv(s) && Stopping(s) && InWindow(s, t) && OnlyLeft(s, t, todo)
    ensures Leads(s, s') && Inv(s') && Stopping(s') && InWindow(s', t) && OnlyLeft(s', t, {})
    ensures s'.workers.Keys == s.workers.Keys && s'.workers[t] == s.workers[t]
    decreases todo
  {
    if v :| v in todo && v != t && v in s.workers {
      var next := Send(s, v, 0);
      s' := ClearOthers(next, t, todo - {v});
      LeadsOn(s, next, s');
    } else {
      LeadsNowhere(s);
      s' := s;
    }
  }

  ghost predicate Stranded(s: State) {
    AllLeft(s) && s.queue != []
  }

  /** Worker u runs a fiber, its idle fiber has ended, and all others are out. */
  ghost predicate LastOne(s: State, u: ThreadId, pc: Pc) {
    && u in s.workers && s.workers[u].pc == pc && s.workers[u].idle == TERM
    && forall r :: r in s.workers && r != u ==> s.workers[r].pc == Left
  }

  function Elsewhere(t: ThreadId): (u: ThreadId)
    ensures u != t && u != ANY_THREAD
  {
    if t == 0 then 1 else 0
  }

  lemma PinsAndWaits(s: State, t: ThreadId, f: FiberId) returns (s': State)
    requires Inv(s) && LastOne(s, t, Running(f, false)) && f in s.fibers && s.queue == []
    ensures Leads(s, s') && LastOne(s', t, Head)
    ensures |s'.queue| == 1 && s'.queue[0].thread == Elsewhere(t)
  {
    var a := PushNew(s, ByFiber(t), Elsewhere(t));
    LeadsByOne(s, ScheduleCb(ByFiber(t), Elsewhere(t)));
    s' := YieldedHold(a, t);
    LeadsByOne(a, YieldHold(t));
    LeadsOn(s, a, s');
  }

  lemma LeavesBehind(s: State, t: ThreadId) returns (s': State)
    requires LastOne(s, t, Head) && |s.queue| == 1 && s.queue[0].thread == Elsewhere(t)
    ensures Leads(s, s') && Stranded(s')
  {
    assert FirstEligible(s.queue, s.fibers, t) == 1;
    var a := GoTo(s, t, Empty).(lastScan := Some(t));
    LeadsByOne(s, Scan(t));
    s' := GoTo(a, t, Left);
    LeadsByOne(a, Exit(t));
    LeadsOn(s, a, s');
  }

  /** The fiber that t is about to requeue schedules work for another thread when t runs
      it for the last time. */
  lemma StrandsFrom(s: State, t: ThreadId) returns (s': State)
    requires Inv(s) && Stopping(s) && InWindow(s, t) && s.workers[t].idle == TERM
    ensures Leads(s, s') && Stranded(s')
  {
    var a := ClearOthers(s, t, s.workers.Keys);
    var b := RunsAgain(a, t, t);
    LeadsOn(s, a, b);
    var c := PinsAndWaits(b, t, a.workers[t].pc.fiber);
    LeadsOn(s, b, c);
    s' := LeavesBehind(c, t);
    LeadsOn(s, c, s');
  }

  lemma OtherStrands(s: State, t: ThreadId, u: ThreadId) returns (s': State)
    requires Inv(s) && Stopping(s) && InWindow(s, t) && u != t && u in s.workers && !Through(s.workers[u])
    ensures Leads(s, s') && Stranded(s')
  {
    var a := Send(s, u, 2);
    var b := HandOver(a, t, u);
    LeadsOn(s, a, b);
    s' := StrandsFrom(b, u);
    LeadsOn(s, b, s');
  }

  lemma OutlivedStrands(s: State, t: ThreadId) returns (s': State)
    requires Inv(s) && Stopping(s) && Outlived(s, t)
    ensures Leads(s, s') && Stranded(s')
  {
    if s.workers[t].idle == TERM {
      s' := StrandsFrom(s, t);
    } else {
      var u :| u != t && u in s.workers && !Through(s.workers[u]);
      s' := OtherStrands(s, t, u);
    }
  }

  // ---------------------------------------------------------------- and the converse

  lemma ThroughStays(s: State, a: Action, u: ThreadId)
    requires Enabled(s, a) && u in s.workers && Through(s.workers[u])
    ensures u in Apply(s, a).workers && Through(Apply(s, a).workers[u])
  {
    OneMoves(s, a);
  }

  lemma {:induction false} ThroughForGood(s: State, acts: seq<Action>, u: ThreadId)
    requires Run(s, acts) && u in s.workers && Through(s.workers[u])
    ensures u in After(s, acts).workers && Through(After(s, acts).workers[u])
    decreases |acts|
  {
    if acts != [] {
      ThroughStays(s, acts[0], u);
      ThroughForGood(Apply(s, acts[0]), acts[1..], u);
    }
  }

  /** If all but t will not scan again, then t has to see `stopping()` hold itself, when
      nobody is in the window. */
  lemma AloneDrains(s: State, acts: seq<Action>, t: ThreadId)
    requires Inv(s) && Run(s, acts) && Closed(acts) && t in s.workers && s.workers[t].idle != TERM
    requires forall u :: u in s.workers && u != t ==> Through(s.workers[u])
    requires AllLeft(After(s, acts))
    ensures After(s, acts).queue == []
  {
    RunKeepsInv(s, acts);
    WorkersStay(s, acts);
    assert WorkerOk(After(s, acts), After(s, acts).workers[t]);
    var k := IdleEndedBy(s, acts, t);
    var seen := After(s, acts[..k]);
    RunSplit(s, acts, k);
    RunKeepsInv(s, acts[..k]);
    WorkersStay(s, acts[..k]);
    assert Allowed(seen, acts[k..][0]);
    forall u ensures !InWindow(seen, u) {
      if u in s.workers && u != t {
        ThroughForGood(s, acts[..k], u);
      }
    }
    QuiescenceLasts(seen, acts[k..]);
  }

  lemma NotOutlivedDrains(s: State, acts: seq<Action>)
    requires Inv(s) && Stopping(s) && Run(s, acts) && Closed(acts) && AllLeft(After(s, acts))
    requires forall t :: !Outlived(s, t)
    ensures After(s, acts).queue == []
  {
    if t :| InWindow(s, t) {
      assert !Outlived(s, t);
      AloneDrains(s, acts, t);
    } else {
      QuiescenceLasts(s, acts);
    }
  }

  /** From a reached state in which `stopping()` holds, all runs without new work from
      outside that take every worker out of `run` leave the queue empty if and only if
      no fiber in the requeue window can outlive its worker's part in it. */
  lemma DrainsIff(s: State)
    requires Reached(s) && Stopping(s)
    ensures (forall acts :: Run(s, acts) && Closed(acts) && AllLeft(After(s, acts)) ==> After(s, acts).queue == [])
       <==> (forall t :: !Outlived(s, t))
  {
    ReachedInv(s);
    if t :| Outlived(s, t) {
      var s' := OutlivedStrands(s, t);
      var acts :| Run(s, acts) && Closed(acts) && After(s, acts) == s';
      assert AllLeft(After(s, acts));
    } else {
      forall acts | Run(s, acts) && Closed(acts) && AllLeft(After(s, acts)) ensures After(s, acts).queue == [] {
        NotOutlivedDrains(s, acts);
      }
    }
  }
}
