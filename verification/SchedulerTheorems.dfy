/** Properties of every run of the scheduler, from any set of worker threads and
    through any interleaving of their steps with calls from outside. */
module SchedulerTheorems {
  import opened Wrappers
  import opened FiberModel
  import opened SchedulerState
  import opened SchedulerInvariant
  import opened SchedulerCounts
  import opened SchedulerJobs
  import opened SchedulerShutdown

  ghost predicate Inv(s: State) {
    Core(s) && Counts(s) && Jobs(s) && ReadyAwake(s) && Drained(s)
  }

  lemma InitInv(ids: set<ThreadId>)
    ensures Inv(Init(ids))
  {
    InitCore(ids);
    var s := Init(ids);
    forall t ensures t !in ActiveSet(s.workers) && t !in IdleSet(s.workers) {
      assert t in s.workers ==> s.workers[t].pc == Outside;
    }
    assert ActiveSet(s.workers) == {} && IdleSet(s.workers) == {};
  }

  lemma InvStep(s: State, a: Action)
    requires Inv(s) && Allowed(s, a)
    ensures Inv(Apply(s, a))
  {
    CoreStep(s, a);
    CountsStep(s, a);
    JobsStep(s, a);
    ReadyAwakeStep(s, a);
    DrainedStep(s, a);
  }

  lemma {:induction false} RunKeepsInv(s: State, acts: seq<Action>)
    requires Inv(s) && Run(s, acts)
    ensures Inv(After(s, acts))
    decreases |acts|
  {
    if acts != [] {
      InvStep(s, acts[0]);
      RunKeepsInv(Apply(s, acts[0]), acts[1..]);
    }
  }

  lemma {:induction false} WorkersStay(s: State, acts: seq<Action>)
    requires Run(s, acts)
    ensures After(s, acts).workers.Keys == s.workers.Keys
    decreases |acts|
  {
    if acts != [] {
      OneMoves(s, acts[0]);
      WorkersStay(Apply(s, acts[0]), acts[1..]);
    }
  }

  /** s is reached from the start by a run of the workers `ids`. */
  ghost predicate Reached(s: State) {
    exists ids, acts :: Run(Init(ids), acts) && s == After(Init(ids), acts)
  }

  lemma ReachedInv(s: State)
    requires Reached(s)
    ensures Inv(s)
  {
    var ids, acts :| Run(Init(ids), acts) && s == After(Init(ids), acts);
    InitInv(ids);
    RunKeepsInv(Init(ids), acts);
  }

  /** No fiber is executed by two threads; a fiber is EXEC exactly while one thread
      is inside it; and the assertion in `swapIn` holds for whatever a worker is
      about to swap in, its idle fiber included. */
  lemma SingleRunner(s: State)
    requires Reached(s)
    ensures forall f, t, u :: RunBy(s, f, t) && RunBy(s, f, u) ==> t == u
    ensures forall f :: Executing(s, f) <==> exists t :: RunBy(s, f, t)
    ensures forall t :: HoldsFiber(s, t) ==> s.fibers[s.workers[t].pc.work.fiber].state != EXEC
    ensures forall t :: HoldsCb(s, t) && s.workers[t].cbFiber.Some? ==>
      s.workers[t].cbFiber.value in s.fibers && Reusable(s.fibers[s.workers[t].cbFiber.value].state)
    ensures forall t :: At(s, t, Empty) ==> s.workers[t].idle != EXEC
  {
    ReachedInv(s);
    forall t | HoldsCb(s, t) && s.workers[t].cbFiber.Some?
      ensures s.workers[t].cbFiber.value in s.fibers && Reusable(s.fibers[s.workers[t].cbFiber.value].state)
    {
      assert PrivateTo(s, t, s.workers[t].cbFiber.value);
    }
  }

  /** A fiber resumed from the queue always has a body to run, and a READY fiber
      always has a wake-up on its way to the queue or in it. */
  lemma ResumableFibers(s: State)
    requires Reached(s)
    ensures forall t :: HoldsFiber(s, t) ==>
      var fr := s.fibers[s.workers[t].pc.work.fiber]; Dead(fr.state) || fr.body.Some?
    ensures forall f :: IsReady(s, f) ==> Awake(s, f)
  {
    ReachedInv(s);
    forall t | HoldsFiber(s, t)
      ensures var fr := s.fibers[s.workers[t].pc.work.fiber]; Dead(fr.state) || fr.body.Some?
    {
      HeldFiberHasBody(s, t);
    }
  }

  /** At the loop head the worker's callback fiber is absent or blank; once it has
      left `run`, the idle fiber has ended, so both pass the destructor's assertion. */
  lemma RecycledFibers(s: State, t: ThreadId)
    requires Reached(s) && t in s.workers
    requires s.workers[t].pc == Head || s.workers[t].pc == Left
    ensures s.workers[t].cbFiber.Some? ==>
      s.workers[t].cbFiber.value in s.fibers && s.fibers[s.workers[t].cbFiber.value] == FiberRec(INIT, None)
    ensures s.workers[t].pc == Left ==> s.workers[t].idle == TERM
    ensures s.workers[t].idle != EXEC
  {
    ReachedInv(s);
    assert s.workers[t].cbFiber.Some? ==> PrivateTo(s, t, s.workers[t].cbFiber.value);
  }

  /** The counters count, and none is ever negative. */
  lemma CountersExact(s: State)
    requires Reached(s)
    ensures s.active == |set t | t in s.workers && CountedActive(s.workers[t].pc)| >= 0
    ensures s.idleCount == |set t | t in s.workers && CountedIdle(s.workers[t].pc)| >= 0
    ensures s.pending == |s.slots| >= 0
  {
    ReachedInv(s);
  }

  /** Every callback that has entered the system is in exactly one place: queued, in
      a worker's hand, the body of an unfinished fiber, or finished. */
  lemma CallbackConservation(s: State, j: Job)
    requires Reached(s)
    ensures j < |s.pins| <==> exists src :: Carries(s, src, RunCb(j))
    ensures forall x, y :: Carries(s, x, RunCb(j)) && Carries(s, y, RunCb(j)) ==> x == y
  {
    ReachedInv(s);
    assert j < |s.pins| ==> Somewhere(s, j);
  }

  /** A callback is started at most once, and by no thread but the one it is pinned
      to; it has been started exactly when it has finished or is the body of a fiber
      past INIT. */
  lemma StartedAtMostOnce(s: State, j: Job)
    requires Reached(s) && j < |s.pins|
    ensures forall i, k :: StartedBy(s, j, i) && StartedBy(s, j, k) ==> i == k
    ensures forall i :: StartedBy(s, j, i) ==> PinAllows(s.pins[j], s.starts[i].thread)
    ensures (exists i :: StartedBy(s, j, i)) <==> exists src :: Carries(s, src, RunCb(j)) && Begun(s, src)
  {
    ReachedInv(s);
    assert Somewhere(s, j);
  }

  /** When every worker has left and no outside thread has scheduled since the last
      scan, whatever is still queued is pinned to a thread that did not do that scan. */
  lemma DrainedAtExit(s: State, t: ThreadId)
    requires Reached(s) && s.lastScan == Some(t)
    requires forall u :: u in s.workers ==> s.workers[u].pc == Left
    ensures forall i :: 0 <= i < |s.queue| ==> s.queue[i].thread != ANY_THREAD && s.queue[i].thread != t
    ensures (forall e :: e in s.queue ==> e.thread == ANY_THREAD) ==> s.queue == []
  {
    ReachedInv(s);
    assert AllThrough(s);
    assert PinnedAway(s, t);
    if s.queue != [] {
      assert s.queue[0] in s.queue;
    }
  }

  lemma TaskKeepsIdle(s: State, a: Action, t: ThreadId)
    requires Enabled(s, a) && TaskStep(a) && t in s.workers && t in Apply(s, a).workers
    ensures Apply(s, a).workers[t].idle == s.workers[t].idle
  {
  }

  lemma LoopEndsIdle(s: State, a: Action, t: ThreadId)
    requires Enabled(s, a) && LoopStep(a) && t in s.workers && t in Apply(s, a).workers
    requires s.workers[t].idle != TERM && Apply(s, a).workers[t].idle == TERM
    ensures a == CheckStop(t) && Stopping(s)
  {
  }

  /** A worker's idle fiber ends only by seeing `stopping()` hold. */
  lemma IdleEndsOnStopping(s: State, a: Action, t: ThreadId)
    requires Enabled(s, a) && t in s.workers && s.workers[t].idle != TERM
    requires t in Apply(s, a).workers && Apply(s, a).workers[t].idle == TERM
    ensures a == CheckStop(t) && Stopping(s)
  {
    OneMoves(s, a);
    if TaskStep(a) {
      TaskKeepsIdle(s, a, t);
    } else if LoopStep(a) {
      LoopEndsIdle(s, a, t);
    } else if a.Scan? {
      ScanKeepsIdle(s, a.t, t);
    }
  }

  lemma ScanKeepsIdle(s: State, u: ThreadId, t: ThreadId)
    requires At(s, u, Head) && t in s.workers && t in Scanned(s, u).workers
    ensures Scanned(s, u).workers[t].idle == s.workers[t].idle
  {
  }

  /** `acts[k]` is the call of `stopping()` by t's idle fiber, and it returned true. */
  ghost predicate SawStopping(s: State, acts: seq<Action>, k: nat, t: ThreadId) {
    k < |acts| && acts[k] == CheckStop(t) && Run(s, acts[..k]) && Stopping(After(s, acts[..k]))
  }

  lemma {:induction false} IdleEndedBy(s: State, acts: seq<Action>, t: ThreadId) returns (k: nat)
    requires Run(s, acts) && t in s.workers && s.workers[t].idle != TERM
    requires t in After(s, acts).workers && After(s, acts).workers[t].idle == TERM
    ensures SawStopping(s, acts, k, t)
    decreases |acts|
  {
    var s' := Apply(s, acts[0]);
    if t in s'.workers && s'.workers[t].idle == TERM {
      IdleEndsOnStopping(s, acts[0], t);
      k := 0;
    } else {
      OneMoves(s, acts[0]);
      var j := IdleEndedBy(s', acts[1..], t);
      k := j + 1;
      RunCons(s, acts[0], acts[1..][..j]);
      assert acts[..k] == [acts[0]] + acts[1..][..j];
    }
  }

  /** A worker leaves `run` only if earlier in the run its own idle fiber saw
      `stopping()` hold; from Init no other way out exists. */
  lemma LeavesOnlyAfterStopping(ids: set<ThreadId>, acts: seq<Action>, t: ThreadId) returns (k: nat)
    requires Run(Init(ids), acts) && t in ids && At(After(Init(ids), acts), t, Left)
    ensures SawStopping(Init(ids), acts, k, t)
  {
    var s := After(Init(ids), acts);
    RecycledFibers(s, t);
    k := IdleEndedBy(Init(ids), acts, t);
  }

  ghost predicate Closed(acts: seq<Action>) {
    forall i :: 0 <= i < |acts| ==> !External(acts[i])
  }

  lemma {:induction false} QuiescenceLasts(s: State, acts: seq<Action>)
    requires Inv(s) && Quiescent(s) && Run(s, acts) && Closed(acts)
    ensures Quiescent(After(s, acts))
    decreases |acts|
  {
    if acts != [] {
      InvStep(s, acts[0]);
      QuiescenceStep(s, acts[0]);
      QuiescenceLasts(Apply(s, acts[0]), acts[1..]);
    }
  }

  /** A true snapshot of `stopping()` stays true on every run without new work from
      outside if and only if no worker is between lowering the active counter and
      requeueing a READY fiber. */
  lemma StoppingIsStableIff(s: State)
    requires Reached(s) && Stopping(s)
    ensures (forall acts :: Run(s, acts) && Closed(acts) ==> Stopping(After(s, acts)))
       <==> (forall t :: !InWindow(s, t))
  {
    ReachedInv(s);
    if forall t :: !InWindow(s, t) {
      forall acts | Run(s, acts) && Closed(acts) ensures Stopping(After(s, acts)) {
        QuiescenceLasts(s, acts);
      }
    } else {
      var t :| InWindow(s, t);
      WindowEndsStopping(s, t);
      assert Closed([Requeue(t)]);
    }
  }

  /** In a quiescent state every callback has finished, except bodies of fibers that
      were never started or are on HOLD, and those have no wake-up left anywhere. */
  lemma QuiescentIsDone(s: State, j: Job)
    requires Reached(s) && Quiescent(s) && j < |s.pins|
    ensures j in s.finished || exists f ::
      Carries(s, InFiber(f), RunCb(j)) && s.fibers[f].state in {INIT, HOLD} && Free(s, f)
  {
    ReachedInv(s);
    NobodyActive(s);
    NothingPending(s);
    assert Somewhere(s, j);
    var src :| Carries(s, src, RunCb(j));
    forall g, x ensures !Carries(s, x, RunFiber(g)) {
      assert x.Yielding? ==> !InWindow(s, x.t);
    }
    if src.InFiber? {
      var f := src.f;
      assert IsReady(s, f) ==> Awake(s, f);
      forall t ensures !RunBy(s, f, t) {}
      assert !Executing(s, f);
    }
  }
}
