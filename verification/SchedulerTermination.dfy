/** Shutdown ends: once quiescent, every worker is out of `run` after a bounded number
    of its own steps, and until then it always has a step to make. */
module SchedulerTermination {
  import opened Wrappers
  import opened FiberModel
  import opened SchedulerState
  import opened SchedulerInvariant
  import opened SchedulerCounts
  import opened SchedulerShutdown
  import opened SchedulerTheorems

  /** How many steps a worker is from leaving when `stopping()` holds for good. */
  function StepsToLeave(w: Worker): nat {
    match w.pc
    case Left => 0
    case Empty => if w.idle == TERM then 1 else 5
    case Head => if w.idle == TERM then 2 else 6
    case IdleBack => if w.idle == TERM then 3 else 7
    case IdleCheck => 4
    case IdleWait => 8
    case _ => 9
  }

  function StepsBy(acts: seq<Action>, t: ThreadId): nat {
    if acts == [] then 0 else One(Mover(acts[0]) == Some(t)) + StepsBy(acts[1..], t)
  }

  /** While `stopping()` holds, the only steps of a worker that is not in the requeue
      window are those on the way out, past the point where its idle fiber has ended;
      and they leave `stopping()` true. */
  lemma OwnStep(s: State, a: Action, t: ThreadId)
    requires Core(s) && Counts(s) && Stopping(s) && !InWindow(s, t) && Allowed(s, a)
    requires Mover(a) == Some(t) && t in s.workers && t in Apply(s, a).workers
    ensures StepsToLeave(Apply(s, a).workers[t]) < StepsToLeave(s.workers[t])
    ensures StepsToLeave(s.workers[t]) > 2 ==> StepsToLeave(Apply(s, a).workers[t]) >= 2
    ensures Stopping(Apply(s, a)) && !InWindow(Apply(s, a), t)
  {
    NobodyActive(s);
    assert WorkerOk(s, s.workers[t]);
  }

  lemma BoundedStep(s: State, a: Action, t: ThreadId)
    requires Inv(s) && Quiescent(s) && Allowed(s, a) && t in s.workers
    ensures t in Apply(s, a).workers
    ensures One(Mover(a) == Some(t)) + StepsToLeave(Apply(s, a).workers[t]) <= StepsToLeave(s.workers[t])
  {
    OneMoves(s, a);
    if Mover(a) == Some(t) {
      assert !InWindow(s, t);
      OwnStep(s, a, t);
    }
  }

  /** From a quiescent state, through any run without new work from outside, the steps
      a worker makes are taken off the number that separates it from leaving; so it
      makes at most nine, and it is out when it has made them all. */
  lemma {:induction false} ShutdownIsBounded(s: State, acts: seq<Action>, t: ThreadId)
    requires Inv(s) && Quiescent(s) && Run(s, acts) && Closed(acts) && t in s.workers
    ensures t in After(s, acts).workers
    ensures StepsBy(acts, t) + StepsToLeave(After(s, acts).workers[t]) <= StepsToLeave(s.workers[t]) <= 9
    ensures StepsToLeave(After(s, acts).workers[t]) == 0 <==> At(After(s, acts), t, Left)
    decreases |acts|
  {
    if acts != [] {
      var s' := Apply(s, acts[0]);
      BoundedStep(s, acts[0], t);
      InvStep(s, acts[0]);
      QuiescenceStep(s, acts[0]);
      ShutdownIsBounded(s', acts[1..], t);
    }
  }

  /** And no worker is stuck on the way. */
  lemma AlwaysAStep(s: State, t: ThreadId) returns (a: Action)
    requires Inv(s) && Stopping(s) && !InWindow(s, t) && t in s.workers && s.workers[t].pc != Left
    ensures Mover(a) == Some(t) && Allowed(s, a) && !External(a)
  {
    NobodyActive(s);
    var w := s.workers[t];
    assert WorkerOk(s, w);
    match w.pc
    case Outside => a := Enter(t);
    case Head => a := Scan(t);
    case Empty => a := if w.idle == TERM then Exit(t) else EnterIdle(t);
    case Done(f, viaCb) =>
      assert Mentions(w.pc, f);
      a := Settle(t);
    case IdleCheck => a := CheckStop(t);
    case IdleWait => a := LeaveIdle(t);
    case IdleBack => a := LowerIdle(t);
  }
}
