/** The order in which one worker makes its steps, whatever the others do in between: the
    control flow of `run` and of the idle fiber, read off the runs. */
module SchedulerLoop {
  import opened Wrappers
  import opened FiberModel
  import opened SchedulerState
  import opened SchedulerInvariant
  import opened SchedulerCounts
  import opened SchedulerQueue
  import opened SchedulerShutdown
  import opened SchedulerTheorems
  import opened SchedulerRuns

  /** What a worker may do next after it did a in state s. */
  predicate Follows(s: State, a: Action, b: Action) {
    match a
    case Enter(_) => b.Scan?
    case Scan(t) =>
      if !NothingFor(s, t) then b.Resume? || b.Discard? || b.StartCb?
      else if t in s.workers && s.workers[t].idle == TERM then b.Exit?
      else b.EnterIdle?
    case Resume(_) => b.YieldReady? || b.YieldHold? || b.Finish?
    case StartCb(_, _) => b.YieldReady? || b.YieldHold? || b.Finish?
    case YieldReady(_) => b.LowerActive?
    case Finish(_, _) => b.LowerActive?
    case LowerActive(_) => b.Requeue? || b.Settle?
    case YieldHold(_) => b.Scan?
    case Discard(_) => b.Scan?
    case Requeue(_) => b.Scan?
    case Settle(_) => b.Scan?
    case EnterIdle(_) => b.CheckStop?
    case CheckStop(_) => if Stopping(s) then b.LowerIdle? else b.LeaveIdle?
    case LeaveIdle(_) => b.LowerIdle?
    case LowerIdle(_) => b.Scan?
    case _ => false
  }

  /** Worker w can make step b as far as its own data goes. */
  predicate Suits(w: Worker, b: Action) {
    match b
    case Enter(_) => w.pc == Outside
    case Scan(_) => w.pc == Head
    case Resume(_) => w.pc.Holding?
    case StartCb(_, _) => w.pc.Holding?
    case Discard(_) => w.pc.Holding?
    case YieldReady(_) => w.pc.Running?
    case YieldHold(_) => w.pc.Running?
    case Finish(_, _) => w.pc.Running?
    case LowerActive(_) => w.pc.Back?
    case Requeue(_) => w.pc.Done?
    case Settle(_) => w.pc.Done?
    case EnterIdle(_) => w.pc == Empty && w.idle != TERM
    case CheckStop(_) => w.pc == IdleCheck
    case LeaveIdle(_) => w.pc == IdleWait
    case LowerIdle(_) => w.pc == IdleBack
    case Exit(_) => w.pc == Empty && w.idle == TERM
    case _ => false
  }

  lemma EnabledSuits(s: State, b: Action, t: ThreadId)
    requires Enabled(s, b) && Mover(b) == Some(t)
    ensures t in s.workers && Suits(s.workers[t], b)
  {
  }

  lemma ScanFollowed(s: State, t: ThreadId, b: Action)
    requires At(s, t, Head) && t in Scanned(s, t).workers && Suits(Scanned(s, t).workers[t], b)
    ensures Follows(s, Scan(t), b)
  {
    ScanChooses(s, t);
  }

  lemma TaskFollowed(s: State, a: Action, t: ThreadId, b: Action)
    requires Enabled(s, a) && TaskStep(a) && Mover(a) == Some(t)
    requires t in Apply(s, a).workers && Suits(Apply(s, a).workers[t], b)
    ensures Follows(s, a, b)
  {
  }

  lemma LoopFollowed(s: State, a: Action, t: ThreadId, b: Action)
    requires Enabled(s, a) && LoopStep(a) && Mover(a) == Some(t)
    requires t in Apply(s, a).workers && Suits(Apply(s, a).workers[t], b)
    ensures Follows(s, a, b)
  {
  }

  lemma StepFollowed(s: State, a: Action, t: ThreadId, b: Action)
    requires Enabled(s, a) && Mover(a) == Some(t)
    requires t in Apply(s, a).workers && Suits(Apply(s, a).workers[t], b)
    ensures Follows(s, a, b)
  {
    if a.Scan? {
      ScanFollowed(s, t, b);
    } else if TaskStep(a) {
      TaskFollowed(s, a, t, b);
    } else {
      LoopFollowed(s, a, t, b);
    }
  }

  /** None of the steps is worker t's. */
  ghost predicate Without(acts: seq<Action>, t: ThreadId) {
    forall i :: 0 <= i < |acts| ==> Mover(acts[i]) != Some(t)
  }

  lemma {:induction false} WorkerWaits(s: State, acts: seq<Action>, t: ThreadId)
    requires Run(s, acts) && Without(acts, t) && t in s.workers
    ensures t in After(s, acts).workers && After(s, acts).workers[t] == s.workers[t]
    decreases |acts|
  {
    if acts != [] {
      OneMoves(s, acts[0]);
      WorkerWaits(Apply(s, acts[0]), acts[1..], t);
    }
  }

  /** Step a of worker t, other threads' steps, then step b of t. */
  lemma ThenFollows(s: State, a: Action, between: seq<Action>, b: Action, t: ThreadId)
    requires Allowed(s, a) && Mover(a) == Some(t) && Mover(b) == Some(t) && Without(between, t)
    requires Run(Apply(s, a), between) && Allowed(After(Apply(s, a), between), b)
    ensures Follows(s, a, b)
  {
    OneMoves(s, a);
    WorkerWaits(Apply(s, a), between, t);
    EnabledSuits(After(Apply(s, a), between), b, t);
    StepFollowed(s, a, t, b);
  }

  lemma Middle(acts: seq<Action>, i: nat, j: nat)
    requires i < j < |acts|
    ensures acts[i..] == [acts[i]] + acts[i + 1..]
    ensures acts[i + 1..] == acts[i + 1..j] + acts[j..]
    ensures acts[j..] == [acts[j]] + acts[j + 1..]
  {
  }

  /** Two steps of one worker with none of its own in between follow each other as in
      the code. */
  lemma StepsFollowTheCode(s: State, acts: seq<Action>, i: nat, j: nat, t: ThreadId)
    requires Run(s, acts) && i < j < |acts| && Mover(acts[i]) == Some(t) && Mover(acts[j]) == Some(t)
    requires forall m :: i < m < j ==> Mover(acts[m]) != Some(t)
    ensures Run(s, acts[..i]) && Follows(After(s, acts[..i]), acts[i], acts[j])
  {
    RunSplit(s, acts, i);
    var mid := After(s, acts[..i]);
    Middle(acts, i, j);
    RunTail(mid, acts[i], acts[i + 1..]);
    var next := Apply(mid, acts[i]);
    RunSplitAt(next, acts[i + 1..j], acts[j..]);
    RunTail(After(next, acts[i + 1..j]), acts[j], acts[j + 1..]);
    ThenFollows(mid, acts[i], acts[i + 1..j], acts[j], t);
  }

  /** A worker's first step is to enter the loop. */
  lemma EntersFirst(ids: set<ThreadId>, acts: seq<Action>, j: nat, t: ThreadId)
    requires Run(Init(ids), acts) && j < |acts| && Mover(acts[j]) == Some(t)
    requires forall m :: 0 <= m < j ==> Mover(acts[m]) != Some(t)
    ensures acts[j] == Enter(t)
  {
    RunSplit(Init(ids), acts, j);
    var mid := After(Init(ids), acts[..j]);
    FrontAt(acts, j);
    RunTail(mid, acts[j], acts[j + 1..]);
    FirstEnters(ids, acts[..j], acts[j], t);
  }

  lemma FirstEnters(ids: set<ThreadId>, before: seq<Action>, a: Action, t: ThreadId)
    requires Run(Init(ids), before) && Without(before, t) && Mover(a) == Some(t)
    requires Allowed(After(Init(ids), before), a)
    ensures a == Enter(t)
  {
    EnabledSuits(After(Init(ids), before), a, t);
    KnownWorkers(ids, before);
    WorkerWaits(Init(ids), before, t);
  }

  lemma FrontAt(acts: seq<Action>, j: nat)
    requires j < |acts|
    ensures acts[j..] == [acts[j]] + acts[j + 1..]
  {
  }

  lemma KnownWorkers(ids: set<ThreadId>, acts: seq<Action>)
    requires Run(Init(ids), acts)
    ensures After(Init(ids), acts).workers.Keys == ids
  {
    WorkersStay(Init(ids), acts);
  }

  // ---------------------------------------------------------------- never stuck

  lemma {:induction false} FreshId(used: set<FiberId>) returns (f: FiberId)
    ensures f !in used
    ensures forall g :: g in used ==> g < f
    decreases used
  {
    if used == {} {
      f := 0;
    } else {
      var g :| g in used;
      var h := FreshId(used - {g});
      f := if g < h then h else g + 1;
      forall x | x in used ensures x < f {
        assert x == g || x in used - {g};
      }
    }
  }

  lemma HoldingGoesOn(s: State, t: ThreadId) returns (a: Action)
    requires Core(s) && t in s.workers && s.workers[t].pc.Holding?
    ensures Allowed(s, a) && Mover(a) == Some(t) && (a.Resume? || a.Discard? || a.StartCb?)
  {
    var work := s.workers[t].pc.work;
    if work.RunFiber? {
      assert Carries(s, InHand(t), work);
      a := if Dead(s.fibers[work.fiber].state) then Discard(t) else Resume(t);
    } else {
      var f := FreshId(s.fibers.Keys);
      a := StartCb(t, f);
    }
  }

  lemma RunningGoesOn(s: State, t: ThreadId) returns (a: Action)
    requires Core(s) && t in s.workers && (s.workers[t].pc.Running? || s.workers[t].pc.Done?)
    ensures Allowed(s, a) && Mover(a) == Some(t) && (a.YieldHold? || a.Requeue? || a.Settle?)
  {
    var w := s.workers[t];
    assert Mentions(w.pc, w.pc.fiber) && WorkerOk(s, w);
    if w.pc.Running? {
      a := YieldHold(t);
    } else {
      a := if s.fibers[w.pc.fiber].state == READY then Requeue(t) else Settle(t);
    }
  }

  /** In every reached state every worker that has not left can make a step of its own:
      nothing it has taken, started or come back from can leave it without one. */
  lemma NeverStuck(s: State, t: ThreadId) returns (a: Action)
    requires Reached(s) && t in s.workers && s.workers[t].pc != Left
    ensures Allowed(s, a) && Mover(a) == Some(t) && !External(a)
  {
    ReachedInv(s);
    var w := s.workers[t];
    match w.pc
    case Outside => a := Enter(t);
    case Head => a := Scan(t);
    case Holding(_) => a := HoldingGoesOn(s, t);
    case Empty => a := if w.idle == TERM then Exit(t) else EnterIdle(t);
    case Running(_, _) => a := RunningGoesOn(s, t);
    case Back(_, _) => a := LowerActive(t);
    case Done(_, _) => a := RunningGoesOn(s, t);
    case IdleCheck => a := CheckStop(t);
    case IdleWait => a := LeaveIdle(t);
    case IdleBack => a := LowerIdle(t);
  }

  // ---------------------------------------------------------------- being told to stop

  ghost predicate FlagsMove(s: State, a: Action, s': State) {
    && s'.autoStop == (s.autoStop || a == SetAutoStop)
    && s'.stopFlag == ((s.stopFlag && a != ClearStopFlag) || a == SetStopFlag)
  }

  lemma TaskKeepsFlags(s: State, a: Action)
    requires Enabled(s, a) && TaskStep(a)
    ensures FlagsMove(s, a, Apply(s, a))
  {
  }

  lemma LoopKeepsFlags(s: State, a: Action)
    requires Enabled(s, a) && LoopStep(a)
    ensures FlagsMove(s, a, Apply(s, a))
  {
  }

  lemma CallMovesFlags(s: State, a: Action)
    requires Enabled(s, a) && CallStep(a)
    ensures FlagsMove(s, a, Apply(s, a))
  {
  }

  lemma FireKeepsFlags(s: State, who: Caller, key: Key)
    requires key in s.slots
    ensures FlagsMove(s, Fire(who, key), Fired(s, who, key))
  {
  }

  lemma ScanKeepsFlags(s: State, t: ThreadId)
    requires At(s, t, Head)
    ensures FlagsMove(s, Scan(t), Scanned(s, t))
  {
  }

  lemma FlagSteps(s: State, a: Action)
    requires Enabled(s, a)
    ensures FlagsMove(s, a, Apply(s, a))
  {
    if a.Scan? {
      ScanKeepsFlags(s, a.t);
    } else if TaskStep(a) {
      TaskKeepsFlags(s, a);
    } else if LoopStep(a) {
      LoopKeepsFlags(s, a);
    } else if a.Fire? {
      FireKeepsFlags(s, a.who, a.key);
    } else {
      CallMovesFlags(s, a);
    }
  }

  /** After the last clearing of the stop flag it was set again, and stop() was called. */
  ghost predicate ToldToStop(acts: seq<Action>) {
    && (exists i :: 0 <= i < |acts| && acts[i] == SetAutoStop)
    && (forall c :: 0 <= c < |acts| && acts[c] == ClearStopFlag ==>
          exists d :: c < d < |acts| && acts[d] == SetStopFlag)
  }

  lemma {:induction false} AutoStopWasSet(s: State, acts: seq<Action>) returns (i: nat)
    requires Run(s, acts) && !s.autoStop && After(s, acts).autoStop
    ensures i < |acts| && acts[i] == SetAutoStop
    decreases |acts|
  {
    FlagSteps(s, acts[0]);
    if acts[0] == SetAutoStop {
      i := 0;
    } else {
      var j := AutoStopWasSet(Apply(s, acts[0]), acts[1..]);
      i := j + 1;
    }
  }

  lemma {:induction false} StopFlagWasSet(s: State, acts: seq<Action>) returns (d: nat)
    requires Run(s, acts) && !s.stopFlag && After(s, acts).stopFlag
    ensures d < |acts| && acts[d] == SetStopFlag
    decreases |acts|
  {
    FlagSteps(s, acts[0]);
    if acts[0] == SetStopFlag {
      d := 0;
    } else {
      var j := StopFlagWasSet(Apply(s, acts[0]), acts[1..]);
      d := j + 1;
    }
  }

  lemma SetAfterClear(s: State, acts: seq<Action>, c: nat) returns (d: nat)
    requires Run(s, acts) && c < |acts| && acts[c] == ClearStopFlag && After(s, acts).stopFlag
    ensures c < d < |acts| && acts[d] == SetStopFlag
  {
    RunSplit(s, acts, c);
    var mid := After(s, acts[..c]);
    FrontAt(acts, c);
    RunTail(mid, acts[c], acts[c + 1..]);
    FlagSteps(mid, acts[c]);
    var j := StopFlagWasSet(Apply(mid, acts[c]), acts[c + 1..]);
    d := c + 1 + j;
  }

  /** A worker leaves `run` only if stop() was called before, and the flag that start()
      clears was set again after its last clearing. */
  lemma LeavesOnlyWhenTold(ids: set<ThreadId>, acts: seq<Action>, t: ThreadId) returns (k: nat)
    requires Run(Init(ids), acts) && t in ids && At(After(Init(ids), acts), t, Left)
    ensures k <= |acts| && SawStopping(Init(ids), acts, k, t) && ToldToStop(acts[..k])
  {
    k := LeavesOnlyAfterStopping(ids, acts, t);
    var before := acts[..k];
    var i := AutoStopWasSet(Init(ids), before);
    forall c | 0 <= c < |before| && before[c] == ClearStopFlag
      ensures exists d :: c < d < |before| && before[d] == SetStopFlag
    {
      var d := SetAfterClear(Init(ids), before, c);
    }
  }
}
