/** Events are served: a worker that finds nothing to do and sees no stop gets to where
    it can deliver every event, and what an event schedules it can take itself. */
module SchedulerEvents {
  import opened Wrappers
  import opened FiberModel
  import opened SchedulerState
  import opened SchedulerInvariant
  import opened SchedulerCounts
  import opened SchedulerQueue
  import opened SchedulerShutdown
  import opened SchedulerRuns

  /** Worker t can fire every event that is armed. */
  ghost predicate CanDeliver(s: State, t: ThreadId) {
    forall key :: key in s.slots ==> Enabled(s, Fire(ByIdle(t), key))
  }

  lemma NextWaits(s: State, t: ThreadId, a: Action)
    requires At(s, t, IdleCheck) && !Stopping(s) && Enabled(s, a) && Mover(a) == Some(t)
    ensures a == CheckStop(t) && At(Apply(s, a), t, IdleWait) && Apply(s, a).slots == s.slots
  {
  }

  /** When the idle fiber of t asks whether to stop and the answer is no, then t's next
      step, whichever it is, takes it to where it can deliver every armed event. */
  lemma NoStopLeadsToDelivery(s: State, t: ThreadId, a: Action)
    requires At(s, t, IdleCheck) && !Stopping(s) && Enabled(s, a) && Mover(a) == Some(t)
    ensures CanDeliver(Apply(s, a), t) && Apply(s, a).slots == s.slots
  {
    NextWaits(s, t, a);
  }

  /** There is such a step. */
  lemma IdleAsks(s: State, t: ThreadId)
    requires At(s, t, IdleCheck)
    ensures Allowed(s, CheckStop(t)) && !External(CheckStop(t)) && Mover(CheckStop(t)) == Some(t)
  {
  }

  /** Worker t has moved; queue, fibers, slots and callbacks are as they were. */
  ghost predicate OnlyWorker(s: State, s': State, t: ThreadId) {
    && t in s.workers && t in s'.workers && s'.workers == s.workers[t := s'.workers[t]]
    && s'.queue == s.queue && s'.fibers == s.fibers && s'.slots == s.slots && s'.pins == s.pins
    && s'.pending == s.pending && s'.active == s.active && s'.autoStop == s.autoStop && s'.stopFlag == s.stopFlag
  }

  lemma Onward(a: State, b: State, c: State, t: ThreadId)
    requires Leads(a, b) && Leads(b, c) && OnlyWorker(a, b, t) && OnlyWorker(b, c, t)
    ensures Leads(a, c) && OnlyWorker(a, c, t)
  {
    LeadsOn(a, b, c);
    assert a.workers[t := b.workers[t]][t := c.workers[t]] == a.workers[t := c.workers[t]];
  }

  lemma ScanFindsNothing(s: State, t: ThreadId) returns (s': State)
    requires At(s, t, Head) && NothingFor(s, t)
    ensures Leads(s, s') && OnlyWorker(s, s', t) && At(s', t, Empty) && s'.workers[t].idle == s.workers[t].idle
  {
    ScanChooses(s, t);
    s' := Scanned(s, t);
    LeadsByOne(s, Scan(t));
  }

  lemma StartsIdle(s: State, t: ThreadId) returns (s': State)
    requires At(s, t, Empty) && s.workers[t].idle != TERM
    ensures Leads(s, s') && OnlyWorker(s, s', t) && At(s', t, IdleCheck) && s'.workers[t].idle == EXEC
  {
    s' := Apply(s, EnterIdle(t));
    LeadsByOne(s, EnterIdle(t));
  }

  lemma AsksAndWaits(s: State, t: ThreadId) returns (s': State)
    requires At(s, t, IdleCheck) && s.workers[t].idle == EXEC && !Stopping(s)
    ensures Leads(s, s') && OnlyWorker(s, s', t) && At(s', t, IdleWait) && s'.workers[t].idle == EXEC
  {
    s' := Apply(s, CheckStop(t));
    LeadsByOne(s, CheckStop(t));
  }

  lemma FromEmpty(s: State, t: ThreadId) returns (s': State)
    requires At(s, t, Empty) && s.workers[t].idle != TERM && !Stopping(s)
    ensures Leads(s, s') && OnlyWorker(s, s', t) && At(s', t, IdleWait) && s'.workers[t].idle == EXEC
  {
    var a := StartsIdle(s, t);
    s' := AsksAndWaits(a, t);
    Onward(s, a, s', t);
  }

  lemma WaitingDelivers(s: State, t: ThreadId)
    requires At(s, t, IdleWait)
    ensures CanDeliver(s, t)
  {
  }

  /** A worker at the loop head that finds nothing and has not seen a stop can get, by its
      own steps, to where it waits for events. */
  lemma IdleRound(s: State, t: ThreadId) returns (s': State)
    requires At(s, t, Head) && NothingFor(s, t) && s.workers[t].idle != TERM && !Stopping(s)
    ensures Leads(s, s') && OnlyWorker(s, s', t) && CanDeliver(s', t)
    ensures At(s', t, IdleWait) && s'.workers[t].idle == EXEC
  {
    var a := ScanFindsNothing(s, t);
    s' := FromEmpty(a, t);
    Onward(s, a, s', t);
    WaitingDelivers(s', t);
  }

  lemma LeavesIdle(s: State, t: ThreadId) returns (s': State)
    requires At(s, t, IdleWait) && s.workers[t].idle == EXEC
    ensures Leads(s, s') && OnlyWorker(s, s', t) && At(s', t, IdleBack) && s'.workers[t].idle == EXEC
  {
    s' := Apply(s, LeaveIdle(t));
    LeadsByOne(s, LeaveIdle(t));
  }

  lemma LowersIdle(s: State, t: ThreadId) returns (s': State)
    requires At(s, t, IdleBack) && s.workers[t].idle == EXEC
    ensures Leads(s, s') && OnlyWorker(s, s', t) && At(s', t, Head) && s'.workers[t].idle == HOLD
  {
    s' := Apply(s, LowerIdle(t));
    LeadsByOne(s, LowerIdle(t));
  }

  /** From there it gets back to the loop head, its idle fiber on HOLD. */
  lemma BackFromIdle(s: State, t: ThreadId) returns (s': State)
    requires At(s, t, IdleWait) && s.workers[t].idle == EXEC
    ensures Leads(s, s') && OnlyWorker(s, s', t) && At(s', t, Head) && s'.workers[t].idle == HOLD
  {
    var a := LeavesIdle(s, t);
    s' := LowersIdle(a, t);
    Onward(s, a, s', t);
  }

  /** What firing an event makes ready to be taken. */
  function WorkOf(s: State, w: Waiter): Work {
    if w.WaitFiber? then RunFiber(w.fiber) else RunCb(|s.pins|)
  }

  lemma FireQueues(s: State, t: ThreadId, key: Key) returns (s': State)
    requires At(s, t, IdleWait) && key in s.slots
    ensures Leads(s, s') && s'.queue == s.queue + [Entry(WorkOf(s, s.slots[key]), -1)]
    ensures s'.fibers == s.fibers && s'.workers == s.workers
  {
    s' := Fired(s, ByIdle(t), key);
    LeadsByOne(s, Fire(ByIdle(t), key));
  }

  lemma TakesLast(s: State, t: ThreadId, q: seq<Entry>, w: Work) returns (s': State)
    requires At(s, t, Head) && s.queue == q + [Entry(w, -1)] && !(w.RunFiber? && Executing(s, w.fiber))
    requires forall i :: 0 <= i < |q| ==> NotFor(s, q[i], t)
    ensures Leads(s, s') && At(s', t, Holding(w)) && s'.queue == q && s'.fibers == s.fibers
  {
    assert s.queue[|q|] == Entry(w, -1);
    assert forall i :: 0 <= i < |q| ==> s.queue[i] == q[i] && !Eligible(s.queue[i], s.fibers, t);
    assert !NotFor(s, s.queue[|q|], t);
    assert FirstEligible(s.queue, s.fibers, t) == |q|;
    s' := Taken(s, t, |q|);
    LeadsByOne(s, Scan(t));
  }

  /** An armed event is served by a worker that has nothing else to do: there is a run of
      its own steps in which it delivers the event and takes what the event scheduled. */
  lemma EventIsServed(s: State, t: ThreadId, key: Key) returns (s': State)
    requires At(s, t, Head) && NothingFor(s, t) && s.workers[t].idle != TERM && !Stopping(s)
    requires key in s.slots && (s.slots[key].WaitFiber? ==> !Executing(s, s.slots[key].fiber))
    ensures Leads(s, s') && At(s', t, Holding(WorkOf(s, s.slots[key]))) && s'.queue == s.queue
  {
    var a := IdleRound(s, t);
    var b := FireQueues(a, t, key);
    LeadsOn(s, a, b);
    var c := BackFromIdle(b, t);
    LeadsOn(s, b, c);
    s' := TakesLast(c, t, s.queue, WorkOf(s, s.slots[key]));
    LeadsOn(s, c, s');
  }
}
