/** `Fiber` and `Scheduler` as objects updated in place.  Each method is one lock
    region or one thread-local stretch of the code and is proved to make exactly
    the step of the transition system that carries its name. */
module SchedulerCode {
  import opened Wrappers
  import opened FiberModel
  import opened SchedulerState

  class Fiber {
    var m_state: FiberState
    var m_cb: Option<Job>

    function Rec(): FiberRec
      reads this
    {
      FiberRec(m_state, m_cb)
    }

    constructor (cb: Option<Job>)
      ensures Rec() == FiberRec(INIT, cb)
    {
      m_state, m_cb := INIT, cb;
    }

    method Reset(cb: Option<Job>)
      requires Reusable(m_state)
      modifies this
      ensures Rec() == FiberRec(INIT, cb)
    {
      m_cb := cb;
      m_state := INIT;
    }

    method SwapIn()
      requires m_state != EXEC
      modifies this
      ensures Rec() == FiberRec(EXEC, old(m_cb))
    {
      m_state := EXEC;
    }

    /** What `MainFunc` does once the body has returned or thrown. */
    method EndMain(threw: bool)
      modifies this
      ensures Rec() == AfterRun(old(Rec()), threw)
      ensures if threw then m_state == EXCEPT && m_cb == old(m_cb) else m_state == TERM && m_cb == None
    {
      if threw {
        m_state := EXCEPT;
      } else {
        m_cb := None;
        m_state := TERM;
      }
    }

    method Yield(st: FiberState)
      requires st == READY || st == HOLD
      modifies this
      ensures Rec() == FiberRec(st, old(m_cb))
    {
      m_state := st;
    }
  }

  /** Some entry is pinned to a thread other than t. */
  ghost predicate PassedOver(q: seq<Entry>, t: ThreadId) {
    exists e :: e in q && e.thread != ANY_THREAD && e.thread != t
  }

  /** What `schedule` is given: a shared fiber pointer or a function, possibly empty. */
  datatype FiberOrCb = FiberArg(fiber: Option<FiberId>) | CbArg(given: bool)

  class Scheduler {
    var m_fibers: seq<Entry>
    var m_activeThreadCount: int
    var m_idleThreadCount: int
    var m_pendingEventCount: int
    var m_autoStop: bool
    var m_stopping: bool
    /** The fibers that exist, by id. */
    var fibers: map<FiberId, Fiber>
    /** The locals of `run` on each thread. */
    var workers: map<ThreadId, Worker>
    ghost var slots: map<Key, Waiter>
    ghost var pins: seq<ThreadId>
    ghost var finished: set<Job>
    ghost var starts: seq<Start>
    ghost var lastScan: Option<ThreadId>
    var nextJob: nat

    ghost predicate Valid()
      reads this
    {
      && nextJob == |pins|
      && forall f, g :: f in fibers && g in fibers && fibers[f] == fibers[g] ==> f == g
    }

    ghost function Records(): map<FiberId, FiberRec>
      reads this, fibers.Values
    {
      map f | f in fibers :: fibers[f].Rec()
    }

    ghost function View(): State
      reads this, fibers.Values
    {
      State(m_fibers, Records(), workers, slots, m_activeThreadCount, m_idleThreadCount,
            m_pendingEventCount, m_autoStop, m_stopping, pins, finished, starts, lastScan)
    }

    /** What `Fiber::reset` asserts of the worker's callback fiber. */
    predicate CbFiberReusable(t: ThreadId)
      reads this, fibers.Values
    {
      t in workers && workers[t].cbFiber.Some? ==>
        workers[t].cbFiber.value in fibers && Reusable(fibers[workers[t].cbFiber.value].m_state)
    }

    /** `scheduleNoLock` under the lock: an empty pointer or function is not queued. */
    method Schedule(ghost who: Caller, fc: FiberOrCb, thread: ThreadId) returns (needTickle: bool)
      requires Valid()
      modifies this
      ensures Valid() && fibers == old(fibers)
      ensures needTickle <==> old(m_fibers) == []
      ensures View() == match fc
        case FiberArg(Some(f)) => old(Push(View(), who, RunFiber(f), thread))
        case CbArg(true) => old(PushNew(View(), who, thread))
        case _ => old(View())
    {
      needTickle := m_fibers == [];
      var work: Option<Work> := None;
      match fc {
        case FiberArg(fiber) =>
          if fiber.Some? {
            work := Some(RunFiber(fiber.value));
          }
        case CbArg(given) =>
          if given {
            work := Some(RunCb(nextJob));
            nextJob := nextJob + 1;
            pins := pins + [thread];
          }
      }
      if work.Some? {
        m_fibers := m_fibers + [Entry(work.value, thread)];
        lastScan := if who.ByOutside? then None else lastScan;
      }
    }

    /** The loop of the locked scan: the first entry thread t may take, and whether
        an entry pinned to another thread was passed over. */
    method FindEligible(t: ThreadId) returns (it: nat, tickleMe: bool)
      requires forall i :: 0 <= i < |m_fibers| && m_fibers[i].work.RunFiber? ==> m_fibers[i].work.fiber in fibers
      ensures it == FirstEligible(m_fibers, Records(), t)
      ensures tickleMe <==> PassedOver(m_fibers[..it], t)
    {
      it, tickleMe := 0, false;
      ghost var recs := Records();
      while it < |m_fibers|
        invariant 0 <= it <= |m_fibers|
        invariant forall i :: 0 <= i < it ==> !Eligible(m_fibers[i], recs, t)
        invariant tickleMe <==> PassedOver(m_fibers[..it], t)
      {
        var e := m_fibers[it];
        assert m_fibers[..it + 1] == m_fibers[..it] + [e];
        if e.thread != ANY_THREAD && e.thread != t {
          it := it + 1;
          tickleMe := true;
          continue;
        }
        if e.work.RunFiber? && fibers[e.work.fiber].m_state == EXEC {
          it := it + 1;
          continue;
        }
        break;
      }
      FirstIs(m_fibers, recs, t, it);
    }

    method Take(t: ThreadId, it: nat)
      requires Valid() && t in workers && it < |m_fibers|
      modifies this
      ensures Valid() && fibers == old(fibers)
      ensures View() == old(Taken(View(), t, it))
    {
      workers := workers[t := workers[t].(pc := Holding(m_fibers[it].work))];
      m_fibers := m_fibers[..it] + m_fibers[it + 1..];
      m_activeThreadCount := m_activeThreadCount + 1;
      lastScan := Some(t);
    }

    /** The locked scan at the top of `run`'s loop. */
    method Scan(t: ThreadId) returns (tickleMe: bool, isActive: bool)
      requires Valid() && At(View(), t, Head)
      requires forall i :: 0 <= i < |m_fibers| && m_fibers[i].work.RunFiber? ==> m_fibers[i].work.fiber in fibers
      modifies this
      ensures Valid() && fibers == old(fibers)
      ensures View() == old(Scanned(View(), t))
      ensures isActive <==> workers[t].pc != Empty
      ensures tickleMe <==> old(PassedOver(m_fibers[..FirstEligible(m_fibers, Records(), t)], t))
    {
      var it;
      it, tickleMe := FindEligible(t);
      isActive := it < |m_fibers|;
      if isActive {
        Take(t, it);
      } else {
        FindNothing(t);
      }
    }

    method FindNothing(t: ThreadId)
      requires Valid() && t in workers
      modifies this`workers, this`lastScan
      ensures Valid() && View() == old(GoTo(View(), t, Empty).(lastScan := Some(t)))
    {
      workers := workers[t := workers[t].(pc := Empty)];
      lastScan := Some(t);
    }

    /** A taken fiber is resumed if it can still run, and dropped if it is dead. */
    method ResumeOrDrop(t: ThreadId)
      requires Valid() && HoldsFiber(View(), t) && fibers[workers[t].pc.work.fiber].m_state != EXEC
      modifies this, fibers.Values
      ensures Valid() && fibers == old(fibers)
      ensures View() == old(
        if Dead(View().fibers[View().workers[t].pc.work.fiber].state) then Discarded(View(), t)
        else Resumed(View(), t))
    {
      var w := workers[t];
      var f := w.pc.work.fiber;
      var fiber := fibers[f];
      ghost var recs := Records();
      assert recs[f] == fiber.Rec();
      if !Dead(fiber.m_state) {
        if fiber.m_state == INIT && fiber.m_cb.Some? {
          starts := starts + [Start(fiber.m_cb.value, t)];
        }
        fiber.SwapIn();
        workers := workers[t := w.(pc := Running(f, false))];
        assert Records() == recs[f := fiber.Rec()];
      } else {
        m_activeThreadCount := m_activeThreadCount - 1;
        workers := workers[t := w.(pc := Head)];
      }
    }

    /** The fiber for a callback: the worker's own one reset to it, or a new one. */
    method ObtainCbFiber(t: ThreadId, job: Job, freshId: FiberId) returns (c: FiberId)
      requires Valid() && HoldsCb(View(), t) && freshId !in fibers
      requires CbFiberReusable(t)
      modifies this`fibers, fibers.Values
      ensures Valid() && fresh(fibers.Values - old(fibers.Values))
      ensures c == old(CbFiberFor(View(), t, freshId)) && c in fibers
      ensures Records() == old(Records())[c := FiberRec(INIT, Some(job))]
    {
      var w := workers[t];
      ghost var recs := Records();
      if w.cbFiber.Some? {
        c := w.cbFiber.value;
        assert recs[c] == fibers[c].Rec();
        fibers[c].Reset(Some(job));
      } else {
        c := freshId;
        var fiber := new Fiber(Some(job));
        fibers := fibers[c := fiber];
      }
      assert Records() == recs[c := FiberRec(INIT, Some(job))];
    }

    /** A taken callback is put into the worker's own callback fiber, or a new one. */
    method StartCallback(t: ThreadId, freshId: FiberId) returns (c: FiberId)
      requires Valid() && HoldsCb(View(), t) && freshId !in fibers
      requires CbFiberReusable(t)
      modifies this, fibers.Values
      ensures Valid() && fresh(fibers.Values - old(fibers.Values))
      ensures c == old(CbFiberFor(View(), t, freshId))
      ensures View() == old(CbStarted(View(), t, c))
    {
      var w := workers[t];
      ghost var recs := Records();
      c := ObtainCbFiber(t, w.pc.work.job, freshId);
      assert Records()[c] == fibers[c].Rec();
      fibers[c].SwapIn();
      assert Records() == recs[c := FiberRec(EXEC, Some(w.pc.work.job))];
      NoteStart(t, c, w.pc.work.job);
    }

    method NoteStart(t: ThreadId, c: FiberId, job: Job)
      requires t in workers
      modifies this`workers, this`starts
      ensures workers == old(workers)[t := Worker(Running(c, true), Some(c), old(workers)[t].idle)]
      ensures starts == old(starts) + [Start(job, t)]
      ensures Records() == old(Records())
    {
      starts := starts + [Start(job, t)];
      workers := workers[t := Worker(Running(c, true), Some(c), workers[t].idle)];
    }

    /** The running fiber's body has returned or thrown. */
    method EndFiber(t: ThreadId, threw: bool)
      requires Valid() && Executes(View(), t)
      modifies this, fibers.Values
      ensures Valid() && fibers == old(fibers)
      ensures View() == old(Finished(View(), t, threw))
    {
      var pc := workers[t].pc;
      ghost var recs := Records();
      var fiber := fibers[pc.fiber];
      assert recs[pc.fiber] == fiber.Rec();
      finished := finished + BodySet(fiber.Rec());
      fiber.EndMain(threw);
      workers := workers[t := workers[t].(pc := Back(pc.fiber, pc.viaCb))];
      assert Records() == recs[pc.fiber := fiber.Rec()];
    }

    method YieldToReady(t: ThreadId)
      requires Valid() && Executes(View(), t)
      modifies this, fibers.Values
      ensures Valid() && fibers == old(fibers)
      ensures View() == old(YieldedReady(View(), t))
    {
      var pc := workers[t].pc;
      ghost var recs := Records();
      var fiber := fibers[pc.fiber];
      assert recs[pc.fiber] == fiber.Rec();
      fiber.Yield(READY);
      workers := workers[t := workers[t].(pc := Back(pc.fiber, pc.viaCb))];
      assert Records() == recs[pc.fiber := fiber.Rec()];
    }

    /** Yielding on HOLD together with what `run` does after it. */
    method YieldToHold(t: ThreadId)
      requires Valid() && Executes(View(), t)
      modifies this, fibers.Values
      ensures Valid() && fibers == old(fibers)
      ensures View() == old(YieldedHold(View(), t))
    {
      var w := workers[t];
      ghost var recs := Records();
      var fiber := fibers[w.pc.fiber];
      assert recs[w.pc.fiber] == fiber.Rec();
      fiber.Yield(HOLD);
      m_activeThreadCount := m_activeThreadCount - 1;
      var cbFiber := w.cbFiber;
      if w.pc.viaCb {
        cbFiber := None;
      }
      workers := workers[t := Worker(Head, cbFiber, w.idle)];
      assert Records() == recs[w.pc.fiber := fiber.Rec()];
    }

    method LowerActive(t: ThreadId)
      requires Valid() && t in workers && workers[t].pc.Back?
      modifies this
      ensures Valid() && fibers == old(fibers)
      ensures View() == old(ActiveLowered(View(), t))
    {
      var pc := workers[t].pc;
      m_activeThreadCount := m_activeThreadCount - 1;
      workers := workers[t := workers[t].(pc := Done(pc.fiber, pc.viaCb))];
    }

    /** What `run` does with the fiber it came back from, by the fiber's state. */
    method AfterReturn(t: ThreadId)
      requires Valid() && Inspects(View(), t)
      requires fibers[workers[t].pc.fiber].m_state == READY || Dead(fibers[workers[t].pc.fiber].m_state)
      modifies this, fibers.Values
      ensures Valid() && fibers == old(fibers)
      ensures View() == old(
        if View().fibers[View().workers[t].pc.fiber].state == READY then Requeued(View(), t)
        else Settled(View(), t))
    {
      var w := workers[t];
      var f := w.pc.fiber;
      var fiber := fibers[f];
      ghost var recs := Records();
      assert recs[f] == fiber.Rec();
      if fiber.m_state == READY {
        var _ := Schedule(ByFiber(t), FiberArg(Some(f)), ANY_THREAD);
        var cbFiber := w.cbFiber;
        if w.pc.viaCb {
          cbFiber := None;
        }
        workers := workers[t := Worker(Head, cbFiber, w.idle)];
      } else {
        if w.pc.viaCb {
          fiber.Reset(None);
        }
        workers := workers[t := w.(pc := Head)];
        assert Records() == if w.pc.viaCb then recs[f := FiberRec(INIT, None)] else recs;
      }
    }

    /** `IOManager::stopping` over `Scheduler::stopping`. */
    method IsStopping() returns (b: bool)
      ensures b <==> Stopping(View())
    {
      b := m_pendingEventCount == 0;
      if b {
        b := m_autoStop && m_stopping && m_fibers == [] && m_activeThreadCount == 0;
      }
    }

    /** One look of the idle fiber at `stopping()`. */
    method CheckStopping(t: ThreadId)
      requires Valid() && At(View(), t, IdleCheck)
      modifies this
      ensures Valid() && fibers == old(fibers)
      ensures View() == old(Apply(View(), CheckStop(t)))
      ensures if old(Stopping(View())) then workers[t].pc == IdleBack && workers[t].idle == TERM
              else workers[t].pc == IdleWait && workers[t].idle == old(workers)[t].idle
    {
      var stop := IsStopping();
      var w := workers[t];
      workers := workers[t := if stop then Worker(IdleBack, w.cbFiber, TERM) else w.(pc := IdleWait)];
    }
  }

  /** The first eligible position is the one all before which are not eligible. */
  lemma {:induction false} FirstIs(q: seq<Entry>, fs: map<FiberId, FiberRec>, t: ThreadId, k: nat)
    requires k <= |q| && forall i :: 0 <= i < k ==> !Eligible(q[i], fs, t)
    requires k < |q| ==> Eligible(q[k], fs, t)
    ensures FirstEligible(q, fs, t) == k
  {
  }
}
