/** The scheduler's counters: `m_activeThreadCount`, `m_idleThreadCount` and the
    IO manager's `m_pendingEventCount` count what they are meant to count. */
module SchedulerCounts {
  import opened Wrappers
  import opened FiberModel
  import opened SchedulerState

  /** Between taking a task and giving it back. */
  predicate CountedActive(pc: Pc) {
    pc.Holding? || pc.Running? || pc.Back?
  }

  predicate CountedIdle(pc: Pc) {
    pc == IdleCheck || pc == IdleWait || pc == IdleBack
  }

  function ActiveSet(ws: map<ThreadId, Worker>): set<ThreadId> {
    set t | t in ws && CountedActive(ws[t].pc)
  }

  function IdleSet(ws: map<ThreadId, Worker>): set<ThreadId> {
    set t | t in ws && CountedIdle(ws[t].pc)
  }

  ghost predicate Counts(s: State) {
    && s.active == |ActiveSet(s.workers)|
    && s.idleCount == |IdleSet(s.workers)|
    && s.pending == |s.slots|
  }

  lemma CardinalityWithout<T>(s: set<T>, x: T)
    ensures |s| == |s - {x}| + One(x in s)
  {
    if x in s {
      assert s == (s - {x}) + {x};
    } else {
      assert s == s - {x};
    }
  }

  lemma SetMoves<T>(s: set<T>, s': set<T>, x: T)
    requires s' - {x} == s - {x}
    ensures |s'| == |s| - One(x in s) + One(x in s')
  {
    CardinalityWithout(s, x);
    CardinalityWithout(s', x);
  }

  lemma ActiveSetMoves(ws: map<ThreadId, Worker>, t: ThreadId, w: Worker)
    requires t in ws
    ensures |ActiveSet(ws[t := w])| == |ActiveSet(ws)| - One(CountedActive(ws[t].pc)) + One(CountedActive(w.pc))
  {
    SetMoves(ActiveSet(ws), ActiveSet(ws[t := w]), t);
  }

  lemma IdleSetMoves(ws: map<ThreadId, Worker>, t: ThreadId, w: Worker)
    requires t in ws
    ensures |IdleSet(ws[t := w])| == |IdleSet(ws)| - One(CountedIdle(ws[t].pc)) + One(CountedIdle(w.pc))
  {
    SetMoves(IdleSet(ws), IdleSet(ws[t := w]), t);
  }

  lemma SlotCounts(slots: map<Key, Waiter>, key: Key, waiter: Waiter)
    ensures key !in slots ==> |slots[key := waiter]| == |slots| + 1
    ensures key in slots ==> |slots - {key}| == |slots| - 1
  {
    assert slots[key := waiter].Keys == slots.Keys + {key};
    assert (slots - {key}).Keys == slots.Keys - {key};
  }

  /** The worker that step a moves, if any. */
  function Mover(a: Action): Option<ThreadId> {
    match a
    case Enter(t) => Some(t)
    case Scan(t) => Some(t)
    case Resume(t) => Some(t)
    case StartCb(t, _) => Some(t)
    case Discard(t) => Some(t)
    case YieldReady(t) => Some(t)
    case YieldHold(t) => Some(t)
    case Finish(t, _) => Some(t)
    case LowerActive(t) => Some(t)
    case Requeue(t) => Some(t)
    case Settle(t) => Some(t)
    case EnterIdle(t) => Some(t)
    case CheckStop(t) => Some(t)
    case LeaveIdle(t) => Some(t)
    case LowerIdle(t) => Some(t)
    case Exit(t) => Some(t)
    case _ => None
  }

  /** From s to s' only worker t moves, and no event slot. */
  ghost predicate OnlyMoves(s: State, s': State, t: ThreadId) {
    && t in s.workers && t in s'.workers && s'.workers == s.workers[t := s'.workers[t]]
    && s'.pending == s.pending && s'.slots == s.slots
  }

  /** The counters move exactly when the worker takes a task or gives it back, and
      enters its idle fiber or comes back. */
  ghost predicate CountersMove(s: State, s': State, t: ThreadId) {
    && t in s.workers && t in s'.workers
    && s'.active == s.active - One(CountedActive(s.workers[t].pc)) + One(CountedActive(s'.workers[t].pc))
    && s'.idleCount == s.idleCount - One(CountedIdle(s.workers[t].pc)) + One(CountedIdle(s'.workers[t].pc))
  }

  lemma ScanMoves(s: State, t: ThreadId)
    requires At(s, t, Head)
    ensures OnlyMoves(s, Scanned(s, t), t)
  {
  }

  lemma ScanCounts(s: State, t: ThreadId)
    requires At(s, t, Head)
    ensures CountersMove(s, Scanned(s, t), t)
  {
  }

  lemma TaskMoves(s: State, a: Action, t: ThreadId)
    requires Enabled(s, a) && TaskStep(a) && Mover(a) == Some(t)
    ensures OnlyMoves(s, Apply(s, a), t)
  {
  }

  lemma TaskCounts(s: State, a: Action, t: ThreadId)
    requires Enabled(s, a) && TaskStep(a) && Mover(a) == Some(t)
    ensures CountersMove(s, Apply(s, a), t)
  {
  }

  lemma LoopMoves(s: State, a: Action, t: ThreadId)
    requires Enabled(s, a) && LoopStep(a) && Mover(a) == Some(t)
    ensures OnlyMoves(s, Apply(s, a), t) && CountersMove(s, Apply(s, a), t)
  {
  }

  lemma CallMovesNobody(s: State, a: Action)
    requires Enabled(s, a) && CallStep(a)
    ensures Apply(s, a).workers == s.workers
  {
  }

  lemma FireMovesNobody(s: State, who: Caller, key: Key)
    requires key in s.slots
    ensures Fired(s, who, key).workers == s.workers
  {
  }

  /** A step moves at most the worker that performs it, and then no event slot. */
  lemma OneMoves(s: State, a: Action)
    requires Enabled(s, a)
    ensures Mover(a) == None ==> Apply(s, a).workers == s.workers
    ensures Mover(a).Some? ==> OnlyMoves(s, Apply(s, a), Mover(a).value)
  {
    if a.Scan? {
      ScanMoves(s, a.t);
    } else if TaskStep(a) {
      TaskMoves(s, a, Mover(a).value);
    } else if LoopStep(a) {
      LoopMoves(s, a, Mover(a).value);
    } else if a.Fire? {
      FireMovesNobody(s, a.who, a.key);
    } else {
      CallMovesNobody(s, a);
    }
  }

  lemma WorkersCount(s: State, a: Action, t: ThreadId)
    requires Enabled(s, a) && Mover(a) == Some(t)
    ensures CountersMove(s, Apply(s, a), t)
  {
    if a.Scan? {
      ScanCounts(s, a.t);
    } else if TaskStep(a) {
      TaskCounts(s, a, t);
    } else {
      LoopMoves(s, a, t);
    }
  }

  /** The worker counters are as they were, and the pending counter follows the slots. */
  ghost predicate SlotsCount(s: State, s': State) {
    s'.active == s.active && s'.idleCount == s.idleCount && s'.pending - s.pending == |s'.slots| - |s.slots|
  }

  lemma CallMovesSlots(s: State, a: Action)
    requires Enabled(s, a) && CallStep(a)
    ensures SlotsCount(s, Apply(s, a))
  {
    match a
    case ArmFiber(t, key) => SlotCounts(s.slots, key, WaitFiber(s.workers[t].pc.fiber));
    case ArmCb(_, key) => SlotCounts(s.slots, key, WaitCb);
    case Disarm(_, key) => SlotCounts(s.slots, key, WaitCb);
    case _ =>
  }

  lemma FireMovesSlots(s: State, who: Caller, key: Key)
    requires key in s.slots
    ensures SlotsCount(s, Fired(s, who, key))
  {
    SlotCounts(s.slots, key, WaitCb);
  }

  lemma CountsStep(s: State, a: Action)
    requires Counts(s) && Enabled(s, a)
    ensures Counts(Apply(s, a))
  {
    if Mover(a).Some? {
      var t := Mover(a).value;
      OneMoves(s, a);
      WorkersCount(s, a, t);
      ActiveSetMoves(s.workers, t, Apply(s, a).workers[t]);
      IdleSetMoves(s.workers, t, Apply(s, a).workers[t]);
    } else {
      OneMoves(s, a);
      if a.Fire? {
        FireMovesSlots(s, a.who, a.key);
      } else {
        CallMovesSlots(s, a);
      }
    }
  }
}
