/** The scheduler as a transition system: any number of worker threads inside
    `Scheduler::run`, any number of fibers and callbacks, and outside threads.
    Every step is one lock region, one atomic operation, or one stretch of code
    that touches only data of its own thread (vity/scheduler.cc, vity/scheduler.h). */
module SchedulerState {
  import opened Wrappers
  import opened FiberModel

  type ThreadId = int

  const ANY_THREAD: ThreadId := -1

  /** What one queue entry asks for: a fiber to resume or a callback to start. */
  datatype Work = RunFiber(fiber: FiberId) | RunCb(job: Job)

  /** `FiberAndThread`: the work and the thread it is pinned to (or ANY_THREAD). */
  datatype Entry = Entry(work: Work, thread: ThreadId)

  /** Where a worker stands in `run`. */
  datatype Pc =
    | Outside                               // not yet in `run`
    | Head                                  // at the top of the loop, about to scan
    | Holding(work: Work)                   // took `work`, has not started it
    | Empty                                 // the scan found nothing
    | Running(fiber: FiberId, viaCb: bool)  // inside the fiber; viaCb: it is this thread's cb_fiber
    | Back(fiber: FiberId, viaCb: bool)     // swapIn returned, still counted as active
    | Done(fiber: FiberId, viaCb: bool)     // no longer counted, the fiber's state not yet looked at
    | IdleCheck                             // idle fiber, about to call stopping()
    | IdleWait                              // idle fiber, waiting for and delivering events
    | IdleBack                              // the idle fiber returned, idle count not yet lowered
    | Left                                  // out of `run`

  datatype Worker = Worker(pc: Pc, cbFiber: Option<FiberId>, idle: FiberState)

  /** An event slot of the IO manager: file descriptor and direction. */
  datatype Key = Key(fd: int, write: bool)

  /** What an occupied event slot will schedule when it is triggered. */
  datatype Waiter = WaitFiber(fiber: FiberId) | WaitCb

  datatype Start = Start(job: Job, thread: ThreadId)

  /** `pins`, `finished`, `starts` and `lastScan` are history: `pins[j]` is the
      thread callback j was scheduled for, and `lastScan` is the last thread that
      scanned, forgotten when an outside thread adds to the queue. */
  datatype State = State(
    queue: seq<Entry>,
    fibers: map<FiberId, FiberRec>,
    workers: map<ThreadId, Worker>,
    slots: map<Key, Waiter>,
    active: int,
    idleCount: int,
    pending: int,
    autoStop: bool,
    stopFlag: bool,
    pins: seq<ThreadId>,
    finished: set<Job>,
    starts: seq<Start>,
    lastScan: Option<ThreadId>)

  /** Who performs a call: user code in a fiber that thread t runs, the event
      loop of thread t's idle fiber, or a thread that is not a worker. */
  datatype Caller = ByFiber(t: ThreadId) | ByIdle(t: ThreadId) | ByOutside

  datatype Action =
    | NewFiber(f: FiberId)
    | ScheduleFiber(who: Caller, f: FiberId, pin: ThreadId)
    | ScheduleCb(who: Caller, pin: ThreadId)
    | ArmFiber(t: ThreadId, key: Key)
    | ArmCb(who: Caller, key: Key)
    | Disarm(who: Caller, key: Key)
    | Fire(who: Caller, key: Key)
    | Enter(t: ThreadId)
    | Scan(t: ThreadId)
    | Resume(t: ThreadId)
    | StartCb(t: ThreadId, f: FiberId)
    | Discard(t: ThreadId)
    | YieldReady(t: ThreadId)
    | YieldHold(t: ThreadId)
    | Finish(t: ThreadId, threw: bool)
    | LowerActive(t: ThreadId)
    | Requeue(t: ThreadId)
    | Settle(t: ThreadId)
    | EnterIdle(t: ThreadId)
    | CheckStop(t: ThreadId)
    | LeaveIdle(t: ThreadId)
    | LowerIdle(t: ThreadId)
    | Exit(t: ThreadId)
    | SetAutoStop
    | SetStopFlag
    | ClearStopFlag

  function Init(ids: set<ThreadId>): State {
    State([], map[], map t | t in ids :: Worker(Outside, None, INIT), map[], 0, 0, 0,
          false, true, [], {}, [], None)
  }

  // ---------------------------------------------------------------- the queue

  /** Whether thread t may take entry e: not pinned elsewhere, and not a fiber
      that is executing. */
  predicate Eligible(e: Entry, fibers: map<FiberId, FiberRec>, t: ThreadId) {
    && (e.thread == ANY_THREAD || e.thread == t)
    && !(e.work.RunFiber? && e.work.fiber in fibers && fibers[e.work.fiber].state == EXEC)
  }

  /** The position of the first entry thread t may take, or |q|. */
  function FirstEligible(q: seq<Entry>, fibers: map<FiberId, FiberRec>, t: ThreadId): (k: nat)
    ensures k <= |q|
    ensures forall i :: 0 <= i < k ==> !Eligible(q[i], fibers, t)
    ensures k < |q| ==> Eligible(q[k], fibers, t)
  {
    if q == [] || Eligible(q[0], fibers, t) then 0 else 1 + FirstEligible(q[1..], fibers, t)
  }

  function Without<T>(q: seq<T>, k: nat): seq<T>
    requires k < |q|
  {
    q[..k] + q[k + 1..]
  }

  /** `IOManager::stopping`, taken as one snapshot. */
  predicate Stopping(s: State) {
    s.pending == 0 && s.autoStop && s.stopFlag && s.queue == [] && s.active == 0
  }

  // ---------------------------------------------------------------- wake-ups

  /** The places where a wake-up of a fiber, or a callback, can be. */
  datatype Source =
    | InQueue(i: int)      // the entry at position i
    | InHand(t: ThreadId)  // taken by worker t and not yet started
    | InSlot(key: Key)     // an event slot
    | Yielding(t: ThreadId) // a READY fiber that worker t will requeue
    | InFiber(f: FiberId)  // the body of a fiber that has not ended
    | Ended                // has run to its end

  predicate Returning(pc: Pc) {
    pc.Back? || pc.Done?
  }

  predicate Carries(s: State, src: Source, w: Work) {
    match src
    case InQueue(i) => 0 <= i < |s.queue| && s.queue[i].work == w
    case InHand(t) => t in s.workers && s.workers[t].pc == Holding(w)
    case InSlot(key) => key in s.slots && w.RunFiber? && s.slots[key] == WaitFiber(w.fiber)
    case Yielding(t) =>
      && t in s.workers && w.RunFiber? && w.fiber in s.fibers && s.fibers[w.fiber].state == READY
      && Returning(s.workers[t].pc) && s.workers[t].pc.fiber == w.fiber
    case InFiber(f) =>
      && f in s.fibers && !Dead(s.fibers[f].state)
      && w.RunCb? && s.fibers[f].body == Some(w.job)
    case Ended => w.RunCb? && w.job in s.finished
  }

  /** No wake-up of f is outstanding. */
  ghost predicate Free(s: State, f: FiberId) {
    forall src :: !Carries(s, src, RunFiber(f))
  }

  // ---------------------------------------------------------------- the steps

  predicate At(s: State, t: ThreadId, pc: Pc) {
    t in s.workers && s.workers[t].pc == pc
  }

  predicate CallerReady(s: State, who: Caller) {
    match who
    case ByFiber(t) => t in s.workers && s.workers[t].pc.Running?
    case ByIdle(t) => At(s, t, IdleWait)
    case ByOutside => true
  }

  /** Worker t has taken a fiber from the queue. */
  predicate HoldsFiber(s: State, t: ThreadId) {
    && t in s.workers && s.workers[t].pc.Holding? && s.workers[t].pc.work.RunFiber?
    && s.workers[t].pc.work.fiber in s.fibers
  }

  predicate HoldsCb(s: State, t: ThreadId) {
    t in s.workers && s.workers[t].pc.Holding? && s.workers[t].pc.work.RunCb?
  }

  predicate Executes(s: State, t: ThreadId) {
    t in s.workers && s.workers[t].pc.Running? && s.workers[t].pc.fiber in s.fibers
  }

  /** Worker t is about to look at the state of the fiber it has come back from. */
  predicate Inspects(s: State, t: ThreadId) {
    t in s.workers && s.workers[t].pc.Done? && s.workers[t].pc.fiber in s.fibers
  }

  /** When the code can perform step a. */
  predicate Enabled(s: State, a: Action) {
    match a
    case NewFiber(f) => f !in s.fibers
    case ScheduleFiber(who, f, _) => CallerReady(s, who) && !who.ByIdle? && f in s.fibers
    case ScheduleCb(who, _) => CallerReady(s, who) && !who.ByIdle?
    case ArmFiber(t, key) => CallerReady(s, ByFiber(t)) && key !in s.slots
    case ArmCb(who, key) => CallerReady(s, who) && !who.ByIdle? && key !in s.slots
    case Disarm(who, key) => CallerReady(s, who) && !who.ByIdle? && key in s.slots
    case Fire(who, key) => CallerReady(s, who) && key in s.slots
    case Enter(t) => At(s, t, Outside)
    case Scan(t) => At(s, t, Head)
    case Resume(t) => HoldsFiber(s, t) && !Dead(s.fibers[s.workers[t].pc.work.fiber].state)
    case StartCb(t, f) => HoldsCb(s, t) && (s.workers[t].cbFiber.None? ==> f !in s.fibers)
    case Discard(t) => HoldsFiber(s, t) && Dead(s.fibers[s.workers[t].pc.work.fiber].state)
    case YieldReady(t) => Executes(s, t)
    case YieldHold(t) => Executes(s, t)
    case Finish(t, _) => Executes(s, t)
    case LowerActive(t) => t in s.workers && s.workers[t].pc.Back?
    case Requeue(t) => Inspects(s, t) && s.fibers[s.workers[t].pc.fiber].state == READY
    case Settle(t) => Inspects(s, t) && Dead(s.fibers[s.workers[t].pc.fiber].state)
    case EnterIdle(t) => At(s, t, Empty) && s.workers[t].idle != TERM
    case CheckStop(t) => At(s, t, IdleCheck)
    case LeaveIdle(t) => At(s, t, IdleWait)
    case LowerIdle(t) => At(s, t, IdleBack)
    case Exit(t) => At(s, t, Empty) && s.workers[t].idle == TERM
    case SetAutoStop => true
    case SetStopFlag => true
    case ClearStopFlag => true
  }

  /** The steps of a worker with a task, once it has taken one. */
  predicate TaskStep(a: Action) {
    a.Resume? || a.StartCb? || a.Discard? || a.YieldReady? || a.YieldHold? || a.Finish?
    || a.LowerActive? || a.Requeue? || a.Settle?
  }

  /** The steps of a worker without one, into and out of its idle fiber and the loop. */
  predicate LoopStep(a: Action) {
    a.Enter? || a.EnterIdle? || a.CheckStop? || a.LeaveIdle? || a.LowerIdle? || a.Exit?
  }

  /** Calls of user code and of outside threads, other than those that fire an event. */
  predicate CallStep(a: Action) {
    !a.Scan? && !TaskStep(a) && !LoopStep(a) && !a.Fire?
  }

  function SetWorker(s: State, t: ThreadId, w: Worker): State {
    s.(workers := s.workers[t := w])
  }

  function GoTo(s: State, t: ThreadId, pc: Pc): State
    requires t in s.workers
  {
    SetWorker(s, t, s.workers[t].(pc := pc))
  }

  function SetFiber(s: State, f: FiberId, fr: FiberRec): State {
    s.(fibers := s.fibers[f := fr])
  }

  /** Back to the loop head from a fiber; a callback fiber is given away if it lives on. */
  function ToHead(s: State, t: ThreadId): State
    requires t in s.workers && (s.workers[t].pc.Running? || s.workers[t].pc.Done?)
  {
    var w := s.workers[t];
    SetWorker(s, t, Worker(Head, if w.pc.viaCb then None else w.cbFiber, w.idle))
  }

  /** Appends to the queue; an addition by an outside thread voids `lastScan`. */
  function Push(s: State, who: Caller, w: Work, pin: ThreadId): State {
    s.(queue := s.queue + [Entry(w, pin)],
       lastScan := if who.ByOutside? then None else s.lastScan)
  }

  /** A callback enters the system and the queue. */
  function PushNew(s: State, who: Caller, pin: ThreadId): State {
    Push(s.(pins := s.pins + [pin]), who, RunCb(|s.pins|), pin)
  }

  function Clear(s: State, key: Key): State {
    s.(slots := s.slots - {key}, pending := s.pending - 1)
  }

  function Fired(s: State, who: Caller, key: Key): State
    requires key in s.slots
  {
    if s.slots[key].WaitFiber? then Push(Clear(s, key), who, RunFiber(s.slots[key].fiber), ANY_THREAD)
    else PushNew(Clear(s, key), who, ANY_THREAD)
  }

  /** Thread t takes entry k. */
  function Taken(s: State, t: ThreadId, k: nat): State
    requires t in s.workers && k < |s.queue|
  {
    GoTo(s, t, Holding(s.queue[k].work))
      .(queue := Without(s.queue, k), active := s.active + 1, lastScan := Some(t))
  }

  function Scanned(s: State, t: ThreadId): State
    requires t in s.workers
  {
    var k := FirstEligible(s.queue, s.fibers, t);
    if k < |s.queue| then Taken(s, t, k) else GoTo(s, t, Empty).(lastScan := Some(t))
  }

  /** The first time a fiber with a body is resumed, its body starts. */
  function Resumed(s: State, t: ThreadId): State
    requires HoldsFiber(s, t)
  {
    var f := s.workers[t].pc.work.fiber;
    var fr := s.fibers[f];
    SetFiber(GoTo(s, t, Running(f, false)), f, FiberRec(EXEC, fr.body))
      .(starts := s.starts + (if fr.state == INIT && fr.body.Some? then [Start(fr.body.value, t)] else []))
  }

  /** The fiber in which worker t starts a callback: its own one, or a new one. */
  function CbFiberFor(s: State, t: ThreadId, f: FiberId): FiberId
    requires t in s.workers
  {
    if s.workers[t].cbFiber.Some? then s.workers[t].cbFiber.value else f
  }

  function CbStarted(s: State, t: ThreadId, c: FiberId): State
    requires HoldsCb(s, t)
  {
    var job := s.workers[t].pc.work.job;
    SetFiber(SetWorker(s, t, Worker(Running(c, true), Some(c), s.workers[t].idle)), c, FiberRec(EXEC, Some(job)))
      .(starts := s.starts + [Start(job, t)])
  }

  function Discarded(s: State, t: ThreadId): State
    requires t in s.workers
  {
    GoTo(s, t, Head).(active := s.active - 1)
  }

  function YieldedReady(s: State, t: ThreadId): State
    requires Executes(s, t)
  {
    var pc := s.workers[t].pc;
    SetFiber(GoTo(s, t, Back(pc.fiber, pc.viaCb)), pc.fiber, FiberRec(READY, s.fibers[pc.fiber].body))
  }

  function YieldedHold(s: State, t: ThreadId): State
    requires Executes(s, t)
  {
    var f := s.workers[t].pc.fiber;
    SetFiber(ToHead(s, t), f, FiberRec(HOLD, s.fibers[f].body)).(active := s.active - 1)
  }

  function BodySet(fr: FiberRec): set<Job> {
    if fr.body.Some? then {fr.body.value} else {}
  }

  function Finished(s: State, t: ThreadId, threw: bool): State
    requires Executes(s, t)
  {
    var pc := s.workers[t].pc;
    var fr := s.fibers[pc.fiber];
    SetFiber(GoTo(s, t, Back(pc.fiber, pc.viaCb)), pc.fiber, AfterRun(fr, threw))
      .(finished := s.finished + BodySet(fr))
  }

  function ActiveLowered(s: State, t: ThreadId): State
    requires t in s.workers && s.workers[t].pc.Back?
  {
    var pc := s.workers[t].pc;
    GoTo(s, t, Done(pc.fiber, pc.viaCb)).(active := s.active - 1)
  }

  function Requeued(s: State, t: ThreadId): State
    requires Inspects(s, t)
  {
    Push(ToHead(s, t), ByFiber(t), RunFiber(s.workers[t].pc.fiber), ANY_THREAD)
  }

  /** An ended fiber is dropped; the worker's own callback fiber is blanked for reuse. */
  function Settled(s: State, t: ThreadId): State
    requires Inspects(s, t)
  {
    var pc := s.workers[t].pc;
    if pc.viaCb then SetFiber(GoTo(s, t, Head), pc.fiber, FiberRec(INIT, None))
    else GoTo(s, t, Head)
  }

  /** The state after step a. */
  function Apply(s: State, a: Action): State
    requires Enabled(s, a)
  {
    match a
    case NewFiber(f) =>
      SetFiber(s.(pins := s.pins + [ANY_THREAD]), f, FiberRec(INIT, Some(|s.pins|)))
    case ScheduleFiber(who, f, pin) => Push(s, who, RunFiber(f), pin)
    case ScheduleCb(who, pin) => PushNew(s, who, pin)
    case ArmFiber(t, key) =>
      s.(slots := s.slots[key := WaitFiber(s.workers[t].pc.fiber)], pending := s.pending + 1)
    case ArmCb(_, key) => s.(slots := s.slots[key := WaitCb], pending := s.pending + 1)
    case Disarm(_, key) => Clear(s, key)
    case Fire(who, key) => Fired(s, who, key)
    case Enter(t) => GoTo(s, t, Head)
    case Scan(t) => Scanned(s, t)
    case Resume(t) => Resumed(s, t)
    case StartCb(t, f) => CbStarted(s, t, CbFiberFor(s, t, f))
    case Discard(t) => Discarded(s, t)
    case YieldReady(t) => YieldedReady(s, t)
    case YieldHold(t) => YieldedHold(s, t)
    case Finish(t, threw) => Finished(s, t, threw)
    case LowerActive(t) => ActiveLowered(s, t)
    case Requeue(t) => Requeued(s, t)
    case Settle(t) => Settled(s, t)
    case EnterIdle(t) =>
      SetWorker(s, t, Worker(IdleCheck, s.workers[t].cbFiber, EXEC)).(idleCount := s.idleCount + 1)
    case CheckStop(t) =>
      if Stopping(s) then SetWorker(s, t, Worker(IdleBack, s.workers[t].cbFiber, TERM))
      else GoTo(s, t, IdleWait)
    case LeaveIdle(t) => GoTo(s, t, IdleBack)
    case LowerIdle(t) =>
      var w := s.workers[t];
      SetWorker(s, t, Worker(Head, w.cbFiber, if Dead(w.idle) then w.idle else HOLD))
        .(idleCount := s.idleCount - 1)
    case Exit(t) => GoTo(s, t, Left)
    case SetAutoStop => s.(autoStop := true)
    case SetStopFlag => s.(stopFlag := true)
    case ClearStopFlag => s.(stopFlag := false)
  }

  /** What user code must respect: no second wake-up for a fiber that has one, and
      none for a callback fiber that its worker keeps for reuse; a fiber with a
      wake-up outstanding does not yield as READY, nor end as a callback fiber. */
  ghost predicate Disciplined(s: State, a: Action)
    requires Enabled(s, a)
  {
    match a
    case ScheduleFiber(who, f, pin) => Free(s, f) && !KeptForReuse(s, f)
    case ArmFiber(t, key) => Free(s, s.workers[t].pc.fiber)
    case YieldReady(t) => Free(s, s.workers[t].pc.fiber)
    case Finish(t, threw) => s.workers[t].pc.viaCb ==> Free(s, s.workers[t].pc.fiber)
    case _ => true
  }

  ghost predicate KeptForReuse(s: State, f: FiberId) {
    exists t :: t in s.workers && s.workers[t].cbFiber == Some(f) && s.workers[t].pc != Running(f, true)
  }

  ghost predicate Allowed(s: State, a: Action) {
    Enabled(s, a) && Disciplined(s, a)
  }

  // ---------------------------------------------------------------- runs

  ghost predicate Run(s: State, acts: seq<Action>)
    decreases |acts|
  {
    acts == [] || (Allowed(s, acts[0]) && Run(Apply(s, acts[0]), acts[1..]))
  }

  ghost function After(s: State, acts: seq<Action>): State
    requires Run(s, acts)
    decreases |acts|
  {
    if acts == [] then s else After(Apply(s, acts[0]), acts[1..])
  }

  /** A run is a step and the run from there. */
  lemma RunCons(s: State, a: Action, rest: seq<Action>)
    requires Allowed(s, a) && Run(Apply(s, a), rest)
    ensures Run(s, [a] + rest) && After(s, [a] + rest) == After(Apply(s, a), rest)
  {
    var acts := [a] + rest;
    assert acts[0] == a && acts[1..] == rest;
  }
}
