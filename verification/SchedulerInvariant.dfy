/** What every reachable state of the scheduler satisfies about fibers, wake-ups
    and workers, and that every step keeps it. */
module SchedulerInvariant {
  import opened Wrappers
  import opened FiberModel
  import opened SchedulerState
  import opened SchedulerCounts

  /** A wake-up of a fiber, and a callback, is in at most one place. */
  ghost predicate Unique(s: State) {
    forall a, b, w :: Carries(s, a, w) && Carries(s, b, w) ==> a == b
  }

  /** Whether a worker is inside fiber f or still has to deal with its return. */
  predicate Mentions(pc: Pc, f: FiberId) {
    (pc.Running? || pc.Back? || pc.Done?) && pc.fiber == f
  }

  /** Every fiber something refers to exists. */
  ghost predicate Known(s: State) {
    && (forall src, f: FiberId :: Carries(s, src, RunFiber(f)) ==> f in s.fibers)
    && (forall t, f :: t in s.workers && Mentions(s.workers[t].pc, f) ==> f in s.fibers)
    && (forall t :: t in s.workers && s.workers[t].cbFiber.Some? ==> s.workers[t].cbFiber.value in s.fibers)
  }

  predicate Executing(s: State, f: FiberId) {
    f in s.fibers && s.fibers[f].state == EXEC
  }

  predicate RunBy(s: State, f: FiberId, t: ThreadId) {
    t in s.workers && s.workers[t].pc.Running? && s.workers[t].pc.fiber == f
  }

  /** A fiber is EXEC exactly while one worker is inside it. */
  ghost predicate OneRunner(s: State) {
    && (forall f, t, u :: RunBy(s, f, t) && RunBy(s, f, u) ==> t == u)
    && (forall f, t :: RunBy(s, f, t) ==> Executing(s, f))
    && (forall f :: Executing(s, f) ==> exists t :: RunBy(s, f, t))
  }

  /** What one worker's program counter says about the fiber in its hands and
      about its idle fiber. */
  predicate WorkerOk(s: State, w: Worker) {
    && (w.pc.Holding? && w.pc.work.RunFiber? ==> !Executing(s, w.pc.work.fiber))
    && (Returning(w.pc) && w.pc.fiber in s.fibers ==>
          s.fibers[w.pc.fiber].state == READY || Dead(s.fibers[w.pc.fiber].state))
    && ((w.pc.Running? || Returning(w.pc)) && w.pc.viaCb ==> w.cbFiber == Some(w.pc.fiber))
    && (w.pc == Outside ==> w.cbFiber == None)
    && (match w.pc
        case IdleCheck => w.idle == EXEC
        case IdleWait => w.idle == EXEC
        case IdleBack => w.idle == EXEC || w.idle == TERM
        case Outside => w.idle == INIT
        case Left => w.idle == TERM
        case _ => w.idle == INIT || w.idle == HOLD || w.idle == TERM)
  }

  ghost predicate WorkersOk(s: State) {
    forall t :: t in s.workers ==> WorkerOk(s, s.workers[t])
  }

  /** The callback fiber f of worker t is t's alone; between two callbacks it is
      a blank INIT fiber; and while it does not execute, only t's own requeueing
      can wake it. */
  ghost predicate PrivateTo(s: State, t: ThreadId, f: FiberId)
    requires t in s.workers
  {
    && (forall u :: u in s.workers && s.workers[u].cbFiber == Some(f) ==> u == t)
    && (forall u :: u in s.workers && Mentions(s.workers[u].pc, f) ==> u == t && s.workers[u].pc.viaCb)
    && (!Mentions(s.workers[t].pc, f) ==> f in s.fibers && s.fibers[f] == FiberRec(INIT, None))
    && (!Executing(s, f) ==> forall src :: Carries(s, src, RunFiber(f)) ==> src == Yielding(t))
  }

  ghost predicate CbFibersPrivate(s: State) {
    forall t :: t in s.workers && s.workers[t].cbFiber.Some? ==> PrivateTo(s, t, s.workers[t].cbFiber.value)
  }

  ghost predicate JobsBounded(s: State) {
    forall src, j: Job :: Carries(s, src, RunCb(j)) ==> j < |s.pins|
  }

  ghost predicate Core(s: State) {
    Unique(s) && Known(s) && OneRunner(s) && WorkersOk(s) && CbFibersPrivate(s) && JobsBounded(s)
  }

  lemma InitCore(ids: set<ThreadId>)
    ensures Core(Init(ids))
  {
  }

  // ---------------------------------------------------------------- the steps

  /** How a worker may move without taking, starting or leaving work: it may drop
      a fiber it holds, and it may give up a fiber it came back from unless that is
      its own callback fiber. */
  predicate CalmMove(w: Worker, w': Worker) {
    && w'.cbFiber == w.cbFiber && !w.pc.Running? && !w'.pc.Holding? && !w'.pc.Running?
    && (Returning(w'.pc) ==> Returning(w.pc) && w'.pc.fiber == w.pc.fiber && w'.pc.viaCb == w.pc.viaCb)
    && (Returning(w.pc) && w.pc.viaCb ==> Returning(w'.pc))
    && (w.pc.Holding? ==> w.pc.work.RunFiber?)
  }

  /** s' differs from s at most in counters, flags, history and calm moves. */
  ghost predicate Calm(s: State, s': State) {
    && s'.queue == s.queue && s'.fibers == s.fibers && s'.slots == s.slots
    && s'.pins == s.pins && s'.finished == s.finished && s'.starts == s.starts
    && s'.workers.Keys == s.workers.Keys
    && forall t :: t in s.workers ==> s'.workers[t] == s.workers[t] || CalmMove(s.workers[t], s'.workers[t])
  }

  predicate IsCalm(s: State, a: Action)
    requires Enabled(s, a)
  {
    match a
    case Scan(t) => FirstEligible(s.queue, s.fibers, t) == |s.queue|
    case Settle(t) => !s.workers[t].pc.viaCb
    case Enter(_) => true
    case Discard(_) => true
    case LowerActive(_) => true
    case EnterIdle(_) => true
    case CheckStop(_) => true
    case LeaveIdle(_) => true
    case LowerIdle(_) => true
    case Exit(_) => true
    case SetAutoStop => true
    case SetStopFlag => true
    case ClearStopFlag => true
    case _ => false
  }

  /** What a calm step needs to keep: the shared data, and the workers in order. */
  ghost predicate CalmlyTo(s: State, s': State) {
    Calm(s, s') && (WorkersOk(s) ==> WorkersOk(s'))
  }

  lemma CalmScan(s: State, t: ThreadId)
    requires At(s, t, Head) && FirstEligible(s.queue, s.fibers, t) == |s.queue|
    ensures CalmlyTo(s, Scanned(s, t))
  {
  }

  lemma CalmTask(s: State, a: Action)
    requires Enabled(s, a) && IsCalm(s, a) && TaskStep(a)
    ensures CalmlyTo(s, Apply(s, a))
  {
  }

  lemma LoopKeepsData(s: State, a: Action)
    requires Enabled(s, a) && LoopStep(a)
    ensures var s' := Apply(s, a);
      && s'.queue == s.queue && s'.fibers == s.fibers && s'.slots == s.slots
      && s'.pins == s.pins && s'.finished == s.finished && s'.starts == s.starts
  {
  }

  lemma LoopMovesCalmly(s: State, a: Action, t: ThreadId)
    requires Enabled(s, a) && LoopStep(a) && Mover(a) == Some(t) && t in s.workers && t in Apply(s, a).workers
    ensures CalmMove(s.workers[t], Apply(s, a).workers[t])
  {
  }

  lemma LoopKeepsWorker(s: State, a: Action, t: ThreadId)
    requires Enabled(s, a) && LoopStep(a) && Mover(a) == Some(t) && t in s.workers && t in Apply(s, a).workers
    requires WorkerOk(s, s.workers[t])
    ensures WorkerOk(s, Apply(s, a).workers[t])
  {
  }

  lemma CalmLoop(s: State, a: Action)
    requires Enabled(s, a) && LoopStep(a)
    ensures CalmlyTo(s, Apply(s, a))
  {
    var t := Mover(a).value;
    LoopMoves(s, a, t);
    LoopKeepsData(s, a);
    LoopMovesCalmly(s, a, t);
    if WorkerOk(s, s.workers[t]) {
      LoopKeepsWorker(s, a, t);
    }
    forall w ensures WorkerOk(Apply(s, a), w) == WorkerOk(s, w) {}
  }

  lemma CalmCall(s: State, a: Action)
    requires Enabled(s, a) && (a.SetAutoStop? || a.SetStopFlag? || a.ClearStopFlag?)
    ensures CalmlyTo(s, Apply(s, a))
  {
  }

  lemma CalmSteps(s: State, a: Action)
    requires Enabled(s, a) && IsCalm(s, a)
    ensures CalmlyTo(s, Apply(s, a))
  {
    if a.Scan? {
      CalmScan(s, a.t);
    } else if TaskStep(a) {
      CalmTask(s, a);
    } else if LoopStep(a) {
      CalmLoop(s, a);
    } else {
      CalmCall(s, a);
    }
  }

  lemma CalmKeeps(s: State, s': State)
    requires Core(s) && Calm(s, s') && WorkersOk(s')
    ensures Core(s')
  {
    forall src, w | Carries(s', src, w) ensures Carries(s, src, w) {}
    forall f, t ensures RunBy(s', f, t) == RunBy(s, f, t) {}
    forall f ensures Executing(s', f) == Executing(s, f) {}
    forall t, f | t in s'.workers && s'.workers[t].cbFiber == Some(f) ensures PrivateTo(s', t, f) {
      assert PrivateTo(s, t, f);
    }
  }

  lemma NewFiberKeeps(s: State, f: FiberId)
    requires Core(s) && f !in s.fibers
    ensures Core(Apply(s, NewFiber(f)))
  {
    var s' := Apply(s, NewFiber(f));
    forall src, w | Carries(s', src, w) && !(src == InFiber(f) && w == RunCb(|s.pins|)) ensures Carries(s, src, w) {}
    forall g, u ensures RunBy(s', g, u) == RunBy(s, g, u) {}
    forall g ensures Executing(s', g) == Executing(s, g) {}
    forall u, g | u in s'.workers && s'.workers[u].cbFiber == Some(g) ensures PrivateTo(s', u, g) {
      assert PrivateTo(s, u, g);
    }
  }

  lemma PushFiberKeeps(s: State, who: Caller, f: FiberId, pin: ThreadId)
    requires Core(s) && f in s.fibers && Free(s, f) && !KeptForReuse(s, f)
    ensures Core(Push(s, who, RunFiber(f), pin))
  {
    var s' := Push(s, who, RunFiber(f), pin);
    forall src, w | Carries(s', src, w) && !(src == InQueue(|s.queue|) && w == RunFiber(f)) ensures Carries(s, src, w) {}
    forall g, u ensures RunBy(s', g, u) == RunBy(s, g, u) {}
    forall g ensures Executing(s', g) == Executing(s, g) {}
    forall u, g | u in s'.workers && s'.workers[u].cbFiber == Some(g) ensures PrivateTo(s', u, g) {
      assert PrivateTo(s, u, g) && (g == f ==> RunBy(s, f, u));
    }
  }

  lemma PushNewKeeps(s: State, who: Caller, pin: ThreadId)
    requires Core(s)
    ensures Core(PushNew(s, who, pin))
  {
    var s' := PushNew(s, who, pin);
    forall src, w | Carries(s', src, w) && !(src == InQueue(|s.queue|) && w == RunCb(|s.pins|)) ensures Carries(s, src, w) {}
    forall g, u ensures RunBy(s', g, u) == RunBy(s, g, u) {}
    forall g ensures Executing(s', g) == Executing(s, g) {}
    forall u, g | u in s'.workers && s'.workers[u].cbFiber == Some(g) ensures PrivateTo(s', u, g) {
      assert PrivateTo(s, u, g);
    }
  }

  lemma ArmKeeps(s: State, key: Key, waiter: Waiter)
    requires Core(s) && key !in s.slots
    requires waiter.WaitFiber? ==> Executing(s, waiter.fiber) && Free(s, waiter.fiber)
    ensures Core(s.(slots := s.slots[key := waiter], pending := s.pending + 1))
  {
    var s' := s.(slots := s.slots[key := waiter], pending := s.pending + 1);
    forall src, w | Carries(s', src, w) && src != InSlot(key) ensures Carries(s, src, w) {}
    forall g, u ensures RunBy(s', g, u) == RunBy(s, g, u) {}
    forall g ensures Executing(s', g) == Executing(s, g) {}
    forall u, g | u in s'.workers && s'.workers[u].cbFiber == Some(g) ensures PrivateTo(s', u, g) {
      assert PrivateTo(s, u, g);
    }
  }

  lemma ClearKeeps(s: State, key: Key)
    requires Core(s) && key in s.slots
    ensures Core(Clear(s, key))
  {
    var s' := Clear(s, key);
    forall src, w | Carries(s', src, w) ensures Carries(s, src, w) {}
    forall g, u ensures RunBy(s', g, u) == RunBy(s, g, u) {}
    forall g ensures Executing(s', g) == Executing(s, g) {}
    forall u, g | u in s'.workers && s'.workers[u].cbFiber == Some(g) ensures PrivateTo(s', u, g) {
      assert PrivateTo(s, u, g);
    }
  }

  lemma FireFiberKeeps(s: State, who: Caller, key: Key)
    requires Core(s) && key in s.slots && s.slots[key].WaitFiber?
    ensures Core(Fired(s, who, key))
  {
    var s' := Fired(s, who, key);
    assert Carries(s, InSlot(key), RunFiber(s.slots[key].fiber));
    forall src, w | Carries(s', src, w)
      ensures Carries(s, if src == InQueue(|s.queue|) then InSlot(key) else src, w)
    {}
    forall g, u ensures RunBy(s', g, u) == RunBy(s, g, u) {}
    forall g ensures Executing(s', g) == Executing(s, g) {}
    forall u, g | u in s'.workers && s'.workers[u].cbFiber == Some(g) ensures PrivateTo(s', u, g) {
      assert PrivateTo(s, u, g);
    }
  }

  lemma TakeKeeps(s: State, t: ThreadId, k: nat)
    requires Core(s) && At(s, t, Head) && k < |s.queue| && Eligible(s.queue[k], s.fibers, t)
    ensures Core(Taken(s, t, k))
  {
    var s' := Taken(s, t, k);
    assert Carries(s, InQueue(k), s.queue[k].work);
    forall src, w | Carries(s', src, w)
      ensures Carries(s, if src == InHand(t) then InQueue(k) else if src.InQueue? && src.i >= k then InQueue(src.i + 1) else src, w)
    {}
    forall g, u ensures RunBy(s', g, u) == RunBy(s, g, u) {}
    forall g ensures Executing(s', g) == Executing(s, g) {}
    forall u, g | u in s'.workers && s'.workers[u].cbFiber == Some(g) ensures PrivateTo(s', u, g) {
      assert PrivateTo(s, u, g);
    }
  }

  /** Nobody but t has to do with the fiber it holds. */
  lemma HeldByOne(s: State, t: ThreadId, u: ThreadId)
    requires Core(s) && HoldsFiber(s, t) && u in s.workers && u != t
    ensures var f := s.workers[t].pc.work.fiber;
      s.workers[u].pc != Holding(RunFiber(f)) && !RunBy(s, f, u) && !Carries(s, Yielding(u), RunFiber(f))
  {
    var f := s.workers[t].pc.work.fiber;
    assert Carries(s, InHand(t), RunFiber(f)) && !Carries(s, InHand(u), RunFiber(f));
  }

  lemma ResumeKeepsTokens(s: State, t: ThreadId)
    requires Core(s) && HoldsFiber(s, t) && !Dead(s.fibers[s.workers[t].pc.work.fiber].state)
    ensures var s' := Resumed(s, t); Unique(s') && Known(s') && JobsBounded(s')
    ensures forall src, w :: Carries(Resumed(s, t), src, w) ==> Carries(s, src, w)
  {
    forall src, w | Carries(Resumed(s, t), src, w) ensures Carries(s, src, w) {}
  }

  lemma ResumeKeepsRunners(s: State, t: ThreadId)
    requires Core(s) && HoldsFiber(s, t) && !Dead(s.fibers[s.workers[t].pc.work.fiber].state)
    ensures var s' := Resumed(s, t); OneRunner(s') && WorkersOk(s')
  {
    var s' := Resumed(s, t);
    var f := s.workers[t].pc.work.fiber;
    assert Carries(s, InHand(t), RunFiber(f));
    forall u | u in s.workers && u != t
      ensures s.workers[u].pc != Holding(RunFiber(f)) && !RunBy(s, f, u) && !Carries(s, Yielding(u), RunFiber(f))
    {
      HeldByOne(s, t, u);
    }
    forall g, u ensures RunBy(s', g, u) == (RunBy(s, g, u) || (g == f && u == t)) {}
    forall g ensures Executing(s', g) == (Executing(s, g) || g == f) {}
    assert RunBy(s', f, t);
  }

  lemma ResumeKeeps(s: State, t: ThreadId)
    requires Core(s) && HoldsFiber(s, t) && !Dead(s.fibers[s.workers[t].pc.work.fiber].state)
    ensures Core(Resumed(s, t))
  {
    var s' := Resumed(s, t);
    var f := s.workers[t].pc.work.fiber;
    ResumeKeepsTokens(s, t);
    ResumeKeepsRunners(s, t);
    assert Carries(s, InHand(t), RunFiber(f));
    forall g ensures Executing(s', g) == (Executing(s, g) || g == f) {}
    forall u, g | u in s'.workers && s'.workers[u].cbFiber == Some(g) ensures PrivateTo(s', u, g) {
      assert PrivateTo(s, u, g);
    }
  }

  lemma StartCbKeeps(s: State, t: ThreadId, c: FiberId)
    requires Core(s) && HoldsCb(s, t)
    requires if s.workers[t].cbFiber.Some? then s.workers[t].cbFiber == Some(c) else c !in s.fibers
    ensures Core(CbStarted(s, t, c))
  {
    var s' := CbStarted(s, t, c);
    assert Carries(s, InHand(t), s.workers[t].pc.work);
    assert s.workers[t].cbFiber.Some? ==> PrivateTo(s, t, c);
    forall u | u in s.workers && u != t
      ensures s.workers[u].pc != Holding(RunFiber(c)) && !Mentions(s.workers[u].pc, c)
    {
      assert !Carries(s, InHand(u), RunFiber(c));
    }
    forall src, w | Carries(s', src, w)
      ensures Carries(s, if src == InFiber(c) then InHand(t) else src, w)
    {}
    forall g, u ensures RunBy(s', g, u) == (RunBy(s, g, u) || (g == c && u == t)) {}
    forall g ensures Executing(s', g) == (Executing(s, g) || g == c) {}
    assert RunBy(s', c, t);
    forall u, g | u in s'.workers && s'.workers[u].cbFiber == Some(g) ensures PrivateTo(s', u, g) {
      assert u != t ==> PrivateTo(s, u, g);
    }
  }

  lemma YieldReadyKeeps(s: State, t: ThreadId)
    requires Core(s) && Executes(s, t) && Free(s, s.workers[t].pc.fiber)
    ensures Core(YieldedReady(s, t))
  {
    var s' := YieldedReady(s, t);
    var f := s.workers[t].pc.fiber;
    assert RunBy(s, f, t);
    forall src, w | Carries(s', src, w) && !(src == Yielding(t) && w == RunFiber(f)) ensures Carries(s, src, w) {}
    forall g, u ensures RunBy(s', g, u) == (RunBy(s, g, u) && u != t) {}
    forall g ensures Executing(s', g) == (Executing(s, g) && g != f) {}
    forall u, g | u in s'.workers && s'.workers[u].cbFiber == Some(g) ensures PrivateTo(s', u, g) {
      assert PrivateTo(s, u, g);
    }
  }

  lemma YieldHoldKeeps(s: State, t: ThreadId)
    requires Core(s) && Executes(s, t)
    ensures Core(YieldedHold(s, t))
  {
    var s' := YieldedHold(s, t);
    var f := s.workers[t].pc.fiber;
    assert RunBy(s, f, t);
    forall src, w | Carries(s', src, w) ensures Carries(s, src, w) {}
    forall g, u ensures RunBy(s', g, u) == (RunBy(s, g, u) && u != t) {}
    forall g ensures Executing(s', g) == (Executing(s, g) && g != f) {}
    forall u, g | u in s'.workers && s'.workers[u].cbFiber == Some(g) ensures PrivateTo(s', u, g) {
      assert PrivateTo(s, u, g);
    }
  }

  lemma FinishKeeps(s: State, t: ThreadId, threw: bool)
    requires Core(s) && Executes(s, t)
    requires s.workers[t].pc.viaCb ==> Free(s, s.workers[t].pc.fiber)
    ensures Core(Finished(s, t, threw))
  {
    var s' := Finished(s, t, threw);
    var f := s.workers[t].pc.fiber;
    assert RunBy(s, f, t);
    forall src, w | Carries(s', src, w)
      ensures Carries(s, if src == Ended && Carries(s, InFiber(f), w) then InFiber(f) else src, w)
    {}
    forall g, u ensures RunBy(s', g, u) == (RunBy(s, g, u) && u != t) {}
    forall g ensures Executing(s', g) == (Executing(s, g) && g != f) {}
    forall u, g | u in s'.workers && s'.workers[u].cbFiber == Some(g) ensures PrivateTo(s', u, g) {
      assert PrivateTo(s, u, g);
    }
  }

  lemma RequeueKeeps(s: State, t: ThreadId)
    requires Core(s) && Inspects(s, t) && s.fibers[s.workers[t].pc.fiber].state == READY
    ensures Core(Requeued(s, t))
  {
    var s' := Requeued(s, t);
    forall src, w | Carries(s', src, w)
      ensures Carries(s, if src == InQueue(|s.queue|) then Yielding(t) else src, w)
    {}
    forall g, u ensures RunBy(s', g, u) == RunBy(s, g, u) {}
    forall g ensures Executing(s', g) == Executing(s, g) {}
    forall u, g | u in s'.workers && s'.workers[u].cbFiber == Some(g) ensures PrivateTo(s', u, g) {
      assert PrivateTo(s, u, g);
    }
  }

  lemma SettleKeeps(s: State, t: ThreadId)
    requires Core(s) && Inspects(s, t) && s.workers[t].pc.viaCb
    requires Dead(s.fibers[s.workers[t].pc.fiber].state)
    ensures Core(Settled(s, t))
  {
    var s' := Settled(s, t);
    forall src, w | Carries(s', src, w) ensures Carries(s, src, w) {}
    forall g, u ensures RunBy(s', g, u) == RunBy(s, g, u) {}
    forall g ensures Executing(s', g) == Executing(s, g) {}
    forall u, g | u in s'.workers && s'.workers[u].cbFiber == Some(g) ensures PrivateTo(s', u, g) {
      assert PrivateTo(s, u, g);
    }
  }

  lemma FireKeeps(s: State, who: Caller, key: Key)
    requires Core(s) && key in s.slots
    ensures Core(Fired(s, who, key))
  {
    if s.slots[key].WaitFiber? {
      FireFiberKeeps(s, who, key);
    } else {
      ClearKeeps(s, key);
      PushNewKeeps(Clear(s, key), who, ANY_THREAD);
    }
  }

  lemma TaskKeeps(s: State, a: Action)
    requires Core(s) && Allowed(s, a) && TaskStep(a) && !IsCalm(s, a)
    ensures Core(Apply(s, a))
  {
    match a
    case Resume(t) => ResumeKeeps(s, t);
    case StartCb(t, f) => StartCbKeeps(s, t, CbFiberFor(s, t, f));
    case YieldReady(t) => YieldReadyKeeps(s, t);
    case YieldHold(t) => YieldHoldKeeps(s, t);
    case Finish(t, threw) => FinishKeeps(s, t, threw);
    case Requeue(t) => RequeueKeeps(s, t);
    case Settle(t) => SettleKeeps(s, t);
  }

  lemma CallKeeps(s: State, a: Action)
    requires Core(s) && Allowed(s, a) && CallStep(a) && !IsCalm(s, a)
    ensures Core(Apply(s, a))
  {
    match a
    case NewFiber(f) => NewFiberKeeps(s, f);
    case ScheduleFiber(who, f, pin) => PushFiberKeeps(s, who, f, pin);
    case ScheduleCb(who, pin) => PushNewKeeps(s, who, pin);
    case ArmFiber(t, key) =>
      assert RunBy(s, s.workers[t].pc.fiber, t);
      ArmKeeps(s, key, WaitFiber(s.workers[t].pc.fiber));
    case ArmCb(_, key) => ArmKeeps(s, key, WaitCb);
    case Disarm(_, key) => ClearKeeps(s, key);
  }

  /** Every step that user code respecting the discipline allows keeps the invariant. */
  lemma CoreStep(s: State, a: Action)
    requires Core(s) && Allowed(s, a)
    ensures Core(Apply(s, a))
  {
    if IsCalm(s, a) {
      CalmSteps(s, a);
      CalmKeeps(s, Apply(s, a));
    } else if a.Scan? {
      TakeKeeps(s, a.t, FirstEligible(s.queue, s.fibers, a.t));
    } else if TaskStep(a) {
      TaskKeeps(s, a);
    } else if a.Fire? {
      FireKeeps(s, a.who, a.key);
    } else {
      CallKeeps(s, a);
    }
  }
}
