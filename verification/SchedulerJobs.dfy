/** Callbacks: none is lost, none is started twice, and a pinned one is started
    only by its thread. */
module SchedulerJobs {
  import opened Wrappers
  import opened FiberModel
  import opened SchedulerState
  import opened SchedulerInvariant

  /** Whether work at src has been started already. */
  predicate Begun(s: State, src: Source) {
    src == Ended || (src.InFiber? && src.f in s.fibers && s.fibers[src.f].state != INIT)
  }

  predicate PinAllows(pin: ThreadId, t: ThreadId) {
    pin == ANY_THREAD || pin == t
  }

  /** Callback j, waiting at src, is still bound to the thread it was scheduled for. */
  predicate PinFits(s: State, src: Source, j: Job)
    requires j < |s.pins|
  {
    match src
    case InQueue(i) => 0 <= i < |s.queue| && s.queue[i].thread == s.pins[j]
    case InHand(t) => PinAllows(s.pins[j], t)
    case InFiber(f) => Begun(s, src) || s.pins[j] == ANY_THREAD
    case _ => true
  }

  ghost predicate StartedBy(s: State, j: Job, i: int) {
    0 <= i < |s.starts| && s.starts[i].job == j
  }

  ghost predicate Somewhere(s: State, j: Job) {
    exists src :: Carries(s, src, RunCb(j))
  }

  ghost predicate NoneLost(s: State) {
    forall j: Job :: j < |s.pins| ==> Somewhere(s, j)
  }

  ghost predicate StartsOk(s: State) {
    && (forall j: Job, i, k :: StartedBy(s, j, i) && StartedBy(s, j, k) ==> i == k)
    && (forall j: Job, i :: StartedBy(s, j, i) ==> j < |s.pins| && PinAllows(s.pins[j], s.starts[i].thread))
  }

  /** Callbacks have a start record exactly when they are begun. */
  ghost predicate StartsMatch(s: State) {
    && (forall j: Job, i, src :: StartedBy(s, j, i) && Carries(s, src, RunCb(j)) ==> Begun(s, src))
    && (forall j: Job, src :: Carries(s, src, RunCb(j)) && Begun(s, src) ==> exists i :: StartedBy(s, j, i))
  }

  ghost predicate PinsFit(s: State) {
    forall src, j: Job :: Carries(s, src, RunCb(j)) && j < |s.pins| ==> PinFits(s, src, j)
  }

  predicate Owns(s: State, t: ThreadId, f: FiberId) {
    t in s.workers && s.workers[t].cbFiber == Some(f)
  }

  predicate Blank(s: State, f: FiberId) {
    f in s.fibers && !Dead(s.fibers[f].state) && s.fibers[f].body == None
  }

  /** Only a callback fiber kept for reuse lacks a body. */
  ghost predicate Bodied(s: State) {
    forall f :: Blank(s, f) ==> s.fibers[f].state == INIT && exists t :: Owns(s, t, f)
  }

  ghost predicate Jobs(s: State) {
    NoneLost(s) && StartsOk(s) && StartsMatch(s) && PinsFit(s) && Bodied(s)
  }

  /** Nothing changes about callbacks from s to s'. */
  ghost predicate SameJobs(s: State, s': State) {
    && s'.pins == s.pins && s'.starts == s.starts
    && (forall src, j: Job :: Carries(s', src, RunCb(j)) <==> Carries(s, src, RunCb(j)))
    && (forall src, j: Job :: Carries(s, src, RunCb(j)) ==> Begun(s', src) == Begun(s, src))
    && (forall i :: 0 <= i < |s'.queue| && s'.queue[i].work.RunCb? ==> i < |s.queue| && s'.queue[i] == s.queue[i])
  }

  lemma SameJobsKeep(s: State, s': State)
    requires Jobs(s) && SameJobs(s, s') && Bodied(s')
    ensures Jobs(s')
  {
    forall j: Job, i ensures StartedBy(s', j, i) == StartedBy(s, j, i) {}
    forall j: Job | j < |s'.pins| ensures Somewhere(s', j) {
      assert Somewhere(s, j);
    }
  }

  lemma CalmKeepsJobs(s: State, s': State)
    requires Core(s) && Jobs(s) && Calm(s, s')
    ensures Jobs(s')
  {
    forall src, j: Job ensures Carries(s', src, RunCb(j)) == Carries(s, src, RunCb(j)) {}
    forall f | Blank(s', f) ensures s'.fibers[f].state == INIT && exists t :: Owns(s', t, f) {
      assert Blank(s, f);
      var t :| Owns(s, t, f);
      assert Owns(s', t, f);
    }
    SameJobsKeep(s, s');
  }

  lemma PushFiberKeepsJobs(s: State, who: Caller, f: FiberId, pin: ThreadId)
    requires Core(s) && Jobs(s)
    ensures Jobs(Push(s, who, RunFiber(f), pin))
  {
    var s' := Push(s, who, RunFiber(f), pin);
    forall src, j: Job ensures Carries(s', src, RunCb(j)) == Carries(s, src, RunCb(j)) {}
    forall g ensures Blank(s', g) == Blank(s, g) {}
    forall u, g ensures Owns(s', u, g) == Owns(s, u, g) {}
    SameJobsKeep(s, s');
  }

  lemma ArmKeepsJobs(s: State, key: Key, waiter: Waiter)
    requires Core(s) && Jobs(s)
    ensures Jobs(s.(slots := s.slots[key := waiter], pending := s.pending + 1))
  {
    var s' := s.(slots := s.slots[key := waiter], pending := s.pending + 1);
    forall src, j: Job ensures Carries(s', src, RunCb(j)) == Carries(s, src, RunCb(j)) {}
    forall f ensures Blank(s', f) == Blank(s, f) {}
    forall u, f ensures Owns(s', u, f) == Owns(s, u, f) {}
    SameJobsKeep(s, s');
  }

  lemma ClearKeepsJobs(s: State, key: Key)
    requires Core(s) && Jobs(s)
    ensures Jobs(Clear(s, key))
  {
    var s' := Clear(s, key);
    forall src, j: Job ensures Carries(s', src, RunCb(j)) == Carries(s, src, RunCb(j)) {}
    forall f ensures Blank(s', f) == Blank(s, f) {}
    forall u, f ensures Owns(s', u, f) == Owns(s, u, f) {}
    SameJobsKeep(s, s');
  }

  lemma YieldReadyKeepsJobs(s: State, t: ThreadId)
    requires Core(s) && Jobs(s) && Executes(s, t)
    ensures Jobs(YieldedReady(s, t))
  {
    var s' := YieldedReady(s, t);
    var r := s.workers[t].pc.fiber;
    assert RunBy(s, r, t);
    forall src, j: Job ensures Carries(s', src, RunCb(j)) == Carries(s, src, RunCb(j)) {}
    forall f ensures Blank(s', f) == Blank(s, f) {}
    forall u, f ensures Owns(s', u, f) == Owns(s, u, f) {}
    SameJobsKeep(s, s');
  }

  lemma YieldHoldKeepsJobs(s: State, t: ThreadId)
    requires Core(s) && Jobs(s) && Executes(s, t)
    ensures Jobs(YieldedHold(s, t))
  {
    var s' := YieldedHold(s, t);
    var r := s.workers[t].pc.fiber;
    assert RunBy(s, r, t);
    forall src, j: Job ensures Carries(s', src, RunCb(j)) == Carries(s, src, RunCb(j)) {}
    forall f | Blank(s', f) ensures Blank(s, f) && f != r {}
    forall u, f | Owns(s, u, f) && f != r ensures Owns(s', u, f) {}
    SameJobsKeep(s, s');
  }

  lemma RequeueKeepsJobs(s: State, t: ThreadId)
    requires Core(s) && Jobs(s) && Inspects(s, t) && s.fibers[s.workers[t].pc.fiber].state == READY
    ensures Jobs(Requeued(s, t))
  {
    var s' := Requeued(s, t);
    var r := s.workers[t].pc.fiber;
    assert !Blank(s, r);
    forall src, j: Job ensures Carries(s', src, RunCb(j)) == Carries(s, src, RunCb(j)) {}
    forall f | Blank(s', f) ensures Blank(s, f) && f != r {}
    forall u, f | Owns(s, u, f) && f != r ensures Owns(s', u, f) {}
    SameJobsKeep(s, s');
  }

  lemma SettleKeepsJobs(s: State, t: ThreadId)
    requires Core(s) && Jobs(s) && Inspects(s, t) && s.workers[t].pc.viaCb
    requires Dead(s.fibers[s.workers[t].pc.fiber].state)
    ensures Jobs(Settled(s, t))
  {
    var s' := Settled(s, t);
    forall src, j: Job ensures Carries(s', src, RunCb(j)) == Carries(s, src, RunCb(j)) {}
    forall f ensures Blank(s', f) == (Blank(s, f) || f == s.workers[t].pc.fiber) {}
    forall u, f ensures Owns(s', u, f) == Owns(s, u, f) {}
    assert Owns(s', t, s.workers[t].pc.fiber);
    SameJobsKeep(s, s');
  }

  lemma PushNewKeepsJobs(s: State, who: Caller, pin: ThreadId)
    requires Core(s) && Jobs(s)
    ensures Jobs(PushNew(s, who, pin))
  {
    var s' := PushNew(s, who, pin);
    forall src, j: Job | j < |s.pins| ensures Carries(s', src, RunCb(j)) == Carries(s, src, RunCb(j)) {}
    forall src | Carries(s', src, RunCb(|s.pins|)) ensures src == InQueue(|s.queue|) {
      assert !Carries(s, src, RunCb(|s.pins|));
    }
    forall j: Job, i ensures StartedBy(s', j, i) == StartedBy(s, j, i) {}
    forall f ensures Blank(s', f) == Blank(s, f) {}
    forall t, f ensures Owns(s', t, f) == Owns(s, t, f) {}
    forall j: Job | j < |s'.pins| ensures Somewhere(s', j) {
      assert NoneLost(s);
      assert if j == |s.pins| then Carries(s', InQueue(|s.queue|), RunCb(j)) else Somewhere(s, j);
    }
    forall j: Job, i | StartedBy(s, j, i) ensures j < |s.pins| {}
    forall j: Job, i, src | StartedBy(s', j, i) && Carries(s', src, RunCb(j)) ensures Begun(s', src) {
      assert Carries(s, src, RunCb(j));
    }
    forall j: Job, src | Carries(s', src, RunCb(j)) && Begun(s', src) ensures exists i :: StartedBy(s', j, i) {
      assert Carries(s, src, RunCb(j)) && Begun(s, src);
      var i :| StartedBy(s, j, i);
      assert StartedBy(s', j, i);
    }
    assert NoneLost(s');
    assert StartsOk(s');
    assert StartsMatch(s');
    assert PinsFit(s');
    assert Bodied(s');
  }

  /** Callback |s.pins| enters as the body of the new fiber f, pinned to nothing. */
  ghost predicate Enters(s: State, s': State, f: FiberId) {
    var n := |s.pins|;
    && s'.pins == s.pins + [ANY_THREAD] && s'.starts == s.starts && s'.queue == s.queue
    && Carries(s', InFiber(f), RunCb(n)) && !Begun(s', InFiber(f))
    && (forall src :: Carries(s', src, RunCb(n)) ==> src == InFiber(f))
    && (forall src, j: Job :: j != n ==> (Carries(s', src, RunCb(j)) <==> Carries(s, src, RunCb(j))))
    && (forall src, j: Job :: Carries(s, src, RunCb(j)) ==> Begun(s', src) == Begun(s, src))
  }

  lemma NewFiberEnters(s: State, f: FiberId)
    requires Core(s) && f !in s.fibers
    ensures Enters(s, Apply(s, NewFiber(f)), f)
  {
    var s' := Apply(s, NewFiber(f));
    var n := |s.pins|;
    forall src, j: Job | j != n ensures Carries(s', src, RunCb(j)) == Carries(s, src, RunCb(j)) {}
    forall src | Carries(s', src, RunCb(n)) ensures src == InFiber(f) {
      assert !Carries(s, src, RunCb(n));
    }
  }

  lemma EntersKeepsJobs(s: State, s': State, f: FiberId)
    requires Core(s) && Jobs(s) && Enters(s, s', f) && Bodied(s')
    ensures Jobs(s')
  {
    var n := |s.pins|;
    forall j: Job, i ensures StartedBy(s', j, i) == StartedBy(s, j, i) {}
    forall j: Job | j < |s'.pins| ensures Somewhere(s', j) {
      assert if j == n then Carries(s', InFiber(f), RunCb(j)) else Somewhere(s, j);
    }
    forall j: Job, src | Carries(s', src, RunCb(j)) && Begun(s', src) ensures exists i :: StartedBy(s', j, i) {
      assert Carries(s, src, RunCb(j)) && Begun(s, src);
      var i :| StartedBy(s, j, i);
      assert StartedBy(s', j, i);
    }
  }

  lemma NewFiberKeepsJobs(s: State, f: FiberId)
    requires Core(s) && Jobs(s) && f !in s.fibers
    ensures Jobs(Apply(s, NewFiber(f)))
  {
    var s' := Apply(s, NewFiber(f));
    NewFiberEnters(s, f);
    forall g ensures Blank(s', g) == Blank(s, g) {}
    forall t, g ensures Owns(s', t, g) == Owns(s, t, g) {}
    EntersKeepsJobs(s, s', f);
  }
  /** Where work found at src after thread t took entry k was before. */
  function BeforeTake(t: ThreadId, k: nat, src: Source): Source {
    if src == InHand(t) then InQueue(k)
    else if src.InQueue? && src.i >= k then InQueue(src.i + 1)
    else src
  }

  lemma TakeMoves(s: State, t: ThreadId, k: nat, src: Source, w: Work)
    requires At(s, t, Head) && k < |s.queue|
    ensures Carries(Taken(s, t, k), src, w) ==> Carries(s, BeforeTake(t, k, src), w)
  {
  }

  function AfterTake(t: ThreadId, k: nat, src: Source): Source {
    if src == InQueue(k) then InHand(t)
    else if src.InQueue? && src.i > k then InQueue(src.i - 1)
    else src
  }

  lemma TakeLosesNothing(s: State, t: ThreadId, k: nat, src: Source, w: Work)
    requires At(s, t, Head) && k < |s.queue| && Carries(s, src, w)
    ensures Carries(Taken(s, t, k), AfterTake(t, k, src), w)
  {
  }

  lemma TakeKeepsJobs(s: State, t: ThreadId, k: nat)
    requires Core(s) && Jobs(s)
    requires At(s, t, Head) && k < |s.queue| && Eligible(s.queue[k], s.fibers, t)
    ensures Jobs(Taken(s, t, k))
  {
    var s' := Taken(s, t, k);
    forall src, j: Job | Carries(s', src, RunCb(j)) ensures
      var b := BeforeTake(t, k, src);
      Carries(s, b, RunCb(j)) && Begun(s', src) == Begun(s, b) && (j < |s.pins| && PinFits(s, b, j) ==> PinFits(s', src, j))
    {
      TakeMoves(s, t, k, src, RunCb(j));
    }
    forall j: Job | j < |s'.pins| ensures Somewhere(s', j) {
      assert Somewhere(s, j);
      var src :| Carries(s, src, RunCb(j));
      TakeLosesNothing(s, t, k, src, RunCb(j));
    }
    TakeStarts(s, s', t, k);
    forall f ensures Blank(s', f) == Blank(s, f) {}
    forall u, f ensures Owns(s', u, f) == Owns(s, u, f) {}
  }

  lemma TakeStarts(s: State, s': State, t: ThreadId, k: nat)
    requires StartsOk(s) && StartsMatch(s) && PinsFit(s) && s'.starts == s.starts && s'.pins == s.pins
    requires forall src, j: Job :: Carries(s', src, RunCb(j)) ==>
      var b := BeforeTake(t, k, src);
      Carries(s, b, RunCb(j)) && Begun(s', src) == Begun(s, b) && (j < |s.pins| && PinFits(s, b, j) ==> PinFits(s', src, j))
    ensures StartsOk(s') && StartsMatch(s') && PinsFit(s')
  {
    forall j: Job, i ensures StartedBy(s', j, i) == StartedBy(s, j, i) {}
  }

  lemma ResumeKeepsJobs(s: State, t: ThreadId)
    requires Core(s) && Jobs(s) && HoldsFiber(s, t)
    requires !Dead(s.fibers[s.workers[t].pc.work.fiber].state)
    ensures Jobs(Resumed(s, t))
  {
    var s' := Resumed(s, t);
    var f := s.workers[t].pc.work.fiber;
    HeldFiberHasBody(s, t);
    var j0 := s.fibers[f].body.value;
    assert Carries(s, InFiber(f), RunCb(j0));
    forall src, j: Job ensures Carries(s', src, RunCb(j)) == Carries(s, src, RunCb(j)) {}
    forall g | Blank(s', g) ensures Blank(s, g) {}
    forall u, g ensures Owns(s', u, g) == Owns(s, u, g) {}
    if s.fibers[f].state == INIT {
      StartKeepsJobs(s, s', j0, t);
    } else {
      SameJobsKeep(s, s');
    }
  }

  /** A fiber taken from the queue and not ended has something to run. */
  lemma HeldFiberHasBody(s: State, t: ThreadId)
    requires Core(s) && Jobs(s) && HoldsFiber(s, t)
    ensures var fr := s.fibers[s.workers[t].pc.work.fiber]; Dead(fr.state) || fr.body.Some?
  {
    var f := s.workers[t].pc.work.fiber;
    assert Carries(s, InHand(t), RunFiber(f));
    forall u ensures !Owns(s, u, f) {
      assert Owns(s, u, f) ==> PrivateTo(s, u, f);
    }
  }

  /** Callback j0 is started by thread t and nothing else changes. */
  ghost predicate Starts(s: State, s': State, j0: Job, t: ThreadId) {
    && s'.pins == s.pins && s'.starts == s.starts + [Start(j0, t)]
    && j0 < |s.pins| && PinAllows(s.pins[j0], t)
    && (exists src :: Carries(s, src, RunCb(j0)) && !Begun(s, src))
    && Somewhere(s', j0)
    && (forall src :: Carries(s', src, RunCb(j0)) ==> Begun(s', src))
    && (forall src, j :: j != j0 ==> (Carries(s', src, RunCb(j)) <==> Carries(s, src, RunCb(j))))
    && (forall src, j :: j != j0 && Carries(s, src, RunCb(j)) ==> Begun(s', src) == Begun(s, src))
    && (forall i :: 0 <= i < |s'.queue| && s'.queue[i].work.RunCb? ==> i < |s.queue| && s'.queue[i] == s.queue[i])
  }

  lemma StartRecords(s: State, s': State, j0: Job, t: ThreadId)
    requires Jobs(s) && Starts(s, s', j0, t)
    ensures forall j: Job, i :: StartedBy(s', j, i) <==> StartedBy(s, j, i) || (j == j0 && i == |s.starts|)
    ensures forall i :: !StartedBy(s, j0, i)
  {
    forall i ensures !StartedBy(s, j0, i) {}
    forall j: Job, i ensures StartedBy(s', j, i) == (StartedBy(s, j, i) || (j == j0 && i == |s.starts|)) {}
  }

  lemma StartKeepsPlaces(s: State, s': State, j0: Job, t: ThreadId)
    requires Jobs(s) && Starts(s, s', j0, t)
    ensures NoneLost(s') && PinsFit(s')
  {
    forall j: Job | j < |s'.pins| ensures Somewhere(s', j) {
      assert Somewhere(s, j);
    }
  }

  lemma StartKeepsOnce(s: State, s': State, j0: Job, t: ThreadId)
    requires Jobs(s) && Starts(s, s', j0, t)
    ensures StartsOk(s')
  {
    StartRecords(s, s', j0, t);
  }

  lemma StartKeepsMatch(s: State, s': State, j0: Job, t: ThreadId)
    requires Jobs(s) && Starts(s, s', j0, t)
    ensures StartsMatch(s')
  {
    StartRecords(s, s', j0, t);
    forall j: Job, src | Carries(s', src, RunCb(j)) && Begun(s', src) ensures exists i :: StartedBy(s', j, i) {
      if j == j0 {
        assert StartedBy(s', j, |s.starts|);
      } else {
        assert Carries(s, src, RunCb(j)) && Begun(s, src);
        var i :| StartedBy(s, j, i);
        assert StartedBy(s', j, i);
      }
    }
  }

  lemma StartKeepsJobs(s: State, s': State, j0: Job, t: ThreadId)
    requires Core(s) && Jobs(s) && Bodied(s') && Starts(s, s', j0, t)
    ensures Jobs(s')
  {
    StartKeepsPlaces(s, s', j0, t);
    StartKeepsOnce(s, s', j0, t);
    StartKeepsMatch(s, s', j0, t);
  }

  lemma StartCbKeepsJobs(s: State, t: ThreadId, c: FiberId)
    requires Core(s) && Jobs(s) && HoldsCb(s, t)
    requires if s.workers[t].cbFiber.Some? then s.workers[t].cbFiber == Some(c) else c !in s.fibers
    ensures Jobs(CbStarted(s, t, c))
  {
    var s' := CbStarted(s, t, c);
    var j0 := s.workers[t].pc.work.job;
    assert Carries(s, InHand(t), RunCb(j0)) && Carries(s', InFiber(c), RunCb(j0));
    assert s.workers[t].cbFiber.Some? ==> PrivateTo(s, t, c);
    forall src | Carries(s', src, RunCb(j0)) ensures src == InFiber(c) {
      assert src != InFiber(c) ==> Carries(s, src, RunCb(j0));
    }
    forall src, j: Job | j != j0 ensures Carries(s', src, RunCb(j)) == Carries(s, src, RunCb(j)) {}
    forall f | Blank(s', f) ensures Blank(s, f) && f != c {}
    forall u, f | Owns(s, u, f) ensures Owns(s', u, f) {}
    StartKeepsJobs(s, s', j0, t);
  }

  /** Callback j0, begun as the body of fiber f, has run to its end. */
  ghost predicate Ends(s: State, s': State, j0: Job, f: FiberId) {
    && s'.pins == s.pins && s'.starts == s.starts && s'.queue == s.queue
    && Carries(s, InFiber(f), RunCb(j0)) && Begun(s, InFiber(f)) && Carries(s', Ended, RunCb(j0))
    && (forall src :: Carries(s', src, RunCb(j0)) ==> src == Ended)
    && (forall src, j: Job :: j != j0 ==> (Carries(s', src, RunCb(j)) <==> Carries(s, src, RunCb(j))))
    && (forall src, j: Job :: j != j0 && Carries(s, src, RunCb(j)) ==> Begun(s', src) == Begun(s, src))
  }

  lemma FinishEnds(s: State, t: ThreadId, threw: bool)
    requires Core(s) && Jobs(s) && Executes(s, t)
    ensures var f := s.workers[t].pc.fiber;
      s.fibers[f].body.Some? && Ends(s, Finished(s, t, threw), s.fibers[f].body.value, f)
  {
    var s' := Finished(s, t, threw);
    var f := s.workers[t].pc.fiber;
    assert RunBy(s, f, t);
    assert !Blank(s, f);
    var j0 := s.fibers[f].body.value;
    assert Carries(s, InFiber(f), RunCb(j0)) && Begun(s, InFiber(f)) && Carries(s', Ended, RunCb(j0));
    forall src, j: Job | j != j0 ensures Carries(s', src, RunCb(j)) == Carries(s, src, RunCb(j)) {}
    forall src | Carries(s', src, RunCb(j0)) ensures src == Ended {
      assert src != Ended ==> Carries(s, src, RunCb(j0));
    }
  }

  lemma EndsKeepsJobs(s: State, s': State, j0: Job, f: FiberId)
    requires Core(s) && Jobs(s) && Ends(s, s', j0, f) && Bodied(s')
    ensures Jobs(s')
  {
    forall j: Job, i ensures StartedBy(s', j, i) == StartedBy(s, j, i) {}
    forall j: Job | j < |s'.pins| ensures Somewhere(s', j) {
      assert Somewhere(s, j);
    }
    forall j: Job, src | Carries(s', src, RunCb(j)) && Begun(s', src) ensures exists i :: StartedBy(s', j, i) {
      assert j != j0 ==> Begun(s, src);
      assert exists i :: StartedBy(s, j, i);
    }
  }

  lemma FinishKeepsJobs(s: State, t: ThreadId, threw: bool)
    requires Core(s) && Jobs(s) && Executes(s, t)
    ensures Jobs(Finished(s, t, threw))
  {
    var s' := Finished(s, t, threw);
    var f := s.workers[t].pc.fiber;
    FinishEnds(s, t, threw);
    forall g | Blank(s', g) ensures Blank(s, g) {}
    forall u, g ensures Owns(s', u, g) == Owns(s, u, g) {}
    EndsKeepsJobs(s, s', s.fibers[f].body.value, f);
  }

  lemma FireKeepsJobs(s: State, who: Caller, key: Key)
    requires Core(s) && Jobs(s) && key in s.slots
    ensures Jobs(Fired(s, who, key))
  {
    ClearKeeps(s, key);
    ClearKeepsJobs(s, key);
    if s.slots[key].WaitFiber? {
      PushFiberKeepsJobs(Clear(s, key), who, s.slots[key].fiber, ANY_THREAD);
    } else {
      PushNewKeepsJobs(Clear(s, key), who, ANY_THREAD);
    }
  }

  lemma TaskKeepsJobs(s: State, a: Action)
    requires Core(s) && Jobs(s) && Enabled(s, a) && TaskStep(a) && !IsCalm(s, a)
    ensures Jobs(Apply(s, a))
  {
    match a
    case Resume(t) => ResumeKeepsJobs(s, t);
    case StartCb(t, f) => StartCbKeepsJobs(s, t, CbFiberFor(s, t, f));
    case YieldReady(t) => YieldReadyKeepsJobs(s, t);
    case YieldHold(t) => YieldHoldKeepsJobs(s, t);
    case Finish(t, threw) => FinishKeepsJobs(s, t, threw);
    case Requeue(t) => RequeueKeepsJobs(s, t);
    case Settle(t) => SettleKeepsJobs(s, t);
  }

  lemma CallKeepsJobs(s: State, a: Action)
    requires Core(s) && Jobs(s) && Enabled(s, a) && CallStep(a) && !IsCalm(s, a)
    ensures Jobs(Apply(s, a))
  {
    match a
    case NewFiber(f) => NewFiberKeepsJobs(s, f);
    case ScheduleFiber(who, f, pin) => PushFiberKeepsJobs(s, who, f, pin);
    case ScheduleCb(who, pin) => PushNewKeepsJobs(s, who, pin);
    case ArmFiber(t, key) => ArmKeepsJobs(s, key, WaitFiber(s.workers[t].pc.fiber));
    case ArmCb(_, key) => ArmKeepsJobs(s, key, WaitCb);
    case Disarm(_, key) => ClearKeepsJobs(s, key);
  }

  /** Every step keeps callbacks in order. */
  lemma JobsStep(s: State, a: Action)
    requires Core(s) && Jobs(s) && Allowed(s, a)
    ensures Jobs(Apply(s, a))
  {
    if IsCalm(s, a) {
      CalmSteps(s, a);
      CalmKeepsJobs(s, Apply(s, a));
    } else if a.Scan? {
      TakeKeepsJobs(s, a.t, FirstEligible(s.queue, s.fibers, a.t));
    } else if TaskStep(a) {
      TaskKeepsJobs(s, a);
    } else if a.Fire? {
      FireKeepsJobs(s, a.who, a.key);
    } else {
      CallKeepsJobs(s, a);
    }
  }
}
