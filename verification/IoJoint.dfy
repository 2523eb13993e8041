/** Scheduler and event registry running together: any interleaving of scheduler steps
    and registry operations keeps the two in step and both invariants. */
module IoJoint {
  import opened Wrappers
  import opened IoRegistry
  import opened IoInvariant
  import opened IoTheorems
  import opened IoScheduling
  import opened IoDelivery
  import S = SchedulerState
  import Counts = SchedulerCounts
  import Events = SchedulerEvents
  import Runs = SchedulerTheorems

  datatype Step =
    | Sched(a: S.Action)
    | Add(who: S.Caller, t: S.ThreadId, fd: nat, ev: Event, sched: SchedId, target: Target, allow: bool)
    | Drop(who: S.Caller, fd: nat, ev: Event, how: Ending, allow: bool)
    | All(who: S.Caller, fd: nat, allow: bool)
    | Receive(t: S.ThreadId, d: Delivery)

  datatype Joint = Joint(s: S.State, r: Registry)

  /** Event slots change through the registry alone. */
  predicate OnSlots(a: S.Action) {
    a.ArmFiber? || a.ArmCb? || a.Disarm? || a.Fire?
  }

  /** Who may perform the step, and what user code must respect. */
  ghost predicate May(j: Joint, step: Step) {
    match step
    case Sched(a) => S.Allowed(j.s, a) && !OnSlots(a)
    case Add(who, t, fd, ev, sched, target, _) =>
      MayAdd(j.s, who, t, target) && !Registered(j.r, fd, ev) && (target.ToFiber? ==> S.Free(j.s, target.fiber))
    case Drop(who, _, _, how, _) => S.CallerReady(j.s, who) && !who.ByIdle? && how != Fired
    case All(who, _, _) => S.CallerReady(j.s, who) && !who.ByIdle?
    case Receive(t, d) => S.At(j.s, t, S.IdleWait) && d.fd < |j.r.table|
  }

  /** The scheduler's side of one registration that starts or ends, if it does. */
  ghost predicate Acts(s: S.State, a: S.Action, really: bool, s': S.State) {
    if really then S.Enabled(s, a) && s' == S.Apply(s, a) else s' == s
  }

  /** The step leads from j to k; a delivery that aborts leads nowhere. */
  ghost predicate Goes(j: Joint, step: Step, k: Joint)
    requires RecsOk(j.r.table)
  {
    match step
    case Sched(a) => S.Enabled(j.s, a) && k == Joint(S.Apply(j.s, a), j.r)
    case Add(who, t, fd, ev, sched, target, allow) =>
      && |TableFor(j.r.table, fd)| > fd && !Registered(j.r, fd, ev)
      && k.r == AddEvent(j.r, fd, ev, sched, target, allow).0
      && Acts(j.s, Arm(who, t, KeyOf(fd, ev), target), allow, k.s)
    case Drop(who, fd, ev, how, allow) =>
      && k.r == DropEvent(j.r, fd, ev, how, allow).0
      && Acts(j.s, Ends(who, KeyOf(fd, ev), how), DropEvent(j.r, fd, ev, how, allow).1, k.s)
    case All(who, fd, allow) =>
      var ok := CancelAll(j.r, fd, allow).1;
      && k.r == CancelAll(j.r, fd, allow).0
      && Some(k.s) == Fires(j.s, who, fd, ok && Registered(j.r, fd, READ), ok && Registered(j.r, fd, WRITE))
    case Receive(t, d) =>
      && d.fd < |j.r.table| && Deliver(j.r, d) == Some(k.r)
      && var hit := RealEvents(d.mask); var struck := Strikes(j.r, d);
         Some(k.s) == Fires(j.s, S.ByIdle(t), d.fd, struck && Has(hit, READ), struck && Has(hit, WRITE))
  }

  ghost predicate Sound(j: Joint) {
    Runs.Inv(j.s) && Inv(j.r) && InStep(j.s, j.r)
  }

  // ---------------------------------------------------------------- steps

  lemma CallKeepsSlots(s: S.State, a: S.Action)
    requires S.Enabled(s, a) && S.CallStep(a) && !OnSlots(a)
    ensures S.Apply(s, a).slots == s.slots && S.Apply(s, a).pending == s.pending
  {
  }

  lemma SlotsStay(s: S.State, a: S.Action)
    requires S.Enabled(s, a) && !OnSlots(a)
    ensures S.Apply(s, a).slots == s.slots && S.Apply(s, a).pending == s.pending
  {
    if S.CallStep(a) {
      CallKeepsSlots(s, a);
    } else {
      Counts.OneMoves(s, a);
    }
  }

  lemma FireKeeps(s: S.State, who: S.Caller, key: S.Key)
    requires Runs.Inv(s) && S.Enabled(s, S.Fire(who, key))
    ensures Runs.Inv(S.Apply(s, S.Fire(who, key)))
  {
    Runs.InvStep(s, S.Fire(who, key));
  }

  lemma FiresKeep(s: S.State, who: S.Caller, fd: int, rd: bool, wr: bool)
    requires Runs.Inv(s) && Fires(s, who, fd, rd, wr).Some?
    ensures Runs.Inv(Fires(s, who, fd, rd, wr).value)
  {
    var s1 := s;
    if rd {
      FireKeeps(s, who, KeyOf(fd, READ));
      s1 := S.Apply(s, S.Fire(who, KeyOf(fd, READ)));
    }
    if wr {
      FireKeeps(s1, who, KeyOf(fd, WRITE));
    }
  }

  lemma AddKeeps(j: Joint, step: Step, k: Joint)
    requires Sound(j) && step.Add? && May(j, step) && Goes(j, step, k)
    ensures Sound(k)
  {
    AddEventKeeps(j.r, step.fd, step.ev, step.sched, step.target, step.allow);
    AddIsArm(j.s, j.r, step.who, step.t, step.fd, step.ev, step.sched, step.target, step.allow);
    if step.allow {
      ArmKeepsInv(j.s, step.who, step.t, KeyOf(step.fd, step.ev), step.target);
    }
  }

  lemma ArmKeepsInv(s: S.State, who: S.Caller, t: S.ThreadId, key: S.Key, target: Target)
    requires Runs.Inv(s) && MayAdd(s, who, t, target) && S.Enabled(s, Arm(who, t, key, target))
    requires target.ToFiber? ==> S.Free(s, target.fiber)
    ensures Runs.Inv(S.Apply(s, Arm(who, t, key, target)))
  {
    Runs.InvStep(s, Arm(who, t, key, target));
  }

  lemma EndsKeepsInv(s: S.State, who: S.Caller, key: S.Key, how: Ending)
    requires Runs.Inv(s) && S.Enabled(s, Ends(who, key, how))
    ensures Runs.Inv(S.Apply(s, Ends(who, key, how)))
  {
    Runs.InvStep(s, Ends(who, key, how));
  }

  lemma DropKeeps(j: Joint, step: Step, k: Joint)
    requires Sound(j) && step.Drop? && May(j, step) && Goes(j, step, k)
    ensures Sound(k)
  {
    DropEventKeeps(j.r, step.fd, step.ev, step.how, step.allow);
    DropIsStep(j.s, j.r, step.who, step.fd, step.ev, step.how, step.allow);
    if DropEvent(j.r, step.fd, step.ev, step.how, step.allow).1 {
      EndsKeepsInv(j.s, step.who, KeyOf(step.fd, step.ev), step.how);
    }
  }

  lemma AllKeeps(j: Joint, step: Step, k: Joint)
    requires Sound(j) && step.All? && May(j, step) && Goes(j, step, k)
    ensures Sound(k)
  {
    CancelAllKeeps(j.r, step.fd, step.allow);
    CancelAllIsFires(j.s, j.r, step.who, step.fd, step.allow);
    var ok := CancelAll(j.r, step.fd, step.allow).1;
    FiresKeep(j.s, step.who, step.fd, ok && Registered(j.r, step.fd, READ), ok && Registered(j.r, step.fd, WRITE));
  }

  lemma ReceiveKeeps(j: Joint, step: Step, k: Joint)
    requires Sound(j) && step.Receive? && May(j, step) && Goes(j, step, k)
    ensures Sound(k)
  {
    DeliveryKeeps(j.r, step.d);
    DeliveryIsFires(j.s, j.r, step.t, step.d);
    var hit := RealEvents(step.d.mask);
    var struck := Strikes(j.r, step.d);
    FiresKeep(j.s, S.ByIdle(step.t), step.d.fd, struck && Has(hit, READ), struck && Has(hit, WRITE));
  }

  lemma SoundStep(j: Joint, step: Step, k: Joint)
    requires Sound(j) && May(j, step) && Goes(j, step, k)
    ensures Sound(k)
  {
    match step
    case Sched(a) =>
      SlotsStay(j.s, a);
      Runs.InvStep(j.s, a);
    case Add(_, _, _, _, _, _, _) => AddKeeps(j, step, k);
    case Drop(_, _, _, _, _) => DropKeeps(j, step, k);
    case All(_, _, _) => AllKeeps(j, step, k);
    case Receive(_, _) => ReceiveKeeps(j, step, k);
  }

  /** No step gets stuck between the two sides: whatever may be done leads somewhere,
      unless it is a delivery that aborts. */
  lemma StepGoes(j: Joint, step: Step) returns (k: Joint)
    requires Sound(j) && May(j, step)
    requires step.Receive? ==> !Trips(j.r, step.d)
    ensures Goes(j, step, k)
  {
    match step
    case Sched(a) => k := Joint(S.Apply(j.s, a), j.r);
    case Add(who, t, fd, ev, sched, target, allow) =>
      AddIsArm(j.s, j.r, who, t, fd, ev, sched, target, allow);
      var s' := if allow then S.Apply(j.s, Arm(who, t, KeyOf(fd, ev), target)) else j.s;
      k := Joint(s', AddEvent(j.r, fd, ev, sched, target, allow).0);
    case Drop(who, fd, ev, how, allow) =>
      DropIsStep(j.s, j.r, who, fd, ev, how, allow);
      var (r', ok) := DropEvent(j.r, fd, ev, how, allow);
      k := Joint(if ok then S.Apply(j.s, Ends(who, KeyOf(fd, ev), how)) else j.s, r');
    case All(who, fd, allow) =>
      CancelAllIsFires(j.s, j.r, who, fd, allow);
      var (r', ok) := CancelAll(j.r, fd, allow);
      k := Joint(Fires(j.s, who, fd, ok && Registered(j.r, fd, READ), ok && Registered(j.r, fd, WRITE)).value, r');
    case Receive(t, d) =>
      DeliveryAbortsIff(j.r, d);
      DeliveryIsFires(j.s, j.r, t, d);
      var hit := RealEvents(d.mask);
      var struck := Strikes(j.r, d);
      k := Joint(Fires(j.s, S.ByIdle(t), d.fd, struck && Has(hit, READ), struck && Has(hit, WRITE)).value,
                 Deliver(j.r, d).value);
  }

  // ---------------------------------------------------------------- deliveries happen

  /** When the idle fiber of t asks whether to stop and the answer is no, t's next step,
      whichever it is, takes it to where it may receive any delivery. */
  lemma NoStopLeadsToReceiving(j: Joint, t: S.ThreadId, a: S.Action, k: Joint)
    requires Sound(j) && S.At(j.s, t, S.IdleCheck) && !S.Stopping(j.s)
    requires May(j, Sched(a)) && Counts.Mover(a) == Some(t) && Goes(j, Sched(a), k)
    ensures k.r == j.r && forall d: Delivery :: d.fd < |k.r.table| ==> May(k, Receive(t, d))
  {
    Events.NextWaits(j.s, t, a);
  }

  /** The entry that scheduling a target appends when n callbacks have entered before. */
  function EntryFor(n: nat, target: Target): S.Entry {
    match target
    case ToFiber(f) => S.Entry(S.RunFiber(f), -1)
    case ToCb(_) => S.Entry(S.RunCb(n), -1)
  }

  lemma FireQueues(s: S.State, r: Registry, who: S.Caller, fd: nat, ev: Event)
    requires InStep(s, r) && fd < |r.table| && Has(r.table[fd].events, ev) && S.CallerReady(s, who)
    ensures RecOk(r.table[fd]) && S.Enabled(s, S.Fire(who, KeyOf(fd, ev)))
    ensures S.Apply(s, S.Fire(who, KeyOf(fd, ev))).queue == s.queue + [EntryFor(|s.pins|, TargetOf(Slot(r.table[fd], ev)))]
  {
    EndIsStep(s, r, who, fd, ev, Fired, r.kernel);
  }

  /** EPOLLIN delivered for a descriptor registered for READ puts what waits for READ into
      the queue, last and unpinned, and leaves WRITE as it is. */
  lemma ReadableIsQueued(j: Joint, t: S.ThreadId, d: Delivery, k: Joint)
    requires Sound(j) && S.At(j.s, t, S.IdleWait) && d.fd < |j.r.table| && d.allow
    requires d.mask == 0x1 && Taken(j.r.table[d.fd].read) && Goes(j, Receive(t, d), k)
    ensures RecOk(j.r.table[d.fd])
    ensures k.s.queue == j.s.queue + [EntryFor(|j.s.pins|, TargetOf(j.r.table[d.fd].read))]
    ensures k.r.table[d.fd].read == EMPTY_CTX && k.r.table[d.fd].write == j.r.table[d.fd].write
  {
    var rec := j.r.table[d.fd];
    assert RecOk(rec);
    SlotBits(rec);
    assert Readable(0x1) && !Writable(0x1);
    HitBits(d.mask);
    StrikesBits(rec, d.mask);
    DeliveryByBits(j.r, d);
    FireQueues(j.s, j.r, S.ByIdle(t), d.fd, READ);
  }

  // ---------------------------------------------------------------- runs

  /** js is what a joint run of the workers `ids` goes through. */
  ghost predicate JointRun(ids: set<S.ThreadId>, js: seq<Joint>, steps: seq<Step>) {
    && |js| == |steps| + 1 && js[0] == Joint(S.Init(ids), Fresh())
    && forall i :: 0 <= i < |steps| ==>
      RecsOk(js[i].r.table) && May(js[i], steps[i]) && Goes(js[i], steps[i], js[i + 1])
  }

  /** Over every interleaving of scheduler steps and registry operations the event slots
      of the scheduler are the occupied slots of the table, the two pending counters
      agree, and both invariants hold. */
  lemma {:induction false} JointRunsAreSound(ids: set<S.ThreadId>, js: seq<Joint>, steps: seq<Step>, n: nat)
    requires JointRun(ids, js, steps) && n < |js|
    ensures Sound(js[n])
    decreases n
  {
    if n == 0 {
      Runs.InitInv(ids);
      FreshInv();
      FreshInStep(ids);
    } else {
      JointRunsAreSound(ids, js, steps, n - 1);
      SoundStep(js[n - 1], steps[n - 1], js[n]);
    }
  }

  lemma EmptyMaskIsDead(r: Registry, i: int, ev: Event, id: RegId)
    requires Inv(r) && 0 <= i < |r.table| && r.table[i].events == 0
    ensures !Live(r, i, ev, id)
  {
    assert RecOk(r.table[i]);
  }

  lemma NothingRegistered(r: Registry)
    requires Inv(r) && r.pending == 0
    ensures forall id: RegId :: id < r.nextReg ==> id in r.ended
  {
    SumZero(r.table);
    forall i, ev, id: RegId ensures !Live(r, i, ev, id) {
      if 0 <= i < |r.table| {
        EmptyMaskIsDead(r, i, ev, id);
      }
    }
    forall id: RegId ensures !IsLive(r, id) {}
  }

  /** When such a run gets to where `stopping()` holds, every registration ever made has
      ended, and no delivery can change or schedule anything. */
  lemma StoppingMeansAllEnded(ids: set<S.ThreadId>, js: seq<Joint>, steps: seq<Step>, n: nat)
    requires JointRun(ids, js, steps) && n < |js| && S.Stopping(js[n].s)
    ensures forall id: RegId :: id < js[n].r.nextReg ==> id in js[n].r.ended
    ensures RecsOk(js[n].r.table)
    ensures forall d: Delivery :: d.fd < |js[n].r.table| ==> Deliver(js[n].r, d) == Some(js[n].r)
  {
    JointRunsAreSound(ids, js, steps, n);
    var r := js[n].r;
    NothingRegistered(r);
    forall d: Delivery | d.fd < |r.table| ensures Deliver(r, d) == Some(r) {
      NothingToDeliver(r, d);
    }
  }
}
