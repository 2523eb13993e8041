/** The event registry as the scheduler sees it: every operation on the registry is,
    slot for slot, the ArmFiber, ArmCb, Disarm and Fire steps of the transition
    system, so what is proved there about event slots and the pending counter holds
    of the fd table. */
module IoScheduling {
  import opened Wrappers
  import opened IoRegistry
  import opened IoInvariant
  import opened IoTheorems
  import S = SchedulerState

  function KeyOf(fd: int, ev: Event): S.Key {
    S.Key(fd, ev == WRITE)
  }

  function WaiterFor(target: Target): S.Waiter {
    match target
    case ToCb(_) => S.WaitCb
    case ToFiber(f) => S.WaitFiber(f)
  }

  function WaiterIn(rec: FdRec, ev: Event): S.Waiter
    requires RecOk(rec) && Has(rec.events, ev)
  {
    WaiterFor(TargetOf(Slot(rec, ev)))
  }

  /** What the scheduler has for slot ev of descriptor fd is what the record holds. */
  predicate SlotAgrees(slots: map<S.Key, S.Waiter>, fd: int, rec: FdRec, ev: Event)
    requires RecOk(rec)
  {
    if Has(rec.events, ev) then KeyOf(fd, ev) in slots && slots[KeyOf(fd, ev)] == WaiterIn(rec, ev)
    else KeyOf(fd, ev) !in slots
  }

  predicate RecAgrees(slots: map<S.Key, S.Waiter>, fd: int, rec: FdRec) {
    RecOk(rec) && SlotAgrees(slots, fd, rec, READ) && SlotAgrees(slots, fd, rec, WRITE)
  }

  /** The scheduler's event slots are the occupied slots of the table. */
  ghost predicate Agrees(slots: map<S.Key, S.Waiter>, table: seq<FdRec>) {
    && (forall fd :: 0 <= fd < |table| ==> RecAgrees(slots, fd, table[fd]))
    && (forall key :: key in slots ==> 0 <= key.fd < |table|)
  }

  lemma PutRecAgrees(slots: map<S.Key, S.Waiter>, fd: int, rec: FdRec, ev: Event, sched: SchedId, target: Target, reg: RegId)
    requires RecAgrees(slots, fd, rec) && !Has(rec.events, ev)
    ensures KeyOf(fd, ev) !in slots
    ensures RecAgrees(slots[KeyOf(fd, ev) := WaiterFor(target)], fd,
                      SetSlot(rec.(events := With(rec.events, ev)), ev, FilledCtx(sched, target, reg)))
  {
    MaskLaws(rec.events, ev, READ);
    MaskLaws(rec.events, ev, WRITE);
  }

  lemma EndRecAgrees(slots: map<S.Key, S.Waiter>, fd: int, rec: FdRec, ev: Event)
    requires RecAgrees(slots, fd, rec) && Has(rec.events, ev)
    ensures KeyOf(fd, ev) in slots && slots[KeyOf(fd, ev)] == WaiterIn(rec, ev)
    ensures RecAgrees(slots - {KeyOf(fd, ev)}, fd, SetSlot(rec.(events := Minus(rec.events, Bit(ev))), ev, EMPTY_CTX))
  {
    MaskLaws(rec.events, ev, READ);
    MaskLaws(rec.events, ev, WRITE);
  }

  /** Changing one descriptor's record and its keys leaves the others in agreement. */
  lemma OneRecord(slots: map<S.Key, S.Waiter>, slots': map<S.Key, S.Waiter>, table: seq<FdRec>, fd: nat, rec: FdRec)
    requires Agrees(slots, table) && fd < |table| && RecAgrees(slots', fd, rec)
    requires forall key: S.Key :: key.fd != fd ==>
      (key in slots' <==> key in slots) && (key in slots ==> slots'[key] == slots[key])
    ensures Agrees(slots', table[fd := rec])
  {
    var table' := table[fd := rec];
    forall i | 0 <= i < |table'| ensures RecAgrees(slots', i, table'[i]) {
      if i != fd {
        assert RecAgrees(slots, i, table[i]);
      }
    }
  }

  lemma PutAgrees(slots: map<S.Key, S.Waiter>, r: Registry, fd: nat, ev: Event, sched: SchedId, target: Target)
    requires Agrees(slots, r.table) && fd < |r.table| && !Has(r.table[fd].events, ev)
    ensures KeyOf(fd, ev) !in slots
    ensures Agrees(slots[KeyOf(fd, ev) := WaiterFor(target)], Put(r, fd, ev, sched, target).table)
  {
    PutRecAgrees(slots, fd, r.table[fd], ev, sched, target, r.nextReg);
    OneRecord(slots, slots[KeyOf(fd, ev) := WaiterFor(target)], r.table, fd, Put(r, fd, ev, sched, target).table[fd]);
  }

  lemma EndAgrees(slots: map<S.Key, S.Waiter>, r: Registry, fd: nat, ev: Event, how: Ending)
    requires Agrees(slots, r.table) && fd < |r.table| && Has(r.table[fd].events, ev)
    ensures RecOk(r.table[fd])
    ensures KeyOf(fd, ev) in slots && slots[KeyOf(fd, ev)] == WaiterIn(r.table[fd], ev)
    ensures Agrees(slots - {KeyOf(fd, ev)}, End(r, fd, ev, how).table)
  {
    assert RecAgrees(slots, fd, r.table[fd]);
    EndRecAgrees(slots, fd, r.table[fd], ev);
    OneRecord(slots, slots - {KeyOf(fd, ev)}, r.table, fd, End(r, fd, ev, how).table[fd]);
  }

  // ---------------------------------------------------------------- in step

  ghost predicate InStep(s: S.State, r: Registry) {
    Agrees(s.slots, r.table) && s.pending == r.pending
  }

  function Arm(who: S.Caller, t: S.ThreadId, key: S.Key, target: Target): S.Action {
    if target.ToFiber? then S.ArmFiber(t, key) else S.ArmCb(who, key)
  }

  /** A worker's own fiber registers itself; a callback may come from any caller. */
  predicate MayAdd(s: S.State, who: S.Caller, t: S.ThreadId, target: Target) {
    match target
    case ToFiber(f) => S.CallerReady(s, S.ByFiber(t)) && s.workers[t].pc.fiber == f
    case ToCb(_) => S.CallerReady(s, who) && !who.ByIdle?
  }

  lemma GrowAgrees(slots: map<S.Key, S.Waiter>, table: seq<FdRec>, fd: nat)
    requires Agrees(slots, table) && TableOk(table)
    ensures Agrees(slots, TableFor(table, fd))
  {
    Grows(table, fd);
    var t := TableFor(table, fd);
    forall i | 0 <= i < |t| ensures RecAgrees(slots, i, t[i]) {
      if i < |table| {
        assert t[..|table|][i] == table[i] && RecAgrees(slots, i, table[i]);
      } else {
        assert RecAgrees(slots, i, EmptyRec(i));
      }
    }
  }

  lemma ArmStep(s: S.State, who: S.Caller, t: S.ThreadId, key: S.Key, target: Target)
    requires MayAdd(s, who, t, target) && key !in s.slots
    ensures var a := Arm(who, t, key, target);
      S.Enabled(s, a) && S.Apply(s, a) == s.(slots := s.slots[key := WaiterFor(target)], pending := s.pending + 1)
  {
  }

  /** A successful `addEvent` is the step that arms the event; a failed one is no step. */
  lemma AddIsArm(s: S.State, r: Registry, who: S.Caller, t: S.ThreadId,
                 fd: nat, ev: Event, sched: SchedId, target: Target, allow: bool)
    requires Inv(r) && InStep(s, r) && !Registered(r, fd, ev) && MayAdd(s, who, t, target)
    ensures |TableFor(r.table, fd)| > fd
    ensures var a := Arm(who, t, KeyOf(fd, ev), target); var r' := AddEvent(r, fd, ev, sched, target, allow).0;
      S.Enabled(s, a) && InStep(if allow then S.Apply(s, a) else s, r')
  {
    var kernel := AddOutcome(r, fd, ev, sched, target, allow);
    Grows(r.table, fd);
    GrowAgrees(s.slots, r.table, fd);
    PutAgrees(s.slots, r.(table := TableFor(r.table, fd)), fd, ev, sched, target);
    ArmStep(s, who, t, KeyOf(fd, ev), target);
  }

  // ---------------------------------------------------------------- endings

  /** The step that ends a registration: `delEvent` disarms, the others fire. */
  function Ends(who: S.Caller, key: S.Key, how: Ending): S.Action {
    if how == Deleted then S.Disarm(who, key) else S.Fire(who, key)
  }

  /** What the scheduler's queue receives for the triggered target. */
  function Queued(s: S.State, target: Target): S.Entry {
    match target
    case ToFiber(f) => S.Entry(S.RunFiber(f), S.ANY_THREAD)
    case ToCb(_) => S.Entry(S.RunCb(|s.pins|), S.ANY_THREAD)
  }

  lemma EndStep(s: S.State, who: S.Caller, key: S.Key, how: Ending, target: Target)
    requires S.CallerReady(s, who) && (how == Deleted ==> !who.ByIdle?)
    requires key in s.slots && s.slots[key] == WaiterFor(target)
    ensures var a := Ends(who, key, how);
      && S.Enabled(s, a)
      && var s' := S.Apply(s, a);
         && s'.slots == s.slots - {key} && s'.pending == s.pending - 1 && s'.workers == s.workers
         && s'.queue == s.queue + if how == Deleted then [] else [Queued(s, target)]
  {
  }

  /** Ending one registration is one Disarm or Fire step, and what the trigger hands to
      `schedule` is the entry that step appends. */
  lemma EndIsStep(s: S.State, r: Registry, who: S.Caller, fd: nat, ev: Event, how: Ending, kernel: map<int, Mask>)
    requires InStep(s, r) && fd < |r.table| && Has(r.table[fd].events, ev)
    requires S.CallerReady(s, who) && (how == Deleted ==> !who.ByIdle?)
    ensures RecOk(r.table[fd])
    ensures var a := Ends(who, KeyOf(fd, ev), how); var r' := End(r, fd, ev, how).(kernel := kernel);
      && S.Enabled(s, a) && InStep(S.Apply(s, a), r') && S.Apply(s, a).workers == s.workers
      && S.Apply(s, a).queue == s.queue + if how == Deleted then [] else [Queued(s, r'.sent[|r.sent|].target)]
  {
    EndAgrees(s.slots, r, fd, ev, how);
    EndStep(s, who, KeyOf(fd, ev), how, TargetOf(Slot(r.table[fd], ev)));
  }

  /** `delEvent` and `cancelEvent`. */
  lemma DropIsStep(s: S.State, r: Registry, who: S.Caller, fd: nat, ev: Event, how: Ending, allow: bool)
    requires Inv(r) && InStep(s, r) && S.CallerReady(s, who) && !who.ByIdle?
    ensures fd < |r.table| ==> RecOk(r.table[fd])
    ensures var (r', ok) := DropEvent(r, fd, ev, how, allow); var a := Ends(who, KeyOf(fd, ev), how);
      if ok then S.Enabled(s, a) && InStep(S.Apply(s, a), r') else r' == r
  {
    DropEventKeeps(r, fd, ev, how, allow);
    if Registered(r, fd, ev) && allow {
      EndIsStep(s, r, who, fd, ev, how, DropEvent(r, fd, ev, how, allow).0.kernel);
    }
  }

  /** The steps that trigger READ if wanted, then WRITE if wanted. */
  function Fires(s: S.State, who: S.Caller, fd: int, rd: bool, wr: bool): Option<S.State> {
    var s1 := if !rd then Some(s)
              else if S.Enabled(s, S.Fire(who, KeyOf(fd, READ))) then Some(S.Apply(s, S.Fire(who, KeyOf(fd, READ))))
              else None;
    if s1.None? || !wr then s1
    else if S.Enabled(s1.value, S.Fire(who, KeyOf(fd, WRITE))) then Some(S.Apply(s1.value, S.Fire(who, KeyOf(fd, WRITE))))
    else None
  }

  lemma EndBothIsFires(s: S.State, r: Registry, who: S.Caller, fd: nat, how: Ending, rd: bool, wr: bool, kernel: map<int, Mask>)
    requires RegistryOk(r) && InStep(s, r) && fd < |r.table| && how != Deleted && S.CallerReady(s, who)
    requires (rd ==> Has(r.table[fd].events, READ)) && (wr ==> Has(r.table[fd].events, WRITE))
    ensures RecOk(r.table[fd])
    ensures var s' := Fires(s, who, fd, rd, wr);
      s'.Some? && InStep(s'.value, EndBoth(r, fd, how, rd, wr).(kernel := kernel))
  {
    var rec := r.table[fd];
    assert RecOk(rec);
    MaskLaws(rec.events, READ, WRITE);
    var r1 := EndIf(r, fd, READ, how, rd);
    var s1 := s;
    if rd {
      EndIsStep(s, r, who, fd, READ, how, r.kernel);
      s1 := S.Apply(s, S.Fire(who, KeyOf(fd, READ)));
    }
    if wr {
      EndIsStep(s1, r1, who, fd, WRITE, how, kernel);
    }
  }

  /** One round of the delivery loop is the Fire steps of the delivered bits, READ
      before WRITE, or nothing. */
  lemma DeliveryIsFires(s: S.State, r: Registry, t: S.ThreadId, d: Delivery)
    requires Inv(r) && InStep(s, r) && d.fd < |r.table| && S.At(s, t, S.IdleWait)
    ensures RecOk(r.table[d.fd])
    ensures Deliver(r, d).Some? ==>
      var hit := RealEvents(d.mask); var struck := Strikes(r, d);
      var s' := Fires(s, S.ByIdle(t), d.fd, struck && Has(hit, READ), struck && Has(hit, WRITE));
      s'.Some? && InStep(s'.value, Deliver(r, d).value)
  {
    assert RecOk(r.table[d.fd]);
    DeliveryKeeps(r, d);
    var hit := RealEvents(d.mask);
    if Strikes(r, d) {
      HitLaws(r.table[d.fd].events, d.mask);
      OpsFit(r.table, r.kernel, d.fd);
      if !Unmatched(r.table[d.fd].events, hit) {
        DeliverSucceeds(r, d, KernelAfter(r, d));
        EndBothIsFires(s, r, S.ByIdle(t), d.fd, IoRegistry.Fired, Has(hit, READ), Has(hit, WRITE), KernelAfter(r, d));
      } else {
        DeliverAborts(r, d, KernelAfter(r, d));
      }
    }
  }

  /** `cancelAll` is the Fire steps of the registered bits. */
  lemma CancelAllIsFires(s: S.State, r: Registry, who: S.Caller, fd: nat, allow: bool)
    requires Inv(r) && InStep(s, r) && S.CallerReady(s, who)
    ensures fd < |r.table| ==> RecOk(r.table[fd])
    ensures var (r', ok) := CancelAll(r, fd, allow);
      if ok then
        var s' := Fires(s, who, fd, Registered(r, fd, READ), Registered(r, fd, WRITE));
        s'.Some? && InStep(s'.value, r')
      else r' == r
  {
    CancelAllKeeps(r, fd, allow);
    if CancelAll(r, fd, allow).1 {
      var events := r.table[fd].events;
      OpsFit(r.table, r.kernel, fd);
      CancelAllSucceeds(r, fd, r.kernel - {fd});
      EndBothIsFires(s, r, who, fd, Cancelled, Has(events, READ), Has(events, WRITE), r.kernel - {fd});
    }
  }

  lemma FreshInStep(ids: set<S.ThreadId>)
    ensures InStep(S.Init(ids), Fresh())
  {
    var table := Fresh().table;
    forall fd | 0 <= fd < |table| ensures RecAgrees(map[], fd, table[fd]) {
      assert table[fd] == EmptyRec(fd);
    }
  }
}
