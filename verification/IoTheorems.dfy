/** The registry's operations keep its invariant; what each does, when the kernel or
    an assertion can stop it, and what holds after every sequence of them. */
module IoTheorems {
  import opened Wrappers
  import opened IoRegistry
  import opened IoInvariant

  // ---------------------------------------------------------------- the mirror

  /** Setting or removing one descriptor along with its mask keeps the mirror. */
  lemma MirrorSet(table: seq<FdRec>, kernel: map<int, Mask>, i: nat, rec: FdRec)
    requires Mirror(table, kernel) && i < |table|
    ensures Mirror(table[i := rec],
                   if rec.events == 0 then kernel - {i} else kernel[i := EPOLLET | rec.events])
  {
  }

  /** With the mirror in place the kernel's own demands are always met. */
  lemma OpsFit(table: seq<FdRec>, kernel: map<int, Mask>, fd: nat)
    requires Mirror(table, kernel) && fd < |table|
    ensures OpFits(kernel, AddOpFor(table[fd].events), fd)
    ensures table[fd].events != 0 ==> OpFits(kernel, MOD, fd) && OpFits(kernel, DEL, fd)
  {
  }

  // ---------------------------------------------------------------- operations

  lemma KernelSet(r: Registry, kernel: map<int, Mask>)
    requires RegistryOk(r) && Mirror(r.table, kernel)
    ensures Inv(r.(kernel := kernel))
  {
    var r' := r.(kernel := kernel);
    forall i, ev, id: RegId ensures Live(r', i, ev, id) == Live(r, i, ev, id) {}
    forall id: RegId ensures IsLive(r', id) == IsLive(r, id) {}
    forall k, id: RegId ensures SentAt(r', k, id) == SentAt(r, k, id) {}
  }

  /** A fitting call with a mask to set fails only if the kernel refuses. */
  lemma CtlSets(kernel: map<int, Mask>, op: CtlOp, fd: int, m: Mask, allow: bool)
    requires OpFits(kernel, op, fd) && op != DEL
    ensures EpollCtl(kernel, op, fd, m, allow) == if allow then Some(kernel[fd := m]) else None
  {
  }

  lemma AddToSucceeds(r: Registry, fd: nat, ev: Event, sched: SchedId, target: Target, kernel: map<int, Mask>)
    requires fd < |r.table| && AddKernel(r, fd, ev, true) == Some(kernel)
    ensures AddTo(r, fd, ev, sched, target, true) == (Put(r, fd, ev, sched, target).(kernel := kernel), 0)
  {
  }

  lemma AddToFails(r: Registry, fd: nat, ev: Event, sched: SchedId, target: Target, allow: bool)
    requires fd < |r.table| && AddKernel(r, fd, ev, allow) == None
    ensures AddTo(r, fd, ev, sched, target, allow) == (r, -1)
  {
  }

  /** With the mirror in place `addEvent`'s call to the kernel fails only by refusal. */
  lemma AddKernelIs(r: Registry, fd: nat, ev: Event, allow: bool)
    requires Mirror(r.table, r.kernel) && fd < |r.table|
    ensures AddKernel(r, fd, ev, allow)
         == if allow then Some(r.kernel[fd := EPOLLET | With(r.table[fd].events, ev)]) else None
  {
    OpsFit(r.table, r.kernel, fd);
    CtlSets(r.kernel, AddOpFor(r.table[fd].events), fd, EPOLLET | With(r.table[fd].events, ev), allow);
  }

  lemma RoomFor(r: Registry, fd: nat, ev: Event)
    requires Inv(r) && !Registered(r, fd, ev)
    ensures var t := TableFor(r.table, fd); |t| > fd && !Has(t[fd].events, ev) && Inv(r.(table := t))
  {
    Grows(r.table, fd);
    GrowKeeps(r, fd);
    var t := TableFor(r.table, fd);
    if fd < |r.table| {
      assert t[..|r.table|][fd] == r.table[fd];
    } else {
      assert t[fd] == EmptyRec(fd);
    }
  }

  /** `addEvent` fills the slot in the table as grown, or only grows the table. */
  lemma AddOutcome(r: Registry, fd: nat, ev: Event, sched: SchedId, target: Target, allow: bool)
    returns (kernel: map<int, Mask>)
    requires Inv(r) && !Registered(r, fd, ev)
    ensures Inv(r.(table := TableFor(r.table, fd)))
    ensures |TableFor(r.table, fd)| > fd && !Has(TableFor(r.table, fd)[fd].events, ev)
    ensures kernel == r.kernel[fd := EPOLLET | With(TableFor(r.table, fd)[fd].events, ev)]
    ensures var r0 := r.(table := TableFor(r.table, fd));
      AddEvent(r, fd, ev, sched, target, allow).0
        == if allow then Put(r0, fd, ev, sched, target).(kernel := kernel) else r0
  {
    RoomFor(r, fd, ev);
    var r0 := r.(table := TableFor(r.table, fd));
    AddKernelIs(r0, fd, ev, allow);
    kernel := r.kernel[fd := EPOLLET | With(r0.table[fd].events, ev)];
    if allow {
      AddToSucceeds(r0, fd, ev, sched, target, kernel);
    } else {
      AddToFails(r0, fd, ev, sched, target, allow);
    }
  }

  /** `addEvent` keeps the invariant, never meets an occupied slot, and fails only if
      the kernel refuses for reasons of its own. */
  lemma AddEventKeeps(r: Registry, fd: nat, ev: Event, sched: SchedId, target: Target, allow: bool)
    requires Inv(r) && !Registered(r, fd, ev)
    ensures |TableFor(r.table, fd)| > fd
    ensures Slot(TableFor(r.table, fd)[fd], ev) == EMPTY_CTX
    ensures var (r', rt) := AddEvent(r, fd, ev, sched, target, allow);
      && Inv(r')
      && (rt == 0 <==> allow) && (rt == -1 <==> !allow)
      && (Registered(r', fd, ev) <==> allow)
      && r'.pending == r.pending + One(allow)
      && Grown(r, r')
  {
    var kernel := AddOutcome(r, fd, ev, sched, target, allow);
    var r1 := r.(table := TableFor(r.table, fd));
    var rec := r1.table[fd];
    assert RecOk(rec);
    PutKeeps(r1, fd, ev, sched, target);
    MaskLaws(rec.events, ev, ev);
    var r2 := Put(r1, fd, ev, sched, target);
    MirrorSet(r1.table, r.kernel, fd, r2.table[fd]);
    KernelSet(r2, kernel);
  }

  lemma DropSucceeds(r: Registry, fd: nat, ev: Event, how: Ending, kernel: map<int, Mask>)
    requires Registered(r, fd, ev) && RecOk(r.table[fd])
    requires var left := Minus(r.table[fd].events, Bit(ev));
      EpollCtl(r.kernel, LeaveOpFor(left), fd, EPOLLET | left, true) == Some(kernel)
    ensures DropEvent(r, fd, ev, how, true) == (End(r, fd, ev, how).(kernel := kernel), true)
  {
  }

  /** `delEvent` and `cancelEvent` succeed exactly when the event is registered and
      the kernel does not refuse; otherwise nothing changes. */
  lemma DropEventKeeps(r: Registry, fd: nat, ev: Event, how: Ending, allow: bool)
    requires Inv(r)
    ensures fd < |r.table| ==> RecOk(r.table[fd])
    ensures var (r', ok) := DropEvent(r, fd, ev, how, allow);
      && Inv(r')
      && (ok <==> Registered(r, fd, ev) && allow)
      && (!ok ==> r' == r)
      && !(ok && Registered(r', fd, ev))
      && r'.pending == r.pending - One(ok)
      && (ok ==> r'.ended == r.ended[Slot(r.table[fd], ev).reg.value := how])
      && Grown(r, r')
  {
    if Registered(r, fd, ev) {
      var rec := r.table[fd];
      assert RecOk(rec);
      MaskLaws(rec.events, ev, ev);
      assert rec.events != 0 by {
        MaskLaws(rec.events, ev, READ);
      }
      OpsFit(r.table, r.kernel, fd);
      var left := Minus(rec.events, Bit(ev));
      var kernel := if left == 0 then r.kernel - {fd} else r.kernel[fd := EPOLLET | left];
      DropSucceeds(r, fd, ev, how, kernel);
      EndKeeps(r, fd, ev, how);
      var r1 := End(r, fd, ev, how);
      MirrorSet(r.table, r.kernel, fd, r1.table[fd]);
      KernelSet(r1, kernel);
    }
  }

  function BitsOf(rd: bool, wr: bool): Mask {
    (if rd then Bit(READ) else 0) | (if wr then Bit(WRITE) else 0)
  }

  /** What ending a slot schedules. */
  function SentFor(r: Registry, fd: nat, ev: Event, how: Ending, b: bool): seq<Sent>
    requires b ==> fd < |r.table| && RecOk(r.table[fd]) && Has(r.table[fd].events, ev)
  {
    if !b || how == Deleted then []
    else
      var ctx := Slot(r.table[fd], ev);
      [Sent(ctx.scheduler.value, TargetOf(ctx), ctx.reg.value)]
  }

  lemma EndBothKeeps(r: Registry, fd: nat, how: Ending, rd: bool, wr: bool)
    requires RegistryOk(r) && fd < |r.table|
    requires rd ==> Has(r.table[fd].events, READ)
    requires wr ==> Has(r.table[fd].events, WRITE)
    ensures RecOk(r.table[fd])
    ensures var r' := EndBoth(r, fd, how, rd, wr);
      && RegistryOk(r') && r'.kernel == r.kernel && r'.nextReg == r.nextReg && Grown(r, r')
      && |r'.table| == |r.table| && r'.table == r.table[fd := r'.table[fd]]
      && r'.table[fd].events == Minus(r.table[fd].events, BitsOf(rd, wr))
      && r'.pending == r.pending - One(rd) - One(wr)
      && r'.sent == r.sent + SentFor(r, fd, READ, how, rd) + SentFor(r, fd, WRITE, how, wr)
  {
    var rec := r.table[fd];
    assert RecOk(rec);
    var r1 := EndIf(r, fd, READ, how, rd);
    MaskLaws(rec.events, READ, READ);
    MaskLaws(rec.events, READ, WRITE);
    if rd {
      EndKeeps(r, fd, READ, how);
    }
    assert RecOk(r1.table[fd]);
    if wr {
      EndKeeps(r1, fd, WRITE, how);
    }
    MinusTwice(rec.events, rd, wr);
  }

  lemma MinusTwice(m: Mask, rd: bool, wr: bool)
    ensures var m1 := if rd then Minus(m, Bit(READ)) else m;
            (if wr then Minus(m1, Bit(WRITE)) else m1) == Minus(m, BitsOf(rd, wr))
  {
    MinusNone(m);
    if rd && wr {
      MinusReadWrite(m);
    }
  }

  lemma MinusNone(m: Mask)
    ensures Minus(m, 0) == m
  {
  }

  lemma MinusReadWrite(m: Mask)
    ensures Minus(Minus(m, 0x1), 0x4) == Minus(m, 0x5)
  {
  }

  lemma AllBits(m: Mask)
    requires Plain(m)
    ensures Minus(m, BitsOf(Has(m, READ), Has(m, WRITE))) == 0
  {
  }

  lemma CancelAllSucceeds(r: Registry, fd: nat, kernel: map<int, Mask>)
    requires fd < |r.table| && RecOk(r.table[fd]) && r.table[fd].events != 0
    requires EpollCtl(r.kernel, DEL, fd, 0, true) == Some(kernel)
    ensures var events := r.table[fd].events;
      CancelAll(r, fd, true)
        == (EndBoth(r, fd, Cancelled, Has(events, READ), Has(events, WRITE)).(kernel := kernel), true)
  {
  }

  /** `cancelAll` ends both registrations of the descriptor and schedules their targets,
      READ before WRITE, or it does nothing. */
  lemma CancelAllKeeps(r: Registry, fd: nat, allow: bool)
    requires Inv(r)
    ensures fd < |r.table| ==> RecOk(r.table[fd])
    ensures var (r', ok) := CancelAll(r, fd, allow);
      && Inv(r')
      && (ok <==> (Registered(r, fd, READ) || Registered(r, fd, WRITE)) && allow)
      && (!ok ==> r' == r)
      && (ok ==> r'.table[fd].events == 0)
      && r'.pending == r.pending - (if ok then Bits(r.table[fd].events) else 0)
      && r'.sent == r.sent + SentFor(r, fd, READ, Cancelled, ok && Registered(r, fd, READ))
                           + SentFor(r, fd, WRITE, Cancelled, ok && Registered(r, fd, WRITE))
      && Grown(r, r')
  {
    if fd < |r.table| {
      var events := r.table[fd].events;
      assert RecOk(r.table[fd]);
      MaskLaws(events, READ, READ);
      if events != 0 {
        OpsFit(r.table, r.kernel, fd);
        CancelAllSucceeds(r, fd, r.kernel - {fd});
        var rd, wr := Has(events, READ), Has(events, WRITE);
        EndBothKeeps(r, fd, Cancelled, rd, wr);
        AllBits(events);
        var r1 := EndBoth(r, fd, Cancelled, rd, wr);
        MirrorSet(r.table, r.kernel, fd, r1.table[fd]);
        KernelSet(r1, r.kernel - {fd});
      }
    }
  }

  // ---------------------------------------------------------------- delivery

  lemma HitLaws(events: Mask, m: Mask)
    requires Plain(events)
    ensures var hit := RealEvents(m); var rd := Has(hit, READ); var wr := Has(hit, WRITE);
      && hit == BitsOf(rd, wr)
      && (events & hit == 0 <==> !(rd && Has(events, READ)) && !(wr && Has(events, WRITE)))
      && (hit & !events == 0 <==> !Unmatched(events, hit))
      && (events & hit != 0 ==> events != 0)
  {
  }

  /** Some delivered bit is registered and the kernel call succeeds. */
  predicate Strikes(r: Registry, d: Delivery)
    requires d.fd < |r.table|
  {
    d.allow && r.table[d.fd].events & RealEvents(d.mask) != 0
  }

  /** The mask left and the kernel map after a delivery that strikes. */
  function KernelAfter(r: Registry, d: Delivery): map<int, Mask>
    requires d.fd < |r.table|
  {
    var left := Minus(r.table[d.fd].events, RealEvents(d.mask));
    if left == 0 then r.kernel - {d.fd} else r.kernel[d.fd := EPOLLET | left]
  }

  predicate CtlGives(r: Registry, d: Delivery, kernel: map<int, Mask>)
    requires d.fd < |r.table|
  {
    var left := Minus(r.table[d.fd].events, RealEvents(d.mask));
    EpollCtl(r.kernel, LeaveOpFor(left), d.fd, EPOLLET | left, d.allow) == Some(kernel)
  }

  lemma DeliverSucceeds(r: Registry, d: Delivery, kernel: map<int, Mask>)
    requires d.fd < |r.table| && RecOk(r.table[d.fd]) && Strikes(r, d) && CtlGives(r, d, kernel)
    requires !Unmatched(r.table[d.fd].events, RealEvents(d.mask))
    ensures var hit := RealEvents(d.mask);
      Deliver(r, d) == Some(EndBoth(r, d.fd, Fired, Has(hit, READ), Has(hit, WRITE)).(kernel := kernel))
  {
  }

  lemma DeliverRefused(r: Registry, d: Delivery)
    requires d.fd < |r.table| && RecOk(r.table[d.fd])
    requires var events := r.table[d.fd].events; var left := Minus(events, RealEvents(d.mask));
      events & RealEvents(d.mask) == 0 || EpollCtl(r.kernel, LeaveOpFor(left), d.fd, EPOLLET | left, d.allow) == None
    ensures Deliver(r, d) == Some(r)
  {
  }

  lemma DeliverAborts(r: Registry, d: Delivery, kernel: map<int, Mask>)
    requires d.fd < |r.table| && RecOk(r.table[d.fd]) && Strikes(r, d) && CtlGives(r, d, kernel)
    requires Unmatched(r.table[d.fd].events, RealEvents(d.mask))
    ensures Deliver(r, d) == None
  {
  }

  lemma DeliverMisses(r: Registry, d: Delivery)
    requires d.fd < |r.table| && RecOk(r.table[d.fd]) && !Strikes(r, d)
    ensures Deliver(r, d) == Some(r)
  {
  }

  /** Of the delivered bits some are registered in the mask and some are not. */
  predicate Mixed(events: Mask, delivered: Mask) {
    events & RealEvents(delivered) != 0 && RealEvents(delivered) & !events != 0
  }

  /** Delivery d would trip the assertion in `triggerEvent`. */
  predicate Trips(r: Registry, d: Delivery)
    requires d.fd < |r.table|
  {
    d.allow && Mixed(r.table[d.fd].events, d.mask)
  }

  /** A delivery trips the assertion in `triggerEvent` exactly when the kernel call
      succeeds, some delivered bit is registered, and some is not. */
  lemma DeliveryAbortsIff(r: Registry, d: Delivery)
    requires Inv(r) && d.fd < |r.table|
    ensures RecOk(r.table[d.fd])
    ensures Deliver(r, d) == None <==> Trips(r, d)
  {
    assert RecOk(r.table[d.fd]);
    HitLaws(r.table[d.fd].events, d.mask);
    if Strikes(r, d) {
      OpsFit(r.table, r.kernel, d.fd);
      if Unmatched(r.table[d.fd].events, RealEvents(d.mask)) {
        DeliverAborts(r, d, KernelAfter(r, d));
      } else {
        DeliverSucceeds(r, d, KernelAfter(r, d));
      }
    } else {
      DeliverMisses(r, d);
    }
  }

  lemma HangUpMixed()
    ensures Mixed(Bit(READ), EPOLLHUP)
  {
  }

  /** That can happen: a hang-up on a descriptor registered for READ alone. */
  lemma HangUpAborts()
    ensures |TableFor(Fresh().table, 5)| > 5 && !Registered(Fresh(), 5, READ)
    ensures var r := AddEvent(Fresh(), 5, READ, 0, ToCb(0), true).0;
      Inv(r) && 5 < |r.table| && RecOk(r.table[5]) && Deliver(r, Delivery(5, EPOLLHUP, true)) == None
  {
    FreshInv();
    assert Fresh().table[5] == EmptyRec(5);
    AddEventKeeps(Fresh(), 5, READ, 0, ToCb(0), true);
    var r := AddEvent(Fresh(), 5, READ, 0, ToCb(0), true).0;
    assert r.table[5].events == Bit(READ);
    HangUpMixed();
    DeliveryAbortsIff(r, Delivery(5, EPOLLHUP, true));
  }

  /** A delivery that does not abort clears exactly the delivered bits, schedules READ
      before WRITE, and changes nothing if no delivered bit is registered or the
      kernel refuses. */
  lemma DeliveryKeeps(r: Registry, d: Delivery)
    requires Inv(r) && d.fd < |r.table|
    ensures RecOk(r.table[d.fd])
    ensures Deliver(r, d).Some? ==>
      var r' := Deliver(r, d).value; var events := r.table[d.fd].events; var hit := RealEvents(d.mask);
      && Inv(r') && Grown(r, r')
      && |r'.table| == |r.table| && r'.table == r.table[d.fd := r'.table[d.fd]]
      && (!Strikes(r, d) ==> r' == r)
      && (Strikes(r, d) ==>
            && (Has(hit, READ) ==> Has(events, READ))
            && (Has(hit, WRITE) ==> Has(events, WRITE))
            && r'.table[d.fd].events == Minus(events, hit)
            && r'.pending == r.pending - Bits(hit)
            && r'.sent == r.sent + SentFor(r, d.fd, READ, Fired, Has(hit, READ))
                                 + SentFor(r, d.fd, WRITE, Fired, Has(hit, WRITE)))
  {
    var events := r.table[d.fd].events;
    var hit := RealEvents(d.mask);
    assert RecOk(r.table[d.fd]);
    HitLaws(events, d.mask);
    if !Strikes(r, d) {
      DeliverMisses(r, d);
      return;
    }
    OpsFit(r.table, r.kernel, d.fd);
    if Unmatched(events, hit) {
      DeliverAborts(r, d, KernelAfter(r, d));
    } else {
      DeliverSucceeds(r, d, KernelAfter(r, d));
      var rd, wr := Has(hit, READ), Has(hit, WRITE);
      EndBothKeeps(r, d.fd, Fired, rd, wr);
      var r1 := EndBoth(r, d.fd, Fired, rd, wr);
      MirrorSet(r.table, r.kernel, d.fd, r1.table[d.fd]);
      KernelSet(r1, KernelAfter(r, d));
    }
  }

  /** With the pending counter at zero no delivery can change or schedule anything. */
  lemma NothingToDeliver(r: Registry, d: Delivery)
    requires Inv(r) && r.pending == 0 && d.fd < |r.table|
    ensures RecOk(r.table[d.fd]) && Deliver(r, d) == Some(r)
  {
    SumZero(r.table);
    assert r.table[d.fd].events == 0;
    HitLaws(0, d.mask);
  }

  // ---------------------------------------------------------------- inverses

  lemma WithThenMinus(m: Mask, ev: Event)
    requires Plain(m) && !Has(m, ev)
    ensures Minus(With(m, ev), Bit(ev)) == m
  {
  }

  lemma PutThenEnd(r: Registry, i: nat, ev: Event, sched: SchedId, target: Target, how: Ending, kernel: map<int, Mask>)
    requires i < |r.table| && RecOk(r.table[i]) && !Has(r.table[i].events, ev)
    ensures var r1 := Put(r, i, ev, sched, target).(kernel := kernel);
      && RecOk(r1.table[i]) && Has(r1.table[i].events, ev)
      && var r2 := End(r1, i, ev, how);
         && r2.table == r.table && r2.pending == r.pending
         && r2.sent == r.sent + if how == Deleted then [] else [Sent(sched, target, r.nextReg)]
  {
    var rec := r.table[i];
    MaskLaws(rec.events, ev, READ);
    MaskLaws(rec.events, ev, WRITE);
    WithThenMinus(rec.events, ev);
    var rec1 := Put(r, i, ev, sched, target).table[i];
    assert SetSlot(rec1.(events := rec.events), ev, EMPTY_CTX) == rec;
  }

  /** Setting a descriptor's mask and then its old mask, or removing it, undoes it. */
  lemma CtlUndone(table: seq<FdRec>, kernel: map<int, Mask>, fd: nat, m: Mask)
    requires Mirror(table, kernel) && fd < |table|
    ensures var before := table[fd].events;
      (if before == 0 then kernel[fd := m] - {fd} else kernel[fd := m][fd := EPOLLET | before]) == kernel
  {
  }

  /** Deleting or cancelling an event just added gives back the table (as grown), the
      kernel's map and the pending count; a cancel schedules exactly what was added. */
  lemma AddThenDrop(r: Registry, fd: nat, ev: Event, sched: SchedId, target: Target, how: Ending)
    requires Inv(r) && !Registered(r, fd, ev)
    ensures |TableFor(r.table, fd)| > fd
    ensures var r1 := AddEvent(r, fd, ev, sched, target, true).0;
      && fd < |r1.table| && RecOk(r1.table[fd])
      && var (r2, ok) := DropEvent(r1, fd, ev, how, true);
         && ok
         && r2.table == TableFor(r.table, fd) && r2.kernel == r.kernel && r2.pending == r.pending
         && r2.sent == r.sent + if how == Deleted then [] else [Sent(sched, target, r.nextReg)]
  {
    var kernel := AddOutcome(r, fd, ev, sched, target, true);
    var r0 := r.(table := TableFor(r.table, fd));
    var rec := r0.table[fd];
    assert RecOk(rec);
    PutThenEnd(r0, fd, ev, sched, target, how, kernel);
    WithThenMinus(rec.events, ev);
    CtlUndone(r0.table, r.kernel, fd, kernel[fd]);
    DropSucceeds(Put(r0, fd, ev, sched, target).(kernel := kernel), fd, ev, how, r.kernel);
  }

  // ---------------------------------------------------------------- runs

  datatype Op =
    | Add(fd: nat, ev: Event, sched: SchedId, target: Target, allow: bool)
    | Del(fd: nat, ev: Event, allow: bool)
    | Cancel(fd: nat, ev: Event, allow: bool)
    | All(fd: nat, allow: bool)
    | Deliveries(batch: seq<Delivery>)

  /** The rounds of one batch, up to the first failed assertion. */
  ghost function DeliverAll(r: Registry, ds: seq<Delivery>): Option<Registry>
    decreases |ds|
  {
    if ds == [] then Some(r)
    else if ds[0].fd < |r.table| && RecOk(r.table[ds[0].fd]) && Deliver(r, ds[0]).Some?
    then DeliverAll(Deliver(r, ds[0]).value, ds[1..])
    else None
  }

  /** op respects the assertions: it adds no event twice, and no delivery of it aborts. */
  ghost predicate Legal(r: Registry, op: Op) {
    && RecsOk(r.table)
    && (op.Add? ==> |TableFor(r.table, op.fd)| > op.fd && !Registered(r, op.fd, op.ev))
    && (op.Deliveries? ==> DeliverAll(r, op.batch).Some?)
  }

  ghost function Perform(r: Registry, op: Op): Registry
    requires Legal(r, op)
  {
    match op
    case Add(fd, ev, sched, target, allow) => AddEvent(r, fd, ev, sched, target, allow).0
    case Del(fd, ev, allow) => DropEvent(r, fd, ev, Deleted, allow).0
    case Cancel(fd, ev, allow) => DropEvent(r, fd, ev, Cancelled, allow).0
    case All(fd, allow) => CancelAll(r, fd, allow).0
    case Deliveries(batch) => DeliverAll(r, batch).value
  }

  ghost predicate LegalRun(r: Registry, ops: seq<Op>)
    decreases |ops|
  {
    ops == [] || (Legal(r, ops[0]) && LegalRun(Perform(r, ops[0]), ops[1..]))
  }

  ghost function AfterOps(r: Registry, ops: seq<Op>): Registry
    requires LegalRun(r, ops)
    decreases |ops|
  {
    if ops == [] then r else AfterOps(Perform(r, ops[0]), ops[1..])
  }

  lemma {:induction false} BatchKeeps(r: Registry, ds: seq<Delivery>)
    requires Inv(r) && DeliverAll(r, ds).Some?
    ensures Inv(DeliverAll(r, ds).value) && Grown(r, DeliverAll(r, ds).value)
    decreases |ds|
  {
    if ds != [] {
      DeliveryKeeps(r, ds[0]);
      BatchKeeps(Deliver(r, ds[0]).value, ds[1..]);
    }
  }

  /** Each descriptor of the batch is in the table and delivered once. */
  predicate OncePerFd(ds: seq<Delivery>, size: nat) {
    && (forall i :: 0 <= i < |ds| ==> ds[i].fd < size)
    && (forall i, j :: 0 <= i < j < |ds| ==> ds[i].fd != ds[j].fd)
  }

  /** A delivery that does not abort leaves the other descriptors' records alone. */
  lemma DeliveryIsLocal(r: Registry, d: Delivery)
    requires Inv(r) && d.fd < |r.table|
    ensures RecOk(r.table[d.fd]) && (Deliver(r, d) == None <==> Trips(r, d))
    ensures Deliver(r, d).Some? ==>
      var r' := Deliver(r, d).value;
      && Inv(r') && |r'.table| == |r.table|
      && forall fd :: 0 <= fd < |r.table| && fd != d.fd ==> r'.table[fd] == r.table[fd]
  {
    DeliveryAbortsIff(r, d);
    DeliveryKeeps(r, d);
  }

  lemma SameTrips(r: Registry, r': Registry, d: Delivery)
    requires d.fd < |r.table| && d.fd < |r'.table| && r'.table[d.fd] == r.table[d.fd]
    ensures Trips(r', d) == Trips(r, d)
  {
    var events := r.table[d.fd].events;
    assert Trips(r, d) == (d.allow && Mixed(events, d.mask));
    assert Trips(r', d) == (d.allow && Mixed(events, d.mask));
  }

  ghost predicate SomeTrips(r: Registry, ds: seq<Delivery>)
    requires OncePerFd(ds, |r.table|)
  {
    exists i :: 0 <= i < |ds| && Trips(r, ds[i])
  }

  lemma SomeTripsStep(r: Registry, r': Registry, ds: seq<Delivery>)
    requires OncePerFd(ds, |r.table|) && |r'.table| == |r.table| && ds != [] && !Trips(r, ds[0])
    requires forall fd :: 0 <= fd < |r.table| && fd != ds[0].fd ==> r'.table[fd] == r.table[fd]
    ensures OncePerFd(ds[1..], |r'.table|) && SomeTrips(r', ds[1..]) == SomeTrips(r, ds)
  {
    var rest := ds[1..];
    forall i | 0 <= i < |rest| ensures Trips(r', rest[i]) == Trips(r, ds[i + 1]) {
      SameTrips(r, r', rest[i]);
    }
    if i :| 0 <= i < |ds| && Trips(r, ds[i]) {
      assert Trips(r', rest[i - 1]);
    }
  }

  /** A batch that names each descriptor once aborts if and only if, in the registry as
      it is before the batch, some delivery succeeds on a registered bit while another
      of its bits is not registered. */
  lemma {:induction false} BatchAbortsIff(r: Registry, ds: seq<Delivery>)
    requires Inv(r) && OncePerFd(ds, |r.table|)
    ensures DeliverAll(r, ds) == None <==> SomeTrips(r, ds)
    decreases |ds|
  {
    if ds != [] {
      DeliveryIsLocal(r, ds[0]);
      if Deliver(r, ds[0]).Some? {
        var r' := Deliver(r, ds[0]).value;
        SomeTripsStep(r, r', ds);
        BatchAbortsIff(r', ds[1..]);
      }
    }
  }

  lemma PerformKeeps(r: Registry, op: Op)
    requires Inv(r) && Legal(r, op)
    ensures Inv(Perform(r, op)) && Grown(r, Perform(r, op))
  {
    match op
    case Add(fd, ev, sched, target, allow) => AddEventKeeps(r, fd, ev, sched, target, allow);
    case Del(fd, ev, allow) => DropEventKeeps(r, fd, ev, Deleted, allow);
    case Cancel(fd, ev, allow) => DropEventKeeps(r, fd, ev, Cancelled, allow);
    case All(fd, allow) => CancelAllKeeps(r, fd, allow);
    case Deliveries(batch) => BatchKeeps(r, batch);
  }

  lemma {:induction false} OpsKeepInv(r: Registry, ops: seq<Op>)
    requires Inv(r) && LegalRun(r, ops)
    ensures Inv(AfterOps(r, ops)) && Grown(r, AfterOps(r, ops))
    decreases |ops|
  {
    if ops != [] {
      PerformKeeps(r, ops[0]);
      OpsKeepInv(Perform(r, ops[0]), ops[1..]);
    }
  }

  lemma EmptyTable(t: seq<FdRec>)
    requires |t| >= INITIAL_SIZE && forall i :: 0 <= i < |t| ==> t[i] == EmptyRec(i)
    ensures TableOk(t) && SumBits(t) == 0
  {
    forall i | 0 <= i < |t| ensures RecOk(t[i]) {}
    SumZero(t);
  }

  lemma FreshInv()
    ensures Inv(Fresh())
  {
    EmptyTable(Fresh().table);
  }

  ghost predicate Reached(r: Registry) {
    exists ops :: LegalRun(Fresh(), ops) && r == AfterOps(Fresh(), ops)
  }

  lemma ReachedInv(r: Registry)
    requires Reached(r)
    ensures Inv(r)
  {
    var ops :| LegalRun(Fresh(), ops) && r == AfterOps(Fresh(), ops);
    FreshInv();
    OpsKeepInv(Fresh(), ops);
  }

  /** After any operations and kernel refusals, epoll watches exactly the descriptors
      with a non-empty mask, with that mask; so an ADD never meets a present
      descriptor and a MOD or DEL never an absent one. */
  lemma KernelMirrorsTable(r: Registry)
    requires Reached(r)
    ensures forall fd :: fd in r.kernel <==> 0 <= fd < |r.table| && r.table[fd].events != 0
    ensures forall fd :: fd in r.kernel ==> r.kernel[fd] == EPOLLET | r.table[fd].events
    ensures forall fd :: 0 <= fd < |r.table| ==> OpFits(r.kernel, AddOpFor(r.table[fd].events), fd)
    ensures forall fd :: 0 <= fd < |r.table| && r.table[fd].events != 0 ==>
      OpFits(r.kernel, MOD, fd) && OpFits(r.kernel, DEL, fd)
  {
    ReachedInv(r);
    forall fd | 0 <= fd < |r.table|
      ensures OpFits(r.kernel, AddOpFor(r.table[fd].events), fd)
    {
      OpsFit(r.table, r.kernel, fd);
    }
  }

  /** The pending counter is the number of registered events, and never negative. */
  lemma PendingCountsBits(r: Registry)
    requires Reached(r)
    ensures r.pending == SumBits(r.table) >= 0
    ensures r.pending == 0 <==> forall fd, ev :: !(0 <= fd < |r.table| && Has(r.table[fd].events, ev))
  {
    ReachedInv(r);
    SumZero(r.table);
    forall fd | 0 <= fd < |r.table|
      ensures r.table[fd].events == 0 <==> !Has(r.table[fd].events, READ) && !Has(r.table[fd].events, WRITE)
    {
      assert RecOk(r.table[fd]);
      MaskLaws(r.table[fd].events, READ, READ);
    }
  }

  /** Each successful `addEvent` is live in exactly one slot until it ends, ends at most
      once, and is scheduled once if it fired or was cancelled and never otherwise. */
  lemma RegistrationsLinear(r: Registry, id: RegId)
    requires Reached(r) && id < r.nextReg
    ensures IsLive(r, id) <==> id !in r.ended
    ensures forall i, j, ev, ev' :: Live(r, i, ev, id) && Live(r, j, ev', id) ==> i == j && ev == ev'
    ensures (exists k :: SentAt(r, k, id)) <==> id in r.ended && r.ended[id] != Deleted
    ensures forall k, l :: SentAt(r, k, id) && SentAt(r, l, id) ==> k == l
  {
    ReachedInv(r);
  }

  /** In whatever comes after a reached state, what has ended stays ended, the way it
      ended, and no label is used again; so a registration ends at most once. */
  lemma EndedForGood(r: Registry, ops: seq<Op>)
    requires Reached(r) && LegalRun(r, ops)
    ensures Grown(r, AfterOps(r, ops))
  {
    ReachedInv(r);
    OpsKeepInv(r, ops);
  }

  /** Slots agree with masks, so the emptiness assertion of `addEvent` never fires;
      the table is never below its first size and every record knows its index. */
  lemma SlotsAgree(r: Registry, fd: nat)
    requires Reached(r) && fd < |r.table|
    ensures |r.table| >= INITIAL_SIZE && r.table[fd].fd == fd
    ensures forall ev :: !Has(r.table[fd].events, ev) ==> Slot(r.table[fd], ev) == EMPTY_CTX
    ensures forall ev :: Has(r.table[fd].events, ev) ==>
      var ctx := Slot(r.table[fd], ev); ctx.scheduler.Some? && (ctx.fiber.Some? <==> ctx.cb.None?)
  {
    ReachedInv(r);
    var rec := r.table[fd];
    assert RecOk(rec);
    forall ev ensures SlotOk(rec, ev) {
      assert ev == READ || ev == WRITE;
    }
  }
}
