/** What is scheduled is what was registered: over every later sequence of operations, a
    registration's slot holds, and its ending schedules, exactly the scheduler and the
    callback or fiber that its `addEvent` was given. */
module IoTargets {
  import opened Wrappers
  import opened IoRegistry
  import opened IoInvariant
  import opened IoTheorems

  /** A request: where, for whom, and what is to be scheduled. */
  datatype Request = Request(fd: nat, ev: Event, sched: SchedId, target: Target)

  /** Registration id is still in its slot as requested, or was deleted, or exactly what
      was requested has been scheduled for it. */
  ghost predicate Kept(r: Registry, id: RegId, q: Request) {
    && id < r.nextReg
    && (id !in r.ended ==> q.fd < |r.table| && Slot(r.table[q.fd], q.ev) == FilledCtx(q.sched, q.target, id))
    && (id in r.ended && r.ended[id] != Deleted ==> Sent(q.sched, q.target, id) in r.sent)
  }

  lemma PutKept(r: Registry, i: nat, ev: Event, sched: SchedId, target: Target, id: RegId, q: Request)
    requires RegistryOk(r) && i < |r.table| && !Has(r.table[i].events, ev) && Kept(r, id, q)
    ensures Kept(Put(r, i, ev, sched, target), id, q)
  {
    assert RecOk(r.table[i]);
    assert Slot(r.table[i], ev) == EMPTY_CTX;
  }

  /** The registration that Put makes is kept from the start. */
  lemma PutIsKept(r: Registry, i: nat, ev: Event, sched: SchedId, target: Target)
    requires RegistryOk(r) && i < |r.table|
    ensures Kept(Put(r, i, ev, sched, target), r.nextReg, Request(i, ev, sched, target))
  {
  }

  lemma EndKept(r: Registry, i: nat, ev: Event, how: Ending, id: RegId, q: Request)
    requires RegistryOk(r) && i < |r.table| && Has(r.table[i].events, ev) && Kept(r, id, q)
    ensures Kept(End(r, i, ev, how), id, q)
  {
    var rec := r.table[i];
    assert RecOk(rec);
    var ctx := Slot(rec, ev);
    var gone := ctx.reg.value;
    assert Live(r, i, ev, gone);
    if id !in r.ended {
      assert Live(r, q.fd, q.ev, id);
      if id == gone {
        assert i == q.fd && ev == q.ev;
        assert Sent(ctx.scheduler.value, TargetOf(ctx), gone) == Sent(q.sched, q.target, id);
      }
    }
  }

  lemma EndBothKept(r: Registry, fd: nat, how: Ending, rd: bool, wr: bool, id: RegId, q: Request)
    requires RegistryOk(r) && fd < |r.table| && Kept(r, id, q)
    requires (rd ==> Has(r.table[fd].events, READ)) && (wr ==> Has(r.table[fd].events, WRITE))
    ensures RecOk(r.table[fd]) && Kept(EndBoth(r, fd, how, rd, wr), id, q)
  {
    assert RecOk(r.table[fd]);
    MaskLaws(r.table[fd].events, READ, READ);
    MaskLaws(r.table[fd].events, READ, WRITE);
    var r1 := EndIf(r, fd, READ, how, rd);
    if rd {
      EndKeeps(r, fd, READ, how);
      EndKept(r, fd, READ, how, id, q);
    }
    if wr {
      EndKept(r1, fd, WRITE, how, id, q);
    }
  }

  lemma GrowKept(r: Registry, fd: nat, id: RegId, q: Request)
    requires Inv(r) && Kept(r, id, q)
    ensures Kept(r.(table := TableFor(r.table, fd)), id, q)
  {
    Grows(r.table, fd);
    assert q.fd < |r.table| ==> TableFor(r.table, fd)[..|r.table|][q.fd] == r.table[q.fd];
  }

  lemma AddKept(r: Registry, fd: nat, ev: Event, sched: SchedId, target: Target, allow: bool, id: RegId, q: Request)
    requires Inv(r) && !Registered(r, fd, ev) && Kept(r, id, q)
    ensures |TableFor(r.table, fd)| > fd && Kept(AddEvent(r, fd, ev, sched, target, allow).0, id, q)
  {
    var kernel := AddOutcome(r, fd, ev, sched, target, allow);
    GrowKept(r, fd, id, q);
    if allow {
      PutKept(r.(table := TableFor(r.table, fd)), fd, ev, sched, target, id, q);
    }
  }

  /** The registration a successful `addEvent` makes carries what it was given. */
  lemma AddIsKept(r: Registry, fd: nat, ev: Event, sched: SchedId, target: Target)
    requires Inv(r) && !Registered(r, fd, ev)
    ensures |TableFor(r.table, fd)| > fd
    ensures Kept(AddEvent(r, fd, ev, sched, target, true).0, r.nextReg, Request(fd, ev, sched, target))
  {
    var kernel := AddOutcome(r, fd, ev, sched, target, true);
    PutIsKept(r.(table := TableFor(r.table, fd)), fd, ev, sched, target);
  }

  lemma DropKept(r: Registry, fd: nat, ev: Event, how: Ending, allow: bool, id: RegId, q: Request)
    requires Inv(r) && Kept(r, id, q)
    ensures fd < |r.table| ==> RecOk(r.table[fd])
    ensures Kept(DropEvent(r, fd, ev, how, allow).0, id, q)
  {
    DropEventKeeps(r, fd, ev, how, allow);
    if Registered(r, fd, ev) && allow {
      EndKept(r, fd, ev, how, id, q);
    }
  }

  lemma AllKept(r: Registry, fd: nat, allow: bool, id: RegId, q: Request)
    requires Inv(r) && Kept(r, id, q)
    ensures fd < |r.table| ==> RecOk(r.table[fd])
    ensures Kept(CancelAll(r, fd, allow).0, id, q)
  {
    CancelAllKeeps(r, fd, allow);
    if CancelAll(r, fd, allow).1 {
      var events := r.table[fd].events;
      OpsFit(r.table, r.kernel, fd);
      CancelAllSucceeds(r, fd, r.kernel - {fd});
      EndBothKept(r, fd, Cancelled, Has(events, READ), Has(events, WRITE), id, q);
    }
  }

  lemma DeliverKept(r: Registry, d: Delivery, id: RegId, q: Request)
    requires Inv(r) && d.fd < |r.table| && Kept(r, id, q)
    ensures RecOk(r.table[d.fd])
    ensures Deliver(r, d).Some? ==> Kept(Deliver(r, d).value, id, q)
  {
    DeliveryKeeps(r, d);
    if Strikes(r, d) && Deliver(r, d).Some? {
      var hit := RealEvents(d.mask);
      OpsFit(r.table, r.kernel, d.fd);
      HitLaws(r.table[d.fd].events, d.mask);
      StruckKept(r, d, id, q);
    } else if !Strikes(r, d) {
      DeliverMisses(r, d);
    }
  }

  lemma StruckKept(r: Registry, d: Delivery, id: RegId, q: Request)
    requires Inv(r) && d.fd < |r.table| && Kept(r, id, q) && Strikes(r, d) && RecOk(r.table[d.fd])
    requires CtlGives(r, d, KernelAfter(r, d)) && Deliver(r, d).Some?
    ensures Kept(Deliver(r, d).value, id, q)
  {
    var hit := RealEvents(d.mask);
    if Unmatched(r.table[d.fd].events, hit) {
      DeliverAborts(r, d, KernelAfter(r, d));
    } else {
      DeliverSucceeds(r, d, KernelAfter(r, d));
      EndBothKept(r, d.fd, Fired, Has(hit, READ), Has(hit, WRITE), id, q);
    }
  }

  lemma {:induction false} BatchKept(r: Registry, ds: seq<Delivery>, id: RegId, q: Request)
    requires Inv(r) && DeliverAll(r, ds).Some? && Kept(r, id, q)
    ensures Kept(DeliverAll(r, ds).value, id, q)
    decreases |ds|
  {
    if ds != [] {
      DeliveryKeeps(r, ds[0]);
      DeliverKept(r, ds[0], id, q);
      BatchKept(Deliver(r, ds[0]).value, ds[1..], id, q);
    }
  }

  lemma PerformKept(r: Registry, op: Op, id: RegId, q: Request)
    requires Inv(r) && Legal(r, op) && Kept(r, id, q)
    ensures Kept(Perform(r, op), id, q)
  {
    match op
    case Add(fd, ev, sched, target, allow) => AddKept(r, fd, ev, sched, target, allow, id, q);
    case Del(fd, ev, allow) => DropKept(r, fd, ev, Deleted, allow, id, q);
    case Cancel(fd, ev, allow) => DropKept(r, fd, ev, Cancelled, allow, id, q);
    case All(fd, allow) => AllKept(r, fd, allow, id, q);
    case Deliveries(batch) => BatchKept(r, batch, id, q);
  }

  lemma {:induction false} OpsKept(r: Registry, ops: seq<Op>, id: RegId, q: Request)
    requires Inv(r) && LegalRun(r, ops) && Kept(r, id, q)
    ensures Kept(AfterOps(r, ops), id, q)
    decreases |ops|
  {
    if ops != [] {
      PerformKeeps(r, ops[0]);
      PerformKept(r, ops[0], id, q);
      OpsKept(Perform(r, ops[0]), ops[1..], id, q);
    }
  }

  /** After an `addEvent` that succeeded in a reached state and any operations since, its
      registration is in its own slot with what it was given, or has been deleted, or has
      had exactly that scheduled. */
  lemma ScheduledAsRequested(r: Registry, q: Request, ops: seq<Op>)
    requires Reached(r) && Legal(r, Add(q.fd, q.ev, q.sched, q.target, true))
    requires LegalRun(Perform(r, Add(q.fd, q.ev, q.sched, q.target, true)), ops)
    ensures Kept(AfterOps(Perform(r, Add(q.fd, q.ev, q.sched, q.target, true)), ops), r.nextReg, q)
  {
    ReachedInv(r);
    var add := Add(q.fd, q.ev, q.sched, q.target, true);
    AddIsKept(r, q.fd, q.ev, q.sched, q.target);
    PerformKeeps(r, add);
    OpsKept(Perform(r, add), ops, r.nextReg, q);
  }
}
