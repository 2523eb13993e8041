/** `IOManager` and its `FdContext`s as objects updated in place, each method proved
    to make exactly the registry operation of its name. */
module IoManager {
  import opened Wrappers
  import opened IoRegistry
  import opened IoInvariant
  import opened IoTheorems
  import opened IoDelivery

  class FdContext {
    var fd: int
    var events: Mask
    var read: EventCtx
    var write: EventCtx

    function Rec(): FdRec
      reads this
    {
      FdRec(fd, events, read, write)
    }

    constructor (fd: int)
      ensures Rec() == EmptyRec(fd)
    {
      this.fd, events, read, write := fd, 0, EMPTY_CTX, EMPTY_CTX;
    }

    method SetContext(ev: Event, ctx: EventCtx)
      modifies this
      ensures Rec() == SetSlot(old(Rec()), ev, ctx)
    {
      match ev {
        case READ => read := ctx;
        case WRITE => write := ctx;
      }
    }

    /** `triggerEvent`: clears the bit, moves the callback or fiber out of the slot into
        a call of `schedule`, and forgets the scheduler. */
    method TriggerEvent(ev: Event) returns (sent: Sent)
      requires RecOk(Rec()) && Has(events, ev)
      modifies this
      ensures Rec() == old(SetSlot(Rec().(events := Minus(events, Bit(ev))), ev, EMPTY_CTX))
      ensures var ctx := old(Slot(Rec(), ev));
        sent == Sent(ctx.scheduler.value, TargetOf(ctx), ctx.reg.value)
    {
      events := Minus(events, Bit(ev));
      var ctx := Slot(Rec(), ev);
      if ctx.cb.Some? {
        sent := Sent(ctx.scheduler.value, ToCb(ctx.cb.value), ctx.reg.value);
        ctx := ctx.(cb := None);
      } else {
        sent := Sent(ctx.scheduler.value, ToFiber(ctx.fiber.value), ctx.reg.value);
        ctx := ctx.(fiber := None);
      }
      SetContext(ev, ctx.(scheduler := None, reg := None));
    }
  }

  class IOManager {
    var m_fdContexts: seq<FdContext>
    var m_pendingEventCount: int
    /** What epoll watches, and the calls of `schedule` made so far. */
    var kernel: map<int, Mask>
    var sent: seq<Sent>
    var nextReg: RegId
    ghost var ended: map<RegId, Ending>

    ghost function Table(): seq<FdRec>
      reads this, m_fdContexts
    {
      seq(|m_fdContexts|, i requires 0 <= i < |m_fdContexts| reads this, m_fdContexts => m_fdContexts[i].Rec())
    }

    ghost function View(): Registry
      reads this, m_fdContexts
    {
      Registry(Table(), kernel, m_pendingEventCount, sent, nextReg, ended)
    }

    ghost predicate Distinct()
      reads this
    {
      forall i, j :: 0 <= i < j < |m_fdContexts| ==> m_fdContexts[i] != m_fdContexts[j]
    }

    ghost predicate Valid()
      reads this, m_fdContexts
    {
      Distinct() && Inv(View())
    }

    constructor ()
      ensures Valid() && View() == Fresh() && fresh(m_fdContexts)
      ensures |m_fdContexts| == 32 && kernel == map[] && m_pendingEventCount == 0 && sent == []
    {
      m_fdContexts, m_pendingEventCount, kernel, sent, nextReg, ended := [], 0, map[], [], 0, map[];
      new;
      assert Table() == [];
      ContextResize(INITIAL_SIZE);
      assert m_fdContexts[0..] == m_fdContexts;
      assert View() == Fresh();
      FreshInv();
    }

    /** `contextResize`: the contexts that remain stay the same objects. */
    method ContextResize(size: nat)
      requires Distinct()
      modifies this`m_fdContexts
      ensures Distinct() && |m_fdContexts| == size
      ensures size >= |old(m_fdContexts)| ==>
        old(m_fdContexts) <= m_fdContexts && fresh(m_fdContexts[|old(m_fdContexts)|..])
      ensures size <= |old(m_fdContexts)| ==> m_fdContexts == old(m_fdContexts)[..size]
      ensures Table() == old(Resized(Table(), size))
    {
      if size < |m_fdContexts| {
        m_fdContexts := m_fdContexts[..size];
        return;
      }
      ghost var before := m_fdContexts;
      ghost var table := Table();
      var i := |m_fdContexts|;
      while i < size
        invariant |before| <= i <= size && |m_fdContexts| == i
        invariant Distinct() && before <= m_fdContexts && fresh(m_fdContexts[|before|..])
        invariant forall k :: 0 <= k < |before| ==> m_fdContexts[k].Rec() == table[k]
        invariant forall k :: |before| <= k < i ==> m_fdContexts[k].Rec() == EmptyRec(k)
      {
        var ctx := new FdContext(i);
        assert (m_fdContexts + [ctx])[|before|..] == m_fdContexts[|before|..] + [ctx];
        m_fdContexts := m_fdContexts + [ctx];
        i := i + 1;
      }
      assert Table() == Resized(table, size);
    }

    /** Ends one registration through `triggerEvent`. */
    method Trigger(fd: nat, ev: Event, ghost how: Ending)
      requires Distinct() && fd < |m_fdContexts| && how != Deleted
      requires RecOk(m_fdContexts[fd].Rec()) && Has(m_fdContexts[fd].events, ev)
      modifies this`m_pendingEventCount, this`sent, this`ended, m_fdContexts[fd]
      ensures View() == old(End(View(), fd, ev, how))
    {
      ghost var table := Table();
      ended := ended[Slot(m_fdContexts[fd].Rec(), ev).reg.value := how];
      var call := m_fdContexts[fd].TriggerEvent(ev);
      sent := sent + [call];
      m_pendingEventCount := m_pendingEventCount - 1;
      assert Table() == table[fd := m_fdContexts[fd].Rec()];
    }

    /** `epoll_ctl` on the fields: true means failure, as its non-zero result does. */
    method Ctl(op: CtlOp, fd: int, m: Mask, allow: bool) returns (failed: bool)
      modifies this`kernel
      ensures failed <==> EpollCtl(old(kernel), op, fd, m, allow) == None
      ensures kernel == if failed then old(kernel) else EpollCtl(old(kernel), op, fd, m, allow).value
    {
      failed := !allow || (op == ADD) == (fd in kernel);
      if !failed {
        kernel := if op == DEL then kernel - {fd} else kernel[fd := m];
      }
    }

    /** The lookup in `addEvent`, with the resize when fd is out of range. */
    method Reach(fd: nat)
      requires Valid()
      modifies this`m_fdContexts
      ensures Distinct() && fd < |m_fdContexts|
      ensures old(m_fdContexts) <= m_fdContexts && fresh(m_fdContexts[|old(m_fdContexts)|..])
      ensures Table() == old(TableFor(Table(), fd))
    {
      Grows(Table(), fd);
      if fd >= |m_fdContexts| {
        ContextResize(fd * 3 / 2);
      }
    }

    method Fill(fd: nat, ev: Event, sched: SchedId, target: Target)
      requires Distinct() && fd < |m_fdContexts|
      modifies this`m_pendingEventCount, this`nextReg, m_fdContexts[fd]
      ensures View() == old(Put(View(), fd, ev, sched, target))
    {
      ghost var table := Table();
      var ctx := m_fdContexts[fd];
      m_pendingEventCount := m_pendingEventCount + 1;
      ctx.events := With(ctx.events, ev);
      ctx.SetContext(ev, FilledCtx(sched, target, nextReg));
      nextReg := nextReg + 1;
      assert Table() == table[fd := ctx.Rec()];
    }

    method AddCtl(fd: nat, ev: Event, allow: bool) returns (failed: bool)
      requires fd < |m_fdContexts|
      modifies this`kernel
      ensures failed <==> old(AddKernel(View(), fd, ev, allow)) == None
      ensures kernel == if failed then old(kernel) else old(AddKernel(View(), fd, ev, allow)).value
    {
      var events := m_fdContexts[fd].events;
      assert m_fdContexts[fd].Rec() == Table()[fd];
      failed := Ctl(AddOpFor(events), fd, EPOLLET | With(events, ev), allow);
    }

    /** `addEvent` under the descriptor's lock. */
    method AddLocked(fd: nat, ev: Event, sched: SchedId, target: Target, allow: bool) returns (rt: int)
      requires Distinct() && fd < |m_fdContexts|
      modifies this`kernel, this`m_pendingEventCount, this`nextReg, m_fdContexts[fd]
      ensures (View(), rt) == old(AddTo(View(), fd, ev, sched, target, allow))
    {
      ghost var r := View();
      var failed := AddCtl(fd, ev, allow);
      assert Table() == r.table;
      if failed {
        AddToFails(r, fd, ev, sched, target, allow);
        return -1;
      }
      Fill(fd, ev, sched, target);
      AddToSucceeds(r, fd, ev, sched, target, kernel);
      return 0;
    }

    method AddEvent(fd: nat, ev: Event, sched: SchedId, target: Target, allow: bool) returns (rt: int)
      requires Valid() && !Registered(View(), fd, ev)
      modifies this, m_fdContexts
      ensures Valid() && old(m_fdContexts) <= m_fdContexts && fresh(m_fdContexts[|old(m_fdContexts)|..])
      ensures |TableFor(old(View()).table, fd)| > fd
      ensures (View(), rt) == IoRegistry.AddEvent(old(View()), fd, ev, sched, target, allow)
    {
      ghost var before, was := m_fdContexts, View();
      Reach(fd);
      assert fd >= |before| ==> m_fdContexts[fd] == m_fdContexts[|before|..][fd - |before|];
      assert View() == was.(table := TableFor(was.table, fd));
      rt := AddLocked(fd, ev, sched, target, allow);
      AddEventKeeps(was, fd, ev, sched, target, allow);
    }

    method Vacate(fd: nat, ev: Event)
      requires Distinct() && fd < |m_fdContexts|
      requires RecOk(m_fdContexts[fd].Rec()) && Has(m_fdContexts[fd].events, ev)
      modifies this`m_pendingEventCount, this`ended, m_fdContexts[fd]
      ensures View() == old(End(View(), fd, ev, Deleted))
    {
      ghost var table := Table();
      var ctx := m_fdContexts[fd];
      m_pendingEventCount := m_pendingEventCount - 1;
      ended := ended[Slot(ctx.Rec(), ev).reg.value := Deleted];
      ctx.events := Minus(ctx.events, Bit(ev));
      ctx.SetContext(ev, EMPTY_CTX);
      assert Table() == table[fd := ctx.Rec()];
    }

    /** `delEvent` under the descriptor's lock. */
    method DelLocked(fd: nat, ev: Event, allow: bool) returns (ok: bool)
      requires Distinct() && fd < |m_fdContexts| && RecOk(m_fdContexts[fd].Rec())
      modifies this, m_fdContexts[fd]
      ensures m_fdContexts == old(m_fdContexts)
      ensures (View(), ok) == old(DropEvent(View(), fd, ev, Deleted, allow))
    {
      ghost var r := View();
      var events := m_fdContexts[fd].events;
      assert m_fdContexts[fd].Rec() == r.table[fd];
      if !Has(events, ev) {
        return false;
      }
      var left := Minus(events, Bit(ev));
      var failed := Ctl(LeaveOpFor(left), fd, EPOLLET | left, allow);
      assert Table() == r.table;
      if failed {
        return false;
      }
      Vacate(fd, ev);
      DropSucceeds(r, fd, ev, Deleted, kernel);
      return true;
    }

    method DelEvent(fd: nat, ev: Event, allow: bool) returns (ok: bool)
      requires Valid()
      modifies this, m_fdContexts
      ensures Valid() && m_fdContexts == old(m_fdContexts)
      ensures fd < |m_fdContexts| ==> RecOk(old(m_fdContexts[fd].Rec()))
      ensures (View(), ok) == old(DropEvent(View(), fd, ev, Deleted, allow))
    {
      DropEventKeeps(View(), fd, ev, Deleted, allow);
      if |m_fdContexts| <= fd {
        return false;
      }
      assert m_fdContexts[fd].Rec() == Table()[fd];
      ok := DelLocked(fd, ev, allow);
    }

    /** `cancelEvent` under the descriptor's lock. */
    method CancelLocked(fd: nat, ev: Event, allow: bool) returns (ok: bool)
      requires Distinct() && fd < |m_fdContexts| && RecOk(m_fdContexts[fd].Rec())
      modifies this, m_fdContexts[fd]
      ensures m_fdContexts == old(m_fdContexts)
      ensures (View(), ok) == old(DropEvent(View(), fd, ev, Cancelled, allow))
    {
      ghost var r := View();
      var events := m_fdContexts[fd].events;
      assert m_fdContexts[fd].Rec() == r.table[fd];
      if !Has(events, ev) {
        return false;
      }
      var left := Minus(events, Bit(ev));
      var failed := Ctl(LeaveOpFor(left), fd, EPOLLET | left, allow);
      assert Table() == r.table;
      if failed {
        return false;
      }
      Trigger(fd, ev, Cancelled);
      DropSucceeds(r, fd, ev, Cancelled, kernel);
      return true;
    }

    method CancelEvent(fd: nat, ev: Event, allow: bool) returns (ok: bool)
      requires Valid()
      modifies this, m_fdContexts
      ensures Valid() && m_fdContexts == old(m_fdContexts)
      ensures fd < |m_fdContexts| ==> RecOk(old(m_fdContexts[fd].Rec()))
      ensures (View(), ok) == old(DropEvent(View(), fd, ev, Cancelled, allow))
    {
      DropEventKeeps(View(), fd, ev, Cancelled, allow);
      if |m_fdContexts| <= fd {
        return false;
      }
      assert m_fdContexts[fd].Rec() == Table()[fd];
      ok := CancelLocked(fd, ev, allow);
    }

    /** Triggers READ if wanted, then WRITE if wanted. */
    method TriggerBoth(fd: nat, ghost how: Ending, rd: bool, wr: bool)
      requires Distinct() && fd < |m_fdContexts| && how != Deleted && RecOk(m_fdContexts[fd].Rec())
      requires (rd ==> Has(m_fdContexts[fd].events, READ)) && (wr ==> Has(m_fdContexts[fd].events, WRITE))
      modifies this`m_pendingEventCount, this`sent, this`ended, m_fdContexts[fd]
      ensures View() == old(EndBoth(View(), fd, how, rd, wr))
    {
      MaskLaws(m_fdContexts[fd].events, READ, READ);
      MaskLaws(m_fdContexts[fd].events, READ, WRITE);
      if rd {
        Trigger(fd, READ, how);
      }
      assert m_fdContexts[fd].Rec() == Table()[fd];
      if wr {
        Trigger(fd, WRITE, how);
      }
    }

    /** `cancelAll` under the descriptor's lock. */
    method CancelAllLocked(fd: nat, allow: bool) returns (ok: bool)
      requires Distinct() && fd < |m_fdContexts| && RecOk(m_fdContexts[fd].Rec())
      modifies this, m_fdContexts[fd]
      ensures m_fdContexts == old(m_fdContexts)
      ensures (View(), ok) == old(IoRegistry.CancelAll(View(), fd, allow))
    {
      ghost var r := View();
      var events := m_fdContexts[fd].events;
      assert m_fdContexts[fd].Rec() == r.table[fd];
      if events == 0 {
        return false;
      }
      var failed := Ctl(DEL, fd, 0, allow);
      assert Table() == r.table;
      if failed {
        return false;
      }
      TriggerBoth(fd, Cancelled, Has(events, READ), Has(events, WRITE));
      CancelAllSucceeds(r, fd, kernel);
      return true;
    }

    method CancelAll(fd: nat, allow: bool) returns (ok: bool)
      requires Valid()
      modifies this, m_fdContexts
      ensures Valid() && m_fdContexts == old(m_fdContexts)
      ensures fd < |m_fdContexts| ==> RecOk(old(m_fdContexts[fd].Rec()))
      ensures (View(), ok) == old(IoRegistry.CancelAll(View(), fd, allow))
    {
      CancelAllKeeps(View(), fd, allow);
      if |m_fdContexts| <= fd {
        return false;
      }
      assert m_fdContexts[fd].Rec() == Table()[fd];
      ok := CancelAllLocked(fd, allow);
    }

    /** What follows a successful `epoll_ctl` in the delivery loop. */
    method TriggerHit(d: Delivery, ghost r: Registry) returns (aborted: bool)
      requires Distinct() && d.fd < |m_fdContexts| && RecOk(m_fdContexts[d.fd].Rec())
      requires View() == r.(kernel := kernel) && Strikes(r, d) && CtlGives(r, d, kernel)
      modifies this, m_fdContexts[d.fd]
      ensures m_fdContexts == old(m_fdContexts)
      ensures RecOk(r.table[d.fd])
      ensures aborted <==> Deliver(r, d) == None
      ensures !aborted ==> View() == Deliver(r, d).value
    {
      assert m_fdContexts[d.fd].Rec() == r.table[d.fd];
      var hit := RealEvents(d.mask);
      if Unmatched(m_fdContexts[d.fd].events, hit) {
        DeliverAborts(r, d, kernel);
        return true;
      }
      var rd, wr := Has(hit, READ), Has(hit, WRITE);
      TriggerBoth(d.fd, Fired, rd, wr);
      DeliverSucceeds(r, d, kernel);
      return false;
    }

    /** One round of the delivery loop under the descriptor's lock; `aborted` stands
        for the failed assertion in `triggerEvent`, which ends the process. */
    method HandleLocked(d: Delivery) returns (aborted: bool)
      requires Distinct() && d.fd < |m_fdContexts| && RecOk(m_fdContexts[d.fd].Rec())
      modifies this, m_fdContexts[d.fd]
      ensures m_fdContexts == old(m_fdContexts)
      ensures aborted <==> old(Deliver(View(), d)) == None
      ensures !aborted ==> View() == old(Deliver(View(), d)).value
    {
      ghost var r := View();
      var events := m_fdContexts[d.fd].events;
      assert m_fdContexts[d.fd].Rec() == r.table[d.fd];
      var hit := RealEvents(d.mask);
      if events & hit == 0 {
        DeliverRefused(r, d);
        return false;
      }
      var left := Minus(events, hit);
      var failed := Ctl(LeaveOpFor(left), d.fd, EPOLLET | left, d.allow);
      assert Table() == r.table;
      if failed {
        DeliverRefused(r, d);
        return false;
      }
      aborted := TriggerHit(d, r);
    }

    method Handle(d: Delivery) returns (aborted: bool)
      requires Valid() && d.fd < |m_fdContexts|
      modifies this, m_fdContexts
      ensures m_fdContexts == old(m_fdContexts)
      ensures RecOk(old(m_fdContexts[d.fd].Rec()))
      ensures aborted <==> old(Deliver(View(), d)) == None
      ensures !aborted ==> Valid() && View() == old(Deliver(View(), d)).value
      ensures !aborted ==>
        var rec := old(m_fdContexts[d.fd].Rec());
        if Struck(rec, d) then Serves(old(View()), View(), d.fd, Readable(d.mask), Writable(d.mask))
        else View() == old(View())
    {
      DeliveryKeeps(View(), d);
      DeliveryByBits(View(), d);
      assert m_fdContexts[d.fd].Rec() == Table()[d.fd];
      aborted := HandleLocked(d);
    }

    /** The delivery loop. */
    method HandleEach(ds: seq<Delivery>) returns (aborted: bool)
      requires Valid() && forall d :: d in ds ==> d.fd < |m_fdContexts|
      modifies this, m_fdContexts
      ensures m_fdContexts == old(m_fdContexts)
      ensures aborted <==> old(DeliverAll(View(), ds)) == None
      ensures !aborted ==> Valid() && View() == old(DeliverAll(View(), ds)).value
    {
      aborted := false;
      var i := 0;
      ghost var all := DeliverAll(View(), ds);
      while i < |ds|
        invariant 0 <= i <= |ds| && m_fdContexts == old(m_fdContexts) && Valid()
        invariant DeliverAll(View(), ds[i..]) == all
      {
        assert ds[i..][0] == ds[i] && ds[i..][1..] == ds[i + 1..];
        aborted := Handle(ds[i]);
        if aborted {
          return;
        }
        i := i + 1;
      }
    }

    /** What `idle` does with what one `epoll_wait` returned. */
    method HandleBatch(ds: seq<Delivery>) returns (aborted: bool)
      requires Valid() && forall d :: d in ds ==> d.fd < |m_fdContexts|
      modifies this, m_fdContexts
      ensures m_fdContexts == old(m_fdContexts)
      ensures aborted <==> old(DeliverAll(View(), ds)) == None
      ensures !aborted ==> Valid() && View() == old(DeliverAll(View(), ds)).value
      ensures !aborted && OncePerFd(ds, |m_fdContexts|) ==> BatchServes(old(View()), View(), ds)
    {
      ghost var before := View();
      aborted := HandleEach(ds);
      if !aborted && OncePerFd(ds, |before.table|) {
        BatchEffect(before, ds);
      }
    }
  }
}
