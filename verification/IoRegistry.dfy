/** The IO manager's event registry (vity/iomanager.h, vity/iomanager.cc) on
    values: the fd table, the kernel's interest map, the pending counter, and the
    history of registrations. */
module IoRegistry {
  import opened Wrappers
  import opened FiberModel

  type Mask = bv32

  const EPOLLIN: Mask := 0x1
  const EPOLLOUT: Mask := 0x4
  const EPOLLERR: Mask := 0x8
  const EPOLLHUP: Mask := 0x10
  const EPOLLET: Mask := 0x8000_0000

  datatype Event = READ | WRITE

  function Bit(ev: Event): Mask {
    match ev
    case READ => 0x1
    case WRITE => 0x4
  }

  predicate Has(m: Mask, ev: Event) {
    m & Bit(ev) != 0
  }

  function With(m: Mask, ev: Event): Mask {
    m | Bit(ev)
  }

  function Minus(m: Mask, bits: Mask): Mask {
    m & !bits
  }

  /** No bit but READ and WRITE is set. */
  predicate Plain(m: Mask) {
    m & !0x5 == 0
  }

  function Bits(m: Mask): nat {
    One(Has(m, READ)) + One(Has(m, WRITE))
  }

  lemma MaskLaws(m: Mask, ev: Event, other: Event)
    requires Plain(m)
    ensures Plain(With(m, ev)) && Plain(Minus(m, Bit(ev)))
    ensures Has(With(m, ev), other) <==> Has(m, other) || ev == other
    ensures Has(Minus(m, Bit(ev)), other) <==> Has(m, other) && ev != other
    ensures m == 0 <==> !Has(m, READ) && !Has(m, WRITE)
    ensures With(m, ev) != 0
  {
  }

  // ---------------------------------------------------------------- records

  type SchedId = nat
  type CbId = nat
  type RegId = nat

  /** What a trigger schedules. */
  datatype Target = ToCb(cb: CbId) | ToFiber(fiber: FiberId)

  /** `EventContext`; `reg` labels the registration that fills it. */
  datatype EventCtx = EventCtx(
    scheduler: Option<SchedId>, fiber: Option<FiberId>, cb: Option<CbId>, reg: Option<RegId>)

  const EMPTY_CTX := EventCtx(None, None, None, None)

  datatype FdRec = FdRec(fd: int, events: Mask, read: EventCtx, write: EventCtx)

  function Slot(rec: FdRec, ev: Event): EventCtx {
    match ev
    case READ => rec.read
    case WRITE => rec.write
  }

  function SetSlot(rec: FdRec, ev: Event, ctx: EventCtx): FdRec {
    match ev
    case READ => rec.(read := ctx)
    case WRITE => rec.(write := ctx)
  }

  function FilledCtx(sched: SchedId, target: Target, reg: RegId): EventCtx {
    match target
    case ToCb(cb) => EventCtx(Some(sched), None, Some(cb), Some(reg))
    case ToFiber(f) => EventCtx(Some(sched), Some(f), None, Some(reg))
  }

  /** A mask bit is set iff its slot has a scheduler, exactly one of callback and
      fiber, and a registration; a clear bit means an empty slot. */
  predicate SlotOk(rec: FdRec, ev: Event) {
    var ctx := Slot(rec, ev);
    if Has(rec.events, ev)
    then ctx.scheduler.Some? && ctx.reg.Some? && (ctx.fiber.Some? <==> ctx.cb.None?)
    else ctx == EMPTY_CTX
  }

  predicate RecOk(rec: FdRec) {
    Plain(rec.events) && SlotOk(rec, READ) && SlotOk(rec, WRITE)
  }

  predicate RecsOk(table: seq<FdRec>) {
    forall i :: 0 <= i < |table| ==> RecOk(table[i])
  }

  /** What triggering a filled slot schedules. */
  function TargetOf(ctx: EventCtx): Target
    requires ctx.fiber.Some? <==> ctx.cb.None?
  {
    if ctx.cb.Some? then ToCb(ctx.cb.value) else ToFiber(ctx.fiber.value)
  }

  // ---------------------------------------------------------------- registry

  datatype Ending = Fired | Cancelled | Deleted

  /** One call of `schedule` made by a trigger. */
  datatype Sent = Sent(scheduler: SchedId, target: Target, reg: RegId)

  datatype Registry = Registry(
    table: seq<FdRec>,
    kernel: map<int, Mask>,
    pending: int,
    sent: seq<Sent>,
    nextReg: RegId,
    ended: map<RegId, Ending>)

  function EmptyRec(fd: int): FdRec {
    FdRec(fd, 0, EMPTY_CTX, EMPTY_CTX)
  }

  /** `contextResize`: new slots get a fresh record each. */
  function Resized(table: seq<FdRec>, size: nat): seq<FdRec> {
    if size <= |table| then table[..size]
    else table + seq(size - |table|, i requires i >= 0 => EmptyRec(|table| + i))
  }

  /** A resized table, record by record. */
  lemma ResizedAt(table: seq<FdRec>, size: nat, i: nat)
    requires i < size
    ensures |Resized(table, size)| == size
    ensures Resized(table, size)[i] == if i < |table| then table[i] else FdRec(i, 0, EMPTY_CTX, EMPTY_CTX)
  {
    if size > |table| {
      var added := seq(size - |table|, j requires j >= 0 => EmptyRec(|table| + j));
      assert Resized(table, size) == table + added;
      assert i >= |table| ==> added[i - |table|] == EmptyRec(i);
    }
  }

  const INITIAL_SIZE := 32

  function Fresh(): Registry {
    Registry(Resized([], INITIAL_SIZE), map[], 0, [], 0, map[])
  }

  /** `fd * 1.5` as a size, for fd >= 0. */
  function GrowTo(fd: nat): nat {
    fd * 3 / 2
  }

  /** The table that `addEvent` looks the record up in. */
  function TableFor(table: seq<FdRec>, fd: nat): seq<FdRec> {
    if |table| > fd then table else Resized(table, GrowTo(fd))
  }

  // ---------------------------------------------------------------- the kernel

  datatype CtlOp = ADD | MOD | DEL

  /** What epoll demands: ADD an absent descriptor, MOD or DEL a present one. */
  predicate OpFits(kernel: map<int, Mask>, op: CtlOp, fd: int) {
    (op == ADD) <==> fd !in kernel
  }

  /** `epoll_ctl`: fails when the demand is not met, or when the kernel refuses for
      reasons of its own (`allow` false). */
  function EpollCtl(kernel: map<int, Mask>, op: CtlOp, fd: int, m: Mask, allow: bool): Option<map<int, Mask>> {
    if !allow || !OpFits(kernel, op, fd) then None
    else Some(if op == DEL then kernel - {fd} else kernel[fd := m])
  }

  function AddOpFor(events: Mask): CtlOp {
    if events != 0 then MOD else ADD
  }

  function LeaveOpFor(left: Mask): CtlOp {
    if left != 0 then MOD else DEL
  }

  // ---------------------------------------------------------------- operations

  /** Fills slot ev of record i for the next registration. */
  function Put(r: Registry, i: nat, ev: Event, sched: SchedId, target: Target): Registry
    requires i < |r.table|
  {
    var rec := r.table[i];
    var rec' := SetSlot(rec.(events := With(rec.events, ev)), ev, FilledCtx(sched, target, r.nextReg));
    r.(table := r.table[i := rec'], pending := r.pending + 1, nextReg := r.nextReg + 1)
  }

  /** Ends the registration in slot ev of record i: the bit is cleared and the slot
      emptied; unless it is deleted its target is scheduled. */
  function End(r: Registry, i: nat, ev: Event, how: Ending): Registry
    requires i < |r.table| && RecOk(r.table[i]) && Has(r.table[i].events, ev)
  {
    var rec := r.table[i];
    var ctx := Slot(rec, ev);
    var rec' := SetSlot(rec.(events := Minus(rec.events, Bit(ev))), ev, EMPTY_CTX);
    r.(table := r.table[i := rec'],
       pending := r.pending - 1,
       ended := r.ended[ctx.reg.value := how],
       sent := if how == Deleted then r.sent
               else r.sent + [Sent(ctx.scheduler.value, TargetOf(ctx), ctx.reg.value)])
  }

  function EndIf(r: Registry, i: nat, ev: Event, how: Ending, b: bool): Registry
    requires i < |r.table| && (b ==> RecOk(r.table[i]) && Has(r.table[i].events, ev))
  {
    if b then End(r, i, ev, how) else r
  }

  predicate Registered(r: Registry, fd: nat, ev: Event) {
    fd < |r.table| && Has(r.table[fd].events, ev)
  }

  /** The kernel's map after the `epoll_ctl` call of `addEvent`. */
  function AddKernel(r: Registry, fd: nat, ev: Event, allow: bool): Option<map<int, Mask>>
    requires fd < |r.table|
  {
    var events := r.table[fd].events;
    EpollCtl(r.kernel, AddOpFor(events), fd, EPOLLET | With(events, ev), allow)
  }

  /** `addEvent` once the record is there. */
  function AddTo(r: Registry, fd: nat, ev: Event, sched: SchedId, target: Target, allow: bool): (Registry, int)
    requires fd < |r.table|
  {
    match AddKernel(r, fd, ev, allow)
    case None => (r, -1)
    case Some(kernel) => (Put(r, fd, ev, sched, target).(kernel := kernel), 0)
  }

  /** `addEvent`: 0 or -1.  The source asserts that the event is not registered. */
  function AddEvent(r: Registry, fd: nat, ev: Event, sched: SchedId, target: Target, allow: bool): (Registry, int)
    requires |TableFor(r.table, fd)| > fd && !Registered(r, fd, ev)
  {
    AddTo(r.(table := TableFor(r.table, fd)), fd, ev, sched, target, allow)
  }

  /** `delEvent` (how = Deleted) and `cancelEvent` (how = Cancelled). */
  function DropEvent(r: Registry, fd: nat, ev: Event, how: Ending, allow: bool): (Registry, bool)
    requires fd < |r.table| ==> RecOk(r.table[fd])
  {
    if !Registered(r, fd, ev) then (r, false)
    else
      var left := Minus(r.table[fd].events, Bit(ev));
      match EpollCtl(r.kernel, LeaveOpFor(left), fd, EPOLLET | left, allow)
      case None => (r, false)
      case Some(kernel) => (End(r, fd, ev, how).(kernel := kernel), true)
  }

  /** Ends READ if wanted, then WRITE if wanted. */
  function EndBoth(r: Registry, fd: nat, how: Ending, rd: bool, wr: bool): Registry
    requires fd < |r.table| && RecOk(r.table[fd])
    requires rd ==> Has(r.table[fd].events, READ)
    requires wr ==> Has(r.table[fd].events, WRITE)
  {
    var r1 := EndIf(r, fd, READ, how, rd);
    assert RecOk(r1.table[fd]) && (wr ==> Has(r1.table[fd].events, WRITE)) by {
      MaskLaws(r.table[fd].events, READ, READ);
      MaskLaws(r.table[fd].events, READ, WRITE);
    }
    EndIf(r1, fd, WRITE, how, wr)
  }

  /** `cancelAll`. */
  function CancelAll(r: Registry, fd: nat, allow: bool): (Registry, bool)
    requires fd < |r.table| ==> RecOk(r.table[fd])
  {
    if fd >= |r.table| || r.table[fd].events == 0 then (r, false)
    else
      match EpollCtl(r.kernel, DEL, fd, 0, allow)
      case None => (r, false)
      case Some(kernel) =>
        var events := r.table[fd].events;
        (EndBoth(r, fd, Cancelled, Has(events, READ), Has(events, WRITE)).(kernel := kernel), true)
  }

  // ---------------------------------------------------------------- delivery

  /** The READ and WRITE bits of a delivered mask; errors and hang-ups count as both. */
  function RealEvents(m: Mask): Mask {
    var e := if m & (EPOLLERR | EPOLLHUP) != 0 then m | EPOLLIN | EPOLLOUT else m;
    (if e & EPOLLIN != 0 then Bit(READ) else 0) | (if e & EPOLLOUT != 0 then Bit(WRITE) else 0)
  }

  /** One entry of what `epoll_wait` returned, and whether `epoll_ctl` will succeed. */
  datatype Delivery = Delivery(fd: nat, mask: Mask, allow: bool)

  /** A delivered bit is not registered: `triggerEvent` would assert. */
  predicate Unmatched(events: Mask, hit: Mask) {
    (Has(hit, READ) && !Has(events, READ)) || (Has(hit, WRITE) && !Has(events, WRITE))
  }

  /** One round of the delivery loop in `idle`; None stands for the failed assertion. */
  function Deliver(r: Registry, d: Delivery): Option<Registry>
    requires d.fd < |r.table| && RecOk(r.table[d.fd])
  {
    var events := r.table[d.fd].events;
    var hit := RealEvents(d.mask);
    if events & hit == 0 then Some(r)
    else
      var left := Minus(events, hit);
      match EpollCtl(r.kernel, LeaveOpFor(left), d.fd, EPOLLET | left, d.allow)
      case None => Some(r)
      case Some(kernel) =>
        if Unmatched(events, hit) then None
        else Some(EndBoth(r, d.fd, Fired, Has(hit, READ), Has(hit, WRITE)).(kernel := kernel))
  }
}
