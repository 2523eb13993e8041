/** What a delivery does, by the bits of the delivered mask, and what a whole batch does,
    stated on the registry as it is before. */
module IoDelivery {
  import opened Wrappers
  import opened IoRegistry
  import opened IoInvariant
  import opened IoTheorems

  // ---------------------------------------------------------------- masks

  /** EPOLLIN, EPOLLERR or EPOLLHUP is set. */
  predicate Readable(m: Mask) {
    m & 0x19 != 0
  }

  /** EPOLLOUT, EPOLLERR or EPOLLHUP is set. */
  predicate Writable(m: Mask) {
    m & 0x1C != 0
  }

  /** Which events a delivered mask stands for, bit by bit. */
  lemma RealEventsBits(m: Mask)
    ensures RealEvents(m) & 0x1 != 0 <==> Readable(m)
    ensures RealEvents(m) & 0x4 != 0 <==> Writable(m)
    ensures RealEvents(m) & !0x5 == 0
  {
  }

  lemma EventBits(m: Mask)
    ensures Has(m, READ) <==> m & 0x1 != 0
    ensures Has(m, WRITE) <==> m & 0x4 != 0
  {
  }

  lemma HitBits(m: Mask)
    ensures Has(RealEvents(m), READ) <==> Readable(m)
    ensures Has(RealEvents(m), WRITE) <==> Writable(m)
    ensures Bits(RealEvents(m)) == One(Readable(m)) + One(Writable(m))
  {
    RealEventsBits(m);
    EventBits(RealEvents(m));
  }

  /** The mask that two slots stand for. */
  function MaskOf(read: bool, write: bool): Mask {
    (if read then 0x1 else 0) | (if write then 0x4 else 0)
  }

  predicate Taken(ctx: EventCtx) {
    ctx.scheduler.Some?
  }

  lemma MaskOfSlots(m: Mask)
    requires Plain(m)
    ensures m == MaskOf(Has(m, READ), Has(m, WRITE))
  {
    FourMasks(m);
    MaskTable();
    if m == 0 {
      assert MaskOf(Has(m, READ), Has(m, WRITE)) == MaskOf(false, false);
    } else if m == 0x1 {
      assert MaskOf(Has(m, READ), Has(m, WRITE)) == MaskOf(true, false);
    } else if m == 0x4 {
      assert MaskOf(Has(m, READ), Has(m, WRITE)) == MaskOf(false, true);
    } else {
      assert MaskOf(Has(m, READ), Has(m, WRITE)) == MaskOf(true, true);
    }
  }

  lemma MaskTable()
    ensures MaskOf(false, false) == 0 && MaskOf(true, false) == 0x1
    ensures MaskOf(false, true) == 0x4 && MaskOf(true, true) == 0x5
  {
  }

  lemma FourMasks(m: Mask)
    requires Plain(m)
    ensures m == 0 || m == 0x1 || m == 0x4 || m == 0x5
  {
  }

  /** A record's mask has 1 for a taken READ slot and 4 for a taken WRITE slot. */
  lemma SlotBits(rec: FdRec)
    requires RecOk(rec)
    ensures Taken(rec.read) <==> Has(rec.events, READ)
    ensures Taken(rec.write) <==> Has(rec.events, WRITE)
    ensures rec.events == MaskOf(Taken(rec.read), Taken(rec.write))
    ensures !Taken(rec.read) ==> rec.read == EMPTY_CTX
    ensures !Taken(rec.write) ==> rec.write == EMPTY_CTX
  {
    assert SlotOk(rec, READ) && SlotOk(rec, WRITE);
    MaskOfSlots(rec.events);
  }

  /** What epoll watches, bit by bit: a descriptor with a taken slot, edge-triggered, for
      exactly the events of its taken slots. */
  lemma KernelWatches(r: Registry, fd: int)
    requires Reached(r)
    ensures fd in r.kernel <==> 0 <= fd < |r.table| && (Taken(r.table[fd].read) || Taken(r.table[fd].write))
    ensures fd in r.kernel ==>
      r.kernel[fd] == 0x8000_0000 | MaskOf(Taken(r.table[fd].read), Taken(r.table[fd].write))
  {
    ReachedInv(r);
    if 0 <= fd < |r.table| {
      assert RecOk(r.table[fd]);
      SlotBits(r.table[fd]);
      SomeBit(Taken(r.table[fd].read), Taken(r.table[fd].write));
    }
  }

  lemma SomeBit(read: bool, write: bool)
    ensures MaskOf(read, write) == 0 <==> !read && !write
  {
  }

  // ---------------------------------------------------------------- one delivery

  /** The delivery finds a taken slot among those its mask names, and the kernel agrees. */
  predicate Struck(rec: FdRec, d: Delivery) {
    d.allow && ((Readable(d.mask) && Taken(rec.read)) || (Writable(d.mask) && Taken(rec.write)))
  }

  /** It also names a slot that is not taken. */
  predicate Astray(rec: FdRec, d: Delivery) {
    (Readable(d.mask) && !Taken(rec.read)) || (Writable(d.mask) && !Taken(rec.write))
  }

  /** The record once the named slots have been emptied. */
  function Served(rec: FdRec, rd: bool, wr: bool): FdRec {
    var read := if rd then EMPTY_CTX else rec.read;
    var write := if wr then EMPTY_CTX else rec.write;
    FdRec(rec.fd, MaskOf(Taken(read), Taken(write)), read, write)
  }

  /** What a taken slot schedules: its callback if it has one, else its fiber. */
  function CallOf(b: bool, ctx: EventCtx): seq<Sent> {
    if !b || ctx.scheduler.None? || ctx.reg.None? then []
    else if ctx.cb.Some? then [Sent(ctx.scheduler.value, ToCb(ctx.cb.value), ctx.reg.value)]
    else if ctx.fiber.Some? then [Sent(ctx.scheduler.value, ToFiber(ctx.fiber.value), ctx.reg.value)]
    else []
  }

  lemma StrikesBits(rec: FdRec, m: Mask)
    requires RecOk(rec)
    ensures rec.events & RealEvents(m) != 0 <==> (Readable(m) && Taken(rec.read)) || (Writable(m) && Taken(rec.write))
    ensures Mixed(rec.events, m) <==>
      (rec.events & RealEvents(m) != 0 && ((Readable(m) && !Taken(rec.read)) || (Writable(m) && !Taken(rec.write))))
  {
    HitLaws(rec.events, m);
    HitBits(m);
    SlotBits(rec);
  }

  lemma EndEmpties(r: Registry, fd: nat, ev: Event, how: Ending)
    requires fd < |r.table| && RecOk(r.table[fd]) && Has(r.table[fd].events, ev)
    ensures var rec := r.table[fd]; var rec' := End(r, fd, ev, how).table[fd];
      && rec'.fd == rec.fd
      && rec'.read == (if ev == READ then EMPTY_CTX else rec.read)
      && rec'.write == (if ev == WRITE then EMPTY_CTX else rec.write)
  {
  }

  lemma EndBothServes(r: Registry, fd: nat, how: Ending, rd: bool, wr: bool)
    requires RegistryOk(r) && fd < |r.table|
    requires (rd ==> Has(r.table[fd].events, READ)) && (wr ==> Has(r.table[fd].events, WRITE))
    ensures RecOk(r.table[fd]) && EndBoth(r, fd, how, rd, wr).table[fd] == Served(r.table[fd], rd, wr)
  {
    var rec := r.table[fd];
    EndBothKeeps(r, fd, how, rd, wr);
    var r1 := EndIf(r, fd, READ, how, rd);
    MaskLaws(rec.events, READ, READ);
    MaskLaws(rec.events, READ, WRITE);
    if rd {
      EndEmpties(r, fd, READ, how);
      EndKeeps(r, fd, READ, how);
    }
    assert RecOk(r1.table[fd]);
    if wr {
      EndEmpties(r1, fd, WRITE, how);
    }
    var rec' := EndBoth(r, fd, how, rd, wr).table[fd];
    assert RecOk(rec');
    SlotBits(rec');
  }

  lemma SentIsCall(r: Registry, fd: nat, ev: Event, how: Ending, b: bool)
    requires fd < |r.table| && RecOk(r.table[fd]) && (b ==> Has(r.table[fd].events, ev)) && how != Deleted
    ensures SentFor(r, fd, ev, how, b) == CallOf(b, Slot(r.table[fd], ev))
  {
    assert SlotOk(r.table[fd], READ) && SlotOk(r.table[fd], WRITE);
  }

  /** What the kernel watches once the record of fd has become rec. */
  function Watching(kernel: map<int, Mask>, fd: int, rec: FdRec): map<int, Mask> {
    if rec.events == 0 then kernel - {fd} else kernel[fd := 0x8000_0000 | rec.events]
  }

  /** From r to r' the named slots of fd are emptied, their calls made, READ before WRITE,
      and the kernel told; nothing else changes but the history. */
  ghost predicate Serves(r: Registry, r': Registry, fd: nat, rd: bool, wr: bool) {
    && fd < |r.table| && r'.table == r.table[fd := Served(r.table[fd], rd, wr)]
    && r'.pending == r.pending - One(rd) - One(wr) && r'.nextReg == r.nextReg
    && r'.sent == r.sent + CallOf(rd, r.table[fd].read) + CallOf(wr, r.table[fd].write)
    && r'.kernel == Watching(r.kernel, fd, Served(r.table[fd], rd, wr))
  }

  lemma EndBothEffect(r: Registry, fd: nat, rd: bool, wr: bool, kernel: map<int, Mask>)
    requires RegistryOk(r) && fd < |r.table|
    requires (rd ==> Has(r.table[fd].events, READ)) && (wr ==> Has(r.table[fd].events, WRITE))
    requires kernel == Watching(r.kernel, fd, Served(r.table[fd], rd, wr))
    ensures RecOk(r.table[fd]) && Serves(r, EndBoth(r, fd, Fired, rd, wr).(kernel := kernel), fd, rd, wr)
  {
    EndBothKeeps(r, fd, Fired, rd, wr);
    EndBothServes(r, fd, Fired, rd, wr);
    SentIsCall(r, fd, READ, Fired, rd);
    SentIsCall(r, fd, WRITE, Fired, wr);
  }

  lemma LeftBits(r: Registry, d: Delivery)
    requires RegistryOk(r) && d.fd < |r.table| && !Astray(r.table[d.fd], d)
    ensures RecOk(r.table[d.fd])
    ensures KernelAfter(r, d) == Watching(r.kernel, d.fd, Served(r.table[d.fd], Readable(d.mask), Writable(d.mask)))
  {
    var rec := r.table[d.fd];
    assert RecOk(rec);
    SlotBits(rec);
    HitLaws(rec.events, d.mask);
    HitBits(d.mask);
    MinusMask(rec.events, Taken(rec.read), Taken(rec.write), Readable(d.mask), Writable(d.mask), RealEvents(d.mask));
  }

  lemma MinusMask(m: Mask, read: bool, write: bool, rd: bool, wr: bool, hit: Mask)
    requires m == MaskOf(read, write) && hit == BitsOf(rd, wr)
    ensures Minus(m, hit) == MaskOf(read && !rd, write && !wr)
  {
  }

  /** A delivery, by the bits of its mask: when it aborts, when nothing happens, and what
      happens otherwise. */
  lemma DeliveryByBits(r: Registry, d: Delivery)
    requires Inv(r) && d.fd < |r.table|
    ensures RecOk(r.table[d.fd])
    ensures Deliver(r, d) == None <==> Struck(r.table[d.fd], d) && Astray(r.table[d.fd], d)
    ensures !Struck(r.table[d.fd], d) ==> Deliver(r, d) == Some(r)
    ensures Struck(r.table[d.fd], d) && !Astray(r.table[d.fd], d) ==>
      Deliver(r, d).Some? && Serves(r, Deliver(r, d).value, d.fd, Readable(d.mask), Writable(d.mask))
  {
    var rec := r.table[d.fd];
    assert RecOk(rec);
    StrikesBits(rec, d.mask);
    DeliveryAbortsIff(r, d);
    SlotBits(rec);
    if !Struck(rec, d) {
      DeliverMisses(r, d);
    } else if !Astray(rec, d) {
      OpsFit(r.table, r.kernel, d.fd);
      HitLaws(rec.events, d.mask);
      HitBits(d.mask);
      LeftBits(r, d);
      DeliverSucceeds(r, d, KernelAfter(r, d));
      EndBothEffect(r, d.fd, Readable(d.mask), Writable(d.mask), KernelAfter(r, d));
    }
  }

  /** On a record with both slots taken, an accepted EPOLLIN empties READ alone. */
  lemma ReadableAlone(r: Registry, fd: nat)
    requires Inv(r) && fd < |r.table| && Taken(r.table[fd].read) && Taken(r.table[fd].write)
    ensures RecOk(r.table[fd])
    ensures var d := Delivery(fd, 0x1, true); var rec := r.table[fd];
      && Deliver(r, d).Some?
      && var r' := Deliver(r, d).value;
         && r'.table[fd] == FdRec(rec.fd, 0x4, EMPTY_CTX, rec.write)
         && r'.sent == r.sent + CallOf(true, rec.read) && r'.kernel == r.kernel[fd := 0x8000_0004]
         && r'.pending == r.pending - 1
  {
    DeliveryByBits(r, Delivery(fd, 0x1, true));
    assert Readable(0x1) && !Writable(0x1);
    assert (0x8000_0000 as Mask) | 0x4 == 0x8000_0004;
  }

  // ---------------------------------------------------------------- batches

  /** The record after the delivery, if that does not abort. */
  function Outcome(rec: FdRec, d: Delivery): FdRec {
    if Struck(rec, d) then Served(rec, Readable(d.mask), Writable(d.mask)) else rec
  }

  function CallsOf(rec: FdRec, d: Delivery): seq<Sent> {
    if Struck(rec, d) then CallOf(Readable(d.mask), rec.read) + CallOf(Writable(d.mask), rec.write) else []
  }

  function BitsHit(rec: FdRec, d: Delivery): nat {
    if Struck(rec, d) then One(Readable(d.mask)) + One(Writable(d.mask)) else 0
  }

  /** All calls of a batch, in its order, from the records as they are before it. */
  function BatchCalls(table: seq<FdRec>, ds: seq<Delivery>): seq<Sent>
    requires OncePerFd(ds, |table|)
  {
    if ds == [] then [] else CallsOf(table[ds[0].fd], ds[0]) + BatchCalls(table, ds[1..])
  }

  function BatchBits(table: seq<FdRec>, ds: seq<Delivery>): nat
    requires OncePerFd(ds, |table|)
  {
    if ds == [] then 0 else BitsHit(table[ds[0].fd], ds[0]) + BatchBits(table, ds[1..])
  }

  ghost predicate Delivers(ds: seq<Delivery>, fd: int) {
    exists i :: 0 <= i < |ds| && ds[i].fd == fd
  }

  /** Every record named in the batch has its outcome, and no other changes. */
  ghost predicate TableServes(table: seq<FdRec>, table': seq<FdRec>, ds: seq<Delivery>) {
    && OncePerFd(ds, |table|) && |table'| == |table|
    && (forall i :: 0 <= i < |ds| ==> table'[ds[i].fd] == Outcome(table[ds[i].fd], ds[i]))
    && (forall fd :: 0 <= fd < |table| && !Delivers(ds, fd) ==> table'[fd] == table[fd])
  }

  /** The kernel watches exactly the records that are not empty, each for its mask. */
  ghost predicate Shows(kernel: map<int, Mask>, table: seq<FdRec>) {
    && (forall fd :: fd in kernel <==> 0 <= fd < |table| && table[fd].events != 0)
    && (forall fd :: fd in kernel ==> kernel[fd] == 0x8000_0000 | table[fd].events)
  }

  /** From r to r' the records are served, the calls are made in order, each ended bit is
      counted down, and the kernel watches what is left. */
  ghost predicate BatchServes(r: Registry, r': Registry, ds: seq<Delivery>) {
    && TableServes(r.table, r'.table, ds) && Shows(r'.kernel, r'.table) && r'.nextReg == r.nextReg
    && r'.sent == r.sent + BatchCalls(r.table, ds)
    && r'.pending == r.pending - BatchBits(r.table, ds)
  }

  /** One delivery in the batch's terms. */
  lemma OneOutcome(r: Registry, d: Delivery)
    requires Inv(r) && d.fd < |r.table|
    ensures RecOk(r.table[d.fd])
    ensures Deliver(r, d).Some? ==>
      var r1 := Deliver(r, d).value;
      && Inv(r1) && r1.table == r.table[d.fd := Outcome(r.table[d.fd], d)] && r1.nextReg == r.nextReg
      && r1.sent == r.sent + CallsOf(r.table[d.fd], d) && r1.pending == r.pending - BitsHit(r.table[d.fd], d)
  {
    DeliveryByBits(r, d);
    DeliveryKeeps(r, d);
    if Deliver(r, d).Some? && !Struck(r.table[d.fd], d) {
      assert r.sent + [] == r.sent && r.table[d.fd := r.table[d.fd]] == r.table;
    }
  }

  /** Records that agree on the batch's descriptors give the same calls and counts. */
  lemma {:induction false} SameBatch(a: seq<FdRec>, b: seq<FdRec>, ds: seq<Delivery>)
    requires OncePerFd(ds, |a|) && |b| == |a|
    requires forall i :: 0 <= i < |ds| ==> a[ds[i].fd] == b[ds[i].fd]
    ensures BatchCalls(a, ds) == BatchCalls(b, ds) && BatchBits(a, ds) == BatchBits(b, ds)
    decreases |ds|
  {
    if ds != [] {
      assert forall i :: 0 <= i < |ds| - 1 ==> ds[1..][i] == ds[i + 1];
      SameBatch(a, b, ds[1..]);
    }
  }

  lemma RestOnce(ds: seq<Delivery>, size: nat)
    requires OncePerFd(ds, size) && ds != []
    ensures OncePerFd(ds[1..], size)
    ensures forall i :: 0 <= i < |ds| - 1 ==> ds[1..][i] == ds[i + 1] && ds[1..][i].fd != ds[0].fd
    ensures forall fd :: Delivers(ds, fd) <==> fd == ds[0].fd || Delivers(ds[1..], fd)
  {
    forall fd | Delivers(ds[1..], fd) ensures Delivers(ds, fd) {
      var i :| 0 <= i < |ds| - 1 && ds[1..][i].fd == fd;
      assert ds[i + 1].fd == fd;
    }
    forall fd | Delivers(ds, fd) && fd != ds[0].fd ensures Delivers(ds[1..], fd) {
      var i :| 0 <= i < |ds| && ds[i].fd == fd;
      assert ds[1..][i - 1].fd == fd;
    }
  }

  lemma KernelShows(r: Registry)
    requires Inv(r)
    ensures Shows(r.kernel, r.table)
  {
  }

  /** Putting the first delivery in front of the rest of the batch. */
  lemma TableJoins(table: seq<FdRec>, table1: seq<FdRec>, table': seq<FdRec>, ds: seq<Delivery>, rec: FdRec)
    requires OncePerFd(ds, |table|) && ds != [] && rec == Outcome(table[ds[0].fd], ds[0])
    requires table1 == table[ds[0].fd := rec] && TableServes(table1, table', ds[1..])
    ensures TableServes(table, table', ds)
  {
    RestOnce(ds, |table|);
    var rest := ds[1..];
    assert table'[ds[0].fd] == rec;
    forall i | 1 <= i < |ds| ensures table'[ds[i].fd] == Outcome(table[ds[i].fd], ds[i]) {
      assert rest[i - 1] == ds[i] && table1[ds[i].fd] == table[ds[i].fd];
    }
  }

  lemma CallsJoin(r: Registry, r1: Registry, r': Registry, ds: seq<Delivery>, rec: FdRec)
    requires OncePerFd(ds, |r.table|) && ds != []
    requires r1.table == r.table[ds[0].fd := rec] && OncePerFd(ds[1..], |r1.table|)
    requires r1.sent == r.sent + CallsOf(r.table[ds[0].fd], ds[0])
    requires r1.pending == r.pending - BitsHit(r.table[ds[0].fd], ds[0])
    requires r'.sent == r1.sent + BatchCalls(r1.table, ds[1..])
    requires r'.pending == r1.pending - BatchBits(r1.table, ds[1..])
    ensures r'.sent == r.sent + BatchCalls(r.table, ds) && r'.pending == r.pending - BatchBits(r.table, ds)
  {
    RestOnce(ds, |r.table|);
    SameBatch(r.table, r1.table, ds[1..]);
    CallsRegroup(r.sent, CallsOf(r.table[ds[0].fd], ds[0]), BatchCalls(r.table, ds[1..]));
  }

  lemma CallsRegroup(a: seq<Sent>, b: seq<Sent>, c: seq<Sent>)
    ensures a + b + c == a + (b + c)
  {
  }

  /** What a batch that names each descriptor once and does not abort does, whatever its
      length, stated on the registry before it. */
  lemma {:induction false} BatchEffect(r: Registry, ds: seq<Delivery>)
    requires Inv(r) && OncePerFd(ds, |r.table|) && DeliverAll(r, ds).Some?
    ensures BatchServes(r, DeliverAll(r, ds).value, ds)
    decreases |ds|
  {
    if ds == [] {
      KernelShows(r);
      assert r.sent + [] == r.sent;
    } else {
      OneOutcome(r, ds[0]);
      RestOnce(ds, |r.table|);
      var r1 := Deliver(r, ds[0]).value;
      BatchEffect(r1, ds[1..]);
      var r' := DeliverAll(r, ds).value;
      TableJoins(r.table, r1.table, r'.table, ds, Outcome(r.table[ds[0].fd], ds[0]));
      CallsJoin(r, r1, r', ds, Outcome(r.table[ds[0].fd], ds[0]));
    }
  }

  /** When it does abort, in the same terms. */
  lemma BatchAborts(r: Registry, ds: seq<Delivery>)
    requires Inv(r) && OncePerFd(ds, |r.table|)
    ensures DeliverAll(r, ds) == None <==>
      exists i :: 0 <= i < |ds| && Struck(r.table[ds[i].fd], ds[i]) && Astray(r.table[ds[i].fd], ds[i])
  {
    BatchAbortsIff(r, ds);
    forall i | 0 <= i < |ds|
      ensures Trips(r, ds[i]) == (Struck(r.table[ds[i].fd], ds[i]) && Astray(r.table[ds[i].fd], ds[i]))
    {
      DeliveryByBits(r, ds[i]);
      DeliveryAbortsIff(r, ds[i]);
    }
  }
}
