/** What the event registry keeps: slots agree with masks, the kernel's interest map
    mirrors the table, the pending counter counts set bits, and every registration
    is live in one slot or ended once. */
module IoInvariant {
  import opened Wrappers
  import opened IoRegistry

  function SumBits(table: seq<FdRec>): nat {
    if table == [] then 0 else Bits(table[0].events) + SumBits(table[1..])
  }

  /** Registration id fills slot ev of record i. */
  predicate Live(r: Registry, i: int, ev: Event, id: RegId) {
    0 <= i < |r.table| && Slot(r.table[i], ev).reg == Some(id)
  }

  ghost predicate IsLive(r: Registry, id: RegId) {
    exists i, ev :: Live(r, i, ev, id)
  }

  ghost predicate SentAt(r: Registry, k: int, id: RegId) {
    0 <= k < |r.sent| && r.sent[k].reg == id
  }

  ghost predicate TableOk(table: seq<FdRec>) {
    && |table| >= INITIAL_SIZE
    && RecsOk(table)
    && forall i :: 0 <= i < |table| ==> table[i].fd == i
  }

  /** Every registration made is live in exactly one slot or ended, not both. */
  ghost predicate LiveOrEnded(r: Registry) {
    && (forall i, j, ev, ev', id: RegId :: Live(r, i, ev, id) && Live(r, j, ev', id) ==> i == j && ev == ev')
    && (forall i, ev, id: RegId :: Live(r, i, ev, id) ==> id < r.nextReg && id !in r.ended)
    && (forall id: RegId :: id < r.nextReg && id !in r.ended ==> IsLive(r, id))
    && (forall id :: id in r.ended ==> id < r.nextReg)
  }

  /** An ended registration was scheduled once if fired or cancelled, never if deleted. */
  ghost predicate SentOnce(r: Registry) {
    && (forall k, l, id: RegId :: SentAt(r, k, id) && SentAt(r, l, id) ==> k == l)
    && (forall k, id: RegId :: SentAt(r, k, id) ==> id in r.ended && r.ended[id] != Deleted)
    && (forall id :: id in r.ended && r.ended[id] != Deleted ==> exists k :: SentAt(r, k, id))
  }

  /** The kernel watches exactly the descriptors with a non-empty mask, with that mask. */
  ghost predicate Mirror(table: seq<FdRec>, kernel: map<int, Mask>) {
    && (forall fd :: fd in kernel ==> 0 <= fd < |table| && table[fd].events != 0 && kernel[fd] == EPOLLET | table[fd].events)
    && (forall fd :: 0 <= fd < |table| && table[fd].events != 0 ==> fd in kernel)
  }

  ghost predicate RegistryOk(r: Registry) {
    TableOk(r.table) && r.pending == SumBits(r.table) && LiveOrEnded(r) && SentOnce(r)
  }

  ghost predicate Inv(r: Registry) {
    RegistryOk(r) && Mirror(r.table, r.kernel)
  }

  /** History only grows from r to r': no label is given twice, and what has ended or
      been scheduled stays so. */
  ghost predicate Grown(r: Registry, r': Registry) {
    && r.nextReg <= r'.nextReg && r.sent <= r'.sent
    && forall id :: id in r.ended ==> id in r'.ended && r'.ended[id] == r.ended[id]
  }

  // ---------------------------------------------------------------- sums

  lemma {:induction false} SumUpdate(table: seq<FdRec>, i: nat, rec: FdRec)
    requires i < |table|
    ensures SumBits(table[i := rec]) == SumBits(table) - Bits(table[i].events) + Bits(rec.events)
  {
    var t := table[i := rec];
    if i == 0 {
      assert t[1..] == table[1..];
    } else {
      assert t[1..] == table[1..][i - 1 := rec];
      SumUpdate(table[1..], i - 1, rec);
    }
  }

  lemma {:induction false} SumConcat(a: seq<FdRec>, b: seq<FdRec>)
    ensures SumBits(a + b) == SumBits(a) + SumBits(b)
  {
    if a == [] {
      assert a + b == b;
    } else {
      assert (a + b)[1..] == a[1..] + b;
      SumConcat(a[1..], b);
    }
  }

  /** The sum is zero exactly when every mask is empty. */
  lemma {:induction false} SumZero(table: seq<FdRec>)
    requires RecsOk(table)
    ensures SumBits(table) == 0 <==> forall i :: 0 <= i < |table| ==> table[i].events == 0
  {
    if table != [] {
      assert RecOk(table[0]);
      MaskLaws(table[0].events, READ, READ);
      assert forall i :: 0 <= i < |table| - 1 ==> table[1..][i] == table[i + 1];
      SumZero(table[1..]);
      assert forall i :: 1 <= i < |table| ==> table[i] == table[1..][i - 1];
    }
  }

  // ---------------------------------------------------------------- growth

  /** Growing for fd makes room for it, keeps every record there was, and adds
      empty records that know their own index. */
  lemma Grows(table: seq<FdRec>, fd: nat)
    requires TableOk(table)
    ensures var t := TableFor(table, fd);
      && fd < |t| && |table| <= |t| && t[..|table|] == table
      && (forall i :: |table| <= i < |t| ==> t[i] == EmptyRec(i))
      && TableOk(t) && SumBits(t) == SumBits(table)
  {
    var t := TableFor(table, fd);
    var added := t[|table|..];
    assert t == table + added;
    SumConcat(table, added);
    forall i | 0 <= i < |t| ensures RecOk(t[i]) && t[i].fd == i {
      assert RecOk(EmptyRec(i));
      assert i < |table| ==> t[i] == table[i];
    }
    forall i | 0 <= i < |added| ensures added[i].events == 0 && RecOk(added[i]) {
      assert added[i] == t[|table| + i] && RecOk(EmptyRec(|table| + i));
    }
    SumZero(added);
  }

  /** The new size is the whole part of one and a half times the descriptor. */
  lemma GrownSize(table: seq<FdRec>, fd: nat)
    requires TableOk(table)
    ensures var n := |TableFor(table, fd)|;
      if |table| > fd then n == |table| else 2 * n <= 3 * fd < 2 * n + 2
  {
  }

  lemma GrowKeeps(r: Registry, fd: nat)
    requires Inv(r)
    ensures Inv(r.(table := TableFor(r.table, fd)))
  {
    Grows(r.table, fd);
    var r' := r.(table := TableFor(r.table, fd));
    forall i | 0 <= i < |r.table| ensures r'.table[i] == r.table[i] {
      assert r'.table[..|r.table|][i] == r.table[i];
    }
    forall i, ev, id: RegId ensures Live(r', i, ev, id) == Live(r, i, ev, id) {}
    forall id: RegId ensures IsLive(r', id) == IsLive(r, id) {}
    forall k, id: RegId ensures SentAt(r', k, id) == SentAt(r, k, id) {}
  }

  // ---------------------------------------------------------------- filling and ending slots

  lemma PutKeeps(r: Registry, i: nat, ev: Event, sched: SchedId, target: Target)
    requires RegistryOk(r) && i < |r.table| && !Has(r.table[i].events, ev)
    ensures RegistryOk(Put(r, i, ev, sched, target))
  {
    var r' := Put(r, i, ev, sched, target);
    var rec := r.table[i];
    assert RecOk(rec);
    MaskLaws(rec.events, ev, READ);
    MaskLaws(rec.events, ev, WRITE);
    SumUpdate(r.table, i, r'.table[i]);
    forall j, e, id: RegId ensures Live(r', j, e, id) <==> Live(r, j, e, id) || (j == i && e == ev && id == r.nextReg) {
      assert Slot(rec, ev) == EMPTY_CTX;
    }
    forall id: RegId | id < r'.nextReg && id !in r'.ended ensures IsLive(r', id) {
      assert if id == r.nextReg then Live(r', i, ev, id) else IsLive(r, id);
    }
    forall k, id: RegId ensures SentAt(r', k, id) == SentAt(r, k, id) {}
  }

  lemma EndKeeps(r: Registry, i: nat, ev: Event, how: Ending)
    requires RegistryOk(r) && i < |r.table| && Has(r.table[i].events, ev)
    ensures RegistryOk(End(r, i, ev, how)) && Grown(r, End(r, i, ev, how))
  {
    var r' := End(r, i, ev, how);
    var rec := r.table[i];
    var gone := Slot(rec, ev).reg.value;
    MaskLaws(rec.events, ev, READ);
    MaskLaws(rec.events, ev, WRITE);
    SumUpdate(r.table, i, r'.table[i]);
    assert Live(r, i, ev, gone);
    forall j, e, id: RegId ensures Live(r', j, e, id) <==> Live(r, j, e, id) && id != gone {
      assert Live(r, j, e, gone) ==> j == i && e == ev;
    }
    forall id: RegId | id < r'.nextReg && id !in r'.ended ensures IsLive(r', id) {
      assert IsLive(r, id);
    }
    forall k, id: RegId ensures SentAt(r', k, id) <==> SentAt(r, k, id) || (how != Deleted && k == |r.sent| && id == gone) {}
    assert how != Deleted ==> SentAt(r', |r.sent|, gone);
  }
}
