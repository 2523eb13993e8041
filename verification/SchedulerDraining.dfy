/** When nothing is left in the queue: runs without pins, and runs in which a worker saw
    `stopping()` hold while nobody was about to requeue. */
module SchedulerDraining {
  import opened Wrappers
  import opened SchedulerState
  import opened SchedulerQueue
  import opened SchedulerShutdown
  import opened SchedulerTheorems
  import opened SchedulerRuns

  /** The call, if it is one to `schedule`, names no thread. */
  predicate Pinless(a: Action) {
    PinOf(a) == ANY_THREAD
  }

  predicate Unpinned(q: seq<Entry>) {
    forall i :: 0 <= i < |q| ==> q[i].thread == ANY_THREAD
  }

  lemma PinlessStep(s: State, a: Action)
    requires Enabled(s, a) && Pinless(a) && Unpinned(s.queue)
    ensures Unpinned(Apply(s, a).queue)
  {
    if a.Scan? {
      ScanTakes(s, a.t);
    } else {
      QueueAppends(s, a);
    }
  }

  lemma {:induction false} PinlessRun(s: State, acts: seq<Action>)
    requires Run(s, acts) && Unpinned(s.queue) && forall i :: 0 <= i < |acts| ==> Pinless(acts[i])
    ensures Unpinned(After(s, acts).queue)
    decreases |acts|
  {
    if acts != [] {
      PinlessStep(s, acts[0]);
      PinlessRun(Apply(s, acts[0]), acts[1..]);
    }
  }

  lemma LastScanStays(s: State, a: Action)
    requires Enabled(s, a) && !OutsidePush(a) && (s.lastScan.Some? || a.Scan?)
    ensures Apply(s, a).lastScan.Some?
  {
    if a.Scan? {
      ScanTakes(s, a.t);
    } else {
      QueueAppends(s, a);
    }
  }

  lemma {:induction false} QuietRun(s: State, acts: seq<Action>)
    requires Run(s, acts) && (forall i :: 0 <= i < |acts| ==> !OutsidePush(acts[i]))
    requires s.lastScan.Some? || (acts != [] && acts[0].Scan?)
    ensures After(s, acts).lastScan.Some?
    decreases |acts|
  {
    if acts != [] {
      LastScanStays(s, acts[0]);
      QuietRun(Apply(s, acts[0]), acts[1..]);
    }
  }

  lemma {:induction false} QuietAfter(s: State, acts: seq<Action>, k: nat)
    requires Run(s, acts) && k < |acts| && acts[k].Scan? && forall i :: k < i < |acts| ==> !OutsidePush(acts[i])
    ensures After(s, acts).lastScan.Some?
    decreases k
  {
    if k == 0 {
      QuietRun(s, acts);
    } else {
      QuietAfter(Apply(s, acts[0]), acts[1..], k - 1);
    }
  }

  /** A run in which nothing was ever pinned leaves nothing queued once all workers are
      out, if no outside thread added to the queue after some scan. */
  lemma UnpinnedRunsDrain(ids: set<ThreadId>, acts: seq<Action>, k: nat)
    requires Run(Init(ids), acts) && forall i :: 0 <= i < |acts| ==> Pinless(acts[i])
    requires k < |acts| && acts[k].Scan? && forall i :: k < i < |acts| ==> !OutsidePush(acts[i])
    requires forall t :: t in ids ==> At(After(Init(ids), acts), t, Left)
    ensures After(Init(ids), acts).queue == []
  {
    var s := After(Init(ids), acts);
    PinlessRun(Init(ids), acts);
    QuietAfter(Init(ids), acts, k);
    WorkersStay(Init(ids), acts);
    DrainedAtExit(s, s.lastScan.value);
  }

  /** Whatever is pinned: if a worker saw `stopping()` hold while nobody was in the
      requeue window, and no work came from outside from then on, the queue is empty. */
  lemma SeenOutsideWindowDrains(ids: set<ThreadId>, acts: seq<Action>, k: nat, t: ThreadId)
    requires Run(Init(ids), acts) && SawStopping(Init(ids), acts, k, t)
    requires (forall u :: !InWindow(After(Init(ids), acts[..k]), u)) && Closed(acts[k..])
    ensures After(Init(ids), acts).queue == []
  {
    RunSplit(Init(ids), acts, k);
    InitInv(ids);
    RunKeepsInv(Init(ids), acts[..k]);
    QuiescenceLasts(After(Init(ids), acts[..k]), acts[k..]);
  }

  /** So if something is left queued after such a run, every worker that saw `stopping()`
      hold did so while another was in the window. */
  lemma StrandSeenInWindow(ids: set<ThreadId>, acts: seq<Action>, k: nat, t: ThreadId)
    requires Run(Init(ids), acts) && SawStopping(Init(ids), acts, k, t) && Closed(acts[k..])
    requires After(Init(ids), acts).queue != []
    ensures exists u :: u != t && InWindow(After(Init(ids), acts[..k]), u)
  {
    RunSplit(Init(ids), acts, k);
    assert Allowed(After(Init(ids), acts[..k]), acts[k..][0]);
    if forall u :: !InWindow(After(Init(ids), acts[..k]), u) {
      SeenOutsideWindowDrains(ids, acts, k, t);
    }
  }
}
