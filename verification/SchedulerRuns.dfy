/** Taking runs apart and putting them together. */
module SchedulerRuns {
  import opened SchedulerState
  import opened SchedulerShutdown
  import opened SchedulerTheorems

  lemma ConsConcat<T>(a: seq<T>, b: seq<T>)
    requires a != []
    ensures a + b == [a[0]] + (a[1..] + b)
  {
  }

  lemma {:induction false} RunConcat(s: State, a: seq<Action>, b: seq<Action>)
    requires Run(s, a) && Run(After(s, a), b)
    ensures Run(s, a + b) && After(s, a + b) == After(After(s, a), b)
    decreases |a|
  {
    if a == [] {
      assert a + b == b;
    } else {
      RunConcat(Apply(s, a[0]), a[1..], b);
      RunCons(s, a[0], a[1..] + b);
      ConsConcat(a, b);
    }
  }

  lemma {:induction false} RunSplitAt(s: State, a: seq<Action>, b: seq<Action>)
    requires Run(s, a + b)
    ensures Run(s, a) && Run(After(s, a), b) && After(After(s, a), b) == After(s, a + b)
    decreases |a|
  {
    if a == [] {
      assert a + b == b;
    } else {
      var rest := a[1..] + b;
      ConsConcat(a, b);
      RunTail(s, a[0], rest);
      RunSplitAt(Apply(s, a[0]), a[1..], b);
      RunCons(s, a[0], a[1..]);
      assert a == [a[0]] + a[1..];
    }
  }

  lemma RunTail(s: State, a: Action, rest: seq<Action>)
    requires Run(s, [a] + rest)
    ensures Allowed(s, a) && Run(Apply(s, a), rest) && After(s, [a] + rest) == After(Apply(s, a), rest)
  {
    var acts := [a] + rest;
    assert acts[0] == a && acts[1..] == rest;
  }

  lemma RunSplit(s: State, acts: seq<Action>, k: nat)
    requires Run(s, acts) && k <= |acts|
    ensures Run(s, acts[..k]) && Run(After(s, acts[..k]), acts[k..])
    ensures After(After(s, acts[..k]), acts[k..]) == After(s, acts)
  {
    assert acts == acts[..k] + acts[k..];
    RunSplitAt(s, acts[..k], acts[k..]);
  }

  lemma RunOne(s: State, a: Action)
    requires Allowed(s, a)
    ensures Run(s, [a]) && After(s, [a]) == Apply(s, a)
  {
    assert [a][1..] == [];
    assert Run(Apply(s, a), []);
  }

  ghost predicate Step(s: State, a: Action, s': State) {
    Allowed(s, a) && s' == Apply(s, a)
  }

  /** One allowed step further is reached, too. */
  lemma Extend(s: State, a: Action) returns (s': State)
    requires Reached(s) && Allowed(s, a)
    ensures Step(s, a, s') && Reached(s')
  {
    var ids, acts :| Run(Init(ids), acts) && s == After(Init(ids), acts);
    RunOne(s, a);
    RunConcat(Init(ids), acts, [a]);
    s' := Apply(s, a);
  }

  // ---------------------------------------------------------------- closed runs

  /** A run without new work from outside leads from s to s'. */
  ghost predicate Leads(s: State, s': State) {
    exists acts :: Run(s, acts) && Closed(acts) && After(s, acts) == s'
  }

  lemma LeadsNowhere(s: State)
    ensures Leads(s, s)
  {
    assert Run(s, []) && Closed([]) && After(s, []) == s;
  }

  lemma LeadsByOne(s: State, a: Action)
    requires Allowed(s, a) && !External(a)
    ensures Leads(s, Apply(s, a))
  {
    RunOne(s, a);
    assert Closed([a]);
  }

  lemma LeadsOn(a: State, b: State, c: State)
    requires Leads(a, b) && Leads(b, c)
    ensures Leads(a, c)
  {
    var x :| Run(a, x) && Closed(x) && After(a, x) == b;
    var y :| Run(b, y) && Closed(y) && After(b, y) == c;
    RunConcat(a, x, y);
    assert Closed(x + y);
  }
}
