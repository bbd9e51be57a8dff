/** What the calls of add and try_get answer, whatever other threads do in between. */
module FreeListCalls {
  import opened FreeList

  predicate Linking(pc: PC) {
    pc.LinkLoad? || pc.LinkNext? || pc.LinkRefs? || pc.LinkCas? || pc.LinkRetry?
  }

  /** Inside try_get, also where its last reader links a node that an add left to it. */
  predicate Getting(pc: PC) {
    || pc.GetHead? || pc.GetRefs? || pc.GetInc? || pc.GetNext? || pc.GetCas? || pc.GetTake? || pc.GetDrop?
    || (Linking(pc) && pc.k.FromGet?)
  }

  predicate Adding(pc: PC) {
    pc.AddFetch? || (Linking(pc) && pc.k.FromAdd?)
  }

  /** Whether the list has been empty since thread t last called try_get; was says so for the time before the run. */
  ghost predicate WasEmpty(s: State, run: seq<Action>, t: nat, was: bool)
    requires Feasible(s, run)
    decreases |run|
  {
    if run == [] then was
    else
      var s' := Step(s, run[0]);
      WasEmpty(s', run[1..], t, s'.head.Null? || (was && run[0] != StartGet(t)))
  }

  /** A try_get with an empty head in its locals has seen the list empty. */
  ghost predicate Knows(s: State, t: nat, was: bool)
    requires t < |s.pcs|
  {
    var pc := s.pcs[t];
    && (s.head.Null? ==> was)
    && (pc.GetRefs? && pc.h.Null? ==> was)
    && (pc.GetDrop? && pc.cur.Null? ==> was)
    && (Linking(pc) && pc.k.FromGet? && pc.k.cur.Null? ==> was)
  }

  lemma StepKnows(s: State, a: Action, t: nat, was: bool)
    requires Enabled(s, a) && t < |s.pcs| && Knows(s, t, was)
    ensures var s' := Step(s, a);
      |s'.pcs| == |s.pcs| && Knows(s', t, s'.head.Null? || (was && a != StartGet(t)))
  {
  }

  lemma {:induction false} RunKnows(s: State, run: seq<Action>, t: nat, was: bool)
    requires Feasible(s, run) && t < |s.pcs| && Knows(s, t, was)
    ensures |Exec(s, run).pcs| == |s.pcs| && Knows(Exec(s, run), t, WasEmpty(s, run, t, was))
    decreases |run|
  {
    if run != [] {
      StepKnows(s, run[0], t, was);
      var s' := Step(s, run[0]);
      RunKnows(s', run[1..], t, s'.head.Null? || (was && run[0] != StartGet(t)));
    }
  }

  /** try_get returns either a node that was no client's, or nothing, and that only if the list has been empty since it was called. */
  lemma TryGetAnswers(s0: State, run: seq<Action>, t: nat)
    requires Init(s0) && Feasible(s0, run) && t < |s0.pcs| && t < |Exec(s0, run).pcs| && Getting(Exec(s0, run).pcs[t])
    ensures var s := Exec(s0, run);
      && Enabled(s, Run(t))
      && var s' := Step(s, Run(t));
      && |s'.pcs| == |s.pcs|
      && if s'.pcs[t] != Idle then Getting(s'.pcs[t]) && s'.client == s.client
         else if s.pcs[t].GetTake? then s'.client == s.client + {s.pcs[t].n} && s.pcs[t].n !in s.client
         else s'.client == s.client && WasEmpty(s0, run, t, true)
  {
    NeverStuck(s0, run, t);
    RunKnows(s0, run, t, true);
    if Exec(s0, run).pcs[t].GetTake? {
      TakeIsExclusive(s0, run, t);
    }
  }

  /** add returns with its node first on the list, or left to the readers that still hold it, of which there is one. */
  lemma AddAnswers(s0: State, run: seq<Action>, t: nat)
    requires Init(s0) && Feasible(s0, run) && t < |Exec(s0, run).pcs| && Adding(Exec(s0, run).pcs[t])
    ensures var s := Exec(s0, run);
      && Enabled(s, Run(t))
      && var s', n := Step(s, Run(t)), s.pcs[t].n;
      && |s'.pcs| == |s.pcs|
      && if s'.pcs[t] != Idle then Adding(s'.pcs[t]) && s'.pcs[t].n == n
         else (s'.chain == [n] + s.chain && s'.head == Ptr(n)) || (n in s'.wanted && s'.chain == s.chain && Sums(s'.pcs, n).hold > 0)
  {
    NeverStuck(s0, run, t);
    InitInv(s0);
    RunKeeps(s0, run);
    var s := Exec(s0, run);
    var s', n := Step(s, Run(t)), s.pcs[t].n;
    StepKeeps(s, Run(t));
    assert LocalRight(s, s.pcs[t]);
    assert NodeFits(s', n);
  }
}
