/**
 LightweightSemaphore: an atomic count in front of a kernel semaphore, as interleaved atomic
 steps of any number of threads calling tryWait, wait(timeout) and signal.
 */
module Semaphore {
  import opened Tally

  /** What a failed tryWait leads to: its caller, or waitWithPartialSpinning. */
  datatype Then = GiveBack | Spin(timeout: int, spins: nat)

  datatype PC =
    | Idle
    | TryLoad(w: Then)                      // tryWait: load count
    | TryCas(seen: int, w: Then)             // tryWait: weak CAS count seen -> seen - 1
    | SpinLoad(k: nat, timeout: int)        // partial spinning: load count
    | SpinCas(seen: int, k: nat, timeout: int)
    | Decrement(timeout: int)               // fetch_sub(1)
    | Block(timeout: int)                   // kernel wait or timed wait
    | GiveLoad                              // give-up loop: load count
    | GiveTake(seen: int)                    // give-up loop, seen >= 0: kernel try_wait
    | GiveUndo(seen: int)                    // give-up loop, seen < 0: CAS count seen -> seen + 1
    | Add(n: nat)                           // signal: fetch_add(n)
    | Post(left: nat)                       // signal: kernel posts still to do

  /** kernel: permits in the kernel semaphore. The last three fields are history. */
  datatype State = State(
    count: int,
    kernel: nat,
    pcs: seq<PC>,
    initial: nat,
    signaled: nat,
    acquired: nat)

  /** lucky is false when a weak CAS fails spuriously, or a kernel wait fails or times out. */
  datatype Action = StartTry(t: nat) | StartWait(t: nat, timeout: int, spins: nat) | StartSignal(t: nat, n: nat)
                  | Run(t: nat, lucky: bool)

  predicate Enabled(s: State, a: Action) {
    && a.t < |s.pcs|
    && if a.Run? then
         s.pcs[a.t] != Idle && (s.pcs[a.t].Block? && a.lucky ==> s.kernel > 0)
       else s.pcs[a.t] == Idle
  }

  /** tryWait looks at a count. */
  function TryOn(seen: int, w: Then): PC {
    if seen > 0 then TryCas(seen, w)
    else match w
         case GiveBack => Idle
         case Spin(timeout, spins) => SpinOn(spins, timeout)
  }

  function SpinOn(k: nat, timeout: int): PC {
    if k == 0 then Decrement(timeout) else SpinLoad(k, timeout)
  }

  function Step(s: State, a: Action): State
    requires Enabled(s, a)
  {
    match a
    case StartTry(t) => Goto(s, t, TryLoad(GiveBack))
    case StartWait(t, timeout, spins) => Goto(s, t, TryLoad(Spin(timeout, spins)))
    case StartSignal(t, n) => Goto(s, t, Add(n))
    case Run(t, lucky) =>
      match s.pcs[t]
      case TryLoad(w) => Goto(s, t, TryOn(s.count, w))
      case TryCas(seen, w) =>
        if s.count == seen && lucky then Won(s.(count := seen - 1), t) else Goto(s, t, TryOn(s.count, w))
      case SpinLoad(k, timeout) =>
        if s.count > 0 then Goto(s, t, SpinCas(s.count, k, timeout))
        else Goto(s, t, if k == 0 then Decrement(timeout) else SpinOn(k - 1, timeout))
      case SpinCas(seen, k, timeout) =>
        if s.count == seen then Won(s.(count := seen - 1), t)
        else Goto(s, t, if k == 0 then Decrement(timeout) else SpinOn(k - 1, timeout))
      case Decrement(timeout) =>
        var s' := s.(count := s.count - 1);
        if s.count > 0 then Won(s', t)
        else Goto(s', t, if timeout == 0 then GiveLoad else Block(timeout))
      case Block(_) => if lucky then Won(s.(kernel := s.kernel - 1), t) else Goto(s, t, GiveLoad)
      case GiveLoad => Goto(s, t, if s.count >= 0 then GiveTake(s.count) else GiveUndo(s.count))
      case GiveTake(_) => if s.kernel > 0 then Won(s.(kernel := s.kernel - 1), t) else Goto(s, t, GiveLoad)
      case GiveUndo(seen) => if s.count == seen then Goto(s.(count := seen + 1), t, Idle) else Goto(s, t, GiveLoad)
      case Add(n) =>
        var toRelease := if -s.count < n then -s.count else n;
        Goto(s.(count := s.count + n, signaled := s.signaled + n), t, if toRelease > 0 then Post(toRelease) else Idle)
      case Post(left) => Goto(s.(kernel := s.kernel + 1), t, if left > 1 then Post(left - 1) else Idle)
  }

  function Goto(s: State, t: nat, pc: PC): State
    requires t < |s.pcs|
  {
    s.(pcs := s.pcs[t := pc])
  }

  /** The wait of thread t returns true. */
  function Won(s: State, t: nat): State
    requires t < |s.pcs|
  {
    s.(pcs := s.pcs[t := Idle], acquired := s.acquired + 1)
  }

  // ---- Invariant ----

  function Waits(pc: PC): nat {
    if pc.Block? || pc.GiveLoad? || pc.GiveTake? || pc.GiveUndo? then 1 else 0
  }

  function Posts(pc: PC): nat {
    if pc.Post? then pc.left else 0
  }

  /** Threads that have decremented the count and not yet been given or returned a permit. */
  function Waiters(s: State): nat { Total(s.pcs, Waits) }

  /** Kernel permits that signallers have promised and not yet posted. */
  function Promised(s: State): nat { Total(s.pcs, Posts) }

  function Max0(x: int): nat { if x > 0 then x else 0 }

  /** Permits in circulation: nothing is created or lost. */
  predicate Conserved(s: State) {
    s.initial + s.signaled == s.acquired + Max0(s.count) + s.kernel + Promised(s)
  }

  /** Each waiter is a negative unit of the count, or has a permit posted or promised for it. */
  predicate WaitersOwed(s: State) {
    Waiters(s) == Max0(-s.count) + s.kernel + Promised(s)
  }

  predicate LocalRight(pc: PC) {
    match pc
    case TryCas(seen, _) => seen > 0
    case SpinCas(seen, _, _) => seen > 0
    case GiveTake(seen) => seen >= 0
    case GiveUndo(seen) => seen < 0
    case Post(left) => left > 0
    case _ => true
  }

  ghost predicate Inv(s: State) {
    && Conserved(s)
    && WaitersOwed(s)
    && forall t :: 0 <= t < |s.pcs| ==> LocalRight(s.pcs[t])
  }

  lemma Moved(s: State, t: nat, pc: PC)
    requires t < |s.pcs|
    ensures Total(s.pcs[t := pc], Waits) + Waits(s.pcs[t]) == Waiters(s) + Waits(pc)
    ensures Total(s.pcs[t := pc], Posts) + Posts(s.pcs[t]) == Promised(s) + Posts(pc)
  {
    TotalUpdate(s.pcs, t, pc, Waits);
    TotalUpdate(s.pcs, t, pc, Posts);
  }

  lemma LocalKeeps(s: State, a: Action)
    requires Enabled(s, a) && LocalRight(s.pcs[a.t])
    ensures var s' := Step(s, a);
      |s'.pcs| == |s.pcs| && s'.pcs == s.pcs[a.t := s'.pcs[a.t]] && LocalRight(s'.pcs[a.t])
  {
  }

  /** A waiting or signalling thread moves. */
  lemma DebtKeeps(s: State, a: Action)
    requires Conserved(s) && WaitersOwed(s) && Enabled(s, a) && LocalRight(s.pcs[a.t])
    requires a.Run? && (Waits(s.pcs[a.t]) == 1 || s.pcs[a.t].Add? || s.pcs[a.t].Post?)
    ensures Conserved(Step(s, a)) && WaitersOwed(Step(s, a))
  {
    Moved(s, a.t, Step(s, a).pcs[a.t]);
  }

  /** A thread moves that neither waits nor signals. */
  lemma CountKeeps(s: State, a: Action)
    requires Conserved(s) && WaitersOwed(s) && Enabled(s, a) && LocalRight(s.pcs[a.t])
    requires a.Run? ==> Waits(s.pcs[a.t]) == 0 && !s.pcs[a.t].Add? && !s.pcs[a.t].Post?
    ensures Conserved(Step(s, a)) && WaitersOwed(Step(s, a))
  {
    Moved(s, a.t, Step(s, a).pcs[a.t]);
  }

  lemma StepKeeps(s: State, a: Action)
    requires Inv(s) && Enabled(s, a)
    ensures Inv(Step(s, a))
  {
    LocalKeeps(s, a);
    if a.Run? && (Waits(s.pcs[a.t]) == 1 || s.pcs[a.t].Add? || s.pcs[a.t].Post?) {
      DebtKeeps(s, a);
    } else {
      CountKeeps(s, a);
    }
  }

  // ---- Whole runs ----

  predicate Init(s: State) {
    && s.count == s.initial && s.kernel == s.signaled == s.acquired == 0
    && forall t :: 0 <= t < |s.pcs| ==> s.pcs[t] == Idle
  }

  predicate Feasible(s: State, run: seq<Action>)
    decreases |run|
  {
    run == [] || (Enabled(s, run[0]) && Feasible(Step(s, run[0]), run[1..]))
  }

  function Exec(s: State, run: seq<Action>): State
    requires Feasible(s, run)
    decreases |run|
  {
    if run == [] then s else Exec(Step(s, run[0]), run[1..])
  }

  lemma {:induction false} RunKeeps(s: State, run: seq<Action>)
    requires Inv(s) && Feasible(s, run)
    ensures Inv(Exec(s, run))
    decreases |run|
  {
    if run != [] {
      StepKeeps(s, run[0]);
      RunKeeps(Step(s, run[0]), run[1..]);
    }
  }

  /** Conservation and debt to waiters, in every state of every interleaving. */
  lemma SemaphoreSafety(s0: State, run: seq<Action>)
    requires Init(s0) && Feasible(s0, run)
    ensures Inv(Exec(s0, run))
  {
    TotalZero(s0.pcs, Waits);
    TotalZero(s0.pcs, Posts);
    RunKeeps(s0, run);
  }

  // ---- What the invariant gives ----

  /** Permits signalled and not acquired: what a client of the semaphore sees. */
  function Tokens(s: State): int { s.initial + s.signaled - s.acquired }

  /**
   Refinement: to its clients every step of the semaphore is a step of a plain counter of
   tokens, and a wait only succeeds by taking a token that is there.
   */
  lemma RefinesCounter(s: State, a: Action)
    requires Inv(s) && Enabled(s, a)
    ensures Tokens(s) >= 0
    ensures var s' := Step(s, a);
      || Tokens(s') == Tokens(s)
      || (Tokens(s) > 0 && Tokens(s') == Tokens(s) - 1 && s'.acquired == s.acquired + 1)
      || (a.Run? && s.pcs[a.t].Add? && Tokens(s') == Tokens(s) + s.pcs[a.t].n)
  {
    StepKeeps(s, a);
  }

  /**
   The give-up loop is always owed a permit or can undo its decrement: with a waiter in it,
   a non-negative count means a permit is posted or promised.
   */
  lemma GiveUpIsOwed(s: State, t: nat)
    requires Inv(s) && t < |s.pcs| && Waits(s.pcs[t]) == 1
    ensures s.count < 0 || s.kernel + Promised(s) > 0
  {
    TotalAtLeast(s.pcs, t, Waits);
  }

  /** Running alone with no post outstanding, a waiter that gives up is out of the loop after two steps. */
  lemma GiveUpEndsAlone(s: State, t: nat)
    requires Inv(s) && t < |s.pcs| && s.pcs[t] == GiveLoad && Promised(s) == 0
    ensures Enabled(s, Run(t, true)) && Enabled(Step(s, Run(t, true)), Run(t, true))
    ensures var s1 := Step(s, Run(t, true)); var s2 := Step(s1, Run(t, true));
      && s2.pcs[t] == Idle
      && (s2.acquired == s.acquired + 1 <==> s.count >= 0)
      && (s2.count == s.count + 1 <==> s.count < 0)
  {
    GiveUpIsOwed(s, t);
  }

  /** No lost wake-up: with no post outstanding and a non-negative count, every waiter has its own kernel permit. */
  lemma WaitersCanWake(s: State)
    requires Inv(s) && Promised(s) == 0 && s.count >= 0
    ensures s.kernel == Waiters(s)
  {
  }

  /** When every call has returned, the count is exactly the number of unused tokens. */
  lemma QuietCountIsTokens(s0: State, run: seq<Action>)
    requires Init(s0) && Feasible(s0, run)
    requires forall t :: 0 <= t < |Exec(s0, run).pcs| ==> Exec(s0, run).pcs[t] == Idle
    ensures var s := Exec(s0, run); s.count == Tokens(s) && s.kernel == 0
  {
    SemaphoreSafety(s0, run);
    TotalZero(Exec(s0, run).pcs, Waits);
    TotalZero(Exec(s0, run).pcs, Posts);
  }

  /** A thread inside a call can always take its next step; a kernel wait succeeds only with a permit. */
  lemma NeverStuck(s: State, t: nat, timeout: int, spins: nat, n: nat)
    requires t < |s.pcs|
    ensures if s.pcs[t] == Idle then Enabled(s, StartTry(t)) && Enabled(s, StartWait(t, timeout, spins)) && Enabled(s, StartSignal(t, n))
            else Enabled(s, Run(t, false)) && (Enabled(s, Run(t, true)) <==> (s.pcs[t].Block? ==> s.kernel > 0))
  {
  }

  // ---- Calls that run alone ----

  /** k steps of thread t alone, no CAS failing spuriously and no kernel wait timing out, lead from s to s'. */
  predicate Solo(s: State, t: nat, k: nat, s': State)
    decreases k
  {
    if k == 0 then s' == s else Enabled(s, Run(t, true)) && Solo(Step(s, Run(t, true)), t, k - 1, s')
  }

  /** tryWait, left alone, takes a token exactly if the count is positive, and otherwise changes nothing. */
  lemma TryWaitExactly(s: State, t: nat) returns (s': State)
    requires t < |s.pcs| && s.pcs[t] == TryLoad(GiveBack)
    ensures if s.count > 0 then Solo(s, t, 2, s') && s' == s.(count := s.count - 1, acquired := s.acquired + 1, pcs := s.pcs[t := Idle])
            else Solo(s, t, 1, s') && s' == s.(pcs := s.pcs[t := Idle])
  {
    var s1 := Step(s, Run(t, true));
    if s.count > 0 {
      s' := Step(s1, Run(t, true));
      assert Solo(s', t, 0, s') && Solo(s1, t, 1, s');
      assert s'.pcs == s.pcs[t := Idle];
    } else {
      s' := s1;
      assert Solo(s1, t, 0, s1);
    }
  }

  /** wait does the same while the count is positive; else, past its spinning, it counts itself as a waiter. */
  lemma WaitTakesOrWaits(s: State, t: nat, timeout: int, spins: nat) returns (s': State)
    requires t < |s.pcs| && s.pcs[t] == TryLoad(Spin(timeout, spins)) && timeout != 0
    ensures if s.count > 0 then Solo(s, t, 2, s') && s' == s.(count := s.count - 1, acquired := s.acquired + 1, pcs := s.pcs[t := Idle])
            else Solo(s, t, spins + 2, s') && s' == s.(count := s.count - 1, pcs := s.pcs[t := Block(timeout)])
  {
    var s1 := Step(s, Run(t, true));
    if s.count > 0 {
      s' := Step(s1, Run(t, true));
      assert Solo(s', t, 0, s') && Solo(s1, t, 1, s');
      assert s'.pcs == s.pcs[t := Idle];
    } else {
      s' := Spins(s1, t, timeout, spins);
      assert s'.pcs == s.pcs[t := Block(timeout)];
    }
  }

  lemma {:induction false} Spins(s: State, t: nat, timeout: int, k: nat) returns (s': State)
    requires t < |s.pcs| && s.pcs[t] == SpinOn(k, timeout) && timeout != 0 && s.count <= 0
    ensures Solo(s, t, k + 1, s') && s' == s.(count := s.count - 1, pcs := s.pcs[t := Block(timeout)])
    decreases k
  {
    var s1 := Step(s, Run(t, true));
    if k == 0 {
      s' := s1;
      assert Solo(s1, t, 0, s1);
    } else {
      s' := Spins(s1, t, timeout, k - 1);
      assert s'.pcs == s.pcs[t := Block(timeout)];
    }
  }

  /** wait with a timeout of 0 never blocks: without a token it takes its decrement back and leaves everything as it was. */
  lemma PollReturns(s: State, t: nat, spins: nat) returns (s': State)
    requires t < |s.pcs| && s.pcs[t] == TryLoad(Spin(0, spins)) && s.count <= 0
    ensures Solo(s, t, spins + 4, s') && s' == s.(pcs := s.pcs[t := Idle])
  {
    s' := PollSpins(Step(s, Run(t, true)), t, spins);
    assert s'.pcs == s.pcs[t := Idle];
  }

  lemma {:induction false} PollSpins(s: State, t: nat, k: nat) returns (s': State)
    requires t < |s.pcs| && s.pcs[t] == SpinOn(k, 0) && s.count <= 0
    ensures Solo(s, t, k + 3, s') && s' == s.(pcs := s.pcs[t := Idle])
    decreases k
  {
    var s1 := Step(s, Run(t, true));
    if k == 0 {
      var s2 := Step(s1, Run(t, true));
      s' := Step(s2, Run(t, true));
      assert s'.pcs == s.pcs[t := Idle];
      assert Solo(s', t, 0, s');
      assert Solo(s2, t, 1, s') && Solo(s1, t, 2, s');
    } else {
      s' := PollSpins(s1, t, k - 1);
      assert s'.pcs == s.pcs[t := Idle];
    }
  }

  /** signal(n), left alone, adds n to the count and posts one kernel permit for each waiter it can serve. */
  lemma SignalServesWaiters(s: State, t: nat, n: nat) returns (s': State, k: nat)
    requires t < |s.pcs| && s.pcs[t] == Add(n)
    ensures var waiting := if s.count < 0 then -s.count else 0;
      var served := if waiting < n then waiting else n;
      && k == served + 1 && Solo(s, t, k, s')
      && s' == s.(count := s.count + n, kernel := s.kernel + served, signaled := s.signaled + n, pcs := s.pcs[t := Idle])
  {
    var s1 := Step(s, Run(t, true));
    var served := if -s.count < n then -s.count else n;
    if served > 0 {
      s' := PostsAll(s1, t, served);
      k := served + 1;
      assert s'.pcs == s.pcs[t := Idle];
    } else {
      s', k := s1, 1;
      assert Solo(s1, t, 0, s1);
    }
  }

  lemma {:induction false} PostsAll(s: State, t: nat, left: nat) returns (s': State)
    requires t < |s.pcs| && s.pcs[t] == Post(left) && left > 0
    ensures Solo(s, t, left, s') && s' == s.(kernel := s.kernel + left, pcs := s.pcs[t := Idle])
    decreases left
  {
    var s1 := Step(s, Run(t, true));
    if left == 1 {
      s' := s1;
      assert Solo(s1, t, 0, s1);
    } else {
      s' := PostsAll(s1, t, left - 1);
      assert s'.pcs == s.pcs[t := Idle];
    }
  }

  /** A blocked waiter that the kernel wakes has its token; one that times out returns only with a token or its decrement undone. */
  lemma WokenHasToken(s: State, t: nat)
    requires t < |s.pcs| && s.pcs[t].Block? && s.kernel > 0
    ensures Enabled(s, Run(t, true))
    ensures Step(s, Run(t, true)) == s.(kernel := s.kernel - 1, acquired := s.acquired + 1, pcs := s.pcs[t := Idle])
  {
  }

  // ---- What the calls answer, whatever other threads do ----

  predicate Trying(pc: PC) {
    (pc.TryLoad? || pc.TryCas?) && pc.w.GiveBack?
  }

  predicate Waiting(pc: PC) {
    || ((pc.TryLoad? || pc.TryCas?) && pc.w.Spin?) || pc.SpinLoad? || pc.SpinCas? || pc.Decrement?
    || pc.Block? || pc.GiveLoad? || pc.GiveTake? || pc.GiveUndo?
  }

  /**
   tryWait and wait return true exactly in the step that takes a token from the count or the kernel; tryWait returns false
   only when it sees no token in the count, and wait only when it takes its decrement back; a compare-and-swap that finds
   what it expects takes the token.
   */
  lemma Answers(s0: State, run: seq<Action>, t: nat, lucky: bool)
    requires Init(s0) && Feasible(s0, run) && t < |Exec(s0, run).pcs| && Enabled(Exec(s0, run), Run(t, lucky))
    requires Trying(Exec(s0, run).pcs[t]) || Waiting(Exec(s0, run).pcs[t])
    ensures var s, pc := Exec(s0, run), Exec(s0, run).pcs[t];
      var s' := Step(s, Run(t, lucky));
      && |s'.pcs| == |s.pcs|
      && if s'.pcs[t] != Idle then (if Trying(pc) then Trying(s'.pcs[t]) else Waiting(s'.pcs[t])) && s'.acquired == s.acquired
         else if s'.acquired == s.acquired then
           if Trying(pc) then s.count <= 0 && s'.count == s.count && s'.kernel == s.kernel
           else s.count < 0 && s'.count == s.count + 1 && s'.kernel == s.kernel
         else
           && s'.acquired == s.acquired + 1
           && ((s.count > 0 && s'.count == s.count - 1 && s'.kernel == s.kernel)
               || (s.kernel > 0 && s'.count == s.count && s'.kernel == s.kernel - 1))
    ensures var s, pc := Exec(s0, run), Exec(s0, run).pcs[t];
      (pc.TryCas? || pc.SpinCas?) && s.count == pc.seen && lucky ==> Step(s, Run(t, lucky)).acquired == s.acquired + 1
  {
    SemaphoreSafety(s0, run);
    assert LocalRight(Exec(s0, run).pcs[t]);
  }

  /** A waiter whose wait in the kernel times out, left alone, has its token or its decrement back after two more steps, unless a permit is still to be posted. */
  lemma TimedOutReturns(s: State, t: nat) returns (s': State)
    requires t < |s.pcs| && s.pcs[t].Block? && (s.count < 0 || s.kernel > 0)
    ensures Enabled(s, Run(t, false)) && Solo(Step(s, Run(t, false)), t, 2, s')
    ensures if s.count < 0 then s' == s.(count := s.count + 1, pcs := s.pcs[t := Idle])
            else s' == s.(kernel := s.kernel - 1, acquired := s.acquired + 1, pcs := s.pcs[t := Idle])
  {
    var s1 := Step(s, Run(t, false));
    var s2 := Step(s1, Run(t, true));
    s' := Step(s2, Run(t, true));
    assert s'.pcs == s.pcs[t := Idle];
    assert Solo(s', t, 0, s') && Solo(s2, t, 1, s');
  }
}
