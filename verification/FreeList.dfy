/**
 The lock-free free list of the band queues, as interleaved atomic steps of any number
 of threads. One step is one access to shared memory (sequentially consistent).
 */
module FreeList {
  import opened Tally

  /** SHOULD_BE_ON_FREELIST; the reference counts are 32-bit words with this top bit. */
  const SHOULD: nat := 0x8000_0000
  const WORD: nat := 0x1_0000_0000

  type NodeId = nat
  datatype Link = Null | Ptr(node: NodeId)

  /** Where add_knowing_refcount_is_zero returns to. */
  datatype Caller = FromAdd | FromGet(cur: Link)

  /** The next shared access of a thread, with the locals it needs. */
  datatype PC =
    | Idle
    | AddFetch(n: NodeId)                        // add: fetch_add(SHOULD)
    | LinkLoad(n: NodeId, k: Caller)             // add_knowing: load head
    | LinkNext(n: NodeId, h: Link, k: Caller)    // add_knowing: store next
    | LinkRefs(n: NodeId, h: Link, k: Caller)    // add_knowing: store refs = 1
    | LinkCas(n: NodeId, h: Link, k: Caller)     // add_knowing: CAS head
    | LinkRetry(n: NodeId, h: Link, k: Caller)   // add_knowing: fetch_add(SHOULD - 1)
    | GetHead                                    // try_get: load head
    | GetRefs(h: Link)                           // try_get: loop test, load refs
    | GetInc(n: NodeId, r: nat)                  // try_get: CAS refs r -> r + 1
    | GetNext(n: NodeId)                         // try_get: load next
    | GetCas(n: NodeId, nx: Link)                // try_get: CAS head n -> nx
    | GetTake(n: NodeId)                         // try_get: fetch_sub(2), return n
    | GetDrop(n: NodeId, cur: Link)              // try_get: fetch_sub(1)

  /**
   Shared memory (head, refs, next), the threads, the nodes in the clients' hands, and two
   history variables no step reads: the nodes linked from head, and the nodes flagged
   for the list that no thread is linking.
   */
  datatype State = State(
    head: Link,
    refs: seq<nat>,
    next: seq<Link>,
    pcs: seq<PC>,
    client: set<NodeId>,
    chain: seq<NodeId>,
    wanted: set<NodeId>)

  datatype Action = StartAdd(t: nat, n: NodeId) | StartGet(t: nat) | Run(t: nat)

  function After(k: Caller): PC {
    match k
    case FromAdd => Idle
    case FromGet(cur) => GetRefs(cur)
  }

  predicate Enabled(s: State, a: Action) {
    && a.t < |s.pcs|
    && |s.refs| == |s.next|
    && match a
       case StartAdd(t, n) => s.pcs[t] == Idle && n in s.client
       case StartGet(t) => s.pcs[t] == Idle
       case Run(t) => s.pcs[t] != Idle && Allocated(s.pcs[t], |s.refs|)
  }

  /** The nodes a thread works with exist. */
  predicate Allocated(pc: PC, size: nat) {
    match pc
    case Idle | GetHead => true
    case GetRefs(h) => h.Ptr? ==> h.node < size
    case _ => pc.n < size
  }

  function Step(s: State, a: Action): State
    requires Enabled(s, a)
  {
    match a
    case StartAdd(t, n) => s.(pcs := s.pcs[t := AddFetch(n)], client := s.client - {n})
    case StartGet(t) => s.(pcs := s.pcs[t := GetHead])
    case Run(t) =>
      match s.pcs[t]
      case AddFetch(n) =>
        var s' := s.(refs := s.refs[n := (s.refs[n] + SHOULD) % WORD]);
        if s.refs[n] == 0 then s'.(pcs := s.pcs[t := LinkLoad(n, FromAdd)])
        else s'.(pcs := s.pcs[t := Idle], wanted := s.wanted + {n})
      case LinkLoad(n, k) => s.(pcs := s.pcs[t := LinkNext(n, s.head, k)])
      case LinkNext(n, h, k) => s.(pcs := s.pcs[t := LinkRefs(n, h, k)], next := s.next[n := h])
      case LinkRefs(n, h, k) => s.(pcs := s.pcs[t := LinkCas(n, h, k)], refs := s.refs[n := 1])
      case LinkCas(n, h, k) =>
        if s.head == h then s.(head := Ptr(n), pcs := s.pcs[t := After(k)], chain := [n] + s.chain)
        else s.(pcs := s.pcs[t := LinkRetry(n, s.head, k)])
      case LinkRetry(n, h, k) =>
        var s' := s.(refs := s.refs[n := (s.refs[n] + SHOULD - 1) % WORD]);
        if s.refs[n] == 1 then s'.(pcs := s.pcs[t := LinkNext(n, h, k)])
        else s'.(pcs := s.pcs[t := After(k)], wanted := s.wanted + {n})
      case GetHead => s.(pcs := s.pcs[t := GetRefs(s.head)])
      case GetRefs(h) =>
        if h.Null? then s.(pcs := s.pcs[t := Idle])
        else if s.refs[h.node] % SHOULD == 0 then s.(pcs := s.pcs[t := GetHead])
        else s.(pcs := s.pcs[t := GetInc(h.node, s.refs[h.node])])
      case GetInc(n, r) =>
        if s.refs[n] == r then
          s.(pcs := s.pcs[t := GetNext(n)], refs := s.refs[n := (r + 1) % WORD])
        else s.(pcs := s.pcs[t := GetHead])
      case GetNext(n) => s.(pcs := s.pcs[t := GetCas(n, s.next[n])])
      case GetCas(n, nx) =>
        if s.head == Ptr(n) then
          s.(head := nx, pcs := s.pcs[t := GetTake(n)], chain := if s.chain == [] then [] else s.chain[1..])
        else s.(pcs := s.pcs[t := GetDrop(n, s.head)])
      case GetTake(n) =>
        s.(pcs := s.pcs[t := Idle], refs := s.refs[n := (s.refs[n] - 2) % WORD], client := s.client + {n})
      case GetDrop(n, cur) =>
        var s' := s.(refs := s.refs[n := (s.refs[n] - 1) % WORD]);
        if s.refs[n] == SHOULD + 1 then
          s'.(pcs := s.pcs[t := LinkLoad(n, FromGet(cur))], wanted := s.wanted - {n})
        else s'.(pcs := s.pcs[t := GetRefs(cur)])
  }

  // ---- Weights of a thread on a node ----

  /**
   own: the thread alone decides what happens to the node; hold: it has counted itself as a
   reader; lend: the list's reference is counted although the node is off the list
   (not yet on it, or no longer); flag: it prepares a node whose flag is still set.
   */
  datatype Weights = Weights(own: nat, hold: nat, lend: nat, flag: nat)

  function Weight(pc: PC, n: NodeId): Weights {
    match pc
    case AddFetch(m) => if m == n then Weights(1, 0, 0, 0) else NO_WEIGHT
    case LinkLoad(m, _) => if m == n then Weights(1, 0, 0, 1) else NO_WEIGHT
    case LinkNext(m, _, _) => if m == n then Weights(1, 0, 0, 1) else NO_WEIGHT
    case LinkRefs(m, _, _) => if m == n then Weights(1, 0, 0, 1) else NO_WEIGHT
    case LinkCas(m, _, _) => if m == n then Weights(1, 0, 1, 0) else NO_WEIGHT
    case LinkRetry(m, _, _) => if m == n then Weights(1, 0, 1, 0) else NO_WEIGHT
    case GetNext(m) => if m == n then Weights(0, 1, 0, 0) else NO_WEIGHT
    case GetCas(m, _) => if m == n then Weights(0, 1, 0, 0) else NO_WEIGHT
    case GetDrop(m, _) => if m == n then Weights(0, 1, 0, 0) else NO_WEIGHT
    case GetTake(m) => if m == n then Weights(1, 1, 1, 0) else NO_WEIGHT
    case Idle => NO_WEIGHT
    case GetHead => NO_WEIGHT
    case GetRefs(_) => NO_WEIGHT
    case GetInc(_, _) => NO_WEIGHT
  }

  const NO_WEIGHT: Weights := Weights(0, 0, 0, 0)

  function Own(n: NodeId): PC -> nat { (pc: PC) => Weight(pc, n).own }
  function Hold(n: NodeId): PC -> nat { (pc: PC) => Weight(pc, n).hold }
  function Lend(n: NodeId): PC -> nat { (pc: PC) => Weight(pc, n).lend }
  function Flag(n: NodeId): PC -> nat { (pc: PC) => Weight(pc, n).flag }

  /** The weights of all threads on n. */
  function Sums(pcs: seq<PC>, n: NodeId): Weights {
    Weights(Total(pcs, Own(n)), Total(pcs, Hold(n)), Total(pcs, Lend(n)), Total(pcs, Flag(n)))
  }

  function One(b: bool): nat { if b then 1 else 0 }

  // ---- Invariant ----

  /**
   What is known of one node: it is in exactly one place (a client, the list, waiting for its
   last reader, one thread); its word is its flag plus the list's reference plus its
   readers; a node that waits has a reader, who will link it; a node being prepared has none.
   */
  predicate Fits(k: Weights, client: bool, listed: bool, wanted: bool, word: nat) {
    && One(client) + One(listed) + One(wanted) + k.own == 1
    && word == (if wanted || k.flag > 0 then SHOULD else 0) + One(listed) + k.lend + k.hold
    && (wanted ==> k.hold > 0)
    && (k.flag > 0 ==> k.hold == 0)
  }

  predicate NodeFits(s: State, n: NodeId)
    requires n < |s.refs|
  {
    Fits(Sums(s.pcs, n), n in s.client, n in s.chain, n in s.wanted, s.refs[n])
  }

  /** The head and next fields spell out the chain. */
  ghost predicate Spells(s: State) {
    && s.head == Hd(s.chain, 0)
    && (forall i :: 0 <= i < |s.chain| ==> s.chain[i] < |s.next| && s.next[s.chain[i]] == Hd(s.chain, i + 1))
    && (forall i, j :: 0 <= i < j < |s.chain| ==> s.chain[i] != s.chain[j])
  }

  function Hd(c: seq<NodeId>, i: nat): Link {
    if i < |c| then Ptr(c[i]) else Null
  }

  /** What each thread's locals say about shared memory. */
  predicate LocalRight(s: State, pc: PC)
    requires |s.next| == |s.refs|
  {
    && Allocated(pc, |s.refs|)
    && ((pc.LinkRefs? || pc.LinkCas?) ==> s.next[pc.n] == pc.h)
    && (pc.GetCas? ==> s.next[pc.n] == pc.nx)
    && (pc.GetInc? ==> pc.r % SHOULD != 0)
    && (pc.LinkLoad? || pc.LinkNext? || pc.LinkRefs? || pc.LinkCas? || pc.LinkRetry? ==>
          (pc.k.FromGet? && pc.k.cur.Ptr? ==> pc.k.cur.node < |s.refs|))
    && (pc.GetDrop? && pc.cur.Ptr? ==> pc.cur.node < |s.refs|)
  }

  ghost predicate Inv(s: State) {
    && |s.next| == |s.refs|
    && |s.pcs| + 1 < SHOULD
    && (forall n :: n in s.client || n in s.wanted ==> n < |s.refs|)
    && (forall n :: 0 <= n < |s.refs| ==> NodeFits(s, n))
    && Spells(s)
    && (forall t :: 0 <= t < |s.pcs| ==> LocalRight(s, s.pcs[t]))
  }

  // ---- Tallies ----

  /** Thread t moves to pc: what happens to a node's four tallies. */
  lemma Moved(pcs: seq<PC>, t: nat, pc: PC, n: NodeId)
    requires t < |pcs|
    ensures var k, k', w, w' := Sums(pcs, n), Sums(pcs[t := pc], n), Weight(pcs[t], n), Weight(pc, n);
      && k'.own + w.own == k.own + w'.own
      && k'.hold + w.hold == k.hold + w'.hold
      && k'.lend + w.lend == k.lend + w'.lend
      && k'.flag + w.flag == k.flag + w'.flag
  {
    TotalUpdate(pcs, t, pc, Own(n));
    TotalUpdate(pcs, t, pc, Hold(n));
    TotalUpdate(pcs, t, pc, Lend(n));
    TotalUpdate(pcs, t, pc, Flag(n));
  }

  /** A tally covers each thread's weight; references lent and flags kept belong to owners. */
  lemma Covered(pcs: seq<PC>, t: nat, n: NodeId)
    requires t < |pcs|
    ensures var k, w := Sums(pcs, n), Weight(pcs[t], n);
      && w.own <= k.own && w.hold <= k.hold <= |pcs| && w.lend <= k.lend && w.flag <= k.flag
      && (k.lend - w.lend) + (k.flag - w.flag) <= k.own - w.own
  {
    TotalAtLeast(pcs, t, Own(n));
    TotalAtLeast(pcs, t, Hold(n));
    TotalAtLeast(pcs, t, Lend(n));
    TotalAtLeast(pcs, t, Flag(n));
    TotalBound(pcs, Hold(n));
    OwnersSplit(pcs[t := Idle], n);
    Moved(pcs, t, Idle, n);
  }

  lemma {:induction false} OwnersSplit(pcs: seq<PC>, n: NodeId)
    ensures Sums(pcs, n).lend + Sums(pcs, n).flag <= Sums(pcs, n).own
  {
    if pcs != [] {
      OwnersSplit(pcs[..|pcs| - 1], n);
    }
  }

  /** Two threads do not both own a node. */
  lemma OneOwner(s: State, t: nat, u: nat, n: NodeId)
    requires n < |s.refs| && NodeFits(s, n) && t < |s.pcs| && u < |s.pcs| && t != u
    ensures Weight(s.pcs[t], n).own + Weight(s.pcs[u], n).own <= 1
  {
    if u < t {
      TotalAtLeastTwo(s.pcs, u, t, Own(n));
    } else {
      TotalAtLeastTwo(s.pcs, t, u, Own(n));
    }
  }

  // ---- Each step keeps the invariant ----

  /** The thread weighs on no node but n. */
  predicate About(pc: PC, n: NodeId) {
    match pc
    case Idle | GetHead | GetRefs(_) | GetInc(_, _) => true
    case _ => pc.n == n
  }

  /** Shared memory and places of s and s' agree away from node n. */
  predicate SameBut(s: State, s': State, n: NodeId) {
    && |s'.refs| == |s'.next| == |s.refs| == |s.next|
    && (forall m :: 0 <= m < |s.refs| && m != n ==>
          && s'.refs[m] == s.refs[m]
          && (m in s'.client <==> m in s.client)
          && (m in s'.wanted <==> m in s.wanted)
          && (m in s'.chain <==> m in s.chain))
  }

  /** Thread t moves to pc and touches node n only: the other nodes still fit. */
  lemma OthersFit(s: State, s': State, t: nat, n: NodeId)
    requires Inv(s) && t < |s.pcs| && SameBut(s, s', n)
    requires |s'.pcs| == |s.pcs| && s'.pcs == s.pcs[t := s'.pcs[t]]
    requires About(s.pcs[t], n) && About(s'.pcs[t], n)
    ensures forall m :: 0 <= m < |s.refs| && m != n ==> NodeFits(s', m)
  {
    forall m | 0 <= m < |s.refs| && m != n
      ensures NodeFits(s', m)
    {
      assert NodeFits(s, m);
      Moved(s.pcs, t, s'.pcs[t], m);
    }
  }

  /** What is known of node n when thread t is about to move to pc. */
  lemma Basics(s: State, t: nat, pc: PC, n: NodeId)
    requires t < |s.pcs|
    ensures var k, k', w, w' := Sums(s.pcs, n), Sums(s.pcs[t := pc], n), Weight(s.pcs[t], n), Weight(pc, n);
      && k'.own + w.own == k.own + w'.own
      && k'.hold + w.hold == k.hold + w'.hold
      && k'.lend + w.lend == k.lend + w'.lend
      && k'.flag + w.flag == k.flag + w'.flag
      && w.own <= k.own && w.hold <= k.hold <= |s.pcs| && w.lend <= k.lend && w.flag <= k.flag
      && (k.lend - w.lend) + (k.flag - w.flag) <= k.own - w.own
  {
    Covered(s.pcs, t, n);
    Moved(s.pcs, t, pc, n);
  }

  /** The parts of the invariant that matter to thread t and node n. */
  predicate Ready(s: State, t: nat, n: NodeId) {
    && |s.next| == |s.refs| && n < |s.refs| && t < |s.pcs| && |s.pcs| + 1 < SHOULD
    && NodeFits(s, n) && LocalRight(s, s.pcs[t])
  }

  lemma AddFetchFits(s: State, t: nat, n: NodeId)
    requires Ready(s, t, n) && Enabled(s, Run(t)) && s.pcs[t] == AddFetch(n)
    ensures NodeFits(Step(s, Run(t)), n)
  {
    Basics(s, t, Step(s, Run(t)).pcs[t], n);
  }

  lemma PreparingFits(s: State, t: nat, n: NodeId)
    requires Ready(s, t, n) && Enabled(s, Run(t))
    requires (s.pcs[t].LinkLoad? || s.pcs[t].LinkNext? || s.pcs[t].LinkRefs?) && s.pcs[t].n == n
    ensures NodeFits(Step(s, Run(t)), n)
  {
    Basics(s, t, Step(s, Run(t)).pcs[t], n);
  }

  lemma LinkingFits(s: State, t: nat, n: NodeId)
    requires Ready(s, t, n) && Enabled(s, Run(t)) && (s.pcs[t].LinkCas? || s.pcs[t].LinkRetry?) && s.pcs[t].n == n
    ensures NodeFits(Step(s, Run(t)), n)
  {
    Basics(s, t, Step(s, Run(t)).pcs[t], n);
  }

  lemma GetIncFits(s: State, t: nat, n: NodeId)
    requires Ready(s, t, n) && Enabled(s, Run(t)) && s.pcs[t].GetInc? && s.pcs[t].n == n
    requires s.refs[n] == s.pcs[t].r
    ensures NodeFits(Step(s, Run(t)), n)
  {
    Basics(s, t, GetNext(n), n);
  }

  lemma GetCasFits(s: State, t: nat, n: NodeId)
    requires Ready(s, t, n) && Spells(s) && Enabled(s, Run(t)) && s.pcs[t].GetCas? && s.pcs[t].n == n
    requires s.head == Ptr(n)
    ensures NodeFits(Step(s, Run(t)), n)
  {
    var s' := Step(s, Run(t));
    Basics(s, t, GetTake(n), n);
    assert s.chain == [n] + s'.chain;
  }

  lemma GetTakeFits(s: State, t: nat, n: NodeId)
    requires Ready(s, t, n) && Enabled(s, Run(t)) && s.pcs[t] == GetTake(n)
    ensures NodeFits(Step(s, Run(t)), n)
  {
    Basics(s, t, Idle, n);
  }

  lemma DroppingFits(s: State, t: nat, n: NodeId)
    requires Ready(s, t, n) && Enabled(s, Run(t)) && s.pcs[t].GetDrop? && s.pcs[t].n == n
    ensures NodeFits(Step(s, Run(t)), n)
  {
    Basics(s, t, Step(s, Run(t)).pcs[t], n);
  }

  /** A step of thread t that touches node n only, once n, the chain and the locals are settled. */
  lemma Keeps(s: State, s': State, t: nat, n: NodeId)
    requires Inv(s) && t < |s.pcs| && n < |s.refs| && SameBut(s, s', n)
    requires |s'.pcs| == |s.pcs| && s'.pcs == s.pcs[t := s'.pcs[t]]
    requires About(s.pcs[t], n) && About(s'.pcs[t], n)
    requires forall m :: m in s'.client || m in s'.wanted ==> m < |s.refs|
    requires NodeFits(s', n)
    requires Spells(s')
    requires s'.next == s.next && LocalRight(s', s'.pcs[t])
    ensures Inv(s')
  {
    OthersFit(s, s', t, n);
    assert forall u :: 0 <= u < |s.pcs| && u != t ==> LocalRight(s, s.pcs[u]);
  }

  /** The steps that touch only a thread's locals, and change no weight. */
  lemma KeepsLocal(s: State, t: nat, pc: PC)
    requires Inv(s) && t < |s.pcs| && LocalRight(s, pc)
    requires forall n :: 0 <= n < |s.refs| ==> Weight(pc, n) == Weight(s.pcs[t], n)
    ensures Inv(s.(pcs := s.pcs[t := pc]))
  {
    var s' := s.(pcs := s.pcs[t := pc]);
    forall n | 0 <= n < |s.refs|
      ensures NodeFits(s', n)
    {
      assert NodeFits(s, n);
      Moved(s.pcs, t, pc, n);
    }
    assert forall u :: 0 <= u < |s.pcs| && u != t ==> LocalRight(s, s.pcs[u]);
  }

  lemma StartAddKeeps(s: State, t: nat, n: NodeId)
    requires Inv(s) && Enabled(s, StartAdd(t, n))
    ensures Inv(Step(s, StartAdd(t, n)))
  {
    assert NodeFits(s, n);
    Basics(s, t, AddFetch(n), n);
    Keeps(s, Step(s, StartAdd(t, n)), t, n);
  }

  lemma LinkNextKeeps(s: State, t: nat)
    requires Inv(s) && Enabled(s, Run(t)) && s.pcs[t].LinkNext?
    ensures Inv(Step(s, Run(t)))
  {
    var n, s' := s.pcs[t].n, Step(s, Run(t));
    assert Ready(s, t, n);
    PreparingFits(s, t, n);
    OthersFit(s, s', t, n);
    Covered(s.pcs, t, n);
    forall u | 0 <= u < |s.pcs| && u != t
      ensures LocalRight(s', s.pcs[u])
    {
      // Nobody else links n, and nobody reads n.
      OneOwner(s, t, u, n);
      Covered(s.pcs, u, n);
      assert LocalRight(s, s.pcs[u]);
    }
  }

  lemma LinkCasKeeps(s: State, t: nat)
    requires Inv(s) && Enabled(s, Run(t)) && s.pcs[t].LinkCas? && s.head == s.pcs[t].h
    ensures Inv(Step(s, Run(t)))
  {
    var n, s' := s.pcs[t].n, Step(s, Run(t));
    assert Ready(s, t, n);
    LinkingFits(s, t, n);
    Covered(s.pcs, t, n);
    assert s'.chain[1..] == s.chain;
    Keeps(s, s', t, n);
  }

  lemma GetCasKeeps(s: State, t: nat)
    requires Inv(s) && Enabled(s, Run(t)) && s.pcs[t].GetCas? && s.head == Ptr(s.pcs[t].n)
    ensures Inv(Step(s, Run(t)))
  {
    var n, s' := s.pcs[t].n, Step(s, Run(t));
    assert Ready(s, t, n);
    GetCasFits(s, t, n);
    assert s.chain == [n] + s'.chain;
    Keeps(s, s', t, n);
  }

  /** The steps by which add changes the word of one node. */
  lemma AddCountKeeps(s: State, t: nat)
    requires Inv(s) && Enabled(s, Run(t))
    requires s.pcs[t].AddFetch? || s.pcs[t].LinkRefs? || s.pcs[t].LinkRetry?
    ensures Inv(Step(s, Run(t)))
  {
    var n := s.pcs[t].n;
    assert Ready(s, t, n);
    if s.pcs[t].AddFetch? {
      AddFetchFits(s, t, n);
    } else if s.pcs[t].LinkRefs? {
      PreparingFits(s, t, n);
    } else {
      LinkingFits(s, t, n);
    }
    Keeps(s, Step(s, Run(t)), t, n);
  }

  /** The steps by which try_get changes the word of one node. */
  lemma GetCountKeeps(s: State, t: nat)
    requires Inv(s) && Enabled(s, Run(t))
    requires s.pcs[t].GetTake? || s.pcs[t].GetDrop? || (s.pcs[t].GetInc? && s.refs[s.pcs[t].n] == s.pcs[t].r)
    ensures Inv(Step(s, Run(t)))
  {
    var n := s.pcs[t].n;
    assert Ready(s, t, n);
    if s.pcs[t].GetTake? {
      GetTakeFits(s, t, n);
    } else if s.pcs[t].GetDrop? {
      DroppingFits(s, t, n);
    } else {
      GetIncFits(s, t, n);
    }
    Keeps(s, Step(s, Run(t)), t, n);
  }

  /** Every step of every thread keeps the invariant. */
  lemma StepKeeps(s: State, a: Action)
    requires Inv(s) && Enabled(s, a)
    ensures Inv(Step(s, a))
  {
    match a
    case StartAdd(t, n) => StartAddKeeps(s, t, n);
    case StartGet(t) => KeepsLocal(s, t, GetHead);
    case Run(t) =>
      var pc := s.pcs[t];
      assert LocalRight(s, pc);
      match pc {
        case LinkNext(_, _, _) => LinkNextKeeps(s, t);
        case LinkCas(_, h, _) =>
          if s.head == h { LinkCasKeeps(s, t); } else { KeepsLocal(s, t, Step(s, a).pcs[t]); }
        case GetCas(n, _) =>
          if s.head == Ptr(n) { GetCasKeeps(s, t); } else { KeepsLocal(s, t, Step(s, a).pcs[t]); }
        case GetInc(n, r) =>
          if s.refs[n] == r { GetCountKeeps(s, t); } else { KeepsLocal(s, t, GetHead); }
        case LinkLoad(_, _) => KeepsLocal(s, t, Step(s, a).pcs[t]);
        case GetHead => KeepsLocal(s, t, Step(s, a).pcs[t]);
        case GetRefs(_) => KeepsLocal(s, t, Step(s, a).pcs[t]);
        case GetNext(_) => KeepsLocal(s, t, Step(s, a).pcs[t]);
        case GetTake(_) => GetCountKeeps(s, t);
        case GetDrop(_, _) => GetCountKeeps(s, t);
        case _ => AddCountKeeps(s, t);
      }
  }

  // ---- Whole runs ----

  /** An empty list; every node in the clients' hands; at most 2^31 - 2 threads. */
  predicate Init(s: State) {
    && s.head == Null && s.chain == [] && s.wanted == {}
    && |s.next| == |s.refs| && |s.pcs| + 1 < SHOULD
    && (forall n :: n in s.client ==> n < |s.refs|)
    && (forall n :: 0 <= n < |s.refs| ==> n in s.client && s.refs[n] == 0)
    && (forall t :: 0 <= t < |s.pcs| ==> s.pcs[t] == Idle)
  }

  /** The schedule can be run from s. */
  predicate Feasible(s: State, run: seq<Action>)
    decreases |run|
  {
    run == [] || (Enabled(s, run[0]) && Feasible(Step(s, run[0]), run[1..]))
  }

  function Exec(s: State, run: seq<Action>): State
    requires Feasible(s, run)
    decreases |run|
  {
    if run == [] then s else Exec(Step(s, run[0]), run[1..])
  }

  lemma {:induction false} RunKeeps(s: State, run: seq<Action>)
    requires Inv(s) && Feasible(s, run)
    ensures Inv(Exec(s, run))
    decreases |run|
  {
    if run != [] {
      StepKeeps(s, run[0]);
      RunKeeps(Step(s, run[0]), run[1..]);
    }
  }

  lemma IdleWeighsNothing(pcs: seq<PC>, n: NodeId)
    requires forall t :: 0 <= t < |pcs| ==> pcs[t] == Idle
    ensures Sums(pcs, n) == NO_WEIGHT
  {
    TotalZero(pcs, Own(n));
    TotalZero(pcs, Hold(n));
    TotalZero(pcs, Lend(n));
    TotalZero(pcs, Flag(n));
  }

  lemma InitInv(s: State)
    requires Init(s)
    ensures Inv(s)
  {
    forall n | 0 <= n < |s.refs|
      ensures NodeFits(s, n)
    {
      IdleWeighsNothing(s.pcs, n);
    }
    assert forall t :: 0 <= t < |s.pcs| ==> LocalRight(s, s.pcs[t]);
  }

  /**
   The free list over every interleaving of any number of threads: each node is in exactly one
   place, the list as linked in memory holds no node twice, and a node's word is its flag,
   the list's reference and its readers.
   */
  lemma ListSafety(s0: State, run: seq<Action>)
    requires Init(s0) && Feasible(s0, run)
    ensures var s := Exec(s0, run);
      && Spells(s)
      && (forall n :: 0 <= n < |s.refs| ==> NodeFits(s, n))
  {
    InitInv(s0);
    RunKeeps(s0, run);
  }

  /**
   try_get hands a node to one thread only: when it is about to return n, n is on no list, in no
   client's hands and owned by no other thread, its flag is clear (the source asserts
   this), and the count it subtracts is there.
   */
  lemma TakeIsExclusive(s0: State, run: seq<Action>, t: nat)
    requires Init(s0) && Feasible(s0, run) && t < |Exec(s0, run).pcs|
    requires Exec(s0, run).pcs[t].GetTake?
    ensures var s := Exec(s0, run); var n := s.pcs[t].n;
      && n < |s.refs|
      && n !in s.client && n !in s.chain && n !in s.wanted
      && 2 <= s.refs[n] < SHOULD
      && forall u :: 0 <= u < |s.pcs| && u != t ==> Weight(s.pcs[u], n).own == 0
  {
    ListSafety(s0, run);
    InitInv(s0);
    RunKeeps(s0, run);
    var s := Exec(s0, run);
    var n := s.pcs[t].n;
    assert LocalRight(s, s.pcs[t]) && NodeFits(s, n);
    Covered(s.pcs, t, n);
    forall u | 0 <= u < |s.pcs| && u != t
      ensures Weight(s.pcs[u], n).own == 0
    {
      OneOwner(s, t, u, n);
    }
  }

  /** A reader that is about to move the head past a node installs the node's current successor. */
  lemma NoStaleNext(s0: State, run: seq<Action>, t: nat)
    requires Init(s0) && Feasible(s0, run) && t < |Exec(s0, run).pcs|
    requires Exec(s0, run).pcs[t].GetCas?
    ensures var s := Exec(s0, run); var pc := s.pcs[t];
      && pc.n < |s.next| && pc.nx == s.next[pc.n]
      && (s.head == Ptr(pc.n) ==> s.chain != [] && pc.nx == Hd(s.chain, 1))
  {
    InitInv(s0);
    RunKeeps(s0, run);
    var s := Exec(s0, run);
    assert LocalRight(s, s.pcs[t]);
  }

  /** No node is lost: once every call has returned, each node is with a client or on the list. */
  lemma QuietMeansComplete(s0: State, run: seq<Action>, n: NodeId)
    requires Init(s0) && Feasible(s0, run)
    requires forall t :: 0 <= t < |Exec(s0, run).pcs| ==> Exec(s0, run).pcs[t] == Idle
    requires n < |Exec(s0, run).refs|
    ensures var s := Exec(s0, run);
      && (n in s.client <==> n !in s.chain)
      && s.refs[n] == One(n in s.chain)
  {
    ListSafety(s0, run);
    var s := Exec(s0, run);
    assert NodeFits(s, n);
    IdleWeighsNothing(s.pcs, n);
  }

  /** In every reachable state a thread inside a call can take its next step, and one outside can call try_get or add a client's node. */
  lemma NeverStuck(s0: State, run: seq<Action>, t: nat)
    requires Init(s0) && Feasible(s0, run) && t < |Exec(s0, run).pcs|
    ensures var s := Exec(s0, run);
      if s.pcs[t] == Idle then Enabled(s, StartGet(t)) && forall n :: n in s.client ==> Enabled(s, StartAdd(t, n))
      else Enabled(s, Run(t))
  {
    InitInv(s0);
    RunKeeps(s0, run);
    assert LocalRight(Exec(s0, run), Exec(s0, run).pcs[t]);
  }

  // ---- Calls that run alone ----

  /** k steps of thread t alone lead from s to s'. */
  predicate Solo(s: State, t: nat, k: nat, s': State)
    decreases k
  {
    if k == 0 then s' == s else Enabled(s, Run(t)) && Solo(Step(s, Run(t)), t, k - 1, s')
  }

  /** A node on the list has a count that lets a reader in. */
  lemma ListedIsReadable(s: State, n: NodeId)
    requires Inv(s) && n in s.chain
    ensures n < |s.refs| && 0 < s.refs[n] < SHOULD && s.refs[n] % SHOULD != 0 && n !in s.client
  {
    assert NodeFits(s, n);
    OwnersSplit(s.pcs, n);
    TotalBound(s.pcs, Hold(n));
  }

  /** try_get, left alone, returns the first node of the list, which then is the caller's; it fails only on an empty list. */
  lemma GetTakesFirst(s0: State, run: seq<Action>, t: nat) returns (s': State)
    requires Init(s0) && Feasible(s0, run) && t < |Exec(s0, run).pcs| && Exec(s0, run).pcs[t] == GetHead
    ensures var s := Exec(s0, run);
      if s.chain == [] then Solo(s, t, 2, s') && s' == s.(pcs := s.pcs[t := Idle])
      else
        && Solo(s, t, 6, s') && s'.pcs == s.pcs[t := Idle]
        && s'.chain == s.chain[1..] && s'.client == s.client + {s.chain[0]} && s.chain[0] !in s.client && Spells(s')
  {
    InitInv(s0);
    RunKeeps(s0, run);
    var s := Exec(s0, run);
    if s.chain == [] {
      s' := s.(pcs := s.pcs[t := Idle]);
      var s1 := Step(s, Run(t));
      assert Solo(s1, t, 1, s') by {
        assert Solo(s', t, 0, s') && Step(s1, Run(t)) == s';
      }
    } else {
      s' := FirstTaken(s, t);
    }
  }

  lemma FirstTaken(s: State, t: nat) returns (s': State)
    requires Inv(s) && t < |s.pcs| && s.pcs[t] == GetHead && s.chain != []
    ensures Solo(s, t, 6, s') && s'.pcs == s.pcs[t := Idle]
    ensures s'.chain == s.chain[1..] && s'.client == s.client + {s.chain[0]} && s.chain[0] !in s.client && Spells(s')
  {
    var n := s.chain[0];
    ListedIsReadable(s, n);
    var s1, s2, s3 := CountsIn(s, t, n);
    var s4, s5 := Unlinks(s3, t, n);
    s' := Step(s5, Run(t));
    assert s'.pcs == s.pcs[t := Idle];
    TailSpells(s, s');
    SoloSix(s, t, s1, s2, s3, s4, s5, s');
  }

  lemma CountsIn(s: State, t: nat, n: NodeId) returns (s1: State, s2: State, s3: State)
    requires t < |s.pcs| && s.pcs[t] == GetHead && s.head == Ptr(n) && n < |s.refs| == |s.next| && s.refs[n] % SHOULD != 0
    ensures Enabled(s, Run(t)) && s1 == Step(s, Run(t)) && Enabled(s1, Run(t)) && s2 == Step(s1, Run(t))
    ensures Enabled(s2, Run(t)) && s3 == Step(s2, Run(t)) && |s3.refs| == |s.refs|
    ensures s3 == s.(refs := s3.refs, pcs := s.pcs[t := GetNext(n)])
  {
    s1 := Step(s, Run(t));
    s2 := Step(s1, Run(t));
    s3 := Step(s2, Run(t));
    assert s3.pcs == s.pcs[t := GetNext(n)];
  }

  lemma Unlinks(s: State, t: nat, n: NodeId) returns (s4: State, s5: State)
    requires t < |s.pcs| && s.pcs[t] == GetNext(n) && s.head == Ptr(n) && n < |s.refs| == |s.next| && s.chain != []
    ensures Enabled(s, Run(t)) && s4 == Step(s, Run(t)) && Enabled(s4, Run(t)) && s5 == Step(s4, Run(t)) && Enabled(s5, Run(t))
    ensures s5 == s.(head := s.next[n], chain := s.chain[1..], pcs := s.pcs[t := GetTake(n)])
  {
    s4 := Step(s, Run(t));
    s5 := Step(s4, Run(t));
    assert s5.pcs == s.pcs[t := GetTake(n)];
  }

  lemma TailSpells(s: State, s': State)
    requires Spells(s) && s.chain != [] && s'.chain == s.chain[1..] && s'.next == s.next && s'.head == s.next[s.chain[0]]
    ensures Spells(s')
  {
  }

  lemma SoloSix(s: State, t: nat, s1: State, s2: State, s3: State, s4: State, s5: State, s6: State)
    requires Enabled(s, Run(t)) && s1 == Step(s, Run(t)) && Enabled(s1, Run(t)) && s2 == Step(s1, Run(t))
    requires Enabled(s2, Run(t)) && s3 == Step(s2, Run(t)) && Enabled(s3, Run(t)) && s4 == Step(s3, Run(t))
    requires Enabled(s4, Run(t)) && s5 == Step(s4, Run(t)) && Enabled(s5, Run(t)) && s6 == Step(s5, Run(t))
    ensures Solo(s, t, 6, s6)
  {
    hide Enabled, Step;
    assert Solo(s6, t, 0, s6);
    assert Solo(s5, t, 1, s6);
    assert Solo(s4, t, 2, s6);
    assert Solo(s3, t, 3, s6);
    assert Solo(s2, t, 4, s6);
    assert Solo(s1, t, 5, s6);
  }

  /** add, left alone, puts a node without readers first on the list, and leaves one with readers to the last of them. */
  lemma AddPutsFirst(s0: State, run: seq<Action>, t: nat) returns (s': State)
    requires Init(s0) && Feasible(s0, run) && t < |Exec(s0, run).pcs| && Exec(s0, run).pcs[t].AddFetch?
    ensures var s := Exec(s0, run); var n := s.pcs[t].n;
      && n < |s.refs| && |s'.refs| == |s.refs|
      && if s.refs[n] == 0 then
           && Solo(s, t, 5, s') && s'.pcs == s.pcs[t := Idle] && s'.chain == [n] + s.chain && s'.head == Ptr(n) && s'.refs[n] == 1
           && s'.next == s.next[n := s.head] && s'.client == s.client
         else
           Solo(s, t, 1, s') && s'.pcs == s.pcs[t := Idle] && s'.wanted == s.wanted + {n} && s'.chain == s.chain && s'.client == s.client
  {
    InitInv(s0);
    RunKeeps(s0, run);
    var s := Exec(s0, run);
    var n := s.pcs[t].n;
    assert LocalRight(s, s.pcs[t]);
    var s1 := Step(s, Run(t));
    if s.refs[n] == 0 {
      s' := Linked(s1, t, n);
    } else {
      s' := s1;
      assert Solo(s1, t, 0, s1);
    }
  }

  lemma Linked(s: State, t: nat, n: NodeId) returns (s': State)
    requires t < |s.pcs| && s.pcs[t] == LinkLoad(n, FromAdd) && |s.refs| == |s.next| && n < |s.refs|
    ensures Solo(s, t, 4, s') && s'.pcs == s.pcs[t := Idle] && s'.chain == [n] + s.chain && s'.head == Ptr(n)
    ensures |s'.refs| == |s.refs| && s'.refs[n] == 1 && s'.next == s.next[n := s.head] && s'.client == s.client
  {
    var s1 := Step(s, Run(t));
    var s2 := Step(s1, Run(t));
    var s3 := Step(s2, Run(t));
    s' := Step(s3, Run(t));
    assert s1.pcs[t] == LinkNext(n, s.head, FromAdd) && s2.pcs[t] == LinkRefs(n, s.head, FromAdd);
    assert s3.pcs[t] == LinkCas(n, s.head, FromAdd);
    SoloFour(s, t, s1, s2, s3, s');
  }

  lemma SoloFour(s: State, t: nat, s1: State, s2: State, s3: State, s4: State)
    requires Enabled(s, Run(t)) && s1 == Step(s, Run(t)) && Enabled(s1, Run(t)) && s2 == Step(s1, Run(t))
    requires Enabled(s2, Run(t)) && s3 == Step(s2, Run(t)) && Enabled(s3, Run(t)) && s4 == Step(s3, Run(t))
    ensures Solo(s, t, 4, s4)
  {
    hide Enabled, Step;
    assert Solo(s4, t, 0, s4);
    assert Solo(s3, t, 1, s4);
    assert Solo(s2, t, 2, s4);
    assert Solo(s1, t, 3, s4);
  }
}
