/**
 PriorityQueueT under any interleaving: ten band queues, a bitmask of bands that may hold a
 message, and a counting semaphore with one token per message. A band is a FIFO per
 enqueuing thread; the semaphore is the token counter that module Semaphore refines.
 */
module QueueProtocol {
  import opened Tally

  const BANDS: nat := 10

  /** A message with the thread that enqueued it. */
  datatype Item = Item(id: nat, prio: int, from: nat)

  /** The band of a priority: the priority itself from 0 to 9, and the nearest band outside. */
  function Band(prio: int): (b: nat)
    ensures b < BANDS
    ensures 0 <= prio <= 9 ==> b == prio
    ensures prio < 0 ==> b == 0
    ensures prio > 9 ==> b == 9
  {
    if prio < 0 then 0 else if prio > 9 then 9 else prio
  }

  datatype PC =
    | Idle
    | Insert(m: Item)     // enqueue: band enqueue
    | SetBit(b: nat)      // enqueue: fetch_or
    | Signal              // enqueue: semaphore signal
    | LoadMask            // dequeue, token in hand: load mask
    | TryBand(b: nat)     // mask walk: try_dequeue on the highest marked band
    | ClearBit(b: nat)    // mask walk: fetch_and after a failed try
    | Scan(b: nat)        // safety net: try_dequeue on band b, then below
    | Return              // hand the token back

  /** sent and got are history: all band enqueues and all messages handed out. */
  datatype State = State(
    bands: seq<seq<Item>>,
    mask: set<nat>,
    tokens: nat,
    pcs: seq<PC>,
    sent: seq<Item>,
    got: seq<Item>)

  /** at: which entry of the band a successful try_dequeue takes. */
  datatype Action = Enqueue(t: nat, id: nat, prio: int) | Acquire(t: nat) | Run(t: nat, at: nat)

  /** No earlier entry of the band comes from the same thread. */
  predicate Oldest(band: seq<Item>, i: nat)
    requires i < |band|
  {
    forall j :: 0 <= j < i ==> band[j].from != band[i].from
  }

  predicate Enabled(s: State, a: Action) {
    && a.t < |s.pcs| && |s.bands| == BANDS && (forall c :: c in s.mask ==> c < BANDS)
    && match a
       case Enqueue(t, _, _) => s.pcs[t] == Idle
       case Acquire(t) => s.pcs[t] == Idle && s.tokens > 0
       case Run(t, at) =>
         var pc := s.pcs[t];
         && pc != Idle
         && ((pc.TryBand? || pc.Scan?) ==>
               pc.b < BANDS && (s.bands[pc.b] == [] || (at < |s.bands[pc.b]| && Oldest(s.bands[pc.b], at))))
  }

  /** The band countl_zero finds: the highest bit of the mask at or below n. */
  function Highest(mask: set<nat>, n: nat): (b: nat)
    requires mask != {} && forall c :: c in mask ==> c <= n
    ensures b in mask && forall c :: c in mask ==> c <= b
  {
    if n in mask then n
    else
      assert n > 0 by { var c :| c in mask; }
      Highest(mask, n - 1)
  }

  function Step(s: State, a: Action): State
    requires Enabled(s, a)
  {
    match a
    case Enqueue(t, id, prio) => Goto(s, t, Insert(Item(id, prio, t)))
    case Acquire(t) => Goto(s.(tokens := s.tokens - 1), t, LoadMask)
    case Run(t, at) =>
      match s.pcs[t]
      case Insert(m) =>
        var b := Band(m.prio);
        Goto(s.(bands := s.bands[b := s.bands[b] + [m]], sent := s.sent + [m]), t, SetBit(b))
      case SetBit(b) => Goto(s.(mask := s.mask + {b}), t, Signal)
      case Signal => Goto(s.(tokens := s.tokens + 1), t, Idle)
      case LoadMask => Goto(s, t, if s.mask == {} then Scan(BANDS - 1) else TryBand(Highest(s.mask, BANDS - 1)))
      case TryBand(b) => if s.bands[b] == [] then Goto(s, t, ClearBit(b)) else Taken(s, t, b, at)
      case ClearBit(b) => Goto(s.(mask := s.mask - {b}), t, LoadMask)
      case Scan(b) =>
        if s.bands[b] != [] then Taken(s, t, b, at)
        else Goto(s, t, if b == 0 then Return else Scan(b - 1))
      case Return => Goto(s.(tokens := s.tokens + 1), t, Idle)
  }

  function Goto(s: State, t: nat, pc: PC): State
    requires t < |s.pcs|
  {
    s.(pcs := s.pcs[t := pc])
  }

  /** Entry at of band b is handed to thread t, whose dequeue returns. */
  function Taken(s: State, t: nat, b: nat, at: nat): State
    requires t < |s.pcs| && b < |s.bands| && at < |s.bands[b]|
  {
    s.(bands := s.bands[b := Without(s.bands[b], at)], got := s.got + [s.bands[b][at]], pcs := s.pcs[t := Idle])
  }

  function Without(band: seq<Item>, i: nat): seq<Item>
    requires i < |band|
  {
    band[..i] + band[i + 1..]
  }

  // ---- Invariant ----

  function HasToken(pc: PC): nat {
    if pc.LoadMask? || pc.TryBand? || pc.ClearBit? || pc.Scan? || pc.Return? then 1 else 0
  }

  function OwesToken(pc: PC): nat {
    if pc.SetBit? || pc.Signal? then 1 else 0
  }

  function Len(band: seq<Item>): nat { |band| }

  /** How many messages are in the bands. */
  function Stored(s: State): nat { Total(s.bands, Len) }

  /** Messages in the bands are exactly the tokens: free, held by dequeuers, or still to be signalled. */
  predicate Balanced(s: State) {
    Stored(s) == s.tokens + Total(s.pcs, HasToken) + Total(s.pcs, OwesToken)
  }

  /** The messages of s that thread p put into band b, in order. */
  function Of(s: seq<Item>, p: nat, b: nat): seq<Item> {
    if s == [] then []
    else
      var rest := Of(s[..|s| - 1], p, b);
      if s[|s| - 1].from == p && Band(s[|s| - 1].prio) == b then rest + [s[|s| - 1]] else rest
  }

  /** Per thread and band, what was handed out followed by what is stored is what was sent. */
  ghost predicate InOrder(s: State)
    requires |s.bands| == BANDS
  {
    forall p: nat, b: nat :: b < BANDS ==> Of(s.sent, p, b) == Of(s.got, p, b) + Of(s.bands[b], p, b)
  }

  predicate Typed(s: State) {
    && |s.bands| == BANDS
    && (forall c :: c in s.mask ==> c < BANDS)
    && (forall b, i :: 0 <= b < BANDS && 0 <= i < |s.bands[b]| ==> Band(s.bands[b][i].prio) == b)
    && (forall t :: 0 <= t < |s.pcs| ==> PcTyped(s.pcs[t]))
  }

  predicate PcTyped(pc: PC) {
    pc.SetBit? || pc.TryBand? || pc.ClearBit? || pc.Scan? ==> pc.b < BANDS
  }

  ghost predicate Inv(s: State) {
    Typed(s) && Balanced(s) && InOrder(s)
  }

  // ---- Each step keeps the invariant ----

  lemma Moved(s: State, t: nat, pc: PC)
    requires t < |s.pcs|
    ensures Total(s.pcs[t := pc], HasToken) + HasToken(s.pcs[t]) == Total(s.pcs, HasToken) + HasToken(pc)
    ensures Total(s.pcs[t := pc], OwesToken) + OwesToken(s.pcs[t]) == Total(s.pcs, OwesToken) + OwesToken(pc)
  {
    TotalUpdate(s.pcs, t, pc, HasToken);
    TotalUpdate(s.pcs, t, pc, OwesToken);
  }

  /** Taking the oldest entry of its thread takes the first of that thread's entries. */
  lemma {:induction false} OfWithout(band: seq<Item>, i: nat, p: nat, b: nat)
    requires i < |band| && Oldest(band, i)
    ensures Of(band, p, b) ==
      (if band[i].from == p && Band(band[i].prio) == b then [band[i]] else []) + Of(Without(band, i), p, b)
  {
    var n := |band| - 1;
    if i == n {
      assert Without(band, i) == band[..n];
      if band[i].from == p {
        OfNobody(band[..n], p, b);
      }
    } else {
      OfWithout(band[..n], i, p, b);
      assert Without(band, i)[..n - 1] == Without(band[..n], i);
    }
  }

  lemma {:induction false} OfNobody(s: seq<Item>, p: nat, b: nat)
    requires forall i :: 0 <= i < |s| ==> s[i].from != p
    ensures Of(s, p, b) == []
  {
    if s != [] {
      OfNobody(s[..|s| - 1], p, b);
    }
  }

  lemma TakenKeeps(s: State, t: nat, b: nat, at: nat)
    requires Inv(s) && t < |s.pcs| && b < BANDS && at < |s.bands[b]| && Oldest(s.bands[b], at)
    requires HasToken(s.pcs[t]) == 1
    ensures Inv(Taken(s, t, b, at))
  {
    var s' := Taken(s, t, b, at);
    Moved(s, t, Idle);
    TotalUpdate(s.bands, b, Without(s.bands[b], at), Len);
    forall p: nat, c: nat | c < BANDS
      ensures Of(s'.sent, p, c) == Of(s'.got, p, c) + Of(s'.bands[c], p, c)
    {
      assert s'.got[..|s'.got| - 1] == s.got;
      if c == b {
        OfWithout(s.bands[b], at, p, c);
      }
    }
  }

  lemma InsertKeeps(s: State, t: nat, at: nat)
    requires Inv(s) && Enabled(s, Run(t, at)) && s.pcs[t].Insert?
    ensures Inv(Step(s, Run(t, at)))
  {
    var s', m := Step(s, Run(t, at)), s.pcs[t].m;
    var b := Band(m.prio);
    Moved(s, t, SetBit(b));
    TotalUpdate(s.bands, b, s.bands[b] + [m], Len);
    forall p: nat, c: nat | c < BANDS
      ensures Of(s'.sent, p, c) == Of(s'.got, p, c) + Of(s'.bands[c], p, c)
    {
      assert s'.sent[..|s'.sent| - 1] == s.sent;
      assert (s.bands[b] + [m])[..|s.bands[b]|] == s.bands[b];
    }
  }

  /** A step that leaves bands and histories alone, and keeps the tokens in balance. */
  lemma QuietKeeps(s: State, s': State, t: nat)
    requires Inv(s) && t < |s.pcs| == |s'.pcs| && s'.pcs == s.pcs[t := s'.pcs[t]] && PcTyped(s'.pcs[t])
    requires s'.bands == s.bands && s'.sent == s.sent && s'.got == s.got
    requires forall c :: c in s'.mask ==> c < BANDS
    requires s'.tokens + HasToken(s'.pcs[t]) + OwesToken(s'.pcs[t]) == s.tokens + HasToken(s.pcs[t]) + OwesToken(s.pcs[t])
    ensures Inv(s')
  {
    Moved(s, t, s'.pcs[t]);
  }

  lemma StepKeeps(s: State, a: Action)
    requires Inv(s) && Enabled(s, a)
    ensures Inv(Step(s, a))
  {
    if a.Run? && s.pcs[a.t].Insert? {
      InsertKeeps(s, a.t, a.at);
    } else if a.Run? && (s.pcs[a.t].TryBand? || s.pcs[a.t].Scan?) && s.bands[s.pcs[a.t].b] != [] {
      TakenKeeps(s, a.t, s.pcs[a.t].b, a.at);
    } else {
      QuietKeeps(s, Step(s, a), a.t);
    }
  }

  // ---- Whole runs ----

  predicate Init(s: State) {
    && |s.bands| == BANDS && (forall b :: 0 <= b < BANDS ==> s.bands[b] == [])
    && s.mask == {} && s.tokens == 0 && s.sent == s.got == []
    && forall t :: 0 <= t < |s.pcs| ==> s.pcs[t] == Idle
  }

  predicate Feasible(s: State, run: seq<Action>)
    decreases |run|
  {
    run == [] || (Enabled(s, run[0]) && Feasible(Step(s, run[0]), run[1..]))
  }

  function Exec(s: State, run: seq<Action>): State
    requires Feasible(s, run)
    decreases |run|
  {
    if run == [] then s else Exec(Step(s, run[0]), run[1..])
  }

  lemma {:induction false} RunKeeps(s: State, run: seq<Action>)
    requires Inv(s) && Feasible(s, run)
    ensures Inv(Exec(s, run)) && |Exec(s, run).pcs| == |s.pcs|
    decreases |run|
  {
    if run != [] {
      StepKeeps(s, run[0]);
      RunKeeps(Step(s, run[0]), run[1..]);
    }
  }

  /** In every state of every interleaving the tokens match the messages and each thread's messages keep their order. */
  lemma QueueSafety(s0: State, run: seq<Action>)
    requires Init(s0) && Feasible(s0, run)
    ensures Inv(Exec(s0, run))
  {
    TotalZero(s0.bands, Len);
    TotalZero(s0.pcs, HasToken);
    TotalZero(s0.pcs, OwesToken);
    RunKeeps(s0, run);
  }

  lemma {:induction false} OfCounts(s: seq<Item>, m: Item)
    ensures multiset(Of(s, m.from, Band(m.prio)))[m] == multiset(s)[m]
  {
    if s != [] {
      OfCounts(s[..|s| - 1], m);
      assert s == s[..|s| - 1] + [s[|s| - 1]];
    }
  }

  /** No message is lost or duplicated: each is handed out or stored as often as it was sent. */
  lemma NothingLostOrDuplicated(s0: State, run: seq<Action>, m: Item)
    requires Init(s0) && Feasible(s0, run)
    ensures |Exec(s0, run).bands| == BANDS
    ensures var s := Exec(s0, run);
      multiset(s.sent)[m] == multiset(s.got)[m] + multiset(s.bands[Band(m.prio)])[m]
  {
    QueueSafety(s0, run);
    var s := Exec(s0, run);
    var b := Band(m.prio);
    OfCounts(s.sent, m);
    OfCounts(s.got, m);
    OfCounts(s.bands[b], m);
    assert Of(s.sent, m.from, b) == Of(s.got, m.from, b) + Of(s.bands[b], m.from, b);
  }

  function Calls(m: Item): Action -> nat { (a: Action) => if a == Enqueue(m.from, m.id, m.prio) then 1 else 0 }
  function Inserting(m: Item): PC -> nat { (pc: PC) => if pc == Insert(m) then 1 else 0 }
  function Being(m: Item): Item -> nat { (x: Item) => if x == m then 1 else 0 }

  lemma StepCounts(s: State, a: Action, m: Item)
    requires Enabled(s, a)
    ensures var s' := Step(s, a);
      Total(s'.sent, Being(m)) + Total(s'.pcs, Inserting(m)) == Total(s.sent, Being(m)) + Total(s.pcs, Inserting(m)) + Calls(m)(a)
  {
    var s' := Step(s, a);
    assert s'.pcs == s.pcs[a.t := s'.pcs[a.t]];
    TotalUpdate(s.pcs, a.t, s'.pcs[a.t], Inserting(m));
    if a.Run? && s.pcs[a.t].Insert? {
      assert s'.sent[..|s'.sent| - 1] == s.sent;
    }
  }

  lemma {:induction false} RunCounts(s: State, run: seq<Action>, m: Item)
    requires Feasible(s, run)
    ensures var s' := Exec(s, run);
      Total(s'.sent, Being(m)) + Total(s'.pcs, Inserting(m))
      == Total(s.sent, Being(m)) + Total(s.pcs, Inserting(m)) + Total(run, Calls(m))
    decreases |run|
  {
    if run != [] {
      StepCounts(s, run[0], m);
      RunCounts(Step(s, run[0]), run[1..], m);
      TotalFirst(run, Calls(m));
    }
  }

  lemma {:induction false} BeingCounts(list: seq<Item>, m: Item)
    ensures Total(list, Being(m)) == multiset(list)[m]
  {
    if list != [] {
      BeingCounts(list[..|list| - 1], m);
      assert list == list[..|list| - 1] + [list[|list| - 1]];
    }
  }

  /** Each call of enqueue is about to insert its message, or the message it was given is handed out or stored. */
  lemma EveryCallCounts(s0: State, run: seq<Action>, m: Item)
    requires Init(s0) && Feasible(s0, run)
    ensures |Exec(s0, run).bands| == BANDS
    ensures var s := Exec(s0, run);
      Total(run, Calls(m)) == Total(s.pcs, Inserting(m)) + multiset(s.got)[m] + multiset(s.bands[Band(m.prio)])[m]
  {
    RunCounts(s0, run, m);
    NothingLostOrDuplicated(s0, run, m);
    BeingCounts(Exec(s0, run).sent, m);
    TotalZero(s0.pcs, Inserting(m));
  }

  /** In every reachable state a thread inside a call can take its next step, and one outside can enqueue, and dequeue if there is a token. */
  lemma NeverStuck(s0: State, run: seq<Action>, t: nat, id: nat, prio: int)
    requires Init(s0) && Feasible(s0, run) && t < |Exec(s0, run).pcs|
    ensures var s := Exec(s0, run);
      if s.pcs[t] == Idle then Enabled(s, Enqueue(t, id, prio)) && (Enabled(s, Acquire(t)) <==> s.tokens > 0)
      else Enabled(s, Run(t, 0))
  {
    QueueSafety(s0, run);
    var s := Exec(s0, run);
    assert PcTyped(s.pcs[t]);
  }

  /** What a dequeuer may find in a band: the oldest message there of any one sender. */
  lemma TakesAnySendersOldest(s: State, t: nat, at: nat)
    requires Inv(s) && t < |s.pcs| && (s.pcs[t].TryBand? || s.pcs[t].Scan?) && at < |s.bands[s.pcs[t].b]|
    ensures var band := s.bands[s.pcs[t].b];
      && (Enabled(s, Run(t, at)) <==> forall j :: 0 <= j < |band| && band[j].from == band[at].from ==> at <= j)
      && (Enabled(s, Run(t, at)) ==> Step(s, Run(t, at)).got == s.got + [band[at]])
  {
  }

  /** No message is stranded: when every call has returned there is exactly one token per stored message. */
  lemma QuietMeansOneTokenEach(s0: State, run: seq<Action>)
    requires Init(s0) && Feasible(s0, run)
    requires forall t :: 0 <= t < |Exec(s0, run).pcs| ==> Exec(s0, run).pcs[t] == Idle
    ensures Exec(s0, run).tokens == Stored(Exec(s0, run))
  {
    QueueSafety(s0, run);
    TotalZero(Exec(s0, run).pcs, HasToken);
    TotalZero(Exec(s0, run).pcs, OwesToken);
  }

  // ---- A dequeuer running alone ----

  /** The run consists of steps of thread t. */
  predicate Alone(run: seq<Action>, t: nat) {
    forall i :: 0 <= i < |run| ==> run[i].Run? && run[i].t == t
  }

  /** After the run thread t has returned, with one more message handed out. */
  predicate Delivers(s: State, run: seq<Action>, t: nat) {
    && Feasible(s, run)
    && var s' := Exec(s, run);
      |s'.pcs| == |s.pcs| && t < |s'.pcs| && s'.pcs[t] == Idle && |s'.got| == |s.got| + 1
  }

  lemma RunFrom(s: State, a: Action, run: seq<Action>)
    requires Enabled(s, a) && Feasible(Step(s, a), run)
    ensures Feasible(s, [a] + run) && Exec(s, [a] + run) == Exec(Step(s, a), run)
  {
    assert ([a] + run)[1..] == run;
  }

  /** Thread t holds a token and is in the mask walk, or in the scan with a message still ahead of it. */
  ghost predicate Searching(s: State, t: nat) {
    && Inv(s) && t < |s.pcs| && (exists c :: 0 <= c < BANDS && s.bands[c] != [])
    && (s.pcs[t].LoadMask? || s.pcs[t].TryBand? || s.pcs[t].ClearBit?
        || (s.pcs[t].Scan? && exists c :: 0 <= c <= s.pcs[t].b && s.bands[c] != []))
  }

  /** An upper bound on the steps that thread t still takes if nobody else moves. */
  function Ahead(s: State, t: nat): nat
    requires t < |s.pcs|
  {
    match s.pcs[t]
    case LoadMask => 3 * |s.mask| + 12
    case TryBand(b) => 3 * |s.mask| + (if b in s.mask then 11 else 14)
    case ClearBit(b) => 3 * |s.mask| + (if b in s.mask then 10 else 13)
    case Scan(b) => b + 1
    case _ => 0
  }

  lemma ScanStep(s: State, t: nat, at: nat)
    requires Searching(s, t) && Enabled(s, Run(t, at)) && s.pcs[t].Scan? && Inv(Step(s, Run(t, at)))
    ensures Advances(s, t, Step(s, Run(t, at)))
  {
    hide Inv;
  }

  lemma WalkStep(s: State, t: nat, at: nat)
    requires Searching(s, t) && Enabled(s, Run(t, at)) && !s.pcs[t].Scan? && Inv(Step(s, Run(t, at)))
    ensures Advances(s, t, Step(s, Run(t, at)))
  {
    hide Inv;
    var s' := Step(s, Run(t, at));
    if s.pcs[t].ClearBit? && s.pcs[t].b in s.mask {
      assert s.mask == s'.mask + {s.pcs[t].b};
    }
  }

  /** One step nearer to a message, or there. */
  ghost predicate Advances(s: State, t: nat, s': State)
    requires t < |s.pcs|
  {
    && |s'.pcs| == |s.pcs| && Ahead(s', t) < Ahead(s, t)
    && if s'.pcs[t] == Idle then |s'.got| == |s.got| + 1 else Searching(s', t) && s'.got == s.got
  }

  lemma SearchStep(s: State, t: nat, at: nat)
    requires Searching(s, t) && Enabled(s, Run(t, at))
    ensures Advances(s, t, Step(s, Run(t, at)))
  {
    hide Inv, Step, Advances, Ahead;
    StepKeeps(s, Run(t, at));
    if s.pcs[t].Scan? {
      ScanStep(s, t, at);
    } else {
      WalkStep(s, t, at);
    }
  }

  /** A searching thread is never stuck. */
  lemma SearchEnabled(s: State, t: nat)
    requires Searching(s, t)
    ensures Enabled(s, Run(t, 0))
  {
  }

  /** Every run of a searching thread alone is short, ends with a message, and can go on until it does. */
  lemma {:induction false} SearchEnds(s: State, t: nat, run: seq<Action>)
    requires Searching(s, t) && Alone(run, t) && Feasible(s, run)
    ensures |run| <= Ahead(s, t)
    ensures Delivers(s, run, t) || (|run| < Ahead(s, t) && Enabled(Exec(s, run), Run(t, 0)) && Exec(s, run).got == s.got)
    decreases |run|
  {
    if run == [] {
      SearchEnabled(s, t);
      assert Ahead(s, t) > 0;
    } else {
      var s' := Step(s, run[0]);
      SearchStep(s, t, run[0].at);
      if s'.pcs[t] == Idle {
        assert forall a: Action :: a.Run? && a.t == t ==> !Enabled(s', a);
      } else {
        SearchEnds(s', t, run[1..]);
      }
    }
  }

  /** The thread is past every message: it scans below them, or is about to hand its token back. */
  ghost predicate Behind(s: State, t: nat)
    requires t < |s.pcs| && |s.bands| == BANDS
  {
    s.pcs[t].Return? || (s.pcs[t].Scan? && forall c :: 0 <= c < BANDS && c <= s.pcs[t].b ==> s.bands[c] == [])
  }

  /**
   A dequeuer that holds a token and is not past every message obtains one in every run of its own, whatever the mask says
   and whichever bit it is about to clear: no such run is longer than 44 steps, and one that has not delivered can go on.
   */
  lemma TokenHolderGetsMessage(s0: State, before: seq<Action>, t: nat, run: seq<Action>)
    requires Init(s0) && Feasible(s0, before) && t < |Exec(s0, before).pcs| && |Exec(s0, before).bands| == BANDS
    requires HasToken(Exec(s0, before).pcs[t]) == 1 && !Behind(Exec(s0, before), t)
    requires Alone(run, t) && Feasible(Exec(s0, before), run)
    ensures var s := Exec(s0, before);
      && |run| <= 44
      && (Delivers(s, run, t) || (|run| < 44 && Enabled(Exec(s, run), Run(t, 0))))
  {
    QueueSafety(s0, before);
    var s := Exec(s0, before);
    TotalAtLeast(s.pcs, t, HasToken);
    var c := TotalWitness(s.bands, Len);
    assert s.bands[c] != [];
    MaskSize(s.mask, BANDS);
    SearchEnds(s, t, run);
  }

  /** Otherwise it hands its token back, empty-handed, in every run of its own. */
  lemma {:induction false} BehindReturnsToken(s: State, t: nat, run: seq<Action>)
    requires Inv(s) && t < |s.pcs| && Behind(s, t) && Alone(run, t) && Feasible(s, run)
    ensures var n := if s.pcs[t].Return? then 1 else s.pcs[t].b + 2;
      if |run| == n then Exec(s, run) == s.(tokens := s.tokens + 1, pcs := s.pcs[t := Idle])
      else |run| < n && Enabled(Exec(s, run), Run(t, 0)) && Exec(s, run).got == s.got
    decreases |run|
  {
    hide Balanced, InOrder;
    if run != [] {
      var s' := Step(s, run[0]);
      StepKeeps(s, run[0]);
      if s.pcs[t].Return? {
        assert forall a: Action :: a.Run? && a.t == t ==> !Enabled(s', a);
      } else {
        BehindReturnsToken(s', t, run[1..]);
        assert s'.pcs[t := Idle] == s.pcs[t := Idle];
      }
    }
  }

  /** A token holder left alone until it returns has a message if and only if it was not past every one of them. */
  lemma GetsMessageExactly(s0: State, before: seq<Action>, t: nat, run: seq<Action>)
    requires Init(s0) && Feasible(s0, before) && t < |Exec(s0, before).pcs| && |Exec(s0, before).bands| == BANDS
    requires HasToken(Exec(s0, before).pcs[t]) == 1 && Alone(run, t) && Feasible(Exec(s0, before), run)
    requires var s' := Exec(Exec(s0, before), run); t < |s'.pcs| && s'.pcs[t] == Idle
    ensures Delivers(Exec(s0, before), run, t) <==> !Behind(Exec(s0, before), t)
  {
    QueueSafety(s0, before);
    var s := Exec(s0, before);
    if Behind(s, t) {
      BehindReturnsToken(s, t, run);
    } else {
      TokenHolderGetsMessage(s0, before, t, run);
    }
  }

  /** No queued message has a higher priority than m, taken between 0 and 9. */
  ghost predicate NoneHigher(s: State, m: Item) {
    forall b, i :: 0 <= b < |s.bands| && 0 <= i < |s.bands[b]| ==>
      var x := s.bands[b][i];
      x.prio <= m.prio || m.prio >= 9 || x.prio <= 0
  }

  /** The mask marks every message, and thread t looks at no band below one that has any. */
  ghost predicate SearchingTop(s: State, t: nat) {
    && Searching(s, t)
    && (s.pcs[t].Scan? || forall b :: 0 <= b < BANDS && s.bands[b] != [] ==> b in s.mask)
    && (!s.pcs[t].LoadMask? ==> forall b :: s.pcs[t].b < b < BANDS ==> s.bands[b] == [])
    && (s.pcs[t].ClearBit? ==> s.bands[s.pcs[t].b] == [])
  }

  lemma TopStep(s: State, t: nat, at: nat)
    requires SearchingTop(s, t) && Enabled(s, Run(t, at))
    ensures var s' := Step(s, Run(t, at));
      if s'.pcs[t] == Idle then |s'.got| == |s.got| + 1 && NoneHigher(s, s'.got[|s.got|])
      else SearchingTop(s', t) && s'.bands == s.bands && s'.got == s.got
  {
    SearchStep(s, t, at);
    hide Balanced, InOrder;
    var s' := Step(s, Run(t, at));
    if s'.pcs[t] == Idle {
      var b, m := s.pcs[t].b, s'.got[|s.got|];
      assert m == s.bands[b][at] && Band(m.prio) == b;
      forall c, i | 0 <= c < |s.bands| && 0 <= i < |s.bands[c]|
        ensures s.bands[c][i].prio <= m.prio || m.prio >= 9 || s.bands[c][i].prio <= 0
      {
        assert Band(s.bands[c][i].prio) == c && c <= b;
      }
    }
  }

  lemma {:induction false} TopFound(s: State, t: nat, run: seq<Action>)
    requires SearchingTop(s, t) && Alone(run, t) && Delivers(s, run, t)
    ensures NoneHigher(s, Exec(s, run).got[|s.got|])
    decreases |run|
  {
    hide Inv, SearchingTop;
    SearchingNotIdle(s, t);
    if run != [] {
      var s' := Step(s, run[0]);
      TopStep(s, t, run[0].at);
      assert Alone(run[1..], t) && Exec(s, run) == Exec(s', run[1..]);
      if s'.pcs[t] == Idle {
        FirstOfAlone(s', t, run[1..]);
      } else {
        TopFound(s', t, run[1..]);
      }
    }
  }

  lemma FirstOfAlone(s: State, t: nat, run: seq<Action>)
    requires Alone(run, t) && Feasible(s, run)
    ensures run != [] ==> Enabled(s, run[0]) && run[0].Run? && run[0].t == t
  {
  }

  lemma SearchingNotIdle(s: State, t: nat)
    requires SearchingTop(s, t)
    ensures t < |s.pcs| && s.pcs[t] != Idle
  {
  }

  /** With a complete mask a dequeuer that is left alone takes a message of the highest priority there is. */
  lemma HighestGoesFirst(s0: State, before: seq<Action>, t: nat, run: seq<Action>)
    requires Init(s0) && Feasible(s0, before) && t < |Exec(s0, before).pcs| && Exec(s0, before).pcs[t] == LoadMask
    requires |Exec(s0, before).bands| == BANDS
    requires forall b :: 0 <= b < BANDS && Exec(s0, before).bands[b] != [] ==> b in Exec(s0, before).mask
    requires Alone(run, t) && Delivers(Exec(s0, before), run, t)
    ensures NoneHigher(Exec(s0, before), Exec(Exec(s0, before), run).got[|Exec(s0, before).got|])
  {
    QueueSafety(s0, before);
    var s := Exec(s0, before);
    TotalAtLeast(s.pcs, t, HasToken);
    var c := TotalWitness(s.bands, Len);
    assert s.bands[c] != [];
    TopFound(s, t, run);
  }

  lemma {:induction false} MaskSize(mask: set<nat>, n: nat)
    requires forall c :: c in mask ==> c < n
    ensures |mask| <= n
    decreases n
  {
    if n > 0 {
      MaskSize(mask - {n - 1}, n - 1);
    }
  }

  // ---- The mask under a race ----

  /** The run so far, with the state it has reached. */
  ghost predicate Reached(s0: State, run: seq<Action>, s: State) {
    Feasible(s0, run) && Exec(s0, run) == s
  }

  lemma {:induction false} Extend(s0: State, run: seq<Action>, s: State, a: Action)
    requires Reached(s0, run, s) && Enabled(s, a)
    ensures Reached(s0, run + [a], Step(s, a))
    decreases |run|
  {
    if run == [] {
      RunFrom(s0, a, []);
    } else {
      Extend(Step(s0, run[0]), run[1..], s, a);
      assert (run + [a])[1..] == run[1..] + [a];
    }
  }

  /** Thread t enqueues a message without interruption. */
  lemma EnqueueWhole(s0: State, run: seq<Action>, s: State, t: nat, id: nat, prio: int) returns (run': seq<Action>, s': State)
    requires Reached(s0, run, s) && Typed(s) && t < |s.pcs| && s.pcs[t] == Idle
    ensures Reached(s0, run', s')
    ensures var b, m := Band(prio), Item(id, prio, t);
      s' == s.(bands := s.bands[b := s.bands[b] + [m]], mask := s.mask + {b}, tokens := s.tokens + 1, sent := s.sent + [m])
  {
    var a0, a := Enqueue(t, id, prio), Run(t, 0);
    Extend(s0, run, s, a0);
    var s1 := Step(s, a0);
    Extend(s0, run + [a0], s1, a);
    var s2 := Step(s1, a);
    Extend(s0, run + [a0] + [a], s2, a);
    var s3 := Step(s2, a);
    Extend(s0, run + [a0] + [a] + [a], s3, a);
    run', s' := run + [a0] + [a] + [a] + [a], Step(s3, a);
    assert s'.pcs == s.pcs;
  }

  /** Thread t takes a token and looks at the mask. */
  lemma AcquireAndLook(s0: State, run: seq<Action>, s: State, t: nat) returns (run': seq<Action>, s': State)
    requires Reached(s0, run, s) && Typed(s) && t < |s.pcs| && s.pcs[t] == Idle && s.tokens > 0 && s.mask != {}
    ensures Reached(s0, run', s')
    ensures s' == s.(tokens := s.tokens - 1, pcs := s.pcs[t := TryBand(Highest(s.mask, BANDS - 1))])
  {
    Extend(s0, run, s, Acquire(t));
    var s1 := Step(s, Acquire(t));
    Extend(s0, run + [Acquire(t)], s1, Run(t, 0));
    run', s' := run + [Acquire(t)] + [Run(t, 0)], Step(s1, Run(t, 0));
  }

  /** Bands that are empty but for bands 4 and 0. */
  function Two(b4: seq<Item>, b0: seq<Item>): seq<seq<Item>> {
    [b0, [], [], [], b4, [], [], [], [], []]
  }

  lemma Filled(b: seq<Item>, m: Item)
    ensures var none: seq<Item> := []; Two(none, b)[4 := none + [m]] == Two([m], b)
    ensures var none: seq<Item> := []; Two(b, none)[0 := none + [m]] == Two(b, [m])
  {
    var none: seq<Item> := [];
    assert none + [m] == [m];
  }

  const HI := Item(1, 4, 0)
  const LO := Item(2, 0, 0)
  const HI2 := Item(3, 4, 0)

  lemma TwoSent(s0: State) returns (run: seq<Action>)
    requires s0 == State(Two([], []), {}, 0, [Idle, Idle, Idle], [], [])
    ensures Reached(s0, run, State(Two([HI], [LO]), {0, 4}, 2, [Idle, Idle, Idle], [HI, LO], []))
  {
    var s: State;
    Filled([], HI);
    run, s := EnqueueWhole(s0, [], s0, 0, 1, 4);
    assert s == State(Two([HI], []), {4}, 1, [Idle, Idle, Idle], [HI], []);
    Filled([HI], LO);
    run, s := EnqueueWhole(s0, run, s, 0, 2, 0);
    assert s.sent == [HI, LO];
    assert s == State(Two([HI], [LO]), {0, 4}, 2, [Idle, Idle, Idle], [HI, LO], []);
  }

  /** Thread 1 takes the message of band 4; its bit stays set. */
  lemma FirstTaken(s0: State, before: seq<Action>) returns (run: seq<Action>)
    requires Reached(s0, before, State(Two([HI], [LO]), {0, 4}, 2, [Idle, Idle, Idle], [HI, LO], []))
    ensures Reached(s0, run, State(Two([], [LO]), {0, 4}, 1, [Idle, Idle, Idle], [HI, LO], [HI]))
  {
    var s := Exec(s0, before);
    run, s := AcquireAndLook(s0, before, s, 1);
    assert s == State(Two([HI], [LO]), {0, 4}, 1, [Idle, TryBand(4), Idle], [HI, LO], []);
    Extend(s0, run, s, Run(1, 0));
    run, s := run + [Run(1, 0)], Step(s, Run(1, 0));
    assert Without([HI], 0) == [];
    assert s.bands == Two([], [LO]) && s.got == [HI] && s.pcs == [Idle, Idle, Idle];
    assert s == State(Two([], [LO]), {0, 4}, 1, [Idle, Idle, Idle], [HI, LO], [HI]);
  }

  /** Thread 2 finds band 4 empty. */
  lemma SecondFails(s0: State, before: seq<Action>) returns (run: seq<Action>)
    requires Reached(s0, before, State(Two([], [LO]), {0, 4}, 1, [Idle, Idle, Idle], [HI, LO], [HI]))
    ensures Reached(s0, run, State(Two([], [LO]), {0, 4}, 0, [Idle, Idle, ClearBit(4)], [HI, LO], [HI]))
  {
    var s := Exec(s0, before);
    run, s := AcquireAndLook(s0, before, s, 2);
    assert s == State(Two([], [LO]), {0, 4}, 0, [Idle, Idle, TryBand(4)], [HI, LO], [HI]);
    Extend(s0, run, s, Run(2, 0));
    run, s := run + [Run(2, 0)], Step(s, Run(2, 0));
    assert s == State(Two([], [LO]), {0, 4}, 0, [Idle, Idle, ClearBit(4)], [HI, LO], [HI]);
  }

  /** Before thread 2 clears the bit, band 4 is filled again. */
  lemma BitLost(s0: State, before: seq<Action>) returns (run: seq<Action>)
    requires Reached(s0, before, State(Two([], [LO]), {0, 4}, 0, [Idle, Idle, ClearBit(4)], [HI, LO], [HI]))
    ensures Reached(s0, run, State(Two([HI2], [LO]), {0}, 1, [Idle, Idle, LoadMask], [HI, LO, HI2], [HI]))
  {
    var s := Exec(s0, before);
    Filled([LO], HI2);
    run, s := EnqueueWhole(s0, before, s, 0, 3, 4);
    assert s.sent == [HI, LO, HI2];
    assert s == State(Two([HI2], [LO]), {0, 4}, 1, [Idle, Idle, ClearBit(4)], [HI, LO, HI2], [HI]);
    Extend(s0, run, s, Run(2, 0));
    run, s := run + [Run(2, 0)], Step(s, Run(2, 0));
    assert s == State(Two([HI2], [LO]), {0}, 1, [Idle, Idle, LoadMask], [HI, LO, HI2], [HI]);
  }

  /**
   The mask can miss a non-empty band once calls overlap, and then priority is inverted: here
   every enqueue has completed, band 4 holds a message its bit no longer marks, and
   the only dequeuer at work goes on to return a message of priority 0.
   */
  lemma MaskCanMissBand() returns (s0: State, run: seq<Action>, s: State)
    ensures Init(s0) && Reached(s0, run, s) && |s.bands| == BANDS
    ensures s.pcs == [Idle, Idle, LoadMask]
    ensures s.bands[4] != [] && 4 !in s.mask
    ensures Delivers(s, [Run(2, 0), Run(2, 0)], 2)
    ensures var s' := Exec(s, [Run(2, 0), Run(2, 0)]);
      s'.got == s.got + [LO] && s'.bands == s.bands[0 := []]
  {
    s0 := State(Two([], []), {}, 0, [Idle, Idle, Idle], [], []);
    run := TwoSent(s0);
    run := FirstTaken(s0, run);
    run := SecondFails(s0, run);
    run := BitLost(s0, run);
    s := Exec(s0, run);
    LowFirst(s);
  }

  /** With the bit lost, thread 2 takes the message of priority 0. */
  lemma LowFirst(s: State)
    requires s == State(Two([HI2], [LO]), {0}, 1, [Idle, Idle, LoadMask], [HI, LO, HI2], [HI])
    ensures Delivers(s, [Run(2, 0), Run(2, 0)], 2)
    ensures var s' := Exec(s, [Run(2, 0), Run(2, 0)]);
      s'.got == s.got + [LO] && s'.bands == s.bands[0 := []]
  {
    var s1 := Step(s, Run(2, 0));
    assert s1 == s.(pcs := [Idle, Idle, TryBand(0)]);
    RunFrom(s1, Run(2, 0), []);
    RunFrom(s, Run(2, 0), [Run(2, 0)]);
  }

  // ---- Exactly when the mask loses a band ----

  ghost predicate Marking(s: State, b: nat) {
    exists t :: 0 <= t < |s.pcs| && s.pcs[t] == SetBit(b)
  }

  /** Every band that holds a message is marked, or an enqueuer is about to mark it. */
  ghost predicate BandsMarked(s: State)
    requires |s.bands| == BANDS
  {
    forall b {:trigger Marking(s, b)} :: 0 <= b < BANDS && s.bands[b] != [] ==> b in s.mask || Marking(s, b)
  }

  /** The step is the fetch_and for a band that has been filled, and marked, since the failed try. */
  ghost predicate Erases(s: State, a: Action)
    requires Enabled(s, a)
  {
    a.Run? && s.pcs[a.t].ClearBit? && s.pcs[a.t].b < BANDS && s.bands[s.pcs[a.t].b] != [] && !Marking(s, s.pcs[a.t].b)
  }

  /** A step loses a band if and only if it is such a fetch_and. */
  lemma StepMarks(s: State, a: Action)
    requires Typed(s) && Enabled(s, a) && BandsMarked(s)
    ensures BandsMarked(Step(s, a)) <==> !Erases(s, a)
  {
    var s' := Step(s, a);
    if Erases(s, a) {
      var b := s.pcs[a.t].b;
      assert s'.bands[b] != [] && b !in s'.mask;
      assert forall t :: 0 <= t < |s.pcs| && s'.pcs[t] == SetBit(b) ==> s.pcs[t] == SetBit(b);
      assert !Marking(s', b);
    } else {
      forall b | 0 <= b < BANDS && s'.bands[b] != []
        ensures b in s'.mask || Marking(s', b)
      {
        BandStaysMarked(s, a, b);
      }
    }
  }

  lemma BandStaysMarked(s: State, a: Action, b: nat)
    requires Typed(s) && Enabled(s, a) && BandsMarked(s) && !Erases(s, a) && b < BANDS && Step(s, a).bands[b] != []
    ensures b in Step(s, a).mask || Marking(Step(s, a), b)
  {
    var s' := Step(s, a);
    if s.bands[b] == [] {
      assert s'.pcs[a.t] == SetBit(b);
    } else if Marking(s, b) {
      var t :| 0 <= t < |s.pcs| && s.pcs[t] == SetBit(b);
      assert t != a.t ==> s'.pcs[t] == SetBit(b);
    }
  }

  /** The mask is complete before, during and after the run. */
  ghost predicate AlwaysComplete(s: State, run: seq<Action>)
    requires |s.bands| == BANDS && Feasible(s, run)
    decreases |run|
  {
    BandsMarked(s) && (run == [] || AlwaysComplete(Step(s, run[0]), run[1..]))
  }

  ghost predicate NeverErases(s: State, run: seq<Action>)
    requires Feasible(s, run)
    decreases |run|
  {
    run == [] || (!Erases(s, run[0]) && NeverErases(Step(s, run[0]), run[1..]))
  }

  lemma {:induction false} RunMarks(s: State, run: seq<Action>)
    requires Inv(s) && BandsMarked(s) && Feasible(s, run)
    ensures AlwaysComplete(s, run) <==> NeverErases(s, run)
    decreases |run|
  {
    if run != [] {
      StepMarks(s, run[0]);
      StepKeeps(s, run[0]);
      if !Erases(s, run[0]) {
        RunMarks(Step(s, run[0]), run[1..]);
      }
    }
  }

  /** Over every run: the mask stays complete if and only if no fetch_and hits a band that was refilled after the failed try. */
  lemma MaskCompleteExactly(s0: State, run: seq<Action>)
    requires Init(s0) && Feasible(s0, run)
    ensures AlwaysComplete(s0, run) <==> NeverErases(s0, run)
  {
    QueueSafety(s0, []);
    RunMarks(s0, run);
  }

  /** Calls do not overlap: whoever moves, all others are idle. */
  predicate OneAtATime(s: State, run: seq<Action>)
    requires Feasible(s, run)
    decreases |run|
  {
    run == [] ||
    ((forall t :: 0 <= t < |s.pcs| && t != run[0].t ==> s.pcs[t] == Idle) && OneAtATime(Step(s, run[0]), run[1..]))
  }

  /** Calls that do not overlap never lose a band. */
  lemma {:induction false} AloneNeverErases(s: State, run: seq<Action>)
    requires Inv(s) && Feasible(s, run) && OneAtATime(s, run)
    requires forall t :: 0 <= t < |s.pcs| && s.pcs[t].ClearBit? ==> s.bands[s.pcs[t].b] == []
    ensures NeverErases(s, run)
    decreases |run|
  {
    if run != [] {
      StepKeeps(s, run[0]);
      AloneNeverErases(Step(s, run[0]), run[1..]);
    }
  }
}
