/**
 DeliveryScheduler: any number of callers of enqueueOrSchedule, one worker and stop, interleaved.
 A step is what a thread does between two points where others can interfere: one clock reading, one
 critical section of the mutex, one notification. Clock readings are arguments of the steps, in no
 assumed order.
 */
module Scheduler {
  import opened Options
  import Codec

  type Tid = nat

  /** One hand-over of a message; id tells hand-overs apart. */
  datatype Msg = Msg(id: nat, deliveryTime: int, persistent: bool)

  /** Why a message was put in the queue; the argument is the clock reading that justified it. */
  datatype Reason = Unset | Due(now: int) | Clamped(now: int) | LateAfterStop

  datatype Delivery = Delivery(msg: Msg, why: Reason)

  /** An entry of the multimap; stamp is the version it was inserted at. */
  datatype Entry = Entry(stamp: nat, msg: Msg)

  datatype Caller =
    | Clamping(msg: Msg)
    | Comparing(msg: Msg, clamped: Option<int>)
    | Locking(msg: Msg)
    | Late(msg: Msg)
    | Notifying

  datatype Worker =
    | NotStarted
    | Loop
    | WaitEmpty
    | Sleep(deadline: int, readAt: int, startVersion: nat)
    | Delivering(upTo: int)
    | Hand(msg: Msg, upTo: int)
    | Exited

  datatype Stopper = NotCalled | StopNotify | Joining | Finished

  datatype Place = WithCaller(t: Tid) | Queued(k: nat) | Pending | InHand | Dropped

  datatype State = State(
    callers: map<Tid, Caller>,
    worker: Worker,
    stopper: Stopper,
    pending: seq<Entry>,
    version: nat,
    stopped: bool,
    signal: bool,
    queue: seq<Delivery>,
    place: map<nat, Place>)

  datatype Action =
    | Call(t: Tid, msg: Msg)
    | Clamp(t: Tid, now: int)
    | Compare(t: Tid, now: int)
    | Insert(t: Tid)
    | DecideLate(t: Tid)
    | Notify(t: Tid)
    | LoopTop(now: int)
    | Wake(timedOut: bool, now: int)
    | Take
    | Put
    | StopLock
    | StopNotifyAll
    | StopJoin

  const MAX_WAIT_MS := 86_400_000

  /** cappedWaitDeltaMs. */
  function CappedWait(deadline: int, now: int): (d: int)
    ensures 0 <= d <= MAX_WAIT_MS
    ensures now + d <= deadline || (d == 0 && deadline <= now)
    ensures d == 0 <==> deadline <= now
  {
    if deadline <= now then 0
    else if deadline >= now + MAX_WAIT_MS then MAX_WAIT_MS
    else deadline - now
  }

  /** emplace into the multimap: behind the entries of the same time. */
  function Inserted(pending: seq<Entry>, e: Entry): (r: seq<Entry>)
    ensures |r| == |pending| + 1
  {
    if pending == [] then [e]
    else if pending[0].msg.deliveryTime <= e.msg.deliveryTime then [pending[0]] + Inserted(pending[1..], e)
    else [e] + pending
  }

  // ---- Steps ----

  predicate Enabled(s: State, a: Action) {
    match a
    case Call(t, m) => t !in s.callers && m.id !in s.place
    case Clamp(t, _) => t in s.callers && s.callers[t].Clamping?
    case Compare(t, _) => t in s.callers && s.callers[t].Comparing?
    case Insert(t) => t in s.callers && s.callers[t].Locking?
    case DecideLate(t) => t in s.callers && s.callers[t].Late?
    case Notify(t) => t in s.callers && s.callers[t].Notifying?
    case LoopTop(_) => s.worker.Loop?
    case Wake(_, _) => s.worker.WaitEmpty? || s.worker.Sleep?
    case Take => s.worker.Delivering?
    case Put => s.worker.Hand?
    case StopLock => s.stopper.NotCalled?
    case StopNotifyAll => s.stopper.StopNotify?
    case StopJoin => s.stopper.Joining? && (s.worker.NotStarted? || s.worker.Exited?)
  }

  function Enqueue(s: State, m: Msg, why: Reason): State {
    s.(queue := s.queue + [Delivery(m, why)], place := s.place[m.id := Queued(|s.queue|)])
  }

  function Step(s: State, a: Action): State
    requires Enabled(s, a)
  {
    match a
    case Call(t, m) => s.(callers := s.callers[t := Clamping(m)], place := s.place[m.id := WithCaller(t)])
    case Clamp(t, now) =>
      var m := s.callers[t].msg;
      var garbage := m.deliveryTime > 0 && m.deliveryTime - now > Codec.MAX_FUTURE_MS;
      s.(callers := s.callers[t := Comparing(m, if garbage then Some(now) else None)])
    case Compare(t, now) =>
      var Comparing(m, clamped) := s.callers[t];
      var s1 := s.(callers := s.callers - {t});
      if clamped.Some? then Enqueue(s1, m, Clamped(clamped.value))
      else if m.deliveryTime == 0 then Enqueue(s1, m, Unset)
      else if m.deliveryTime <= now then Enqueue(s1, m, Due(now))
      else s.(callers := s.callers[t := Locking(m)])
    case Insert(t) =>
      var m := s.callers[t].msg;
      if s.stopped then s.(callers := s.callers[t := Late(m)])
      else s.(callers := s.callers[t := Notifying],
              worker := if s.worker.NotStarted? then Loop else s.worker,
              pending := Inserted(s.pending, Entry(s.version, m)),
              version := s.version + 1,
              place := s.place[m.id := Pending])
    case DecideLate(t) =>
      var m := s.callers[t].msg;
      var s1 := s.(callers := s.callers - {t});
      if m.persistent then s1.(place := s.place[m.id := Dropped]) else Enqueue(s1, m, LateAfterStop)
    case Notify(t) => s.(callers := s.callers - {t}, signal := true)
    case LoopTop(now) =>
      if s.stopped then s.(worker := Exited)
      else if s.pending == [] then s.(worker := WaitEmpty, signal := false)
      else s.(worker := Sleep(now + CappedWait(s.pending[0].msg.deliveryTime, now), now, s.version), signal := false)
    case Wake(timedOut, now) =>
      var s1 := s.(signal := false);
      if Awake(s) then s1.(worker := Loop)
      else if s.worker.Sleep? && timedOut then s1.(worker := Delivering(now))
      else s1
    case Take =>
      if s.pending != [] && s.pending[0].msg.deliveryTime <= s.worker.upTo then
        var m := s.pending[0].msg;
        s.(pending := s.pending[1..], worker := Hand(m, s.worker.upTo), place := s.place[m.id := InHand])
      else s.(worker := Loop)
    case Put => Enqueue(s.(worker := Delivering(s.worker.upTo)), s.worker.msg, Due(s.worker.upTo))
    case StopLock => s.(stopped := true, stopper := StopNotify)
    case StopNotifyAll => s.(stopper := Joining, signal := true)
    case StopJoin => s.(stopper := Finished)
  }

  /** The predicate that the waiting worker evaluates under the mutex. */
  predicate Awake(s: State) {
    || s.stopped
    || (s.worker.WaitEmpty? && s.pending != [])
    || (s.worker.Sleep? && s.version != s.worker.startVersion)
  }

  predicate Feasible(s: State, run: seq<Action>)
    decreases |run|
  {
    run == [] || (Enabled(s, run[0]) && Feasible(Step(s, run[0]), run[1..]))
  }

  function Exec(s: State, run: seq<Action>): State
    requires Feasible(s, run)
    decreases |run|
  {
    if run == [] then s else Exec(Step(s, run[0]), run[1..])
  }

  const INIT := State(map[], NotStarted, NotCalled, [], 0, false, false, [], map[])

  // ---- What holds in every reachable state ----

  /** Entries in order of time, those of the same time in order of insertion. */
  ghost predicate Before(a: Entry, b: Entry) {
    a.msg.deliveryTime < b.msg.deliveryTime || (a.msg.deliveryTime == b.msg.deliveryTime && a.stamp < b.stamp)
  }

  ghost predicate Sorted(pending: seq<Entry>) {
    forall i, j :: 0 <= i < j < |pending| ==> Before(pending[i], pending[j])
  }

  /** A delivery was justified. */
  ghost predicate Justified(d: Delivery, stopped: bool) {
    match d.why
    case Unset => d.msg.deliveryTime == 0
    case Due(now) => d.msg.deliveryTime <= now
    case Clamped(now) => d.msg.deliveryTime - now > Codec.MAX_FUTURE_MS
    case LateAfterStop => stopped && !d.msg.persistent
  }

  /** What a message's place says is true. */
  ghost predicate Found(s: State, id: nat)
    requires id in s.place
  {
    match s.place[id]
    case WithCaller(t) => t in s.callers && !s.callers[t].Notifying? && s.callers[t].msg.id == id
    case Queued(k) => k < |s.queue| && s.queue[k].msg.id == id
    case Pending => exists k :: 0 <= k < |s.pending| && s.pending[k].msg.id == id
    case InHand => s.worker.Hand? && s.worker.msg.id == id
    case Dropped => s.stopped
  }

  ghost predicate CallerOk(s: State, t: Tid)
    requires t in s.callers
  {
    var c := s.callers[t];
    && (!c.Notifying? ==> c.msg.id in s.place && s.place[c.msg.id] == WithCaller(t))
    && (c.Comparing? && c.clamped.Some? ==> c.msg.deliveryTime - c.clamped.value > Codec.MAX_FUTURE_MS)
    && (c.Late? ==> s.stopped)
  }

  ghost predicate PendingOk(s: State, k: int)
    requires 0 <= k < |s.pending|
  {
    s.pending[k].msg.id in s.place && s.place[s.pending[k].msg.id] == Pending && s.pending[k].stamp < s.version
  }

  ghost predicate QueueOk(s: State, k: int)
    requires 0 <= k < |s.queue|
  {
    && s.queue[k].msg.id in s.place && s.place[s.queue[k].msg.id] == Queued(k)
    && Justified(s.queue[k], s.stopped)
  }

  ghost predicate WorkerOk(s: State) {
    match s.worker
    case NotStarted => s.pending == []
    case Sleep(deadline, readAt, start) =>
      && start <= s.version && readAt <= deadline <= readAt + MAX_WAIT_MS
      && (s.version == start ==> s.pending != [] && (deadline <= s.pending[0].msg.deliveryTime || deadline == readAt))
    case Hand(m, upTo) => m.id in s.place && s.place[m.id] == InHand && m.deliveryTime <= upTo
    case Exited => s.stopped
    case _ => true
  }

  /** A wake-up that is due has been signalled, or somebody is about to signal it. */
  ghost predicate NoLostWakeup(s: State) {
    (s.worker.WaitEmpty? || s.worker.Sleep?) && Awake(s) ==> s.signal || s.stopper.StopNotify? || NotifierExists(s)
  }

  ghost predicate NotifierExists(s: State) {
    exists t :: t in s.callers && s.callers[t].Notifying?
  }

  ghost predicate Inv(s: State) {
    && Sorted(s.pending)
    && (forall id {:trigger Found(s, id)} :: id in s.place ==> Found(s, id))
    && (forall t {:trigger CallerOk(s, t)} :: t in s.callers ==> CallerOk(s, t))
    && (forall k {:trigger PendingOk(s, k)} :: 0 <= k < |s.pending| ==> PendingOk(s, k))
    && (forall k {:trigger QueueOk(s, k)} :: 0 <= k < |s.queue| ==> QueueOk(s, k))
    && WorkerOk(s)
    && NoLostWakeup(s)
    && (s.stopped <==> !s.stopper.NotCalled?)
    && (s.stopper.Finished? ==> s.worker.NotStarted? || s.worker.Exited?)
    && DistinctIds(s.pending)
  }

  ghost predicate DistinctIds(pending: seq<Entry>) {
    forall i, j :: 0 <= i < j < |pending| ==> pending[i].msg.id != pending[j].msg.id
  }

  lemma {:induction false} InsertSorted(pending: seq<Entry>, e: Entry)
    requires Sorted(pending) && forall k :: 0 <= k < |pending| ==> pending[k].stamp < e.stamp
    ensures Sorted(Inserted(pending, e))
  {
    if pending != [] && pending[0].msg.deliveryTime <= e.msg.deliveryTime {
      var rest := Inserted(pending[1..], e);
      InsertSorted(pending[1..], e);
      forall k | 0 <= k < |rest|
        ensures Before(pending[0], rest[k])
      {
        InsertedWhere(pending[1..], e, k);
      }
    }
  }

  /** Every element of the new multimap is the new entry or an old one, and none is repeated. */
  lemma {:induction false} InsertedWhere(pending: seq<Entry>, e: Entry, k: nat)
    requires k <= |pending|
    ensures Inserted(pending, e)[k] == e || exists j :: 0 <= j < |pending| && Inserted(pending, e)[k] == pending[j]
  {
    var r := Inserted(pending, e);
    if pending != [] && pending[0].msg.deliveryTime <= e.msg.deliveryTime {
      if k == 0 {
        assert r[0] == pending[0];
      } else {
        InsertedWhere(pending[1..], e, k - 1);
        assert r[k] == Inserted(pending[1..], e)[k - 1];
        if r[k] != e {
          var j :| 0 <= j < |pending[1..]| && r[k] == pending[1..][j];
          assert r[k] == pending[j + 1];
        }
      }
    } else {
      assert k > 0 ==> r[k] == pending[k - 1];
    }
  }

  lemma {:induction false} InsertedKeeps(pending: seq<Entry>, e: Entry, j: int)
    requires -1 <= j < |pending|
    ensures exists k :: 0 <= k <= |pending| && Inserted(pending, e)[k] == if j < 0 then e else pending[j]
  {
    if pending == [] {
      assert Inserted(pending, e)[0] == e;
    } else if pending[0].msg.deliveryTime <= e.msg.deliveryTime {
      if j == 0 {
        assert Inserted(pending, e)[0] == pending[0];
      } else {
        InsertedKeeps(pending[1..], e, if j < 0 then j else j - 1);
        var k :| 0 <= k <= |pending[1..]| && Inserted(pending[1..], e)[k] == if j < 0 then e else pending[1..][j - 1];
        assert Inserted(pending, e)[k + 1] == if j < 0 then e else pending[j];
      }
    } else {
      assert Inserted(pending, e)[j + 1] == if j < 0 then e else pending[j];
    }
  }

  lemma {:induction false} InsertedDistinct(pending: seq<Entry>, e: Entry)
    requires DistinctIds(pending) && forall k :: 0 <= k < |pending| ==> pending[k].msg.id != e.msg.id
    ensures DistinctIds(Inserted(pending, e))
  {
    if pending != [] && pending[0].msg.deliveryTime <= e.msg.deliveryTime {
      var rest := Inserted(pending[1..], e);
      InsertedDistinct(pending[1..], e);
      forall k | 0 <= k < |rest|
        ensures pending[0].msg.id != rest[k].msg.id
      {
        InsertedWhere(pending[1..], e, k);
      }
    }
  }

  // ---- Every step keeps the invariant ----

  /** Only caller t's state changes, and its message, if any, stays with it. */
  lemma CallerMoves(s: State, s': State, t: Tid)
    requires Inv(s) && t in s.callers && !s.callers[t].Notifying?
    requires t in s'.callers && s' == s.(callers := s.callers[t := s'.callers[t]])
    requires !s'.callers[t].Notifying? && s'.callers[t].msg == s.callers[t].msg && CallerOk(s', t)
    ensures Inv(s')
  {
    forall id | id in s'.place ensures Found(s', id) {
      assert Found(s, id);
    }
    forall u | u in s'.callers ensures CallerOk(s', u) {
      assert u != t ==> CallerOk(s, u);
    }
    forall k | 0 <= k < |s'.pending| ensures PendingOk(s', k) {
      assert PendingOk(s, k);
    }
    forall k | 0 <= k < |s'.queue| ensures QueueOk(s', k) {
      assert QueueOk(s, k);
    }
    if NotifierExists(s) {
      var u :| u in s.callers && s.callers[u].Notifying?;
      assert u in s'.callers && s'.callers[u].Notifying?;
    }
  }

  /** Caller t is done with its message, which is now queued or dropped. */
  lemma CallerEnds(s: State, s': State, t: Tid, why: Reason)
    requires Inv(s) && t in s.callers && !s.callers[t].Notifying?
    requires (Justified(Delivery(s.callers[t].msg, why), s.stopped)
              && s' == Enqueue(s.(callers := s.callers - {t}), s.callers[t].msg, why))
          || (s.stopped && s' == s.(callers := s.callers - {t}, place := s.place[s.callers[t].msg.id := Dropped]))
    ensures Inv(s')
  {
    var m := s.callers[t].msg;
    assert CallerOk(s, t);
    forall id | id in s'.place ensures Found(s', id) {
      if id != m.id {
        assert Found(s, id);
        if s.place[id].Queued? {
          assert s'.queue[s.place[id].k] == s.queue[s.place[id].k];
        }
      }
    }
    forall u | u in s'.callers ensures CallerOk(s', u) {
      assert CallerOk(s, u);
    }
    forall k | 0 <= k < |s'.pending| ensures PendingOk(s', k) {
      assert PendingOk(s, k);
    }
    forall k | 0 <= k < |s'.queue| ensures QueueOk(s', k) {
      if k < |s.queue| {
        assert QueueOk(s, k);
      }
    }
    if NotifierExists(s) {
      var u :| u in s.callers && s.callers[u].Notifying?;
      assert u in s'.callers && s'.callers[u].Notifying?;
    }
  }

  lemma CallKeeps(s: State, t: Tid, m: Msg)
    requires Inv(s) && Enabled(s, Call(t, m))
    ensures Inv(Step(s, Call(t, m)))
  {
    var s' := Step(s, Call(t, m));
    forall id | id in s'.place ensures Found(s', id) {
      if id != m.id {
        assert Found(s, id);
      }
    }
    forall u | u in s'.callers ensures CallerOk(s', u) {
      assert u != t ==> CallerOk(s, u);
    }
    forall k | 0 <= k < |s'.pending| ensures PendingOk(s', k) {
      assert PendingOk(s, k);
    }
    forall k | 0 <= k < |s'.queue| ensures QueueOk(s', k) {
      assert QueueOk(s, k);
    }
    if NotifierExists(s) {
      var u :| u in s.callers && s.callers[u].Notifying?;
      assert u in s'.callers && s'.callers[u].Notifying?;
    }
  }

  lemma InsertKeeps(s: State, t: Tid)
    requires Inv(s) && Enabled(s, Insert(t)) && !s.stopped
    ensures Inv(Step(s, Insert(t)))
  {
    var s', m, e := Step(s, Insert(t)), s.callers[t].msg, Entry(s.version, s.callers[t].msg);
    assert CallerOk(s, t);
    forall k | 0 <= k < |s.pending| ensures s.pending[k].stamp < e.stamp && s.pending[k].msg.id != m.id {
      assert PendingOk(s, k);
    }
    InsertSorted(s.pending, e);
    InsertedDistinct(s.pending, e);
    forall id | id in s'.place ensures Found(s', id) {
      if id == m.id {
        InsertedKeeps(s.pending, e, -1);
      } else {
        assert Found(s, id);
        if s.place[id].Pending? {
          var k :| 0 <= k < |s.pending| && s.pending[k].msg.id == id;
          InsertedKeeps(s.pending, e, k);
        }
      }
    }
    forall u | u in s'.callers ensures CallerOk(s', u) {
      assert CallerOk(s, u);
    }
    forall k | 0 <= k < |s'.pending| ensures PendingOk(s', k) {
      InsertedWhere(s.pending, e, k);
      if s'.pending[k] != e {
        var j :| 0 <= j < |s.pending| && s'.pending[k] == s.pending[j];
        assert PendingOk(s, j);
      }
    }
    forall k | 0 <= k < |s'.queue| ensures QueueOk(s', k) {
      assert QueueOk(s, k);
    }
    assert s'.callers[t].Notifying?;
  }

  lemma NotifyKeeps(s: State, t: Tid)
    requires Inv(s) && Enabled(s, Notify(t))
    ensures Inv(Step(s, Notify(t)))
  {
    var s' := Step(s, Notify(t));
    forall id | id in s'.place ensures Found(s', id) {
      assert Found(s, id);
    }
    forall u | u in s'.callers ensures CallerOk(s', u) {
      assert CallerOk(s, u);
    }
    forall k | 0 <= k < |s'.pending| ensures PendingOk(s', k) {
      assert PendingOk(s, k);
    }
    forall k | 0 <= k < |s'.queue| ensures QueueOk(s', k) {
      assert QueueOk(s, k);
    }
  }

  /** The worker or stop moves on without touching a message. */
  lemma ControlMoves(s: State, s': State)
    requires Inv(s) && !s.worker.Hand? && !s'.worker.Hand?
    requires s'.callers == s.callers && s'.pending == s.pending && s'.queue == s.queue && s'.place == s.place
    requires s'.version == s.version && (s.stopped ==> s'.stopped)
    requires WorkerOk(s') && NoLostWakeup(s') && (s'.stopped <==> !s'.stopper.NotCalled?)
    requires s'.stopper.Finished? ==> s'.worker.NotStarted? || s'.worker.Exited?
    ensures Inv(s')
  {
    forall id | id in s'.place ensures Found(s', id) {
      assert Found(s, id);
    }
    forall u | u in s'.callers ensures CallerOk(s', u) {
      assert CallerOk(s, u);
    }
    forall k | 0 <= k < |s'.pending| ensures PendingOk(s', k) {
      assert PendingOk(s, k);
    }
    forall k | 0 <= k < |s'.queue| ensures QueueOk(s', k) {
      assert QueueOk(s, k);
    }
  }

  lemma StopKeeps(s: State, a: Action)
    requires Inv(s) && Enabled(s, a) && (a.StopLock? || a.StopNotifyAll? || a.StopJoin?)
    ensures Inv(Step(s, a))
  {
    var s' := Step(s, a);
    forall id | id in s'.place ensures Found(s', id) {
      assert Found(s, id);
    }
    forall u | u in s'.callers ensures CallerOk(s', u) {
      assert CallerOk(s, u);
    }
    forall k | 0 <= k < |s'.pending| ensures PendingOk(s', k) {
      assert PendingOk(s, k);
    }
    forall k | 0 <= k < |s'.queue| ensures QueueOk(s', k) {
      assert QueueOk(s, k);
    }
    if NotifierExists(s) {
      var u :| u in s.callers && s.callers[u].Notifying?;
      assert u in s'.callers && s'.callers[u].Notifying?;
    }
  }

  lemma TakeKeeps(s: State)
    requires Inv(s) && Enabled(s, Take) && s.pending != [] && s.pending[0].msg.deliveryTime <= s.worker.upTo
    ensures Inv(Step(s, Take))
  {
    var s', m := Step(s, Take), s.pending[0].msg;
    assert PendingOk(s, 0);
    forall id | id in s'.place ensures Found(s', id) {
      if id != m.id {
        assert Found(s, id);
        if s.place[id].Pending? {
          var k :| 0 <= k < |s.pending| && s.pending[k].msg.id == id;
          assert s'.pending[k - 1] == s.pending[k];
        }
      }
    }
    forall u | u in s'.callers ensures CallerOk(s', u) {
      assert CallerOk(s, u);
    }
    forall k | 0 <= k < |s'.pending| ensures PendingOk(s', k) {
      assert PendingOk(s, k + 1);
    }
    forall k | 0 <= k < |s'.queue| ensures QueueOk(s', k) {
      assert QueueOk(s, k);
    }
  }

  lemma PutKeeps(s: State)
    requires Inv(s) && Enabled(s, Put)
    ensures Inv(Step(s, Put))
  {
    var s', m := Step(s, Put), s.worker.msg;
    forall id | id in s'.place ensures Found(s', id) {
      if id != m.id {
        assert Found(s, id);
        if s.place[id].Queued? {
          assert s'.queue[s.place[id].k] == s.queue[s.place[id].k];
        }
      }
    }
    forall u | u in s'.callers ensures CallerOk(s', u) {
      assert CallerOk(s, u);
    }
    forall k | 0 <= k < |s'.pending| ensures PendingOk(s', k) {
      assert PendingOk(s, k);
    }
    forall k | 0 <= k < |s'.queue| ensures QueueOk(s', k) {
      if k < |s.queue| {
        assert QueueOk(s, k);
      }
    }
  }

  lemma StepKeeps(s: State, a: Action)
    requires Inv(s) && Enabled(s, a)
    ensures Inv(Step(s, a))
  {
    match a {
      case Call(t, m) => CallKeeps(s, t, m);
      case Clamp(t, now) =>
        assert CallerOk(s, t);
        CallerMoves(s, Step(s, a), t);
      case Compare(t, now) => CompareKeeps(s, t, now);
      case Insert(t) =>
        if s.stopped {
          assert CallerOk(s, t);
          CallerMoves(s, Step(s, a), t);
        } else {
          InsertKeeps(s, t);
        }
      case DecideLate(t) =>
        assert CallerOk(s, t);
        CallerEnds(s, Step(s, a), t, LateAfterStop);
      case Notify(t) => NotifyKeeps(s, t);
      case LoopTop(_) => ControlMoves(s, Step(s, a));
      case Wake(_, _) => ControlMoves(s, Step(s, a));
      case Take =>
        if s.pending != [] && s.pending[0].msg.deliveryTime <= s.worker.upTo {
          TakeKeeps(s);
        } else {
          ControlMoves(s, Step(s, a));
        }
      case Put => PutKeeps(s);
      case StopLock => StopKeeps(s, a);
      case StopNotifyAll => StopKeeps(s, a);
      case StopJoin => StopKeeps(s, a);
    }
  }

  lemma CompareKeeps(s: State, t: Tid, now: int)
    requires Inv(s) && Enabled(s, Compare(t, now))
    ensures Inv(Step(s, Compare(t, now)))
  {
    var s', c := Step(s, Compare(t, now)), s.callers[t];
    assert CallerOk(s, t);
    if c.clamped.Some? {
      CallerEnds(s, s', t, Clamped(c.clamped.value));
    } else if c.msg.deliveryTime == 0 {
      CallerEnds(s, s', t, Unset);
    } else if c.msg.deliveryTime <= now {
      CallerEnds(s, s', t, Due(now));
    } else {
      CallerMoves(s, s', t);
    }
  }

  lemma {:induction false} RunKeeps(s: State, run: seq<Action>)
    requires Inv(s) && Feasible(s, run)
    ensures Inv(Exec(s, run))
    decreases |run|
  {
    if run != [] {
      StepKeeps(s, run[0]);
      RunKeeps(Step(s, run[0]), run[1..]);
    }
  }

  // ---- Main results ----

  lemma ReachableInv(run: seq<Action>)
    requires Feasible(INIT, run)
    ensures Inv(Exec(INIT, run))
  {
    RunKeeps(INIT, run);
  }

  ghost predicate HeldByCaller(s: State, id: nat) {
    exists t :: t in s.callers && !s.callers[t].Notifying? && s.callers[t].msg.id == id
  }

  ghost predicate InQueue(s: State, id: nat) {
    exists k :: 0 <= k < |s.queue| && s.queue[k].msg.id == id
  }

  ghost predicate InPending(s: State, id: nat) {
    exists k :: 0 <= k < |s.pending| && s.pending[k].msg.id == id
  }

  ghost predicate InWorkersHand(s: State, id: nat) {
    s.worker.Hand? && s.worker.msg.id == id
  }

  ghost predicate WasDropped(s: State, id: nat) {
    id in s.place && s.place[id] == Dropped
  }

  function Count(b: bool): nat {
    if b then 1 else 0
  }

  /** Every message handed in is in exactly one place, once; what is pending when stop has finished is discarded. */
  lemma ExactlyOnePlace(run: seq<Action>, id: nat)
    requires Feasible(INIT, run)
    ensures var s := Exec(INIT, run);
      && Count(HeldByCaller(s, id)) + Count(InQueue(s, id)) + Count(InPending(s, id))
         + Count(InWorkersHand(s, id)) + Count(WasDropped(s, id)) == Count(id in s.place)
      && (forall j, k :: 0 <= j < k < |s.queue| ==> s.queue[j].msg.id != s.queue[k].msg.id)
      && (forall j, k :: 0 <= j < k < |s.pending| ==> s.pending[j].msg.id != s.pending[k].msg.id)
  {
    var s := Exec(INIT, run);
    ReachableInv(run);
    forall t | t in s.callers && !s.callers[t].Notifying?
      ensures s.callers[t].msg.id in s.place && s.place[s.callers[t].msg.id] == WithCaller(t)
    {
      assert CallerOk(s, t);
    }
    forall k | 0 <= k < |s.queue|
      ensures s.queue[k].msg.id in s.place && s.place[s.queue[k].msg.id] == Queued(k)
    {
      assert QueueOk(s, k);
    }
    forall k | 0 <= k < |s.pending|
      ensures s.pending[k].msg.id in s.place && s.place[s.pending[k].msg.id] == Pending
    {
      assert PendingOk(s, k);
    }
    if id in s.place {
      assert Found(s, id);
    }
  }

  /** The message is, as it was handed in, where its place says; it is dropped only after stop, and only if the storage has it. */
  ghost predicate Carried(s: State, m: Msg) {
    m.id in s.place &&
    match s.place[m.id]
    case WithCaller(t) => t in s.callers && !s.callers[t].Notifying? && s.callers[t].msg == m
    case Queued(k) => k < |s.queue| && s.queue[k].msg == m
    case Pending => exists k :: 0 <= k < |s.pending| && s.pending[k].msg == m
    case InHand => s.worker.Hand? && s.worker.msg == m
    case Dropped => s.stopped && m.persistent
  }

  lemma StepCarries(s: State, a: Action, m: Msg)
    requires Inv(s) && Enabled(s, a) && (Carried(s, m) || (a.Call? && a.msg == m))
    ensures Carried(Step(s, a), m)
  {
    hide Sorted, NoLostWakeup, Inserted;
    match a
    case Insert(t) => InsertCarries(s, t, m);
    case Take => TakeCarries(s, m);
    case Clamp(_, _) => CallerCarries(s, a, m);
    case Compare(_, _) => CallerCarries(s, a, m);
    case DecideLate(_) => CallerCarries(s, a, m);
    case _ =>
  }

  lemma CallerCarries(s: State, a: Action, m: Msg)
    requires Inv(s) && Enabled(s, a) && Carried(s, m) && (a.Clamp? || a.Compare? || a.DecideLate?)
    ensures Carried(Step(s, a), m)
  {
    hide Sorted, NoLostWakeup, Inserted;
    assert CallerOk(s, a.t);
  }

  lemma InsertCarries(s: State, t: Tid, m: Msg)
    requires Inv(s) && Enabled(s, Insert(t)) && Carried(s, m)
    ensures Carried(Step(s, Insert(t)), m)
  {
    assert CallerOk(s, t);
    InsertedMembers(s.pending, Entry(s.version, s.callers[t].msg), m);
  }

  lemma TakeCarries(s: State, m: Msg)
    requires Inv(s) && Enabled(s, Take) && Carried(s, m)
    ensures Carried(Step(s, Take), m)
  {
    if s.pending != [] {
      assert PendingOk(s, 0);
      if s.place[m.id] == Pending {
        var k :| 0 <= k < |s.pending| && s.pending[k].msg == m;
        assert k > 0 ==> s.pending[1..][k - 1].msg == m;
      }
    }
  }

  lemma InsertedMembers(pending: seq<Entry>, e: Entry, m: Msg)
    ensures (exists k :: 0 <= k < |pending| && pending[k].msg == m) || e.msg == m ==>
      exists k :: 0 <= k < |Inserted(pending, e)| && Inserted(pending, e)[k].msg == m
  {
    InsertedMultiset(pending, e);
    if x: Entry :| x.msg == m && (x in pending || x == e) {
      assert x in multiset(Inserted(pending, e));
    }
  }

  predicate Called(run: seq<Action>, m: Msg) {
    exists k :: 0 <= k < |run| && run[k].Call? && run[k].msg == m
  }

  lemma {:induction false} RunCarries(s: State, run: seq<Action>, m: Msg)
    requires Inv(s) && Feasible(s, run) && (Carried(s, m) || Called(run, m))
    ensures Carried(Exec(s, run), m)
    decreases |run|
  {
    if run != [] {
      StepKeeps(s, run[0]);
      if Carried(s, m) || (run[0].Call? && run[0].msg == m) {
        StepCarries(s, run[0], m);
      } else {
        var k :| 0 <= k < |run| && run[k].Call? && run[k].msg == m;
        assert run[1..][k - 1] == run[k];
      }
      hide Inv, Carried, Step, Enabled;
      RunCarries(Step(s, run[0]), run[1..], m);
    }
  }

  /** Over every run, each message handed in is unchanged in one place: with its caller, pending, with the worker or queued; or dropped. */
  lemma HandedInIsCarried(run: seq<Action>, m: Msg)
    requires Feasible(INIT, run) && Called(run, m)
    ensures Carried(Exec(INIT, run), m)
  {
    ReachableInv([]);
    RunCarries(INIT, run, m);
  }

  /** Every delivery was justified: due at a clock reading, unset, absurdly far off, or late and not persistent after stop. */
  lemma DeliveriesJustified(run: seq<Action>, k: nat)
    requires Feasible(INIT, run) && k < |Exec(INIT, run).queue|
    ensures Justified(Exec(INIT, run).queue[k], Exec(INIT, run).stopped)
  {
    ReachableInv(run);
    assert QueueOk(Exec(INIT, run), k);
  }

  /**
   The worker takes an entry if and only if some entry is due, and then the earliest, of several with the same time the one
   inserted first; it goes back to its loop only when nothing is due.
   */
  lemma TakesEarliest(run: seq<Action>)
    requires Feasible(INIT, run) && Enabled(Exec(INIT, run), Take)
    ensures var s, s' := Exec(INIT, run), Step(Exec(INIT, run), Take);
      && (s'.worker.Hand? || s'.worker.Loop?)
      && (s'.worker.Hand? <==> exists k :: 0 <= k < |s.pending| && s.pending[k].msg.deliveryTime <= s.worker.upTo)
      && (s'.worker.Hand? ==>
            && s.pending != [] && s'.worker.msg == s.pending[0].msg && s'.worker.msg.deliveryTime <= s'.worker.upTo
            && s'.pending == s.pending[1..] && s'.worker.upTo == s.worker.upTo
            && forall k :: 0 < k < |s.pending| ==> Before(s.pending[0], s.pending[k]))
      && (s'.worker.Loop? ==> s'.pending == s.pending && s'.queue == s.queue)
  {
    ReachableInv(run);
    var s := Exec(INIT, run);
    if k :| 0 <= k < |s.pending| && s.pending[k].msg.deliveryTime <= s.worker.upTo {
      assert k == 0 || Before(s.pending[0], s.pending[k]);
    }
  }

  /** Every caller, the worker until it has exited, and a stop until it joins can always take their next step. */
  lemma NeverStuck(s: State, t: Tid, now: int)
    ensures t in s.callers ==>
      match s.callers[t]
      case Clamping(_) => Enabled(s, Clamp(t, now))
      case Comparing(_, _) => Enabled(s, Compare(t, now))
      case Locking(_) => Enabled(s, Insert(t))
      case Late(_) => Enabled(s, DecideLate(t))
      case Notifying => Enabled(s, Notify(t))
    ensures match s.worker
      case Loop => Enabled(s, LoopTop(now))
      case Delivering(_) => Enabled(s, Take)
      case Hand(_, _) => Enabled(s, Put)
      case NotStarted => true
      case Exited => true
      case _ => Enabled(s, Wake(true, now)) && Enabled(s, Wake(false, now))
    ensures match s.stopper
      case NotCalled => Enabled(s, StopLock)
      case StopNotify => Enabled(s, StopNotifyAll)
      case Joining => s.worker.NotStarted? || s.worker.Exited? ==> Enabled(s, StopJoin)
      case Finished => true
  {
  }

  /** A worker that wakes goes round its loop if stop was called or the map has changed under it, delivers if it timed out, and else waits on. */
  lemma WakeAnswers(s: State, timedOut: bool, now: int)
    requires Enabled(s, Wake(timedOut, now))
    ensures var s', changed := Step(s, Wake(timedOut, now)),
          if s.worker.WaitEmpty? then s.pending != [] else s.version != s.worker.startVersion;
      && s'.pending == s.pending && s'.queue == s.queue
      && s'.worker == if s.stopped || changed then Loop else if s.worker.Sleep? && timedOut then Delivering(now) else s.worker
  {
  }

  // ---- What a timed-out worker delivers ----

  /** The steps of the worker between two waits. */
  predicate DeliveringAlone(run: seq<Action>) {
    forall k :: 0 <= k < |run| ==> run[k].Take? || run[k].Put?
  }

  /** How many entries at the front are due. */
  function DueCount(pending: seq<Entry>, upTo: int): (n: nat)
    ensures n <= |pending|
  {
    if pending != [] && pending[0].msg.deliveryTime <= upTo then 1 + DueCount(pending[1..], upTo) else 0
  }

  /** In a sorted map they are all that are due. */
  lemma {:induction false} DueAtFront(pending: seq<Entry>, upTo: int)
    requires Sorted(pending)
    ensures forall k :: 0 <= k < |pending| ==> (k < DueCount(pending, upTo) <==> pending[k].msg.deliveryTime <= upTo)
  {
    if pending != [] {
      DueAtFront(pending[1..], upTo);
      forall k | 0 <= k < |pending|
        ensures k < DueCount(pending, upTo) <==> pending[k].msg.deliveryTime <= upTo
      {
        assert k > 0 ==> pending[k] == pending[1..][k - 1] && Before(pending[0], pending[k]);
      }
    }
  }

  function Delivered(due: seq<Entry>, upTo: int): seq<Delivery> {
    if due == [] then [] else [Delivery(due[0].msg, Due(upTo))] + Delivered(due[1..], upTo)
  }

  /** Take and Put alternate until nothing is due. */
  lemma {:induction false} Drains(s: State, run: seq<Action>)
    requires s.worker.Delivering? && DeliveringAlone(run) && Feasible(s, run)
    ensures var n, s' := DueCount(s.pending, s.worker.upTo), Exec(s, run);
      if |run| == 2 * n + 1 then
        s'.worker.Loop? && s'.pending == s.pending[n..] && s'.queue == s.queue + Delivered(s.pending[..n], s.worker.upTo)
      else |run| < 2 * n + 1 && Enabled(s', if |run| % 2 == 0 then Take else Put)
    decreases |run|
  {
    var n := DueCount(s.pending, s.worker.upTo);
    if |run| <= 1 {
      DrainsBriefly(s, run);
    } else {
      hide Delivered, DueCount;
      if n == 0 {
        NothingDue(s, run);
      } else {
        var s2 := OneDue(s, run);
        hide Step, Enabled, Exec, Feasible;
        Drains(s2, run[2..]);
      }
    }
  }

  lemma DrainsBriefly(s: State, run: seq<Action>)
    requires s.worker.Delivering? && DeliveringAlone(run) && Feasible(s, run) && |run| <= 1
    ensures var n, s' := DueCount(s.pending, s.worker.upTo), Exec(s, run);
      if |run| == 2 * n + 1 then
        s'.worker.Loop? && s'.pending == s.pending[n..] && s'.queue == s.queue + Delivered(s.pending[..n], s.worker.upTo)
      else |run| < 2 * n + 1 && Enabled(s', if |run| % 2 == 0 then Take else Put)
  {
    FirstStep(s, run);
    if run != [] && DueCount(s.pending, s.worker.upTo) == 0 {
      NothingDue(s, run);
    }
  }

  lemma NothingDue(s: State, run: seq<Action>)
    requires s.worker.Delivering? && DeliveringAlone(run) && Feasible(s, run) && run != [] && DueCount(s.pending, s.worker.upTo) == 0
    ensures run == [Take] && Exec(s, run) == s.(worker := Loop) && s.queue + Delivered(s.pending[..0], s.worker.upTo) == s.queue
  {
    FirstStep(s, run);
    FirstStep(Step(s, run[0]), run[1..]);
  }

  lemma OneDue(s: State, run: seq<Action>) returns (s2: State)
    requires s.worker.Delivering? && DeliveringAlone(run) && Feasible(s, run) && |run| > 1 && DueCount(s.pending, s.worker.upTo) > 0
    ensures s2.worker == s.worker && s2.pending == s.pending[1..] && DeliveringAlone(run[2..])
    ensures Feasible(s2, run[2..]) && Exec(s, run) == Exec(s2, run[2..])
    ensures var n := DueCount(s.pending, s.worker.upTo);
      && DueCount(s2.pending, s.worker.upTo) == n - 1 && s2.pending[n - 1..] == s.pending[n..]
      && s.queue + Delivered(s.pending[..n], s.worker.upTo) == s2.queue + Delivered(s2.pending[..n - 1], s.worker.upTo)
  {
    FirstStep(s, run);
    var s1 := Step(s, run[0]);
    FirstStep(s1, run[1..]);
    s2 := Step(s1, run[1]);
    assert run[1..][1..] == run[2..];
    var due := s.pending[..DueCount(s.pending, s.worker.upTo)];
    assert due[1..] == s2.pending[..|due| - 1];
    assert s.queue + ([Delivery(due[0].msg, Due(s.worker.upTo))] + Delivered(due[1..], s.worker.upTo))
        == s2.queue + Delivered(due[1..], s.worker.upTo);
  }

  lemma FirstStep(s: State, run: seq<Action>)
    requires DeliveringAlone(run) && Feasible(s, run)
    ensures run != [] ==> Enabled(s, run[0]) && (run[0].Take? || run[0].Put?)
  {
  }

  /**
   A worker that times out on an unchanged map and is then left to itself is back in its loop after a bounded number of steps,
   two for each due entry and one to see that there are no more, and by then has queued exactly the due entries, earliest
   first; until then it always has a step to take.
   */
  lemma TimedOutWorkerDelivers(run: seq<Action>, now: int, own: seq<Action>) returns (n: nat)
    requires Feasible(INIT, run) && Exec(INIT, run).worker.Sleep?
    requires !Exec(INIT, run).stopped && Exec(INIT, run).version == Exec(INIT, run).worker.startVersion
    requires DeliveringAlone(own) && Feasible(Step(Exec(INIT, run), Wake(true, now)), own)
    ensures var s := Exec(INIT, run);
      var s' := Exec(Step(s, Wake(true, now)), own);
      && n <= |s.pending| && (forall k :: 0 <= k < |s.pending| ==> (k < n <==> s.pending[k].msg.deliveryTime <= now))
      && |own| <= 2 * n + 1 && (s'.worker.Loop? <==> |own| == 2 * n + 1)
      && (s'.worker.Loop? ==>
            && s'.pending == s.pending[n..] && |s'.queue| == |s.queue| + n && s'.queue[..|s.queue|] == s.queue
            && forall k :: 0 <= k < n ==> s'.queue[|s.queue| + k] == Delivery(s.pending[k].msg, Due(now)))
      && (!s'.worker.Loop? ==> Enabled(s', Take) || Enabled(s', Put))
  {
    ReachableInv(run);
    var s := Exec(INIT, run);
    var s1 := Step(s, Wake(true, now));
    n := DueCount(s.pending, now);
    DueAtFront(s.pending, now);
    Drains(s1, own);
    DeliveredAt(s.pending[..n], now);
  }

  lemma {:induction false} DeliveredAt(due: seq<Entry>, upTo: int)
    ensures |Delivered(due, upTo)| == |due|
    ensures forall k :: 0 <= k < |due| ==> Delivered(due, upTo)[k] == Delivery(due[k].msg, Due(upTo))
  {
    if due != [] {
      DeliveredAt(due[1..], upTo);
    }
  }

  // ---- What a caller does with its message ----

  /** A hand-over whose clock readings are n1 and n2 queues the message at once, or holds it back until its time. */
  lemma DueGoesAtOnce(s: State, t: Tid, n1: int, n2: int)
    requires t in s.callers && s.callers[t].Clamping?
    ensures Enabled(s, Clamp(t, n1)) && Enabled(Step(s, Clamp(t, n1)), Compare(t, n2))
    ensures var m, s' := s.callers[t].msg, Step(Step(s, Clamp(t, n1)), Compare(t, n2));
      if m.deliveryTime == 0 || m.deliveryTime <= n2 || (m.deliveryTime > 0 && m.deliveryTime > n1 + 315_360_000_000) then
        t !in s'.callers && |s'.queue| == |s.queue| + 1 && s'.queue[..|s.queue|] == s.queue && s'.queue[|s.queue|].msg == m
      else s'.callers == s.callers[t := Locking(m)] && s'.queue == s.queue && s'.pending == s.pending
  {
  }

  /** A message held back becomes pending, in its place by time, unless stop was first; then it is delivered late, or dropped if persistent. */
  lemma HeldBackIsPending(run: seq<Action>, t: Tid)
    requires Feasible(INIT, run) && t in Exec(INIT, run).callers && Exec(INIT, run).callers[t].Locking?
    ensures var s := Exec(INIT, run);
      && Enabled(s, Insert(t))
      && var m, s1 := s.callers[t].msg, Step(s, Insert(t));
      if !s.stopped then
        && s1.callers == s.callers[t := Notifying] && s1.queue == s.queue && Sorted(s1.pending) && !s1.worker.NotStarted?
        && multiset(s1.pending) == multiset(s.pending) + multiset{Entry(s.version, m)} && s1.version > s.version
      else
        && Enabled(s1, DecideLate(t)) && s1.pending == s.pending
        && var s2 := Step(s1, DecideLate(t));
        && t !in s2.callers && s2.pending == s.pending
        && if m.persistent then s2.queue == s.queue && s2.place == s.place[m.id := Dropped]
           else s2.queue == s.queue + [Delivery(m, LateAfterStop)]
  {
    ReachableInv(run);
    var s := Exec(INIT, run);
    StepKeeps(s, Insert(t));
    InsertedMultiset(s.pending, Entry(s.version, s.callers[t].msg));
  }

  lemma {:induction false} InsertedMultiset(pending: seq<Entry>, e: Entry)
    ensures multiset(Inserted(pending, e)) == multiset(pending) + multiset{e}
  {
    if pending != [] {
      assert pending == [pending[0]] + pending[1..];
      InsertedMultiset(pending[1..], e);
    }
  }

  /** A worker asleep on an unchanged map wakes no later than the earliest entry is due, or has nothing to wait for. */
  lemma SleepsNoLongerThanNeeded(run: seq<Action>)
    requires Feasible(INIT, run)
    ensures var s := Exec(INIT, run);
      s.worker.Sleep? ==>
        && s.worker.readAt <= s.worker.deadline <= s.worker.readAt + MAX_WAIT_MS
        && (s.version == s.worker.startVersion ==>
              && s.pending != []
              && (forall k :: 0 <= k < |s.pending| ==>
                    s.worker.deadline <= s.pending[k].msg.deliveryTime || s.worker.deadline == s.worker.readAt))
  {
    ReachableInv(run);
    var s := Exec(INIT, run);
    if s.worker.Sleep? && s.version == s.worker.startVersion {
      forall k | 0 <= k < |s.pending|
        ensures s.pending[0].msg.deliveryTime <= s.pending[k].msg.deliveryTime
      {
        assert k == 0 || Before(s.pending[0], s.pending[k]);
      }
    }
  }

  /** At the top of its loop the worker exits exactly if stop was called, and else sleeps exactly if something is pending, for the earliest entry or a day. */
  lemma LoopWaitsForEarliest(run: seq<Action>, now: int)
    requires Feasible(INIT, run) && Exec(INIT, run).worker.Loop?
    ensures var s := Exec(INIT, run);
      && Enabled(s, LoopTop(now))
      && var s' := Step(s, LoopTop(now));
      && (s'.worker.Exited? <==> s.stopped)
      && (s'.worker.Sleep? <==> !s.stopped && s.pending != [])
      && (s'.worker.WaitEmpty? <==> !s.stopped && s.pending == [])
      && (s'.worker.Sleep? ==>
            && s'.worker.startVersion == s'.version && s'.pending == s.pending
            && forall k :: 0 <= k < |s.pending| ==>
                 var due := s.pending[k].msg.deliveryTime;
                 s'.worker.deadline <= due || (due <= now && s'.worker.deadline == now))
      && (s'.worker.Sleep? && s.pending[0].msg.deliveryTime > now ==>
            s'.worker.deadline == s.pending[0].msg.deliveryTime || s'.worker.deadline == now + 86_400_000)
  {
    ReachableInv(run);
    var s := Exec(INIT, run);
    forall k | 0 <= k < |s.pending| ensures s.pending[0].msg.deliveryTime <= s.pending[k].msg.deliveryTime {
      assert k == 0 || Before(s.pending[0], s.pending[k]);
    }
  }

  /** An insert or a stop makes the predicate of a waiting worker true, and the wake-up cannot get lost. */
  lemma WakeupsReachTheWorker(run: seq<Action>, a: Action)
    requires Feasible(INIT, run) && Enabled(Exec(INIT, run), a)
    ensures var s, s' := Exec(INIT, run), Step(Exec(INIT, run), a);
      && (s'.version != s.version || s'.stopped != s.stopped ==>
            (s'.worker.WaitEmpty? || s'.worker.Sleep?) ==> Awake(s'))
      && ((s'.worker.WaitEmpty? || s'.worker.Sleep?) && Awake(s') ==>
            s'.signal || s'.stopper.StopNotify? || NotifierExists(s'))
  {
    ReachableInv(run);
    StepKeeps(Exec(INIT, run), a);
  }

  lemma StepAfterStop(s: State, a: Action)
    requires Enabled(s, a) && s.stopped
    ensures var s' := Step(s, a);
      && s'.stopped && s'.version == s.version
      && (s.worker.NotStarted? ==> s'.worker.NotStarted?)
      && (s'.pending == s.pending || (s.pending != [] && s'.pending == s.pending[1..]))
      && (s.worker.Exited? || s.worker.NotStarted? ==> s'.worker == s.worker && s'.pending == s.pending)
  {
  }

  /** Once stop has set its flag no worker starts, and the pending entries only get fewer, from the front. */
  lemma {:induction false} AfterStop(s: State, run: seq<Action>) returns (taken: nat)
    requires Feasible(s, run) && s.stopped
    ensures var s' := Exec(s, run);
      && s'.stopped && (s.worker.NotStarted? ==> s'.worker.NotStarted?)
      && taken <= |s.pending| && s'.pending == s.pending[taken..]
      && (s.worker.Exited? || s.worker.NotStarted? ==> taken == 0)
    decreases |run|
  {
    if run == [] {
      taken := 0;
    } else {
      StepAfterStop(s, run[0]);
      var s1 := Step(s, run[0]);
      var rest := AfterStop(s1, run[1..]);
      taken := if s1.pending == s.pending then rest else rest + 1;
    }
  }

  predicate IsWorkers(a: Action) {
    a.LoopTop? || a.Wake? || a.Take? || a.Put?
  }

  /** How many steps of a run are the worker's. */
  function WorkerSteps(run: seq<Action>): nat {
    if run == [] then 0 else (if IsWorkers(run[0]) then 1 else 0) + WorkerSteps(run[1..])
  }

  /** An upper bound on the worker's remaining steps once the flag is set. */
  function WorkerAhead(s: State): nat {
    match s.worker
    case NotStarted => 0
    case Exited => 0
    case Loop => 1
    case Delivering(_) => 3 + 2 * |s.pending|
    case Hand(_, _) => 4 + 2 * |s.pending|
    case _ => 2
  }

  lemma WorkerStepAfterStop(s: State, a: Action)
    requires Enabled(s, a) && s.stopped
    ensures Step(s, a).stopped
    ensures WorkerAhead(Step(s, a)) + (if IsWorkers(a) then 1 else 0) <= WorkerAhead(s)
    ensures !IsWorkers(a) ==> WorkerAhead(Step(s, a)) == WorkerAhead(s)
  {
  }

  /** Until it has exited the worker always has a step to take. */
  lemma WorkerNotStuck(s: State)
    requires s.stopped && !s.worker.NotStarted? && !s.worker.Exited?
    ensures exists a :: IsWorkers(a) && Enabled(s, a)
  {
    var a := match s.worker
      case Loop => LoopTop(0)
      case Delivering(_) => Take
      case Hand(_, _) => Put
      case _ => Wake(false, 0);
    assert IsWorkers(a) && Enabled(s, a);
  }

  /**
   After stop, in every run, whatever callers do in between: the worker takes only a bounded number of steps, and until it
   has exited it can take the next one; having taken them all it has exited, so join returns.
   */
  lemma {:induction false} WorkerExits(s: State, run: seq<Action>)
    requires Feasible(s, run) && s.stopped && !s.worker.NotStarted?
    ensures WorkerSteps(run) <= WorkerAhead(s)
    ensures var s' := Exec(s, run);
      s'.worker.Exited? || (WorkerSteps(run) < WorkerAhead(s) && exists a :: IsWorkers(a) && Enabled(s', a))
    decreases |run|
  {
    if run == [] {
      if !s.worker.Exited? {
        WorkerNotStuck(s);
      }
    } else {
      WorkerStepAfterStop(s, run[0]);
      StepAfterStop(s, run[0]);
      assert !Step(s, run[0]).worker.NotStarted?;
      WorkerExits(Step(s, run[0]), run[1..]);
    }
  }
}
