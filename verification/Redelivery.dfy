/**
 Redelivery on one queue with a fixed policy: any number of consumers, transacted or not, receive, acknowledge or commit,
 recover or roll back, and are torn down; messages are counted, delayed or dead-lettered. A step is one call
 on the shared queue, the scheduler or a storage; recover and rollback take one step per message and two for
 a message that is dead-lettered.
 */
module Redelivery {
  import PQ = PriorityQueue

  type Id = nat

  /** A consumer of a transacted session, or of another one; which is fixed for its life. */
  datatype ConsumerId = Consumer(n: nat, transacted: bool)

  type Band = b: nat | b < 10

  datatype Policy = Policy(limit: int, backoffMs: int, maxBackoffMs: int, hasDlq: bool)

  /** dueAt is the delivery time in the header, 0 for at once. */
  datatype Msg = Msg(band: Band, persistent: bool, count: nat, dueAt: int)

  datatype Place =
    | Queued
    | Scheduled
    | Held(c: ConsumerId)      // received, not acknowledged
    | Walking(c: ConsumerId)   // taken off c's list by recover or rollback, not yet redelivered
    | Removing(c: ConsumerId)  // dead-lettered by c, origin record still there
    | Acked
    | Dead
    | Gone                     // its consumer was torn down
    | Expired                  // found expired by recv

  datatype Event = Redelivered(id: Id) | DlqAppend(id: Id) | NoDlq(id: Id) | OriginRemoved(id: Id)

  datatype State = State(
    queue: seq<seq<Id>>,
    held: map<ConsumerId, seq<Id>>,
    walk: map<ConsumerId, seq<Id>>,
    removing: map<ConsumerId, Id>,
    msgs: map<Id, Msg>,
    place: map<Id, Place>,
    log: seq<Event>)

  datatype Action =
    | Push(id: Id, band: Band, persistent: bool, dueAt: int)
    | Fire(id: Id)
    | Recv(c: ConsumerId, band: Band)
    | Drop(c: ConsumerId, band: Band)
    | Ack(c: ConsumerId, id: Id)
    | Commit(c: ConsumerId)
    | BeginWalk(c: ConsumerId)                           // recover, or rollback of a transacted consumer
    | Redeliver(c: ConsumerId, closing: bool, now: int)  // closing: rollback by the session's destructor
    | RemoveOrigin(c: ConsumerId)
    | Teardown(c: ConsumerId)

  function Of(m: map<ConsumerId, seq<Id>>, c: ConsumerId): seq<Id> {
    if c in m then m[c] else []
  }

  // ---- Backoff ----

  function Pow2(n: nat): (r: nat)
    ensures r > 0
  {
    if n == 0 then 1 else 2 * Pow2(n - 1)
  }

  /** The delay before redelivery number count. */
  function DelayMs(p: Policy, count: nat): int
    requires count > 0
  {
    var raw := p.backoffMs * Pow2(count - 1);
    if raw < p.maxBackoffMs then raw else p.maxBackoffMs
  }

  /** The delay starts at the policy's backoff and doubles up to the ceiling, never beyond. */
  lemma DelayDoubles(p: Policy, count: nat)
    requires count > 0 && p.backoffMs > 0
    ensures DelayMs(p, count) <= p.maxBackoffMs
    ensures count == 1 ==> DelayMs(p, count) == if p.backoffMs < p.maxBackoffMs then p.backoffMs else p.maxBackoffMs
    ensures p.maxBackoffMs >= 0 ==>
      DelayMs(p, count + 1) == if 2 * DelayMs(p, count) < p.maxBackoffMs then 2 * DelayMs(p, count) else p.maxBackoffMs
    ensures DelayMs(p, count) == p.maxBackoffMs ==> DelayMs(p, count + 1) == p.maxBackoffMs
  {
    var raw, raw' := p.backoffMs * Pow2(count - 1), p.backoffMs * Pow2(count);
    assert raw' == 2 * raw by {
      assert Pow2(count) == 2 * Pow2(count - 1);
      Double(p.backoffMs, Pow2(count - 1));
    }
    assert Pow2(0) == 1;
    Positive(p.backoffMs, Pow2(count - 1));
  }

  lemma Double(a: int, b: int)
    ensures a * (2 * b) == 2 * (a * b)
  {
  }

  lemma Positive(a: int, b: int)
    requires a > 0 && b > 0
    ensures a * b > 0
  {
  }

  // ---- Steps ----

  /** The highest band that holds a message. */
  predicate IsTop(queue: seq<seq<Id>>, b: Band)
    requires |queue| == 10
  {
    queue[b] != [] && forall x :: b < x < 10 ==> queue[x] == []
  }

  predicate Enabled(s: State, a: Action) {
    && |s.queue| == 10
    && match a
       case Push(id, _, _, _) => id !in s.place
       case Fire(id) => id in s.place && s.place[id] == Scheduled && id in s.msgs
       case Recv(c, b) => IsTop(s.queue, b) && Idle(s, c)
       case Drop(c, b) => IsTop(s.queue, b) && Idle(s, c)
       case Ack(c, id) => !c.transacted && id in Of(s.held, c) && Idle(s, c)
       case Commit(c) => c.transacted && Idle(s, c)
       case BeginWalk(c) => Idle(s, c)
       case Redeliver(c, closing, _) => (closing ==> c.transacted) && Of(s.walk, c) != [] && c !in s.removing && Of(s.walk, c)[0] in s.msgs
       case RemoveOrigin(c) => c in s.removing && s.removing[c] in s.msgs
       case Teardown(c) => Idle(s, c) && (c.transacted ==> Of(s.held, c) == [])
  }

  /** A consumer belongs to one thread: it does nothing else while it walks. */
  predicate Idle(s: State, c: ConsumerId) {
    Of(s.walk, c) == [] && c !in s.removing
  }

  function Enqueued(queue: seq<seq<Id>>, b: Band, id: Id): (r: seq<seq<Id>>)
    requires |queue| == 10
    ensures |r| == 10
  {
    queue[b := queue[b] + [id]]
  }

  function Without(list: seq<Id>, id: Id): seq<Id> {
    if list == [] then [] else if list[0] == id then list[1..] else [list[0]] + Without(list[1..], id)
  }

  function BandOf(msgs: map<Id, Msg>, id: Id): Band {
    if id in msgs then msgs[id].band else 0
  }

  /** id joins the others of its band, behind the higher bands. */
  function Joined(msgs: map<Id, Msg>, list: seq<Id>, id: Id): seq<Id> {
    if list == [] then [id]
    else if BandOf(msgs, list[0]) >= BandOf(msgs, id) then [list[0]] + Joined(msgs, list[1..], id)
    else [id] + list
  }

  /** What a consumer has received: a chain by receipt, or the transacted consumer's queue, as it will be drained. */
  function Received(c: ConsumerId, msgs: map<Id, Msg>, list: seq<Id>, id: Id): seq<Id> {
    if c.transacted then Joined(msgs, list, id) else list + [id]
  }

  function Moved(place: map<Id, Place>, from: Place, to: Place): map<Id, Place> {
    map id | id in place :: if place[id] == from then to else place[id]
  }

  function Step(p: Policy, s: State, a: Action): State
    requires Enabled(s, a)
  {
    match a
    case Push(id, b, persistent, dueAt) =>
      var s1 := s.(msgs := s.msgs[id := Msg(b, persistent, 0, dueAt)]);
      if dueAt != 0 then s1.(place := s.place[id := Scheduled])
      else s1.(queue := Enqueued(s.queue, b, id), place := s.place[id := Queued])
    case Fire(id) => s.(queue := Enqueued(s.queue, s.msgs[id].band, id), place := s.place[id := Queued])
    case Recv(c, b) =>
      var id := s.queue[b][0];
      s.(queue := s.queue[b := s.queue[b][1..]], held := s.held[c := Received(c, s.msgs, Of(s.held, c), id)],
          place := s.place[id := Held(c)])
    case Drop(c, b) =>
      var id := s.queue[b][0];
      s.(queue := s.queue[b := s.queue[b][1..]], place := s.place[id := Expired])
    case Ack(c, id) => s.(held := s.held[c := Without(Of(s.held, c), id)], place := s.place[id := Acked])
    case Commit(c) => s.(held := s.held[c := []], place := Moved(s.place, Held(c), Acked))
    case BeginWalk(c) =>
      s.(walk := s.walk[c := Of(s.held, c)], held := s.held[c := []], place := Moved(s.place, Held(c), Walking(c)))
    case Redeliver(c, closing, now) => AfterRedeliver(p, s, c, closing, now)
    case RemoveOrigin(c) =>
      var id := s.removing[c];
      var s1 := s.(removing := s.removing - {c}, place := s.place[id := Dead]);
      if s.msgs[id].persistent then s1.(log := s.log + [OriginRemoved(id)]) else s1
    case Teardown(c) => s.(held := s.held[c := []], place := Moved(s.place, Held(c), Gone))
  }

  /** redeliver, when the clock shows now: count, then dead-letter, delay or put back. */
  function AfterRedeliver(p: Policy, s: State, c: ConsumerId, closing: bool, now: int): State
    requires Enabled(s, Redeliver(c, closing, now))
  {
    var id := s.walk[c][0];
    var count := s.msgs[id].count + 1;
    var delayed := !closing && p.backoffMs > 0;
    var s1 := s.(walk := s.walk[c := s.walk[c][1..]]);
    if p.limit >= 0 && count > p.limit then
      s1.(msgs := s.msgs[id := s.msgs[id].(count := count)],
          removing := s.removing[c := id], place := s.place[id := Removing(c)],
          log := s.log + [Redelivered(id), if p.hasDlq then DlqAppend(id) else NoDlq(id)])
    else if delayed then
      s1.(msgs := s.msgs[id := s.msgs[id].(count := count, dueAt := now + DelayMs(p, count))],
          place := s.place[id := Scheduled], log := s.log + [Redelivered(id)])
    else
      s1.(msgs := s.msgs[id := s.msgs[id].(count := count, dueAt := 0)],
          queue := Enqueued(s.queue, s.msgs[id].band, id), place := s.place[id := Queued], log := s.log + [Redelivered(id)])
  }

  predicate Feasible(p: Policy, s: State, run: seq<Action>)
    decreases |run|
  {
    run == [] || (Enabled(s, run[0]) && Feasible(p, Step(p, s, run[0]), run[1..]))
  }

  function Exec(p: Policy, s: State, run: seq<Action>): State
    requires Feasible(p, s, run)
    decreases |run|
  {
    if run == [] then s else Exec(p, Step(p, s, run[0]), run[1..])
  }

  const INIT := State([[], [], [], [], [], [], [], [], [], []], map[], map[], map[], map[], map[], [])

  // ---- Places ----

  ghost predicate NoDup(list: seq<Id>) {
    forall i, j :: 0 <= i < j < |list| ==> list[i] != list[j]
  }

  ghost predicate At(s: State, id: Id, at: Place) {
    id in s.place && s.place[id] == at
  }

  ghost predicate BandOk(s: State, b: Band)
    requires |s.queue| == 10
  {
    NoDup(s.queue[b]) && forall id :: id in s.queue[b] <==> At(s, id, Queued) && id in s.msgs && s.msgs[id].band == b
  }

  ghost predicate HeldOk(s: State, c: ConsumerId) {
    NoDup(Of(s.held, c)) && forall id :: id in Of(s.held, c) <==> At(s, id, Held(c))
  }

  ghost predicate WalkOk(s: State, c: ConsumerId) {
    NoDup(Of(s.walk, c)) && forall id :: id in Of(s.walk, c) <==> At(s, id, Walking(c))
  }

  ghost predicate Removes(s: State, c: ConsumerId, id: Id) {
    c in s.removing && s.removing[c] == id
  }

  ghost predicate RemovingOk(s: State, c: ConsumerId) {
    forall id :: At(s, id, Removing(c)) <==> Removes(s, c, id)
  }

  /** Every message is in exactly the place that place says. */
  ghost predicate Placed(s: State) {
    && |s.queue| == 10 && s.place.Keys == s.msgs.Keys
    && (forall b: Band {:trigger BandOk(s, b)} :: BandOk(s, b))
    && (forall c {:trigger HeldOk(s, c)} :: HeldOk(s, c))
    && (forall c {:trigger WalkOk(s, c)} :: WalkOk(s, c))
    && (forall c {:trigger RemovingOk(s, c)} :: RemovingOk(s, c))
  }

  lemma {:induction false} WithoutOne(list: seq<Id>, id: Id)
    requires NoDup(list)
    ensures NoDup(Without(list, id)) && forall x :: x in Without(list, id) <==> x in list && x != id
  {
    if list != [] {
      WithoutOne(list[1..], id);
      assert list == [list[0]] + list[1..];
      AddFirst(list[0], Without(list[1..], id));
    }
  }

  lemma AddFirst(id: Id, list: seq<Id>)
    requires NoDup(list) && id !in list
    ensures NoDup([id] + list)
  {
  }

  lemma DropFirst(list: seq<Id>)
    requires NoDup(list) && list != []
    ensures NoDup(list[1..]) && forall x :: x in list[1..] <==> x in list && x != list[0]
  {
    assert list == [list[0]] + list[1..];
  }

  lemma AddLast(list: seq<Id>, id: Id)
    requires NoDup(list) && id !in list
    ensures NoDup(list + [id]) && forall x :: x in list + [id] <==> x in list || x == id
  {
  }

  lemma {:induction false} JoinedAt(msgs: map<Id, Msg>, list: seq<Id>, id: Id) returns (k: nat)
    ensures k <= |list| && Joined(msgs, list, id) == list[..k] + [id] + list[k..]
    ensures forall i :: 0 <= i < k ==> BandOf(msgs, list[i]) >= BandOf(msgs, id)
    ensures k < |list| ==> BandOf(msgs, list[k]) < BandOf(msgs, id)
  {
    if list == [] || BandOf(msgs, list[0]) < BandOf(msgs, id) {
      k := 0;
    } else {
      k := JoinedAt(msgs, list[1..], id);
      assert [list[0]] + (list[1..][..k] + [id] + list[1..][k..]) == list[..k + 1] + [id] + list[k + 1..];
      forall i | 0 <= i < k + 1 ensures BandOf(msgs, list[i]) >= BandOf(msgs, id) {
        assert i > 0 ==> list[i] == list[1..][i - 1];
      }
      k := k + 1;
    }
  }

  lemma InsertOne(list: seq<Id>, k: nat, id: Id)
    requires NoDup(list) && id !in list && k <= |list|
    ensures var list' := list[..k] + [id] + list[k..]; NoDup(list') && forall x :: x in list' <==> x in list || x == id
  {
    var list' := list[..k] + [id] + list[k..];
    forall i, j | 0 <= i < j < |list'| ensures list'[i] != list'[j] {
      assert list'[i] == if i < k then list[i] else if i == k then id else list[i - 1];
      assert list'[j] == if j < k then list[j] else if j == k then id else list[j - 1];
    }
    forall x ensures x in list' <==> x in list || x == id {
      assert list == list[..k] + list[k..];
    }
  }

  /** However it is kept, the list gains the message. */
  lemma ReceivedOne(c: ConsumerId, msgs: map<Id, Msg>, list: seq<Id>, id: Id)
    requires NoDup(list) && id !in list
    ensures NoDup(Received(c, msgs, list, id)) && forall x :: x in Received(c, msgs, list, id) <==> x in list || x == id
  {
    if c.transacted {
      var k := JoinedAt(msgs, list, id);
      hide Joined;
      InsertOne(list, k, id);
    } else {
      AddLast(list, id);
    }
  }

  /** Ten bands, each with messages of its own priority. */
  ghost predicate InBands(msgs: map<Id, Msg>, bands: seq<seq<Id>>) {
    |bands| == 10 && forall b, i :: 0 <= b < 10 && 0 <= i < |bands[b]| ==> BandOf(msgs, bands[b][i]) == b
  }

  lemma {:induction false} JoinedBehind(msgs: map<Id, Msg>, list: seq<Id>, rest: seq<Id>, id: Id)
    requires forall i :: 0 <= i < |list| ==> BandOf(msgs, list[i]) >= BandOf(msgs, id)
    ensures Joined(msgs, list + rest, id) == list + Joined(msgs, rest, id)
  {
    if list == [] {
      assert list + rest == rest;
    } else {
      JoinedBehind(msgs, list[1..], rest, id);
      assert (list + rest)[1..] == list[1..] + rest;
      assert [list[0]] + (list[1..] + Joined(msgs, rest, id)) == list + Joined(msgs, rest, id);
    }
  }

  lemma {:induction false} JoinedFirst(msgs: map<Id, Msg>, bands: seq<seq<Id>>, k: nat, id: Id)
    requires InBands(msgs, bands) && k <= BandOf(msgs, id)
    ensures Joined(msgs, PQ.Pending(bands, k), id) == [id] + PQ.Pending(bands, k)
  {
    if k > 0 {
      JoinedFirst(msgs, bands, k - 1, id);
      if bands[k - 1] != [] {
        assert PQ.Pending(bands, k)[0] == bands[k - 1][0];
      } else {
        assert PQ.Pending(bands, k) == PQ.Pending(bands, k - 1);
      }
    }
  }

  /** A transacted consumer's list is its ten-band queue read in the order of delivery: enqueueing is joining. */
  lemma {:induction false} JoinedIsEnqueued(msgs: map<Id, Msg>, bands: seq<seq<Id>>, k: nat, id: Id)
    requires InBands(msgs, bands) && BandOf(msgs, id) < k <= 10
    ensures PQ.Pushed(bands, k, BandOf(msgs, id), id) == Joined(msgs, PQ.Pending(bands, k), id)
    ensures PQ.Pending(bands[BandOf(msgs, id) := bands[BandOf(msgs, id)] + [id]], k) == Joined(msgs, PQ.Pending(bands, k), id)
  {
    var b := BandOf(msgs, id);
    PQ.PendingPushed(bands, k, b, id);
    JoinedBehind(msgs, bands[k - 1], PQ.Pending(bands, k - 1), id);
    if b == k - 1 {
      JoinedFirst(msgs, bands, b, id);
      assert bands[b] + [id] + PQ.Pending(bands, b) == bands[b] + ([id] + PQ.Pending(bands, b));
    } else {
      JoinedIsEnqueued(msgs, bands, k - 1, id);
    }
  }

  /** The lists and places of a step that moves one message and leaves the rest alone. */
  ghost predicate OnlyMoves(s: State, s': State, id: Id) {
    && |s.queue| == |s'.queue| == 10 && s'.place.Keys == s'.msgs.Keys == s.place.Keys + {id}
    && (forall x :: x in s.place && x != id ==> s'.place[x] == s.place[x])
    && (forall x :: x in s.msgs && x in s'.msgs ==> s'.msgs[x].band == s.msgs[x].band)
  }

  /** A list that lost, gained or never had the message. */
  ghost predicate ListFollows(list: seq<Id>, list': seq<Id>, id: Id, inNow: bool) {
    NoDup(list') && forall x :: x in list' <==> if x == id then inNow else x in list
  }

  /** If every list follows the message, every message is again where its place says. */
  lemma MovePlaced(s: State, s': State, id: Id)
    requires Placed(s) && OnlyMoves(s, s', id)
    requires forall b: Band :: ListFollows(s.queue[b], s'.queue[b], id, s'.place[id] == Queued && s'.msgs[id].band == b)
    requires forall c :: ListFollows(Of(s.held, c), Of(s'.held, c), id, s'.place[id] == Held(c))
    requires forall c :: ListFollows(Of(s.walk, c), Of(s'.walk, c), id, s'.place[id] == Walking(c))
    requires forall c, x :: Removes(s', c, x) <==> if x == id then s'.place[id] == Removing(c) else Removes(s, c, x)
    ensures Placed(s')
  {
    forall b: Band ensures BandOk(s', b) {
      assert BandOk(s, b);
      assert ListFollows(s.queue[b], s'.queue[b], id, s'.place[id] == Queued && s'.msgs[id].band == b);
      forall x ensures x in s'.queue[b] <==> At(s', x, Queued) && x in s'.msgs && s'.msgs[x].band == b {
      }
    }
    forall c ensures HeldOk(s', c) {
      assert HeldOk(s, c);
      assert ListFollows(Of(s.held, c), Of(s'.held, c), id, s'.place[id] == Held(c));
      forall x ensures x in Of(s'.held, c) <==> At(s', x, Held(c)) {
        assert x in Of(s.held, c) <==> At(s, x, Held(c));
      }
    }
    forall c ensures WalkOk(s', c) {
      assert WalkOk(s, c);
      assert ListFollows(Of(s.walk, c), Of(s'.walk, c), id, s'.place[id] == Walking(c));
      forall x ensures x in Of(s'.walk, c) <==> At(s', x, Walking(c)) {
        assert x in Of(s.walk, c) <==> At(s, x, Walking(c));
      }
    }
    forall c ensures RemovingOk(s', c) {
      assert RemovingOk(s, c);
      forall x ensures At(s', x, Removing(c)) <==> Removes(s', c, x) {
        assert At(s, x, Removing(c)) <==> Removes(s, c, x);
      }
    }
  }

  /** What the lists say about a message in a known place. */
  lemma Located(s: State, id: Id)
    requires Placed(s)
    ensures forall b: Band :: id in s.queue[b] <==> At(s, id, Queued) && s.msgs[id].band == b
    ensures forall c :: id in Of(s.held, c) <==> At(s, id, Held(c))
    ensures forall c :: id in Of(s.walk, c) <==> At(s, id, Walking(c))
    ensures forall c :: Removes(s, c, id) <==> At(s, id, Removing(c))
    ensures forall b: Band :: NoDup(s.queue[b])
    ensures forall c :: NoDup(Of(s.held, c))
    ensures forall c :: NoDup(Of(s.walk, c))
  {
    forall b: Band ensures NoDup(s.queue[b]) && (id in s.queue[b] <==> At(s, id, Queued) && s.msgs[id].band == b) {
      assert BandOk(s, b);
    }
    forall c ensures NoDup(Of(s.held, c)) && (id in Of(s.held, c) <==> At(s, id, Held(c))) {
      assert HeldOk(s, c);
    }
    forall c ensures NoDup(Of(s.walk, c)) && (id in Of(s.walk, c) <==> At(s, id, Walking(c))) {
      assert WalkOk(s, c);
    }
    forall c ensures Removes(s, c, id) <==> At(s, id, Removing(c)) {
      assert RemovingOk(s, c);
    }
  }

  /** The lists that a message neither enters nor leaves. */
  lemma ListsStay(s: State, id: Id)
    requires Placed(s)
    ensures !At(s, id, Queued) ==> forall b: Band :: ListFollows(s.queue[b], s.queue[b], id, false)
    ensures (forall c :: !At(s, id, Held(c))) ==> forall c :: ListFollows(Of(s.held, c), Of(s.held, c), id, false)
    ensures (forall c :: !At(s, id, Walking(c))) ==> forall c :: ListFollows(Of(s.walk, c), Of(s.walk, c), id, false)
    ensures forall c :: Removes(s, c, id) <==> At(s, id, Removing(c))
  {
    Located(s, id);
  }

  /** The bands when a message that was in none of them is put behind band b. */
  lemma QueueGains(s: State, b: Band, id: Id)
    requires Placed(s) && !At(s, id, Queued)
    ensures forall x: Band :: ListFollows(s.queue[x], Enqueued(s.queue, b, id)[x], id, x == b)
  {
    Located(s, id);
    AddLast(s.queue[b], id);
  }

  /** The lists of a consumer when its first walked message leaves. */
  lemma WalkLoses(s: State, c: ConsumerId)
    requires Placed(s) && Of(s.walk, c) != []
    ensures At(s, s.walk[c][0], Walking(c))
    ensures forall d :: ListFollows(Of(s.walk, d), Of(s.walk[c := s.walk[c][1..]], d), s.walk[c][0], false)
  {
    Located(s, s.walk[c][0]);
    assert s.walk[c][0] in Of(s.walk, c);
    DropFirst(s.walk[c]);
  }

  lemma PushPlaced(p: Policy, s: State, a: Action)
    requires Placed(s) && Enabled(s, a) && a.Push?
    ensures Placed(Step(p, s, a))
  {
    hide ListFollows, BandOk, HeldOk, WalkOk, RemovingOk, Enqueued;
    ListsStay(s, a.id);
    QueueGains(s, a.band, a.id);
    MovePlaced(s, Step(p, s, a), a.id);
  }

  lemma FirePlaced(p: Policy, s: State, id: Id)
    requires Placed(s) && Enabled(s, Fire(id))
    ensures Placed(Step(p, s, Fire(id)))
  {
    var s' := Step(p, s, Fire(id));
    Located(s, id);
    AddLast(s.queue[s.msgs[id].band], id);
    MovePlaced(s, s', id);
  }

  lemma RecvPlaced(p: Policy, s: State, c: ConsumerId, b: Band)
    requires Placed(s) && Enabled(s, Recv(c, b))
    ensures Placed(Step(p, s, Recv(c, b)))
  {
    var s', id := Step(p, s, Recv(c, b)), s.queue[b][0];
    Located(s, id);
    assert id in s.queue[b];
    DropFirst(s.queue[b]);
    ReceivedOne(c, s.msgs, Of(s.held, c), id);
    hide Received, Joined;
    MovePlaced(s, s', id);
  }

  lemma DropPlaced(p: Policy, s: State, c: ConsumerId, b: Band)
    requires Placed(s) && Enabled(s, Drop(c, b))
    ensures Placed(Step(p, s, Drop(c, b)))
  {
    var s', id := Step(p, s, Drop(c, b)), s.queue[b][0];
    Located(s, id);
    assert id in s.queue[b];
    DropFirst(s.queue[b]);
    MovePlaced(s, s', id);
  }

  lemma AckPlaced(p: Policy, s: State, c: ConsumerId, id: Id)
    requires Placed(s) && Enabled(s, Ack(c, id))
    ensures Placed(Step(p, s, Ack(c, id)))
  {
    var s' := Step(p, s, Ack(c, id));
    Located(s, id);
    WithoutOne(Of(s.held, c), id);
    MovePlaced(s, s', id);
  }

  /** The three outcomes of a redelivery, as changes of place. */
  lemma WalkToRemoving(s: State, s': State, c: ConsumerId, id: Id)
    requires Placed(s) && Of(s.walk, c) != [] && id == s.walk[c][0] && c !in s.removing
    requires s'.queue == s.queue && s'.held == s.held && s'.walk == s.walk[c := s.walk[c][1..]]
    requires s'.removing == s.removing[c := id] && s'.place == s.place[id := Removing(c)] && OnlyMoves(s, s', id)
    ensures Placed(s')
  {
    hide ListFollows, BandOk, HeldOk, WalkOk, RemovingOk;
    WalkLoses(s, c);
    ListsStay(s, id);
    MovePlaced(s, s', id);
  }

  lemma WalkToScheduled(s: State, s': State, c: ConsumerId, id: Id)
    requires Placed(s) && Of(s.walk, c) != [] && id == s.walk[c][0]
    requires s'.queue == s.queue && s'.held == s.held && s'.walk == s.walk[c := s.walk[c][1..]]
    requires s'.removing == s.removing && s'.place == s.place[id := Scheduled] && OnlyMoves(s, s', id)
    ensures Placed(s')
  {
    hide ListFollows, BandOk, HeldOk, WalkOk, RemovingOk;
    WalkLoses(s, c);
    ListsStay(s, id);
    MovePlaced(s, s', id);
  }

  lemma WalkToQueue(s: State, s': State, c: ConsumerId, id: Id)
    requires Placed(s) && Of(s.walk, c) != [] && id == s.walk[c][0] && OnlyMoves(s, s', id) && id in s.msgs
    requires s'.queue == Enqueued(s.queue, s.msgs[id].band, id) && s'.held == s.held && s'.walk == s.walk[c := s.walk[c][1..]]
    requires s'.removing == s.removing && s'.place == s.place[id := Queued]
    ensures Placed(s')
  {
    hide ListFollows, BandOk, HeldOk, WalkOk, RemovingOk, Enqueued;
    WalkLoses(s, c);
    ListsStay(s, id);
    QueueGains(s, s.msgs[id].band, id);
    MovePlaced(s, s', id);
  }

  lemma RedeliverPlaced(p: Policy, s: State, c: ConsumerId, closing: bool, now: int)
    requires Placed(s) && Enabled(s, Redeliver(c, closing, now))
    ensures Placed(Step(p, s, Redeliver(c, closing, now)))
  {
    hide BandOk, HeldOk, WalkOk, RemovingOk, Enqueued;
    var s', id := Step(p, s, Redeliver(c, closing, now)), s.walk[c][0];
    WalkLoses(s, c);
    assert OnlyMoves(s, s', id);
    if p.limit >= 0 && s.msgs[id].count + 1 > p.limit {
      WalkToRemoving(s, s', c, id);
    } else if !closing && p.backoffMs > 0 {
      WalkToScheduled(s, s', c, id);
    } else {
      WalkToQueue(s, s', c, id);
    }
  }

  lemma RemoveOriginPlaced(p: Policy, s: State, c: ConsumerId)
    requires Placed(s) && Enabled(s, RemoveOrigin(c))
    ensures Placed(Step(p, s, RemoveOrigin(c)))
  {
    var s', id := Step(p, s, RemoveOrigin(c)), s.removing[c];
    Located(s, id);
    assert Removes(s, c, id);
    MovePlaced(s, s', id);
  }

  /** A whole list changes hands at once. */
  lemma ListMovesPlaced(p: Policy, s: State, a: Action)
    requires Placed(s) && Enabled(s, a) && (a.BeginWalk? || a.Teardown? || a.Commit?)
    ensures Placed(Step(p, s, a))
  {
    var s' := Step(p, s, a);
    assert HeldOk(s, a.c) && WalkOk(s, a.c);
    forall b: Band ensures BandOk(s', b) {
      assert BandOk(s, b);
    }
    forall c ensures HeldOk(s', c) {
      assert HeldOk(s, c);
    }
    forall c ensures WalkOk(s', c) {
      assert WalkOk(s, c) && HeldOk(s, c);
      forall x ensures x in Of(s'.walk, c) <==> At(s', x, Walking(c)) {
        assert x in Of(s.walk, c) <==> At(s, x, Walking(c));
        assert x in Of(s.held, c) <==> At(s, x, Held(c));
      }
    }
    forall c ensures RemovingOk(s', c) {
      assert RemovingOk(s, c);
      forall x ensures At(s', x, Removing(c)) <==> Removes(s', c, x) {
        assert At(s, x, Removing(c)) <==> Removes(s, c, x);
      }
    }
  }

  lemma StepPlaced(p: Policy, s: State, a: Action)
    requires Placed(s) && Enabled(s, a)
    ensures Placed(Step(p, s, a))
  {
    hide Placed, Step;
    match a
    case Push(_, _, _, _) => PushPlaced(p, s, a);
    case Fire(id) => FirePlaced(p, s, id);
    case Recv(c, b) => RecvPlaced(p, s, c, b);
    case Drop(c, b) => DropPlaced(p, s, c, b);
    case Ack(c, id) => AckPlaced(p, s, c, id);
    case Commit(_) => ListMovesPlaced(p, s, a);
    case BeginWalk(_) => ListMovesPlaced(p, s, a);
    case Redeliver(c, closing, now) => RedeliverPlaced(p, s, c, closing, now);
    case RemoveOrigin(c) => RemoveOriginPlaced(p, s, c);
    case Teardown(_) => ListMovesPlaced(p, s, a);
  }

  // ---- Counts and dead letters ----

  /** How often the message was redelivered so far. */
  function Times(log: seq<Event>, id: Id): nat {
    if log == [] then 0 else Times(log[..|log| - 1], id) + (if log[|log| - 1] == Redelivered(id) then 1 else 0)
  }

  lemma TimesNext(log: seq<Event>, e: Event, id: Id)
    ensures Times(log + [e], id) == Times(log, id) + (if e == Redelivered(id) then 1 else 0)
  {
    assert (log + [e])[..|log|] == log;
  }

  /** The message went to the dead-letter queue, or was dropped for want of one. */
  predicate Buried(p: Policy, e: Event, id: Id) {
    e == if p.hasDlq then DlqAppend(id) else NoDlq(id)
  }

  ghost predicate CountOk(p: Policy, s: State, id: Id)
    requires id in s.place && id in s.msgs
  {
    && s.msgs[id].count == Times(s.log, id)
    && (p.limit >= 0 ==>
          if s.place[id].Removing? || s.place[id].Dead? then s.msgs[id].count == p.limit + 1
          else s.msgs[id].count <= p.limit)
    && (s.place[id].Removing? || s.place[id].Dead? ==> exists i :: 0 <= i < |s.log| && Buried(p, s.log[i], id))
  }

  ghost predicate EventOk(p: Policy, s: State, j: nat)
    requires j < |s.log|
  {
    match s.log[j]
    case OriginRemoved(id) => At(s, id, Dead) && exists i :: 0 <= i < j && Buried(p, s.log[i], id)
    case Redelivered(id) => id in s.place
    case DlqAppend(id) => id in s.place && (s.place[id].Removing? || s.place[id].Dead?)
    case NoDlq(id) => id in s.place && (s.place[id].Removing? || s.place[id].Dead?)
  }

  ghost predicate Counted(p: Policy, s: State) {
    && (forall id {:trigger CountOk(p, s, id)} :: id in s.place && id in s.msgs ==> CountOk(p, s, id))
    && (forall j {:trigger EventOk(p, s, j)} :: 0 <= j < |s.log| ==> EventOk(p, s, j))
  }

  ghost predicate Inv(p: Policy, s: State) {
    Placed(s) && Counted(p, s)
  }

  /** A step that neither counts nor logs nor touches dead letters. */
  lemma QuietCounted(p: Policy, s: State, s': State)
    requires Counted(p, s) && s.place.Keys == s.msgs.Keys && s'.log == s.log
    requires forall id :: id in s.place ==> id in s'.place && id in s'.msgs && s'.msgs[id].count == s.msgs[id].count
    requires forall id :: id in s.place && (s.place[id].Removing? || s.place[id].Dead?) ==> s'.place[id] == s.place[id]
    requires forall id :: id in s'.place && (id !in s.place || !(s.place[id].Removing? || s.place[id].Dead?)) ==>
      !(s'.place[id].Removing? || s'.place[id].Dead?)
    requires forall id :: id in s'.msgs && id !in s.place ==> s'.msgs[id].count == 0
    ensures Counted(p, s')
  {
    forall j | 0 <= j < |s'.log| ensures EventOk(p, s', j) {
      assert EventOk(p, s, j);
    }
    forall id | id in s'.place && id in s'.msgs ensures CountOk(p, s', id) {
      if id in s.place {
        assert CountOk(p, s, id);
      } else {
        NeverLogged(p, s, id, |s.log|);
      }
    }
  }

  lemma {:induction false} NeverLogged(p: Policy, s: State, id: Id, n: nat)
    requires Counted(p, s) && id !in s.place && n <= |s.log|
    ensures Times(s.log[..n], id) == 0 && s.log[..|s.log|] == s.log
  {
    if n > 0 {
      NeverLogged(p, s, id, n - 1);
      assert s.log[..n][..n - 1] == s.log[..n - 1];
      assert EventOk(p, s, n - 1);
    }
  }

  /** The log grows; a message that is being buried stays buried. */
  ghost predicate Grows(s: State, s': State) {
    && s.log <= s'.log
    && (forall x :: x in s.place ==> x in s'.place)
    && (forall x :: x in s.place && s.place[x].Dead? ==> s'.place[x].Dead?)
    && (forall x :: x in s.place && s.place[x].Removing? ==> s'.place[x].Removing? || s'.place[x].Dead?)
  }

  lemma EventStays(p: Policy, s: State, s': State, j: nat)
    requires j < |s.log| && EventOk(p, s, j) && Grows(s, s')
    ensures EventOk(p, s', j)
  {
    if s.log[j].OriginRemoved? {
      var i :| 0 <= i < j && Buried(p, s.log[i], s.log[j].id);
      assert Buried(p, s'.log[i], s.log[j].id);
    }
  }

  lemma CountStays(p: Policy, s: State, s': State, x: Id)
    requires x in s.place && x in s.msgs && CountOk(p, s, x) && Grows(s, s')
    requires x in s'.msgs && s'.msgs[x] == s.msgs[x] && Times(s'.log, x) == Times(s.log, x)
    requires (s'.place[x].Removing? || s'.place[x].Dead?) == (s.place[x].Removing? || s.place[x].Dead?)
    ensures CountOk(p, s', x)
  {
    if s.place[x].Removing? || s.place[x].Dead? {
      var i :| 0 <= i < |s.log| && Buried(p, s.log[i], x);
      assert Buried(p, s'.log[i], x);
    }
  }

  /** What redelivering id does to its count, its place and the log. */
  ghost predicate Redelivers(p: Policy, s: State, s': State, id: Id) {
    && id in s.place && id in s.msgs && !s.place[id].Removing? && !s.place[id].Dead? && id in s'.place && id in s'.msgs
    && s'.msgs == s.msgs[id := s.msgs[id].(count := s.msgs[id].count + 1, dueAt := s'.msgs[id].dueAt)]
    && s'.place == s.place[id := s'.place[id]]
    && if p.limit >= 0 && s.msgs[id].count + 1 > p.limit
       then s'.place[id].Removing? && s'.log == s.log + [Redelivered(id), if p.hasDlq then DlqAppend(id) else NoDlq(id)]
       else (s'.place[id].Queued? || s'.place[id].Scheduled?) && s'.log == s.log + [Redelivered(id)]
  }

  lemma RedeliversCounted(p: Policy, s: State, s': State, id: Id)
    requires Counted(p, s) && s.place.Keys == s.msgs.Keys && Redelivers(p, s, s', id)
    ensures Counted(p, s')
  {
    assert CountOk(p, s, id);
    assert Grows(s, s');
    forall x | x in s'.place && x in s'.msgs ensures CountOk(p, s', x) {
      assert CountOk(p, s, x);
      RedeliversCount(p, s, s', id, x);
    }
    hide CountOk;
    forall j | 0 <= j < |s'.log| ensures EventOk(p, s', j) {
      if j < |s.log| {
        assert EventOk(p, s, j);
        EventStays(p, s, s', j);
      }
    }
  }

  lemma RedeliversCount(p: Policy, s: State, s': State, id: Id, x: Id)
    requires Redelivers(p, s, s', id) && Grows(s, s') && x in s.place && x in s.msgs && CountOk(p, s, x)
    ensures CountOk(p, s', x)
  {
    RedeliverTimes(s.log, s'.log, id, x);
    if x == id {
      assert s'.place[x].Removing? ==> Buried(p, s'.log[|s.log| + 1], x);
    } else {
      CountStays(p, s, s', x);
    }
  }

  lemma RedeliverCounted(p: Policy, s: State, c: ConsumerId, closing: bool, now: int)
    requires Inv(p, s) && Enabled(s, Redeliver(c, closing, now))
    ensures Counted(p, Step(p, s, Redeliver(c, closing, now)))
  {
    hide Counted, ListFollows;
    WalkLoses(s, c);
    RedeliversCounted(p, s, Step(p, s, Redeliver(c, closing, now)), s.walk[c][0]);
  }

  lemma RedeliverTimes(log: seq<Event>, log': seq<Event>, id: Id, x: Id)
    requires log' == log + [Redelivered(id)] || log' == log + [Redelivered(id), DlqAppend(id)] || log' == log + [Redelivered(id), NoDlq(id)]
    ensures Times(log', x) == Times(log, x) + if x == id then 1 else 0
  {
    var log1 := log + [Redelivered(id)];
    TimesNext(log, Redelivered(id), x);
    if log' != log1 {
      TimesNext(log1, log'[|log| + 1], x);
      assert log' == log1 + [log'[|log| + 1]];
    }
  }

  /** What removing the origin record of a dead-lettered message does. */
  ghost predicate Buries(s: State, s': State, id: Id) {
    && id in s.place && s.place[id].Removing? && s'.msgs == s.msgs && s'.place == s.place[id := Dead]
    && (s'.log == s.log || s'.log == s.log + [OriginRemoved(id)])
  }

  lemma BuriesCounted(p: Policy, s: State, s': State, id: Id)
    requires Counted(p, s) && s.place.Keys == s.msgs.Keys && Buries(s, s', id)
    ensures Counted(p, s')
  {
    var n := |s.log|;
    assert CountOk(p, s, id);
    var k :| 0 <= k < n && Buried(p, s.log[k], id);
    assert Grows(s, s');
    forall x | x in s'.place && x in s'.msgs ensures CountOk(p, s', x) {
      assert CountOk(p, s, x);
      TimesNext(s.log, OriginRemoved(id), x);
      CountStays(p, s, s', x);
    }
    forall j | 0 <= j < |s'.log| ensures EventOk(p, s', j) {
      if j < n {
        assert EventOk(p, s, j);
        EventStays(p, s, s', j);
      } else {
        assert Buried(p, s'.log[k], id);
      }
    }
  }

  lemma RemoveOriginCounted(p: Policy, s: State, c: ConsumerId)
    requires Inv(p, s) && Enabled(s, RemoveOrigin(c))
    ensures Counted(p, Step(p, s, RemoveOrigin(c)))
  {
    hide Counted;
    assert RemovingOk(s, c);
    assert Removes(s, c, s.removing[c]) && At(s, s.removing[c], Removing(c));
    BuriesCounted(p, s, Step(p, s, RemoveOrigin(c)), s.removing[c]);
  }

  lemma StepCounted(p: Policy, s: State, a: Action)
    requires Inv(p, s) && Enabled(s, a)
    ensures Counted(p, Step(p, s, a))
  {
    hide Placed, Counted, Step;
    match a
    case Redeliver(c, closing, now) => RedeliverCounted(p, s, c, closing, now);
    case RemoveOrigin(c) => RemoveOriginCounted(p, s, c);
    case Recv(_, _) => TakeCounted(p, s, a);
    case Drop(_, _) => TakeCounted(p, s, a);
    case Ack(_, _) => TakeCounted(p, s, a);
    case Push(_, _, _, _) => MoveCounted(p, s, a);
    case Fire(_) => MoveCounted(p, s, a);
    case Commit(_) => MoveCounted(p, s, a);
    case BeginWalk(_) => MoveCounted(p, s, a);
    case Teardown(_) => MoveCounted(p, s, a);
  }

  lemma TakeCounted(p: Policy, s: State, a: Action)
    requires Inv(p, s) && Enabled(s, a) && (a.Recv? || a.Drop? || a.Ack?)
    ensures Counted(p, Step(p, s, a))
  {
    hide Counted;
    var id := if a.Ack? then a.id else s.queue[a.band][0];
    Located(s, id);
    assert !a.Ack? ==> id in s.queue[a.band];
    QuietCounted(p, s, Step(p, s, a));
  }

  lemma MoveCounted(p: Policy, s: State, a: Action)
    requires Inv(p, s) && Enabled(s, a) && (a.Push? || a.Fire? || a.BeginWalk? || a.Teardown? || a.Commit?)
    ensures Counted(p, Step(p, s, a))
  {
    hide Counted;
    QuietCounted(p, s, Step(p, s, a));
  }

  lemma {:induction false} RunKeeps(p: Policy, s: State, run: seq<Action>)
    requires Inv(p, s) && Feasible(p, s, run)
    ensures Inv(p, Exec(p, s, run))
    decreases |run|
  {
    if run != [] {
      StepPlaced(p, s, run[0]);
      StepCounted(p, s, run[0]);
      RunKeeps(p, Step(p, s, run[0]), run[1..]);
    }
  }

  lemma ReachableInv(p: Policy, run: seq<Action>)
    requires Feasible(p, INIT, run)
    ensures Inv(p, Exec(p, INIT, run))
  {
    forall b: Band ensures BandOk(INIT, b) {
      assert INIT.queue[b] == [];
    }
    RunKeeps(p, INIT, run);
  }

  // ---- Main results ----

  /** A message can still be delivered, or is on its way to being redelivered. */
  ghost predicate Circulates(s: State, id: Id) {
    id in s.place && (s.place[id].Queued? || s.place[id].Scheduled? || s.place[id].Held? || s.place[id].Walking?)
  }

  /** Every message is in exactly one list, at one position, or in none because it is scheduled or finished. */
  lemma OnePlaceEach(p: Policy, run: seq<Action>, id: Id)
    requires Feasible(p, INIT, run) && id in Exec(p, INIT, run).place
    ensures var s := Exec(p, INIT, run);
      && |s.queue| == 10 && id in s.msgs
      && (forall b: Band :: NoDup(s.queue[b]) && (id in s.queue[b] <==> s.place[id] == Queued && s.msgs[id].band == b))
      && (forall c :: NoDup(Of(s.held, c)) && (id in Of(s.held, c) <==> s.place[id] == Held(c)))
      && (forall c :: NoDup(Of(s.walk, c)) && (id in Of(s.walk, c) <==> s.place[id] == Walking(c)))
      && (forall c :: Removes(s, c, id) <==> s.place[id] == Removing(c))
  {
    ReachableInv(p, run);
    Located(Exec(p, INIT, run), id);
  }

  /** The count is the number of redeliveries and stays within the limit while the message circulates. */
  lemma CountWithinLimit(p: Policy, run: seq<Action>, id: Id)
    requires Feasible(p, INIT, run) && id in Exec(p, INIT, run).msgs
    ensures var s := Exec(p, INIT, run);
      && s.msgs[id].count == Times(s.log, id)
      && (p.limit >= 0 && Circulates(s, id) ==> s.msgs[id].count <= p.limit)
      && (p.limit >= 0 && At(s, id, Dead) ==> s.msgs[id].count == p.limit + 1)
  {
    ReachableInv(p, run);
    var s := Exec(p, INIT, run);
    assert id in s.place by {
      assert s.place.Keys == s.msgs.Keys;
    }
    assert CountOk(p, s, id);
  }

  /** Redelivery number limit + 1 buries the message instead of delivering it, and no earlier one does. */
  lemma LimitBuries(p: Policy, run: seq<Action>, c: ConsumerId, closing: bool, now: int)
    requires Feasible(p, INIT, run) && p.limit >= 0 && Enabled(Exec(p, INIT, run), Redeliver(c, closing, now))
    ensures var s := Exec(p, INIT, run);
      var s', id := Step(p, s, Redeliver(c, closing, now)), s.walk[c][0];
      && id in s'.place
      && (At(s', id, Removing(c)) <==> Times(s'.log, id) == p.limit + 1)
      && (Circulates(s', id) <==> Times(s'.log, id) <= p.limit)
  {
    ReachableInv(p, run);
    hide Exec, Feasible, Placed, Counted, Step;
    BuriesAtLimit(p, Exec(p, INIT, run), c, closing, now);
  }

  lemma BuriesAtLimit(p: Policy, s: State, c: ConsumerId, closing: bool, now: int)
    requires Inv(p, s) && p.limit >= 0 && Enabled(s, Redeliver(c, closing, now))
    ensures var s', id := Step(p, s, Redeliver(c, closing, now)), s.walk[c][0];
      && id in s'.place
      && (At(s', id, Removing(c)) <==> Times(s'.log, id) == p.limit + 1)
      && (Circulates(s', id) <==> Times(s'.log, id) <= p.limit)
  {
    var s', id := Step(p, s, Redeliver(c, closing, now)), s.walk[c][0];
    WalkLoses(s, c);
    assert CountOk(p, s, id);
    RedeliverTimes(s.log, s'.log, id, id);
  }

  /** A redelivery with backoff is due min(backoffMs * 2^(n-1), maxBackoffMs) after the clock reading, n being its number; one without is due at once. */
  lemma BackoffApplied(p: Policy, run: seq<Action>, c: ConsumerId, closing: bool, now: int)
    requires Feasible(p, INIT, run) && Enabled(Exec(p, INIT, run), Redeliver(c, closing, now))
    ensures var s := Exec(p, INIT, run);
      var s', id := Step(p, s, Redeliver(c, closing, now)), s.walk[c][0];
      var n := Times(s'.log, id);
      && n > 0 && id in s'.place && id in s'.msgs
      && (s'.place[id] == Scheduled ==>
            && !closing && p.backoffMs > 0
            && s'.msgs[id].dueAt == now + if p.backoffMs * Pow2(n - 1) < p.maxBackoffMs then p.backoffMs * Pow2(n - 1) else p.maxBackoffMs)
      && (s'.place[id] == Queued ==> s'.msgs[id].dueAt == 0 && (closing || p.backoffMs <= 0))
  {
    ReachableInv(p, run);
    hide Exec, Feasible;
    BackoffAt(p, Exec(p, INIT, run), c, closing, now);
  }

  lemma BackoffAt(p: Policy, s: State, c: ConsumerId, closing: bool, now: int)
    requires Inv(p, s) && Enabled(s, Redeliver(c, closing, now))
    ensures var s', id := Step(p, s, Redeliver(c, closing, now)), s.walk[c][0];
      var n := Times(s'.log, id);
      && n > 0 && id in s'.place && id in s'.msgs
      && (s'.place[id] == Scheduled ==>
            && !closing && p.backoffMs > 0
            && s'.msgs[id].dueAt == now + if p.backoffMs * Pow2(n - 1) < p.maxBackoffMs then p.backoffMs * Pow2(n - 1) else p.maxBackoffMs)
      && (s'.place[id] == Queued ==> s'.msgs[id].dueAt == 0 && (closing || p.backoffMs <= 0))
  {
    hide Pow2, ListFollows;
    var s', id := Step(p, s, Redeliver(c, closing, now)), s.walk[c][0];
    WalkLoses(s, c);
    assert CountOk(p, s, id);
    RedeliverTimes(s.log, s'.log, id, id);
  }

  /** The origin record of a message is removed only after its copy was appended to the dead-letter queue. */
  lemma DeadLetterBeforeRemoval(p: Policy, run: seq<Action>, j: nat)
    requires Feasible(p, INIT, run) && j < |Exec(p, INIT, run).log| && Exec(p, INIT, run).log[j].OriginRemoved?
    ensures exists i :: 0 <= i < j && Buried(p, Exec(p, INIT, run).log[i], Exec(p, INIT, run).log[j].id)
  {
    ReachableInv(p, run);
    assert EventOk(p, Exec(p, INIT, run), j);
  }

  // ---- Order ----

  /** The messages of one band that go back to the queue, in the order of the list. */
  ghost function Returning(p: Policy, msgs: map<Id, Msg>, list: seq<Id>, b: Band): seq<Id>
    requires forall k :: 0 <= k < |list| ==> list[k] in msgs
  {
    if list == [] then []
    else (if msgs[list[0]].band == b && !(p.limit >= 0 && msgs[list[0]].count + 1 > p.limit) then [list[0]] else [])
         + Returning(p, msgs, list[1..], b)
  }

  /** A walk that can go on. */
  ghost predicate CanWalk(s: State, c: ConsumerId) {
    |s.queue| == 10 && c !in s.removing && forall k :: 0 <= k < |Of(s.walk, c)| ==> Of(s.walk, c)[k] in s.msgs
  }

  /** The first message of a walk is dealt with completely. */
  ghost function WalkOne(p: Policy, s: State, c: ConsumerId, closing: bool, now: int): State
    requires CanWalk(s, c) && Of(s.walk, c) != [] && (closing ==> c.transacted)
  {
    var s1 := Step(p, s, Redeliver(c, closing, now));
    if c in s1.removing then Step(p, s1, RemoveOrigin(c)) else s1
  }

  lemma RedeliverFacts(p: Policy, s: State, c: ConsumerId, closing: bool, now: int, b: Band)
    requires CanWalk(s, c) && Of(s.walk, c) != [] && (closing ==> c.transacted)
    ensures var s1, list := Step(p, s, Redeliver(c, closing, now)), Of(s.walk, c);
      && |s1.queue| == 10 && Of(s1.walk, c) == list[1..] && s1.msgs.Keys == s.msgs.Keys
      && (c in s1.removing ==> s1.removing[c] in s1.msgs)
      && (forall x :: x in s.msgs && x != list[0] ==> s1.msgs[x] == s.msgs[x])
      && ((closing || p.backoffMs <= 0) ==>
            s1.queue[b] == s.queue[b] + Returning(p, s.msgs, [list[0]], b))
  {
    assert Returning(p, s.msgs, [Of(s.walk, c)[0]][1..], b) == [];
  }

  lemma WalkOneFacts(p: Policy, s: State, c: ConsumerId, closing: bool, now: int, b: Band)
    requires CanWalk(s, c) && Of(s.walk, c) != [] && (closing ==> c.transacted)
    ensures var s', list := WalkOne(p, s, c, closing, now), Of(s.walk, c);
      && CanWalk(s', c) && Of(s'.walk, c) == list[1..]
      && (forall x :: x in s.msgs && x != list[0] ==> x in s'.msgs && s'.msgs[x] == s.msgs[x])
      && ((closing || p.backoffMs <= 0) ==>
            s'.queue[b] == s.queue[b] + Returning(p, s.msgs, [list[0]], b))
  {
    hide AfterRedeliver, Returning;
    RedeliverFacts(p, s, c, closing, now, b);
    var s1 := Step(p, s, Redeliver(c, closing, now));
    var s' := WalkOne(p, s, c, closing, now);
    assert s'.queue == s1.queue && s'.walk == s1.walk && s'.msgs == s1.msgs;
  }

  /** One consumer's walk carried to its end without anybody else in between. */
  ghost function WalkAll(p: Policy, s: State, c: ConsumerId, closing: bool, now: int): (r: State)
    requires CanWalk(s, c) && (closing ==> c.transacted)
    ensures |r.queue| == 10
    decreases |Of(s.walk, c)|
  {
    if Of(s.walk, c) == [] then s
    else
      WalkOneFacts(p, s, c, closing, now, 0);
      WalkAll(p, WalkOne(p, s, c, closing, now), c, closing, now)
  }

  /** A walk that nobody interrupts puts exactly the surviving messages of its list behind their bands, in the order of the list. */
  lemma {:induction false} WalkReturns(p: Policy, s: State, c: ConsumerId, closing: bool, now: int, b: Band)
    requires CanWalk(s, c) && (closing ==> c.transacted) && (closing || p.backoffMs <= 0) && NoDup(Of(s.walk, c))
    ensures WalkAll(p, s, c, closing, now).queue[b] == s.queue[b] + Returning(p, s.msgs, Of(s.walk, c), b)
    decreases |Of(s.walk, c)|
  {
    hide WalkOne;
    var list := Of(s.walk, c);
    if list != [] {
      var s' := WalkOne(p, s, c, closing, now);
      WalkOneFacts(p, s, c, closing, now, b);
      DropFirst(list);
      WalkReturns(p, s', c, closing, now, b);
      ReturningSame(p, s.msgs, s'.msgs, list[1..], b);
      ReturningFirst(p, s.msgs, list, b);
      assert s'.queue[b] + Returning(p, s.msgs, list[1..], b)
          == s.queue[b] + (Returning(p, s.msgs, [list[0]], b) + Returning(p, s.msgs, list[1..], b));
    }
  }

  lemma ReturningFirst(p: Policy, msgs: map<Id, Msg>, list: seq<Id>, b: Band)
    requires list != [] && forall k :: 0 <= k < |list| ==> list[k] in msgs
    ensures Returning(p, msgs, list, b) == Returning(p, msgs, [list[0]], b) + Returning(p, msgs, list[1..], b)
  {
    assert Returning(p, msgs, [list[0]][1..], b) == [];
  }

  lemma {:induction false} ReturningSame(p: Policy, msgs: map<Id, Msg>, msgs': map<Id, Msg>, list: seq<Id>, b: Band)
    requires forall k :: 0 <= k < |list| ==> list[k] in msgs && list[k] in msgs' && msgs[list[k]] == msgs'[list[k]]
    ensures Returning(p, msgs, list, b) == Returning(p, msgs', list, b)
  {
    if list != [] {
      ReturningSame(p, msgs, msgs', list[1..], b);
    }
  }
}
