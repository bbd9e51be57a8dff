/**
 The order of messages through redelivery, over whole runs and whatever other consumers do in between. Each action is
 stamped with its number, and for each message it is recorded when and by whom it was last received, when it went
 straight back to the queue after that, and when it was last put in the queue.
 */
module RedeliveryOrder {
  import opened Options
  import opened Redelivery

  datatype Stamp = Stamp(receivedAt: nat, receiver: Option<ConsumerId>, backAt: Option<nat>, queuedAt: nat)

  datatype History = History(tick: nat, stamps: map<Id, Stamp>)

  const NO_HISTORY := History(0, map[])

  ghost function Recorded(p: Policy, s: State, h: History, a: Action): History
    requires Enabled(s, a)
  {
    History(h.tick + 1, Stamped(p, s, h, a))
  }

  ghost function Stamped(p: Policy, s: State, h: History, a: Action): map<Id, Stamp>
    requires Enabled(s, a)
  {
    match a
    case Push(id, _, _, _) => h.stamps[id := Stamp(0, None, None, h.tick)]
    case Fire(id) => if id in h.stamps then h.stamps[id := h.stamps[id].(queuedAt := h.tick)] else h.stamps
    case Recv(c, b) =>
      var id := s.queue[b][0];
      if id in h.stamps then h.stamps[id := h.stamps[id].(receivedAt := h.tick, receiver := Some(c), backAt := None)] else h.stamps
    case Redeliver(c, _, _) =>
      var id := s.walk[c][0];
      if id in h.stamps && At(Step(p, s, a), id, Queued)
      then h.stamps[id := h.stamps[id].(backAt := Some(h.tick), queuedAt := h.tick)] else h.stamps
    case _ => h.stamps
  }

  ghost function RecordedAll(p: Policy, s: State, h: History, run: seq<Action>): History
    requires Feasible(p, s, run)
    decreases |run|
  {
    if run == [] then h else RecordedAll(p, Step(p, s, run[0]), Recorded(p, s, h, run[0]), run[1..])
  }

  // ---- The invariant ----

  /** The consumer has it, received and not given back. */
  ghost predicate Has(s: State, c: ConsumerId, id: Id) {
    At(s, id, Held(c)) || At(s, id, Walking(c))
  }

  ghost predicate StampOk(s: State, h: History, id: Id)
    requires id in h.stamps
  {
    var x := h.stamps[id];
    && x.receivedAt <= h.tick && x.queuedAt < h.tick
    && (x.backAt.Some? ==> x.receiver.Some? && x.receivedAt < x.backAt.value < h.tick)
    && (forall c: ConsumerId :: Has(s, c, id) ==> x.receiver == Some(c) && x.backAt == None && x.receivedAt < h.tick)
    && (At(s, id, Queued) && x.backAt.Some? ==> x.queuedAt == x.backAt.value)
    && (At(s, id, Scheduled) ==> x.backAt == None)
  }

  /** c gives x back before y if it has both: a transacted consumer by priority, and every consumer by receipt. */
  ghost predicate Before(c: ConsumerId, msgs: map<Id, Msg>, h: History, x: Id, y: Id)
    requires x in h.stamps && y in h.stamps
  {
    if c.transacted && BandOf(msgs, x) != BandOf(msgs, y) then BandOf(msgs, x) > BandOf(msgs, y)
    else h.stamps[x].receivedAt < h.stamps[y].receivedAt
  }

  ghost predicate ByTurn(c: ConsumerId, msgs: map<Id, Msg>, h: History, list: seq<Id>) {
    && (forall i :: 0 <= i < |list| ==> list[i] in h.stamps)
    && (forall i, j :: 0 <= i < j < |list| ==> Before(c, msgs, h, list[i], list[j]))
  }

  /** No message changes its priority. */
  ghost predicate SameBands(msgs: map<Id, Msg>, msgs': map<Id, Msg>, h: History) {
    forall x :: x in h.stamps ==> BandOf(msgs', x) == BandOf(msgs, x)
  }

  ghost predicate ByQueueing(h: History, list: seq<Id>) {
    && (forall i :: 0 <= i < |list| ==> list[i] in h.stamps)
    && (forall i, j :: 0 <= i < j < |list| ==> h.stamps[list[i]].queuedAt < h.stamps[list[j]].queuedAt)
  }

  ghost predicate ListsOk(s: State, h: History, c: ConsumerId) {
    && ByTurn(c, s.msgs, h, Of(s.held, c)) && ByTurn(c, s.msgs, h, Of(s.walk, c))
    && (Of(s.walk, c) != [] ==> Of(s.held, c) == [])
  }

  /**
   Once y has gone back, what its receiver has comes after y or was received later still; of two that have gone back to the
   queue from one consumer, the first came first, or had gone back before the other was received.
   */
  ghost predicate PairOk(s: State, h: History, x: Id, y: Id)
    requires x in h.stamps && y in h.stamps
  {
    var a, b := h.stamps[x], h.stamps[y];
    b.backAt.Some? && x != y ==>
      && (b.receiver.Some? && Has(s, b.receiver.value, x) ==>
            b.backAt.value < a.receivedAt || Before(b.receiver.value, s.msgs, h, y, x))
      && (a.backAt.Some? && a.receiver == b.receiver && a.receiver.Some? ==>
            && a.backAt.value != b.backAt.value
            && (a.backAt.value < b.backAt.value ==>
                  a.backAt.value < b.receivedAt || Before(a.receiver.value, s.msgs, h, x, y)))
  }

  ghost predicate Ordered(s: State, h: History) {
    && h.stamps.Keys == s.place.Keys == s.msgs.Keys && |s.queue| == 10
    && (forall id {:trigger StampOk(s, h, id)} :: id in h.stamps ==> StampOk(s, h, id))
    && (forall c: ConsumerId {:trigger ListsOk(s, h, c)} :: ListsOk(s, h, c))
    && (forall b: Band {:trigger s.queue[b]} :: ByQueueing(h, s.queue[b]))
    && (forall x, y {:trigger PairOk(s, h, x, y)} :: x in h.stamps && y in h.stamps ==> PairOk(s, h, x, y))
  }

  // ---- Steps ----

  /** Only the stamp of one message changes. */
  ghost predicate OneStamp(h: History, h': History, id: Id) {
    && h'.tick == h.tick + 1 && id in h'.stamps
    && (forall x :: x in h.stamps && x != id ==> x in h'.stamps && h'.stamps[x] == h.stamps[x])
    && (forall x :: x in h'.stamps && x != id ==> x in h.stamps)
  }

  lemma TurnElsewhere(c: ConsumerId, msgs: map<Id, Msg>, msgs': map<Id, Msg>, h: History, h': History, list: seq<Id>, id: Id)
    requires ByTurn(c, msgs, h, list) && OneStamp(h, h', id) && SameBands(msgs, msgs', h)
    requires id in list ==> id in h.stamps && h'.stamps[id].receivedAt == h.stamps[id].receivedAt
    ensures ByTurn(c, msgs', h', list)
  {
  }

  lemma QueueingElsewhere(h: History, h': History, list: seq<Id>, id: Id)
    requires ByQueueing(h, list) && OneStamp(h, h', id) && (id in list ==> id in h.stamps && h'.stamps[id].queuedAt == h.stamps[id].queuedAt)
    ensures ByQueueing(h', list)
  {
  }

  /** A message with the newest stamp joins what its consumer has received. */
  lemma TurnJoined(c: ConsumerId, msgs: map<Id, Msg>, h: History, h': History, list: seq<Id>, id: Id)
    requires ByTurn(c, msgs, h, list) && OneStamp(h, h', id) && id !in list && h'.stamps[id].receivedAt == h.tick
    requires forall i :: 0 <= i < |list| ==> h.stamps[list[i]].receivedAt < h.tick
    ensures ByTurn(c, msgs, h', Received(c, msgs, list, id))
  {
    if c.transacted {
      var k := JoinedAt(msgs, list, id);
      hide Joined;
      TurnInserted(c, msgs, h, h', list, k, id);
    }
  }

  lemma TurnInserted(c: ConsumerId, msgs: map<Id, Msg>, h: History, h': History, list: seq<Id>, k: nat, id: Id)
    requires c.transacted && ByTurn(c, msgs, h, list) && OneStamp(h, h', id) && id !in list && h'.stamps[id].receivedAt == h.tick
    requires forall i :: 0 <= i < |list| ==> h.stamps[list[i]].receivedAt < h.tick
    requires k <= |list| && forall i :: 0 <= i < k ==> BandOf(msgs, list[i]) >= BandOf(msgs, id)
    requires k < |list| ==> BandOf(msgs, list[k]) < BandOf(msgs, id)
    ensures ByTurn(c, msgs, h', list[..k] + [id] + list[k..])
  {
    var list' := list[..k] + [id] + list[k..];
    hide BandOf;
    forall i | k <= i < |list| ensures BandOf(msgs, list[i]) < BandOf(msgs, id) {
      assert i > k ==> Before(c, msgs, h, list[k], list[i]);
    }
    forall i | 0 <= i < |list'| ensures list'[i] in h'.stamps && list'[i] == if i < k then list[i] else if i == k then id else list[i - 1] {
    }
    forall i, j | 0 <= i < j < |list'| ensures Before(c, msgs, h', list'[i], list'[j]) {
      var i', j' := if i < k then i else i - 1, if j < k then j else j - 1;
      if i != k && j != k {
        assert Before(c, msgs, h, list[i'], list[j']);
      }
    }
  }

  lemma QueueingLast(h: History, h': History, list: seq<Id>, id: Id)
    requires ByQueueing(h, list) && OneStamp(h, h', id) && id !in list && h'.stamps[id].queuedAt == h.tick
    requires forall i :: 0 <= i < |list| ==> h.stamps[list[i]].queuedAt < h.tick
    ensures ByQueueing(h', list + [id])
  {
  }

  lemma {:induction false} WithoutAt(list: seq<Id>, id: Id) returns (k: nat)
    requires id in list
    ensures k < |list| && Without(list, id) == list[..k] + list[k + 1..]
  {
    if list[0] == id {
      k := 0;
    } else {
      k := WithoutAt(list[1..], id);
      assert list[1..][..k] == list[1..k + 1] && list[1..][k + 1..] == list[k + 2..];
      assert [list[0]] + (list[1..k + 1] + list[k + 2..]) == list[..k + 1] + list[k + 2..];
      k := k + 1;
    }
  }

  lemma WithoutKeeps(c: ConsumerId, msgs: map<Id, Msg>, h: History, list: seq<Id>, id: Id)
    requires ByTurn(c, msgs, h, list) && id in list
    ensures ByTurn(c, msgs, h, Without(list, id))
  {
    hide Without;
    var k := WithoutAt(list, id);
    CutKeeps(c, msgs, h, list, k, Without(list, id));
  }

  lemma CutKeeps(c: ConsumerId, msgs: map<Id, Msg>, h: History, list: seq<Id>, k: nat, rest: seq<Id>)
    requires ByTurn(c, msgs, h, list) && k < |list| && rest == list[..k] + list[k + 1..]
    ensures ByTurn(c, msgs, h, rest)
  {
    hide Before;
    forall i | 0 <= i < |rest| ensures rest[i] == list[if i < k then i else i + 1] {
    }
  }

  /** A step that leaves all stamps alone and gives nobody a message it did not have. */
  lemma QuietOrdered(s: State, s': State, h: History, h': History)
    requires Ordered(s, h) && h' == h.(tick := h.tick + 1) && s'.place.Keys == s.place.Keys && |s'.queue| == 10
    requires s'.msgs.Keys == s.msgs.Keys && SameBands(s.msgs, s'.msgs, h)
    requires forall c: ConsumerId, x :: Has(s', c, x) ==> Has(s, c, x)
    requires forall x :: At(s', x, Queued) ==> At(s, x, Queued)
    requires forall x :: At(s', x, Scheduled) ==> At(s, x, Scheduled) || exists c: ConsumerId :: Has(s, c, x)
    requires forall c: ConsumerId :: ListsOk(s', h, c)
    requires forall b: Band :: ByQueueing(h, s'.queue[b])
    ensures Ordered(s', h')
  {
    forall id | id in h'.stamps ensures StampOk(s', h', id) {
      assert StampOk(s, h, id);
    }
    forall c: ConsumerId ensures ListsOk(s', h', c) {
      assert ListsOk(s', h, c);
    }
    forall b: Band ensures ByQueueing(h', s'.queue[b]) {
      assert ByQueueing(h, s'.queue[b]);
    }
    forall x, y | x in h'.stamps && y in h'.stamps ensures PairOk(s', h', x, y) {
      assert PairOk(s, h, x, y);
      PairQuiet(s, s', h, h', x, y);
    }
  }

  lemma PairQuiet(s: State, s': State, h: History, h': History, x: Id, y: Id)
    requires x in h.stamps && y in h.stamps && PairOk(s, h, x, y) && h' == h.(tick := h.tick + 1)
    requires BandOf(s'.msgs, x) == BandOf(s.msgs, x) && BandOf(s'.msgs, y) == BandOf(s.msgs, y)
    requires forall c: ConsumerId :: Has(s', c, x) ==> Has(s, c, x)
    ensures PairOk(s', h', x, y)
  {
    hide BandOf;
  }

  /** A message gets a new stamp; what is left to show concerns that message and the lists. */
  lemma OneOrdered(s: State, s': State, h: History, h': History, id: Id)
    requires Ordered(s, h) && OnlyMoves(s, s', id) && OneStamp(h, h', id) && StampOk(s', h', id)
    requires forall c: ConsumerId :: ListsOk(s', h', c)
    requires forall b: Band :: ByQueueing(h', s'.queue[b])
    requires forall x :: x in h.stamps && x != id ==> PairOk(s', h', x, id) && PairOk(s', h', id, x)
    ensures Ordered(s', h')
  {
    hide StampOk, PairOk, ListsOk, ByQueueing;
    MovesBands(s, s', h, id);
    forall x | x in h'.stamps ensures StampOk(s', h', x) {
      if x != id {
        assert StampOk(s, h, x);
        StampElsewhere(s, s', h, h', id, x);
      }
    }
    forall x, y | x in h'.stamps && y in h'.stamps ensures PairOk(s', h', x, y) {
      if x == y {
        PairWithItself(s', h', x);
      } else if x != id && y != id {
        assert PairOk(s, h, x, y);
        PairElsewhere(s, s', h, h', id, x, y);
      }
    }
  }

  lemma StampElsewhere(s: State, s': State, h: History, h': History, id: Id, x: Id)
    requires OnlyMoves(s, s', id) && OneStamp(h, h', id) && x in h.stamps && x != id && x in s.place && StampOk(s, h, x)
    ensures StampOk(s', h', x)
  {
  }

  lemma PairElsewhere(s: State, s': State, h: History, h': History, id: Id, x: Id, y: Id)
    requires OnlyMoves(s, s', id) && OneStamp(h, h', id) && x in h.stamps && y in h.stamps && x != id && y != id
    requires x in s.place && PairOk(s, h, x, y)
    requires BandOf(s'.msgs, x) == BandOf(s.msgs, x) && BandOf(s'.msgs, y) == BandOf(s.msgs, y)
    ensures PairOk(s', h', x, y)
  {
    hide BandOf;
  }

  lemma MovesBands(s: State, s': State, h: History, id: Id)
    requires Ordered(s, h) && OnlyMoves(s, s', id)
    ensures SameBands(s.msgs, s'.msgs, h)
  {
  }

  lemma PairWithItself(s: State, h: History, x: Id)
    requires x in h.stamps
    ensures PairOk(s, h, x, x)
  {
  }

  /** The lists of received messages when a message in none of them gets a new stamp. */
  lemma ListsElsewhere(s: State, s': State, h: History, h': History, id: Id)
    requires Ordered(s, h) && OnlyMoves(s, s', id) && OneStamp(h, h', id) && s'.held == s.held && s'.walk == s.walk
    requires forall c: ConsumerId :: id !in Of(s.held, c) && id !in Of(s.walk, c)
    ensures forall c: ConsumerId :: ListsOk(s', h', c)
  {
    forall c: ConsumerId ensures ListsOk(s', h', c) {
      assert ListsOk(s, h, c);
      MovesBands(s, s', h, id);
      TurnElsewhere(c, s.msgs, s'.msgs, h, h', Of(s.held, c), id);
      TurnElsewhere(c, s.msgs, s'.msgs, h, h', Of(s.walk, c), id);
    }
  }

  lemma PushFacts(p: Policy, s: State, h: History, a: Action)
    requires Placed(s) && Ordered(s, h) && Enabled(s, a) && a.Push?
    ensures var s', h' := Step(p, s, a), Recorded(p, s, h, a);
      && OnlyMoves(s, s', a.id) && OneStamp(h, h', a.id) && h'.stamps[a.id] == Stamp(0, None, None, h.tick)
      && s'.held == s.held && s'.walk == s.walk && (At(s', a.id, Queued) || At(s', a.id, Scheduled))
      && s'.queue == if a.dueAt == 0 then Enqueued(s.queue, a.band, a.id) else s.queue
  {
    hide BandOk, HeldOk, WalkOk, RemovingOk, StampOk, ListsOk, PairOk, ByQueueing, Enqueued;
  }

  lemma PushOrdered(p: Policy, s: State, h: History, a: Action)
    requires Placed(s) && Ordered(s, h) && Enabled(s, a) && a.Push?
    ensures Ordered(Step(p, s, a), Recorded(p, s, h, a))
  {
    var s', h', id := Step(p, s, a), Recorded(p, s, h, a), a.id;
    Located(s, id);
    PushFacts(p, s, h, a);
    hide Step, Recorded, Placed, ListsOk, ByQueueing, OnlyMoves;
    ListsElsewhere(s, s', h, h', id);
    BandsGain(s, s', h, h', id, a.band, a.dueAt == 0);
    OneOrdered(s, s', h, h', id);
  }

  /** The bands when a message that was in none of them joins band b, or none. */
  lemma BandsGain(s: State, s': State, h: History, h': History, id: Id, b: Band, joins: bool)
    requires Ordered(s, h) && OneStamp(h, h', id) && (forall x: Band :: id !in s.queue[x])
    requires s'.queue == if joins then Enqueued(s.queue, b, id) else s.queue
    requires joins ==> h'.stamps[id].queuedAt == h.tick
    ensures forall x: Band :: ByQueueing(h', s'.queue[x])
  {
    forall x: Band ensures ByQueueing(h', s'.queue[x]) {
      assert ByQueueing(h, s.queue[x]);
      if joins && x == b {
        forall i | 0 <= i < |s.queue[x]| ensures h.stamps[s.queue[x][i]].queuedAt < h.tick {
          assert StampOk(s, h, s.queue[x][i]);
        }
        QueueingLast(h, h', s.queue[x], id);
      } else {
        QueueingElsewhere(h, h', s.queue[x], id);
      }
    }
  }

  lemma FireFacts(p: Policy, s: State, h: History, id: Id)
    requires Placed(s) && Ordered(s, h) && Enabled(s, Fire(id))
    ensures var s', h' := Step(p, s, Fire(id)), Recorded(p, s, h, Fire(id));
      && id in h.stamps && OnlyMoves(s, s', id) && OneStamp(h, h', id) && h'.stamps[id] == h.stamps[id].(queuedAt := h.tick)
      && s'.held == s.held && s'.walk == s.walk && At(s', id, Queued) && s'.queue == Enqueued(s.queue, s.msgs[id].band, id)
  {
    hide BandOk, HeldOk, WalkOk, RemovingOk, StampOk, ListsOk, PairOk, ByQueueing, Enqueued;
  }

  lemma FireOrdered(p: Policy, s: State, h: History, id: Id)
    requires Placed(s) && Ordered(s, h) && Enabled(s, Fire(id))
    ensures Ordered(Step(p, s, Fire(id)), Recorded(p, s, h, Fire(id)))
  {
    var s', h' := Step(p, s, Fire(id)), Recorded(p, s, h, Fire(id));
    Located(s, id);
    FireFacts(p, s, h, id);
    assert StampOk(s, h, id);
    hide Step, Recorded, Placed, ListsOk, ByQueueing, OnlyMoves;
    ListsElsewhere(s, s', h, h', id);
    BandsGain(s, s', h, h', id, s.msgs[id].band, true);
    OneOrdered(s, s', h, h', id);
  }

  lemma RecvFacts(p: Policy, s: State, h: History, c: ConsumerId, b: Band)
    requires Placed(s) && Ordered(s, h) && Enabled(s, Recv(c, b)) && At(s, s.queue[b][0], Queued)
    ensures var s', h', id := Step(p, s, Recv(c, b)), Recorded(p, s, h, Recv(c, b)), s.queue[b][0];
      && id in h.stamps && OnlyMoves(s, s', id) && OneStamp(h, h', id)
      && h'.stamps[id] == h.stamps[id].(receivedAt := h.tick, receiver := Some(c), backAt := None)
      && s'.held == s.held[c := Received(c, s.msgs, Of(s.held, c), id)] && s'.walk == s.walk && At(s', id, Held(c))
      && s'.msgs == s.msgs
      && s'.queue == s.queue[b := s.queue[b][1..]] && Of(s.walk, c) == []
  {
    hide BandOk, HeldOk, WalkOk, RemovingOk, StampOk, ListsOk, PairOk, ByQueueing;
  }

  lemma RecvLists(s: State, s': State, h: History, h': History, c: ConsumerId, id: Id)
    requires Placed(s) && Ordered(s, h) && OneStamp(h, h', id) && h'.stamps[id].receivedAt == h.tick
    requires s'.held == s.held[c := Received(c, s.msgs, Of(s.held, c), id)] && s'.walk == s.walk && Of(s.walk, c) == []
    requires s'.msgs == s.msgs
    requires forall d: ConsumerId :: id !in Of(s.held, d) && id !in Of(s.walk, d)
    ensures forall d: ConsumerId :: ListsOk(s', h', d)
  {
    HeldBefore(s, h, c);
    hide Placed, Received, Before, BandOf;
    forall d: ConsumerId ensures ListsOk(s', h', d) {
      assert ListsOk(s, h, d);
      TurnElsewhere(d, s.msgs, s'.msgs, h, h', Of(s.walk, d), id);
      TurnElsewhere(d, s.msgs, s'.msgs, h, h', Of(s.held, d), id);
      if d == c {
        TurnJoined(c, s.msgs, h, h', Of(s.held, c), id);
      }
    }
  }

  lemma RecvBands(s: State, s': State, h: History, h': History, b: Band)
    requires Ordered(s, h) && s.queue[b] != [] && s.queue[b][0] in h.stamps && OneStamp(h, h', s.queue[b][0])
    requires h'.stamps[s.queue[b][0]].queuedAt == h.stamps[s.queue[b][0]].queuedAt && s'.queue == s.queue[b := s.queue[b][1..]]
    ensures forall x: Band :: ByQueueing(h', s'.queue[x])
  {
    forall x: Band ensures ByQueueing(h', s'.queue[x]) {
      assert ByQueueing(h, s.queue[x]);
      QueueingElsewhere(h, h', s.queue[x], s.queue[b][0]);
    }
  }

  lemma RecvOrdered(p: Policy, s: State, h: History, c: ConsumerId, b: Band)
    requires Placed(s) && Ordered(s, h) && Enabled(s, Recv(c, b))
    ensures Ordered(Step(p, s, Recv(c, b)), Recorded(p, s, h, Recv(c, b)))
  {
    var s', h', id := Step(p, s, Recv(c, b)), Recorded(p, s, h, Recv(c, b)), s.queue[b][0];
    Located(s, id);
    assert id in s.queue[b];
    RecvFacts(p, s, h, c, b);
    assert StampOk(s, h, id);
    hide Step, Recorded, Placed, ListsOk, ByQueueing, OnlyMoves;
    RecvLists(s, s', h, h', c, id);
    RecvBands(s, s', h, h', b);
    forall x | x in h.stamps && x != id ensures PairOk(s', h', x, id) && PairOk(s', h', id, x) {
      assert StampOk(s, h, x);
    }
    OneOrdered(s, s', h, h', id);
  }

  lemma HeldBefore(s: State, h: History, c: ConsumerId)
    requires Placed(s) && Ordered(s, h)
    ensures forall i :: 0 <= i < |Of(s.held, c)| ==> Of(s.held, c)[i] in h.stamps && h.stamps[Of(s.held, c)[i]].receivedAt < h.tick
  {
    assert HeldOk(s, c) && ListsOk(s, h, c);
    forall i | 0 <= i < |Of(s.held, c)|
      ensures Of(s.held, c)[i] in h.stamps && h.stamps[Of(s.held, c)[i]].receivedAt < h.tick
    {
      assert Of(s.held, c)[i] in Of(s.held, c);
      assert StampOk(s, h, Of(s.held, c)[i]);
      assert Has(s, c, Of(s.held, c)[i]);
    }
  }

  lemma BackFacts(p: Policy, s: State, h: History, a: Action)
    requires Placed(s) && Ordered(s, h) && a.Redeliver? && Enabled(s, a) && At(Step(p, s, a), s.walk[a.c][0], Queued)
    requires Has(s, a.c, s.walk[a.c][0])
    ensures var s', h', id := Step(p, s, a), Recorded(p, s, h, a), s.walk[a.c][0];
      && id in h.stamps && OnlyMoves(s, s', id) && OneStamp(h, h', id)
      && h'.stamps[id] == h.stamps[id].(backAt := Some(h.tick), queuedAt := h.tick)
      && s'.held == s.held && s'.walk == s.walk[a.c := s.walk[a.c][1..]]
      && s'.queue == Enqueued(s.queue, s.msgs[id].band, id)
  {
    hide BandOk, HeldOk, WalkOk, RemovingOk, StampOk, ListsOk, PairOk, ByQueueing, Enqueued, DelayMs;
  }

  lemma BackOrdered(p: Policy, s: State, h: History, a: Action)
    requires Placed(s) && Ordered(s, h) && a.Redeliver? && Enabled(s, a) && At(Step(p, s, a), s.walk[a.c][0], Queued)
    ensures Ordered(Step(p, s, a), Recorded(p, s, h, a))
  {
    hide Step, Recorded, Placed, ListsOk, ByQueueing, OnlyMoves, PairOk;
    var s', h', id := Step(p, s, a), Recorded(p, s, h, a), s.walk[a.c][0];
    Located(s, id);
    assert id in Of(s.walk, a.c);
    assert Has(s, a.c, id);
    BackFacts(p, s, h, a);
    assert StampOk(s, h, id);
    BackLists(s, s', h, h', a.c);
    BandsGain(s, s', h, h', id, s.msgs[id].band, true);
    forall x | x in h.stamps && x != id ensures PairOk(s', h', x, id) && PairOk(s', h', id, x) {
      BackPairs(s, s', h, h', a.c, x);
    }
    OneOrdered(s, s', h, h', id);
  }

  lemma BackLists(s: State, s': State, h: History, h': History, c: ConsumerId)
    requires Ordered(s, h) && Of(s.walk, c) != [] && s.walk[c][0] in h.stamps
    requires OneStamp(h, h', s.walk[c][0]) && h'.stamps[s.walk[c][0]].receivedAt == h.stamps[s.walk[c][0]].receivedAt
    requires s'.held == s.held && s'.walk == s.walk[c := s.walk[c][1..]] && OnlyMoves(s, s', s.walk[c][0])
    ensures forall d: ConsumerId :: ListsOk(s', h', d)
  {
    MovesBands(s, s', h, s.walk[c][0]);
    hide OnlyMoves, BandOf, Before;
    forall d: ConsumerId ensures ListsOk(s', h', d) {
      assert ListsOk(s, h, d);
      TurnElsewhere(d, s.msgs, s'.msgs, h, h', Of(s.walk, d), s.walk[c][0]);
      TurnElsewhere(d, s.msgs, s'.msgs, h, h', Of(s.held, d), s.walk[c][0]);
    }
  }

  lemma BackPairs(s: State, s': State, h: History, h': History, c: ConsumerId, x: Id)
    requires Placed(s) && Ordered(s, h) && Of(s.walk, c) != [] && OnlyMoves(s, s', s.walk[c][0])
    requires OneStamp(h, h', s.walk[c][0]) && Has(s, c, s.walk[c][0]) && x in h.stamps && x != s.walk[c][0]
    requires At(s', s.walk[c][0], Queued) && s.walk[c][0] in h.stamps
    requires h'.stamps[s.walk[c][0]] == h.stamps[s.walk[c][0]].(backAt := Some(h.tick), queuedAt := h.tick)
    ensures PairOk(s', h', x, s.walk[c][0]) && PairOk(s', h', s.walk[c][0], x)
  {
    var id := s.walk[c][0];
    MovesBands(s, s', h, id);
    hide BandOf;
    assert StampOk(s, h, x) && StampOk(s, h, id) && PairOk(s, h, id, x);
    if Has(s', c, x) {
      assert Has(s, c, x);
      LaterInWalk(s, h, c, x);
    }
  }

  /** What a walking consumer still has comes after the message it is giving back. */
  lemma LaterInWalk(s: State, h: History, c: ConsumerId, x: Id)
    requires Placed(s) && Ordered(s, h) && Of(s.walk, c) != [] && x != s.walk[c][0] && Has(s, c, x)
    ensures x in h.stamps && s.walk[c][0] in h.stamps && Before(c, s.msgs, h, s.walk[c][0], x)
  {
    assert ListsOk(s, h, c) && WalkOk(s, c) && HeldOk(s, c);
    assert x in Of(s.walk, c);
  }

  lemma DropOrdered(p: Policy, s: State, h: History, a: Action)
    requires Placed(s) && Ordered(s, h) && a.Drop? && Enabled(s, a)
    ensures Ordered(Step(p, s, a), Recorded(p, s, h, a))
  {
    var s' := Step(p, s, a);
    forall c: ConsumerId ensures ListsOk(s', h, c) {
      assert ListsOk(s, h, c);
    }
    forall b: Band ensures ByQueueing(h, s'.queue[b]) {
      assert ByQueueing(h, s.queue[b]);
    }
    Located(s, s.queue[a.band][0]);
    assert s.queue[a.band][0] in s.queue[a.band];
    QuietOrdered(s, s', h, Recorded(p, s, h, a));
  }

  lemma AckOrdered(p: Policy, s: State, h: History, a: Action)
    requires Placed(s) && Ordered(s, h) && a.Ack? && Enabled(s, a)
    ensures Ordered(Step(p, s, a), Recorded(p, s, h, a))
  {
    var s' := Step(p, s, a);
    assert ListsOk(s, h, a.c);
    WithoutKeeps(a.c, s.msgs, h, Of(s.held, a.c), a.id);
    forall c: ConsumerId ensures ListsOk(s', h, c) {
      assert ListsOk(s, h, c);
    }
    forall b: Band ensures ByQueueing(h, s'.queue[b]) {
      assert ByQueueing(h, s.queue[b]);
    }
    Located(s, a.id);
    QuietOrdered(s, s', h, Recorded(p, s, h, a));
  }

  lemma ListOrdered(p: Policy, s: State, h: History, a: Action)
    requires Placed(s) && Ordered(s, h) && (a.BeginWalk? || a.Teardown? || a.Commit?) && Enabled(s, a)
    ensures Ordered(Step(p, s, a), Recorded(p, s, h, a))
  {
    var s' := Step(p, s, a);
    forall c: ConsumerId ensures ListsOk(s', h, c) {
      assert ListsOk(s, h, c);
    }
    forall b: Band ensures ByQueueing(h, s'.queue[b]) {
      assert ByQueueing(h, s.queue[b]);
    }
    QuietOrdered(s, s', h, Recorded(p, s, h, a));
  }

  lemma OriginOrdered(p: Policy, s: State, h: History, a: Action)
    requires Placed(s) && Ordered(s, h) && a.RemoveOrigin? && Enabled(s, a)
    ensures Ordered(Step(p, s, a), Recorded(p, s, h, a))
  {
    var s' := Step(p, s, a);
    forall c: ConsumerId ensures ListsOk(s', h, c) {
      assert ListsOk(s, h, c);
    }
    forall b: Band ensures ByQueueing(h, s'.queue[b]) {
      assert ByQueueing(h, s.queue[b]);
    }
    Located(s, s.removing[a.c]);
    assert Removes(s, a.c, s.removing[a.c]);
    QuietOrdered(s, s', h, Recorded(p, s, h, a));
  }

  lemma GoneFacts(p: Policy, s: State, a: Action)
    requires Placed(s) && a.Redeliver? && Enabled(s, a) && !At(Step(p, s, a), s.walk[a.c][0], Queued)
    requires Has(s, a.c, s.walk[a.c][0])
    ensures var s', id := Step(p, s, a), s.walk[a.c][0];
      && s'.held == s.held && s'.walk == s.walk[a.c := s.walk[a.c][1..]] && s'.queue == s.queue
      && s'.place.Keys == s.place.Keys && (forall x :: x in s.place && x != id ==> s'.place[x] == s.place[x])
      && (s'.place[id].Removing? || s'.place[id].Scheduled?) && s'.msgs.Keys == s.msgs.Keys
      && (forall x :: x in s.msgs ==> s'.msgs[x].band == s.msgs[x].band)
  {
    hide BandOk, HeldOk, WalkOk, RemovingOk, Enqueued, DelayMs;
  }

  lemma TurnStays(c: ConsumerId, msgs: map<Id, Msg>, msgs': map<Id, Msg>, h: History, list: seq<Id>)
    requires ByTurn(c, msgs, h, list) && SameBands(msgs, msgs', h)
    ensures ByTurn(c, msgs', h, list)
  {
    hide BandOf;
  }

  lemma BandsStay(s: State, s': State, h: History)
    requires h.stamps.Keys == s.msgs.Keys == s'.msgs.Keys && forall x :: x in s.msgs ==> s'.msgs[x].band == s.msgs[x].band
    ensures SameBands(s.msgs, s'.msgs, h)
  {
  }

  lemma GoneOrdered(p: Policy, s: State, h: History, a: Action)
    requires Placed(s) && Ordered(s, h) && a.Redeliver? && Enabled(s, a) && !At(Step(p, s, a), s.walk[a.c][0], Queued)
    ensures Ordered(Step(p, s, a), Recorded(p, s, h, a))
  {
    var s', id := Step(p, s, a), s.walk[a.c][0];
    Located(s, id);
    assert id in Of(s.walk, a.c) && Has(s, a.c, id);
    GoneFacts(p, s, a);
    assert Recorded(p, s, h, a) == h.(tick := h.tick + 1);
    BandsStay(s, s', h);
    hide Step, Recorded, Placed, Before, BandOf;
    forall c: ConsumerId ensures ListsOk(s', h, c) {
      assert ListsOk(s, h, c);
      TurnStays(c, s.msgs, s'.msgs, h, Of(s.held, c));
      TurnStays(c, s.msgs, s'.msgs, h, Of(s.walk, c));
    }
    forall b: Band ensures ByQueueing(h, s'.queue[b]) {
      assert ByQueueing(h, s.queue[b]);
    }
    QuietOrdered(s, s', h, Recorded(p, s, h, a));
  }

  lemma StepOrdered(p: Policy, s: State, h: History, a: Action)
    requires Placed(s) && Ordered(s, h) && Enabled(s, a)
    ensures Ordered(Step(p, s, a), Recorded(p, s, h, a))
  {
    hide Placed, Ordered, Step, Recorded;
    match a
    case Push(_, _, _, _) => PushOrdered(p, s, h, a);
    case Fire(id) => FireOrdered(p, s, h, id);
    case Recv(c, b) => RecvOrdered(p, s, h, c, b);
    case Redeliver(c, _, _) =>
      if At(Step(p, s, a), s.walk[c][0], Queued) {
        BackOrdered(p, s, h, a);
      } else {
        GoneOrdered(p, s, h, a);
      }
    case Drop(_, _) => DropOrdered(p, s, h, a);
    case Ack(_, _) => AckOrdered(p, s, h, a);
    case Commit(_) => ListOrdered(p, s, h, a);
    case BeginWalk(_) => ListOrdered(p, s, h, a);
    case Teardown(_) => ListOrdered(p, s, h, a);
    case RemoveOrigin(_) => OriginOrdered(p, s, h, a);
  }

  lemma {:induction false} RunOrdered(p: Policy, s: State, h: History, run: seq<Action>)
    requires Placed(s) && Ordered(s, h) && Feasible(p, s, run)
    ensures Ordered(Exec(p, s, run), RecordedAll(p, s, h, run)) && Placed(Exec(p, s, run))
    decreases |run|
  {
    hide Placed, Ordered, Step, Recorded;
    if run != [] {
      StepPlaced(p, s, run[0]);
      StepOrdered(p, s, h, run[0]);
      RunOrdered(p, Step(p, s, run[0]), Recorded(p, s, h, run[0]), run[1..]);
    }
  }

  // ---- Main results ----

  lemma ReachableOrdered(p: Policy, run: seq<Action>)
    requires Feasible(p, INIT, run)
    ensures Ordered(Exec(p, INIT, run), RecordedAll(p, INIT, NO_HISTORY, run)) && Placed(Exec(p, INIT, run))
  {
    ReachableInv(p, []);
    forall b: Band ensures ByQueueing(NO_HISTORY, INIT.queue[b]) {
      assert INIT.queue[b] == [];
    }
    RunOrdered(p, INIT, NO_HISTORY, run);
  }

  /** In every run what each consumer has is in the order in which it gives it back, and each band in the order of its queueing. */
  lemma ListsInOrder(p: Policy, run: seq<Action>, c: ConsumerId, b: Band)
    requires Feasible(p, INIT, run)
    ensures var s, h := Exec(p, INIT, run), RecordedAll(p, INIT, NO_HISTORY, run);
      && ByTurn(c, s.msgs, h, Of(s.held, c)) && ByTurn(c, s.msgs, h, Of(s.walk, c))
      && |s.queue| == 10 && ByQueueing(h, s.queue[b])
  {
    ReachableOrdered(p, run);
    assert ListsOk(Exec(p, INIT, run), RecordedAll(p, INIT, NO_HISTORY, run), c);
  }

  /** One consumer received x and then y, and both went straight back. */
  ghost predicate BothBack(h: History, x: Id, y: Id) {
    && x in h.stamps && y in h.stamps && h.stamps[x].receiver == h.stamps[y].receiver && h.stamps[x].receiver.Some?
    && h.stamps[x].backAt.Some? && h.stamps[y].backAt.Some? && h.stamps[x].receivedAt < h.stamps[y].receivedAt
  }

  /**
   In every run, whatever others do: of two messages that both went straight back, the one received first went back first
   if and only if the consumer recovered it, or had given it back before it received the other, or the other's priority
   is no higher.
   */
  lemma GoesBackFirstExactly(p: Policy, run: seq<Action>, x: Id, y: Id)
    requires Feasible(p, INIT, run) && BothBack(RecordedAll(p, INIT, NO_HISTORY, run), x, y)
    ensures var s, h := Exec(p, INIT, run), RecordedAll(p, INIT, NO_HISTORY, run);
      h.stamps[x].backAt.value < h.stamps[y].backAt.value
      <==> !h.stamps[x].receiver.value.transacted || h.stamps[x].backAt.value < h.stamps[y].receivedAt
           || BandOf(s.msgs, x) >= BandOf(s.msgs, y)
  {
    ReachableOrdered(p, run);
    hide Exec, RecordedAll, Feasible, BandOf;
    var s, h := Exec(p, INIT, run), RecordedAll(p, INIT, NO_HISTORY, run);
    assert PairOk(s, h, x, y) && PairOk(s, h, y, x) && StampOk(s, h, x) && StampOk(s, h, y);
  }

  /**
   Each band keeps the order of receipt, under recover and under rollback: of two such messages in one band the one
   received first went back first and is ahead while both are queued; under recover it went back first in any case.
   */
  lemma ReceiveOrderKept(p: Policy, run: seq<Action>, x: Id, y: Id)
    requires Feasible(p, INIT, run) && BothBack(RecordedAll(p, INIT, NO_HISTORY, run), x, y)
    ensures var s, h := Exec(p, INIT, run), RecordedAll(p, INIT, NO_HISTORY, run);
      && |s.queue| == 10
      && (!h.stamps[x].receiver.value.transacted || BandOf(s.msgs, x) == BandOf(s.msgs, y) ==>
            h.stamps[x].backAt.value < h.stamps[y].backAt.value)
      && forall b: Band, i, j :: 0 <= i < |s.queue[b]| && 0 <= j < |s.queue[b]| && s.queue[b][i] == x && s.queue[b][j] == y ==> i < j
  {
    ReachableOrdered(p, run);
    GoesBackFirstExactly(p, run, x, y);
    hide Exec, RecordedAll, Feasible;
    var s, h := Exec(p, INIT, run), RecordedAll(p, INIT, NO_HISTORY, run);
    assert StampOk(s, h, x) && StampOk(s, h, y);
    forall b: Band, i, j | 0 <= i < |s.queue[b]| && 0 <= j < |s.queue[b]| && s.queue[b][i] == x && s.queue[b][j] == y
      ensures i < j
    {
      assert BandOk(s, b) && ByQueueing(h, s.queue[b]);
      assert x in s.queue[b] && y in s.queue[b];
    }
  }

  /** A message that went back while its consumer had x comes before x: received earlier, or under rollback of higher priority. */
  lemma NoneGoesPast(p: Policy, run: seq<Action>, x: Id, y: Id, c: ConsumerId)
    requires Feasible(p, INIT, run) && Has(Exec(p, INIT, run), c, x) && x != y
    requires var h := RecordedAll(p, INIT, NO_HISTORY, run);
      y in h.stamps && h.stamps[y].receiver == Some(c) && h.stamps[y].backAt.Some?
    ensures var s, h := Exec(p, INIT, run), RecordedAll(p, INIT, NO_HISTORY, run);
      && x in h.stamps
      && (h.stamps[y].backAt.value < h.stamps[x].receivedAt || Before(c, s.msgs, h, y, x))
      && (!c.transacted || BandOf(s.msgs, x) == BandOf(s.msgs, y) ==> h.stamps[y].receivedAt < h.stamps[x].receivedAt)
  {
    ReachableOrdered(p, run);
    hide Exec, RecordedAll, Feasible, BandOf;
    var s, h := Exec(p, INIT, run), RecordedAll(p, INIT, NO_HISTORY, run);
    assert x in h.stamps by {
      assert Has(s, c, x);
    }
    assert PairOk(s, h, x, y) && StampOk(s, h, y);
  }

  // ---- Rollback goes by priority ----

  /** The run so far with its state and its history. */
  ghost predicate Reached(p: Policy, run: seq<Action>, s: State, h: History) {
    Feasible(p, INIT, run) && Exec(p, INIT, run) == s && RecordedAll(p, INIT, NO_HISTORY, run) == h
  }

  lemma {:induction false} RunOn(p: Policy, s: State, h: History, run: seq<Action>, a: Action)
    requires Feasible(p, s, run) && Enabled(Exec(p, s, run), a)
    ensures Feasible(p, s, run + [a]) && Exec(p, s, run + [a]) == Step(p, Exec(p, s, run), a)
    ensures RecordedAll(p, s, h, run + [a]) == Recorded(p, Exec(p, s, run), RecordedAll(p, s, h, run), a)
    decreases |run|
  {
    hide Step, Recorded, Enabled;
    if run == [] {
      assert run + [a] == [a] && [a][1..] == [];
    } else {
      RunOn(p, Step(p, s, run[0]), Recorded(p, s, h, run[0]), run[1..], a);
      assert (run + [a])[1..] == run[1..] + [a];
    }
  }

  lemma Further(p: Policy, run: seq<Action>, s: State, h: History, a: Action)
    requires Reached(p, run, s, h) && Enabled(s, a)
    ensures Reached(p, run + [a], Step(p, s, a), Recorded(p, s, h, a))
  {
    hide Step, Recorded, Enabled, Exec, RecordedAll, Feasible;
    RunOn(p, INIT, NO_HISTORY, run, a);
  }

  const AT_ONCE := Policy(-1, 0, 0, false)
  const TRANSACTED := Consumer(0, true)

  /** One message of each of two priorities, received by the transacted consumer in this order, and rolled back. */
  function LowThenHigh(): seq<Action> {
    [Push(0, 0, false, 0), Recv(TRANSACTED, 0), Push(1, 9, false, 0), Recv(TRANSACTED, 9),
     BeginWalk(TRANSACTED), Redeliver(TRANSACTED, false, 0), Redeliver(TRANSACTED, false, 0)]
  }

  /** The low one is received. */
  lemma FirstHeld() returns (s: State, h: History)
    ensures Reached(AT_ONCE, LowThenHigh()[..2], s, h)
    ensures s == State(INIT.queue, map[TRANSACTED := [0]], map[], map[], map[0 := Msg(0, false, 0, 0)], map[0 := Held(TRANSACTED)], [])
    ensures h == History(2, map[0 := Stamp(1, Some(TRANSACTED), None, 0)])
  {
    var run := LowThenHigh();
    Further(AT_ONCE, [], INIT, NO_HISTORY, run[0]);
    var s1, h1 := Step(AT_ONCE, INIT, run[0]), Recorded(AT_ONCE, INIT, NO_HISTORY, run[0]);
    assert s1.queue[0] == [0] && s1.queue[0][1..] == INIT.queue[0] && At(s1, 0, Queued);
    Further(AT_ONCE, [] + [run[0]], s1, h1, run[1]);
    s, h := Step(AT_ONCE, s1, run[1]), Recorded(AT_ONCE, s1, h1, run[1]);
    assert run[..2] == [] + [run[0]] + [run[1]];
    assert s.queue == INIT.queue;
  }

  /** The high one is received and stands first. */
  lemma BothHeld(s2: State, h2: History) returns (s: State, h: History)
    requires Reached(AT_ONCE, LowThenHigh()[..2], s2, h2) && h2 == History(2, map[0 := Stamp(1, Some(TRANSACTED), None, 0)])
    requires s2 == State(INIT.queue, map[TRANSACTED := [0]], map[], map[], map[0 := Msg(0, false, 0, 0)], map[0 := Held(TRANSACTED)], [])
    ensures Reached(AT_ONCE, LowThenHigh()[..4], s, h)
    ensures s.queue == INIT.queue && s.held == map[TRANSACTED := [1, 0]] && s.walk == map[] && s.removing == map[]
    ensures s.msgs == map[0 := Msg(0, false, 0, 0), 1 := Msg(9, false, 0, 0)] && s.place == map[0 := Held(TRANSACTED), 1 := Held(TRANSACTED)]
    ensures h == History(4, map[0 := Stamp(1, Some(TRANSACTED), None, 0), 1 := Stamp(3, Some(TRANSACTED), None, 2)])
  {
    hide Reached;
    var run := LowThenHigh();
    Further(AT_ONCE, run[..2], s2, h2, run[2]);
    var s3, h3 := Step(AT_ONCE, s2, run[2]), Recorded(AT_ONCE, s2, h2, run[2]);
    assert s3.queue[9] == [1] && s3.queue[9][1..] == INIT.queue[9] && At(s3, 1, Queued);
    Further(AT_ONCE, run[..2] + [run[2]], s3, h3, run[3]);
    s, h := Step(AT_ONCE, s3, run[3]), Recorded(AT_ONCE, s3, h3, run[3]);
    assert run[..4] == run[..2] + [run[2]] + [run[3]];
    assert s.queue == INIT.queue;
    assert Joined(s3.msgs, [0], 1) == [1] + [0] == [1, 0];
    assert Of(s3.held, TRANSACTED) == [0];
  }

  /** Rollback has begun. */
  lemma BothWalking(s4: State, h4: History) returns (s: State, h: History)
    requires Reached(AT_ONCE, LowThenHigh()[..4], s4, h4)
    requires s4.queue == INIT.queue && s4.held == map[TRANSACTED := [1, 0]] && s4.walk == map[] && s4.removing == map[]
    requires s4.msgs == map[0 := Msg(0, false, 0, 0), 1 := Msg(9, false, 0, 0)]
    requires s4.place == map[0 := Held(TRANSACTED), 1 := Held(TRANSACTED)]
    requires h4 == History(4, map[0 := Stamp(1, Some(TRANSACTED), None, 0), 1 := Stamp(3, Some(TRANSACTED), None, 2)])
    ensures Reached(AT_ONCE, LowThenHigh()[..5], s, h)
    ensures |s.queue| == 10 && s.walk == map[TRANSACTED := [1, 0]] && s.removing == map[] && s.msgs.Keys == {0, 1}
    ensures h == h4.(tick := 5)
    ensures LowThenHigh() == LowThenHigh()[..5] + [Redeliver(TRANSACTED, false, 0)] + [Redeliver(TRANSACTED, false, 0)]
  {
    hide Reached;
    var run := LowThenHigh();
    Further(AT_ONCE, run[..4], s4, h4, run[4]);
    s, h := Step(AT_ONCE, s4, run[4]), Recorded(AT_ONCE, s4, h4, run[4]);
    assert run[..5] == run[..4] + [run[4]];
  }

  /** One message of the walk goes back. */
  lemma OneReturned(s: State, h: History, c: ConsumerId, id: Id)
    requires |s.queue| == 10 && Of(s.walk, c) != [] && s.walk[c][0] == id && c !in s.removing && id in s.msgs && id in h.stamps
    ensures Enabled(s, Redeliver(c, false, 0))
    ensures var s', h' := Step(AT_ONCE, s, Redeliver(c, false, 0)), Recorded(AT_ONCE, s, h, Redeliver(c, false, 0));
      && |s'.queue| == 10 && s'.walk == s.walk[c := s.walk[c][1..]] && s'.removing == s.removing && s'.msgs.Keys == s.msgs.Keys
      && h' == History(h.tick + 1, h.stamps[id := h.stamps[id].(backAt := Some(h.tick), queuedAt := h.tick)])
  {
    hide DelayMs;
    assert At(Step(AT_ONCE, s, Redeliver(c, false, 0)), id, Queued);
  }

  /** Rollback gives a message of high priority back before one of low priority that was received first. */
  lemma RollbackByPriority()
    ensures Feasible(AT_ONCE, INIT, LowThenHigh())
    ensures var h := RecordedAll(AT_ONCE, INIT, NO_HISTORY, LowThenHigh());
      BothBack(h, 0, 1) && h.stamps[1].backAt.value < h.stamps[0].backAt.value
  {
    var s2, h2 := FirstHeld();
    var s4, h4 := BothHeld(s2, h2);
    var s5, h5 := BothWalking(s4, h4);
    TwoReturned(LowThenHigh()[..5], s5, h5, LowThenHigh());
  }

  lemma TwoReturned(before: seq<Action>, s5: State, h5: History, run: seq<Action>)
    requires Reached(AT_ONCE, before, s5, h5) && |s5.queue| == 10 && s5.walk == map[TRANSACTED := [1, 0]] && s5.removing == map[]
    requires s5.msgs.Keys == {0, 1}
    requires h5 == History(5, map[0 := Stamp(1, Some(TRANSACTED), None, 0), 1 := Stamp(3, Some(TRANSACTED), None, 2)])
    requires run == before + [Redeliver(TRANSACTED, false, 0)] + [Redeliver(TRANSACTED, false, 0)]
    ensures Feasible(AT_ONCE, INIT, run)
    ensures var h := RecordedAll(AT_ONCE, INIT, NO_HISTORY, run);
      BothBack(h, 0, 1) && h.stamps[1].backAt.value < h.stamps[0].backAt.value
  {
    hide Exec, RecordedAll, Feasible, Step, Recorded, Enabled;
    var a := Redeliver(TRANSACTED, false, 0);
    OneReturned(s5, h5, TRANSACTED, 1);
    Further(AT_ONCE, before, s5, h5, a);
    var s6, h6 := Step(AT_ONCE, s5, a), Recorded(AT_ONCE, s5, h5, a);
    OneReturned(s6, h6, TRANSACTED, 0);
    Further(AT_ONCE, before + [a], s6, h6, a);
  }
}
