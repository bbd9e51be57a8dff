/**
 What each step of redelivery does to every message and to the log, and what the log then holds after any run.
 */
module RedeliveryLaws {
  import opened Redelivery
  import RO = RedeliveryOrder

  // ---- One step, message by message ----

  /** The message that a step takes from the front of a list. */
  function Front(list: seq<Id>, id: Id): bool {
    list != [] && list[0] == id
  }

  /** Where a message goes whose delivery attempt was given back, when it had been redelivered count times before. */
  function PlaceBack(p: Policy, c: ConsumerId, count: nat, closing: bool): Place {
    if p.limit >= 0 && count >= p.limit then Removing(c)
    else if closing || p.backoffMs <= 0 then Queued
    else Scheduled
  }

  /** Which messages a step moves, and where to; every other message stays where it is, and no header changes but the walked one's. */
  lemma MovesExactly(p: Policy, run: seq<Action>, a: Action, id: Id)
    requires Feasible(p, INIT, run) && Enabled(Exec(p, INIT, run), a) && id in Exec(p, INIT, run).place
    ensures var s := Exec(p, INIT, run);
      var s', at := Step(p, s, a), s.place[id];
      && id in s'.place && id in s.msgs && id in s'.msgs
      && s'.msgs[id].band == s.msgs[id].band && s'.msgs[id].persistent == s.msgs[id].persistent
      && (s'.msgs[id] != s.msgs[id] ==> a.Redeliver? && Front(Of(s.walk, a.c), id))
      && s'.place[id] == match a
         case Push(_, _, _, _) => at
         case Fire(x) => if id == x then Queued else at
         case Recv(c, b) => if Front(s.queue[b], id) then Held(c) else at
         case Drop(c, b) => if Front(s.queue[b], id) then Expired else at
         case Ack(c, x) => if id == x then Acked else at
         case Commit(c) => if at == Held(c) then Acked else at
         case BeginWalk(c) => if at == Held(c) then Walking(c) else at
         case Redeliver(c, closing, _) =>
           if Front(Of(s.walk, c), id) then PlaceBack(p, c, s.msgs[id].count, closing) else at
         case RemoveOrigin(c) => if at == Removing(c) then Dead else at
         case Teardown(c) => if at == Held(c) then Gone else at
  {
    ReachableInv(p, run);
    var s := Exec(p, INIT, run);
    hide Exec, Feasible, Counted;
    Located(s, id);
    hide Placed, NoDup, Received, Enqueued, Without;
    assert s.place.Keys == s.msgs.Keys by { ReachableKeys(p, s); }
  }

  lemma ReachableKeys(p: Policy, s: State)
    requires Placed(s)
    ensures s.place.Keys == s.msgs.Keys
  {
  }

  /** A pushed message is queued if it is due at once and scheduled otherwise; it has never been redelivered. */
  lemma PushedGoes(p: Policy, run: seq<Action>, id: Id, band: Band, persistent: bool, dueAt: int)
    requires Feasible(p, INIT, run) && Enabled(Exec(p, INIT, run), Push(id, band, persistent, dueAt))
    ensures var s' := Step(p, Exec(p, INIT, run), Push(id, band, persistent, dueAt));
      && |s'.queue| == 10 && At(s', id, if dueAt == 0 then Queued else Scheduled)
      && (dueAt == 0 <==> id in s'.queue[band])
      && id in s'.msgs && s'.msgs[id] == Msg(band, persistent, 0, dueAt) && Times(s'.log, id) == 0
  {
    ReachableInv(p, run);
    var s := Exec(p, INIT, run);
    hide Exec, Feasible;
    NeverLogged(p, s, id, |s.log|);
    Located(s, id);
  }

  lemma FrontIsQueued(s: State, b: Band)
    requires Placed(s) && s.queue[b] != []
    ensures At(s, s.queue[b][0], Queued)
  {
    Located(s, s.queue[b][0]);
    assert s.queue[b][0] in s.queue[b];
  }

  /** A message is known from its Push on, and only then. */
  lemma {:induction false} KnownIfPushed(p: Policy, s: State, run: seq<Action>, id: Id)
    requires Inv(p, s) && Feasible(p, s, run)
    ensures id in Exec(p, s, run).place <==> id in s.place || Pushed(run, id)
    decreases |run|
  {
    if run != [] {
      var a := run[0];
      StepPlaced(p, s, a);
      StepCounted(p, s, a);
      KnownIfPushed(p, Step(p, s, a), run[1..], id);
      KnownNext(p, s, a, id);
      assert run == [a] + run[1..];
      assert forall i :: 0 <= i < |run| - 1 ==> run[1..][i] == run[i + 1];
    }
  }

  predicate Pushed(run: seq<Action>, id: Id) {
    exists i :: 0 <= i < |run| && run[i].Push? && run[i].id == id
  }

  lemma KnownNext(p: Policy, s: State, a: Action, id: Id)
    requires Placed(s) && Enabled(s, a)
    ensures id in Step(p, s, a).place <==> id in s.place || (a.Push? && a.id == id)
  {
    match a
    case Recv(c, b) => FrontIsQueued(s, b);
    case Drop(c, b) => FrontIsQueued(s, b);
    case Redeliver(c, _, _) => Located(s, s.walk[c][0]); assert s.walk[c][0] in Of(s.walk, c);
    case RemoveOrigin(c) => Located(s, s.removing[c]); assert Removes(s, c, s.removing[c]);
    case Ack(_, x) => Located(s, x);
    case _ =>
  }

  /** What goes to a consumer: every other message in the queue has a lower priority, or the same and was queued later. */
  lemma HighestThenFirst(p: Policy, run: seq<Action>, c: ConsumerId, b: Band, id: Id, x: Id)
    requires Feasible(p, INIT, run) && Enabled(Exec(p, INIT, run), Recv(c, b))
    requires At(Step(p, Exec(p, INIT, run), Recv(c, b)), id, Held(c)) && !At(Exec(p, INIT, run), id, Held(c))
    requires At(Exec(p, INIT, run), x, Queued) && x != id
    ensures var s, h := Exec(p, INIT, run), RO.RecordedAll(p, INIT, RO.NO_HISTORY, run);
      && At(s, id, Queued) && x in s.msgs && id in s.msgs && x in h.stamps && id in h.stamps
      && (s.msgs[x].band < s.msgs[id].band
          || (s.msgs[x].band == s.msgs[id].band && h.stamps[id].queuedAt < h.stamps[x].queuedAt))
  {
    ReachableInv(p, run);
    RO.ReachableOrdered(p, run);
    var s, h := Exec(p, INIT, run), RO.RecordedAll(p, INIT, RO.NO_HISTORY, run);
    hide Exec, Feasible, Counted, RO.RecordedAll;
    FrontBeats(p, s, h, c, b, id, x);
  }

  lemma FrontBeats(p: Policy, s: State, h: RO.History, c: ConsumerId, b: Band, id: Id, x: Id)
    requires Placed(s) && RO.Ordered(s, h) && Enabled(s, Recv(c, b)) && At(Step(p, s, Recv(c, b)), id, Held(c)) && !At(s, id, Held(c))
    requires At(s, x, Queued) && x != id
    ensures At(s, id, Queued) && x in s.msgs && id in s.msgs && x in h.stamps && id in h.stamps
    ensures s.msgs[x].band < s.msgs[id].band
            || (s.msgs[x].band == s.msgs[id].band && h.stamps[id].queuedAt < h.stamps[x].queuedAt)
  {
    Located(s, id);
    Located(s, x);
    assert s.queue[b][0] == id && id in s.queue[b];
    assert x in s.queue[s.msgs[x].band];
    assert s.msgs[x].band <= b;
    assert RO.ByQueueing(h, s.queue[b]);
    if s.msgs[x].band == b {
      var j :| 0 <= j < |s.queue[b]| && s.queue[b][j] == x;
    }
  }

  /** In every reachable state a consumer that is not in a walk can receive or drop a message exactly if one is queued. */
  lemma CanReceive(p: Policy, run: seq<Action>, c: ConsumerId)
    requires Feasible(p, INIT, run) && Idle(Exec(p, INIT, run), c)
    ensures var s := Exec(p, INIT, run);
      (exists id :: At(s, id, Queued)) <==> exists b: Band :: Enabled(s, Recv(c, b)) && Enabled(s, Drop(c, b))
  {
    ReachableInv(p, run);
    var s := Exec(p, INIT, run);
    hide Exec, Feasible, Counted;
    if id :| At(s, id, Queued) {
      Located(s, id);
      TopBand(s, s.msgs[id].band, 9);
      var b: Band :| IsTop(s.queue, b);
      assert Enabled(s, Recv(c, b)) && Enabled(s, Drop(c, b));
    }
    if b: Band :| Enabled(s, Recv(c, b)) {
      FrontIsQueued(s, b);
    }
  }

  /** It can acknowledge what it holds, or commit, and begin a walk; a walk that has begun can go on; a scheduled message can fire. */
  lemma CanGoOn(p: Policy, run: seq<Action>, c: ConsumerId, id: Id, now: int)
    requires Feasible(p, INIT, run)
    ensures var s := Exec(p, INIT, run);
      && (Idle(s, c) ==>
            && Enabled(s, BeginWalk(c)) && (c.transacted ==> Enabled(s, Commit(c)))
            && (At(s, id, Held(c)) && !c.transacted ==> Enabled(s, Ack(c, id))))
      && (!Idle(s, c) ==> Enabled(s, Redeliver(c, false, now)) || Enabled(s, RemoveOrigin(c)))
      && (At(s, id, Scheduled) ==> Enabled(s, Fire(id)))
  {
    ReachableInv(p, run);
    var s := Exec(p, INIT, run);
    hide Exec, Feasible, Counted;
    assert HeldOk(s, c);
    if Of(s.walk, c) != [] {
      WalkedIsKnown(s, c);
    }
    if c in s.removing {
      RemovedIsKnown(s, c);
    }
  }

  lemma {:induction false} TopBand(s: State, b: Band, top: Band)
    requires |s.queue| == 10 && s.queue[b] != [] && b <= top && forall x :: top < x < 10 ==> s.queue[x] == []
    ensures exists x: Band :: IsTop(s.queue, x)
    decreases top
  {
    if s.queue[top] == [] {
      TopBand(s, b, top - 1);
    } else {
      assert IsTop(s.queue, top);
    }
  }

  // ---- The log ----

  /** How often an event is in the log. */
  function Logged(log: seq<Event>, e: Event): nat {
    if log == [] then 0 else (if log[|log| - 1] == e then 1 else 0) + Logged(log[..|log| - 1], e)
  }

  lemma LoggedNext(log: seq<Event>, x: Event)
    ensures forall e :: Logged(log + [x], e) == Logged(log, e) + if x == e then 1 else 0
  {
    assert (log + [x])[..|log|] == log;
  }

  lemma LoggedTwo(log: seq<Event>, x: Event, y: Event)
    ensures forall e :: Logged(log + [x, y], e) == Logged(log, e) + (if x == e then 1 else 0) + if y == e then 1 else 0
  {
    LoggedNext(log, x);
    LoggedNext(log + [x], y);
    assert log + [x] + [y] == log + [x, y];
  }

  /** What the log holds about a message: one record of its burial from then on, and one of its removal if it was stored. */
  ghost predicate Told(p: Policy, s: State, id: Id) {
    var buried := id in s.place && (s.place[id].Removing? || s.place[id].Dead?);
    && Logged(s.log, DlqAppend(id)) == (if buried && p.hasDlq then 1 else 0)
    && Logged(s.log, NoDlq(id)) == (if buried && !p.hasDlq then 1 else 0)
    && Logged(s.log, OriginRemoved(id)) == (if At(s, id, Dead) && id in s.msgs && s.msgs[id].persistent then 1 else 0)
  }

  /** A step that logs nothing and changes nothing about burial. */
  lemma QuietTold(p: Policy, s: State, s': State, id: Id)
    requires Told(p, s, id) && s'.log == s.log
    requires At(s, id, Dead) <==> At(s', id, Dead)
    requires (id in s.place && s.place[id].Removing?) <==> (id in s'.place && s'.place[id].Removing?)
    requires At(s, id, Dead) ==> id in s.msgs && id in s'.msgs && s'.msgs[id].persistent == s.msgs[id].persistent
    ensures Told(p, s', id)
  {
  }

  lemma WalkedIsKnown(s: State, c: ConsumerId)
    requires Placed(s) && Of(s.walk, c) != []
    ensures At(s, s.walk[c][0], Walking(c))
  {
    Located(s, s.walk[c][0]);
    assert s.walk[c][0] in Of(s.walk, c);
  }

  lemma RemovedIsKnown(s: State, c: ConsumerId)
    requires Placed(s) && c in s.removing
    ensures At(s, s.removing[c], Removing(c)) && s.removing[c] in s.msgs
  {
    Located(s, s.removing[c]);
    assert Removes(s, c, s.removing[c]);
  }

  lemma RedeliverTold(p: Policy, s: State, c: ConsumerId, closing: bool, now: int, id: Id)
    requires Placed(s) && Told(p, s, id) && Enabled(s, Redeliver(c, closing, now))
    ensures Told(p, Step(p, s, Redeliver(c, closing, now)), id)
  {
    hide Pow2, DelayMs, Enqueued, Logged;
    WalkedIsKnown(s, c);
    hide Placed;
    var x := s.walk[c][0];
    var buried := if p.hasDlq then DlqAppend(x) else NoDlq(x);
    LoggedNext(s.log, Redelivered(x));
    LoggedTwo(s.log, Redelivered(x), buried);
  }

  lemma RemoveOriginTold(p: Policy, s: State, c: ConsumerId, id: Id)
    requires Placed(s) && Told(p, s, id) && Enabled(s, RemoveOrigin(c))
    ensures Told(p, Step(p, s, RemoveOrigin(c)), id)
  {
    hide Logged;
    RemovedIsKnown(s, c);
    hide Placed;
    LoggedNext(s.log, OriginRemoved(s.removing[c]));
  }

  lemma StepTold(p: Policy, s: State, a: Action, id: Id)
    requires Placed(s) && Told(p, s, id) && Enabled(s, a)
    ensures Told(p, Step(p, s, a), id)
  {
    hide Logged, Told, Pow2, AfterRedeliver, Received, Enqueued, Without;
    match a
    case Redeliver(c, closing, now) => RedeliverTold(p, s, c, closing, now, id);
    case RemoveOrigin(c) => RemoveOriginTold(p, s, c, id);
    case Recv(_, b) => FrontIsQueued(s, b); QuietTold(p, s, Step(p, s, a), id);
    case Drop(_, b) => FrontIsQueued(s, b); QuietTold(p, s, Step(p, s, a), id);
    case Ack(_, x) => Located(s, x); QuietTold(p, s, Step(p, s, a), id);
    case _ => QuietTold(p, s, Step(p, s, a), id);
  }

  lemma {:induction false} RunTold(p: Policy, s: State, run: seq<Action>, id: Id)
    requires Inv(p, s) && Told(p, s, id) && Feasible(p, s, run)
    ensures Told(p, Exec(p, s, run), id)
    decreases |run|
  {
    if run != [] {
      StepPlaced(p, s, run[0]);
      StepCounted(p, s, run[0]);
      StepTold(p, s, run[0], id);
      RunTold(p, Step(p, s, run[0]), run[1..], id);
    }
  }

  /**
   After any run the log tells once of each burial, in the dead-letter queue or for want of one, and of the removal of
   the origin record once if the message is dead and was stored, and otherwise not at all.
   */
  lemma BurialsLogged(p: Policy, run: seq<Action>, id: Id)
    requires Feasible(p, INIT, run)
    ensures Told(p, Exec(p, INIT, run), id)
  {
    ReachableInv(p, []);
    RunTold(p, INIT, run, id);
  }

  /** Removing the origin makes a stored message dead and its record leaves: none was removed before, one is now. */
  lemma OriginRemovedOnce(p: Policy, run: seq<Action>, c: ConsumerId)
    requires Feasible(p, INIT, run) && Enabled(Exec(p, INIT, run), RemoveOrigin(c))
    ensures var s := Exec(p, INIT, run);
      var s', id := Step(p, s, RemoveOrigin(c)), s.removing[c];
      && At(s', id, Dead) && Logged(s.log, OriginRemoved(id)) == 0
      && Logged(s'.log, OriginRemoved(id)) == (if s.msgs[id].persistent then 1 else 0)
  {
    var s := Exec(p, INIT, run);
    ReachableInv(p, run);
    BurialsLogged(p, run, s.removing[c]);
    hide Exec, Feasible, Counted;
    Located(s, s.removing[c]);
    assert Removes(s, c, s.removing[c]);
    RemoveOriginTold(p, s, c, s.removing[c]);
  }

  /** Without a limit nothing is ever buried. */
  lemma UnlimitedNeverBuries(p: Policy, run: seq<Action>, id: Id)
    requires Feasible(p, INIT, run) && p.limit < 0 && id in Exec(p, INIT, run).place
    ensures !Exec(p, INIT, run).place[id].Removing? && !Exec(p, INIT, run).place[id].Dead?
  {
    ReachableInv(p, []);
    RunUnlimited(p, INIT, run, id);
  }

  lemma {:induction false} RunUnlimited(p: Policy, s: State, run: seq<Action>, id: Id)
    requires Placed(s) && Feasible(p, s, run) && p.limit < 0
    requires id in s.place ==> !s.place[id].Removing? && !s.place[id].Dead?
    ensures var s' := Exec(p, s, run); id in s'.place ==> !s'.place[id].Removing? && !s'.place[id].Dead?
    decreases |run|
  {
    if run != [] {
      var a := run[0];
      StepPlaced(p, s, a);
      StepUnlimited(p, s, a, id);
      RunUnlimited(p, Step(p, s, a), run[1..], id);
    }
  }

  lemma StepUnlimited(p: Policy, s: State, a: Action, id: Id)
    requires Placed(s) && Enabled(s, a) && p.limit < 0
    requires id in s.place ==> !s.place[id].Removing? && !s.place[id].Dead?
    ensures var s' := Step(p, s, a); id in s'.place ==> !s'.place[id].Removing? && !s'.place[id].Dead?
  {
    if a.RemoveOrigin? {
      Located(s, s.removing[a.c]);
      assert Removes(s, a.c, s.removing[a.c]);
    }
  }
}
