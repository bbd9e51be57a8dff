/** Whole runs of the transaction buffer: which messages reach the storage. */
module TransactionRuns {
  import opened Bytes
  import opened Options
  import opened TransactionLog

  /** What the log says became of a message. */
  datatype Fate = Waiting | Kept | Undone

  function Fates(log: seq<Line>): map<Uuid, Fate> {
    if log == [] then map[]
    else
      var before, open, line := Fates(log[..|log| - 1]), Replay(log[..|log| - 1]), log[|log| - 1];
      match line
      case Begin(_) => before
      case Add(tx, id) => if tx in open then before[id := Waiting] else before
      case Commit(tx) => Closed(before, open, tx, Kept)
      case Rollback(tx) => Closed(before, open, tx, Undone)
  }

  function Closed(fates: map<Uuid, Fate>, open: Open, tx: TxId, fate: Fate): map<Uuid, Fate> {
    map id | id in fates :: if tx in open && id in open[tx] then fate else fates[id]
  }

  /**
   hands are the batches of commits that have released the mutex and not yet written. issued is the history of all
   batches in commit order; handAt and written say which of them the hands are and which were written, in order.
   */
  datatype State = State(
    b: Buffer,
    hands: seq<seq<(Uuid, Bytes)>>,
    stored: seq<(Uuid, Bytes)>,
    issued: seq<seq<(Uuid, Bytes)>>,
    handAt: seq<nat>,
    written: seq<nat>)

  datatype Action =
    | AddMessage(tx: TxId, id: Uuid, data: Bytes)
    | Patch(id: Uuid, t: Int64)
    | CommitLocked(tx: TxId)
    | Flush(k: nat)
    | RollbackTx(tx: TxId)
    | CrashAndLoad(begun: Option<TxId>)  // of a transaction whose first addMessage has written its BEGIN line only
    | Recover(order: seq<TxId>)

  function BeginLine(begun: Option<TxId>): seq<Line> {
    if begun.Some? then [Begin(begun.value)] else []
  }

  /** What a log gives back after a crash. */
  function Reloaded(log: seq<Line>): Buffer {
    Buffer(Replay(log), map[], log)
  }

  /** A message is added under a uuid that was never used before. */
  predicate Enabled(s: State, a: Action) {
    match a
    case AddMessage(_, id, _) => id !in Fates(s.b.log)
    case Flush(k) => k < |s.hands| && k < |s.handAt|
    case CrashAndLoad(begun) => begun.Some? ==> begun.value !in s.b.open
    case _ => true
  }

  function Step(s: State, a: Action): State
    requires Enabled(s, a)
  {
    match a
    case AddMessage(tx, id, data) => s.(b := Added(s.b, tx, id, data))
    case Patch(id, t) => s.(b := Retimed(s.b, id, t))
    case CommitLocked(tx) =>
      if tx !in s.b.open then s
      else
        var batch := Batch(s.b.open[tx], s.b.buffered);
        s.(b := Committed(s.b, tx), hands := s.hands + [batch], issued := s.issued + [batch], handAt := s.handAt + [|s.issued|])
    case Flush(k) =>
      s.(hands := s.hands[..k] + s.hands[k + 1..], stored := s.stored + s.hands[k],
         handAt := s.handAt[..k] + s.handAt[k + 1..], written := s.written + [s.handAt[k]])
    case RollbackTx(tx) => s.(b := RolledBack(s.b, tx))
    case CrashAndLoad(begun) => s.(b := Reloaded(s.b.log + BeginLine(begun)), hands := [], handAt := [])
    case Recover(order) => s.(b := Recovered(s.b, order))
  }

  predicate Feasible(s: State, run: seq<Action>)
    decreases |run|
  {
    run == [] || (Enabled(s, run[0]) && Feasible(Step(s, run[0]), run[1..]))
  }

  function Exec(s: State, run: seq<Action>): State
    requires Feasible(s, run)
    decreases |run|
  {
    if run == [] then s else Exec(Step(s, run[0]), run[1..])
  }

  const EMPTY := State(Buffer(map[], map[], []), [], [], [], [], [])

  // ---- How often a message was taken for storing ----

  function Occurs(list: seq<(Uuid, Bytes)>, id: Uuid): nat {
    if list == [] then 0 else (if list[0].0 == id then 1 else 0) + Occurs(list[1..], id)
  }

  function OccursIn(hands: seq<seq<(Uuid, Bytes)>>, id: Uuid): nat {
    if hands == [] then 0 else Occurs(hands[0], id) + OccursIn(hands[1..], id)
  }

  lemma {:induction false} OccursJoin(a: seq<(Uuid, Bytes)>, b: seq<(Uuid, Bytes)>, id: Uuid)
    ensures Occurs(a + b, id) == Occurs(a, id) + Occurs(b, id)
  {
    if a == [] {
      assert a + b == b;
    } else {
      assert (a + b)[1..] == a[1..] + b;
      OccursJoin(a[1..], b, id);
    }
  }

  lemma {:induction false} OccursInJoin(a: seq<seq<(Uuid, Bytes)>>, b: seq<seq<(Uuid, Bytes)>>, id: Uuid)
    ensures OccursIn(a + b, id) == OccursIn(a, id) + OccursIn(b, id)
  {
    if a == [] {
      assert a + b == b;
    } else {
      assert (a + b)[1..] == a[1..] + b;
      OccursInJoin(a[1..], b, id);
    }
  }

  /** A batch holds a message at most once, and only buffered messages of its transaction. */
  lemma {:induction false} BatchOccurs(ids: seq<Uuid>, buffered: map<Uuid, Bytes>, id: Uuid)
    ensures Occurs(Batch(ids, buffered), id) == if id in ids && id in buffered then 1 else 0
  {
    if ids != [] {
      if ids[0] in buffered {
        BatchOccurs(ids[1..], buffered - {ids[0]}, id);
        assert Batch(ids, buffered)[1..] == Batch(ids[1..], buffered - {ids[0]});
      } else {
        BatchOccurs(ids[1..], buffered, id);
      }
    }
  }

  /** If nothing of it was lost, a transaction is stored in the order in which it was filled, with the buffered bytes. */
  lemma {:induction false} BatchComplete(ids: seq<Uuid>, buffered: map<Uuid, Bytes>)
    requires forall i :: 0 <= i < |ids| ==> ids[i] in buffered
    requires forall i, j :: 0 <= i < j < |ids| ==> ids[i] != ids[j]
    ensures |Batch(ids, buffered)| == |ids|
    ensures forall i :: 0 <= i < |ids| ==> Batch(ids, buffered)[i] == (ids[i], buffered[ids[i]])
  {
    if ids != [] {
      BatchComplete(ids[1..], buffered - {ids[0]});
    }
  }

  // ---- The invariant ----

  ghost predicate FateIs(log: seq<Line>, id: Uuid, fate: Fate) {
    id in Fates(log) && Fates(log)[id] == fate
  }

  function Taken(s: State, id: Uuid): nat {
    Occurs(s.stored, id) + OccursIn(s.hands, id)
  }

  ghost predicate OpenWaits(log: seq<Line>) {
    forall tx, i {:trigger At(Replay(log), tx, i)} :: At(Replay(log), tx, i) ==> FateIs(log, Replay(log)[tx][i], Waiting)
  }

  /** Only committed messages were taken for storing, each at most once; only waiting ones are buffered. */
  ghost predicate Inv(s: State) {
    && Logged(s.b) && Distinct(s.b.open) && OpenWaits(s.b.log)
    && (forall id :: id in s.b.buffered ==> FateIs(s.b.log, id, Waiting))
    && (forall id {:trigger Taken(s, id)} :: Taken(s, id) <= if FateIs(s.b.log, id, Kept) then 1 else 0)
  }

  lemma FatesNext(log: seq<Line>, line: Line)
    ensures var log' := log + [line];
      match line
      case Begin(_) => Fates(log') == Fates(log)
      case Add(tx, id) => Fates(log') == if tx in Replay(log) then Fates(log)[id := Waiting] else Fates(log)
      case Commit(tx) => Fates(log') == Closed(Fates(log), Replay(log), tx, Kept)
      case Rollback(tx) => Fates(log') == Closed(Fates(log), Replay(log), tx, Undone)
  {
    assert (log + [line])[..|log|] == log;
  }

  /** What addMessage does to the log's account of messages. */
  lemma AddFates(b: Buffer, tx: TxId, id: Uuid, data: Bytes)
    requires Logged(b)
    ensures Fates(Added(b, tx, id, data).log) == Fates(b.log)[id := Waiting]
  {
    var log := b.log;
    var log1 := if tx in b.open then log else log + [Begin(tx)];
    FatesNext(log, Begin(tx));
    ReplayNext(log, Begin(tx));
    FatesNext(log1, Add(tx, id));
    assert Added(b, tx, id, data).log == log1 + [Add(tx, id)] by {
      assert log + [] == log;
    }
  }

  lemma AddWaits(b: Buffer, tx: TxId, id: Uuid, data: Bytes)
    requires Logged(b) && OpenWaits(b.log)
    ensures OpenWaits(Added(b, tx, id, data).log)
  {
    var b' := Added(b, tx, id, data);
    AddedLogged(b, tx, id, data);
    AddFates(b, tx, id, data);
    hide Fates, Replay;
    forall ty, i | At(Replay(b'.log), ty, i)
      ensures FateIs(b'.log, Replay(b'.log)[ty][i], Waiting)
    {
      if Replay(b'.log)[ty][i] != id {
        assert At(Replay(b.log), ty, i);
      }
    }
  }

  lemma AddKeeps(s: State, tx: TxId, id: Uuid, data: Bytes)
    requires Inv(s) && id !in Fates(s.b.log)
    ensures Inv(Step(s, AddMessage(tx, id, data)))
  {
    hide Fates, Replay;
    var s' := Step(s, AddMessage(tx, id, data));
    assert Unused(s.b.open, id) by {
      forall ty, i | At(s.b.open, ty, i) ensures s.b.open[ty][i] != id {
        assert FateIs(s.b.log, s.b.open[ty][i], Waiting);
      }
    }
    AddedLogged(s.b, tx, id, data);
    AddedDistinct(s.b, tx, id, data);
    AddWaits(s.b, tx, id, data);
    AddFates(s.b, tx, id, data);
    hide Added, Logged, Distinct, OpenWaits;
    forall x
      ensures Taken(s', x) <= if FateIs(s'.b.log, x, Kept) then 1 else 0
    {
      assert Taken(s', x) == Taken(s, x);
    }
    assert s'.b.buffered == s.b.buffered[id := data] by {
      AddedBuffers(s.b, tx, id, data);
    }
  }

  lemma AddedBuffers(b: Buffer, tx: TxId, id: Uuid, data: Bytes)
    ensures Added(b, tx, id, data).buffered == b.buffered[id := data]
  {
  }

  lemma PatchKeeps(s: State, id: Uuid, t: Int64)
    requires Inv(s)
    ensures Inv(Step(s, Patch(id, t)))
  {
    var s' := Step(s, Patch(id, t));
    forall x
      ensures Taken(s', x) <= if FateIs(s'.b.log, x, Kept) then 1 else 0
    {
      assert Taken(s', x) == Taken(s, x);
    }
  }

  /** Closing a transaction: its messages no longer wait, the others are as before. */
  lemma ClosedFates(b: Buffer, tx: TxId, line: Line, fate: Fate)
    requires Logged(b) && Distinct(b.open) && OpenWaits(b.log) && tx in b.open
    requires (line == Commit(tx) && fate == Kept) || (line == Rollback(tx) && fate == Undone)
    ensures OpenWaits(b.log + [line])
    ensures forall id :: id in b.open[tx] ==> FateIs(b.log + [line], id, fate)
    ensures forall id, f :: id !in b.open[tx] ==> (FateIs(b.log + [line], id, f) <==> FateIs(b.log, id, f))
  {
    var log' := b.log + [line];
    FatesNext(b.log, line);
    ReplayNext(b.log, line);
    forall ty, i | At(Replay(log'), ty, i)
      ensures FateIs(log', Replay(log')[ty][i], Waiting)
    {
      assert At(b.open, ty, i) && ty != tx;
      var id := b.open[ty][i];
      assert id !in b.open[tx] by {
        assert forall j :: 0 <= j < |b.open[tx]| ==> At(b.open, tx, j);
      }
      assert FateIs(b.log, id, Waiting);
    }
    forall id | id in b.open[tx]
      ensures FateIs(log', id, fate)
    {
      var j :| 0 <= j < |b.open[tx]| && b.open[tx][j] == id;
      assert At(b.open, tx, j);
    }
  }

  lemma CommitKeeps(s: State, tx: TxId)
    requires Inv(s) && tx in s.b.open
    ensures Inv(Step(s, CommitLocked(tx)))
  {
    var s', ids := Step(s, CommitLocked(tx)), s.b.open[tx];
    ClosedLogged(s.b, tx);
    ClosedDistinct(s.b, tx);
    ClosedFates(s.b, tx, Commit(tx), Kept);
    forall id
      ensures Taken(s', id) <= if FateIs(s'.b.log, id, Kept) then 1 else 0
    {
      OccursInJoin(s.hands, [Batch(ids, s.b.buffered)], id);
      BatchOccurs(ids, s.b.buffered, id);
      assert Taken(s', id) == Taken(s, id) + Occurs(Batch(ids, s.b.buffered), id);
      if id in ids {
        var j :| 0 <= j < |ids| && ids[j] == id;
        assert At(s.b.open, tx, j);
      }
    }
  }

  lemma RollbackKeeps(s: State, b': Buffer, tx: TxId)
    requires Inv(s) && b' == RolledBack(s.b, tx)
    ensures Inv(s.(b := b'))
  {
    if tx in s.b.open {
      var s' := s.(b := b');
      ClosedLogged(s.b, tx);
      ClosedDistinct(s.b, tx);
      ClosedFates(s.b, tx, Rollback(tx), Undone);
      forall id
        ensures Taken(s', id) <= if FateIs(s'.b.log, id, Kept) then 1 else 0
      {
        assert Taken(s', id) == Taken(s, id);
        if id in s.b.open[tx] {
          var j :| 0 <= j < |s.b.open[tx]| && s.b.open[tx][j] == id;
          assert At(s.b.open, tx, j);
        }
      }
    }
  }

  lemma {:induction false} RecoverKeeps(s: State, order: seq<TxId>)
    requires Inv(s)
    ensures Inv(s.(b := Recovered(s.b, order)))
  {
    if order == [] {
      assert s.(b := s.b) == s;
    } else {
      var init := order[..|order| - 1];
      RecoverKeeps(s, init);
      var s1 := s.(b := Recovered(s.b, init));
      RollbackKeeps(s1, Recovered(s.b, order), order[|order| - 1]);
      assert s1.(b := Recovered(s.b, order)) == s.(b := Recovered(s.b, order));
    }
  }

  lemma FlushKeeps(s: State, k: nat)
    requires Inv(s) && Enabled(s, Flush(k))
    ensures Inv(Step(s, Flush(k)))
  {
    var s' := Step(s, Flush(k));
    forall id
      ensures Taken(s', id) <= if FateIs(s'.b.log, id, Kept) then 1 else 0
    {
      OccursJoin(s.stored, s.hands[k], id);
      assert s.hands == s.hands[..k] + ([s.hands[k]] + s.hands[k + 1..]);
      OccursInJoin(s.hands[..k], [s.hands[k]] + s.hands[k + 1..], id);
      OccursInJoin([s.hands[k]], s.hands[k + 1..], id);
      OccursInJoin(s.hands[..k], s.hands[k + 1..], id);
      assert Taken(s', id) == Taken(s, id);
    }
  }

  /** A BEGIN line opens an empty transaction and changes nothing else. */
  lemma BeginReloads(b: Buffer, begun: Option<TxId>)
    requires Logged(b) && (begun.Some? ==> begun.value !in b.open)
    ensures var b' := Reloaded(b.log + BeginLine(begun));
      && b'.open == (if begun.Some? then b.open[begun.value := []] else b.open) && b'.buffered == map[]
      && Logged(b') && Fates(b'.log) == Fates(b.log)
  {
    if begun.Some? {
      ReplayNext(b.log, Begin(begun.value));
      FatesNext(b.log, Begin(begun.value));
    } else {
      assert b.log + [] == b.log;
    }
  }

  lemma CrashKeeps(s: State, begun: Option<TxId>)
    requires Inv(s) && Enabled(s, CrashAndLoad(begun))
    ensures Inv(Step(s, CrashAndLoad(begun)))
  {
    hide Fates, Replay, Reloaded;
    var s' := Step(s, CrashAndLoad(begun));
    BeginReloads(s.b, begun);
    forall id
      ensures Taken(s', id) <= if FateIs(s'.b.log, id, Kept) then 1 else 0
    {
      assert Taken(s', id) <= Taken(s, id);
    }
    forall tx, i | At(Replay(s'.b.log), tx, i) ensures FateIs(s'.b.log, Replay(s'.b.log)[tx][i], Waiting) {
      assert At(Replay(s.b.log), tx, i);
    }
    forall tx, i, ty, j | At(s'.b.open, tx, i) && At(s'.b.open, ty, j) && s'.b.open[tx][i] == s'.b.open[ty][j]
      ensures tx == ty && i == j
    {
      assert At(s.b.open, tx, i) && At(s.b.open, ty, j);
    }
  }

  lemma StepKeeps(s: State, a: Action)
    requires Inv(s) && Enabled(s, a)
    ensures Inv(Step(s, a))
  {
    match a {
      case AddMessage(tx, id, data) => AddKeeps(s, tx, id, data);
      case Patch(id, t) => PatchKeeps(s, id, t);
      case CommitLocked(tx) => if tx in s.b.open { CommitKeeps(s, tx); }
      case Flush(k) => FlushKeeps(s, k);
      case RollbackTx(tx) => RollbackKeeps(s, RolledBack(s.b, tx), tx);
      case CrashAndLoad(begun) => CrashKeeps(s, begun);
      case Recover(order) => RecoverKeeps(s, order);
    }
  }

  lemma {:induction false} RunKeeps(s: State, run: seq<Action>)
    requires Inv(s) && Feasible(s, run)
    ensures Inv(Exec(s, run))
    decreases |run|
  {
    if run != [] {
      StepKeeps(s, run[0]);
      RunKeeps(Step(s, run[0]), run[1..]);
    }
  }

  // ---- Main results ----

  lemma ReachableInv(run: seq<Action>)
    requires Feasible(EMPTY, run)
    ensures Inv(Exec(EMPTY, run))
  {
    forall id
      ensures Taken(EMPTY, id) == 0
    {
    }
    RunKeeps(EMPTY, run);
  }

  /** Every element of a list occurs in it. */
  lemma {:induction false} ListedOccurs(list: seq<(Uuid, Bytes)>, k: nat)
    requires k < |list|
    ensures Occurs(list, list[k].0) >= 1
  {
    if k > 0 {
      ListedOccurs(list[1..], k - 1);
    }
  }

  /** At every point of any run the log replays to exactly the open transactions with their message lists. */
  lemma LogTellsOpen(run: seq<Action>)
    requires Feasible(EMPTY, run)
    ensures Replay(Exec(EMPTY, run).b.log) == Exec(EMPTY, run).b.open
  {
    ReachableInv(run);
  }

  /** What is in the storage was committed, is there once, and is neither of an open nor of a rolled-back transaction. */
  lemma NoDirtyWrites(run: seq<Action>, k: nat)
    requires Feasible(EMPTY, run) && k < |Exec(EMPTY, run).stored|
    ensures var s := Exec(EMPTY, run);
      && FateIs(s.b.log, s.stored[k].0, Kept)
      && Occurs(s.stored, s.stored[k].0) == 1
      && (forall tx :: tx in Replay(s.b.log) ==> s.stored[k].0 !in Replay(s.b.log)[tx])
  {
    ReachableInv(run);
    var s := Exec(EMPTY, run);
    var id := s.stored[k].0;
    ListedOccurs(s.stored, k);
    assert Taken(s, id) <= 1;
    forall tx | tx in Replay(s.b.log)
      ensures id !in Replay(s.b.log)[tx]
    {
      forall i | 0 <= i < |Replay(s.b.log)[tx]|
        ensures Replay(s.b.log)[tx][i] != id
      {
        assert At(Replay(s.b.log), tx, i);
      }
    }
  }

  /** A message whose fate is Kept was added to a transaction and that transaction was committed later on. */
  lemma {:induction false} KeptWasCommitted(log: seq<Line>, id: Uuid) returns (tx: TxId, i: nat, j: nat)
    requires FateIs(log, id, Kept)
    ensures i < j < |log| && log[i] == Add(tx, id) && log[j] == Commit(tx)
    ensures forall k :: i < k < j ==> log[k] != Rollback(tx) && log[k] != Commit(tx)
  {
    var init, n := log[..|log| - 1], |log| - 1;
    assert log == init + [log[n]];
    FatesNext(init, log[n]);
    if FateIs(init, id, Kept) {
      tx, i, j := KeptWasCommitted(init, id);
    } else {
      tx, j := log[n].tx, n;
      i := OpenWasAdded(init, tx, id);
    }
  }

  lemma {:induction false} OpenWasAdded(log: seq<Line>, tx: TxId, id: Uuid) returns (i: nat)
    requires tx in Replay(log) && id in Replay(log)[tx]
    ensures i < |log| && log[i] == Add(tx, id)
    ensures forall k :: i < k < |log| ==> log[k] != Rollback(tx) && log[k] != Commit(tx)
  {
    var init, n := log[..|log| - 1], |log| - 1;
    if log[n] == Add(tx, id) {
      i := n;
    } else {
      i := OpenWasAdded(init, tx, id);
    }
  }
}
