/** The transaction log, what replaying it yields, and the buffer of uncommitted messages beside it. */
module TransactionLog {
  import opened Bytes
  import Codec

  /** A transaction id; only equality of ids matters. */
  type TxId = nat

  datatype Line = Begin(tx: TxId) | Add(tx: TxId, id: Uuid) | Commit(tx: TxId) | Rollback(tx: TxId)

  /** The open transactions with the messages added to them. */
  type Open = map<TxId, seq<Uuid>>

  function Apply(open: Open, line: Line): Open {
    match line
    case Begin(tx) => open[tx := []]
    case Add(tx, id) => if tx in open then open[tx := open[tx] + [id]] else open
    case Commit(tx) => open - {tx}
    case Rollback(tx) => open - {tx}
  }

  function Replay(log: seq<Line>): Open {
    if log == [] then map[] else Apply(Replay(log[..|log| - 1]), log[|log| - 1])
  }

  lemma ReplayNext(log: seq<Line>, line: Line)
    ensures Replay(log + [line]) == Apply(Replay(log), line)
  {
    assert (log + [line])[..|log|] == log;
  }

  // ---- The buffer ----

  datatype Buffer = Buffer(open: Open, buffered: map<Uuid, Bytes>, log: seq<Line>)

  /** The table in memory is what the log says. */
  ghost predicate Logged(b: Buffer) {
    b.open == Replay(b.log)
  }

  ghost predicate At(open: Open, tx: TxId, i: int) {
    tx in open && 0 <= i < |open[tx]|
  }

  /** No message is in two places of the table. */
  ghost predicate Distinct(open: Open) {
    forall tx, i, ty, j :: At(open, tx, i) && At(open, ty, j) && open[tx][i] == open[ty][j] ==> tx == ty && i == j
  }

  ghost predicate Unused(open: Open, id: Uuid) {
    forall tx, i :: At(open, tx, i) ==> open[tx][i] != id
  }

  function Added(b: Buffer, tx: TxId, id: Uuid, data: Bytes): Buffer {
    var begin := if tx in b.open then [] else [Begin(tx)];
    var ids := if tx in b.open then b.open[tx] else [];
    Buffer(b.open[tx := ids + [id]], b.buffered[id := data], b.log + begin + [Add(tx, id)])
  }

  function Retimed(b: Buffer, id: Uuid, t: Int64): Buffer {
    if id in b.buffered then b.(buffered := b.buffered[id := Codec.Patched(b.buffered[id], t)]) else b
  }

  function Committed(b: Buffer, tx: TxId): Buffer {
    if tx !in b.open then b
    else Buffer(b.open - {tx}, Without(b.buffered, b.open[tx]), b.log + [Commit(tx)])
  }

  function RolledBack(b: Buffer, tx: TxId): Buffer {
    if tx !in b.open then b
    else Buffer(b.open - {tx}, Without(b.buffered, b.open[tx]), b.log + [Rollback(tx)])
  }

  function Without(buffered: map<Uuid, Bytes>, ids: seq<Uuid>): map<Uuid, Bytes> {
    buffered - set i | 0 <= i < |ids| :: ids[i]
  }

  /** What commit hands to the storage: the messages in the order of their ids, each taken out of the buffer. */
  function Batch(ids: seq<Uuid>, buffered: map<Uuid, Bytes>): seq<(Uuid, Bytes)> {
    if ids == [] then []
    else if ids[0] in buffered then [(ids[0], buffered[ids[0]])] + Batch(ids[1..], buffered - {ids[0]})
    else Batch(ids[1..], buffered)
  }

  /** Recovery rolls the open transactions back in some order. */
  function Recovered(b: Buffer, order: seq<TxId>): Buffer {
    if order == [] then b else RolledBack(Recovered(b, order[..|order| - 1]), order[|order| - 1])
  }

  // ---- The log always tells which transactions are open ----

  lemma AddedLogged(b: Buffer, tx: TxId, id: Uuid, data: Bytes)
    requires Logged(b)
    ensures Logged(Added(b, tx, id, data))
  {
    if tx !in b.open {
      ReplayNext(b.log, Begin(tx));
      ReplayNext(b.log + [Begin(tx)], Add(tx, id));
      var none: seq<Uuid> := [];
      assert none + [id] == [id];
      assert b.open[tx := none][tx := [id]] == b.open[tx := [id]];
    } else {
      ReplayNext(b.log, Add(tx, id));
      assert b.log + [] == b.log;
    }
  }

  lemma ClosedLogged(b: Buffer, tx: TxId)
    requires Logged(b)
    ensures Logged(Committed(b, tx)) && Logged(RolledBack(b, tx))
  {
    ReplayNext(b.log, Commit(tx));
    ReplayNext(b.log, Rollback(tx));
  }

  lemma {:induction false} RecoveredLogged(b: Buffer, order: seq<TxId>)
    requires Logged(b)
    ensures Logged(Recovered(b, order))
    ensures Recovered(b, order).open == b.open - set k | 0 <= k < |order| :: order[k]
  {
    if order != [] {
      var init, last := order[..|order| - 1], order[|order| - 1];
      RecoveredLogged(b, init);
      ClosedLogged(Recovered(b, init), last);
      assert (set k | 0 <= k < |order| :: order[k]) == (set k | 0 <= k < |init| :: init[k]) + {last};
    }
  }

  /** After a crash anywhere: loading what is in the log and recovering leaves no transaction open, now and at the next load. */
  lemma RecoveryClosesAll(log: seq<Line>, order: seq<TxId>)
    requires forall tx :: tx in Replay(log) ==> tx in order
    ensures var b := Recovered(Buffer(Replay(log), map[], log), order);
      b.open == map[] && Replay(b.log) == map[] && b.buffered == map[] && log <= b.log
  {
    var b := Buffer(Replay(log), map[], log);
    RecoveredLogged(b, order);
    RecoveredExtends(b, order);
    assert Recovered(b, order).open.Keys == {};
  }

  /** Recovery only adds rollbacks, one for each transaction that was open. */
  lemma {:induction false} RecoveredExtends(b: Buffer, order: seq<TxId>)
    ensures b.log <= Recovered(b, order).log && Recovered(b, order).buffered.Keys <= b.buffered.Keys
    ensures forall k :: |b.log| <= k < |Recovered(b, order).log| ==>
      Recovered(b, order).log[k].Rollback? && Recovered(b, order).log[k].tx in b.open
    ensures Recovered(b, order).open.Keys <= b.open.Keys
  {
    if order != [] {
      RecoveredExtends(b, order[..|order| - 1]);
    }
  }

  /** Recovering twice is recovering once. */
  lemma {:induction false} RecoveryIdempotent(b: Buffer, order: seq<TxId>)
    requires b.open == map[]
    ensures Recovered(b, order) == b
  {
    if order != [] {
      RecoveryIdempotent(b, order[..|order| - 1]);
    }
  }

  // ---- The buffer keeps, for each open transaction, its messages with their bytes ----

  /** The simple picture: each open transaction with the messages it will store. */
  type Book = map<TxId, seq<(Uuid, Bytes)>>

  ghost function BookOf(b: Buffer): Book {
    map tx | tx in b.open :: Batch(b.open[tx], b.buffered)
  }

  ghost predicate Apart(ids: seq<Uuid>, id: Uuid) {
    forall i :: 0 <= i < |ids| ==> ids[i] != id
  }

  /** A batch depends only on its own messages. */
  lemma {:induction false} BatchFrame(ids: seq<Uuid>, a: map<Uuid, Bytes>, b: map<Uuid, Bytes>)
    requires forall i :: 0 <= i < |ids| ==> (ids[i] in a <==> ids[i] in b) && (ids[i] in a ==> a[ids[i]] == b[ids[i]])
    ensures Batch(ids, a) == Batch(ids, b)
  {
    if ids != [] {
      if ids[0] in a {
        BatchFrame(ids[1..], a - {ids[0]}, b - {ids[0]});
      } else {
        BatchFrame(ids[1..], a, b);
      }
    }
  }

  lemma {:induction false} BatchSnoc(ids: seq<Uuid>, id: Uuid, buffered: map<Uuid, Bytes>)
    requires Apart(ids, id) && id in buffered
    ensures Batch(ids + [id], buffered) == Batch(ids, buffered) + [(id, buffered[id])]
  {
    if ids == [] {
      assert ids + [id] == [id] && Batch([id], buffered) == [(id, buffered[id])] + Batch([], buffered - {id});
    } else {
      assert (ids + [id])[1..] == ids[1..] + [id];
      if ids[0] in buffered {
        BatchSnoc(ids[1..], id, buffered - {ids[0]});
      } else {
        BatchSnoc(ids[1..], id, buffered);
      }
    }
  }

  function PatchedList(list: seq<(Uuid, Bytes)>, id: Uuid, t: Int64): seq<(Uuid, Bytes)> {
    if list == [] then []
    else [if list[0].0 == id then (id, Codec.Patched(list[0].1, t)) else list[0]] + PatchedList(list[1..], id, t)
  }

  lemma {:induction false} PatchedAbsent(list: seq<(Uuid, Bytes)>, id: Uuid, t: Int64)
    requires forall k :: 0 <= k < |list| ==> list[k].0 != id
    ensures PatchedList(list, id, t) == list
  {
    if list != [] {
      PatchedAbsent(list[1..], id, t);
    }
  }

  lemma {:induction false} BatchIds(ids: seq<Uuid>, buffered: map<Uuid, Bytes>)
    ensures forall k :: 0 <= k < |Batch(ids, buffered)| ==> Batch(ids, buffered)[k].0 in buffered && Batch(ids, buffered)[k].0 in ids
  {
    if ids != [] {
      if ids[0] in buffered {
        BatchIds(ids[1..], buffered - {ids[0]});
      } else {
        BatchIds(ids[1..], buffered);
      }
    }
  }

  lemma {:induction false} BatchPatched(ids: seq<Uuid>, buffered: map<Uuid, Bytes>, id: Uuid, t: Int64)
    requires id in buffered
    ensures Batch(ids, buffered[id := Codec.Patched(buffered[id], t)]) == PatchedList(Batch(ids, buffered), id, t)
  {
    var patched := buffered[id := Codec.Patched(buffered[id], t)];
    if ids != [] {
      if ids[0] == id {
        var rest := Batch(ids[1..], buffered - {id});
        assert patched - {id} == buffered - {id};
        BatchIds(ids[1..], buffered - {id});
        PatchedAbsent(rest, id, t);
        assert Batch(ids, buffered)[1..] == rest;
      } else if ids[0] in buffered {
        assert patched - {ids[0]} == (buffered - {ids[0]})[id := Codec.Patched(buffered[id], t)];
        BatchPatched(ids[1..], buffered - {ids[0]}, id, t);
        assert Batch(ids, buffered)[1..] == Batch(ids[1..], buffered - {ids[0]});
      } else {
        BatchPatched(ids[1..], buffered, id, t);
      }
    }
  }

  /** addMessage appends one message to its transaction. */
  lemma AddedBook(b: Buffer, tx: TxId, id: Uuid, data: Bytes)
    requires Unused(b.open, id)
    ensures var before := if tx in b.open then BookOf(b)[tx] else [];
      BookOf(Added(b, tx, id, data)) == BookOf(b)[tx := before + [(id, data)]]
  {
    var b' := Added(b, tx, id, data);
    forall ty | ty in b.open
      ensures Apart(b.open[ty], id) && Batch(b.open[ty], b'.buffered) == Batch(b.open[ty], b.buffered)
    {
      assert forall i :: 0 <= i < |b.open[ty]| ==> At(b.open, ty, i);
      BatchFrame(b.open[ty], b'.buffered, b.buffered);
    }
    BatchSnoc(if tx in b.open then b.open[tx] else [], id, b'.buffered);
  }

  /** patchDeliveryTime overwrites the delivery time of one message wherever it waits. */
  lemma RetimedBook(b: Buffer, id: Uuid, t: Int64)
    ensures BookOf(Retimed(b, id, t)) == map tx | tx in b.open :: PatchedList(BookOf(b)[tx], id, t)
  {
    forall tx | tx in b.open
      ensures BookOf(Retimed(b, id, t))[tx] == PatchedList(BookOf(b)[tx], id, t)
    {
      if id in b.buffered {
        BatchPatched(b.open[tx], b.buffered, id, t);
      } else {
        BatchIds(b.open[tx], b.buffered);
        PatchedAbsent(BookOf(b)[tx], id, t);
      }
    }
  }

  /** Closing one transaction, either way, leaves the others' messages alone. */
  lemma ClosedBook(b: Buffer, tx: TxId)
    requires Distinct(b.open)
    ensures BookOf(Committed(b, tx)) == BookOf(b) - {tx} == BookOf(RolledBack(b, tx))
  {
    if tx in b.open {
      var left := Without(b.buffered, b.open[tx]);
      forall ty | ty in b.open && ty != tx
        ensures Batch(b.open[ty], left) == Batch(b.open[ty], b.buffered)
      {
        forall i | 0 <= i < |b.open[ty]|
          ensures b.open[ty][i] !in b.open[tx]
        {
          assert At(b.open, ty, i);
          assert forall j :: 0 <= j < |b.open[tx]| ==> At(b.open, tx, j);
        }
        BatchFrame(b.open[ty], left, b.buffered);
      }
    }
  }

  lemma AddedDistinct(b: Buffer, tx: TxId, id: Uuid, data: Bytes)
    requires Distinct(b.open) && Unused(b.open, id)
    ensures Distinct(Added(b, tx, id, data).open)
  {
    var open' := Added(b, tx, id, data).open;
    forall ty, i | At(open', ty, i) && !(ty == tx && i == |open'[tx]| - 1)
      ensures At(b.open, ty, i) && open'[ty][i] == b.open[ty][i]
    {
    }
  }

  lemma ClosedDistinct(b: Buffer, tx: TxId)
    requires Distinct(b.open)
    ensures Distinct(Committed(b, tx).open) && Distinct(RolledBack(b, tx).open)
  {
    assert forall ty, i :: At(b.open - {tx}, ty, i) ==> At(b.open, ty, i);
  }
}
