/** TransactionBuffer as an object: its table, its buffered bytes and its log change with every call. */
module TransactionBuffer {
  import opened Bytes
  import opened TransactionLog
  import Codec

  class TransactionBuffer {
    var open: Open
    var buffered: map<Uuid, Bytes>
    var log: seq<Line>
    var stored: seq<(Uuid, Bytes)>

    /** What the object holds under its mutex. */
    ghost function State(): Buffer
      reads this
    {
      Buffer(open, buffered, log)
    }

    /** The log and the table agree, and no message is in two transactions. */
    ghost predicate Valid()
      reads this
    {
      Logged(State()) && Distinct(open)
    }

    /** Opening the buffer over the log of an earlier run. */
    constructor (log: seq<Line>, stored: seq<(Uuid, Bytes)>)
      ensures State() == Buffer(Replay(log), map[], log) && this.stored == stored
    {
      this.log, this.stored := log, stored;
      this.open, this.buffered := map[], map[];
      new;
      LoadTransactionLog();
    }

    /** loadTransactionLog: one pass over the lines. */
    method LoadTransactionLog()
      modifies this
      ensures State() == Buffer(Replay(log), map[], log) && log == old(log) && stored == old(stored)
    {
      open, buffered := map[], map[];
      for k := 0 to |log|
        invariant log == old(log) && stored == old(stored) && buffered == map[]
        invariant open == Replay(log[..k])
      {
        assert log[..k + 1][..k] == log[..k];
        match log[k] {
          case Begin(tx) => open := open[tx := []];
          case Add(tx, id) =>
            if tx in open {
              open := open[tx := open[tx] + [id]];
            }
          case Commit(tx) => open := open - {tx};
          case Rollback(tx) => open := open - {tx};
        }
      }
      assert log[..|log|] == log;
    }

    method AddMessage(tx: TxId, id: Uuid, data: Bytes)
      requires Valid() && Unused(open, id)
      modifies this
      ensures Valid() && State() == Added(old(State()), tx, id, data) && stored == old(stored)
      ensures var before := if tx in old(open) then BookOf(old(State()))[tx] else [];
        BookOf(State()) == BookOf(old(State()))[tx := before + [(id, data)]]
    {
      hide Logged, Distinct, BookOf, Unused;
      AddedLogged(State(), tx, id, data);
      AddedDistinct(State(), tx, id, data);
      AddedBook(State(), tx, id, data);
      if tx !in open {
        open := open[tx := []];
        log := log + [Begin(tx)];
      }
      buffered := buffered[id := data];
      open := open[tx := open[tx] + [id]];
      log := log + [Add(tx, id)];
      assert State() == Added(old(State()), tx, id, data);
    }

    method PatchDeliveryTime(id: Uuid, t: Int64)
      requires Valid()
      modifies this
      ensures Valid() && State() == Retimed(old(State()), id, t) && stored == old(stored)
      ensures BookOf(State()) == map tx | tx in old(open) :: PatchedList(BookOf(old(State()))[tx], id, t)
    {
      RetimedBook(State(), id, t);
      if id !in buffered {
        return;
      }
      buffered := buffered[id := Codec.Patched(buffered[id], t)];
    }

    /** The part of commitTransaction under the mutex; an unknown transaction yields nothing. */
    method CommitLocked(tx: TxId) returns (batch: seq<(Uuid, Bytes)>)
      requires Valid()
      modifies this
      ensures Valid() && State() == Committed(old(State()), tx) && stored == old(stored)
      ensures batch == if tx in old(open) then BookOf(old(State()))[tx] else []
      ensures BookOf(State()) == BookOf(old(State())) - {tx}
    {
      ClosedLogged(State(), tx);
      ClosedDistinct(State(), tx);
      ClosedBook(State(), tx);
      batch := [];
      if tx !in open {
        assert BookOf(State()) - {tx} == BookOf(State());
        return;
      }
      var ids := open[tx];
      batch := TakeOut(ids);
      open := open - {tx};
      log := log + [Commit(tx)];
    }

    /** The loop that moves a transaction's bytes out of the buffer. */
    method TakeOut(ids: seq<Uuid>) returns (batch: seq<(Uuid, Bytes)>)
      modifies this`buffered
      ensures batch == Batch(ids, old(buffered)) && buffered == Without(old(buffered), ids)
    {
      batch := [];
      for k := 0 to |ids|
        invariant buffered == Without(old(buffered), ids[..k])
        invariant batch + Batch(ids[k..], buffered) == Batch(ids, old(buffered))
      {
        var id := ids[k];
        assert ids[k..][1..] == ids[k + 1..] && ids[..k + 1] == ids[..k] + [id];
        if id in buffered {
          batch := batch + [(id, buffered[id])];
          buffered := buffered - {id};
        }
      }
      assert ids[..|ids|] == ids;
    }

    /** commitTransaction without interference between its two halves. */
    method CommitTransaction(tx: TxId)
      requires Valid()
      modifies this
      ensures Valid() && State() == Committed(old(State()), tx)
      ensures stored == old(stored) + if tx in old(open) then BookOf(old(State()))[tx] else []
    {
      var batch := CommitLocked(tx);
      if batch != [] {
        stored := stored + batch;
      }
    }

    method RollbackTransaction(tx: TxId)
      requires Valid()
      modifies this
      ensures Valid() && State() == RolledBack(old(State()), tx) && stored == old(stored)
      ensures BookOf(State()) == BookOf(old(State())) - {tx}
    {
      ClosedLogged(State(), tx);
      ClosedDistinct(State(), tx);
      ClosedBook(State(), tx);
      if tx !in open {
        assert BookOf(State()) - {tx} == BookOf(State());
        return;
      }
      Discard(open[tx]);
      open := open - {tx};
      log := log + [Rollback(tx)];
    }

    method Discard(ids: seq<Uuid>)
      modifies this`buffered
      ensures buffered == Without(old(buffered), ids)
    {
      for k := 0 to |ids|
        invariant buffered == Without(old(buffered), ids[..k])
      {
        assert ids[..k + 1] == ids[..k] + [ids[k]];
        buffered := buffered - {ids[k]};
      }
      assert ids[..|ids|] == ids;
    }

    /** recover: every transaction still open is rolled back; order is the order in which the table lists them. */
    method Recover(order: seq<TxId>)
      requires Valid() && (forall tx :: tx in open <==> tx in order)
      requires forall j, k :: 0 <= j < k < |order| ==> order[j] != order[k]
      modifies this
      ensures Valid() && State() == Recovered(old(State()), order) && stored == old(stored)
      ensures open == map[] && Replay(log) == map[]
    {
      hide Logged, Distinct, BookOf;
      for k := 0 to |order|
        invariant Valid() && stored == old(stored)
        invariant State() == Recovered(old(State()), order[..k])
        invariant forall j :: k <= j < |order| ==> order[j] in open
        invariant forall tx :: tx in open ==> tx in order[k..]
      {
        assert order[..k + 1][..k] == order[..k] && order[k..][1..] == order[k + 1..];
        RollbackTransaction(order[k]);
      }
      assert order[..|order|] == order;
      NoneOpen(State());
    }
  }

  lemma NoneOpen(b: Buffer)
    requires Logged(b) && forall tx :: tx !in b.open
    ensures b.open == map[] && Replay(b.log) == map[]
  {
    assert b.open.Keys == {};
  }
}
