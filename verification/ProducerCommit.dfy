/**
 A session whose producers for one destination share a transaction: sends are staged in each producer's priority
 queue and, if persistent, added to the transaction buffer; commit goes through the producers one after the other.
 */
module ProducerCommit {
  import opened Bytes
  import opened Options
  import opened Codec
  import TransactionLog
  import TB = TransactionBuffer
  import PQ = PriorityQueue
  import QP = QueueProtocol
  import Seqs

  /** A staged message with its cached encoding and the delay that starts to run at commit. */
  datatype Staged = Staged(kind: Byte, content: Content, cached: Bytes, delay: nat)

  /** preparePush leaves the message's own record in the cache of a persistent message. */
  predicate Ready(l: Staged) {
    l.content.persistent ==> l.cached == Record(l.kind, l.content)
  }

  predicate CanResolve(l: Staged, now: int) {
    -TWO63 <= now + l.delay < TWO63
  }

  function DueAt(l: Staged, now: int): Int64
    requires CanResolve(l, now)
  {
    now + l.delay
  }

  /** The message once its delay has been resolved. */
  function Resolved(l: Staged, now: int): Staged
    requires CanResolve(l, now)
  {
    if l.delay == 0 then l
    else
      l.(content := Retimed(l.content, DueAt(l, now)),
         cached := if l.content.persistent then Patched(l.cached, DueAt(l, now)) else l.cached,
         delay := 0)
  }

  predicate AllCanResolve(ls: seq<Staged>, now: int) {
    forall k :: 0 <= k < |ls| ==> CanResolve(ls[k], now)
  }

  function ResolvedAll(ls: seq<Staged>, now: int): seq<Staged>
    requires AllCanResolve(ls, now)
  {
    if ls == [] then [] else ResolvedAll(ls[..|ls| - 1], now) + [Resolved(ls[|ls| - 1], now)]
  }

  /** What patchPendingDeliveryTime does to the transaction's entry for one message. */
  function PatchFor(list: seq<(Uuid, Bytes)>, l: Staged, now: int): seq<(Uuid, Bytes)>
    requires CanResolve(l, now)
  {
    if l.delay > 0 && l.content.persistent then TransactionLog.PatchedList(list, l.content.uuid, DueAt(l, now)) else list
  }

  function PatchForAll(list: seq<(Uuid, Bytes)>, ls: seq<Staged>, now: int): seq<(Uuid, Bytes)>
    requires AllCanResolve(ls, now)
  {
    if ls == [] then list else PatchFor(PatchForAll(list, ls[..|ls| - 1], now), ls[|ls| - 1], now)
  }

  /** The cache is re-encoding: a resolved persistent message has its own record in the cache. */
  lemma ResolvedReady(l: Staged, now: int)
    requires Ready(l) && CanResolve(l, now)
    ensures Ready(Resolved(l, now)) && Resolved(l, now).content.uuid == l.content.uuid
  {
    PatchIsReencoding(l.kind, l.content, DueAt(l, now));
  }

  // ---- Producers ----

  class Producer {
    const transactQueue: PQ.Queue<Staged>
    const buffer: TB.TransactionBuffer

    constructor (buffer: TB.TransactionBuffer)
      ensures this.buffer == buffer && fresh(transactQueue) && transactQueue.Valid() && transactQueue.Contents() == []
    {
      this.buffer := buffer;
      transactQueue := new PQ.Queue<Staged>();
    }

    ghost predicate Valid()
      reads this, transactQueue, buffer
    {
      transactQueue.Valid() && buffer.Valid()
    }

    /** A transacted send: buffered if persistent, and staged by priority. */
    method Send(tx: TransactionLog.TxId, l: Staged)
      requires Valid() && Ready(l) && TransactionLog.Unused(buffer.open, l.content.uuid)
      modifies transactQueue, buffer
      ensures Valid() && buffer.stored == old(buffer.stored)
      ensures transactQueue.bands == Banded(old(transactQueue.bands), l)
      ensures BookEntry(buffer.State(), tx) == old(BookEntry(buffer.State(), tx)) + One(l)
      ensures !l.content.persistent ==> buffer.State() == old(buffer.State())
      ensures l.content.persistent ==> buffer.State() == TransactionLog.Added(old(buffer.State()), tx, l.content.uuid, l.cached)
    {
      hide TransactionLog.Distinct, TransactionLog.Logged;
      if l.content.persistent {
        buffer.AddMessage(tx, l.content.uuid, l.cached);
      }
      transactQueue.Enqueue(l.content.headers.priority, l);
    }

    /**
     commit, on a clock that shows now: the staged messages go out in priority order with their delays resolved; the
     storage gains whatever the buffer holds for the transaction, in the order it was added, patched for these messages.
     */
    method Commit(tx: TransactionLog.TxId, now: int) returns (delivered: seq<Staged>)
      requires Valid() && AllCanResolve(transactQueue.Contents(), now)
      modifies transactQueue, buffer
      ensures Valid() && transactQueue.Contents() == [] && tx !in buffer.open
      ensures delivered == ResolvedAll(old(transactQueue.Contents()), now)
      ensures buffer.stored
           == old(buffer.stored) + PatchForAll(old(BookEntry(buffer.State(), tx)), old(transactQueue.Contents()), now)
      ensures AllClear(buffer.open, old(buffer.open))
    {
      hide TransactionLog.Distinct, TransactionLog.Logged, TransactionLog.BookOf;
      delivered := ResolveStaged(tx, now);
      buffer.CommitTransaction(tx);
    }

    /** rollback, also run by the destructor: the whole transaction leaves the buffer, and the staged messages are dropped. */
    method Rollback(tx: TransactionLog.TxId)
      requires Valid()
      modifies transactQueue, buffer
      ensures Valid() && transactQueue.Contents() == [] && tx !in buffer.open
      ensures buffer.stored == old(buffer.stored) && AllClear(buffer.open, old(buffer.open))
    {
      hide TransactionLog.Distinct, TransactionLog.Logged, TransactionLog.BookOf, PQ.Pending, PQ.MaskComplete, PQ.TookTop;
      buffer.RollbackTransaction(tx);
      var next := transactQueue.TryDequeue();
      while next.Some?
        invariant Valid() && (next.None? ==> transactQueue.Contents() == [])
        invariant buffer.stored == old(buffer.stored) && tx !in buffer.open && AllClear(buffer.open, old(buffer.open))
        decreases next.Some?, |transactQueue.Contents()|
      {
        next := transactQueue.TryDequeue();
      }
    }

    /** The loop that drains the staging queue. */
    method ResolveStaged(tx: TransactionLog.TxId, now: int) returns (staged: seq<Staged>)
      requires Valid() && AllCanResolve(transactQueue.Contents(), now)
      modifies transactQueue, buffer
      ensures Valid() && transactQueue.Contents() == [] && buffer.stored == old(buffer.stored) && buffer.open == old(buffer.open)
      ensures staged == ResolvedAll(old(transactQueue.Contents()), now)
      ensures BookEntry(buffer.State(), tx)
           == PatchForAll(old(BookEntry(buffer.State(), tx)), old(transactQueue.Contents()), now)
    {
      hide TransactionLog.Distinct, TransactionLog.Logged, BookEntry, Resolved, PatchFor, PQ.Pending, PQ.MaskComplete, PQ.TookTop, ResolvedAll, PatchForAll, AllCanResolve;
      DrainStart(BookEntry(buffer.State(), tx), transactQueue.Contents(), now);
      ghost var all, done := transactQueue.Contents(), [];
      staged := [];
      var next := transactQueue.TryDequeue();
      while next.Some?
        invariant Valid() && buffer.stored == old(buffer.stored) && buffer.open == old(buffer.open)
        invariant all == if next.Some? then done + ([next.value] + transactQueue.Contents()) else done
        invariant next.None? ==> transactQueue.Contents() == []
        invariant AllCanResolve(all, now) && AllCanResolve(done, now) && staged == ResolvedAll(done, now)
        invariant BookEntry(buffer.State(), tx) == PatchForAll(old(BookEntry(buffer.State(), tx)), done, now)
        decreases |all| - |done|
      {
        var l := next.value;
        DrainNext(old(BookEntry(buffer.State(), tx)), all, done, l, transactQueue.Contents(), now);
        var l' := ResolveOne(tx, l, now);
        staged := staged + [l'];
        done := done + [l];
        next := transactQueue.TryDequeue();
      }
    }

    /** One round: header, buffered bytes and cached bytes of a delayed message. */
    method ResolveOne(tx: TransactionLog.TxId, l: Staged, now: int) returns (l': Staged)
      requires buffer.Valid() && CanResolve(l, now)
      modifies buffer
      ensures buffer.Valid() && buffer.stored == old(buffer.stored) && buffer.open == old(buffer.open)
      ensures l' == Resolved(l, now)
      ensures BookEntry(buffer.State(), tx) == PatchFor(old(BookEntry(buffer.State(), tx)), l, now)
    {
      hide TransactionLog.Distinct, TransactionLog.Logged, BookEntry;
      l' := l;
      if l.delay > 0 {
        var t := now + l.delay;
        l' := l'.(content := Retimed(l.content, t), delay := 0);
        if l.content.persistent {
          EntryRetimed(buffer.State(), tx, l.content.uuid, t);
          buffer.PatchDeliveryTime(l.content.uuid, t);
          l' := l'.(cached := Patched(l.cached, t));
        }
      }
    }
  }

  lemma DrainStart(entry: seq<(Uuid, Bytes)>, all: seq<Staged>, now: int)
    ensures AllCanResolve([], now) && ResolvedAll([], now) == [] && PatchForAll(entry, [], now) == entry
    ensures [] + all == all
  {
  }

  lemma DrainNext(entry: seq<(Uuid, Bytes)>, all: seq<Staged>, done: seq<Staged>, l: Staged, rest: seq<Staged>, now: int)
    requires AllCanResolve(all, now) && AllCanResolve(done, now) && all == done + ([l] + rest)
    ensures CanResolve(l, now) && AllCanResolve(done + [l], now) && all == (done + [l]) + rest && |done| < |all|
    ensures ResolvedAll(done + [l], now) == ResolvedAll(done, now) + [Resolved(l, now)]
    ensures PatchForAll(entry, done + [l], now) == PatchFor(PatchForAll(entry, done, now), l, now)
  {
    hide Resolved, PatchFor;
    assert all[|done|] == l;
    assert (done + [l])[..|done|] == done;
  }

  /** No new transactions. */
  ghost predicate AllClear(open': TransactionLog.Open, open: TransactionLog.Open) {
    open'.Keys <= open.Keys
  }

  function One(l: Staged): seq<(Uuid, Bytes)> {
    if l.content.persistent then [(l.content.uuid, l.cached)] else []
  }

  function Banded(bands: seq<seq<Staged>>, l: Staged): seq<seq<Staged>> {
    var b := QP.Band(l.content.headers.priority);
    if b < |bands| then bands[b := bands[b] + [l]] else bands
  }

  ghost function BookEntry(b: TransactionLog.Buffer, tx: TransactionLog.TxId): seq<(Uuid, Bytes)> {
    if tx in b.open then TransactionLog.BookOf(b)[tx] else []
  }

  /** Patching the buffer patches the book entry. */
  lemma EntryRetimed(b: TransactionLog.Buffer, tx: TransactionLog.TxId, id: Uuid, t: Int64)
    ensures BookEntry(TransactionLog.Retimed(b, id, t), tx) == TransactionLog.PatchedList(BookEntry(b, tx), id, t)
  {
    TransactionLog.RetimedBook(b, id, t);
  }
}
