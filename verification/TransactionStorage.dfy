/**
 What the storage receives from transactions, over whole runs, against a ledger that knows neither log nor
 buffer: for each open transaction its messages in the order they were added, each with its bytes, or marked lost if
 a crash took them.
 */
module TransactionStorage {
  import opened Bytes
  import opened Options
  import opened TransactionLog
  import opened TransactionRuns
  import Codec

  datatype Posting = Posting(id: Uuid, bytes: Option<Bytes>)

  type Ledger = map<TxId, seq<Posting>>

  /** The ledger and the batches handed over by commits so far, in commit order. */
  datatype Account = Account(ledger: Ledger, emitted: seq<seq<(Uuid, Bytes)>>)

  function Repatched(ps: seq<Posting>, id: Uuid, t: Int64): seq<Posting> {
    if ps == [] then [] else [RepatchedOne(ps[0], id, t)] + Repatched(ps[1..], id, t)
  }

  function RepatchedOne(p: Posting, id: Uuid, t: Int64): Posting {
    if p.id == id && p.bytes.Some? then p.(bytes := Some(Codec.Patched(p.bytes.value, t))) else p
  }

  function Lost(ps: seq<Posting>): seq<Posting> {
    if ps == [] then [] else [ps[0].(bytes := None)] + Lost(ps[1..])
  }

  /** The ledger after a crash. */
  function LostAll(ledger: Ledger): Ledger {
    map tx | tx in ledger :: Lost(ledger[tx])
  }

  /** The messages that still have their bytes, in order. */
  function Surviving(ps: seq<Posting>): seq<(Uuid, Bytes)> {
    if ps == [] then []
    else (if ps[0].bytes.Some? then [(ps[0].id, ps[0].bytes.value)] else []) + Surviving(ps[1..])
  }

  function Ids(ps: seq<Posting>): seq<Uuid> {
    if ps == [] then [] else [ps[0].id] + Ids(ps[1..])
  }

  function Members(order: seq<TxId>): set<TxId> {
    set tx | tx in order
  }

  function Entered(a: Account, x: Action): Account {
    match x
    case AddMessage(tx, id, data) =>
      a.(ledger := a.ledger[tx := (if tx in a.ledger then a.ledger[tx] else []) + [Posting(id, Some(data))]])
    case Patch(id, t) => a.(ledger := map tx | tx in a.ledger :: Repatched(a.ledger[tx], id, t))
    case CommitLocked(tx) =>
      if tx in a.ledger then Account(a.ledger - {tx}, a.emitted + [Surviving(a.ledger[tx])]) else a
    case Flush(_) => a
    case RollbackTx(tx) => a.(ledger := a.ledger - {tx})
    case CrashAndLoad(begun) =>
      var lost := LostAll(a.ledger);
      a.(ledger := if begun.Some? then lost[begun.value := []] else lost)
    case Recover(order) => a.(ledger := a.ledger - Members(order))
  }

  function EnteredAll(a: Account, run: seq<Action>): Account
    decreases |run|
  {
    if run == [] then a else EnteredAll(Entered(a, run[0]), run[1..])
  }

  // ---- Table and buffer together are the ledger ----

  /** The transaction's ids are those of the ledger, and the buffer holds exactly the bytes that are not lost. */
  ghost predicate Backs(ids: seq<Uuid>, buffered: map<Uuid, Bytes>, ps: seq<Posting>) {
    && |ids| == |ps|
    && forall i :: 0 <= i < |ps| ==> BacksOne(ids[i], buffered, ps[i])
  }

  ghost predicate BacksOne(id: Uuid, buffered: map<Uuid, Bytes>, p: Posting) {
    p.id == id && p.bytes == if id in buffered then Some(buffered[id]) else None
  }

  ghost predicate Mirrors(b: Buffer, ledger: Ledger) {
    && b.open.Keys == ledger.Keys
    && forall tx {:trigger Backs(b.open[tx], b.buffered, ledger[tx])} :: tx in b.open ==> Backs(b.open[tx], b.buffered, ledger[tx])
  }

  ghost predicate NoDup<T>(s: seq<T>) {
    forall i, j :: 0 <= i < j < |s| ==> s[i] != s[j]
  }

  lemma {:induction false} BacksIds(ids: seq<Uuid>, buffered: map<Uuid, Bytes>, ps: seq<Posting>)
    requires Backs(ids, buffered, ps)
    ensures Ids(ps) == ids
  {
    if ps != [] {
      assert BacksOne(ids[0], buffered, ps[0]);
      forall i | 0 <= i < |ps[1..]| ensures BacksOne(ids[1..][i], buffered, ps[1..][i]) {
        assert BacksOne(ids[i + 1], buffered, ps[i + 1]);
      }
      BacksIds(ids[1..], buffered, ps[1..]);
    }
  }

  /** The batch that the commit loop takes out of the buffer is what the ledger has left for the transaction. */
  lemma {:induction false} BatchIsSurviving(ids: seq<Uuid>, buffered: map<Uuid, Bytes>, ps: seq<Posting>)
    requires Backs(ids, buffered, ps) && NoDup(ids)
    ensures Batch(ids, buffered) == Surviving(ps)
  {
    if ps != [] {
      assert BacksOne(ids[0], buffered, ps[0]);
      var buffered' := if ids[0] in buffered then buffered - {ids[0]} else buffered;
      forall i | 0 <= i < |ps[1..]| ensures BacksOne(ids[1..][i], buffered', ps[1..][i]) {
        assert BacksOne(ids[i + 1], buffered, ps[i + 1]);
      }
      BatchIsSurviving(ids[1..], buffered', ps[1..]);
    }
  }

  lemma {:induction false} RepatchedAt(ps: seq<Posting>, id: Uuid, t: Int64)
    ensures |Repatched(ps, id, t)| == |ps|
    ensures forall i :: 0 <= i < |ps| ==> Repatched(ps, id, t)[i] == RepatchedOne(ps[i], id, t)
  {
    if ps != [] {
      RepatchedAt(ps[1..], id, t);
    }
  }

  lemma {:induction false} LostAt(ps: seq<Posting>)
    ensures |Lost(ps)| == |ps| && forall i :: 0 <= i < |ps| ==> Lost(ps)[i] == ps[i].(bytes := None)
  {
    if ps != [] {
      LostAt(ps[1..]);
    }
  }

  /** Ids of one transaction are distinct, and not those of another. */
  lemma ApartIds(open: Open, tx: TxId, ty: TxId)
    requires Distinct(open) && tx in open && ty in open
    ensures NoDup(open[tx])
    ensures tx != ty ==> forall i :: 0 <= i < |open[ty]| ==> open[ty][i] !in open[tx]
  {
    forall i, j | 0 <= i < j < |open[tx]| ensures open[tx][i] != open[tx][j] {
      assert At(open, tx, i) && At(open, tx, j);
    }
    if tx != ty {
      forall i | 0 <= i < |open[ty]| ensures open[ty][i] !in open[tx] {
        assert At(open, ty, i);
        assert forall j :: 0 <= j < |open[tx]| ==> At(open, tx, j);
      }
    }
  }

  lemma AddMirrors(b: Buffer, ledger: Ledger, tx: TxId, id: Uuid, data: Bytes)
    requires Mirrors(b, ledger) && Unused(b.open, id)
    ensures Mirrors(Added(b, tx, id, data), Entered(Account(ledger, []), AddMessage(tx, id, data)).ledger)
  {
    var b', l' := Added(b, tx, id, data), Entered(Account(ledger, []), AddMessage(tx, id, data)).ledger;
    forall ty | ty in b'.open ensures Backs(b'.open[ty], b'.buffered, l'[ty]) {
      if ty in b.open {
        assert Backs(b.open[ty], b.buffered, ledger[ty]);
      }
      forall i | 0 <= i < |l'[ty]| ensures BacksOne(b'.open[ty][i], b'.buffered, l'[ty][i]) {
        if ty in b.open && i < |b.open[ty]| {
          assert At(b.open, ty, i) && BacksOne(b.open[ty][i], b.buffered, ledger[ty][i]);
        }
      }
    }
  }

  lemma PatchMirrors(b: Buffer, ledger: Ledger, id: Uuid, t: Int64)
    requires Mirrors(b, ledger)
    ensures Mirrors(Retimed(b, id, t), Entered(Account(ledger, []), Patch(id, t)).ledger)
  {
    var b', l' := Retimed(b, id, t), Entered(Account(ledger, []), Patch(id, t)).ledger;
    forall tx | tx in b'.open ensures Backs(b'.open[tx], b'.buffered, l'[tx]) {
      assert Backs(b.open[tx], b.buffered, ledger[tx]);
      RepatchedAt(ledger[tx], id, t);
      forall i | 0 <= i < |l'[tx]| ensures BacksOne(b'.open[tx][i], b'.buffered, l'[tx][i]) {
        assert BacksOne(b.open[tx][i], b.buffered, ledger[tx][i]);
      }
    }
  }

  lemma CloseMirrors(b: Buffer, ledger: Ledger, tx: TxId)
    requires Mirrors(b, ledger) && Distinct(b.open) && tx in b.open
    ensures Mirrors(Committed(b, tx), ledger - {tx}) && Mirrors(RolledBack(b, tx), ledger - {tx})
  {
    var b' := Committed(b, tx);
    forall ty | ty in b'.open ensures Backs(b'.open[ty], b'.buffered, (ledger - {tx})[ty]) {
      assert Backs(b.open[ty], b.buffered, ledger[ty]);
      ApartIds(b.open, tx, ty);
      forall i | 0 <= i < |ledger[ty]| ensures BacksOne(b'.open[ty][i], b'.buffered, ledger[ty][i]) {
        assert BacksOne(b.open[ty][i], b.buffered, ledger[ty][i]);
      }
    }
    assert RolledBack(b, tx).open == b'.open && RolledBack(b, tx).buffered == b'.buffered;
  }

  lemma {:induction false} RecoverMirrors(b: Buffer, ledger: Ledger, order: seq<TxId>)
    requires Mirrors(b, ledger) && Distinct(b.open)
    ensures Distinct(Recovered(b, order).open)
    ensures Mirrors(Recovered(b, order), ledger - Members(order))
  {
    if order == [] {
      assert ledger - Members(order) == ledger;
    } else {
      var init, tx := order[..|order| - 1], order[|order| - 1];
      RecoverMirrors(b, ledger, init);
      var b1, l1 := Recovered(b, init), ledger - Members(init);
      ClosedDistinct(b1, tx);
      if tx in b1.open {
        CloseMirrors(b1, l1, tx);
      }
      assert order == init + [tx];
      assert Members(order) == Members(init) + {tx};
      assert ledger - Members(order) == l1 - {tx};
      assert tx !in l1 ==> l1 - {tx} == l1;
    }
  }

  lemma CrashMirrors(b: Buffer, ledger: Ledger, begun: Option<TxId>)
    requires Mirrors(b, ledger) && Logged(b) && (begun.Some? ==> begun.value !in b.open)
    ensures Mirrors(Reloaded(b.log + BeginLine(begun)), Entered(Account(ledger, []), CrashAndLoad(begun)).ledger)
  {
    BeginReloads(b, begun);
    LostMirrors(b, ledger);
    if begun.Some? {
      BegunMirrors(b.open, LostAll(ledger), begun.value);
    }
    hide Mirrors, Reloaded, Replay, Lost, Logged;
    var b' := Reloaded(b.log + BeginLine(begun));
    SameMirrors(b', Buffer(b'.open, map[], []), Entered(Account(ledger, []), CrashAndLoad(begun)).ledger);
  }

  lemma SameMirrors(b: Buffer, b': Buffer, ledger: Ledger)
    requires Mirrors(b', ledger) && b.open == b'.open && b.buffered == b'.buffered
    ensures Mirrors(b, ledger)
  {
  }

  lemma LostMirrors(b: Buffer, ledger: Ledger)
    requires Mirrors(b, ledger)
    ensures Mirrors(Buffer(b.open, map[], []), LostAll(ledger))
  {
    hide Lost, Backs;
    forall tx | tx in b.open ensures Backs(b.open[tx], map[], LostAll(ledger)[tx]) {
      assert Backs(b.open[tx], b.buffered, ledger[tx]);
      LostBacks(b.open[tx], b.buffered, ledger[tx]);
    }
  }

  lemma BegunMirrors(open: Open, ledger: Ledger, tx: TxId)
    requires Mirrors(Buffer(open, map[], []), ledger)
    ensures Mirrors(Buffer(open[tx := []], map[], []), ledger[tx := []])
  {
    NothingBacks();
    hide Backs;
    var open', ledger' := open[tx := []], ledger[tx := []];
    forall ty | ty in open' ensures Backs(open'[ty], map[], ledger'[ty]) {
      assert ty != tx ==> Backs(open[ty], map[], ledger[ty]);
    }
  }

  lemma LostBacks(ids: seq<Uuid>, buffered: map<Uuid, Bytes>, ps: seq<Posting>)
    requires Backs(ids, buffered, ps)
    ensures Backs(ids, map[], Lost(ps))
  {
    LostAt(ps);
    forall i | 0 <= i < |ps| ensures BacksOne(ids[i], map[], Lost(ps)[i]) {
      assert BacksOne(ids[i], buffered, ps[i]);
    }
  }

  lemma NothingBacks()
    ensures Backs([], map[], [])
  {
  }

  // ---- Batches reach the storage whole, each at most once ----

  function Concat(issued: seq<seq<(Uuid, Bytes)>>, written: seq<nat>): seq<(Uuid, Bytes)>
    requires forall k :: 0 <= k < |written| ==> written[k] < |issued|
  {
    if written == [] then [] else Concat(issued, written[..|written| - 1]) + issued[written[|written| - 1]]
  }

  lemma {:induction false} ConcatGrows(issued: seq<seq<(Uuid, Bytes)>>, batch: seq<(Uuid, Bytes)>, written: seq<nat>)
    requires forall k :: 0 <= k < |written| ==> written[k] < |issued|
    ensures Concat(issued + [batch], written) == Concat(issued, written)
  {
    if written != [] {
      ConcatGrows(issued, batch, written[..|written| - 1]);
    }
  }

  ghost predicate Delivery(s: State) {
    && |s.handAt| == |s.hands| && NoDup(s.handAt + s.written)
    && (forall k :: 0 <= k < |s.handAt| ==> s.handAt[k] < |s.issued| && s.hands[k] == s.issued[s.handAt[k]])
    && (forall k :: 0 <= k < |s.written| ==> s.written[k] < |s.issued|)
    && s.stored == Concat(s.issued, s.written)
  }

  lemma CommitDelivery(s: State, tx: TxId)
    requires Delivery(s) && tx in s.b.open
    ensures Delivery(Step(s, CommitLocked(tx)))
  {
    var s' := Step(s, CommitLocked(tx));
    ConcatGrows(s.issued, Batch(s.b.open[tx], s.b.buffered), s.written);
    hide Batch, Committed, Concat;
    var n, all, all' := |s.handAt|, s.handAt + s.written, s'.handAt + s'.written;
    forall i, j | 0 <= i < j < |all'| ensures all'[i] != all'[j] {
      assert all'[i] == if i < n then all[i] else if i == n then |s.issued| else all[i - 1];
      assert all'[j] == if j < n then all[j] else if j == n then |s.issued| else all[j - 1];
    }
  }

  lemma FlushDelivery(s: State, k: nat)
    requires Delivery(s) && Enabled(s, Flush(k))
    ensures Delivery(Step(s, Flush(k)))
  {
    var s' := Step(s, Flush(k));
    var n, all, all' := |s.handAt|, s.handAt + s.written, s'.handAt + s'.written;
    forall i, j | 0 <= i < j < |all'| ensures all'[i] != all'[j] {
      assert all'[i] == if i < k then all[i] else all[i + 1];
      assert j < |all'| - 1 ==> all'[j] == if j < k then all[j] else all[j + 1];
      assert j == |all'| - 1 ==> all'[j] == all[k];
    }
    assert s'.written[..|s'.written| - 1] == s.written;
  }

  lemma CrashDelivery(s: State, begun: Option<TxId>)
    requires Delivery(s) && Enabled(s, CrashAndLoad(begun))
    ensures Delivery(Step(s, CrashAndLoad(begun)))
  {
    var s', n := Step(s, CrashAndLoad(begun)), |s.handAt|;
    forall i, j | 0 <= i < j < |s.written| ensures s.written[i] != s.written[j] {
      assert (s.handAt + s.written)[n + i] == s.written[i] && (s.handAt + s.written)[n + j] == s.written[j];
    }
    assert s'.handAt + s'.written == s.written;
  }

  // ---- Whole runs ----

  ghost predicate Exact(s: State, a: Account) {
    TransactionRuns.Inv(s) && Mirrors(s.b, a.ledger) && Delivery(s) && s.issued == a.emitted
  }

  lemma EnteredLedger(a: Account, x: Action)
    requires !x.CommitLocked?
    ensures Entered(a, x) == a.(ledger := Entered(Account(a.ledger, []), x).ledger)
  {
  }

  lemma StepExact(s: State, a: Account, x: Action)
    requires Exact(s, a) && Enabled(s, x)
    ensures Exact(Step(s, x), Entered(a, x))
  {
    hide Mirrors, TransactionRuns.Inv;
    StepKeeps(s, x);
    if !x.CommitLocked? {
      EnteredLedger(a, x);
    }
    match x
    case AddMessage(tx, id, data) => AddExact(s, a, tx, id, data);
    case Patch(id, t) => PatchMirrors(s.b, a.ledger, id, t);
    case CommitLocked(tx) => CommitExact(s, a, tx);
    case Flush(k) => FlushDelivery(s, k);
    case RollbackTx(tx) => RollbackExact(s, a, tx);
    case CrashAndLoad(begun) =>
      InvDistinct(s);
      CrashMirrors(s.b, a.ledger, begun);
      CrashDelivery(s, begun);
    case Recover(order) =>
      InvDistinct(s);
      RecoverMirrors(s.b, a.ledger, order);
  }

  lemma InvDistinct(s: State)
    requires TransactionRuns.Inv(s)
    ensures Distinct(s.b.open) && Logged(s.b)
  {
  }

  lemma AddExact(s: State, a: Account, tx: TxId, id: Uuid, data: Bytes)
    requires Exact(s, a) && Enabled(s, AddMessage(tx, id, data))
    ensures Mirrors(Added(s.b, tx, id, data), Entered(a, AddMessage(tx, id, data)).ledger)
  {
    hide Fates, Replay;
    assert Unused(s.b.open, id) by {
      forall ty, i | At(s.b.open, ty, i) ensures s.b.open[ty][i] != id {
        assert FateIs(s.b.log, s.b.open[ty][i], Waiting);
      }
    }
    AddMirrors(s.b, a.ledger, tx, id, data);
  }

  lemma CommitExact(s: State, a: Account, tx: TxId)
    requires Exact(s, a)
    ensures Mirrors(Step(s, CommitLocked(tx)).b, Entered(a, CommitLocked(tx)).ledger)
    ensures Delivery(Step(s, CommitLocked(tx))) && Step(s, CommitLocked(tx)).issued == Entered(a, CommitLocked(tx)).emitted
  {
    if tx in s.b.open {
      CommitDelivery(s, tx);
      CloseMirrors(s.b, a.ledger, tx);
      ApartIds(s.b.open, tx, tx);
      assert Backs(s.b.open[tx], s.b.buffered, a.ledger[tx]);
      BatchIsSurviving(s.b.open[tx], s.b.buffered, a.ledger[tx]);
    }
  }

  lemma RollbackExact(s: State, a: Account, tx: TxId)
    requires Exact(s, a)
    ensures Mirrors(RolledBack(s.b, tx), a.ledger - {tx})
  {
    if tx in s.b.open {
      CloseMirrors(s.b, a.ledger, tx);
    } else {
      assert a.ledger - {tx} == a.ledger;
    }
  }

  lemma {:induction false} RunExact(s: State, a: Account, run: seq<Action>)
    requires Exact(s, a) && Feasible(s, run)
    ensures Exact(Exec(s, run), EnteredAll(a, run))
    decreases |run|
  {
    hide Exact, Step, Entered, Enabled;
    if run != [] {
      StepExact(s, a, run[0]);
      RunExact(Step(s, run[0]), Entered(a, run[0]), run[1..]);
    }
  }

  const NOTHING := Account(map[], [])

  /**
   Over every run, crashes included: the storage holds whole batches, each at most once; batch n is what the n-th
   effective commit was owed by the ledger, in the order the messages were added, with their patched bytes; and the
   log replays to the ids of the transactions still in the ledger, in order.
   */
  lemma StorageIsExact(run: seq<Action>)
    requires Feasible(EMPTY, run)
    ensures var s, a := Exec(EMPTY, run), EnteredAll(NOTHING, run);
      && (forall k :: 0 <= k < |s.written| ==> s.written[k] < |a.emitted|)
      && NoDup(s.written) && s.stored == Concat(a.emitted, s.written)
      && Replay(s.b.log).Keys == a.ledger.Keys
      && forall tx :: tx in a.ledger ==> Replay(s.b.log)[tx] == Ids(a.ledger[tx])
  {
    ReachableInv([]);
    RunExact(EMPTY, NOTHING, run);
    hide Exact, Exec, EnteredAll, Feasible;
    ExactMeans(Exec(EMPTY, run), EnteredAll(NOTHING, run));
  }

  lemma ExactMeans(s: State, a: Account)
    requires Exact(s, a)
    ensures forall k :: 0 <= k < |s.written| ==> s.written[k] < |a.emitted|
    ensures NoDup(s.written) && s.stored == Concat(a.emitted, s.written)
    ensures Replay(s.b.log).Keys == a.ledger.Keys
    ensures forall tx :: tx in a.ledger ==> Replay(s.b.log)[tx] == Ids(a.ledger[tx])
  {
    hide Replay, Fates;
    forall i, j | 0 <= i < j < |s.written| ensures s.written[i] != s.written[j] {
      var n := |s.handAt|;
      assert (s.handAt + s.written)[n + i] == s.written[i] && (s.handAt + s.written)[n + j] == s.written[j];
    }
    forall tx | tx in a.ledger ensures Replay(s.b.log)[tx] == Ids(a.ledger[tx]) {
      assert Backs(s.b.open[tx], s.b.buffered, a.ledger[tx]);
      BacksIds(s.b.open[tx], s.b.buffered, a.ledger[tx]);
    }
  }

  // ---- Only a crash loses a batch ----

  /** Every batch is in the hands of the thread that is to write it, or written. */
  ghost predicate Accounted(s: State) {
    forall k :: 0 <= k < |s.issued| ==> k in s.handAt || k in s.written
  }

  lemma StepAccounts(s: State, x: Action)
    requires Delivery(s) && Accounted(s) && Enabled(s, x) && !x.CrashAndLoad?
    ensures Accounted(Step(s, x))
  {
    var s' := Step(s, x);
    forall k | 0 <= k < |s'.issued| ensures k in s'.handAt || k in s'.written {
      if x.CommitLocked? && k == |s.issued| {
        assert s'.handAt[|s.handAt|] == k;
      } else if x.Flush? && k in s.handAt {
        var i :| 0 <= i < |s.handAt| && s.handAt[i] == k;
        assert if i == x.k then s'.written[|s.written|] == k else s'.handAt[if i < x.k then i else i - 1] == k;
      } else if k in s.written {
        assert k in s'.written;
      }
    }
  }

  lemma {:induction false} RunAccounts(s: State, a: Account, run: seq<Action>)
    requires Exact(s, a) && Accounted(s) && Feasible(s, run) && forall k :: 0 <= k < |run| ==> !run[k].CrashAndLoad?
    ensures Accounted(Exec(s, run))
    decreases |run|
  {
    if run != [] {
      hide Mirrors, TransactionRuns.Inv, Step;
      StepExact(s, a, run[0]);
      StepAccounts(s, run[0]);
      RunAccounts(Step(s, run[0]), Entered(a, run[0]), run[1..]);
    }
  }

  /** In a run without a crash every batch of the ledger is being written or is in the storage; once none is being written, all are. */
  lemma OnlyCrashesLose(run: seq<Action>)
    requires Feasible(EMPTY, run) && forall k :: 0 <= k < |run| ==> !run[k].CrashAndLoad?
    ensures var s, a := Exec(EMPTY, run), EnteredAll(NOTHING, run);
      && |s.hands| == |s.handAt|
      && (forall i :: 0 <= i < |s.hands| ==> s.handAt[i] < |a.emitted| && s.hands[i] == a.emitted[s.handAt[i]])
      && (forall k :: 0 <= k < |a.emitted| ==> k in s.handAt || k in s.written)
      && (s.hands == [] ==> forall k :: 0 <= k < |a.emitted| ==> k in s.written)
  {
    ReachableInv([]);
    RunExact(EMPTY, NOTHING, run);
    RunAccounts(EMPTY, NOTHING, run);
  }

  // ---- What the ledger has for a message ----

  /** Nothing in the run closes the transaction or loses bytes. */
  predicate Leaves(run: seq<Action>, tx: TxId) {
    forall k :: 0 <= k < |run| ==>
      !run[k].CrashAndLoad? && run[k] != CommitLocked(tx) && run[k] != RollbackTx(tx)
      && (run[k].Recover? ==> tx !in run[k].order)
  }

  /** The bytes as added, with every later patch of the message applied in order. */
  function WithPatches(bytes: Bytes, run: seq<Action>, id: Uuid): Bytes
    decreases |run|
  {
    if run == [] then bytes
    else WithPatches(if run[0].Patch? && run[0].id == id then Codec.Patched(bytes, run[0].t) else bytes, run[1..], id)
  }

  /** While its transaction is open and no crash comes, message i keeps its place, and its bytes are those added with every patch since. */
  lemma {:induction false} PostingFollows(a: Account, run: seq<Action>, tx: TxId, i: nat)
    requires tx in a.ledger && i < |a.ledger[tx]| && a.ledger[tx][i].bytes.Some? && Leaves(run, tx)
    ensures var a' := EnteredAll(a, run);
      && tx in a'.ledger && |a.ledger[tx]| <= |a'.ledger[tx]|
      && a'.ledger[tx][i] == Posting(a.ledger[tx][i].id, Some(WithPatches(a.ledger[tx][i].bytes.value, run, a.ledger[tx][i].id)))
    decreases |run|
  {
    if run != [] {
      var a1 := Entered(a, run[0]);
      if run[0].Patch? {
        RepatchedAt(a.ledger[tx], run[0].id, run[0].t);
      }
      assert Leaves(run[1..], tx);
      PostingFollows(a1, run[1..], tx, i);
    }
  }

  /** A commit hands over all messages of a transaction that no crash touched, in order. */
  lemma {:induction false} AllSurvive(ps: seq<Posting>)
    requires forall i :: 0 <= i < |ps| ==> ps[i].bytes.Some?
    ensures |Surviving(ps)| == |ps| && forall i :: 0 <= i < |ps| ==> Surviving(ps)[i] == (ps[i].id, ps[i].bytes.value)
  {
    if ps != [] {
      AllSurvive(ps[1..]);
    }
  }

  /** Of a transaction that a crash interrupted, a commit hands over what was added since, and only that. */
  lemma {:induction false} SinceCrash(lost: seq<Posting>, since: seq<Posting>)
    requires (forall i :: 0 <= i < |lost| ==> lost[i].bytes.None?) && (forall i :: 0 <= i < |since| ==> since[i].bytes.Some?)
    ensures Surviving(lost + since) == Surviving(since) && |Surviving(since)| == |since|
  {
    AllSurvive(since);
    if lost == [] {
      assert lost + since == since;
    } else {
      assert (lost + since)[1..] == lost[1..] + since;
      SinceCrash(lost[1..], since);
    }
  }

  ghost predicate AllSome(ps: seq<Posting>) {
    forall i :: 0 <= i < |ps| ==> ps[i].bytes.Some?
  }

  /** No bytes are lost. */
  ghost predicate AllPresent(ledger: Ledger) {
    forall tx {:trigger AllSome(ledger[tx])} :: tx in ledger ==> AllSome(ledger[tx])
  }

  lemma EnteredPresent(a: Account, x: Action)
    requires AllPresent(a.ledger) && !x.CrashAndLoad?
    ensures AllPresent(Entered(a, x).ledger)
  {
    var l' := Entered(a, x).ledger;
    forall tx | tx in l' ensures AllSome(l'[tx]) {
      if tx in a.ledger {
        assert AllSome(a.ledger[tx]);
        if x.Patch? {
          RepatchedAt(a.ledger[tx], x.id, x.t);
        }
      }
    }
  }

  lemma {:induction false} PresentWithoutCrash(a: Account, run: seq<Action>)
    requires AllPresent(a.ledger) && forall k :: 0 <= k < |run| ==> !run[k].CrashAndLoad?
    ensures AllPresent(EnteredAll(a, run).ledger)
    decreases |run|
  {
    if run != [] {
      EnteredPresent(a, run[0]);
      PresentWithoutCrash(Entered(a, run[0]), run[1..]);
    }
  }

  /** In a run without a crash a commit finds every message of its transaction in the buffer. */
  lemma BufferedWithoutCrash(run: seq<Action>, tx: TxId)
    requires Feasible(EMPTY, run) && tx in Exec(EMPTY, run).b.open && forall k :: 0 <= k < |run| ==> !run[k].CrashAndLoad?
    ensures var b := Exec(EMPTY, run).b;
      NoDup(b.open[tx]) && forall i :: 0 <= i < |b.open[tx]| ==> b.open[tx][i] in b.buffered
  {
    ReachableInv([]);
    RunExact(EMPTY, NOTHING, run);
    PresentWithoutCrash(NOTHING, run);
    hide Exec, EnteredAll, Feasible, Replay, Fates;
    var s, a := Exec(EMPTY, run), EnteredAll(NOTHING, run);
    ApartIds(s.b.open, tx, tx);
    assert Backs(s.b.open[tx], s.b.buffered, a.ledger[tx]);
    assert AllSome(a.ledger[tx]);
    forall i | 0 <= i < |s.b.open[tx]| ensures s.b.open[tx][i] in s.b.buffered {
      assert BacksOne(s.b.open[tx][i], s.b.buffered, a.ledger[tx][i]);
    }
  }
}
