/** Session::commit over the producers of one destination: what goes out, what is stored, and exactly when the two agree. */
module SessionCommit {
  import opened Bytes
  import opened Options
  import opened Codec
  import opened ProducerCommit
  import TransactionLog
  import TB = TransactionBuffer
  import PQ = PriorityQueue
  import QP = QueueProtocol

  /** One transacted send: by which producer, and the message as staged. */
  datatype Sent = Sent(producer: nat, msg: Staged)

  /** What the transaction buffer holds: the persistent messages of all producers in the order of the sends. */
  function EntryOf(sends: seq<Sent>): seq<(Uuid, Bytes)> {
    if sends == [] then [] else EntryOf(sends[..|sends| - 1]) + One(sends[|sends| - 1].msg)
  }

  const NO_BANDS: seq<seq<Staged>> := [[], [], [], [], [], [], [], [], [], []]

  /** The staging queue of one producer, band by band. */
  function BandsOf(sends: seq<Sent>, i: nat): (r: seq<seq<Staged>>)
    ensures |r| == QP.BANDS
  {
    if sends == [] then NO_BANDS
    else
      var init, last := BandsOf(sends[..|sends| - 1], i), sends[|sends| - 1];
      if last.producer == i then Banded(init, last.msg) else init
  }

  /** The messages that producer i staged, in the order in which its commit takes them out. */
  function QueueOf(sends: seq<Sent>, i: nat): seq<Staged> {
    PQ.Pending(BandsOf(sends, i), QP.BANDS)
  }

  // ---- The order in which messages go out ----

  /** The messages that producer i sent with priorities in band b, in order. */
  function SentIn(sends: seq<Sent>, i: nat, b: nat): seq<Staged> {
    if sends == [] then []
    else
      var init, last := SentIn(sends[..|sends| - 1], i, b), sends[|sends| - 1];
      if last.producer == i && QP.Band(last.msg.content.headers.priority) == b then init + [last.msg] else init
  }

  lemma {:induction false} BandIsSent(sends: seq<Sent>, i: nat, b: nat)
    requires b < QP.BANDS
    ensures BandsOf(sends, i)[b] == SentIn(sends, i, b)
  {
    if sends != [] {
      BandIsSent(sends[..|sends| - 1], i, b);
    }
  }

  /** The bands from the highest down, each in the order of the sends. */
  function ByPriority(sends: seq<Sent>, i: nat, k: nat): seq<Staged> {
    if k == 0 then [] else SentIn(sends, i, k - 1) + ByPriority(sends, i, k - 1)
  }

  lemma {:induction false} QueueUpTo(sends: seq<Sent>, i: nat, k: nat)
    requires k <= QP.BANDS
    ensures PQ.Pending(BandsOf(sends, i), k) == ByPriority(sends, i, k)
  {
    hide BandsOf, SentIn;
    if k > 0 {
      QueueUpTo(sends, i, k - 1);
      BandIsSent(sends, i, k - 1);
    }
  }

  /** A producer's messages go out highest priority first, and in the order of the sends within one priority. */
  lemma GoesOutByPriority(sends: seq<Sent>, i: nat)
    ensures QueueOf(sends, i) == ByPriority(sends, i, QP.BANDS)
  {
    QueueUpTo(sends, i, QP.BANDS);
  }

  // ---- Who is in the queue ----

  function SentBy(sends: seq<Sent>, i: nat): seq<Staged> {
    if sends == [] then []
    else
      var init, last := SentBy(sends[..|sends| - 1], i), sends[|sends| - 1];
      if last.producer == i then init + [last.msg] else init
  }

  lemma {:induction false} PushedCount(bands: seq<seq<Staged>>, k: nat, b: nat, m: Staged)
    requires b < k <= |bands|
    ensures multiset(PQ.Pushed(bands, k, b, m)) == multiset(PQ.Pending(bands, k)) + multiset{m}
  {
    if b < k - 1 {
      PushedCount(bands, k - 1, b, m);
    }
  }

  lemma {:induction false} QueueCount(sends: seq<Sent>, i: nat)
    ensures multiset(QueueOf(sends, i)) == multiset(SentBy(sends, i))
  {
    if sends == [] {
      PQ.PendingNone(NO_BANDS, QP.BANDS);
    } else {
      var init, last := sends[..|sends| - 1], sends[|sends| - 1];
      QueueCount(init, i);
      if last.producer == i {
        var bands, b := BandsOf(init, i), QP.Band(last.msg.content.headers.priority);
        PQ.PendingPushed(bands, QP.BANDS, b, last.msg);
        PushedCount(bands, QP.BANDS, b, last.msg);
      }
    }
  }

  /** The messages have different uuids. */
  ghost predicate DistinctSends(sends: seq<Sent>) {
    forall j, k :: 0 <= j < k < |sends| ==> sends[j].msg.content.uuid != sends[k].msg.content.uuid
  }

  lemma {:induction false} SentByAt(sends: seq<Sent>, i: nat, k: nat) returns (j: nat)
    requires k < |SentBy(sends, i)|
    ensures j < |sends| && sends[j] == Sent(i, SentBy(sends, i)[k])
  {
    var n := |sends| - 1;
    if k < |SentBy(sends[..n], i)| {
      j := SentByAt(sends[..n], i, k);
    } else {
      j := n;
    }
  }

  lemma {:induction false} SentByHas(sends: seq<Sent>, j: nat)
    requires j < |sends|
    ensures sends[j].msg in SentBy(sends, sends[j].producer)
  {
    var n := |sends| - 1;
    if j < n {
      SentByHas(sends[..n], j);
    }
  }

  lemma {:induction false} SentByDistinct(sends: seq<Sent>, i: nat)
    requires DistinctSends(sends)
    ensures forall a, b :: 0 <= a < b < |SentBy(sends, i)| ==> SentBy(sends, i)[a].content.uuid != SentBy(sends, i)[b].content.uuid
  {
    if sends != [] {
      var n := |sends| - 1;
      SentByDistinct(sends[..n], i);
      forall a | 0 <= a < |SentBy(sends[..n], i)|
        ensures SentBy(sends[..n], i)[a].content.uuid != sends[n].msg.content.uuid
      {
        var j := SentByAt(sends[..n], i, a);
      }
    }
  }

  /** A message is in a producer's queue if and only if that producer sent it; no uuid is there twice. */
  lemma QueueMembers(sends: seq<Sent>, i: nat)
    requires DistinctSends(sends)
    ensures forall l :: l in QueueOf(sends, i) <==> l in SentBy(sends, i)
    ensures forall a, b :: 0 <= a < b < |QueueOf(sends, i)| ==> QueueOf(sends, i)[a].content.uuid != QueueOf(sends, i)[b].content.uuid
  {
    QueueCount(sends, i);
    SentByDistinct(sends, i);
    var q, s := QueueOf(sends, i), SentBy(sends, i);
    forall l ensures l in q <==> l in s {
      assert l in q <==> l in multiset(q);
      assert l in s <==> l in multiset(s);
    }
    SameUuids(q, s);
  }

  ghost predicate DistinctStaged(ls: seq<Staged>) {
    forall a, b :: 0 <= a < b < |ls| ==> ls[a].content.uuid != ls[b].content.uuid
  }

  /** Rearranging messages with different uuids leaves their uuids different. */
  lemma SameUuids(q: seq<Staged>, s: seq<Staged>)
    requires multiset(q) == multiset(s) && DistinctStaged(s)
    ensures DistinctStaged(q)
  {
    forall a, b | 0 <= a < b < |q| ensures q[a].content.uuid != q[b].content.uuid {
      assert q[a] in multiset(q) && q[b] in multiset(q);
      var c :| 0 <= c < |s| && s[c] == q[a];
      var d :| 0 <= d < |s| && s[d] == q[b];
      if q[a] == q[b] {
        TwiceInSeq(q, a, b);
        OnceInSeq(s, q[a]);
      }
    }
  }

  lemma TwiceInSeq(q: seq<Staged>, a: nat, b: nat)
    requires a < b < |q| && q[a] == q[b]
    ensures multiset(q)[q[a]] >= 2
  {
    assert q == q[..b] + [q[b]] + q[b + 1..];
    assert q[..b][a] == q[a];
    assert multiset(q[..b])[q[a]] >= 1;
  }

  lemma {:induction false} OnceInSeq(s: seq<Staged>, l: Staged)
    requires DistinctStaged(s)
    ensures multiset(s)[l] <= 1
  {
    if s != [] {
      assert s == [s[0]] + s[1..];
      OnceInSeq(s[1..], l);
      assert l == s[0] ==> l !in s[1..];
    }
  }

  // ---- What is stored ----

  /** On this clock the delays of producer i's messages end at a time that can be written down. */
  ghost predicate Resolvable(sends: seq<Sent>, i: nat, now: int) {
    forall k :: 0 <= k < |sends| && sends[k].producer == i ==> CanResolve(sends[k].msg, now)
  }

  ghost predicate AllReady(sends: seq<Sent>) {
    forall k :: 0 <= k < |sends| ==> Ready(sends[k].msg)
  }

  /** The bytes of a message in the storage: resolved only if its producer is the first to commit. */
  function StoredBytes(s: Sent, now: int): Bytes
    requires s.producer == 0 ==> CanResolve(s.msg, now)
  {
    if s.producer == 0 then Resolved(s.msg, now).cached else s.msg.cached
  }

  function StoredOne(s: Sent, now: int): seq<(Uuid, Bytes)>
    requires s.producer == 0 ==> CanResolve(s.msg, now)
  {
    if s.msg.content.persistent then [(s.msg.content.uuid, StoredBytes(s, now))] else []
  }

  /** The storage's gain: the persistent messages of all producers in the order of the sends. */
  ghost function StoredOf(sends: seq<Sent>, now: int): seq<(Uuid, Bytes)>
    requires Resolvable(sends, 0, now)
  {
    if sends == [] then [] else StoredOf(sends[..|sends| - 1], now) + StoredOne(sends[|sends| - 1], now)
  }

  lemma {:induction false} PatchedListSum(a: seq<(Uuid, Bytes)>, b: seq<(Uuid, Bytes)>, id: Uuid, t: Int64)
    ensures TransactionLog.PatchedList(a + b, id, t) == TransactionLog.PatchedList(a, id, t) + TransactionLog.PatchedList(b, id, t)
  {
    if a == [] {
      assert a + b == b;
    } else {
      PatchedListSum(a[1..], b, id, t);
      assert (a + b)[1..] == a[1..] + b;
    }
  }

  lemma {:induction false} PatchForAllSum(a: seq<(Uuid, Bytes)>, b: seq<(Uuid, Bytes)>, ls: seq<Staged>, now: int)
    requires AllCanResolve(ls, now)
    ensures PatchForAll(a + b, ls, now) == PatchForAll(a, ls, now) + PatchForAll(b, ls, now)
  {
    if ls != [] {
      var init, l := ls[..|ls| - 1], ls[|ls| - 1];
      PatchForAllSum(a, b, init, now);
      PatchedListSum(PatchForAll(a, init, now), PatchForAll(b, init, now), l.content.uuid, DueAt(l, now));
    }
  }

  /** Patches for other messages do not touch an entry. */
  lemma {:induction false} PatchForOthers(e: seq<(Uuid, Bytes)>, ls: seq<Staged>, now: int)
    requires AllCanResolve(ls, now)
    requires forall j, k :: 0 <= j < |e| && 0 <= k < |ls| ==> ls[k].content.uuid != e[j].0
    ensures PatchForAll(e, ls, now) == e
  {
    if ls != [] {
      var l := ls[|ls| - 1];
      PatchForOthers(e, ls[..|ls| - 1], now);
      TransactionLog.PatchedAbsent(e, l.content.uuid, DueAt(l, now));
    }
  }

  lemma PatchForOne(l: Staged, now: int)
    requires CanResolve(l, now)
    ensures PatchFor(One(l), l, now) == One(l.(cached := Resolved(l, now).cached))
  {
    if l.delay > 0 && l.content.persistent {
      var t := DueAt(l, now);
      assert TransactionLog.PatchedList(One(l)[1..], l.content.uuid, t) == [];
    }
  }

  /** The patches for a queue that holds a message resolve that message's entry. */
  lemma {:induction false} PatchForMember(l: Staged, ls: seq<Staged>, now: int)
    requires AllCanResolve(ls, now) && DistinctStaged(ls) && l in ls
    ensures PatchForAll(One(l), ls, now) == One(l.(cached := Resolved(l, now).cached))
  {
    var init, last := ls[..|ls| - 1], ls[|ls| - 1];
    var k :| 0 <= k < |ls| && ls[k] == l;
    if k == |init| {
      PatchForOthers(One(l), init, now);
      PatchForOne(l, now);
    } else {
      assert init[k] == l;
      PatchForMember(l, init, now);
      TransactionLog.PatchedAbsent(One(l.(cached := Resolved(l, now).cached)), last.content.uuid, DueAt(last, now));
    }
  }

  lemma QueueResolvable(sends: seq<Sent>, i: nat, now: int)
    requires DistinctSends(sends) && Resolvable(sends, i, now)
    ensures AllCanResolve(QueueOf(sends, i), now)
  {
    hide QueueOf, CanResolve;
    QueueMembers(sends, i);
    var q := QueueOf(sends, i);
    forall k | 0 <= k < |q| ensures CanResolve(q[k], now) {
      assert q[k] in SentBy(sends, i);
      var a :| 0 <= a < |SentBy(sends, i)| && SentBy(sends, i)[a] == q[k];
      var j := SentByAt(sends, i, a);
    }
  }

  /** A queue that holds exactly what the first producer sent. */
  ghost predicate FirstQueue(q: seq<Staged>, sends: seq<Sent>) {
    && DistinctStaged(q)
    && (forall k :: 0 <= k < |q| ==> Sent(0, q[k]) in sends)
    && forall k :: 0 <= k < |sends| && sends[k].producer == 0 ==> sends[k].msg in q
  }

  lemma QueueIsFirst(sends: seq<Sent>)
    requires DistinctSends(sends)
    ensures FirstQueue(QueueOf(sends, 0), sends)
  {
    hide QueueOf;
    QueueMembers(sends, 0);
    var q := QueueOf(sends, 0);
    forall k | 0 <= k < |q| ensures Sent(0, q[k]) in sends {
      assert q[k] in SentBy(sends, 0);
      var a :| 0 <= a < |SentBy(sends, 0)| && SentBy(sends, 0)[a] == q[k];
      var j := SentByAt(sends, 0, a);
    }
    forall k | 0 <= k < |sends| && sends[k].producer == 0 ensures sends[k].msg in q {
      SentByHas(sends, k);
    }
  }

  /** What the first producer's queue does to the entry of any one message. */
  lemma FirstPatchesOne(q: seq<Staged>, sends: seq<Sent>, k: nat, now: int)
    requires FirstQueue(q, sends) && DistinctSends(sends) && AllCanResolve(q, now) && k < |sends|
    requires sends[k].producer == 0 ==> CanResolve(sends[k].msg, now)
    ensures PatchForAll(One(sends[k].msg), q, now) == StoredOne(sends[k], now)
  {
    if sends[k].producer == 0 {
      PatchForMember(sends[k].msg, q, now);
    } else {
      forall a | 0 <= a < |q| ensures q[a].content.uuid != sends[k].msg.content.uuid {
        assert Sent(0, q[a]) in sends;
        var j :| 0 <= j < |sends| && sends[j] == Sent(0, q[a]);
      }
      PatchForOthers(One(sends[k].msg), q, now);
    }
  }

  lemma {:induction false} PatchedRange(q: seq<Staged>, sends: seq<Sent>, m: nat, n: nat, now: int)
    requires FirstQueue(q, sends) && DistinctSends(sends) && AllCanResolve(q, now) && m <= n <= |sends| && Resolvable(sends, 0, now)
    ensures Resolvable(sends[m..n], 0, now)
    ensures PatchForAll(EntryOf(sends[m..n]), q, now) == StoredOf(sends[m..n], now)
  {
    hide FirstQueue, DistinctSends, PatchForAll, CanResolve, One, StoredOne;
    if n == m {
      PatchForOthers([], q, now);
    } else {
      PatchedRange(q, sends, m, n - 1, now);
      FirstPatchesOne(q, sends, n - 1, now);
      PatchForAllSum(EntryOf(sends[m..n - 1]), One(sends[n - 1].msg), q, now);
      assert sends[m..n][..n - 1 - m] == sends[m..n - 1];
    }
  }

  lemma {:induction false} NobodySent(sends: seq<Sent>, i: nat)
    requires forall k :: 0 <= k < |sends| ==> sends[k].producer != i
    ensures BandsOf(sends, i) == NO_BANDS
  {
    if sends != [] {
      NobodySent(sends[..|sends| - 1], i);
    }
  }

  /** The first producer's commit stores what every producer of the session sent since the transaction was last thrown away. */
  lemma FirstCommitStores(sends: seq<Sent>, since: nat, now: int)
    requires DistinctSends(sends) && Resolvable(sends, 0, now) && since <= |sends|
    ensures AllCanResolve(QueueOf(sends, 0), now) && Resolvable(sends[since..], 0, now)
    ensures PatchForAll(EntryOf(sends[since..]), QueueOf(sends, 0), now) == StoredOf(sends[since..], now)
  {
    QueueResolvable(sends, 0, now);
    QueueIsFirst(sends);
    PatchedRange(QueueOf(sends, 0), sends, since, |sends|, now);
    assert sends[since..|sends|] == sends[since..];
  }

  // ---- Storage against cache ----

  /**
   Storage and cache of a persistent message agree after the session's commit if and only if its producer was the first
   to commit, or it had no delay, or the resolved time is the one it was sent with.
   */
  lemma AgreesExactly(s: Sent, first: int, now: int)
    requires Ready(s.msg) && s.msg.content.persistent && CanResolve(s.msg, now)
    requires s.producer == 0 ==> first == now
    ensures StoredBytes(s, first) == Resolved(s.msg, now).cached
        <==> s.producer == 0 || s.msg.delay == 0 || DueAt(s.msg, now) == s.msg.content.headers.deliveryTime
    ensures Resolved(s.msg, now).cached == Record(s.msg.kind, Resolved(s.msg, now).content)
  {
    ResolvedReady(s.msg, now);
    PatchVisible(s.msg.kind, s.msg.content, DueAt(s.msg, now));
  }

  /** Every sender has a clock reading of its own commit, and the delays can be added to it. */
  ghost predicate Clocked(sends: seq<Sent>, nows: seq<int>) {
    && (forall k :: 0 <= k < |sends| ==> sends[k].producer < |nows|)
    && forall i :: 0 <= i < |nows| ==> Resolvable(sends, i, nows[i])
  }

  /** The storage's gain at the commit: what was sent since the transaction was last thrown away. */
  ghost function StoredAtCommit(sends: seq<Sent>, since: nat, nows: seq<int>): seq<(Uuid, Bytes)>
    requires Clocked(sends, nows) && since <= |sends|
  {
    if nows == [] then [] else StoredOf(sends[since..], nows[0])
  }

  /** Message k is stored with the bytes that its cache has when it goes out. */
  ghost predicate StoredAsCached(sends: seq<Sent>, since: nat, nows: seq<int>, k: nat)
    requires Clocked(sends, nows) && since <= |sends| && k < |sends|
  {
    (sends[k].msg.content.uuid, Resolved(sends[k].msg, nows[sends[k].producer]).cached) in StoredAtCommit(sends, since, nows)
  }

  ghost predicate Undelayed(s: Sent, nows: seq<int>)
    requires s.producer < |nows| && CanResolve(s.msg, nows[s.producer])
  {
    s.producer == 0 || s.msg.delay == 0 || DueAt(s.msg, nows[s.producer]) == s.msg.content.headers.deliveryTime
  }

  lemma {:induction false} StoredHas(sends: seq<Sent>, now: int, e: (Uuid, Bytes))
    requires Resolvable(sends, 0, now)
    ensures e in StoredOf(sends, now) <==> exists k :: 0 <= k < |sends| && e in StoredOne(sends[k], now)
  {
    hide StoredOne, CanResolve;
    if sends != [] {
      var n := |sends| - 1;
      StoredHas(sends[..n], now, e);
      if e in StoredOf(sends[..n], now) {
        var k :| 0 <= k < n && e in StoredOne(sends[..n][k], now);
        assert e in StoredOne(sends[k], now);
      }
      if exists k :: 0 <= k < |sends| && e in StoredOne(sends[k], now) {
        var k :| 0 <= k < |sends| && e in StoredOne(sends[k], now);
        assert k < n ==> e in StoredOne(sends[..n][k], now);
      }
    }
  }

  /** One message is stored as it is cached exactly if nothing was thrown away since, and storage and cache agree. */
  lemma StoredExactly(sends: seq<Sent>, since: nat, nows: seq<int>, k: nat)
    requires DistinctSends(sends) && AllReady(sends) && Clocked(sends, nows) && since <= |sends|
    requires k < |sends| && sends[k].msg.content.persistent
    ensures StoredAsCached(sends, since, nows, k) <==> since <= k && Undelayed(sends[k], nows)
  {
    hide Resolved, CanResolve, Ready;
    var e := (sends[k].msg.content.uuid, Resolved(sends[k].msg, nows[sends[k].producer]).cached);
    AgreesExactly(sends[k], nows[0], nows[sends[k].producer]);
    StoredHas(sends[since..], nows[0], e);
    if since <= k {
      assert sends[since..][k - since] == sends[k];
    }
    if e in StoredOf(sends[since..], nows[0]) {
      var j :| 0 <= j < |sends| - since && e in StoredOne(sends[since..][j], nows[0]);
      assert sends[since..][j] == sends[since + j];
      assert since + j == k;
    }
  }

  /**
   Every persistent message of the session is stored as it is cached if and only if each was sent after the last closing of
   a producer, and was the first producer's, or had no delay, or resolves to the time it was sent with.
   */
  lemma SessionAgreesExactly(sends: seq<Sent>, since: nat, nows: seq<int>)
    requires DistinctSends(sends) && AllReady(sends) && Clocked(sends, nows) && since <= |sends|
    ensures (forall k :: 0 <= k < |sends| && sends[k].msg.content.persistent ==> StoredAsCached(sends, since, nows, k))
        <==> forall k :: 0 <= k < |sends| && sends[k].msg.content.persistent ==> since <= k && Undelayed(sends[k], nows)
  {
    hide StoredAsCached, Undelayed;
    forall k | 0 <= k < |sends| && sends[k].msg.content.persistent
      ensures StoredAsCached(sends, since, nows, k) <==> since <= k && Undelayed(sends[k], nows)
    {
      StoredExactly(sends, since, nows, k);
    }
  }

  // ---- Closing a producer ----

  /** The sends of the others once producer i is gone; those behind it move up by one. */
  function Without(sends: seq<Sent>, i: nat): seq<Sent> {
    if sends == [] then []
    else
      var rest, last := Without(sends[..|sends| - 1], i), sends[|sends| - 1];
      if last.producer == i then rest
      else if last.producer < i then rest + [last]
      else rest + [last.(producer := last.producer - 1)]
  }

  /** Nobody else's queue changes. */
  lemma {:induction false} WithoutQueues(sends: seq<Sent>, i: nat, j: nat)
    ensures BandsOf(Without(sends, i), j) == BandsOf(sends, if j < i then j else j + 1)
  {
    if sends == [] {
      assert Without(sends, i) == sends;
    } else {
      var init, last := sends[..|sends| - 1], sends[|sends| - 1];
      hide Banded, BandsOf;
      WithoutQueues(init, i, j);
      var rest := Without(init, i);
      assert sends == init + [last];
      OneMoreBand(init, last, if j < i then j else j + 1);
      if last.producer != i {
        OneMoreBand(rest, if last.producer < i then last else last.(producer := last.producer - 1), j);
      }
    }
  }

  /** Each message left was one of those before. */
  lemma {:induction false} WithoutFrom(sends: seq<Sent>, i: nat, k: nat) returns (j: nat)
    requires k < |Without(sends, i)|
    ensures j < |sends| && sends[j].msg == Without(sends, i)[k].msg && sends[j].producer != i
    ensures Without(sends, i)[k].producer == if sends[j].producer < i then sends[j].producer else sends[j].producer - 1
  {
    var n := |sends| - 1;
    if k < |Without(sends[..n], i)| {
      j := WithoutFrom(sends[..n], i, k);
    } else {
      j := n;
    }
  }

  lemma {:induction false} WithoutKeeps(sends: seq<Sent>, i: nat)
    requires DistinctSends(sends) && AllReady(sends)
    ensures DistinctSends(Without(sends, i)) && AllReady(Without(sends, i))
  {
    hide Ready;
    if sends != [] {
      var n := |sends| - 1;
      WithoutKeeps(sends[..n], i);
      var rest := Without(sends[..n], i);
      forall k | 0 <= k < |rest| ensures rest[k].msg.content.uuid != sends[n].msg.content.uuid {
        var j := WithoutFrom(sends[..n], i, k);
        assert sends[..n][j] == sends[j];
      }
    }
  }

  /** Two producers, and the second is closed: the first one's message goes out and is not stored. */
  lemma ClosingLosesOthers(a: Staged, b: Staged, now: int)
    requires a.content.persistent && a.delay == 0 && CanResolve(a, now)
    ensures var sends := Without([Sent(0, a), Sent(1, b)], 1);
      && sends == [Sent(0, a)] && QueueOf(sends, 0) == [a] && Clocked(sends, [now])
      && Undelayed(sends[0], [now]) && StoredAtCommit(sends, |sends|, [now]) == []
  {
    var sends := [Sent(0, a), Sent(1, b)];
    assert Without(sends[..0], 1) == [];
    assert sends[..1][..0] == sends[..0];
    assert Without(sends[..1], 1) == [] + [Sent(0, a)];
    OnlySent(a, QP.BANDS);
    GoesOutByPriority([Sent(0, a)], 0);
  }

  lemma {:induction false} OnlySent(a: Staged, k: nat)
    ensures ByPriority([Sent(0, a)], 0, k) == if k <= QP.Band(a.content.headers.priority) then [] else [a]
  {
    hide QP.Band;
    if k > 0 {
      var sends := [Sent(0, a)];
      assert SentIn(sends[..0], 0, k - 1) == [];
      OnlySent(a, k - 1);
    }
  }

  /** Two producers: whatever the second sends with a delay is stored without its delivery time. */
  lemma SecondProducerUnpatched(a: Staged, b: Staged, nows: seq<int>)
    requires |nows| == 2 && Ready(a) && Ready(b) && a.content.persistent && b.content.persistent
    requires a.content.uuid != b.content.uuid && CanResolve(a, nows[0]) && CanResolve(b, nows[1])
    requires b.delay > 0 && b.content.headers.deliveryTime == 0 && DueAt(b, nows[1]) != 0
    ensures var sends := [Sent(0, a), Sent(1, b)];
      && StoredOf(sends, nows[0]) == [(a.content.uuid, Resolved(a, nows[0]).cached), (b.content.uuid, b.cached)]
      && RawTime(b.cached) == 0
      && RawTime(Resolved(b, nows[1]).cached) == Resolved(b, nows[1]).content.headers.deliveryTime == DueAt(b, nows[1])
  {
    hide RawTime, PQ.Pending;
    var sends := [Sent(0, a), Sent(1, b)];
    assert StoredOf(sends[..0], nows[0]) == [];
    assert sends[..1][..0] == sends[..0];
    assert StoredOf(sends[..1], nows[0]) == StoredOf(sends[..0], nows[0]) + StoredOne(sends[0], nows[0]);
    RawTimeOfRecord(b.kind, b.content);
    ResolvedReady(b, nows[1]);
    RawTimeOfRecord(b.kind, Resolved(b, nows[1]).content);
  }

  /** One producer, a low priority and then a higher one: delivered in the opposite order to the stored one. */
  lemma PriorityAgainstAddOrder(low: Staged, high: Staged)
    requires low.content.persistent && high.content.persistent
    requires QP.Band(low.content.headers.priority) < QP.Band(high.content.headers.priority)
    ensures var sends := [Sent(0, low), Sent(0, high)];
      && QueueOf(sends, 0) == [high, low]
      && EntryOf(sends) == [(low.content.uuid, low.cached), (high.content.uuid, high.cached)]
  {
    hide QueueOf, ByPriority, QP.Band;
    var sends := [Sent(0, low), Sent(0, high)];
    assert EntryOf(sends[..0]) == [];
    assert sends[..1][..0] == sends[..0];
    assert EntryOf(sends[..1]) == EntryOf(sends[..0]) + One(low);
    TwoByPriority(low, high, QP.BANDS);
    GoesOutByPriority(sends, 0);
  }

  lemma TwoSentIn(low: Staged, high: Staged, b: nat)
    ensures SentIn([Sent(0, low), Sent(0, high)], 0, b)
         == (if QP.Band(low.content.headers.priority) == b then [low] else [])
          + if QP.Band(high.content.headers.priority) == b then [high] else []
  {
    hide QP.Band;
    var sends := [Sent(0, low), Sent(0, high)];
    assert SentIn(sends[..0], 0, b) == [];
    assert sends[..1][..0] == sends[..0];
    assert SentIn(sends[..1], 0, b) == if QP.Band(low.content.headers.priority) == b then [low] else [];
  }

  lemma {:induction false} TwoByPriority(low: Staged, high: Staged, k: nat)
    requires QP.Band(low.content.headers.priority) < QP.Band(high.content.headers.priority)
    ensures ByPriority([Sent(0, low), Sent(0, high)], 0, k)
         == if k <= QP.Band(low.content.headers.priority) then []
            else if k <= QP.Band(high.content.headers.priority) then [low]
            else [high, low]
  {
    hide QP.Band, SentIn;
    if k > 0 {
      TwoSentIn(low, high, k - 1);
      TwoByPriority(low, high, k - 1);
    }
  }

  // ---- Sessions ----

  lemma EmptyBands(bands: seq<seq<Staged>>)
    requires |bands| == QP.BANDS && PQ.Pending(bands, QP.BANDS) == []
    ensures bands == NO_BANDS
  {
    PQ.PendingNone(bands, QP.BANDS);
  }

  ghost predicate SentOut(out: seq<Staged>, sends: seq<Sent>, i: nat, now: int) {
    && AllCanResolve(QueueOf(sends, i), now)
    && out == ResolvedAll(QueueOf(sends, i), now)
  }

  lemma OneMore(sends: seq<Sent>, since: nat, s: Sent)
    requires since <= |sends|
    requires DistinctSends(sends) && AllReady(sends) && Ready(s.msg)
    requires forall k :: 0 <= k < |sends| ==> sends[k].msg.content.uuid != s.msg.content.uuid
    ensures DistinctSends(sends + [s]) && AllReady(sends + [s]) && EntryOf((sends + [s])[since..]) == EntryOf(sends[since..]) + One(s.msg)
    ensures forall j: nat :: BandsOf(sends + [s], j) == if j == s.producer then Banded(BandsOf(sends, j), s.msg) else BandsOf(sends, j)
  {
    hide Ready, Banded, One, BandsOf;
    assert (sends + [s])[since..] == sends[since..] + [s];
    assert (sends[since..] + [s])[..|sends| - since] == sends[since..];
    forall j: nat ensures BandsOf(sends + [s], j) == if j == s.producer then Banded(BandsOf(sends, j), s.msg) else BandsOf(sends, j) {
      OneMoreBand(sends, s, j);
    }
  }

  lemma OneMoreBand(sends: seq<Sent>, s: Sent, j: nat)
    ensures BandsOf(sends + [s], j) == if j == s.producer then Banded(BandsOf(sends, j), s.msg) else BandsOf(sends, j)
  {
    hide Banded;
    assert (sends + [s])[..|sends|] == sends;
  }

  lemma NothingSent(b: TransactionLog.Buffer, tx: TransactionLog.TxId)
    requires tx !in b.open
    ensures BookEntry(b, tx) == EntryOf([][0..]) && DistinctSends([]) && AllReady([])
  {
  }

  lemma NothingBuffered(b: TransactionLog.Buffer, tx: TransactionLog.TxId, sends: seq<Sent>)
    requires tx !in b.open
    ensures BookEntry(b, tx) == EntryOf(sends[|sends|..])
  {
  }

  /** The first commit stores for everybody, and the later ones find nothing. */
  lemma CommitStores(b: TransactionLog.Buffer, tx: TransactionLog.TxId, sends: seq<Sent>, since: nat, i: nat, nows: seq<int>)
    requires since <= |sends| && DistinctSends(sends) && Clocked(sends, nows) && i < |nows| && AllCanResolve(QueueOf(sends, i), nows[i])
    requires if i == 0 then BookEntry(b, tx) == EntryOf(sends[since..]) else tx !in b.open
    ensures PatchForAll(BookEntry(b, tx), QueueOf(sends, i), nows[i]) == if i == 0 then StoredAtCommit(sends, since, nows) else []
  {
    hide QueueOf, DistinctSends, EntryOf, CanResolve;
    if i == 0 {
      FirstCommitStores(sends, since, nows[0]);
    } else {
      PatchForOthers([], QueueOf(sends, i), nows[i]);
    }
  }

  /** The producers of one session for one destination, in the order in which commit goes through them. */
  class Session {
    const buffer: TB.TransactionBuffer
    var producers: seq<Producer>
    var tx: TransactionLog.TxId
    ghost var sends: seq<Sent>  // staged in the current transaction
    ghost var since: nat        // how many of them the buffer no longer has

    ghost function Queues(): set<object>
      reads this
    {
      set p | p in producers :: p.transactQueue
    }

    /** Every producer stages in a queue of its own, and all share the destination's buffer. */
    ghost predicate Apart()
      reads this
    {
      && (forall i :: 0 <= i < |producers| ==> producers[i].buffer == buffer)
      && forall i, j :: 0 <= i < j < |producers| ==> producers[i].transactQueue != producers[j].transactQueue
    }

    /** Producer i's queue holds what it sent, by priority. */
    ghost predicate Staging(i: nat)
      requires i < |producers|
      reads this, producers[i].transactQueue
    {
      producers[i].transactQueue.Valid() && producers[i].transactQueue.bands == BandsOf(sends, i)
    }

    ghost predicate Drained(i: nat)
      requires i < |producers|
      reads this, producers[i].transactQueue
    {
      producers[i].transactQueue.Valid() && producers[i].transactQueue.Contents() == []
    }

    ghost predicate Valid()
      reads this, buffer, Queues()
    {
      && Apart() && buffer.Valid()
      && (forall i :: 0 <= i < |producers| ==> Staging(i))
      && since <= |sends| && BookEntry(buffer.State(), tx) == EntryOf(sends[since..])
      && DistinctSends(sends) && AllReady(sends)
      && forall k :: 0 <= k < |sends| ==> sends[k].producer < |producers|
    }

    constructor (buffer: TB.TransactionBuffer, tx: TransactionLog.TxId)
      requires buffer.Valid() && tx !in buffer.open
      ensures Valid() && this.buffer == buffer && this.tx == tx && producers == [] && sends == [] && since == 0
    {
      this.buffer, this.tx := buffer, tx;
      producers, sends, since := [], [], 0;
    }

    /** createProducer. */
    method CreateProducer()
      requires Valid()
      modifies this`producers
      ensures Valid() && |producers| == |old(producers)| + 1 && producers[..|old(producers)|] == old(producers)
      ensures fresh(producers[|old(producers)|]) && fresh(producers[|old(producers)|].transactQueue)
    {
      hide BookEntry, TransactionLog.Distinct, TransactionLog.Logged, PQ.MaskComplete, EntryOf, BandsOf, PQ.Pending, DistinctSends, AllReady;
      var p := new Producer(buffer);
      NobodySent(sends, |producers|);
      EmptyBands(p.transactQueue.bands);
      ghost var n := |producers|;
      producers := producers + [p];
      forall i | 0 <= i < |producers| ensures Staging(i) {
        assert i < n ==> old(Staging(i)) && producers[i] == old(producers)[i];
      }
    }

    /** A transacted send through producer i. */
    method Send(i: nat, l: Staged)
      requires Valid() && i < |producers| && Ready(l) && TransactionLog.Unused(buffer.open, l.content.uuid)
      requires forall k :: 0 <= k < |sends| ==> sends[k].msg.content.uuid != l.content.uuid
      modifies this`sends, buffer, producers[i].transactQueue
      ensures Valid() && sends == old(sends) + [Sent(i, l)] && since == old(since) && buffer.stored == old(buffer.stored)
    {
      hide BookEntry, TransactionLog.Distinct, TransactionLog.Logged, TransactionLog.Unused, PQ.MaskComplete, Ready, Banded, BandsOf, EntryOf, DistinctSends, AllReady, One, PQ.Pending;
      assert Staging(i);
      OneMore(sends, since, Sent(i, l));
      producers[i].Send(tx, l);
      sends := sends + [Sent(i, l)];
      forall j | 0 <= j < |producers| ensures Staging(j) {
        assert j != i ==> old(Staging(j));
      }
    }

    /**
     commit: every producer's messages go out by priority with their delays resolved on the clock of its turn, and the
     storage gains the persistent messages that the buffer still has, in the order of the sends, as the first producer left them.
     */
    method Commit(nows: seq<int>, next: TransactionLog.TxId) returns (delivered: seq<seq<Staged>>)
      requires Valid() && |nows| == |producers| && Clocked(sends, nows) && next !in buffer.open && next != tx
      modifies this`tx, this`sends, this`since, buffer, Queues()
      ensures Valid() && sends == [] && since == 0 && tx == next && (producers != [] ==> old(tx) !in buffer.open)
      ensures |delivered| == |producers|
      ensures forall i :: 0 <= i < |producers| ==> SentOut(delivered[i], old(sends), i, nows[i])
      ensures buffer.stored == old(buffer.stored) + StoredAtCommit(old(sends), old(since), nows)
    {
      hide BookEntry, TransactionLog.Distinct, TransactionLog.Logged, PQ.MaskComplete, PQ.Pending, BandsOf, EntryOf, DistinctSends, AllReady, StoredOf, AllCanResolve, Resolvable, CanResolve, PatchForAll, ResolvedAll;
      delivered := [];
      for i := 0 to |producers|
        invariant sends == old(sends) && since == old(since) && tx == old(tx) && producers == old(producers)
        invariant Apart() && buffer.Valid() && next !in buffer.open && |delivered| == i
        invariant forall j :: i <= j < |producers| ==> Staging(j)
        invariant forall j :: 0 <= j < i ==> Drained(j) && SentOut(delivered[j], sends, j, nows[j])
        invariant i == 0 ==> BookEntry(buffer.State(), tx) == EntryOf(sends[since..]) && buffer.stored == old(buffer.stored)
        invariant i > 0 ==> tx !in buffer.open && buffer.stored == old(buffer.stored) + StoredAtCommit(sends, since, nows)
      {
        assert Staging(i);
        QueueResolvable(sends, i, nows[i]);
        CommitStores(buffer.State(), tx, sends, since, i, nows);
        var out := producers[i].Commit(tx, nows[i]);
        delivered := delivered + [out];
      }
      forall j | 0 <= j < |producers| ensures producers[j].transactQueue.Valid() && producers[j].transactQueue.bands == BandsOf([], j) {
        assert Drained(j);
        EmptyBands(producers[j].transactQueue.bands);
        NobodySent([], j);
      }
      sends, since, tx := [], 0, next;
      NothingSent(buffer.State(), tx);
    }

    /**
     deleteProducer with the last reference: the destructor rolls back, so the producer's staged messages are dropped, and
     what the other producers have sent so far stays staged and leaves the buffer.
     */
    method CloseProducer(i: nat)
      requires Valid() && i < |producers|
      modifies this`producers, this`sends, this`since, buffer, producers[i].transactQueue
      ensures Valid() && producers == old(producers)[..i] + old(producers)[i + 1..]
      ensures sends == Without(old(sends), i) && since == |sends| && buffer.stored == old(buffer.stored)
    {
      hide BookEntry, TransactionLog.Distinct, TransactionLog.Logged, PQ.MaskComplete, PQ.Pending, BandsOf, EntryOf, DistinctSends, AllReady;
      assert Staging(i);
      producers[i].Rollback(tx);
      WithoutKeeps(sends, i);
      forall k | 0 <= k < |Without(sends, i)| ensures Without(sends, i)[k].producer < |producers| - 1 {
        var j := WithoutFrom(sends, i, k);
      }
      producers := producers[..i] + producers[i + 1..];
      sends := Without(sends, i);
      since := |sends|;
      NothingBuffered(buffer.State(), tx, sends);
      forall j | 0 <= j < |producers| ensures Staging(j) {
        WithoutQueues(old(sends), i, j);
        assert producers[j] == old(producers)[if j < i then j else j + 1];
        assert old(Staging(if j < i then j else j + 1));
      }
    }

    /** rollback: every producer drops what it has staged, and the buffer the transaction. */
    method Rollback(next: TransactionLog.TxId)
      requires Valid() && next !in buffer.open && next != tx
      modifies this`tx, this`sends, this`since, buffer, Queues()
      ensures Valid() && sends == [] && since == 0 && tx == next && buffer.stored == old(buffer.stored)
      ensures producers != [] ==> old(tx) !in buffer.open
    {
      hide BookEntry, TransactionLog.Distinct, TransactionLog.Logged, PQ.MaskComplete, PQ.Pending, BandsOf, EntryOf, DistinctSends, AllReady;
      forall j | 0 <= j < |producers| ensures producers[j].transactQueue.Valid() {
        assert Staging(j);
      }
      for i := 0 to |producers|
        invariant producers == old(producers) && tx == old(tx) && Apart() && buffer.Valid() && next !in buffer.open
        invariant forall j :: i <= j < |producers| ==> producers[j].transactQueue.Valid()
        invariant forall j :: 0 <= j < i ==> Drained(j)
        invariant buffer.stored == old(buffer.stored) && (i > 0 ==> tx !in buffer.open)
      {
        producers[i].Rollback(tx);
      }
      forall j | 0 <= j < |producers| ensures producers[j].transactQueue.Valid() && producers[j].transactQueue.bands == BandsOf([], j) {
        assert Drained(j);
        EmptyBands(producers[j].transactQueue.bands);
        NobodySent([], j);
      }
      sends, since, tx := [], 0, next;
      NothingSent(buffer.State(), tx);
    }
  }
}
