/**
 The life of one message instance through push, scheduling, transactions, receipt, redelivery, dead-lettering and
 replay: its headers and the encoding cached beside them.
 */
module MessageLife {
  import opened Bytes
  import opened Codec
  import opened Options
  import MessageBytes

  /** Staged in a transaction, waiting in a queue or the scheduler, or in the hands of a consumer. */
  datatype Where = Staged(delay: nat) | Waiting | Received

  /**
   buffered is the copy of the bytes that went to the transaction buffer, flushed if the storage has it already;
   replayed: made from a stored record, not from a send.
   */
  datatype Life = Life(kind: Byte, content: Content, cached: Bytes, buffered: Bytes, flushed: bool, at: Where, replayed: bool)

  function CacheOf(kind: Byte, m: Content): Bytes {
    if m.persistent then Record(kind, m) else []
  }

  /** preparePush: inside a transaction the bytes also go to the transaction buffer. */
  function Prepared(kind: Byte, m: Content, at: Where): Life {
    Life(kind, m, CacheOf(kind, m), if at.Staged? then CacheOf(kind, m) else [], false, at, false)
  }

  /** replayFromStorage of a record, when the clock shows now. */
  function Replayed(uuid: Uuid, data: Bytes, now: int): Life
    requires data != []
  {
    var t := RawDeliveryTime(data, now);
    var headers := NO_HEADERS.(priority := RawPriority(data), deliveryTime := t);
    Life(data[0], Content(0, uuid, true, headers, [], []), Patched(data, t), [], false, Waiting, true)
  }

  /** What recv makes of the message; None if its record predates magic 1. */
  function Rehydrated(l: Life): Option<Content> {
    if !l.content.persistent || l.cached == [] then Some(l.content)
    else
      match Decode(l.content, Payload(l.cached))
      case Decoded(m) => Some(m)
      case LegacyJson => None
  }

  // ---- Steps ----

  datatype Action =
    | Clamp(now: int)                // enqueueOrSchedule looks at the delivery time
    | Flush                          // another producer of the session commits the shared transaction
    | Discard                        // another producer of the session is closed: the buffer loses the transaction
    | Commit(now: int)               // the delay of a staged message starts to run
    | Receive
    | Redeliver(dueAt: Int64)        // 0 for at once, else the end of the backoff
    | DeadLetter(properties: Bytes)  // from here on the copy for the dead-letter queue

  predicate Enabled(l: Life, a: Action) {
    match a
    case Clamp(_) => l.at.Waiting?
    case Flush => l.at.Staged?
    case Discard => l.at.Staged? && !l.flushed
    case Commit(now) => l.at.Staged? && -TWO63 <= now + l.at.delay < TWO63
    case Receive => l.at.Waiting? && Rehydrated(l).Some?
    case Redeliver(_) => l.at.Received? && l.content.headers.deliveryCount + 1 < TWO31
    case DeadLetter(properties) => l.at.Received? && |properties| < TWO32
  }

  function Step(l: Life, a: Action): Life
    requires Enabled(l, a)
  {
    match a
    case Clamp(now) =>
      var t := l.content.headers.deliveryTime;
      if t > 0 && t - now > MAX_FUTURE_MS then l.(content := Retimed(l.content, 0), cached := Patched(l.cached, 0)) else l
    case Flush => l.(flushed := true)
    case Discard => l.(buffered := [])
    case Commit(now) =>
      var t := now + l.at.delay;
      var buffered := if l.flushed then l.buffered else Patched(l.buffered, t);
      if l.at.delay == 0 then l.(flushed := true, at := Waiting)
      else if !l.content.persistent then l.(content := Retimed(l.content, t), flushed := true, at := Waiting)
      else l.(content := Retimed(l.content, t), cached := Patched(l.cached, t), buffered := buffered, flushed := true, at := Waiting)
    case Receive => l.(content := Rehydrated(l).value, cached := if l.content.persistent then [] else l.cached, at := Received)
    case Redeliver(dueAt) =>
      var h := l.content.headers;
      var m := l.content.(headers := h.(redelivered := true, deliveryCount := h.deliveryCount + 1, deliveryTime := dueAt));
      l.(content := m, cached := if m.persistent then Record(l.kind, m) else l.cached, at := Waiting, replayed := false)
    case DeadLetter(properties) =>
      var m := Retimed(l.content, 0).(properties := properties);
      l.(content := m, cached := if m.persistent then Record(l.kind, m) else l.cached, at := Waiting, replayed := false)
  }

  predicate Feasible(l: Life, run: seq<Action>)
    decreases |run|
  {
    run == [] || (Enabled(l, run[0]) && Feasible(Step(l, run[0]), run[1..]))
  }

  function Exec(l: Life, run: seq<Action>): Life
    requires Feasible(l, run)
    decreases |run|
  {
    if run == [] then l else Exec(Step(l, run[0]), run[1..])
  }

  /** An instance comes from a push or from a stored record. */
  ghost predicate Born(l: Life) {
    || (!l.at.Received? && Fits(l.content) && l == Prepared(l.kind, l.content, l.at))
    || (exists uuid, data, now :: data != [] && l == Replayed(uuid, data, now))
  }

  // ---- The invariant ----

  /** The delivery time in a record, unclamped. */
  function CachedTime(data: Bytes): Int64 {
    if |data| < 51 || data[1] != 2 then 0 else GetI64(data[43..51])
  }

  /** An instance made by replay and not yet received: only two headers were taken over, and the bytes carry the same. */
  ghost predicate Shell(l: Life) {
    && l.content.headers == NO_HEADERS.(priority := l.content.headers.priority, deliveryTime := l.content.headers.deliveryTime)
    && l.content.properties == [] && l.content.data == [] && l.content.persistent && l.cached != []
    && CachedTime(l.cached) == l.content.headers.deliveryTime && RawPriority(l.cached) == l.content.headers.priority
  }

  ghost predicate Inv(l: Life) {
    && Fits(l.content)
    && match l.at
       case Staged(_) => !l.replayed && l.cached == CacheOf(l.kind, l.content) && (l.buffered == l.cached || l.buffered == [])
       case Waiting => if l.replayed then Shell(l) else l.content.persistent ==> l.cached == Record(l.kind, l.content)
       case Received => true
  }

  lemma PatchedTime(data: Bytes, t: Int64)
    ensures CachedTime(Patched(data, t)) == if |data| < 51 || data[1] != 2 then 0 else t
    ensures RawPriority(Patched(data, t)) == RawPriority(data)
    ensures |data| > 0 ==> Patched(data, t) != []
  {
    if |data| >= 51 && data[1] == 2 {
      var data' := Patched(data, t);
      I64RoundTrip(t);
      assert data'[43..51] == PutI64(t);
      if |data| >= 55 {
        assert data'[51..55] == data[51..55];
      }
    }
  }

  lemma ReplayedInv(uuid: Uuid, data: Bytes, now: int)
    requires data != []
    ensures Inv(Replayed(uuid, data, now))
  {
    PatchedTime(data, RawDeliveryTime(data, now));
  }

  lemma ClampKeeps(l: Life, now: int)
    requires Inv(l) && Enabled(l, Clamp(now))
    ensures Inv(Step(l, Clamp(now)))
  {
    PatchedTime(l.cached, 0);
    PatchIsReencoding(l.kind, l.content, 0);
  }

  lemma CommitKeeps(l: Life, now: int)
    requires Inv(l) && Enabled(l, Commit(now))
    ensures Inv(Step(l, Commit(now)))
  {
    hide Patched, Record, Encode;
    PatchIsReencoding(l.kind, l.content, now + l.at.delay);
  }

  lemma ReceiveKeeps(l: Life)
    requires Inv(l) && Enabled(l, Receive)
    ensures Inv(Step(l, Receive))
  {
    DecodedFits(l.content, Payload(l.cached));
  }

  lemma StepKeeps(l: Life, a: Action)
    requires Inv(l) && Enabled(l, a)
    ensures Inv(Step(l, a))
  {
    match a
    case Clamp(now) => ClampKeeps(l, now);
    case Flush =>
    case Discard =>
    case Commit(now) => CommitKeeps(l, now);
    case Receive => ReceiveKeeps(l);
    case Redeliver(_) =>
    case DeadLetter(_) =>
  }

  lemma {:induction false} RunKeeps(l: Life, run: seq<Action>)
    requires Inv(l) && Feasible(l, run)
    ensures Inv(Exec(l, run))
    decreases |run|
  {
    if run != [] {
      StepKeeps(l, run[0]);
      RunKeeps(Step(l, run[0]), run[1..]);
    }
  }

  lemma BornInv(l: Life)
    requires Born(l)
    ensures Inv(l)
  {
    if uuid, data, now :| data != [] && l == Replayed(uuid, data, now) {
      ReplayedInv(uuid, data, now);
    }
  }

  // ---- Main results ----

  /** Rehydrating a message made by replay keeps its delivery time and its band. */
  lemma ShellAgrees(l: Life)
    requires Shell(l) && Rehydrated(l).Some?
    ensures Rehydrated(l).value.headers.deliveryTime == l.content.headers.deliveryTime
    ensures Codec.Clamp(Rehydrated(l).value.headers.priority) == l.content.headers.priority
  {
    var b := Payload(l.cached);
    if |l.cached| >= 60 && l.cached[1] == 2 {
      assert b[50..54] == l.cached[51..55] && b[42..50] == l.cached[43..51];
      var m1 := l.content.(number := GetI64(b[1..9]), uuid := GetUuid(b[9..25]), persistent := b[25] != 0);
      StringsKeepNumbers(m1.(headers := DecodeNumbers(m1.headers, b)), b[59..]);
    }
  }

  /**
   In every reachable state a persistent message that waits has a cached encoding, what recv reads from it has the
   delivery time and the band of its headers, and if it was not made by replay, recv changes nothing at all.
   */
  lemma CacheAgrees(l: Life, run: seq<Action>)
    requires Born(l) && Feasible(l, run)
    ensures var e := Exec(l, run);
      e.at.Waiting? && e.content.persistent ==>
        && e.cached != []
        && (Rehydrated(e).Some? ==>
              && Rehydrated(e).value.headers.deliveryTime == e.content.headers.deliveryTime
              && Codec.Clamp(Rehydrated(e).value.headers.priority) == Codec.Clamp(e.content.headers.priority))
        && (!e.replayed ==> Rehydrated(e) == Some(e.content))
  {
    BornInv(l);
    RunKeeps(l, run);
    var e := Exec(l, run);
    if e.at.Waiting? && e.content.persistent {
      if e.replayed {
        if Rehydrated(e).Some? {
          ShellAgrees(e);
        }
      } else {
        RehydrationIsIdentity(e.content);
        assert Payload(Record(e.kind, e.content)) == Encode(e.content);
      }
    }
  }

  lemma {:induction false} StagedRun(l: Life, run: seq<Action>)
    requires l.at.Staged? && Feasible(l, run) && Exec(l, run).at.Staged?
    ensures Exec(l, run) == l.(flushed := l.flushed || Flush in run, buffered := if Discard in run then [] else l.buffered)
    decreases |run|
  {
    if run != [] {
      if run[0].Flush? || run[0].Discard? {
        StagedRun(Step(l, run[0]), run[1..]);
      } else {
        NeverStagedAgain(Step(l, run[0]), run[1..]);
      }
    }
  }

  lemma {:induction false} NeverStagedAgain(l: Life, run: seq<Action>)
    requires !l.at.Staged? && Feasible(l, run)
    ensures !Exec(l, run).at.Staged?
    decreases |run|
  {
    if run != [] {
      NeverStagedAgain(Step(l, run[0]), run[1..]);
    }
  }

  /**
   The commit of a persistent message leaves its record, with the resolved time, in the cache; the storage has the same
   bytes if and only if no other producer of the session was closed meanwhile, and none committed first, or there was no
   delay, or the time is the old one.
   */
  lemma CommitPatchesBoth(kind: Byte, m: Content, delay: nat, run: seq<Action>, now: int)
    requires Fits(m) && m.persistent && -TWO63 <= now + delay < TWO63
    requires Feasible(Prepared(kind, m, Staged(delay)), run) && Enabled(Exec(Prepared(kind, m, Staged(delay)), run), Commit(now))
    ensures var l := Step(Exec(Prepared(kind, m, Staged(delay)), run), Commit(now));
      && l.content == (if delay == 0 then m else Retimed(m, now + delay)) && l.cached == Record(kind, l.content)
      && (l.buffered == l.cached <==> Discard !in run && (Flush !in run || delay == 0 || now + delay == m.headers.deliveryTime))
  {
    hide Feasible, Exec;
    StagedRun(Prepared(kind, m, Staged(delay)), run);
    PatchIsReencoding(kind, m, now + delay);
    PatchVisible(kind, m, now + delay);
  }

  // ---- What a restart gives back ----

  /** Replaying a record that the broker wrote for m caches the record of m with its delivery time bounded. */
  lemma ReplayedIsRecord(kind: Byte, m: Content, now: int)
    requires m.persistent
    ensures var t := if 0 <= m.headers.deliveryTime <= now + 315_360_000_000 then m.headers.deliveryTime else 0;
      && |Record(kind, m)| > 0
      && var l := Replayed(m.uuid, Record(kind, m), now);
      && l.cached == Record(kind, Retimed(m, t)) && l.kind == kind && l.content.headers.deliveryTime == t && l.at == Waiting
      && l.content.persistent && l.content.properties == [] && l.content.data == []
  {
    RawReadersAgreeOnEncodings(kind, m, now);
    PatchIsReencoding(kind, m, Plausible(m.headers.deliveryTime, now));
    hide Encode, Patched;
  }

  /** A message without properties and body takes over everything that a record says. */
  lemma RecordReceived(kind: Byte, m: Content, l: Life)
    requires Fits(m) && l.content.persistent && l.content.properties == [] && l.content.data == [] && l.cached == Record(kind, m)
    ensures Rehydrated(l) == Some(m)
  {
    Overwritten(m, l.content);
    assert Payload(Record(kind, m)) == Encode(m);
  }

  /** The delivery time after the clock readings of these clamps. */
  function ClampedBy(t: Int64, run: seq<Action>): Int64
    decreases |run|
  {
    if run == [] then t
    else if run[0].Clamp? && t > 0 && t - run[0].now > 315_360_000_000 then 0
    else ClampedBy(t, run[1..])
  }

  predicate OnlyClamps(run: seq<Action>) {
    forall k :: 0 <= k < |run| ==> run[k].Clamp?
  }

  lemma {:induction false} ClampsKeepRecord(l: Life, kind: Byte, m: Content, run: seq<Action>)
    requires OnlyClamps(run) && l.at.Waiting? && l.kind == kind && l.cached == Record(kind, m)
    requires l.content.headers.deliveryTime == m.headers.deliveryTime
    requires l.content.persistent && l.content.properties == [] && l.content.data == []
    ensures Feasible(l, run)
    ensures var e, t := Exec(l, run), ClampedBy(m.headers.deliveryTime, run);
      && e.at.Waiting? && e.cached == Record(kind, Retimed(m, t)) && e.content.headers.deliveryTime == t
      && e.content.persistent && e.content.properties == [] && e.content.data == []
    decreases |run|
  {
    hide Record;
    assert Retimed(m, m.headers.deliveryTime) == m;
    if run != [] {
      PatchIsReencoding(kind, m, 0);
      var t := m.headers.deliveryTime;
      if t > 0 && t - run[0].now > MAX_FUTURE_MS {
        ClampsKeepRecord(Step(l, run[0]), kind, Retimed(m, 0), run[1..]);
        ZeroStays(run[1..]);
      } else {
        ClampsKeepRecord(Step(l, run[0]), kind, m, run[1..]);
      }
    }
  }

  lemma {:induction false} ZeroStays(run: seq<Action>)
    ensures ClampedBy(0, run) == 0
    decreases |run|
  {
    if run != [] {
      ZeroStays(run[1..]);
    }
  }

  /** After a restart recv hands out the stored message, every field of it, the delivery time bounded as replay and clamps bound it. */
  lemma RestartRestores(kind: Byte, m: Content, now: int, run: seq<Action>)
    requires Fits(m) && m.persistent && OnlyClamps(run)
    ensures |Record(kind, m)| > 0
    ensures var t := if 0 <= m.headers.deliveryTime <= now + 315_360_000_000 then m.headers.deliveryTime else 0;
      var l := Replayed(m.uuid, Record(kind, m), now);
      && Feasible(l, run) && Enabled(Exec(l, run), Receive)
      && Step(Exec(l, run), Receive).content == m.(headers := m.headers.(deliveryTime := ClampedBy(t, run)))
  {
    hide Replayed, Record, Rehydrated, Step, Enabled, Feasible, Exec, OnlyClamps, ClampedBy;
    ReplayedIsRecord(kind, m, now);
    var t := Plausible(m.headers.deliveryTime, now);
    var l := Replayed(m.uuid, Record(kind, m), now);
    ClampsKeepRecord(l, kind, Retimed(m, t), run);
    var c := Retimed(Retimed(m, t), ClampedBy(t, run));
    RecordReceived(kind, c, Exec(l, run));
    ReceivedContent(Exec(l, run), c);
  }

  lemma ReceivedContent(l: Life, c: Content)
    requires l.at.Waiting? && Rehydrated(l) == Some(c)
    ensures Enabled(l, Receive) && Step(l, Receive).content == c
  {
    hide Rehydrated;
  }

  // ---- What the steps do to the fields ----

  /** Redelivery marks and counts, sets the time, and touches nothing else; a dead letter loses its time and gains properties. */
  lemma RedeliveryChanges(l: Life, dueAt: Int64, properties: Bytes)
    requires l.at.Received? && l.content.headers.deliveryCount + 1 < TWO31 && |properties| < TWO32
    ensures Enabled(l, Redeliver(dueAt)) && Enabled(l, DeadLetter(properties))
    ensures var m, h := l.content, l.content.headers;
      && Step(l, Redeliver(dueAt)).content
         == Content(m.number, m.uuid, m.persistent,
                    h.(redelivered := true, deliveryCount := h.deliveryCount + 1, deliveryTime := dueAt), m.properties, m.data)
      && Step(l, DeadLetter(properties)).content
         == Content(m.number, m.uuid, m.persistent, h.(deliveryTime := 0), properties, m.data)
  {
  }

  /** The clamp gives up a delivery time more than ten years ahead and keeps every other. */
  lemma ClampChanges(l: Life, now: int)
    requires l.at.Waiting?
    ensures var t, l' := l.content.headers.deliveryTime, Step(l, Clamp(now));
      && (t <= 0 || t <= now + 315_360_000_000 ==> l' == l)
      && (t > 0 && t > now + 315_360_000_000 ==> l'.content == l.content.(headers := l.content.headers.(deliveryTime := 0)))
  {
  }

  /** A message that is not persistent never has a record, neither in its cache nor in the buffer, and the broker never reads one for it. */
  lemma {:induction false} NoRecordUnlessPersistent(l: Life, run: seq<Action>)
    requires !l.content.persistent && l.cached == [] && l.buffered == [] && Feasible(l, run)
    ensures var e := Exec(l, run);
      && !e.content.persistent && e.cached == [] && e.buffered == [] && Rehydrated(e) == Some(e.content)
      && e.content.data == l.content.data && e.content.uuid == l.content.uuid
    decreases |run|
  {
    if run != [] {
      NoRecordNext(l, run[0]);
      hide Step, Enabled, Rehydrated;
      NoRecordUnlessPersistent(Step(l, run[0]), run[1..]);
    }
  }

  lemma NoRecordNext(l: Life, a: Action)
    requires !l.content.persistent && l.cached == [] && l.buffered == [] && Enabled(l, a)
    ensures var e := Step(l, a);
      !e.content.persistent && e.cached == [] && e.buffered == [] && e.content.data == l.content.data && e.content.uuid == l.content.uuid
  {
  }

  /** So it is when it is sent. */
  lemma PreparedRecord(kind: Byte, m: Content, at: Where)
    ensures var l := Prepared(kind, m, at);
      && l.content == m && l.at == at && !l.flushed
      && (!m.persistent ==> l.cached == [] && l.buffered == [])
      && (m.persistent ==> l.cached == Record(kind, m) && (at.Staged? ==> l.buffered == l.cached))
  {
  }

  // ---- The same steps on a message object ----

  ghost function LifeOf(m: MessageBytes.Message, buffered: Bytes, flushed: bool, at: Where, replayed: bool): Life
    reads m
  {
    Life(m.kind, m.Value(), m.cached, buffered, flushed, at, replayed)
  }

  /** The clamp in enqueueOrSchedule. */
  method ClampObject(m: MessageBytes.Message, now: int, ghost buffered: Bytes, ghost flushed: bool, ghost replayed: bool)
    modifies m
    ensures LifeOf(m, buffered, flushed, Waiting, replayed) == Step(old(LifeOf(m, buffered, flushed, Waiting, replayed)), Clamp(now))
  {
    var t := m.headers.deliveryTime;
    if t > 0 && t - now > MAX_FUTURE_MS {
      m.headers := m.headers.(deliveryTime := 0);
      m.PatchCache(0);
    }
  }

  /** A message that has nothing yet but the record of c. */
  ghost predicate Holds(m: MessageBytes.Message, c: Content)
    reads m
  {
    m.Value().persistent && m.Value().properties == [] && m.Value().data == [] && m.cached == Record(m.kind, c)
  }

  /** The rehydration in recv: a message that has only the record of c becomes c. */
  method ReceiveObject(m: MessageBytes.Message, ghost buffered: Bytes, ghost flushed: bool, ghost replayed: bool)
    requires Enabled(LifeOf(m, buffered, flushed, Waiting, replayed), Receive)
    modifies m
    ensures LifeOf(m, buffered, flushed, Received, replayed) == Step(old(LifeOf(m, buffered, flushed, Waiting, replayed)), Receive)
    ensures forall c: Content :: Fits(c) && old(Holds(m, c)) ==> m.Value() == c
  {
    ghost var l := LifeOf(m, buffered, flushed, Waiting, replayed);
    forall c: Content | Fits(c) && Holds(m, c) ensures Rehydrated(l) == Some(c) {
      RecordReceived(m.kind, c, l);
    }
    if m.persistent {
      if m.cached != [] {
        var legacy := m.FromBytes(if |m.cached| > 1 then m.cached[1..] else []);
        m.cached := [];
      }
    }
  }

  /** The header changes in redeliver and the refreshed cache. */
  method RedeliverObject(m: MessageBytes.Message, dueAt: Int64, ghost buffered: Bytes, ghost flushed: bool, ghost replayed: bool)
    requires m.headers.deliveryCount + 1 < TWO31
    modifies m
    ensures LifeOf(m, buffered, flushed, Waiting, false) == Step(old(LifeOf(m, buffered, flushed, Received, replayed)), Redeliver(dueAt))
  {
    m.headers := m.headers.(redelivered := true, deliveryCount := m.headers.deliveryCount + 1, deliveryTime := dueAt);
    m.RefreshCache();
  }
}
