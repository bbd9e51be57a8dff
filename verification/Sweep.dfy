/**
 The expiry sweep: ConcurrentLinearStorage walks the store in chunks and removes what has expired,
 while appends and removals go on between the chunks.
 */
module Sweep {
  import opened Bytes
  import opened Options
  import opened Codec
  import opened StorageLog
  import opened StorageIndex
  import opened StorageOrder
  import S = Storage

  const PREFIX := 43
  const BUDGET := 4096

  // ---- What one call does ----

  function Min(a: nat, b: nat): nat {
    if a <= b then a else b
  }

  predicate Doomed(s: Slot, now: int) {
    Live(s.entry) && RawExpired(s.entry.data, now)
  }

  function SweptSlot(s: Slot, inspected: bool, now: int): Slot {
    if inspected && Doomed(s, now) then MarkedSlot(s) else s
  }

  /** The records after those at positions lo to hi have been inspected. */
  function Swept(slots: seq<Slot>, lo: nat, hi: nat, now: int): (r: seq<Slot>)
    ensures |r| == |slots|
  {
    seq(|slots|, k requires 0 <= k < |slots| => SweptSlot(slots[k], lo <= k < hi, now))
  }

  /** All records in order, and the position the sweep has reached. */
  datatype View = View(slots: seq<Slot>, pos: nat)

  function AfterSweep(v: View, now: int): View {
    View(Swept(v.slots, v.pos, v.pos + BUDGET, now),
         if v.pos + BUDGET <= |v.slots| then v.pos + BUDGET else 0)
  }

  /** The prefix that a scan reads is enough to decide. */
  lemma PrefixDecides(s: Slot, now: int)
    ensures RawExpired(Pick(s, PREFIX).1, now) <==> RawExpired(s.entry.data, now)
  {
    var data := s.entry.data;
    if |data| > PREFIX {
      assert data[..PREFIX][35..43] == data[35..43];
    }
  }

  /** The batch element j is the next live record from q on. */
  lemma {:induction false} NextPick(slots: seq<Slot>, lo: nat, q: nat, hi: nat, j: nat) returns (k: nat)
    requires lo <= q <= hi <= |slots| && |Picks(slots, lo, q, PREFIX)| == j < |Picks(slots, lo, hi, PREFIX)|
    requires Picks(slots, lo, q, PREFIX) <= Picks(slots, lo, hi, PREFIX)
    ensures q <= k < hi && Live(slots[k].entry) && Picks(slots, lo, hi, PREFIX)[j] == Pick(slots[k], PREFIX)
    ensures forall x :: q <= x < k ==> PickIfLive(slots[x], PREFIX) == []
    ensures |Picks(slots, lo, k + 1, PREFIX)| == j + 1 && Picks(slots, lo, k + 1, PREFIX) <= Picks(slots, lo, hi, PREFIX)
    decreases hi - q
  {
    hide PickIfLive, Pick;
    PicksJoin(slots, lo, q + 1, hi, PREFIX);
    if PickIfLive(slots[q], PREFIX) == [] {
      k := NextPick(slots, lo, q + 1, hi, j);
    } else {
      Picked(slots[q]);
      k := q;
    }
  }

  lemma Picked(s: Slot)
    requires PickIfLive(s, PREFIX) != []
    ensures Live(s.entry) && PickIfLive(s, PREFIX) == [Pick(s, PREFIX)]
  {
  }

  lemma {:induction false} NoPicksLeft(slots: seq<Slot>, lo: nat, q: nat, hi: nat)
    requires lo <= q <= hi <= |slots| && |Picks(slots, lo, q, PREFIX)| == |Picks(slots, lo, hi, PREFIX)|
    ensures forall x :: q <= x < hi ==> PickIfLive(slots[x], PREFIX) == []
    decreases hi
  {
    hide PickIfLive, Pick;
    if q < hi {
      PicksJoin(slots, lo, q, hi - 1, PREFIX);
      NoPicksLeft(slots, lo, q, hi - 1);
    }
  }

  /** A record that a scan passes over is not one to be removed. */
  lemma PassedOver(s: Slot, now: int)
    requires PickIfLive(s, PREFIX) == []
    ensures !Doomed(s, now)
  {
  }

  /** Going on from q to k + 1 when nothing between is picked. */
  lemma SweptFurther(slots: seq<Slot>, lo: nat, q: nat, hi: nat, now: int)
    requires lo <= q <= hi <= |slots| && forall x :: q <= x < hi ==> PickIfLive(slots[x], PREFIX) == []
    ensures Swept(slots, lo, hi, now) == Swept(slots, lo, q, now)
  {
    forall x | q <= x < hi
      ensures !Doomed(slots[x], now)
    {
      PassedOver(slots[x], now);
    }
  }

  lemma SweptNone(slots: seq<Slot>, lo: nat, hi: nat, now: int)
    requires hi == Min(lo + BUDGET, |slots|)
    ensures Swept(slots, lo, lo, now) == slots
    ensures Swept(slots, lo, hi, now) == Swept(slots, lo, lo + BUDGET, now)
  {
  }

  lemma SweptOne(slots: seq<Slot>, lo: nat, k: nat, now: int)
    requires lo <= k < |slots|
    ensures var s := Swept(slots, lo, k, now);
      Swept(slots, lo, k + 1, now) == if Doomed(slots[k], now) then s[k := MarkedSlot(slots[k])] else s
  {
  }

  // ---- Cursors survive appends and removals ----

  lemma CursorAfterDelete(logs: Logs, t: nat, i: nat, c: Cursor, p: nat)
    requires CursorAt(logs, c, p) && At(logs, t, i)
    ensures CursorAt(Deleted(logs, t, i), c, p)
  {
    if !(c == Cursor(0, 0) && p == 0) {
      var j :| CursorIn(logs, c, p, j);
      var logs' := Deleted(logs, t, i);
      if t < c.tom {
        DeleteSlots(logs, c.tom, t, i);
      } else {
        SlotsSame(logs, logs', c.tom);
      }
      if t == c.tom {
        MarkedOffset(logs[t], i, j);
      }
      assert CursorIn(logs', c, p, j);
    }
  }

  lemma CursorAfterAppend(logs: Logs, t: nat, e: Entry, c: Cursor, p: nat)
    requires CursorAt(logs, c, p) && t in logs && forall u :: u in logs ==> u <= t
    ensures CursorAt(Appended(logs, t, e), c, p)
  {
    if !(c == Cursor(0, 0) && p == 0) {
      var j :| CursorIn(logs, c, p, j);
      var logs' := Appended(logs, t, e);
      SlotsSame(logs, logs', c.tom);
      if t == c.tom {
        TomAppend(t, logs[t], e, j);
      }
      assert CursorIn(logs', c, p, j);
    }
  }

  class ConcurrentStorage {
    const storage: S.Storage
    var cursor: Cursor
    ghost var pos: nat

    ghost predicate Valid()
      reads this, storage, storage.index
    {
      storage.Valid() && CursorAt(storage.logs, cursor, pos)
    }

    ghost function Seen(): View
      reads this, storage
    {
      View(storage.AllSlots(), pos)
    }

    constructor (storage: S.Storage)
      requires storage.Valid()
      ensures Valid() && this.storage == storage && Seen() == View(storage.AllSlots(), 0)
    {
      this.storage := storage;
      cursor, pos := Cursor(0, 0), 0;
    }

    /** sweepExpired on a clock that shows now milliseconds. */
    method SweepExpired(now: int)
      requires Valid()
      modifies this, storage, storage.index
      ensures Valid() && old(pos) <= |old(storage.AllSlots())|
      ensures Seen() == AfterSweep(old(Seen()), now)
    {
      hide Picks, Swept, PickIfLive, Pick, S.Holds, Indexes;
      ghost var slots, lo := storage.AllSlots(), pos;
      var batch;
      batch, cursor, pos := storage.ScanPrefix(PREFIX, BUDGET, cursor, pos);
      ghost var hi := Min(lo + BUDGET, |slots|);
      ghost var q, reached := lo, pos;
      S.NoPicks(slots, lo, PREFIX);
      SweptNone(slots, lo, hi, now);
      for j := 0 to |batch|
        invariant storage.Valid() && CursorAt(storage.logs, cursor, pos) && pos == reached
        invariant lo <= q <= hi && |Picks(slots, lo, q, PREFIX)| == j
        invariant Picks(slots, lo, q, PREFIX) <= batch
        invariant storage.AllSlots() == Swept(slots, lo, q, now)
      {
        ghost var k := NextPick(slots, lo, q, hi, j);
        SweptFurther(slots, lo, q, k, now);
        Inspect(batch[j], now, slots, lo, k);
        q := k + 1;
      }
      NoPicksLeft(slots, lo, q, hi);
      SweptFurther(slots, lo, q, hi, now);
    }

    /** One element of the batch. */
    method Inspect(found: (Record, Bytes), now: int, ghost slots: seq<Slot>, ghost lo: nat, ghost k: nat)
      requires storage.Valid() && CursorAt(storage.logs, cursor, pos)
      requires lo <= k < |slots| && Live(slots[k].entry) && found == Pick(slots[k], PREFIX)
      requires storage.AllSlots() == Swept(slots, lo, k, now)
      modifies storage, storage.index
      ensures storage.Valid() && CursorAt(storage.logs, cursor, pos)
      ensures storage.AllSlots() == Swept(slots, lo, k + 1, now)
    {
      hide S.Holds, Indexes, Slots, CursorAt;
      var (record, prefix) := found;
      SweptOne(slots, lo, k, now);
      PrefixDecides(slots[k], now);
      assert storage.AllSlots()[k] == slots[k];
      hide Swept;
      if |prefix| < PREFIX {
        return;
      }
      if prefix[1] != 2 {
        return;
      }
      var expiration := GetI64(prefix[35..43]);
      if expiration != 0 && now >= expiration {
        ghost var t, i := Locate(storage.logs, storage.current + 1, k);
        CursorAfterDelete(storage.logs, t, i, cursor, pos);
        var _ := storage.Remove(record, i);
      }
    }

    /** An append between two sweeps. */
    method Append(uuid: Uuid, data: Bytes, padding: nat) returns (r: Option<Record>)
      requires Valid() && |data| < TWO64 && uuid != 0 && Unused(storage.logs, uuid)
      modifies storage, storage.index
      ensures Valid() && (r.None? <==> data == [])
      ensures data == [] ==> Seen() == old(Seen())
      ensures data != [] ==>
        Seen() == AfterAppend(old(Seen()), Slot(storage.current, r.value.offset, Entry(uuid, 0, padding, data)))
    {
      hide S.Holds, Indexes, Slots, Unused;
      ghost var logs := storage.logs;
      r := storage.Append(uuid, data, padding);
      if data != [] {
        ghost var e := Entry(uuid, 0, padding, data);
        S.TomsUpTo(storage.files, storage.logs, storage.current);
        CursorAfterNewTom(logs, storage.current, cursor, pos);
        assert forall u :: u in S.WithTom(logs, storage.current) ==> u in storage.logs;
        CursorAfterAppend(S.WithTom(logs, storage.current), storage.current, e, cursor, pos);
      }
    }

    /** A removal between two sweeps, of record i of its tom. */
    method Remove(rec: Record, ghost i: nat)
      requires Valid() && S.RefersTo(rec, storage.logs, rec.tomId, i)
      modifies storage, storage.index
      ensures Valid() && old(Position(storage.logs, rec.tomId, i)) < |old(Seen()).slots|
      ensures Seen() == AfterRemove(old(Seen()), old(Position(storage.logs, rec.tomId, i)))
    {
      hide S.Holds, Indexes, Slots;
      CursorAfterDelete(storage.logs, rec.tomId, i, cursor, pos);
      var _ := storage.Remove(rec, i);
    }
  }

  lemma CursorAfterNewTom(logs: Logs, t: nat, c: Cursor, p: nat)
    requires CursorAt(logs, c, p) && (t in logs || logs == map[])
    ensures CursorAt(S.WithTom(logs, t), c, p)
  {
  }

  // ---- Whole runs ----

  function AfterAppend(v: View, s: Slot): View {
    v.(slots := v.slots + [s])
  }

  function AfterRemove(v: View, k: nat): View
    requires k < |v.slots|
  {
    v.(slots := v.slots[k := MarkedSlot(v.slots[k])])
  }

  datatype Event = Append(slot: Slot) | Remove(k: nat) | Tick(now: int)

  /** The view, the positions inspected in the current pass, its size at the start, and the finished passes. */
  datatype Run = Run(v: View, pass: seq<nat>, atStart: nat, finished: seq<Pass>)

  datatype Pass = Pass(inspected: seq<nat>, atStart: nat, atEnd: nat)

  function Range(lo: nat, hi: nat): seq<nat>
  {
    if hi <= lo then [] else Range(lo, hi - 1) + [hi - 1]
  }

  predicate Enabled(r: Run, e: Event) {
    e.Remove? ==> e.k < |r.v.slots|
  }

  /** One event; a sweep that reaches the end finishes the pass and starts the next one. */
  function Step(r: Run, e: Event): Run
    requires Enabled(r, e)
  {
    match e
    case Append(s) => r.(v := AfterAppend(r.v, s))
    case Remove(k) => r.(v := AfterRemove(r.v, k))
    case Tick(now) =>
      var n := |r.v.slots|;
      var v' := AfterSweep(r.v, now);
      var pass' := r.pass + Range(r.v.pos, Min(r.v.pos + BUDGET, n));
      if r.v.pos + BUDGET <= n then r.(v := v', pass := pass')
      else Run(v', [], n, r.finished + [Pass(pass', r.atStart, n)])
  }

  predicate Feasible(r: Run, events: seq<Event>)
    decreases |events|
  {
    events == [] || (Enabled(r, events[0]) && Feasible(Step(r, events[0]), events[1..]))
  }

  function Exec(r: Run, events: seq<Event>): Run
    requires Feasible(r, events)
    decreases |events|
  {
    if events == [] then r else Exec(Step(r, events[0]), events[1..])
  }

  /** A finished pass inspected each of its records once, in order, and missed none that was there at its start. */
  predicate Complete(p: Pass) {
    p.inspected == Range(0, p.atEnd) && p.atStart <= p.atEnd
  }

  ghost predicate Inv(r: Run) {
    && r.pass == Range(0, r.v.pos) && r.v.pos <= |r.v.slots| && r.atStart <= |r.v.slots|
    && forall k :: 0 <= k < |r.finished| ==> Complete(r.finished[k])
  }

  lemma {:induction false} RangeJoin(lo: nat, mid: nat, hi: nat)
    requires lo <= mid <= hi
    ensures Range(lo, hi) == Range(lo, mid) + Range(mid, hi)
  {
    if mid < hi {
      RangeJoin(lo, mid, hi - 1);
    }
  }

  lemma StepKeeps(r: Run, e: Event)
    requires Inv(r) && Enabled(r, e)
    ensures Inv(Step(r, e))
  {
    if e.Tick? {
      RangeJoin(0, r.v.pos, Min(r.v.pos + BUDGET, |r.v.slots|));
    }
  }

  lemma {:induction false} RunKeeps(r: Run, events: seq<Event>)
    requires Inv(r) && Feasible(r, events)
    ensures Inv(Exec(r, events))
    decreases |events|
  {
    if events != [] {
      StepKeeps(r, events[0]);
      RunKeeps(Step(r, events[0]), events[1..]);
    }
  }

  /** Under any interleaving of appends, removals and sweeps every finished pass is complete. */
  lemma PassesAreComplete(slots: seq<Slot>, events: seq<Event>)
    requires Feasible(Run(View(slots, 0), [], |slots|, []), events)
    ensures var r := Exec(Run(View(slots, 0), [], |slots|, []), events);
      && (forall k :: 0 <= k < |r.finished| ==> Complete(r.finished[k]))
      && r.pass == Range(0, r.v.pos)
  {
    RunKeeps(Run(View(slots, 0), [], |slots|, []), events);
  }

  /** The positions of a range, each once. */
  lemma {:induction false} RangeAt(lo: nat, hi: nat)
    requires lo <= hi
    ensures |Range(lo, hi)| == hi - lo
    ensures forall k :: 0 <= k < hi - lo ==> Range(lo, hi)[k] == lo + k
  {
    if lo < hi {
      RangeAt(lo, hi - 1);
    }
  }

  /** What one event does to a record: only the right events delete it, nothing brings it back. */
  lemma DeletedWhy(r: Run, e: Event, k: nat)
    requires Enabled(r, e) && k < |r.v.slots|
    ensures k < |Step(r, e).v.slots|
    ensures var s, s' := r.v.slots[k], Step(r, e).v.slots[k];
      && s' == (if s == s' then s else MarkedSlot(s))
      && (Live(s.entry) && !Live(s'.entry) <==>
          Live(s.entry) && (e == Remove(k)
            || (e.Tick? && r.v.pos <= k < r.v.pos + 4096 && RawExpired(s.entry.data, e.now))))
  {
  }

  /**
   For a record that decodes without the JSON path, the sweep and isExpired agree at all times exactly
   unless the record is cut off inside its numeric headers behind a non-zero expiration.
   */
  lemma SweepAgreesWithIsExpired(data: Bytes, shell: Content)
    requires Fresh(shell) && Decode(shell, Payload(data)).Decoded?
    ensures (forall now: int :: RawExpired(data, now) <==> IsExpired(Decode(shell, Payload(data)).m.headers, now))
       <==> !(CutAfter(data, 43) && GetI64(data[35..43]) != 0)
  {
    RawReadersAgree(data, shell, 0);
    DecodedNumbers(data, shell);
    var h := Decode(shell, Payload(data)).m.headers;
    if CutAfter(data, 43) && GetI64(data[35..43]) != 0 {
      var now := GetI64(data[35..43]);
      assert RawExpired(data, now) && !IsExpired(h, now);
    }
  }

  /** Such a record: the sweep removes what decodes as a message that never expires. */
  lemma CutRecordIsSwept() returns (data: Bytes, shell: Content)
    ensures |data| == 43 && Fresh(shell) && Decode(shell, Payload(data)).Decoded?
    ensures RawExpired(data, 1) && !IsExpired(Decode(shell, Payload(data)).m.headers, 1)
  {
    shell := Content(0, 0, false, NO_HEADERS, [], []);
    data := [1, 2] + Little(0, 33) + PutI64(1);
    I64RoundTrip(1);
    assert data[35..43] == PutI64(1);
    DecodedNumbers(data, shell);
  }
}
