/** All records of a store in one sequence: tom by tom in increasing order of id, each in file order. */
module StorageOrder {
  import opened Bytes
  import opened StorageLog
  import opened StorageIndex
  import Seqs

  datatype Slot = Slot(tom: nat, offset: nat, entry: Entry)

  /** The first n records of tom t. */
  function TomSlots(t: nat, log: seq<Entry>, n: nat): (r: seq<Slot>)
    requires n <= |log|
    ensures |r| == n
  {
    if n == 0 then [] else TomSlots(t, log, n - 1) + [Slot(t, Offset(log, n - 1), log[n - 1])]
  }

  lemma {:induction false} TomSlotAt(t: nat, log: seq<Entry>, n: nat, i: nat)
    requires i < n <= |log|
    ensures TomSlots(t, log, n)[i] == Slot(t, Offset(log, i), log[i])
  {
    if i < n - 1 {
      TomSlotAt(t, log, n - 1, i);
    }
  }

  /** The records of the toms with ids below n. */
  ghost function Slots(logs: Logs, n: nat): seq<Slot>
  {
    if n == 0 then []
    else Slots(logs, n - 1) + if n - 1 in logs then TomSlots(n - 1, logs[n - 1], |logs[n - 1]|) else []
  }

  ghost function Position(logs: Logs, t: nat, i: nat): nat
  {
    |Slots(logs, t)| + i
  }

  lemma {:induction false} SlotsPrefix(logs: Logs, m: nat, n: nat)
    requires m <= n
    ensures Slots(logs, m) <= Slots(logs, n)
  {
    if m < n {
      SlotsPrefix(logs, m, n - 1);
    }
  }

  /** Record i of tom t is at its position. */
  lemma SlotAt(logs: Logs, n: nat, t: nat, i: nat)
    requires t < n && At(logs, t, i)
    ensures Position(logs, t, i) < |Slots(logs, n)|
    ensures Slots(logs, n)[Position(logs, t, i)] == Slot(t, Offset(logs[t], i), logs[t][i])
  {
    SlotsPrefix(logs, t + 1, n);
    TomSlotAt(t, logs[t], |logs[t]|, i);
    assert Slots(logs, t + 1) == Slots(logs, t) + TomSlots(t, logs[t], |logs[t]|);
  }

  /** Every position belongs to a record. */
  lemma {:induction false} Locate(logs: Logs, n: nat, k: nat) returns (t: nat, i: nat)
    requires k < |Slots(logs, n)|
    ensures t < n && At(logs, t, i) && k == Position(logs, t, i)
    ensures Slots(logs, n)[k] == Slot(t, Offset(logs[t], i), logs[t][i])
  {
    if k < |Slots(logs, n - 1)| {
      t, i := Locate(logs, n - 1, k);
    } else {
      t, i := n - 1, k - |Slots(logs, n - 1)|;
      TomSlotAt(t, logs[t], |logs[t]|, i);
    }
  }

  lemma {:induction false} SlotsSame(logs: Logs, logs': Logs, n: nat)
    requires forall t :: t < n ==> (t in logs <==> t in logs') && (t in logs ==> logs'[t] == logs[t])
    ensures Slots(logs', n) == Slots(logs, n)
  {
    if n > 0 {
      SlotsSame(logs, logs', n - 1);
    }
  }

  // ---- Chunked scans ----

  datatype Cursor = Cursor(tom: nat, offset: nat)

  /** The cursor stands before the record at position p, or at the end of the tom that ends there. */
  ghost predicate CursorAt(logs: Logs, c: Cursor, p: nat) {
    || (c == Cursor(0, 0) && p == 0)
    || (exists i {:trigger CursorIn(logs, c, p, i)} :: CursorIn(logs, c, p, i))
  }

  ghost predicate CursorIn(logs: Logs, c: Cursor, p: nat, i: int) {
    c.tom in logs && 0 <= i <= |logs[c.tom]| && c.offset == Offset(logs[c.tom], i) && p == Position(logs, c.tom, i)
  }

  /** What a scan hands over of one record: its header and the first bytes of its data. */
  function Pick(s: Slot, len: nat): (Record, Bytes) {
    (Record(s.tom, s.offset, HeaderOf(s.entry)), if len < |s.entry.data| then s.entry.data[..len] else s.entry.data)
  }

  /** The live records at positions lo to hi. */
  function Picks(slots: seq<Slot>, lo: nat, hi: nat, len: nat): seq<(Record, Bytes)>
    requires hi <= |slots|
  {
    if hi <= lo then []
    else Picks(slots, lo, hi - 1, len) + PickIfLive(slots[hi - 1], len)
  }

  function PickIfLive(s: Slot, len: nat): seq<(Record, Bytes)> {
    if Live(s.entry) && Pick(s, len).1 != [] then [Pick(s, len)] else []
  }

  lemma {:induction false} PicksJoin(slots: seq<Slot>, lo: nat, mid: nat, hi: nat, len: nat)
    requires lo <= mid <= hi <= |slots|
    ensures Picks(slots, lo, hi, len) == Picks(slots, lo, mid, len) + Picks(slots, mid, hi, len)
  {
    if mid < hi {
      PicksJoin(slots, lo, mid, hi - 1, len);
      Seqs.Assoc(Picks(slots, lo, mid, len), Picks(slots, mid, hi - 1, len), PickIfLive(slots[hi - 1], len));
    }
  }

  /** Appending to the last tom appends to the sequence. */
  lemma AppendSlots(logs: Logs, t: nat, e: Entry)
    requires t in logs
    ensures Slots(Appended(logs, t, e), t + 1) == Slots(logs, t + 1) + [Slot(t, Offset(logs[t], |logs[t]|), e)]
  {
    var logs', log := Appended(logs, t, e), logs[t];
    SlotsSame(logs, logs', t);
    TomAppendAll(t, log, e);
    assert logs'[t] == log + [e];
    Seqs.Assoc(Slots(logs, t), TomSlots(t, log, |log|), [Slot(t, Offset(log, |log|), e)]);
  }

  lemma TomAppendAll(t: nat, log: seq<Entry>, e: Entry)
    ensures TomSlots(t, log + [e], |log + [e]|) == TomSlots(t, log, |log|) + [Slot(t, Offset(log, |log|), e)]
  {
    TomAppend(t, log, e, |log|);
  }

  lemma {:induction false} TomAppend(t: nat, log: seq<Entry>, e: Entry, n: nat)
    requires n <= |log|
    ensures Offset(log + [e], n) == Offset(log, n)
    ensures TomSlots(t, log + [e], n) == TomSlots(t, log, n)
  {
    if n > 0 {
      TomAppend(t, log, e, n - 1);
    }
  }

  function MarkedSlot(s: Slot): Slot {
    s.(entry := s.entry.(deleted := 1))
  }

  /** Deleting a record changes one element of the sequence. */
  lemma {:induction false} DeleteSlots(logs: Logs, n: nat, t: nat, i: nat)
    requires t < n && At(logs, t, i)
    ensures Position(logs, t, i) < |Slots(logs, n)|
    ensures var k := Position(logs, t, i);
      Slots(Deleted(logs, t, i), n) == Slots(logs, n)[k := MarkedSlot(Slots(logs, n)[k])]
  {
    var logs' := Deleted(logs, t, i);
    if t == n - 1 {
      SlotsSame(logs, logs', t);
      TomMark(t, logs[t], i, |logs[t]|);
      hide TomSlots;
      var tom := TomSlots(t, logs[t], |logs[t]|);
      UpdateBehind(Slots(logs, t), tom, i, MarkedSlot(tom[i]));
    } else {
      DeleteSlots(logs, n - 1, t, i);
      hide TomSlots;
      var k, s := Position(logs, t, i), Slots(logs, n - 1);
      UpdateBefore(s, if n - 1 in logs then TomSlots(n - 1, logs[n - 1], |logs[n - 1]|) else [], k, MarkedSlot(s[k]));
    }
  }

  lemma {:induction false} TomMark(t: nat, log: seq<Entry>, i: nat, n: nat)
    requires i < |log| && n <= |log|
    ensures var s := TomSlots(t, log, n);
      TomSlots(t, Marked(log, i), n) == if i < n then s[i := MarkedSlot(s[i])] else s
  {
    if n > 0 {
      TomMark(t, log, i, n - 1);
      MarkedOffset(log, i, n - 1);
    }
  }

  lemma UpdateBehind(a: seq<Slot>, b: seq<Slot>, i: nat, x: Slot)
    requires i < |b|
    ensures a + b[i := x] == (a + b)[|a| + i := x]
  {
  }

  lemma UpdateBefore(a: seq<Slot>, b: seq<Slot>, i: nat, x: Slot)
    requires i < |a|
    ensures a[i := x] + b == (a + b)[i := x] && (a + b)[i] == a[i]
  {
  }
}
