/** linear_storage::Storage: tom files, the index over them, opening, appending, removing and scanning. */
module Storage {
  import opened Bytes
  import opened Options
  import opened StorageLog
  import opened StorageIndex
  import opened StorageOrder
  import Tree = BTreeIndex

  /** The fanout of the index. */
  const FANOUT := 64

  /** Each file is the image of its tom's records. */
  ghost predicate Stores(files: map<nat, Bytes>, logs: Logs) {
    files.Keys == logs.Keys && forall t :: t in logs ==> files[t] == Image(logs[t])
  }

  /** The files hold the records of logs and nothing else. */
  ghost predicate Holds(files: map<nat, Bytes>, logs: Logs) {
    Formed(logs) && Unique(logs) && Stores(files, logs)
  }

  /** The tom that is appended to: the one with the highest id, 0 if there is none. */
  ghost predicate IsCurrent(current: nat, toms: set<nat>) {
    (current in toms || (toms == {} && current == 0)) && forall t :: t in toms ==> t <= current
  }

  /** order runs through every tom once; an unordered map promises no more. */
  ghost predicate Visits(order: seq<nat>, toms: set<nat>) {
    && (forall k :: 0 <= k < |order| ==> order[k] in toms)
    && (forall t :: t in toms ==> t in order)
    && (forall j, k :: 0 <= j < k < |order| ==> order[j] != order[k])
  }

  /** The live ones of the first n records of a tom and their data, in file order. */
  ghost function LivePairs(t: nat, log: seq<Entry>, n: nat): seq<(Record, Bytes)>
    requires n <= |log|
  {
    if n == 0 then []
    else LivePairs(t, log, n - 1) + if Live(log[n - 1]) then [(RecordOf(t, log, n - 1), log[n - 1].data)] else []
  }

  ghost function LiveInOrder(logs: Logs, order: seq<nat>, n: nat): seq<(Record, Bytes)>
    requires n <= |order| && forall k :: 0 <= k < n ==> order[k] in logs
  {
    if n == 0 then []
    else LiveInOrder(logs, order, n - 1) + LivePairs(order[n - 1], logs[order[n - 1]], |logs[order[n - 1]]|)
  }

  /** The toms, with t made if it is missing. */
  function WithTom(logs: Logs, t: nat): Logs {
    if t in logs then logs else logs[t := []]
  }

  /** A record handed out for record i of tom t; the quick acknowledge path leaves the header empty. */
  ghost predicate RefersTo(rec: Record, logs: Logs, t: nat, i: nat) {
    && At(logs, t, i) && rec.tomId == t && rec.offset == Offset(logs[t], i)
    && (rec.header.uuid == 0 || rec.header.uuid == logs[t][i].uuid)
    && (rec.header.deleted != 0 ==> logs[t][i].deleted != 0)
  }

  /** The tree is a valid B-tree and maps exactly the undeleted records. */
  ghost predicate TreeIndexes(tree: Tree.Index<Record>, logs: Logs)
    reads tree
  {
    tree.Valid() && Indexes(tree.Contents(), logs)
  }

  class Storage {
    var files: map<nat, Bytes>
    const index: Tree.Index<Record>
    var current: nat
    ghost var logs: Logs

    ghost predicate Valid()
      reads this, index
    {
      Holds(files, logs) && IsCurrent(current, files.Keys) && TreeIndexes(index, logs)
    }

    /** Opening the files that an earlier run left behind. */
    constructor (files: map<nat, Bytes>, order: seq<nat>, ghost logs: Logs)
      requires Holds(files, logs) && Visits(order, files.Keys)
      ensures Valid() && this.files == files && this.logs == logs && fresh(index)
    {
      this.files, this.logs := files, logs;
      this.index := new Tree.Index(FANOUT);
      var c := 0;
      for k := 0 to |order|
        invariant forall j :: 0 <= j < k ==> order[j] <= c
        invariant c == 0 || c in files
      {
        if order[k] > c {
          c := order[k];
        }
      }
      this.current := c;
      new;
      assert IsCurrent(c, files.Keys) by {
        assert forall t :: t in files ==> t <= c;
        assert c !in files ==> forall t :: t in files.Keys ==> t == 0;
      }
      RebuildIndex(order);
    }

    /** The header at an offset of a tom. */
    function HeaderAt(t: nat, offset: nat): Read
      reads this
      requires t in files
    {
      ReadHeader(files[t], offset)
    }

    /** The walk over all files that fills an empty index. */
    method RebuildIndex(order: seq<nat>)
      requires Holds(files, logs) && IsCurrent(current, files.Keys) && index.Valid() && index.Contents() == map[] && Visits(order, files.Keys)
      modifies this, index
      ensures Valid() && files == old(files) && logs == old(logs) && current == old(current)
    {
      ghost var done: Logs := map[];
      assert Indexes(index.Contents(), done) && Done(done, logs, order, 0);
      hide Indexes, Unique, Done;
      for k := 0 to |order|
        invariant files == old(files) && logs == old(logs) && current == old(current)
        invariant Done(done, logs, order, k) && Sub(done, logs) && index.Valid() && Indexes(index.Contents(), done)
      {
        DoneNext(done, logs, order, k);
        RebuildTom(order[k], done);
        done := done[order[k] := logs[order[k]]];
      }
      DoneAll(done, logs, order);
    }

    method RebuildTom(t: nat, ghost done: Logs)
      requires Holds(files, logs) && t in logs && t !in done && Sub(done, logs)
      requires index.Valid() && Indexes(index.Contents(), done)
      modifies index
      ensures index.Valid() && Sub(done[t := logs[t]], logs) && Indexes(index.Contents(), done[t := logs[t]])
    {
      var offset := 0;
      hide Indexes, Unique;
      ghost var i, log := 0, logs[t];
      StartTom(index.Contents(), logs, done, t);
      while true
        invariant 0 <= i <= |log| && offset == Offset(log, i)
        invariant index.Valid() && IndexedTo(index.Contents(), logs, done, t, i)
        decreases |log| - i
      {
        ReadAt(log, i);
        var rec := HeaderAt(t, offset);
        if rec.PastEnd? {
          break;
        }
        if rec.header.dataSize == 0 {
          break;
        }
        IndexNext(index.Contents(), logs, done, t, i);
        if rec.header.deleted == 0 {
          index.Set(rec.header.uuid, Record(t, offset, rec.header));
        }
        offset := offset + HEADER + rec.header.dataSize;
        i := i + 1;
      }
      EndTom(index.Contents(), logs, done, t);
    }

    /** The tom to append to, made if there is none yet. */
    method CurrentTom(ghost uuid: Uuid) returns (t: nat)
      requires Valid()
      modifies this
      ensures Valid() && t == current && t in logs && t in files && index.Contents() == old(index.Contents())
      ensures logs == WithTom(old(logs), current) && (current in old(logs) || old(logs) == map[])
      ensures AllSlots() == old(AllSlots())
      ensures old(Unused(logs, uuid)) ==> Unused(logs, uuid)
    {
      hide Holds, Indexes, Slots, Unused, IsCurrent;
      SameToms(files, logs, current);
      if current !in files {
        FirstTom(files, logs, index.Contents(), current);
        current := current + 1;
        files, logs := files[current := []], logs[current := []];
      }
      t := current;
    }

    /** append: empty data is refused; otherwise the record is the last of the current tom, and indexed. */
    method Append(uuid: Uuid, data: Bytes, padding: nat) returns (r: Option<Record>)
      requires Valid() && |data| < TWO64 && uuid != 0 && Unused(logs, uuid)
      modifies this, index
      ensures Valid()
      ensures data == [] ==> r == None && files == old(files) && index.Contents() == old(index.Contents()) && logs == old(logs) && current == old(current)
      ensures data != [] ==>
        && r.Some? && r.value == Record(current, r.value.offset, Header(uuid, |data|, 0))
        && index.Contents() == old(index.Contents())[uuid := r.value] && (current in old(logs) || old(logs) == map[])
        && logs == Appended(WithTom(old(logs), current), current, Entry(uuid, 0, padding, data))
        && AllSlots() == old(AllSlots()) + [Slot(current, r.value.offset, Entry(uuid, 0, padding, data))]
    {
      if data == [] {
        return None;
      }
      hide Holds, IsCurrent, Indexes, Unused, Slots;
      var t := CurrentTom(uuid);
      var rec := Write(t, Entry(uuid, 0, padding, data));
      r := Some(rec);
    }

    /** Tom::append and the index entry for the new record. */
    method Write(t: nat, e: Entry) returns (rec: Record)
      requires Valid() && t == current && t in logs && t in files && WellFormed(e) && Live(e) && Unused(logs, e.uuid)
      modifies this, index
      ensures Valid() && current == old(current) && logs == Appended(old(logs), t, e)
      ensures rec == Record(t, rec.offset, HeaderOf(e)) && index.Contents() == old(index.Contents())[e.uuid := rec]
      ensures AllSlots() == old(AllSlots()) + [Slot(t, rec.offset, e)]
    {
      hide Holds, Indexes, Unused, Slots, EntryBytes, WellFormed;
      AppendKeeps(files, logs, index.Contents(), t, e);
      rec := Record(t, |files[t]|, HeaderOf(e));
      files := files[t := files[t] + EntryBytes(e)];
      logs := Appended(logs, t, e);
      index.Set(e.uuid, rec);
    }

    /** record(uuid): the undeleted record with that uuid, or the default record. */
    method RecordFor(uuid: Uuid) returns (rec: Record)
      requires Valid()
      ensures forall t, i :: LiveAt(logs, t, i, uuid) ==> rec == RecordOf(t, logs[t], i)
      ensures (forall t, i :: !LiveAt(logs, t, i, uuid)) ==> rec == NO_RECORD
    {
      assert forall t, i :: LiveAt(logs, t, i, uuid) ==> At(logs, t, i);
      var found := index.Find(uuid);
      match found
      case Some(r) => rec := r;
      case None => rec := NO_RECORD;
    }

    /** remove: sets the flag of the record in its file and drops its index entry. */
    method Remove(rec: Record, ghost i: nat) returns (ok: bool)
      requires Valid() && RefersTo(rec, logs, rec.tomId, i)
      modifies this, index
      ensures Valid() && ok && current == old(current)
      ensures logs == Deleted(old(logs), rec.tomId, i)
      ensures var k := Position(old(logs), rec.tomId, i);
        k < |old(AllSlots())| && AllSlots() == old(AllSlots())[k := MarkedSlot(old(AllSlots())[k])]
    {
      hide Holds, Indexes, Slots, FlagSet, Position, IsCurrent;
      var uuid := UuidOf(rec, i);
      RemoveKeeps(files, logs, index.Contents(), current, rec, i);
      ok := true;
      files := FlagSet(files, rec);
      logs := Deleted(logs, rec.tomId, i);
      if uuid != 0 {
        var _ := index.Erase(uuid);
      }
    }

    /** The uuid to drop from the index, read from the file where the record does not carry it. */
    method UuidOf(rec: Record, ghost i: nat) returns (uuid: Uuid)
      requires Valid() && RefersTo(rec, logs, rec.tomId, i)
      ensures uuid == logs[rec.tomId][i].uuid != 0
    {
      uuid := rec.header.uuid;
      RemoveReads(files, logs, rec, i);
      if uuid == 0 {
        var h := HeaderAt(rec.tomId, rec.offset);
        if h.Found? {
          uuid := h.header.uuid;
        }
      }
    }

    /** scan: every undeleted record with its data, tom by tom. */
    method Scan(order: seq<nat>) returns (result: seq<(Record, Bytes)>)
      requires Valid() && Visits(order, files.Keys)
      ensures result == LiveInOrder(logs, order, |order|)
    {
      hide TreeIndexes, IsCurrent, LivePairs;
      result := [];
      for k := 0 to |order|
        invariant result == LiveInOrder(logs, order, k)
      {
        var more := ScanTom(order[k]);
        result := result + more;
      }
    }

    method ScanTom(t: nat) returns (result: seq<(Record, Bytes)>)
      requires Valid() && t in logs
      ensures result == LivePairs(t, logs[t], |logs[t]|)
    {
      hide TreeIndexes, IsCurrent, Unique;
      var offset := 0;
      ghost var i, log := 0, logs[t];
      result := [];
      while true
        invariant 0 <= i <= |log| && offset == Offset(log, i)
        invariant result == LivePairs(t, log, i)
        decreases |log| - i
      {
        ReadAt(log, i);
        var rec := HeaderAt(t, offset);
        if rec.PastEnd? {
          break;
        }
        if rec.header.dataSize == 0 {
          break;
        }
        var next := offset + HEADER + rec.header.dataSize;
        if rec.header.deleted == 0 {
          result := result + [(Record(t, offset, rec.header), files[t][offset + HEADER..next])];
        }
        offset := next;
        i := i + 1;
      }
    }

    /** scanPrefix: up to maxRecords records from the cursor on; behind the last one the cursor starts over. */
    method ScanPrefix(len: nat, maxRecords: nat, cursor: Cursor, ghost p: nat)
      returns (result: seq<(Record, Bytes)>, cursor': Cursor, ghost p': nat)
      requires Valid() && CursorAt(logs, cursor, p)
      ensures p <= |AllSlots()|
      ensures p' == if p + maxRecords <= |AllSlots()| then p + maxRecords else 0
      ensures CursorAt(logs, cursor', p')
      ensures result == Picks(AllSlots(), p, if p + maxRecords <= |AllSlots()| then p + maxRecords else |AllSlots()|, len)
    {
      hide Holds, TreeIndexes, Slots, Picks;
      ghost var inTom, i0 := CursorStart(files, logs, current, cursor, p);
      var scanned: nat, resuming := 0, true;
      result := [];
      NoPicks(AllSlots(), p, len);
      for t := 0 to current + 1
        invariant resuming ==> scanned == 0 && result == []
        invariant resuming ==> if inTom then t <= cursor.tom else |Slots(logs, t)| == 0
        invariant !resuming ==> scanned < maxRecords && |Slots(logs, t)| == p + scanned <= |AllSlots()|
        invariant result == Picks(AllSlots(), p, p + scanned, len)
      {
        TomIncluded(files, logs, current, t);
        if t in files && !(resuming && t < cursor.tom) {
          var offset := if resuming && t == cursor.tom then cursor.offset else 0;
          resuming := false;
          var more, full, count;
          ghost var first := p + scanned - |Slots(logs, t)|;
          more, offset, full, count := ScanTomPrefix(t, offset, len, maxRecords - scanned, first);
          PicksJoin(AllSlots(), p, p + scanned, p + scanned + count, len);
          result := result + more;
          scanned := scanned + count;
          if full {
            assert CursorIn(logs, Cursor(t, offset), p + scanned, first + count);
            return result, Cursor(t, offset), p + scanned;
          }
        }
      }
      return result, Cursor(0, 0), 0;
    }

    /** The walk through one tom: as many records as the budget allows, full if it was used up. */
    method ScanTomPrefix(t: nat, start: nat, len: nat, budget: nat, ghost first: nat)
      returns (result: seq<(Record, Bytes)>, offset: nat, full: bool, count: nat)
      requires Valid() && t in logs && t <= current && first <= |logs[t]| && start == Offset(logs[t], first)
      ensures first + count <= |logs[t]| && offset == Offset(logs[t], first + count)
      ensures full <==> first + budget <= |logs[t]|
      ensures count == if full then budget else |logs[t]| - first
      ensures Position(logs, t, first + count) <= |AllSlots()|
      ensures result == Picks(AllSlots(), Position(logs, t, first), Position(logs, t, first + count), len)
    {
      hide Holds, TreeIndexes, Slots, ReadHeader;
      ghost var i, log := first, logs[t];
      offset, count, result := start, 0, [];
      TomIncluded(files, logs, current, t);
      while true
        invariant first <= i <= |log| && offset == Offset(log, i) && count == i - first <= budget
        invariant result == Picks(AllSlots(), Position(logs, t, first), Position(logs, t, i), len)
        decreases |log| - i
      {
        if count >= budget {
          return result, offset, true, count;
        }
        ReadTom(files, logs, t, i);
        var rec := HeaderAt(t, offset);
        if rec.PastEnd? {
          break;
        }
        if rec.header.dataSize == 0 {
          break;
        }
        SlotAt(logs, current + 1, t, i);
        var next := offset + HEADER + rec.header.dataSize;
        if rec.header.deleted == 0 {
          var prefix := DataPrefix(t, offset, rec.header, len, i);
          if prefix != [] {
            result := result + [(Record(t, offset, rec.header), prefix)];
          }
        }
        count := count + 1;
        offset := next;
        i := i + 1;
      }
      full := false;
    }

    /** dataPrefix of an existing record. */
    method DataPrefix(t: nat, offset: nat, header: Header, len: nat, ghost i: nat) returns (prefix: Bytes)
      requires Valid() && At(logs, t, i) && offset == Offset(logs[t], i) && header == HeaderOf(logs[t][i])
      ensures prefix == Pick(Slot(t, offset, logs[t][i]), len).1
    {
      hide TreeIndexes, Unique, Image, EntryBytes, Offset, ReadHeader, WellFormed;
      ReadAt(logs[t], i);
      var n := if len < header.dataSize then len else header.dataSize;
      prefix := files[t][offset + HEADER..offset + HEADER + n];
      SliceOfSlice(files[t], offset + HEADER, n, header.dataSize);
    }

    ghost function AllSlots(): seq<Slot>
      reads this
    {
      Slots(logs, current + 1)
    }
  }

  /** Closing and opening again: the rebuilt index is the index that was lost. */
  method Reopen(s: Storage, order: seq<nat>) returns (r: Storage)
    requires s.Valid() && Visits(order, s.files.Keys)
    ensures fresh(r) && fresh(r.index) && r.Valid() && r.files == s.files && r.logs == s.logs
    ensures r.index.Contents() == s.index.Contents() && r.current == s.current
  {
    r := new Storage(s.files, order, s.logs);
    IndexUnique(r.index.Contents(), s.index.Contents(), s.logs);
  }

  lemma SameToms(files: map<nat, Bytes>, logs: Logs, t: nat)
    requires Holds(files, logs)
    ensures t in files <==> t in logs
  {
  }

  lemma SliceOfSlice(s: Bytes, a: nat, n: nat, m: nat)
    requires n <= m && a + m <= |s|
    ensures s[a..a + n] == s[a..a + m][..n] && s[a..a + m][..m] == s[a..a + m]
  {
  }

  /** The first tom of an empty store. */
  lemma FirstTom(files: map<nat, Bytes>, logs: Logs, index: map<Uuid, Record>, current: nat)
    requires Holds(files, logs) && IsCurrent(current, files.Keys) && Indexes(index, logs) && current !in files
    ensures files == map[] && logs == map[] && current == 0
    ensures var files', logs' := files[1 := []], logs[1 := []];
      && Holds(files', logs') && IsCurrent(1, files'.Keys) && Indexes(index, logs')
      && Slots(logs', 2) == Slots(logs, 1) && forall uuid :: Unused(logs', uuid)
  {
    assert files.Keys == {};
    var logs' := logs[1 := []];
    assert Slots(logs, 0) == [] == Slots(logs', 0);
    assert Slots(logs, 1) == [] == Slots(logs', 1);
    NoEntries(index, logs, 1);
  }

  /** The records of a tom are part of the sequence. */
  lemma TomIncluded(files: map<nat, Bytes>, logs: Logs, current: nat, t: nat)
    requires Holds(files, logs) && IsCurrent(current, files.Keys) && t <= current
    ensures t in files <==> t in logs
    ensures |Slots(logs, t + 1)| == |Slots(logs, t)| + (if t in logs then |logs[t]| else 0) <= |Slots(logs, current + 1)|
  {
    SlotsPrefix(logs, t + 1, current + 1);
  }

  lemma TomsUpTo(files: map<nat, Bytes>, logs: Logs, current: nat)
    requires Holds(files, logs) && IsCurrent(current, files.Keys)
    ensures forall t :: t in logs ==> t <= current
  {
  }

  lemma ReadTom(files: map<nat, Bytes>, logs: Logs, t: nat, i: nat)
    requires Holds(files, logs) && t in logs && i <= |logs[t]|
    ensures t in files
    ensures ReadHeader(files[t], Offset(logs[t], i)) == if i < |logs[t]| then Found(HeaderOf(logs[t][i])) else PastEnd
    ensures i < |logs[t]| ==> |logs[t][i].data| > 0
  {
    ReadAt(logs[t], i);
    assert i < |logs[t]| ==> WellFormed(logs[t][i]);
  }

  /** Where a scan from the cursor starts: in its tom, or at the first tom if it was reset and there is no tom 0. */
  lemma CursorStart(files: map<nat, Bytes>, logs: Logs, current: nat, cursor: Cursor, p: nat) returns (inTom: bool, i0: int)
    requires Holds(files, logs) && IsCurrent(current, files.Keys) && CursorAt(logs, cursor, p)
    ensures if inTom then CursorIn(logs, cursor, p, i0) && cursor.tom <= current && cursor.tom in files
            else cursor == Cursor(0, 0) && p == 0 && 0 !in files
    ensures p <= |Slots(logs, current + 1)| && Slots(logs, 0) == []
  {
    if cursor == Cursor(0, 0) && p == 0 {
      inTom, i0 := 0 in logs, 0;
    } else {
      inTom := true;
      i0 :| CursorIn(logs, cursor, p, i0);
    }
    if inTom {
      TomIncluded(files, logs, current, cursor.tom);
    }
  }

  lemma NoPicks(slots: seq<Slot>, p: nat, len: nat)
    requires p <= |slots|
    ensures Picks(slots, p, p, len) == []
  {
  }

  lemma AppendKeeps(files: map<nat, Bytes>, logs: Logs, index: map<Uuid, Record>, t: nat, e: Entry)
    requires Holds(files, logs) && Indexes(index, logs)
    requires t in logs && WellFormed(e) && Live(e) && Unused(logs, e.uuid)
    ensures var files', logs', rec := files[t := files[t] + EntryBytes(e)], Appended(logs, t, e), Record(t, |files[t]|, HeaderOf(e));
      && Holds(files', logs') && Indexes(index[e.uuid := rec], logs')
      && Slots(logs', t + 1) == Slots(logs, t + 1) + [Slot(t, rec.offset, e)]
  {
    AppendFormed(logs, t, e);
    AppendUnique(logs, t, e);
    AppendIndexes(index, logs, t, e);
    AppendStores(files, logs, t, e);
    AppendSlots(logs, t, e);
    ImageSize(logs[t]);
    TomAppend(t, logs[t], e, |logs[t]|);
    assert files[t] == Image(logs[t]);
    hide Formed, Unique, Indexes, Slots, Unused, Offset, Image, EntryBytes, WellFormed, Stores;
  }

  /** What a record handed out for a removal says about its file. */
  lemma RemoveReads(files: map<nat, Bytes>, logs: Logs, rec: Record, i: nat)
    requires Holds(files, logs) && RefersTo(rec, logs, rec.tomId, i)
    ensures rec.tomId in files && AllWellFormed(logs[rec.tomId]) && logs[rec.tomId][i].uuid != 0
    ensures ReadHeader(files[rec.tomId], rec.offset) == Found(HeaderOf(logs[rec.tomId][i]))
  {
    ReadAt(logs[rec.tomId], i);
    assert WellFormed(logs[rec.tomId][i]);
  }

  lemma RemoveKeeps(files: map<nat, Bytes>, logs: Logs, index: map<Uuid, Record>, current: nat, rec: Record, i: nat)
    requires Holds(files, logs) && IsCurrent(current, files.Keys) && Indexes(index, logs) && RefersTo(rec, logs, rec.tomId, i)
    ensures rec.tomId in files && rec.offset + 24 < |files[rec.tomId]|
    ensures var t, logs' := rec.tomId, Deleted(logs, rec.tomId, i);
      && Holds(FlagSet(files, rec), logs') && IsCurrent(current, FlagSet(files, rec).Keys)
      && Indexes(index - {logs[t][i].uuid}, logs')
    ensures var t, k := rec.tomId, Position(logs, rec.tomId, i);
      && k < |Slots(logs, current + 1)| && Formed(Deleted(logs, t, i))
      && Slots(Deleted(logs, t, i), current + 1) == Slots(logs, current + 1)[k := MarkedSlot(Slots(logs, current + 1)[k])]
  {
    DeleteFormed(logs, rec.tomId, i);
    DeleteIndexes(index, logs, rec.tomId, i);
    DeleteSlots(logs, current + 1, rec.tomId, i);
    assert WellFormed(logs[rec.tomId][i]);
    RemoveStores(files, logs, rec, i);
    hide Formed, Unique, Indexes, Slots, Stores, WellFormed;
  }

  /** The files after the flag of a record that is not marked deleted has been written. */
  function FlagSet(files: map<nat, Bytes>, rec: Record): (r: map<nat, Bytes>)
    requires rec.tomId in files && rec.offset + 24 < |files[rec.tomId]|
    ensures r.Keys == files.Keys
  {
    if rec.header.deleted != 0 then files else files[rec.tomId := files[rec.tomId][rec.offset + 24 := 1]]
  }

  lemma RemoveStores(files: map<nat, Bytes>, logs: Logs, rec: Record, i: nat)
    requires Stores(files, logs) && RefersTo(rec, logs, rec.tomId, i) && WellFormed(logs[rec.tomId][i])
    ensures rec.tomId in files && rec.offset + 24 < |files[rec.tomId]|
    ensures Stores(FlagSet(files, rec), Deleted(logs, rec.tomId, i))
  {
    var t := rec.tomId;
    MarkedImage(logs[t], i);
    if rec.header.deleted != 0 {
      assert Marked(logs[t], i) == logs[t];
    }
    hide Offset, Image, WellFormed;
  }

  lemma AppendStores(files: map<nat, Bytes>, logs: Logs, t: nat, e: Entry)
    requires Stores(files, logs) && t in logs
    ensures Stores(files[t := files[t] + EntryBytes(e)], Appended(logs, t, e))
  {
    var log := logs[t] + [e];
    assert log[..|log| - 1] == logs[t];
    assert Image(log) == Image(logs[t]) + EntryBytes(e);
    hide Image, EntryBytes;
  }

  /** Part of the toms, each complete. */
  ghost predicate Sub(done: Logs, logs: Logs) {
    Formed(done) && forall t :: t in done ==> t in logs && done[t] == logs[t]
  }

  /** done are the first k toms of the order. */
  ghost predicate Done(done: Logs, logs: Logs, order: seq<nat>, k: nat)
    requires k <= |order|
  {
    && (forall j :: 0 <= j < k ==> order[j] in done)
    && (forall t :: t in done ==> t in logs && done[t] == logs[t] && exists j :: 0 <= j < k && order[j] == t)
  }

  lemma DoneNext(done: Logs, logs: Logs, order: seq<nat>, k: nat)
    requires k < |order| && Done(done, logs, order, k) && Visits(order, logs.Keys)
    ensures order[k] in logs && order[k] !in done
    ensures Done(done[order[k] := logs[order[k]]], logs, order, k + 1)
  {
  }

  lemma DoneAll(done: Logs, logs: Logs, order: seq<nat>)
    requires Done(done, logs, order, |order|) && Visits(order, logs.Keys)
    ensures done == logs
  {
  }

  /** The index covers the toms done and the first i records of t. */
  ghost predicate IndexedTo(index: map<Uuid, Record>, logs: Logs, done: Logs, t: nat, i: nat)
    requires t in logs && i <= |logs[t]|
  {
    Formed(done[t := logs[t][..i]]) && Indexes(index, done[t := logs[t][..i]])
  }

  lemma StartTom(index: map<Uuid, Record>, logs: Logs, done: Logs, t: nat)
    requires Formed(logs) && t in logs && t !in done && Sub(done, logs) && Indexes(index, done)
    ensures IndexedTo(index, logs, done, t, 0)
  {
    NoEntries(index, done, t);
    assert logs[t][..0] == [];
  }

  lemma EndTom(index: map<Uuid, Record>, logs: Logs, done: Logs, t: nat)
    requires t in logs && Sub(done, logs) && IndexedTo(index, logs, done, t, |logs[t]|)
    ensures Sub(done[t := logs[t]], logs) && Indexes(index, done[t := logs[t]])
  {
    assert logs[t][..|logs[t]|] == logs[t];
  }

  lemma IndexNext(index: map<Uuid, Record>, logs: Logs, done: Logs, t: nat, i: nat)
    requires Formed(logs) && Unique(logs) && At(logs, t, i) && Sub(done, logs) && IndexedTo(index, logs, done, t, i)
    ensures var e := logs[t][i];
      IndexedTo(if Live(e) then index[e.uuid := RecordOf(t, logs[t], i)] else index, logs, done, t, i + 1)
  {
    var part, log := done[t := logs[t][..i]], logs[t];
    StillUnused(logs, part, t, i);
    AppendFormed(part, t, log[i]);
    AppendIndexes(index, part, t, log[i]);
    assert log[..i] + [log[i]] == log[..i + 1];
    assert Appended(part, t, log[i]) == done[t := log[..i + 1]];
    OffsetPrefix(log, i + 1, i);
  }

  lemma NoEntries(index: map<Uuid, Record>, done: Logs, t: nat)
    requires Formed(done) && Indexes(index, done) && t !in done && t < NO_TOM
    ensures Formed(done[t := []]) && Indexes(index, done[t := []])
  {
    var done' := done[t := []];
    forall u, i | At(done', u, i) ensures At(done, u, i) && done'[u] == done[u] {
    }
    forall uuid | uuid in index
      ensures exists u, i :: LiveAt(done', u, i, uuid)
    {
      var u, i :| LiveAt(done, u, i, uuid);
      assert LiveAt(done', u, i, uuid);
    }
  }

  /** The next record to be indexed is not indexed yet. */
  lemma StillUnused(logs: Logs, done: Logs, t: nat, i: nat)
    requires Unique(logs) && At(logs, t, i) && t in done && done[t] == logs[t][..i]
    requires forall u :: u in done && u != t ==> u in logs && done[u] == logs[u]
    ensures Unused(done, logs[t][i].uuid)
  {
    forall u, j | At(done, u, j)
      ensures done[u][j].uuid != logs[t][i].uuid
    {
      assert At(logs, u, j) && logs[u][j] == done[u][j];
    }
  }
}
