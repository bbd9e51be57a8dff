/** A tom file: headers and data one after the other. */
module StorageLog {
  import opened Bytes
  import Seqs

  /** One record as written. The seven bytes behind the flag are padding of the header structure. */
  datatype Entry = Entry(uuid: Uuid, deleted: Byte, padding: nat, data: Bytes)

  const HEADER := 32
  const NO_TOM := 0xFFFF_FFFF

  predicate WellFormed(e: Entry) {
    e.uuid != 0 && e.deleted <= 1 && 0 < |e.data| < TWO64
  }

  predicate Live(e: Entry) {
    e.deleted == 0
  }

  function EntryBytes(e: Entry): (r: Bytes)
    ensures |r| == HEADER + |e.data|
  {
    PutUuid(e.uuid) + PutU64(|e.data|) + [e.deleted] + Little(e.padding, 7) + e.data
  }

  predicate AllWellFormed(log: seq<Entry>) {
    forall i :: 0 <= i < |log| ==> WellFormed(log[i])
  }

  /** The bytes of a file with these records. */
  function Image(log: seq<Entry>): Bytes {
    if log == [] then [] else Image(log[..|log| - 1]) + EntryBytes(log[|log| - 1])
  }

  /** Where record i starts; the end of the file for i == |log|. */
  function Offset(log: seq<Entry>, i: nat): nat
    requires i <= |log|
  {
    if i == 0 then 0 else Offset(log, i - 1) + HEADER + |log[i - 1].data|
  }

  datatype Header = Header(uuid: Uuid, dataSize: nat, deleted: Byte)

  datatype Record = Record(tomId: nat, offset: nat, header: Header)

  /** A default-made Record: the answer for an unknown uuid or an offset past the end. */
  const NO_RECORD := Record(NO_TOM, TWO64 - 1, Header(0, 0, 0))

  function HeaderOf(e: Entry): Header {
    Header(e.uuid, |e.data|, e.deleted)
  }

  function RecordOf(t: nat, log: seq<Entry>, i: nat): Record
    requires i < |log|
  {
    Record(t, Offset(log, i), HeaderOf(log[i]))
  }

  /** Tom::record: the header at an offset; reading past the end inside a header is an error. */
  datatype Read = PastEnd | Found(header: Header) | Failed

  function ReadHeader(file: Bytes, offset: nat): Read {
    if offset >= |file| then PastEnd
    else if offset + HEADER > |file| then Failed
    else Found(Header(GetUuid(file[offset..offset + 16]), GetU64(file[offset + 16..offset + 24]), file[offset + 24]))
  }

  // ---- The file is what the offsets say ----

  lemma {:induction false} OffsetPrefix(log: seq<Entry>, n: nat, i: nat)
    requires i <= n <= |log|
    ensures Offset(log[..n], i) == Offset(log, i)
  {
    if i > 0 {
      OffsetPrefix(log, n, i - 1);
    }
  }

  lemma {:induction false} OffsetGrows(log: seq<Entry>, i: nat, j: nat)
    requires i < j <= |log|
    ensures Offset(log, i) + HEADER + |log[i].data| <= Offset(log, j)
  {
    if i < j - 1 {
      OffsetGrows(log, i, j - 1);
    }
  }

  /** The bytes from record i on. */
  function Rest(log: seq<Entry>, i: nat): Bytes
    requires i <= |log|
    decreases |log| - i
  {
    if i == |log| then [] else EntryBytes(log[i]) + Rest(log, i + 1)
  }

  lemma {:induction false} ImageSplit(log: seq<Entry>, i: nat)
    requires i <= |log|
    ensures Image(log) == Image(log[..i]) + Rest(log, i)
    decreases |log| - i
  {
    if i == |log| {
      assert log[..i] == log;
    } else {
      ImageSplit(log, i + 1);
      assert log[..i + 1][..i] == log[..i];
      Seqs.Assoc(Image(log[..i]), EntryBytes(log[i]), Rest(log, i + 1));
    }
  }

  lemma {:induction false} ImageSize(log: seq<Entry>)
    ensures |Image(log)| == Offset(log, |log|)
  {
    if log != [] {
      var n := |log| - 1;
      ImageSize(log[..n]);
      OffsetPrefix(log, n, n);
    }
  }

  /** The bytes of the file around record i. */
  lemma ImageAt(log: seq<Entry>, i: nat)
    requires i < |log|
    ensures Image(log) == Image(log[..i]) + EntryBytes(log[i]) + Rest(log, i + 1)
    ensures |Image(log[..i])| == Offset(log, i)
    ensures Offset(log, i + 1) == Offset(log, i) + |EntryBytes(log[i])|
  {
    ImageSplit(log, i);
    ImageSize(log[..i]);
    OffsetPrefix(log, i, i);
    Seqs.Assoc(Image(log[..i]), EntryBytes(log[i]), Rest(log, i + 1));
  }

  lemma HeaderInside(pre: Bytes, e: Entry, post: Bytes)
    requires WellFormed(e)
    ensures var file, o := pre + EntryBytes(e) + post, |pre|;
      ReadHeader(file, o) == Found(HeaderOf(e)) && file[o + HEADER..o + HEADER + |e.data|] == e.data
  {
    var file, o, b := pre + EntryBytes(e) + post, |pre|, EntryBytes(e);
    Between(pre, b, post);
    EntryParts(e);
    U64RoundTrip(|e.data|);
    UuidRoundTrip(e.uuid);
    assert file[o..o + |b|] == b;
    assert file[o..o + 16] == b[..16];
    assert file[o + 16..o + 24] == b[16..24];
    assert file[o + 24] == b[24];
    assert file[o + HEADER..o + HEADER + |e.data|] == b[32..];
  }

  lemma EntryParts(e: Entry)
    ensures var b := EntryBytes(e);
      b[..16] == PutUuid(e.uuid) && b[16..24] == PutU64(|e.data|) && b[24] == e.deleted && b[32..] == e.data
  {
  }

  /** Reading at a record boundary finds that record's header and data; at the end it finds nothing. */
  lemma ReadAt(log: seq<Entry>, i: nat)
    requires AllWellFormed(log) && i <= |log|
    ensures i == |log| ==> ReadHeader(Image(log), Offset(log, i)) == PastEnd
    ensures i < |log| ==>
      && ReadHeader(Image(log), Offset(log, i)) == Found(HeaderOf(log[i]))
      && Offset(log, i + 1) == Offset(log, i) + HEADER + |log[i].data| <= |Image(log)|
      && Image(log)[Offset(log, i) + HEADER..Offset(log, i + 1)] == log[i].data
  {
    ImageSize(log);
    if i < |log| {
      ImageAt(log, i);
      HeaderInside(Image(log[..i]), log[i], Rest(log, i + 1));
    }
  }

  // ---- Setting a deleted flag ----

  function Marked(log: seq<Entry>, i: nat): (r: seq<Entry>)
    requires i < |log|
    ensures |r| == |log|
  {
    log[i := log[i].(deleted := 1)]
  }

  lemma {:induction false} MarkedOffset(log: seq<Entry>, i: nat, j: nat)
    requires i < |log| && j <= |log|
    ensures Offset(Marked(log, i), j) == Offset(log, j)
  {
    if j > 0 {
      MarkedOffset(log, i, j - 1);
    }
  }

  /** Overwriting one byte of the file deletes one record and leaves everything else. */
  lemma MarkedImage(log: seq<Entry>, i: nat)
    requires i < |log|
    ensures Offset(log, i) + 24 < |Image(log)|
    ensures Image(Marked(log, i)) == Image(log)[Offset(log, i) + 24 := 1]
  {
    var log' := Marked(log, i);
    ImageAt(log, i);
    ImageAt(log', i);
    MarkedOffset(log, i, i);
    assert log'[..i] == log[..i];
    MarkedRest(log, i, i + 1);
    FlagByte(log[i]);
    UpdateInside(Image(log[..i]), EntryBytes(log[i]), Rest(log, i + 1), 24, 1);
  }

  lemma FlagByte(e: Entry)
    ensures EntryBytes(e.(deleted := 1)) == EntryBytes(e)[24 := 1]
  {
  }

  lemma {:induction false} MarkedRest(log: seq<Entry>, i: nat, j: nat)
    requires i < j <= |log|
    ensures Rest(Marked(log, i), j) == Rest(log, j)
    decreases |log| - j
  {
    if j < |log| {
      MarkedRest(log, i, j + 1);
    }
  }

  lemma UpdateInside(pre: Bytes, mid: Bytes, post: Bytes, k: nat, b: Byte)
    requires k < |mid|
    ensures (pre + mid + post)[|pre| + k := b] == pre + mid[k := b] + post
  {
  }
}
