/**
 The wire format of a message: encoding, decoding with its early returns, and the code that reads or
 overwrites single fields of a stored record at fixed offsets.
 */
module Codec {
  import opened Bytes
  import opened Options

  datatype Headers = Headers(
    messageId: Bytes,
    timestamp: Int64,
    expiration: Int64,
    deliveryTime: Int64,
    priority: Int32,
    deliveryCount: Int32,
    redelivered: bool,
    replyTo: Bytes,
    correlationId: Bytes,
    jmsType: Bytes)

  const NO_HEADERS := Headers([], 0, 0, 0, 4, 0, false, [], [], [])

  /** What is stored of a message. An empty property block stands for a message without properties. */
  datatype Content = Content(
    number: Int64,
    uuid: Uuid,
    persistent: bool,
    headers: Headers,
    properties: Bytes,
    data: Bytes)

  const FIXED := 26
  const NUMBERS := 33
  const DEFAULT_PRIORITY := 4
  const MAX_FUTURE_MS := 315_360_000_000

  // ---- Encoding ----

  /** Four bytes of length and the bytes; the length is cut to 32 bits. */
  function Block(s: Bytes): (r: Bytes)
    ensures |r| == 4 + |s| % TWO32
  {
    PutU32(|s| % TWO32) + s[..|s| % TWO32]
  }

  function Flag(b: bool): Byte {
    if b then 1 else 0
  }

  /** The 59 bytes before the first string. */
  function Front(m: Content): (r: Bytes)
    ensures |r| == FIXED + NUMBERS
  {
    [2] + PutI64(m.number) + PutUuid(m.uuid) + [Flag(m.persistent)]
    + PutI64(m.headers.timestamp) + PutI64(m.headers.expiration) + PutI64(m.headers.deliveryTime)
    + PutI32(m.headers.priority) + PutI32(m.headers.deliveryCount) + [Flag(m.headers.redelivered)]
  }

  function Strings(h: Headers, rest: Bytes): Bytes {
    Block(h.messageId) + (Block(h.replyTo) + (Block(h.correlationId) + (Block(h.jmsType) + rest)))
  }

  /** What the buffer is too long by when a header string does not fit its length field. */
  function Slack(h: Headers): nat {
    Cut(h.messageId) + Cut(h.replyTo) + Cut(h.correlationId) + Cut(h.jmsType)
  }

  function Cut(s: Bytes): nat {
    |s| - |s| % TWO32
  }

  function Encode(m: Content): Bytes {
    Front(m) + Strings(m.headers, Block(m.properties) + m.data + seq(Slack(m.headers), _ => 0))
  }

  /** A stored record: the type byte and the encoding. */
  function Record(kind: Byte, m: Content): Bytes {
    [kind] + Encode(m)
  }

  // ---- Decoding ----

  /** Decoding either changes the message or meets the JSON format older than magic 1. */
  datatype Decoded = Decoded(m: Content) | LegacyJson

  /** A length-prefixed block at the start of s, and what follows it. */
  function Unblock(s: Bytes): (r: Option<(Bytes, Bytes)>)
    ensures r.Some? ==> |r.value.0| < TWO32
  {
    if |s| < 4 then None
    else
      var len := GetU32(s[..4]);
      if 4 + len > |s| then None else Some((s[4..4 + len], s[4 + len..]))
  }

  function Decode(m: Content, b: Bytes): Decoded {
    if b == [] then Decoded(m)
    else if b[0] != 1 && b[0] != 2 then LegacyJson
    else if |b| < FIXED then Decoded(m)
    else
      var m1 := m.(number := GetI64(b[1..9]), uuid := GetUuid(b[9..25]), persistent := b[25] != 0);
      if b[0] == 1 then Decoded(DecodeTail(m1.(headers := NO_HEADERS), b[26..]))
      else if |b| < FIXED + NUMBERS then Decoded(m1)
      else Decoded(DecodeStrings(m1.(headers := DecodeNumbers(m1.headers, b)), b[59..]))
  }

  function DecodeNumbers(h: Headers, b: Bytes): Headers
    requires |b| >= FIXED + NUMBERS
  {
    h.(timestamp := GetI64(b[26..34]), expiration := GetI64(b[34..42]), deliveryTime := GetI64(b[42..50]),
       priority := GetI32(b[50..54]), deliveryCount := GetI32(b[54..58]), redelivered := b[58] != 0)
  }

  /** The four strings in order, up to the first that is cut short. */
  function DecodeStrings(m: Content, s: Bytes): Content {
    match Unblock(s)
    case None => m
    case Some((messageId, s1)) =>
      var m1 := m.(headers := m.headers.(messageId := messageId));
      match Unblock(s1)
      case None => m1
      case Some((replyTo, s2)) =>
        var m2 := m1.(headers := m1.headers.(replyTo := replyTo));
        match Unblock(s2)
        case None => m2
        case Some((correlationId, s3)) =>
          var m3 := m2.(headers := m2.headers.(correlationId := correlationId));
          match Unblock(s3)
          case None => m3
          case Some((jmsType, s4)) => DecodeTail(m3.(headers := m3.headers.(jmsType := jmsType)), s4)
  }

  /** Properties and data; a property length that does not fit leaves the block to the data. */
  function DecodeTail(m: Content, s: Bytes): Content {
    if |s| < 4 then m
    else
      var len := GetU32(s[..4]);
      var (m1, rest) :=
        if 0 < len && 4 + len <= |s| then (m.(properties := s[4..4 + len]), s[4 + len..]) else (m, s[4..]);
      if rest == [] then m1 else m1.(data := rest)
  }

  // ---- Round trip ----

  predicate Fits(m: Content) {
    && |m.headers.messageId| < TWO32 && |m.headers.replyTo| < TWO32 && |m.headers.correlationId| < TWO32
    && |m.headers.jmsType| < TWO32 && |m.properties| < TWO32
  }

  /** A message just made by the factory. */
  predicate Fresh(m: Content) {
    m.headers == NO_HEADERS && m.properties == [] && m.data == []
  }

  lemma UnblockBlock(s: Bytes, rest: Bytes)
    requires |s| < TWO32
    ensures Unblock(Block(s) + rest) == Some((s, rest))
  {
    BlockSlices(s, rest);
    U32RoundTrip(|s|);
    hide Block, PutU32, GetU32;
  }

  lemma BlockSlices(s: Bytes, rest: Bytes)
    requires |s| < TWO32
    ensures var b := Block(s) + rest;
      |b| == 4 + |s| + |rest| && b[..4] == PutU32(|s|) && b[4..4 + |s|] == s && b[4 + |s|..] == rest
  {
    hide PutU32;
    var p := PutU32(|s|);
    assert s[..|s|] == s;
    SplitAt(p, s, rest);
  }

  lemma SplitAt(p: Bytes, s: Bytes, rest: Bytes)
    ensures var b := p + s + rest;
      b[..|p|] == p && b[|p|..|p| + |s|] == s && b[|p| + |s|..] == rest
  {
  }

  lemma FrontSlices(m: Content, rest: Bytes)
    ensures var b := Front(m) + rest;
      && b[0] == 2 && b[1..9] == PutI64(m.number) && b[9..25] == PutUuid(m.uuid) && b[25] == Flag(m.persistent)
      && b[59..] == rest
  {
  }

  lemma NumberSlices(m: Content, rest: Bytes)
    ensures var b := Front(m) + rest;
      && b[26..34] == PutI64(m.headers.timestamp) && b[34..42] == PutI64(m.headers.expiration)
      && b[42..50] == PutI64(m.headers.deliveryTime)
      && b[50..54] == PutI32(m.headers.priority) && b[54..58] == PutI32(m.headers.deliveryCount)
      && b[58] == Flag(m.headers.redelivered)
  {
  }

  lemma DecodeFront(m: Content, shell: Content, rest: Bytes)
    ensures Decode(shell, Front(m) + rest)
         == Decoded(DecodeStrings(m.(headers := m.headers.(messageId := shell.headers.messageId,
                                                           replyTo := shell.headers.replyTo,
                                                           correlationId := shell.headers.correlationId,
                                                           jmsType := shell.headers.jmsType),
                                     properties := shell.properties, data := shell.data), rest))
  {
    FrontSlices(m, rest);
    NumberSlices(m, rest);
    I64RoundTrip(m.number);
    UuidRoundTrip(m.uuid);
    I64RoundTrip(m.headers.timestamp);
    I64RoundTrip(m.headers.expiration);
    I64RoundTrip(m.headers.deliveryTime);
    I32RoundTrip(m.headers.priority);
    I32RoundTrip(m.headers.deliveryCount);
  }

  lemma TailRoundTrip(m: Content, properties: Bytes, data: Bytes)
    requires |properties| < TWO32
    ensures DecodeTail(m, Block(properties) + data)
         == m.(properties := if properties == [] then m.properties else properties,
               data := if data == [] then m.data else data)
  {
    BlockSlices(properties, data);
    U32RoundTrip(|properties|);
    hide Block, PutU32, GetU32;
  }

  lemma StringsRoundTrip(m: Content, h: Headers, rest: Bytes)
    requires |h.messageId| < TWO32 && |h.replyTo| < TWO32 && |h.correlationId| < TWO32 && |h.jmsType| < TWO32
    ensures DecodeStrings(m, Strings(h, rest))
         == DecodeTail(m.(headers := m.headers.(messageId := h.messageId, replyTo := h.replyTo,
                                                correlationId := h.correlationId, jmsType := h.jmsType)), rest)
  {
    var s4 := rest;
    var s3 := Block(h.jmsType) + s4;
    var s2 := Block(h.correlationId) + s3;
    var s1 := Block(h.replyTo) + s2;
    UnblockBlock(h.messageId, s1);
    UnblockBlock(h.replyTo, s2);
    UnblockBlock(h.correlationId, s3);
    UnblockBlock(h.jmsType, s4);
  }

  /** Decoding over any message: empty blocks leave its properties and data as they were. */
  lemma Overwritten(m: Content, shell: Content)
    requires Fits(m)
    ensures Decode(shell, Encode(m))
         == Decoded(m.(properties := if m.properties == [] then shell.properties else m.properties,
                       data := if m.data == [] then shell.data else m.data))
  {
    var tail := Block(m.properties) + m.data + seq(Slack(m.headers), _ => 0);
    assert tail == Block(m.properties) + m.data;
    hide Block, Front, DecodeStrings, DecodeTail, Decode, Strings;
    DecodeFront(m, shell, Strings(m.headers, tail));
    var m1 := m.(headers := m.headers.(messageId := shell.headers.messageId, replyTo := shell.headers.replyTo,
                                       correlationId := shell.headers.correlationId, jmsType := shell.headers.jmsType),
                 properties := shell.properties, data := shell.data);
    StringsRoundTrip(m1, m.headers, tail);
    TailRoundTrip(m1.(headers := m.headers), m.properties, m.data);
  }

  lemma TailFits(m: Content, s: Bytes)
    requires Fits(m)
    ensures Fits(DecodeTail(m, s))
  {
  }

  lemma StringsFit(m: Content, s: Bytes)
    requires Fits(m)
    ensures Fits(DecodeStrings(m, s))
  {
    match Unblock(s)
    case None =>
    case Some((messageId, s1)) =>
      var m1 := m.(headers := m.headers.(messageId := messageId));
      match Unblock(s1)
      case None =>
      case Some((replyTo, s2)) =>
        var m2 := m1.(headers := m1.headers.(replyTo := replyTo));
        match Unblock(s2)
        case None =>
        case Some((correlationId, s3)) =>
          var m3 := m2.(headers := m2.headers.(correlationId := correlationId));
          match Unblock(s3)
          case None =>
          case Some((jmsType, s4)) => TailFits(m3.(headers := m3.headers.(jmsType := jmsType)), s4);
  }

  /** A decoded block is always shorter than 2^32 bytes. */
  lemma DecodedFits(shell: Content, b: Bytes)
    requires Fits(shell)
    ensures Decode(shell, b).Decoded? ==> Fits(Decode(shell, b).m)
  {
    if |b| >= FIXED && (b[0] == 1 || b[0] == 2) {
      var m1 := shell.(number := GetI64(b[1..9]), uuid := GetUuid(b[9..25]), persistent := b[25] != 0);
      if b[0] == 1 {
        TailFits(m1.(headers := NO_HEADERS), b[26..]);
      } else if |b| >= FIXED + NUMBERS {
        StringsFit(m1.(headers := DecodeNumbers(m1.headers, b)), b[59..]);
      }
    }
  }

  /** Decoding the encoding into a fresh message restores every field exactly if all blocks fit their length fields. */
  lemma RoundTrip(m: Content, shell: Content)
    requires Fresh(shell)
    ensures Decode(shell, Encode(m)) == Decoded(m) <==> Fits(m)
  {
    if Fits(m) {
      Overwritten(m, shell);
    }
    DecodedFits(shell, Encode(m));
  }

  /** What recv does with a cached encoding that is up to date: nothing changes. */
  lemma RehydrationIsIdentity(m: Content)
    requires Fits(m)
    ensures Decode(m, Encode(m)) == Decoded(m)
  {
    Overwritten(m, m);
  }

  /** Equal encodings mean equal messages. */
  lemma EncodeInjective(a: Content, b: Content)
    requires Fits(a) && Fits(b) && Encode(a) == Encode(b)
    ensures a == b
  {
    var shell := Content(0, 0, false, NO_HEADERS, [], []);
    Overwritten(a, shell);
    Overwritten(b, shell);
  }

  // ---- Stored records read at fixed offsets ----

  function Clamp(p: int): (r: int)
    ensures 0 <= r <= 9
    ensures 0 <= p <= 9 ==> r == p
    ensures p < 0 ==> r == 0
    ensures p > 9 ==> r == 9
  {
    if p < 0 then 0 else if p > 9 then 9 else p
  }

  /** The bytes of a record behind its type byte, as recv takes them. */
  function Payload(data: Bytes): Bytes {
    if |data| > 1 then data[1..] else []
  }

  /** priorityFromStorageBytes. */
  function RawPriority(data: Bytes): int {
    if |data| < 55 || data[1] != 2 then DEFAULT_PRIORITY else Clamp(GetI32(data[51..55]))
  }

  /** deliveryTimeFromStorageBytes, on a clock that shows now milliseconds. */
  function RawDeliveryTime(data: Bytes, now: int): Int64 {
    if |data| < 51 || data[1] != 2 then 0 else Plausible(GetI64(data[43..51]), now)
  }

  /** A delivery time that no send could have produced, before the epoch or more than ten years ahead, counts as unset. */
  function Plausible(t: Int64, now: int): (r: Int64)
    ensures 0 <= t <= now + 315_360_000_000 ==> r == t
    ensures t < 0 || t > now + 315_360_000_000 ==> r == 0
  {
    if t < 0 || t > now + MAX_FUTURE_MS then 0 else t
  }

  /** The expiration that the sweep reads, 0 where it skips the record. */
  function RawExpiration(data: Bytes): Int64 {
    if |data| < 43 || data[1] != 2 then 0 else GetI64(data[35..43])
  }

  predicate IsExpired(h: Headers, now: int) {
    h.expiration != 0 && now >= h.expiration
  }

  predicate RawExpired(data: Bytes, now: int) {
    RawExpiration(data) != 0 && now >= RawExpiration(data)
  }

  /** The record is cut off inside the numeric headers, behind the field that ends at position end. */
  predicate CutAfter(data: Bytes, end: nat) {
    end <= |data| < 1 + FIXED + NUMBERS && 1 < |data| && data[1] == 2
  }

  lemma StringsKeepNumbers(m: Content, s: Bytes)
    ensures var h := DecodeStrings(m, s).headers;
      h.priority == m.headers.priority && h.deliveryTime == m.headers.deliveryTime && h.expiration == m.headers.expiration
  {
  }

  /** Three of the fields that a fresh message gets from a record, by position. */
  lemma DecodedNumbers(data: Bytes, shell: Content)
    requires Fresh(shell) && Decode(shell, Payload(data)).Decoded?
    ensures var h := Decode(shell, Payload(data)).m.headers;
      if |data| >= 60 && data[1] == 2
      then h.priority == GetI32(data[51..55]) && h.deliveryTime == GetI64(data[43..51]) && h.expiration == GetI64(data[35..43])
      else h.priority == 4 && h.deliveryTime == 0 && h.expiration == 0
  {
    var b := Payload(data);
    if |data| >= 60 && data[1] == 2 {
      assert b[50..54] == data[51..55] && b[42..50] == data[43..51] && b[34..42] == data[35..43];
      var m1 := shell.(number := GetI64(b[1..9]), uuid := GetUuid(b[9..25]), persistent := b[25] != 0);
      StringsKeepNumbers(m1.(headers := DecodeNumbers(m1.headers, b)), b[59..]);
    }
  }

  /**
   For every record, whatever its bytes, that decodes without the JSON path: the raw readers agree with the decoded
   and clamped headers exactly unless the record is cut off inside the numeric headers behind the field
   read and the bytes there are not the default.
   */
  lemma RawReadersAgree(data: Bytes, shell: Content, now: int)
    requires Fresh(shell) && Decode(shell, Payload(data)).Decoded?
    ensures var h := Decode(shell, Payload(data)).m.headers;
      && (RawPriority(data) == Clamp(h.priority) <==> !(CutAfter(data, 55) && Clamp(GetI32(data[51..55])) != 4))
      && (RawDeliveryTime(data, now) == Plausible(h.deliveryTime, now)
          <==> !(CutAfter(data, 51) && Plausible(GetI64(data[43..51]), now) != 0))
      && (RawExpiration(data) == h.expiration <==> !(CutAfter(data, 43) && GetI64(data[35..43]) != 0))
  {
    DecodedNumbers(data, shell);
  }

  /** Records written by toBytes are long enough: there the readers always agree with the message. */
  lemma RawReadersAgreeOnEncodings(kind: Byte, m: Content, now: int)
    ensures RawPriority(Record(kind, m)) == Clamp(m.headers.priority)
    ensures RawDeliveryTime(Record(kind, m), now) == Plausible(m.headers.deliveryTime, now)
    ensures RawExpiration(Record(kind, m)) == m.headers.expiration
    ensures RawExpired(Record(kind, m), now) <==> IsExpired(m.headers, now)
    ensures IsExpired(m.headers, now) <==> m.headers.expiration != 0 && m.headers.expiration <= now
  {
    var rest := Strings(m.headers, Block(m.properties) + m.data + seq(Slack(m.headers), _ => 0));
    var b, data := Front(m) + rest, Record(kind, m);
    NumberSlices(m, rest);
    assert data[51..55] == b[50..54] && data[43..51] == b[42..50] && data[35..43] == b[34..42];
    I32RoundTrip(m.headers.priority);
    I64RoundTrip(m.headers.deliveryTime);
    I64RoundTrip(m.headers.expiration);
  }

  // ---- Overwriting the delivery time in place ----

  /** patchCachedDeliveryTime and patchDeliveryTimeInBytes. */
  function Patched(data: Bytes, t: Int64): (r: Bytes)
    ensures |r| == |data|
  {
    if |data| < 51 || data[1] != 2 then data else data[..43] + PutI64(t) + data[51..]
  }

  /** Overwriting the field is the same as encoding the message with the new delivery time. */
  lemma PatchIsReencoding(kind: Byte, m: Content, t: Int64)
    ensures Patched(Record(kind, m), t) == Record(kind, Retimed(m, t))
  {
    var rest := Strings(m.headers, Block(m.properties) + m.data + seq(Slack(m.headers), _ => 0));
    PatchBehindKind(kind, Front(m), rest, t);
    PatchFront(m, t);
  }

  lemma PatchBehindKind(kind: Byte, front: Bytes, rest: Bytes, t: Int64)
    requires |front| >= 50 && front[0] == 2
    ensures Patched([kind] + (front + rest), t) == [kind] + (front[..42] + PutI64(t) + front[50..] + rest)
  {
  }

  lemma PatchFront(m: Content, t: Int64)
    ensures Front(m)[..42] + PutI64(t) + Front(m)[50..] == Front(Retimed(m, t))
  {
  }

  /** On any complete record, written by toBytes or not, overwriting changes the decoded delivery time and nothing else. */
  lemma PatchChangesOneField(data: Bytes, shell: Content, t: Int64)
    requires |data| >= 60 && data[1] == 2
    ensures Decode(shell, Payload(data)).Decoded?
    ensures Decode(shell, Payload(Patched(data, t))) == Decoded(Retimed(Decode(shell, Payload(data)).m, t))
  {
    var b, b' := Payload(data), Payload(Patched(data, t));
    PatchSlices(data, t);
    I64RoundTrip(t);
    var m1 := shell.(number := GetI64(b[1..9]), uuid := GetUuid(b[9..25]), persistent := b[25] != 0);
    StringsCarry(m1.(headers := DecodeNumbers(m1.headers, b)), b[59..], t);
  }

  lemma PatchSlices(data: Bytes, t: Int64)
    requires |data| >= 60 && data[1] == 2
    ensures var b, b' := Payload(data), Payload(Patched(data, t));
      && b'[0] == b[0] && b'[1..9] == b[1..9] && b'[9..25] == b[9..25] && b'[25] == b[25]
      && b'[26..34] == b[26..34] && b'[34..42] == b[34..42] && b'[42..50] == PutI64(t)
      && b'[50..54] == b[50..54] && b'[54..58] == b[54..58] && b'[58] == b[58] && b'[59..] == b[59..]
  {
    var b := Payload(data);
    assert Payload(Patched(data, t)) == b[..42] + PutI64(t) + b[50..];
    OutsidePatch(b, PutI64(t));
  }

  lemma OutsidePatch(b: Bytes, mid: Bytes)
    requires |b| >= 50 && |mid| == 8
    ensures var b' := b[..42] + mid + b[50..];
      && (forall lo, hi :: 0 <= lo <= hi <= 42 ==> b'[lo..hi] == b[lo..hi])
      && (forall lo, hi :: 50 <= lo <= hi <= |b| ==> b'[lo..hi] == b[lo..hi])
      && (forall lo :: 50 <= lo <= |b| ==> b'[lo..] == b[lo..])
  {
  }

  /** m with another delivery time. */
  function Retimed(m: Content, t: Int64): Content {
    m.(headers := m.headers.(deliveryTime := t))
  }

  /** Decoding the strings does not look at the delivery time. */
  lemma StringsCarry(m: Content, s: Bytes, t: Int64)
    ensures DecodeStrings(Retimed(m, t), s) == Retimed(DecodeStrings(m, s), t)
  {
    match Unblock(s)
    case None =>
    case Some((messageId, s1)) =>
      var m1 := m.(headers := m.headers.(messageId := messageId));
      match Unblock(s1)
      case None =>
      case Some((replyTo, s2)) =>
        var m2 := m1.(headers := m1.headers.(replyTo := replyTo));
        match Unblock(s2)
        case None =>
        case Some((correlationId, s3)) =>
          var m3 := m2.(headers := m2.headers.(correlationId := correlationId));
          match Unblock(s3)
          case None =>
          case Some((jmsType, s4)) => TailCarries(m3.(headers := m3.headers.(jmsType := jmsType)), s4, t);
  }

  lemma TailCarries(m: Content, s: Bytes, t: Int64)
    ensures DecodeTail(Retimed(m, t), s) == Retimed(DecodeTail(m, s), t)
  {
  }

  /** Patching is visible exactly if the time changes. */
  lemma PatchVisible(kind: Byte, m: Content, t: Int64)
    ensures Patched(Record(kind, m), t) == Record(kind, m) <==> t == m.headers.deliveryTime
  {
    PatchIsReencoding(kind, m, t);
    if t != m.headers.deliveryTime {
      var m' := Retimed(m, t);
      assert RawTime(Record(kind, m)) == m.headers.deliveryTime by {
        RawTimeOfRecord(kind, m);
      }
      assert RawTime(Record(kind, m')) == t by {
        RawTimeOfRecord(kind, m');
      }
    } else {
      assert Retimed(m, t) == m;
    }
  }

  /** The eight bytes at the delivery time's place. */
  function RawTime(data: Bytes): Int64 {
    if |data| < 51 then 0 else GetI64(data[43..51])
  }

  lemma RawTimeOfRecord(kind: Byte, m: Content)
    ensures RawTime(Record(kind, m)) == m.headers.deliveryTime
  {
    var rest := Strings(m.headers, Block(m.properties) + m.data + seq(Slack(m.headers), _ => 0));
    var b, data := Front(m) + rest, Record(kind, m);
    NumberSlices(m, rest);
    assert data[43..51] == b[42..50];
    I64RoundTrip(m.headers.deliveryTime);
  }
}
