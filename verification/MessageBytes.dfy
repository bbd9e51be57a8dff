/** Message objects and the buffer code of Message.cpp and ObjectMessage.cpp, with its moving offset. */
module MessageBytes {
  import opened Bytes
  import opened Options
  import opened Codec

  /** The buffer starts with done, whose end is off, and is zero behind it. */
  ghost predicate Written(a: array<Byte>, off: nat, done: Bytes)
    reads a
  {
    && off == |done| <= a.Length && a[..off] == done
    && forall i :: off <= i < a.Length ==> a[i] == 0
  }

  /** memcpy of s to the current offset. */
  method Put(a: array<Byte>, off: nat, s: Bytes, ghost done: Bytes) returns (end: nat)
    requires Written(a, off, done) && off + |s| <= a.Length
    modifies a
    ensures Written(a, end, done + s)
  {
    forall i | 0 <= i < |s| {
      a[off + i] := s[i];
    }
    end := off + |s|;
    assert a[..end] == done + s;
  }

  /** writeString. */
  method PutString(a: array<Byte>, off: nat, s: Bytes, ghost done: Bytes) returns (end: nat)
    requires Written(a, off, done) && off + |Block(s)| <= a.Length
    modifies a
    ensures Written(a, end, done + Block(s))
  {
    var len := |s| % TWO32;
    end := Put(a, off, PutU32(len), done);
    if len > 0 {
      end := Put(a, end, s[..len], done + PutU32(len));
    }
    assert done + Block(s) == done + PutU32(len) + s[..len];
  }

  /** readString: false if the block is cut short. */
  method GetString(b: Bytes, off: nat) returns (ok: bool, end: nat, s: Bytes)
    requires off <= |b|
    ensures end <= |b|
    ensures if ok then Unblock(b[off..]) == Some((s, b[end..])) else Unblock(b[off..]) == None
  {
    ok, end, s := false, off, [];
    if off + 4 > |b| {
      return;
    }
    assert b[off..][..4] == b[off..off + 4];
    var len := GetU32(b[off..off + 4]);
    if off + 4 + len > |b| {
      return;
    }
    assert b[off..][4..4 + len] == b[off + 4..off + 4 + len];
    assert b[off..][4 + len..] == b[off + 4 + len..];
    ok, end, s := true, off + 4 + len, b[off + 4..off + 4 + len];
  }

  /** patchDeliveryTimeInBytes. */
  method PatchInBytes(data: array<Byte>, t: Int64)
    modifies data
    ensures data[..] == Patched(old(data[..]), t)
  {
    if data.Length < 51 {
      return;
    }
    if data[1] != 2 {
      return;
    }
    var field := PutI64(t);
    forall i | 0 <= i < 8 {
      data[43 + i] := field[i];
    }
  }

  class Message {
    const kind: Byte
    var number: Int64
    var uuid: Uuid
    var persistent: bool
    var headers: Headers
    var properties: Bytes
    var data: Bytes
    var cached: Bytes

    constructor (kind: Byte, uuid: Uuid, persistent: bool)
      ensures this.kind == kind && Value() == Content(0, uuid, persistent, NO_HEADERS, [], []) && cached == []
    {
      this.kind := kind;
      number, this.uuid, this.persistent, headers, properties, data, cached := 0, uuid, persistent, NO_HEADERS, [], [], [];
    }

    ghost function Value(): Content
      reads this
    {
      Content(number, uuid, persistent, headers, properties, data)
    }

    method FrontBytes(a: array<Byte>) returns (off: nat)
      requires a.Length >= 59 && Written(a, 0, [])
      modifies a
      ensures off == 59 && Written(a, off, Front(Value()))
    {
      ghost var done: Bytes := [];
      off := Put(a, 0, [2], done);
      done := done + [2];
      off := Put(a, off, PutI64(number), done);
      done := done + PutI64(number);
      off := Put(a, off, PutUuid(uuid), done);
      done := done + PutUuid(uuid);
      off := Put(a, off, [Flag(persistent)], done);
      done := done + [Flag(persistent)];
      off := Put(a, off, PutI64(headers.timestamp), done);
      done := done + PutI64(headers.timestamp);
      off := Put(a, off, PutI64(headers.expiration), done);
      done := done + PutI64(headers.expiration);
      off := Put(a, off, PutI64(headers.deliveryTime), done);
      done := done + PutI64(headers.deliveryTime);
      off := Put(a, off, PutI32(headers.priority), done);
      done := done + PutI32(headers.priority);
      off := Put(a, off, PutI32(headers.deliveryCount), done);
      done := done + PutI32(headers.deliveryCount);
      off := Put(a, off, [Flag(headers.redelivered)], done);
      done := done + [Flag(headers.redelivered)];
      assert [] + [2] == [2];
    }

    method ToBytes() returns (a: array<Byte>)
      ensures fresh(a) && a[..] == Encode(Value())
    {
      hide Written, Front, Block;
      var h := headers;
      var propsLen := |properties| % TWO32;
      a := new Byte[59 + 16 + |h.messageId| + |h.replyTo| + |h.correlationId| + |h.jmsType| + 4 + propsLen + |data|](_ => 0);
      AllZero(a);
      var off := FrontBytes(a);
      ghost var done := Front(Value());
      off := PutStrings(a, off, done);
      done := done + Block(h.messageId) + Block(h.replyTo) + Block(h.correlationId) + Block(h.jmsType);
      off := PutTail(a, off, done);
      Finished(a, off, done + (Block(properties) + data), Slack(h));
      Nested(Front(Value()), Block(h.messageId), Block(h.replyTo), Block(h.correlationId), Block(h.jmsType),
             Block(properties) + data, seq(Slack(h), _ => 0));
    }

    /** The four header strings. */
    method PutStrings(a: array<Byte>, off: nat, ghost done: Bytes) returns (end: nat)
      requires Written(a, off, done)
      requires off + |Block(headers.messageId)| + |Block(headers.replyTo)| + |Block(headers.correlationId)|
               + |Block(headers.jmsType)| <= a.Length
      modifies a
      ensures Written(a, end, done + Block(headers.messageId) + Block(headers.replyTo) + Block(headers.correlationId)
                              + Block(headers.jmsType))
      ensures end == off + |Block(headers.messageId)| + |Block(headers.replyTo)| + |Block(headers.correlationId)|
                     + |Block(headers.jmsType)|
    {
      hide Block;
      end := PutString(a, off, headers.messageId, done);
      ghost var d1 := done + Block(headers.messageId);
      end := PutString(a, end, headers.replyTo, d1);
      ghost var d2 := d1 + Block(headers.replyTo);
      end := PutString(a, end, headers.correlationId, d2);
      end := PutString(a, end, headers.jmsType, d2 + Block(headers.correlationId));
    }

    /** Properties and data. */
    method PutTail(a: array<Byte>, off: nat, ghost done: Bytes) returns (end: nat)
      requires Written(a, off, done) && off + 4 + |properties| % TWO32 + |data| <= a.Length
      modifies a
      ensures Written(a, end, done + (Block(properties) + data))
      ensures end == off + |Block(properties)| + |data|
    {
      end := PutString(a, off, properties, done);
      if data != [] {
        end := Put(a, end, data, done + Block(properties));
      }
      assert done + (Block(properties) + data) == done + Block(properties) + data;
    }

    /** refreshCachedStorageBytes. */
    method RefreshCache()
      modifies this
      ensures Value() == old(Value())
      ensures cached == if persistent then Record(kind, Value()) else old(cached)
    {
      if persistent {
        var bytes := ToBytes();
        cached := [kind] + bytes[..];
      }
    }

    /** patchCachedDeliveryTime. */
    method PatchCache(t: Int64)
      modifies this
      ensures Value() == old(Value()) && cached == Patched(old(cached), t)
    {
      if |cached| < 51 {
        return;
      }
      if cached[1] != 2 {
        return;
      }
      cached := cached[..43] + PutI64(t) + cached[51..];
    }

    /** fromBytes; the JSON format older than magic 1 is reported and not decoded. */
    method FromBytes(b: Bytes) returns (legacy: bool)
      modifies this
      ensures cached == old(cached)
      ensures legacy <==> Decode(old(Value()), b).LegacyJson?
      ensures if legacy then Value() == old(Value()) else Decoded(Value()) == Decode(old(Value()), b)
    {
      legacy := false;
      if b == [] {
        return;
      }
      if b[0] != 1 && b[0] != 2 {
        legacy := true;
        return;
      }
      if |b| < FIXED {
        return;
      }
      var off := 1;
      number := GetI64(b[off..off + 8]);
      off := off + 8;
      uuid := GetUuid(b[off..off + 16]);
      off := off + 16;
      persistent := b[off] != 0;
      off := off + 1;
      if b[0] == 2 {
        if off + NUMBERS > |b| {
          return;
        }
        off := GetNumbers(b, off);
        var ok;
        ok, off := GetStrings(b, off);
        if !ok {
          return;
        }
      } else {
        headers := NO_HEADERS;
      }
      GetTail(b, off);
    }

    method GetNumbers(b: Bytes, start: nat) returns (off: nat)
      requires start == FIXED && start + NUMBERS <= |b|
      modifies this
      ensures off == 59 && cached == old(cached)
      ensures Value() == old(Value()).(headers := DecodeNumbers(old(headers), b))
    {
      off := start;
      headers := headers.(timestamp := GetI64(b[off..off + 8]));
      off := off + 8;
      headers := headers.(expiration := GetI64(b[off..off + 8]));
      off := off + 8;
      headers := headers.(deliveryTime := GetI64(b[off..off + 8]));
      off := off + 8;
      headers := headers.(priority := GetI32(b[off..off + 4]));
      off := off + 4;
      headers := headers.(deliveryCount := GetI32(b[off..off + 4]));
      off := off + 4;
      headers := headers.(redelivered := b[off] != 0);
      off := off + 1;
    }

    /** The four strings; false if one is cut short. */
    method GetStrings(b: Bytes, start: nat) returns (ok: bool, off: nat)
      requires start <= |b|
      modifies this
      ensures off <= |b| && cached == old(cached)
      ensures DecodeStrings(old(Value()), b[start..]) == if ok then DecodeTail(Value(), b[off..]) else Value()
    {
      var s;
      ok, off, s := GetString(b, start);
      if !ok {
        return;
      }
      headers := headers.(messageId := s);
      ok, off, s := GetString(b, off);
      if !ok {
        return;
      }
      headers := headers.(replyTo := s);
      ok, off, s := GetString(b, off);
      if !ok {
        return;
      }
      headers := headers.(correlationId := s);
      ok, off, s := GetString(b, off);
      if !ok {
        return;
      }
      headers := headers.(jmsType := s);
    }

    /** Properties and data. */
    method GetTail(b: Bytes, start: nat)
      requires start <= |b|
      modifies this
      ensures cached == old(cached)
      ensures Value() == DecodeTail(old(Value()), b[start..])
    {
      ghost var rest := b[start..];
      if start + 4 > |b| {
        return;
      }
      assert rest[..4] == b[start..start + 4];
      var len := GetU32(b[start..start + 4]);
      var off := start + 4;
      if len > 0 && off + len <= |b| {
        assert rest[4..4 + len] == b[off..off + len];
        properties := b[off..off + len];
        off := off + len;
      }
      assert rest[off - start..] == b[off..];
      if off < |b| {
        data := b[off..];
      }
    }
  }

  /** The body of an ObjectMessage. */
  class ObjectBody {
    var className: Bytes
    var body: Bytes

    constructor (className: Bytes, body: Bytes)
      ensures this.className == className && this.body == body
    {
      this.className, this.body := className, body;
    }

    /** dataAsBytes. */
    method DataAsBytes() returns (a: array<Byte>)
      ensures fresh(a) && a[..] == Block(className) + body
    {
      var nameLen := |className| % TWO32;
      a := new Byte[4 + nameLen + |body|](_ => 0);
      var off := PutString(a, 0, className, []);
      assert [] + Block(className) == Block(className);
      if body != [] {
        off := Put(a, off, body, Block(className));
      }
      assert a[..] == a[..off];
    }

    /** setDataFromBytes: a name that is cut short leaves both parts empty. */
    method SetDataFromBytes(b: Bytes)
      modifies this
      ensures match Unblock(b)
        case None => className == [] && body == []
        case Some((name, rest)) => className == name && body == rest
    {
      className, body := [], [];
      if |b| < 4 {
        return;
      }
      var len := GetU32(b[..4]);
      var off := 4;
      if off + len > |b| {
        return;
      }
      className := b[off..off + len];
      off := off + len;
      if off < |b| {
        body := b[off..];
      }
    }
  }

  /** What DataAsBytes wrote, SetDataFromBytes restores exactly if the class name fits its length field. */
  lemma ObjectRoundTrip(className: Bytes, body: Bytes)
    ensures Unblock(Block(className) + body) == Some((className, body)) <==> |className| < TWO32
  {
    if |className| < TWO32 {
      UnblockBlock(className, body);
    }
  }

  lemma AllZero(a: array<Byte>)
    requires forall i :: 0 <= i < a.Length ==> a[i] == 0
    ensures Written(a, 0, [])
  {
  }

  lemma Finished(a: array<Byte>, off: nat, done: Bytes, slack: nat)
    requires Written(a, off, done) && a.Length == off + slack
    ensures a[..] == done + seq(slack, _ => 0)
  {
    assert a[..] == a[..off] + a[off..];
  }

  lemma Nested(a: Bytes, b: Bytes, c: Bytes, d: Bytes, e: Bytes, f: Bytes, g: Bytes)
    ensures a + b + c + d + e + f + g == a + (b + (c + (d + (e + (f + g)))))
  {
    assert c + (d + (e + (f + g))) == c + d + e + f + g;
    assert b + (c + d + e + f + g) == b + c + d + e + f + g;
  }
}
