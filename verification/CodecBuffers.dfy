/** The codec as the journal runs it: encoding in place at the end of a reused buffer,
    decoding by moving an offset (internal/journal/codec.go). */
module CodecBuffers {
  import opened Model
  import opened Bytes
  import opened Codec

  /** Writes an n-byte integer at off. What is to follow is carried along as a ghost, so that
      written bytes and bytes still to come always add up to the same whole. */
  method PutLE(buf: array<uint8>, off: nat, n: nat, v: nat, ghost rest: Data) returns (next: nat)
    requires off + n <= buf.Length
    modifies buf
    ensures next == off + n && buf[..next] + rest == old(buf[..off]) + (LE(n, v) + rest)
  {
    ghost var before := buf[..off];
    var x := v;
    for i := 0 to n
      invariant buf[..off + i] + LE(n - i, x) == before + LE(n, v)
    {
      ghost var done, tail := buf[..off + i], LE(n - i - 1, x / 256);
      buf[off + i] := x % 256;
      assert buf[..off + i + 1] == done + [x % 256];
      assert (done + [x % 256]) + tail == done + ([x % 256] + tail);
      x := x / 256;
    }
    next := off + n;
    assert buf[..next] + [] == buf[..next];
    assert (before + LE(n, v)) + rest == before + (LE(n, v) + rest);
  }

  method PutByte(buf: array<uint8>, off: nat, b: uint8, ghost rest: Data) returns (next: nat)
    requires off < buf.Length
    modifies buf
    ensures next == off + 1 && buf[..next] + rest == old(buf[..off]) + ([b] + rest)
  {
    ghost var before := buf[..off];
    buf[off] := b;
    next := off + 1;
    assert buf[..next] == before + [b];
  }

  method PutSymbol(buf: array<uint8>, off: nat, symbol: Symbol, ghost rest: Data) returns (next: nat)
    requires off + |symbol| <= buf.Length
    modifies buf
    ensures next == off + |symbol| && buf[..next] + rest == old(buf[..off]) + (symbol + rest)
  {
    ghost var before := buf[..off];
    for i := 0 to |symbol|
      invariant buf[..off + i] == before + symbol[..i]
    {
      buf[off + i] := symbol[i];
      assert buf[..off + i + 1] == before + symbol[..i] + [symbol[i]];
    }
    next := off + |symbol|;
    assert symbol[..|symbol|] == symbol;
    assert (before + symbol) + rest == before + (symbol + rest);
  }

  method PutEventBytes(buf: array<uint8>, off: nat, e: Event, ghost rest: Data) returns (next: nat)
    requires off + EVENT_LEN <= buf.Length
    modifies buf
    ensures next == off + EVENT_LEN && buf[..next] + rest == old(buf[..off]) + PutEvent(e, rest)
  {
    var flag: uint8 := if e.priorityRetained then 1 else 0;
    ghost var s11 := [flag] + rest;
    ghost var s10 := [e.cancelReason] + s11;
    ghost var s9 := LE(8, ToUnsigned(e.canceled)) + s10;
    ghost var s8 := LE(8, ToUnsigned(e.leaves)) + s9;
    ghost var s7 := LE(8, ToUnsigned(e.quantity)) + s8;
    ghost var s6 := LE(8, ToUnsigned(e.price)) + s7;
    ghost var s5 := LE(8, e.tradeId) + s6;
    ghost var s4 := LE(8, e.takerId) + s5;
    ghost var s3 := LE(8, e.makerId) + s4;
    ghost var s2 := LE(8, e.orderId) + s3;
    next := PutByte(buf, off, e.kind, LE(2, e.reason) + s2);
    next := PutLE(buf, next, 2, e.reason, s2);
    next := PutLE(buf, next, 8, e.orderId, s3);
    next := PutLE(buf, next, 8, e.makerId, s4);
    next := PutLE(buf, next, 8, e.takerId, s5);
    next := PutLE(buf, next, 8, e.tradeId, s6);
    next := PutLE(buf, next, 8, ToUnsigned(e.price), s7);
    next := PutLE(buf, next, 8, ToUnsigned(e.quantity), s8);
    next := PutLE(buf, next, 8, ToUnsigned(e.leaves), s9);
    next := PutLE(buf, next, 8, ToUnsigned(e.canceled), s10);
    next := PutByte(buf, next, e.cancelReason, s11);
    next := PutByte(buf, next, flag, rest);
  }

  method PutEventsBytes(buf: array<uint8>, off: nat, events: seq<Event>, ghost rest: Data) returns (next: nat)
    requires off + EVENT_LEN * |events| <= buf.Length
    modifies buf
    ensures next == off + EVENT_LEN * |events| && buf[..next] + rest == old(buf[..off]) + PutEvents(events, rest)
  {
    next := off;
    assert events[0..] == events;
    for i := 0 to |events|
      invariant next == off + EVENT_LEN * i
      invariant buf[..next] + PutEvents(events[i..], rest) == old(buf[..off]) + PutEvents(events, rest)
    {
      assert events[i..][1..] == events[i + 1..];
      next := PutEventBytes(buf, next, events[i], PutEvents(events[i + 1..], rest));
    }
  }

  method PutCommandBytes(buf: array<uint8>, off: nat, c: Command, ghost rest: Data) returns (next: nat)
    requires off + 44 <= buf.Length
    modifies buf
    ensures next == off + 44 && buf[..next] + rest == old(buf[..off]) + PutCommand(c, rest)
  {
    ghost var s8 := LE(8, ToUnsigned(c.newLeaves)) + rest;
    ghost var s7 := LE(8, ToUnsigned(c.newPrice)) + s8;
    ghost var s6 := LE(8, ToUnsigned(c.quantity)) + s7;
    ghost var s5 := LE(8, ToUnsigned(c.price)) + s6;
    ghost var s4 := [c.tif] + s5;
    ghost var s3 := [c.orderType] + s4;
    ghost var s2 := [c.side] + s3;
    next := PutByte(buf, off, c.kind, LE(8, c.orderId) + s2);
    next := PutLE(buf, next, 8, c.orderId, s2);
    next := PutByte(buf, next, c.side, s3);
    next := PutByte(buf, next, c.orderType, s4);
    next := PutByte(buf, next, c.tif, s5);
    next := PutLE(buf, next, 8, ToUnsigned(c.price), s6);
    next := PutLE(buf, next, 8, ToUnsigned(c.quantity), s7);
    next := PutLE(buf, next, 8, ToUnsigned(c.newPrice), s8);
    next := PutLE(buf, next, 8, ToUnsigned(c.newLeaves), rest);
  }

  method EncodePayload(buf: array<uint8>, off: nat, rec: Record) returns (next: nat)
    requires Encodable(rec) && off + PayloadSize(rec) <= buf.Length
    modifies buf
    ensures next == off + PayloadSize(rec) && buf[..next] == old(buf[..off]) + PutPayload(rec, [])
  {
    var c, events := rec.command, rec.result.events;
    ghost var s4 := PutEvents(events, []);
    ghost var s3 := LE(4, |events|) + s4;
    ghost var s2 := LE(8, rec.result.sequence) + s3;
    ghost var s1 := PutCommand(c, s2);
    next := PutLE(buf, off, 2, |c.symbol|, c.symbol + s1);
    next := PutSymbol(buf, next, c.symbol, s1);
    next := PutCommandBytes(buf, next, c, s2);
    next := PutLE(buf, next, 8, rec.result.sequence, s3);
    next := PutLE(buf, next, 4, |events|, s4);
    next := PutEventsBytes(buf, next, events, []);
    assert buf[..next] + [] == buf[..next];
  }

  method EncodeHeader(buf: array<uint8>, off: nat, rec: Record) returns (next: nat)
    requires Encodable(rec) && off + HEADER_LEN <= buf.Length
    modifies buf
    ensures next == off + HEADER_LEN && buf[..next] == old(buf[..off]) + Header(rec)
  {
    ghost var t6 := LE(8, rec.sequence);
    ghost var t5 := LE(2, 0) + t6;
    ghost var t4 := LE(2, rec.shardId) + t5;
    ghost var t3 := HeaderTail(rec);
    ghost var t2 := [RECORD_TYPE_EXEC] + ([0] + t3);
    next := PutLE(buf, off, 4, RECORD_MAGIC, LE(2, SCHEMA_VERSION) + t2);
    next := PutLE(buf, next, 2, SCHEMA_VERSION, t2);
    next := PutByte(buf, next, RECORD_TYPE_EXEC, [0] + t3);
    next := PutByte(buf, next, 0, t3);
    next := PutLE(buf, next, 4, PayloadSize(rec), t4);
    next := PutLE(buf, next, 2, rec.shardId, t5);
    next := PutLE(buf, next, 2, 0, t6);
    assert t6 + [] == t6;
    next := PutLE(buf, next, 8, rec.sequence, []);
    assert buf[..next] + [] == buf[..next];
  }

  method EncodeBody(buf: array<uint8>, used: nat, rec: Record) returns (n: nat)
    requires Encodable(rec) && used + HEADER_LEN + PayloadSize(rec) <= buf.Length
    modifies buf
    ensures n == used + HEADER_LEN + PayloadSize(rec) && buf[..n] == old(buf[..used]) + Body(rec)
  {
    hide Header, PutPayload;
    n := EncodeHeader(buf, used, rec);
    n := EncodePayload(buf, n, rec);
    assert (old(buf[..used]) + Header(rec)) + PutPayload(rec, []) == old(buf[..used]) + Body(rec);
  }

  /** Adds the checksum of the bytes from used to end. */
  method Seal(crc: Checksum, buf: array<uint8>, used: nat, end: nat, ghost body: Data) returns (n: nat)
    requires used <= end && end + 4 <= buf.Length && buf[..end] == buf[..used] + body
    modifies buf
    ensures n <= buf.Length && buf[..n] == old(buf[..used]) + (body + LE(4, crc(body)))
  {
    ghost var before := buf[..used];
    assert (before + body)[used..] == body && buf[used..end] == buf[..end][used..];
    var sum := crc(buf[used..end]);
    n := PutLE(buf, end, 4, sum, []);
    assert buf[..n] + [] == buf[..n] && LE(4, sum) + [] == LE(4, sum);
    assert (before + body) + LE(4, sum) == before + (body + LE(4, sum));
  }

  /** Writes a whole frame behind the first used bytes. */
  method EncodeFrame(crc: Checksum, buf: array<uint8>, used: nat, rec: Record) returns (n: nat)
    requires Encodable(rec) && used + HEADER_LEN + PayloadSize(rec) + 4 <= buf.Length
    modifies buf
    ensures n <= buf.Length && buf[..n] == old(buf[..used]) + Frame(crc, rec)
  {
    ghost var before, body := buf[..used], Body(rec);
    n := EncodeBody(buf, used, rec);
    assert buf[..used] == buf[..n][..used] && (before + body)[..used] == before;
    n := Seal(crc, buf, used, n, body);
  }

  /** A buffer with room for more bytes and the same used part: the old one if it is large enough. */
  method Reserve(dst: array<uint8>, used: nat, more: nat) returns (out: array<uint8>)
    requires used <= dst.Length
    ensures used + more <= out.Length && (out == dst || fresh(out)) && out[..used] == dst[..used]
  {
    if dst.Length - used >= more {
      return dst;
    }
    out := new uint8[used + more](_ => 0);
    for i := 0 to used
      invariant out[..i] == dst[..i]
    {
      out[i] := dst[i];
    }
  }

  /** Appends a record to the first used bytes of a buffer, in place if there is room and in a
      larger copy if not. The bytes already there stay; the bytes that lay behind them, whatever
      an earlier batch left there, do not matter. */
  method AppendEncodedRecord(crc: Checksum, dst: array<uint8>, used: nat, rec: Record)
    returns (ok: bool, out: array<uint8>, n: nat)
    requires used <= dst.Length
    modifies dst
    ensures ok == Encodable(rec)
    ensures !ok ==> out == dst && n == used && dst[..] == old(dst[..])
    ensures ok ==> (out == dst || fresh(out)) && n <= out.Length
    ensures ok ==> out[..n] == old(dst[..used]) + Frame(crc, rec)
  {
    if !Encodable(rec) {
      return false, dst, used;
    }
    out := Reserve(dst, used, HEADER_LEN + PayloadSize(rec) + 4);
    n := EncodeFrame(crc, out, used, rec);
    ok := true;
  }

  /** Decodes consecutive chunks by moving an offset over the payload. */
  method DecodeMany<T(!new)>(get: ChunkDecoder<T>, payload: Data, start: nat, count: nat) returns (out: seq<T>)
    requires Decodes(get) && start <= |payload| && |payload| - start == EVENT_LEN * count
    ensures out == GetMany(get, payload[start..], count)
  {
    out := [];
    var offset := start;
    for i := 0 to count
      invariant offset == start + EVENT_LEN * i
      invariant out + GetMany(get, payload[offset..], count - i) == GetMany(get, payload[start..], count)
    {
      ghost var s := payload[offset..];
      assert s[EVENT_LEN..] == payload[offset + EVENT_LEN..];
      ghost var more := GetMany(get, s[EVENT_LEN..], count - i - 1);
      assert out + ([get(s)] + more) == (out + [get(s)]) + more;
      out := out + [get(payload[offset..])];
      offset := offset + EVENT_LEN;
    }
  }

  /** The payload of a record: length checks first, then fields in order, then the events. */
  method DecodePayload(sequence: uint64, payload: Data) returns (p: Payload)
    ensures p == GetPayload(sequence, payload)
  {
    if |payload| < 2 {
      return PayloadEof;
    }
    var symbolLen := Read16(payload);
    if |payload| < PAYLOAD_FIXED + symbolLen {
      return PayloadEof;
    }
    var s := payload[2..];
    var (command, rest) := GetCommand(sequence, s[..symbolLen], s[symbolLen..]);
    var resultSeq := Read64(rest);
    var count := Read32(rest[8..]);
    var events := rest[8..][4..];
    if EVENT_LEN * count > |events| {
      return PayloadEof;
    }
    if EVENT_LEN * count < |events| {
      return PayloadBad;
    }
    var decoded := DecodeMany(GetEvent, events, 0, count);
    assert events[0..] == events;
    p := Payload(command, Result(resultSeq, decoded));
  }
}
