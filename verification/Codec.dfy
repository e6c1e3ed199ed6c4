/** The write-ahead log record format (internal/journal/codec.go). The checksum is a
    parameter: nothing here depends on which function of the bytes it is. */
module Codec {
  import opened Model
  import opened Bytes

  const SEGMENT_MAGIC: uint32 := 0x53474C57
  const RECORD_MAGIC: uint32 := 0x52434C57
  const SCHEMA_VERSION: uint16 := 1
  const RECORD_TYPE_EXEC: uint8 := 1
  const HEADER_LEN := 24
  const PAYLOAD_FIXED := 58
  const EVENT_LEN := 69

  type Checksum = Data -> uint32

  datatype Record = Record(shardId: uint16, sequence: uint64, command: Command, result: Result)

  // ---- Encoding: each part is put in front of the bytes that follow it ----

  function PutEvent(e: Event, rest: Data): Data {
    [e.kind] + (LE(2, e.reason) + (LE(8, e.orderId) + (LE(8, e.makerId) + (LE(8, e.takerId) + (LE(8, e.tradeId)
    + (LE(8, ToUnsigned(e.price)) + (LE(8, ToUnsigned(e.quantity)) + (LE(8, ToUnsigned(e.leaves))
    + (LE(8, ToUnsigned(e.canceled)) + ([e.cancelReason] + ([if e.priorityRetained then 1 else 0] + rest)))))))))))
  }

  /** Items one after the other, each put in front of the next. */
  function PutMany<T>(put: (T, Data) -> Data, items: seq<T>, rest: Data): Data {
    if items == [] then rest else put(items[0], PutMany(put, items[1..], rest))
  }

  function PutEvents(events: seq<Event>, rest: Data): Data {
    PutMany(PutEvent, events, rest)
  }

  function PutCommand(c: Command, rest: Data): Data {
    [c.kind] + (LE(8, c.orderId) + ([c.side] + ([c.orderType] + ([c.tif] + (LE(8, ToUnsigned(c.price))
    + (LE(8, ToUnsigned(c.quantity)) + (LE(8, ToUnsigned(c.newPrice)) + (LE(8, ToUnsigned(c.newLeaves)) + rest))))))))
  }

  function PutPayload(rec: Record, rest: Data): Data
    requires Encodable(rec)
  {
    LE(2, |rec.command.symbol|) + (rec.command.symbol + PutCommand(rec.command,
    LE(8, rec.result.sequence) + (LE(4, |rec.result.events|) + PutEvents(rec.result.events, rest))))
  }

  function PayloadSize(rec: Record): nat {
    PAYLOAD_FIXED + |rec.command.symbol| + EVENT_LEN * |rec.result.events|
  }

  /** The length fields can hold the sizes. */
  predicate Encodable(rec: Record) {
    |rec.command.symbol| <= 0xffff && PayloadSize(rec) <= 0xffff_ffff
  }

  function HeaderOf(magic: uint32, version: uint16, kind: uint8, tail: Data): Data {
    LE(4, magic) + (LE(2, version) + ([kind] + ([0] + tail)))
  }

  function HeaderTail(rec: Record): Data
    requires Encodable(rec)
  {
    LE(4, PayloadSize(rec)) + (LE(2, rec.shardId) + (LE(2, 0) + LE(8, rec.sequence)))
  }

  function Header(rec: Record): Data
    requires Encodable(rec)
  {
    HeaderOf(RECORD_MAGIC, SCHEMA_VERSION, RECORD_TYPE_EXEC, HeaderTail(rec))
  }

  function Body(rec: Record): Data
    requires Encodable(rec)
  {
    Header(rec) + PutPayload(rec, [])
  }

  /** A complete record: header, payload, checksum of both. */
  function Frame(crc: Checksum, rec: Record): Data
    requires Encodable(rec)
  {
    Body(rec) + LE(4, crc(Body(rec)))
  }

  /** Every item takes the size of an event. */
  ghost predicate Sized<T(!new)>(put: (T, Data) -> Data) {
    forall x, rest :: |put(x, rest)| == EVENT_LEN + |rest|
  }

  lemma {:induction false} PutManyLength<T(!new)>(put: (T, Data) -> Data, items: seq<T>, rest: Data)
    requires Sized(put)
    ensures |PutMany(put, items, rest)| == EVENT_LEN * |items| + |rest|
  {
    if items != [] {
      PutManyLength(put, items[1..], rest);
    }
  }

  lemma PutEventsLength(events: seq<Event>, rest: Data)
    ensures |PutEvents(events, rest)| == EVENT_LEN * |events| + |rest|
  {
    PutManyLength(PutEvent, events, rest);
  }

  lemma PutPayloadLength(rec: Record, rest: Data)
    requires Encodable(rec)
    ensures |PutPayload(rec, rest)| == PayloadSize(rec) + |rest|
  {
    PutEventsLength(rec.result.events, rest);
  }

  lemma FrameLength(crc: Checksum, rec: Record)
    requires Encodable(rec)
    ensures |Header(rec)| == HEADER_LEN && |Body(rec)| == HEADER_LEN + PayloadSize(rec)
    ensures |Frame(crc, rec)| == HEADER_LEN + PayloadSize(rec) + 4
  {
    PutPayloadLength(rec, []);
  }

  // ---- Decoding ----

  datatype Decoded = Decoded(record: Record, consumed: nat) | Eof | Bad

  function GetEvent(s: Data): Event
    requires |s| >= EVENT_LEN
  {
    var kind, s := Read8(s), s[1..];
    var reason, s := Read16(s), s[2..];
    var orderId, s := Read64(s), s[8..];
    var makerId, s := Read64(s), s[8..];
    var takerId, s := Read64(s), s[8..];
    var tradeId, s := Read64(s), s[8..];
    var price, s := Read64(s), s[8..];
    var quantity, s := Read64(s), s[8..];
    var leaves, s := Read64(s), s[8..];
    var canceled, s := Read64(s), s[8..];
    var cancelReason, s := Read8(s), s[1..];
    var retained := Read8(s);
    Event(kind, reason, orderId, makerId, takerId, tradeId, ToSigned(price), ToSigned(quantity), ToSigned(leaves),
          ToSigned(canceled), cancelReason, retained == 1)
  }

  /** A decoder of one event-sized chunk. */
  type ChunkDecoder<T> = Data --> T

  ghost predicate Decodes<T(!new)>(get: ChunkDecoder<T>) {
    forall s :: |s| >= EVENT_LEN ==> get.requires(s)
  }

  /** Consecutive event-sized chunks, each decoded by the same function. */
  function GetMany<T(!new)>(get: ChunkDecoder<T>, s: Data, n: nat): (r: seq<T>)
    requires Decodes(get) && |s| == EVENT_LEN * n
    ensures |r| == n
    decreases n
  {
    if n == 0 then [] else [get(s)] + GetMany(get, s[EVENT_LEN..], n - 1)
  }

  function GetEvents(s: Data, n: nat): (r: seq<Event>)
    requires |s| == EVENT_LEN * n
  {
    GetMany(GetEvent, s, n)
  }

  function GetCommand(sequence: uint64, symbol: Symbol, s: Data): (r: (Command, Data))
    requires |s| >= 44
    ensures |r.1| == |s| - 44
  {
    var kind, s := Read8(s), s[1..];
    var orderId, s := Read64(s), s[8..];
    var side, s := Read8(s), s[1..];
    var orderType, s := Read8(s), s[1..];
    var tif, s := Read8(s), s[1..];
    var price, s := Read64(s), s[8..];
    var quantity, s := Read64(s), s[8..];
    var newPrice, s := Read64(s), s[8..];
    var newLeaves, s := Read64(s), s[8..];
    (Command(sequence, symbol, kind, orderId, side, orderType, tif, ToSigned(price), ToSigned(quantity),
             ToSigned(newPrice), ToSigned(newLeaves)), s)
  }

  datatype Payload = Payload(command: Command, result: Result) | PayloadEof | PayloadBad

  /** The command takes its sequence number from the record header. */
  function GetPayload(sequence: uint64, s: Data): Payload {
    if |s| < 2 then PayloadEof
    else
      var n := Read16(s);
      if |s| < PAYLOAD_FIXED + n then PayloadEof
      else
        var s := s[2..];
        var (command, s) := GetCommand(sequence, s[..n], s[n..]);
        var resultSeq, s := Read64(s), s[8..];
        var count, s := Read32(s), s[4..];
        if EVENT_LEN * count > |s| then PayloadEof
        else if EVENT_LEN * count < |s| then PayloadBad
        else Payload(command, Result(resultSeq, GetEvents(s, count)))
  }

  type PayloadDecoder = (uint64, Data) -> Payload

  /** The framing around the payload, whatever decodes the payload itself. */
  function DecodeFrame(crc: Checksum, get: PayloadDecoder, data: Data): (d: Decoded)
    ensures d.Decoded? ==> HEADER_LEN + 4 <= d.consumed <= |data|
  {
    if |data| < HEADER_LEN then Eof
    else if Read32(data) != RECORD_MAGIC then Bad
    else if Read16(data[4..]) != SCHEMA_VERSION then Bad
    else if data[6] != RECORD_TYPE_EXEC then Bad
    else
      var payloadLen := Read32(data[8..]);
      var required := HEADER_LEN + payloadLen + 4;
      if required > |data| then Eof
      else if crc(data[..required - 4]) != Read32(data[required - 4..]) then Bad
      else
        var sequence := Read64(data[16..]);
        match get(sequence, data[HEADER_LEN..required - 4])
        case Payload(command, result) => Decoded(Record(Read16(data[12..]), sequence, command, result), required)
        case PayloadEof => Eof
        case PayloadBad => Bad
  }

  function DecodeRecord(crc: Checksum, data: Data): (d: Decoded)
    ensures d.Decoded? ==> HEADER_LEN + 4 <= d.consumed <= |data|
  {
    DecodeFrame(crc, GetPayload, data)
  }

  // ---- Round trip ----

  lemma Skip8(b: uint8, rest: Data)
    ensures Read8([b] + rest) == b && ([b] + rest)[1..] == rest
  {
  }

  lemma EventRoundTrip(e: Event, rest: Data)
    ensures |PutEvent(e, rest)| == EVENT_LEN + |rest|
    ensures GetEvent(PutEvent(e, rest)) == e && PutEvent(e, rest)[EVENT_LEN..] == rest
  {
    var flag: uint8 := if e.priorityRetained then 1 else 0;
    var s11 := [flag] + rest;
    var s10 := [e.cancelReason] + s11;
    var s9 := LE(8, ToUnsigned(e.canceled)) + s10;
    var s8 := LE(8, ToUnsigned(e.leaves)) + s9;
    var s7 := LE(8, ToUnsigned(e.quantity)) + s8;
    var s6 := LE(8, ToUnsigned(e.price)) + s7;
    var s5 := LE(8, e.tradeId) + s6;
    var s4 := LE(8, e.takerId) + s5;
    var s3 := LE(8, e.makerId) + s4;
    var s2 := LE(8, e.orderId) + s3;
    var s1 := LE(2, e.reason) + s2;
    Skip8(e.kind, s1);
    Read16LE(e.reason, s2);
    Read64LE(e.orderId, s3);
    Read64LE(e.makerId, s4);
    Read64LE(e.takerId, s5);
    Read64LE(e.tradeId, s6);
    Read64LE(ToUnsigned(e.price), s7);
    Read64LE(ToUnsigned(e.quantity), s8);
    Read64LE(ToUnsigned(e.leaves), s9);
    Read64LE(ToUnsigned(e.canceled), s10);
    Skip8(e.cancelReason, s11);
    Skip8(flag, rest);
  }

  /** The decoder undoes the encoder of one item and leaves what follows. */
  ghost predicate Inverse<T(!new)>(put: (T, Data) -> Data, get: ChunkDecoder<T>)
    requires Sized(put) && Decodes(get)
  {
    forall x, rest :: get(put(x, rest)) == x && put(x, rest)[EVENT_LEN..] == rest
  }

  lemma {:induction false} ManyRoundTrip<T(!new)>(put: (T, Data) -> Data, get: ChunkDecoder<T>, items: seq<T>)
    requires Sized(put) && Decodes(get) && Inverse(put, get)
    ensures |PutMany(put, items, [])| == EVENT_LEN * |items| && GetMany(get, PutMany(put, items, []), |items|) == items
  {
    PutManyLength(put, items, []);
    if items != [] {
      ManyRoundTrip(put, get, items[1..]);
      var rest := PutMany(put, items[1..], []);
      assert get(put(items[0], rest)) == items[0];
    }
  }

  lemma EventsRoundTrip(events: seq<Event>)
    ensures |PutEvents(events, [])| == EVENT_LEN * |events| && GetEvents(PutEvents(events, []), |events|) == events
  {
    forall e, rest ensures GetEvent(PutEvent(e, rest)) == e && PutEvent(e, rest)[EVENT_LEN..] == rest {
      EventRoundTrip(e, rest);
    }
    ManyRoundTrip(PutEvent, GetEvent, events);
  }

  lemma CommandRoundTrip(c: Command, rest: Data)
    ensures |PutCommand(c, rest)| == 44 + |rest|
    ensures GetCommand(c.sequence, c.symbol, PutCommand(c, rest)) == (c, rest)
  {
    var s8 := LE(8, ToUnsigned(c.newLeaves)) + rest;
    var s7 := LE(8, ToUnsigned(c.newPrice)) + s8;
    var s6 := LE(8, ToUnsigned(c.quantity)) + s7;
    var s5 := LE(8, ToUnsigned(c.price)) + s6;
    var s4 := [c.tif] + s5;
    var s3 := [c.orderType] + s4;
    var s2 := [c.side] + s3;
    var s1 := LE(8, c.orderId) + s2;
    Skip8(c.kind, s1);
    Read64LE(c.orderId, s2);
    Skip8(c.side, s3);
    Skip8(c.orderType, s4);
    Skip8(c.tif, s5);
    Read64LE(ToUnsigned(c.price), s6);
    Read64LE(ToUnsigned(c.quantity), s7);
    Read64LE(ToUnsigned(c.newPrice), s8);
    Read64LE(ToUnsigned(c.newLeaves), rest);
  }

  lemma PayloadRoundTrip(rec: Record)
    requires Encodable(rec) && rec.sequence == rec.command.sequence
    ensures GetPayload(rec.sequence, PutPayload(rec, [])) == Payload(rec.command, rec.result)
  {
    var c, events := rec.command, rec.result.events;
    var s4 := PutEvents(events, []);
    var s3 := LE(4, |events|) + s4;
    var s2 := LE(8, rec.result.sequence) + s3;
    var s1 := PutCommand(c, s2);
    PutPayloadLength(rec, []);
    Read16LE(|c.symbol|, c.symbol + s1);
    assert (c.symbol + s1)[..|c.symbol|] == c.symbol && (c.symbol + s1)[|c.symbol|..] == s1;
    CommandRoundTrip(c, s2);
    Read64LE(rec.result.sequence, s3);
    Read32LE(|events|, s4);
    EventsRoundTrip(events);
  }

  lemma HeaderParts(magic: uint32, version: uint16, kind: uint8, tail: Data, rest: Data)
    ensures var data := HeaderOf(magic, version, kind, tail) + rest;
            && |data| == 8 + |tail| + |rest| && data[8..] == tail + rest
            && Read32(data) == magic && Read16(data[4..]) == version && data[6] == kind
  {
    var data := HeaderOf(magic, version, kind, tail) + rest;
    var t2 := [kind] + ([0] + tail);
    var t1 := LE(2, version) + t2;
    assert data == LE(4, magic) + (t1 + rest);
    assert data[4..] == LE(2, version) + (t2 + rest);
    Read32LE(magic, t1 + rest);
    Read16LE(version, t2 + rest);
  }

  lemma HeaderTailFields(rec: Record, rest: Data)
    requires Encodable(rec)
    ensures var tail := HeaderTail(rec) + rest;
            && |HeaderTail(rec)| == 16
            && Read32(tail) == PayloadSize(rec) && Read16(tail[4..]) == rec.shardId && Read64(tail[8..]) == rec.sequence
  {
    var tail := HeaderTail(rec) + rest;
    var t5 := LE(2, 0) + LE(8, rec.sequence);
    var t4 := LE(2, rec.shardId) + t5;
    assert tail == LE(4, PayloadSize(rec)) + (t4 + rest);
    assert tail[4..] == LE(2, rec.shardId) + (t5 + rest);
    assert tail[8..] == LE(8, rec.sequence) + rest;
    Read32LE(PayloadSize(rec), t4 + rest);
    Read16LE(rec.shardId, t5 + rest);
    Read64LE(rec.sequence, rest);
  }

  /** The header fields, wherever the header is followed by anything. */
  lemma HeaderFields(rec: Record, rest: Data)
    requires Encodable(rec)
    ensures var data := Header(rec) + rest;
            && |Header(rec)| == HEADER_LEN
            && Read32(data) == RECORD_MAGIC && Read16(data[4..]) == SCHEMA_VERSION && data[6] == RECORD_TYPE_EXEC
            && Read32(data[8..]) == PayloadSize(rec) && Read16(data[12..]) == rec.shardId
            && Read64(data[16..]) == rec.sequence
  {
    var data := Header(rec) + rest;
    HeaderParts(RECORD_MAGIC, SCHEMA_VERSION, RECORD_TYPE_EXEC, HeaderTail(rec), rest);
    HeaderTailFields(rec, rest);
    assert data[12..] == data[8..][4..] && data[16..] == data[8..][8..];
  }

  lemma Slices(header: Data, payload: Data, sum: Data, rest: Data)
    ensures var data := (header + payload) + sum + rest;
            && data == header + (payload + (sum + rest))
            && data[..|header| + |payload|] == header + payload
            && data[|header| + |payload|..] == sum + rest
            && data[|header|..|header| + |payload|] == payload
  {
  }

  /** A header, a payload of the announced size and the right checksum decode, whatever follows. */
  lemma FrameDecodes(crc: Checksum, get: PayloadDecoder, rec: Record, payload: Data, rest: Data)
    requires Encodable(rec) && |payload| == PayloadSize(rec)
    requires get(rec.sequence, payload) == Payload(rec.command, rec.result)
    ensures var body := Header(rec) + payload;
            DecodeFrame(crc, get, body + LE(4, crc(body)) + rest) == Decoded(rec, |body| + 4)
  {
    hide Header, LE, PayloadSize;
    var header := Header(rec);
    var body := header + payload;
    var sum := LE(4, crc(body));
    Slices(header, payload, sum, rest);
    HeaderFields(rec, payload + (sum + rest));
    Read32LE(crc(body), rest);
  }

  /** Decoding an encoded record gives it back and consumes exactly its frame, whatever follows. */
  lemma RecordRoundTrip(crc: Checksum, rec: Record, rest: Data)
    requires Encodable(rec) && rec.sequence == rec.command.sequence
    ensures DecodeRecord(crc, Frame(crc, rec) + rest) == Decoded(rec, |Frame(crc, rec)|)
  {
    PayloadRoundTrip(rec);
    RoundTripWith(crc, GetPayload, rec, rest);
  }

  lemma RoundTripWith(crc: Checksum, get: PayloadDecoder, rec: Record, rest: Data)
    requires Encodable(rec) && get(rec.sequence, PutPayload(rec, [])) == Payload(rec.command, rec.result)
    ensures DecodeFrame(crc, get, Frame(crc, rec) + rest) == Decoded(rec, |Frame(crc, rec)|)
  {
    PutPayloadLength(rec, []);
    FrameDecodes(crc, get, rec, PutPayload(rec, []), rest);
  }

  /** A frame cut short anywhere reads as an unexpected end of data, never as damage. */
  lemma TornFrame(crc: Checksum, rec: Record, k: nat)
    requires Encodable(rec) && k < |Frame(crc, rec)|
    ensures DecodeRecord(crc, Frame(crc, rec)[..k]) == Eof
  {
    FrameLength(crc, rec);
    if k >= HEADER_LEN {
      var rest := Frame(crc, rec)[..k][HEADER_LEN..];
      assert Frame(crc, rec)[..k] == Header(rec) + rest;
      HeaderFields(rec, rest);
    }
  }
}
