/** Where each field of a record stands, counted from the first byte of its frame (internal/journal/codec.go). */
module Layout {
  import opened Model
  import opened Bytes
  import opened Codec

  /** Two bytes, four bytes, eight bytes at an offset. */
  ghost predicate Has16(s: Data, at: nat, v: uint16) {
    at + 2 <= |s| && Read16(s[at..]) == v
  }

  ghost predicate Has32(s: Data, at: nat, v: uint32) {
    at + 4 <= |s| && Read32(s[at..]) == v
  }

  ghost predicate Has64(s: Data, at: nat, v: uint64) {
    at + 8 <= |s| && Read64(s[at..]) == v
  }

  ghost predicate Has8(s: Data, at: nat, v: uint8) {
    at < |s| && s[at] == v
  }

  lemma LowestFirst(s: Data)
    requires s != []
    ensures FromLE(s) == s[0] + 256 * FromLE(s[1..]) && FromLE([]) == 0
  {
  }

  /** Numbers are little-endian. */
  lemma LittleEndian(s: Data)
    ensures |s| >= 2 ==> Read16(s) == s[0] as int + 0x100 * (s[1] as int)
    ensures |s| >= 4 ==> Read32(s) == s[0] as int + 0x100 * (s[1] as int) + 0x1_0000 * (s[2] as int) + 0x100_0000 * (s[3] as int)
    ensures |s| >= 8 ==> Read64(s) == Read32(s) + 0x1_0000_0000 * Read32(s[4..])
  {
    hide FromLE;
    if |s| >= 2 {
      Prefix(s, 2);
    }
    if |s| >= 4 {
      Prefix(s, 4);
    }
    if |s| >= 8 {
      Prefix(s, 8);
      Prefix(s[4..], 4);
      assert s[4..][..4] == s[..8][4..];
    }
  }

  lemma Prefix(s: Data, n: nat)
    requires n <= |s| && (n == 2 || n == 4 || n == 8)
    ensures n == 2 ==> FromLE(s[..2]) == s[0] as int + 0x100 * (s[1] as int)
    ensures n >= 4 ==>
              FromLE(s[..n]) == s[0] as int + 0x100 * (s[1] as int) + 0x1_0000 * (s[2] as int) + 0x100_0000 * (s[3] as int)
                                + 0x1_0000_0000 * FromLE(s[..n][4..])
    ensures n == 4 ==> FromLE(s[..4][4..]) == 0
  {
    hide FromLE;
    var p := s[..n];
    LowestFirst(p);
    LowestFirst(p[1..]);
    assert p[1..][1..] == p[2..];
    if n >= 4 {
      LowestFirst(p[2..]);
      LowestFirst(p[3..]);
      assert p[2..][1..] == p[3..] && p[3..][1..] == p[4..];
    }
    assert n == 2 ==> p[2..] == [];
    assert n == 4 ==> p[4..] == [];
  }

  ghost predicate EventAt(s: Data, at: nat, e: Event) {
    && Has8(s, at, e.kind) && Has16(s, at + 1, e.reason) && Has64(s, at + 3, e.orderId) && Has64(s, at + 11, e.makerId)
    && Has64(s, at + 19, e.takerId) && Has64(s, at + 27, e.tradeId) && Has64(s, at + 35, ToUnsigned(e.price))
    && Has64(s, at + 43, ToUnsigned(e.quantity)) && Has64(s, at + 51, ToUnsigned(e.leaves))
    && Has64(s, at + 59, ToUnsigned(e.canceled)) && Has8(s, at + 67, e.cancelReason)
    && Has8(s, at + 68, if e.priorityRetained then 1 else 0)
  }

  ghost predicate CommandAt(s: Data, at: nat, c: Command) {
    && Has8(s, at, c.kind) && Has64(s, at + 1, c.orderId) && Has8(s, at + 9, c.side) && Has8(s, at + 10, c.orderType)
    && Has8(s, at + 11, c.tif) && Has64(s, at + 12, ToUnsigned(c.price)) && Has64(s, at + 20, ToUnsigned(c.quantity))
    && Has64(s, at + 28, ToUnsigned(c.newPrice)) && Has64(s, at + 36, ToUnsigned(c.newLeaves))
  }

  lemma Field64(s: Data, at: nat, v: uint64, rest: Data)
    requires at <= |s| && s[at..] == LE(8, v) + rest
    ensures Has64(s, at, v) && s[at + 8..] == rest
  {
    Read64LE(v, rest);
    assert s[at + 8..] == s[at..][8..];
  }

  lemma Field32(s: Data, at: nat, v: uint32, rest: Data)
    requires at <= |s| && s[at..] == LE(4, v) + rest
    ensures Has32(s, at, v) && s[at + 4..] == rest
  {
    Read32LE(v, rest);
    assert s[at + 4..] == s[at..][4..];
  }

  lemma Field16(s: Data, at: nat, v: uint16, rest: Data)
    requires at <= |s| && s[at..] == LE(2, v) + rest
    ensures Has16(s, at, v) && s[at + 2..] == rest
  {
    Read16LE(v, rest);
    assert s[at + 2..] == s[at..][2..];
  }

  lemma Field8(s: Data, at: nat, v: uint8, rest: Data)
    requires at <= |s| && s[at..] == [v] + rest
    ensures Has8(s, at, v) && s[at + 1..] == rest
  {
    assert s[at..][0] == v && s[at + 1..] == s[at..][1..];
  }

  lemma EventLayout(s: Data, at: nat, e: Event, rest: Data)
    requires at <= |s| && s[at..] == PutEvent(e, rest)
    ensures EventAt(s, at, e) && s[at + 69..] == rest
  {
    hide LE, Has8, Has16, Has64;
    var flag: uint8 := if e.priorityRetained then 1 else 0;
    var s11 := [flag] + rest;
    var s10 := [e.cancelReason] + s11;
    var s9 := LE(8, ToUnsigned(e.canceled)) + s10;
    var s8 := LE(8, ToUnsigned(e.leaves)) + s9;
    var s7 := LE(8, ToUnsigned(e.quantity)) + s8;
    var s6 := LE(8, ToUnsigned(e.price)) + s7;
    var s5 := LE(8, e.tradeId) + s6;
    var s4 := LE(8, e.takerId) + s5;
    var s3 := LE(8, e.makerId) + s4;
    var s2 := LE(8, e.orderId) + s3;
    Field8(s, at, e.kind, LE(2, e.reason) + s2);
    Field16(s, at + 1, e.reason, s2);
    Field64(s, at + 3, e.orderId, s3);
    Field64(s, at + 11, e.makerId, s4);
    Field64(s, at + 19, e.takerId, s5);
    Field64(s, at + 27, e.tradeId, s6);
    Field64(s, at + 35, ToUnsigned(e.price), s7);
    Field64(s, at + 43, ToUnsigned(e.quantity), s8);
    Field64(s, at + 51, ToUnsigned(e.leaves), s9);
    Field64(s, at + 59, ToUnsigned(e.canceled), s10);
    Field8(s, at + 67, e.cancelReason, s11);
    Field8(s, at + 68, flag, rest);
  }

  lemma CommandLayout(s: Data, at: nat, c: Command, rest: Data)
    requires at <= |s| && s[at..] == PutCommand(c, rest)
    ensures CommandAt(s, at, c) && s[at + 44..] == rest
  {
    hide LE, Has8, Has64;
    var s8 := LE(8, ToUnsigned(c.newLeaves)) + rest;
    var s7 := LE(8, ToUnsigned(c.newPrice)) + s8;
    var s6 := LE(8, ToUnsigned(c.quantity)) + s7;
    var s5 := LE(8, ToUnsigned(c.price)) + s6;
    var s4 := [c.tif] + s5;
    var s3 := [c.orderType] + s4;
    var s2 := [c.side] + s3;
    Field8(s, at, c.kind, LE(8, c.orderId) + s2);
    Field64(s, at + 1, c.orderId, s2);
    Field8(s, at + 9, c.side, s3);
    Field8(s, at + 10, c.orderType, s4);
    Field8(s, at + 11, c.tif, s5);
    Field64(s, at + 12, ToUnsigned(c.price), s6);
    Field64(s, at + 20, ToUnsigned(c.quantity), s7);
    Field64(s, at + 28, ToUnsigned(c.newPrice), s8);
    Field64(s, at + 36, ToUnsigned(c.newLeaves), rest);
  }

  lemma {:induction false} EventsLayout(s: Data, at: nat, events: seq<Event>, rest: Data)
    requires at <= |s| && s[at..] == PutEvents(events, rest)
    ensures forall i :: 0 <= i < |events| ==> EventAt(s, at + 69 * i, events[i])
    ensures at + 69 * |events| <= |s| && s[at + 69 * |events|..] == rest
    decreases |events|
  {
    hide EventAt, PutEvent;
    if events != [] {
      assert s[at..] == PutEvent(events[0], PutEvents(events[1..], rest));
      PutEventsLength(events, rest);
      EventLayout(s, at, events[0], PutEvents(events[1..], rest));
      EventsLayout(s, at + 69, events[1..], rest);
      forall i | 0 <= i < |events| ensures EventAt(s, at + 69 * i, events[i]) {
        if i > 0 {
          assert events[1..][i - 1] == events[i] && at + 69 + 69 * (i - 1) == at + 69 * i;
        }
      }
    }
  }

  /** The header of a frame. */
  ghost predicate HeaderAt(s: Data, rec: Record, size: nat) {
    && Has32(s, 0, 0x52434C57) && Has16(s, 4, 1) && Has8(s, 6, 1) && Has8(s, 7, 0) && size < 0x1_0000_0000 && Has32(s, 8, size)
    && Has16(s, 12, rec.shardId) && Has16(s, 14, 0) && Has64(s, 16, rec.sequence)
  }

  lemma HeaderLayout(s: Data, rec: Record, rest: Data)
    requires Encodable(rec) && s == Header(rec) + rest
    ensures HeaderAt(s, rec, PayloadSize(rec)) && s[24..] == rest
  {
    hide LE, Has8, Has16, Has32, Has64, PayloadSize;
    var t5 := LE(8, rec.sequence) + rest;
    var t4 := LE(2, 0) + t5;
    var t3 := LE(2, rec.shardId) + t4;
    var t2 := LE(4, PayloadSize(rec)) + t3;
    var t1 := [0] + t2;
    assert HeaderTail(rec) + rest == t2;
    var t0 := [1] + t1;
    assert s[0..] == LE(4, RECORD_MAGIC) + (LE(2, 1) + t0);
    Field32(s, 0, RECORD_MAGIC, LE(2, 1) + t0);
    Field16(s, 4, 1, t0);
    Field8(s, 6, 1, t1);
    Field8(s, 7, 0, t2);
    Field32(s, 8, PayloadSize(rec), t3);
    Field16(s, 12, rec.shardId, t4);
    Field16(s, 14, 0, t5);
    Field64(s, 16, rec.sequence, rest);
  }

  /** A frame, field by field: every number little-endian at its fixed offset, 69 bytes for every event, and at
      the end the checksum of everything before it. */
  lemma FrameLayout(crc: Checksum, rec: Record)
    requires Encodable(rec)
    ensures var f, n, events := Frame(crc, rec), |rec.command.symbol|, rec.result.events;
            && |f| == 86 + n + 69 * |events| && HeaderAt(f, rec, |f| - 28)
            && Has16(f, 24, n) && f[26..26 + n] == rec.command.symbol && CommandAt(f, 26 + n, rec.command)
            && Has64(f, 70 + n, rec.result.sequence) && Has32(f, 78 + n, |events|)
            && (forall i :: 0 <= i < |events| ==> EventAt(f, 82 + n + 69 * i, events[i]))
            && Has32(f, |f| - 4, crc(f[..|f| - 4]))
  {
    hide LE, Has8, Has16, Has32, Has64, HeaderAt, CommandAt, EventAt, PutCommand, Header, PutMany;
    var f, n, events, sum := Frame(crc, rec), |rec.command.symbol|, rec.result.events, LE(4, crc(Body(rec)));
    FrameLength(crc, rec);
    var payload := PutPayload(rec, sum);
    PayloadFollowed(rec, sum);
    assert f == Header(rec) + payload;
    HeaderLayout(f, rec, payload);
    var s3 := LE(8, rec.result.sequence) + (LE(4, |events|) + PutEvents(events, sum));
    var s2 := PutCommand(rec.command, s3);
    Field16(f, 24, n, rec.command.symbol + s2);
    assert f[26..26 + n] == f[26..][..n] && f[26 + n..] == f[26..][n..] == s2;
    CommandLayout(f, 26 + n, rec.command, s3);
    Field64(f, 70 + n, rec.result.sequence, LE(4, |events|) + PutEvents(events, sum));
    Field32(f, 78 + n, |events|, PutEvents(events, sum));
    EventsLayout(f, 82 + n, events, sum);
    assert f[|f| - 4..] == sum + [] && f[..|f| - 4] == Body(rec);
    Field32(f, |f| - 4, crc(Body(rec)), []);
  }

  /** Bytes that follow the payload may be put in place at once. */
  lemma PayloadFollowed(rec: Record, rest: Data)
    requires Encodable(rec)
    ensures PutPayload(rec, []) + rest == PutPayload(rec, rest)
  {
    hide LE, PutMany;
    var c, r := rec.command, rec.result;
    EventsFollowed(r.events, rest);
    var s1 := LE(8, r.sequence) + (LE(4, |r.events|) + PutEvents(r.events, []));
    var s2 := LE(8, r.sequence) + (LE(4, |r.events|) + PutEvents(r.events, rest));
    assert s1 + rest == s2;
    CommandFollowed(c, s1, rest);
    var head := LE(2, |c.symbol|);
    assert (head + (c.symbol + PutCommand(c, s1))) + rest == head + (c.symbol + (PutCommand(c, s1) + rest));
  }

  lemma CommandFollowed(c: Command, s: Data, rest: Data)
    ensures PutCommand(c, s) + rest == PutCommand(c, s + rest)
  {
    hide LE;
  }

  lemma EventFollowed(e: Event, s: Data, rest: Data)
    ensures PutEvent(e, s) + rest == PutEvent(e, s + rest)
  {
    hide LE;
  }

  lemma {:induction false} EventsFollowed(events: seq<Event>, rest: Data)
    ensures PutEvents(events, []) + rest == PutEvents(events, rest)
  {
    hide PutEvent;
    if events != [] {
      EventsFollowed(events[1..], rest);
      EventFollowed(events[0], PutEvents(events[1..], []), rest);
      assert PutEvents(events, []) == PutEvent(events[0], PutEvents(events[1..], []));
      assert PutEvents(events, rest) == PutEvent(events[0], PutEvents(events[1..], rest));
    } else {
      assert [] + rest == rest;
    }
  }
}
