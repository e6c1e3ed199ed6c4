/** Logs that are damaged and not only cut short: none of them is read as if it were healthy
    (internal/journal/codec.go, internal/journal/reader.go, internal/shard/engine.go). */
module Damage {
  import opened Model
  import opened Bytes
  import opened Codec
  import opened Reader
  import opened PriceTimeBook
  import opened Replay
  import opened Recovery
  import opened Engine
  import opened Registry
  import opened SnapshotOrder

  // ---- One record ----

  /** Four bytes are determined by the number that they hold. */
  lemma {:induction false} LEInverse(s: Data)
    ensures LE(|s|, FromLE(s)) == s
  {
    if s != [] {
      LEInverse(s[1..]);
      assert FromLE(s) % 256 == s[0] && FromLE(s) / 256 == FromLE(s[1..]);
    }
  }

  lemma Read32Differs(sum: Data, v: uint32, rest: Data)
    requires |sum| == 4 && sum != LE(4, v)
    ensures Read32(sum + rest) != v
  {
    LEInverse(sum);
    assert (sum + rest)[..4] == sum;
  }

  /** A whole frame whose last four bytes are not the checksum of what stands before them is damage, whatever
      its payload is and whatever follows. */
  lemma WrongChecksum(crc: Checksum, rec: Record, payload: Data, sum: Data, rest: Data)
    requires Encodable(rec) && |payload| == PayloadSize(rec) && |sum| == 4
    requires sum != LE(4, crc(Header(rec) + payload))
    ensures DecodeRecord(crc, Header(rec) + payload + sum + rest) == Bad
  {
    hide Header, LE, PayloadSize, GetPayload;
    var header := Header(rec);
    Slices(header, payload, sum, rest);
    HeaderFields(rec, payload + (sum + rest));
    Read32Differs(sum, crc(header + payload), rest);
  }

  /** A record behind any other checksum than its own, or a changed record behind the old checksum, unless the
      two checksums agree. */
  lemma WrongBytes(crc: Checksum, rec: Record, payload: Data, v: uint32, rest: Data)
    requires Encodable(rec)
    ensures v != crc(Body(rec)) ==> DecodeRecord(crc, Body(rec) + LE(4, v) + rest) == Bad
    ensures |payload| == PayloadSize(rec) && crc(Header(rec) + payload) != crc(Body(rec)) ==>
              DecodeRecord(crc, Header(rec) + payload + LE(4, crc(Body(rec))) + rest) == Bad
  {
    hide Header, PayloadSize, DecodeRecord, PutPayload;
    PutPayloadLength(rec, []);
    if v != crc(Body(rec)) {
      Read32LE(v, []);
      Read32LE(crc(Body(rec)), []);
      WrongChecksum(crc, rec, PutPayload(rec, []), LE(4, v), rest);
    }
    if |payload| == PayloadSize(rec) && crc(Header(rec) + payload) != crc(Body(rec)) {
      Read32LE(crc(Header(rec) + payload), []);
      Read32LE(crc(Body(rec)), []);
      WrongChecksum(crc, rec, payload, LE(4, crc(Body(rec))), rest);
    }
  }

  /** A header with another magic number, version or record type is damage. */
  lemma WrongHeader(crc: Checksum, magic: uint32, version: uint16, kind: uint8, tail: Data, rest: Data)
    requires |tail| == 16 && (magic != 0x52434C57 || version != 1 || kind != 1)
    ensures DecodeRecord(crc, HeaderOf(magic, version, kind, tail) + rest) == Bad
  {
    hide HeaderOf, GetPayload;
    HeaderParts(magic, version, kind, tail, rest);
  }

  /** A payload has exactly the bytes that its symbol and events take. */
  lemma PayloadExact(sequence: uint64, s: Data)
    ensures var p := GetPayload(sequence, s);
            p.Payload? ==>
              && |s| == 58 + |p.command.symbol| + 69 * |p.result.events|
              && |p.command.symbol| <= 0xffff && p.command.sequence == sequence
  {
    hide GetMany;
  }

  /** What is decoded could have been encoded, has exactly that length, and carries its checksum. */
  lemma DecodedIsIntact(crc: Checksum, s: Data)
    ensures var d := DecodeRecord(crc, s);
            d.Decoded? ==>
              && Good(d.record) && d.consumed == |Frame(crc, d.record)| <= |s|
              && Read32(s[d.consumed - 4..]) == crc(s[..d.consumed - 4])
  {
    hide GetPayload, PutPayload;
    var d := DecodeRecord(crc, s);
    if d.Decoded? {
      PayloadExact(Read64(s[16..]), s[HEADER_LEN..d.consumed - 4]);
      FrameLength(crc, d.record);
    }
  }

  // ---- Segments and shards ----

  /** Damage behind good records is never taken for the end of the data. */
  lemma {:induction false} DamagedFrames(w: Wire, shard: uint16, rs: seq<Record>, bad: Data, allowTail: bool)
    requires Faithful(w) && Loggable(shard, rs) && bad != [] && w.decode(bad) == Bad
    ensures ReadFrames(w, Frames(w, rs) + bad, shard, allowTail) == Failed
  {
    hide Faithful, Progress;
    if rs == [] {
      assert Frames(w, rs) + bad == bad;
    } else {
      assert Frames(w, rs) + bad == w.frame(rs[0]) + (Frames(w, rs[1..]) + bad);
      ReadOneMore(w, rs[0], Frames(w, rs[1..]) + bad, allowTail);
      DamagedFrames(w, shard, rs[1..], bad, allowTail);
    }
  }

  lemma DamagedSegment(w: Wire, h: SegmentHeader, rs: seq<Record>, bad: Data, validate: bool, allowTail: bool)
    requires Faithful(w) && HeaderFits(h) && Loggable(h.shardId, rs) && bad != [] && w.decode(bad) == Bad
    ensures ReadSegment(w, SegmentBytes(w, h, rs) + bad, h, validate, allowTail) == Failed
  {
    hide Progress, ReadFrames, Frames, Loggable;
    var rest := Frames(w, rs) + bad;
    assert SegmentBytes(w, h, rs) + bad == w.head(h) + rest;
    assert (w.head(h) + rest)[|w.head(h)|..] == rest;
    DamagedFrames(w, h.shardId, rs, bad, allowTail);
  }

  /** A shard is as bad as its worst segment. */
  lemma {:induction false} OneFailsAll(w: Wire, segments: seq<Data>, want: SegmentHeader, validate: bool, i: nat)
    requires Progress(w) && i < |segments|
    requires ReadSegment(w, segments[i], want, validate, true).Failed?
    requires i + 1 < |segments| ==> ReadSegment(w, segments[i], want, validate, false).Failed?
    ensures ReadShard(w, segments, want, validate).Failed?
    decreases |segments|
  {
    hide Progress, ReadSegment;
    if i > 0 {
      OneFailsAll(w, segments[1..], want, validate, i - 1);
    }
  }

  /** A segment with good records and then a record with a wrong checksum makes the whole shard unreadable,
      whatever the other segments hold, and also when it is the last one. */
  lemma DamagedShard(crc: Checksum, segments: seq<Data>, h: SegmentHeader, validate: bool, i: nat, rs: seq<Record>,
                     rec: Record, payload: Data, sum: Data, rest: Data)
    requires HeaderFits(h) && Loggable(h.shardId, rs) && i < |segments|
    requires Encodable(rec) && |payload| == PayloadSize(rec) && |sum| == 4 && sum != LE(4, crc(Header(rec) + payload))
    requires segments[i] == SegmentBytes(WalWire(crc), h, rs) + (Header(rec) + payload + sum + rest)
    ensures Progress(WalWire(crc)) && ReadShard(WalWire(crc), segments, h, validate) == Failed
  {
    hide Faithful, Progress, ReadShard, ReadSegment, SegmentBytes, Loggable, Header, PayloadSize, DecodeRecord;
    WalProgress(crc);
    WalIsFaithful(crc);
    WrongChecksum(crc, rec, payload, sum, rest);
    var bad := Header(rec) + payload + sum + rest;
    DamagedSegment(WalWire(crc), h, rs, bad, validate, true);
    DamagedSegment(WalWire(crc), h, rs, bad, validate, false);
    OneFailsAll(WalWire(crc), segments, h, validate, i);
  }

  /** A segment of another shard is refused, and, when an engine reads its own log, so is one of another
      engine or of another number of shards. */
  lemma ForeignSegment(w: Wire, segments: seq<Data>, want: SegmentHeader, validate: bool, i: nat, h: SegmentHeader, rest: Data)
    requires Faithful(w) && HeaderFits(h) && i < |segments| && segments[i] == w.head(h) + rest
    requires h.shardId != want.shardId || (validate && h != want)
    ensures ReadShard(w, segments, want, validate) == Failed
  {
    hide Progress, ReadShard, ReadFrames;
    OneFailsAll(w, segments, want, validate, i);
  }

  /** So is a record of another shard. */
  lemma ForeignRecord(w: Wire, shard: uint16, rs: seq<Record>, rec: Record, rest: Data, allowTail: bool)
    requires Faithful(w) && Loggable(shard, rs) && Good(rec) && rec.shardId != shard
    ensures ReadFrames(w, Frames(w, rs) + (w.frame(rec) + rest), shard, allowTail) == Failed
    decreases |rs|
  {
    hide Progress;
    FrameNotEmpty(w, rec);
    if rs == [] {
      assert Frames(w, rs) + (w.frame(rec) + rest) == w.frame(rec) + rest;
    } else {
      assert Frames(w, rs) + (w.frame(rec) + rest) == w.frame(rs[0]) + (Frames(w, rs[1..]) + (w.frame(rec) + rest));
      ReadOneMore(w, rs[0], Frames(w, rs[1..]) + (w.frame(rec) + rest), allowTail);
      ForeignRecord(w, shard, rs[1..], rec, rest, allowTail);
    }
  }

  // ---- Replay ----

  /** The records above the watermark and above all before them. */
  function Above(last: uint64, rs: seq<Record>): seq<Record> {
    if rs == [] then []
    else
      var n := |rs| - 1;
      Above(last, rs[..n]) + if Exceeds(last, rs[..n], rs[n]) then [rs[n]] else []
  }

  predicate Exceeds(last: uint64, before: seq<Record>, rec: Record) {
    rec.sequence > last && forall j :: 0 <= j < |before| ==> rec.sequence > before[j].sequence
  }

  lemma ExceedsCons(last: uint64, first: Record, before: seq<Record>, rec: Record)
    ensures Exceeds(last, [first] + before, rec) <==> rec.sequence > first.sequence && Exceeds(last, before, rec)
  {
    var all := [first] + before;
    assert all[0] == first && forall j :: 0 <= j < |before| ==> all[j + 1] == before[j];
  }

  lemma ExceedsMore(last: uint64, more: uint64, before: seq<Record>, rec: Record)
    requires last < more
    ensures rec.sequence > more && Exceeds(last, before, rec) <==> Exceeds(more, before, rec)
  {
  }

  lemma {:induction false} AboveCons(last: uint64, first: Record, rs: seq<Record>)
    ensures Above(last, [first] + rs) ==
            if first.sequence > last then [first] + Above(first.sequence, rs) else Above(last, rs)
    decreases |rs|
  {
    hide Exceeds;
    var all := [first] + rs;
    if rs == [] {
      assert all[..0] == [] && Exceeds(last, [], first) == (first.sequence > last) by { ExceedsNothing(last, first); }
    } else {
      var n := |rs| - 1;
      assert all[..n + 1] == [first] + rs[..n] && all[n + 1] == rs[n];
      AboveCons(last, first, rs[..n]);
      ExceedsCons(last, first, rs[..n], rs[n]);
      if first.sequence > last {
        ExceedsMore(last, first.sequence, rs[..n], rs[n]);
      } else {
        ExceedsLast(last, rs[..n], rs[n]);
      }
    }
  }

  lemma ExceedsNothing(last: uint64, rec: Record)
    ensures Exceeds(last, [], rec) <==> rec.sequence > last
  {
  }

  lemma ExceedsLast(last: uint64, before: seq<Record>, rec: Record)
    ensures Exceeds(last, before, rec) ==> rec.sequence > last
  {
  }

  lemma {:induction false} AdvancingIsAbove(last: uint64, rs: seq<Record>)
    ensures Advancing(last, rs) == Above(last, rs)
    decreases |rs|
  {
    if rs != [] {
      assert rs == [rs[0]] + rs[1..];
      AboveCons(last, rs[0], rs[1..]);
      AdvancingIsAbove(if rs[0].sequence <= last then last else rs[0].sequence, rs[1..]);
    }
  }

  function CommandsIn(rs: seq<Record>): (cs: seq<Command>)
    ensures |cs| == |rs|
  {
    if rs == [] then [] else [rs[0].command] + CommandsIn(rs[1..])
  }

  /** Every stored result is the one that applying the commands in turn gives. */
  ghost predicate Confirmed(books: Books, rs: seq<Record>) {
    && Routable(books, CommandsIn(rs))
    && forall i :: 0 <= i < |rs| ==> rs[i].result == RecordsOf(0, books, CommandsIn(rs))[i].result
  }

  lemma ConfirmedCons(books: Books, rs: seq<Record>)
    requires rs != []
    ensures var c := rs[0].command;
            Confirmed(books, rs) <==>
            c.symbol in books && rs[0].result == Apply(books[c.symbol], c).result && Confirmed(ApplyTo(books, c), rs[1..])
  {
    hide Apply;
    var c, cs := rs[0].command, CommandsIn(rs);
    assert cs == [c] + CommandsIn(rs[1..]);
    if c.symbol in books {
      assert Routable(books, cs) <==> Routable(ApplyTo(books, c), cs[1..]);
      if Routable(books, cs) {
        var all, rest := RecordsOf(0, books, cs), RecordsOf(0, ApplyTo(books, c), cs[1..]);
        assert all == [RecordOf(0, books, c)] + rest;
        assert Confirmed(books, rs) ==> forall i :: 0 <= i < |rs| - 1 ==> rs[1..][i] == rs[i + 1] && all[i + 1] == rest[i];
      }
    }
  }

  lemma {:induction false} RecoverConfirms(books: Books, last: uint64, rs: seq<Record>)
    ensures Recover(books, last, rs).Recovered? <==> Confirmed(books, Advancing(last, rs))
    ensures var kept := Advancing(last, rs);
            Confirmed(books, kept) ==>
              Recover(books, last, rs) ==
              Recovered(ReplayBooks(books, CommandsIn(kept)), if kept == [] then last else kept[|kept| - 1].sequence)
    decreases |rs|
  {
    hide Apply, Confirmed;
    var kept := Advancing(last, rs);
    if rs == [] {
      NothingToConfirm(books);
    } else if rs[0].sequence <= last {
      RecoverConfirms(books, last, rs[1..]);
    } else {
      var c := rs[0].command;
      ConfirmedCons(books, kept);
      assert kept[1..] == Advancing(rs[0].sequence, rs[1..]);
      if c.symbol in books {
        RecoverConfirms(ApplyTo(books, c), rs[0].sequence, rs[1..]);
      }
    }
  }

  lemma NothingToConfirm(books: Books)
    ensures Confirmed(books, [])
  {
  }

  /** A shard recovers exactly when every record above all before it is for one of its symbols and holds the
      result that the books give; it then ends with the books and the sequence number that these lead to. */
  lemma RecoverExactly(books: Books, last: uint64, rs: seq<Record>)
    ensures Recover(books, last, rs).Recovered? <==> Confirmed(books, Above(last, rs))
    ensures var kept := Above(last, rs);
            Confirmed(books, kept) ==>
              Recover(books, last, rs) ==
              Recovered(ReplayBooks(books, CommandsIn(kept)), if kept == [] then last else kept[|kept| - 1].sequence)
  {
    hide Recover, Confirmed;
    AdvancingIsAbove(last, rs);
    RecoverConfirms(books, last, rs);
  }

  // ---- Start-up ----

  lemma {:induction false} UnreadableAborts(cfg: Config, shard: nat, books: Books, marks: seq<uint64>, files: seq<seq<Data>>, i: nat)
    requires Progress(cfg.wire) && |marks| == |files| && i < |files|
    requires ReadShard(cfg.wire, files[i], HeaderFor(cfg, shard + i), true).Failed?
    ensures RecoverFiles(cfg, shard, books, marks, files) == Aborted
    decreases |files|
  {
    hide Progress, ReadShard, Recover, HeaderFor;
    if i > 0 && ReadShard(cfg.wire, files[0], HeaderFor(cfg, shard), true).Records? {
      var one := Recover(books, marks[0], ReadShard(cfg.wire, files[0], HeaderFor(cfg, shard), true).records);
      if one.Recovered? {
        UnreadableAborts(cfg, shard + 1, one.books, marks[1..], files[1..], i - 1);
      }
    }
  }

  /** The engine does not start with a shard whose log cannot be read, whatever the snapshot. */
  lemma UnreadableIsFatal(cfg: Config, registry: SymbolRegistry, snapshot: Option<EngineSnapshot>, files: seq<seq<Data>>, i: nat)
    requires Progress(cfg.wire) && |files| == cfg.shardCount && i < |files|
    requires ReadShard(cfg.wire, files[i], HeaderFor(cfg, i), true).Failed?
    ensures RecoveredState(cfg, registry, snapshot, files) == Aborted
  {
    hide Progress, ReadShard, RecoverFiles, HeaderFor, StartBooks;
    if snapshot.None? {
      UnreadableAborts(cfg, 0, StartBooks(cfg.symbols, map[]), Zeros(cfg.shardCount), files, i);
    } else if Suits(cfg, registry, snapshot.value) {
      UnreadableAborts(cfg, 0, StartBooks(cfg.symbols, Latest(snapshot.value.books)), snapshot.value.lastApplied, files, i);
    }
  }

  /** Nor with a record whose checksum is wrong, wherever it is in the log. */
  lemma DamageIsFatal(cfg: Config, crc: Checksum, registry: SymbolRegistry, snapshot: Option<EngineSnapshot>, files: seq<seq<Data>>,
                      shard: nat, i: nat, rs: seq<Record>, rec: Record, payload: Data, sum: Data, rest: Data)
    requires cfg.wire == WalWire(crc) && |files| == cfg.shardCount && shard < |files| && i < |files[shard]|
    requires HeaderFits(HeaderFor(cfg, shard)) && Loggable(HeaderFor(cfg, shard).shardId, rs)
    requires Encodable(rec) && |payload| == PayloadSize(rec) && |sum| == 4 && sum != LE(4, crc(Header(rec) + payload))
    requires files[shard][i] == SegmentBytes(cfg.wire, HeaderFor(cfg, shard), rs) + (Header(rec) + payload + sum + rest)
    ensures Progress(cfg.wire) && RecoveredState(cfg, registry, snapshot, files) == Aborted
  {
    hide Progress, ReadShard, RecoveredState, SegmentBytes, Loggable, Header, PayloadSize;
    DamagedShard(crc, files[shard], HeaderFor(cfg, shard), true, i, rs, rec, payload, sum, rest);
    UnreadableIsFatal(cfg, registry, snapshot, files, shard);
  }

  /** Nor from the snapshot of another engine, of another number of shards, or with a book that it does not have. */
  lemma ForeignSnapshotIsFatal(cfg: Config, registry: SymbolRegistry, snap: EngineSnapshot, files: seq<seq<Data>>)
    requires Progress(cfg.wire) && |files| == cfg.shardCount
    requires || snap.engineId != cfg.engineId || snap.shardCount != cfg.shardCount || |snap.lastApplied| != cfg.shardCount
             || exists i :: 0 <= i < |snap.books| && snap.books[i].symbol !in registry.bySymbol
    ensures RecoveredState(cfg, registry, Some(snap), files) == Aborted
  {
    hide Progress, RecoverFiles, StartBooks;
  }
}
