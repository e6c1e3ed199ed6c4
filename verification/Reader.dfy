/** Segments of the write-ahead log and how they are read back (internal/journal/codec.go,
    internal/journal/reader.go). A file is its bytes. */
module Reader {
  import opened Model
  import opened Bytes
  import opened Codec

  datatype SegmentHeader = SegmentHeader(engineId: Data, shardId: uint16, shardCount: uint16)

  predicate HeaderFits(h: SegmentHeader) {
    |h.engineId| <= 0xffff
  }

  function PutSegmentHeader(magic: uint32, version: uint16, h: SegmentHeader): Data
    requires HeaderFits(h)
  {
    LE(4, magic) + (LE(2, version) + (LE(2, h.shardCount) + (LE(2, h.shardId) + (LE(2, |h.engineId|) + h.engineId))))
  }

  function SegmentHead(h: SegmentHeader): Data
    requires HeaderFits(h)
  {
    PutSegmentHeader(SEGMENT_MAGIC, SCHEMA_VERSION, h)
  }

  datatype HeaderResult = HeaderOk(header: SegmentHeader, consumed: nat) | HeaderEof | HeaderBad

  /** Fields are read one by one; running out of bytes is an end of data, a wrong constant is damage. */
  function GetSegmentHeader(magic: uint32, version: uint16, s: Data): (r: HeaderResult)
    ensures r.HeaderOk? ==> r.consumed <= |s|
  {
    if |s| < 4 then HeaderEof
    else if Read32(s) != magic then HeaderBad
    else if |s| < 6 then HeaderEof
    else if Read16(s[4..]) != version then HeaderBad
    else if |s| < 12 then HeaderEof
    else
      var n := Read16(s[10..]);
      if |s| < 12 + n then HeaderEof
      else HeaderOk(SegmentHeader(s[12..12 + n], Read16(s[8..]), Read16(s[6..])), 12 + n)
  }

  function DecodeSegmentHeader(s: Data): (r: HeaderResult)
    ensures r.HeaderOk? ==> r.consumed <= |s|
  {
    GetSegmentHeader(SEGMENT_MAGIC, SCHEMA_VERSION, s)
  }

  lemma SegmentHeaderTails(magic: uint32, version: uint16, h: SegmentHeader, rest: Data)
    requires HeaderFits(h)
    ensures var data := PutSegmentHeader(magic, version, h) + rest;
            && |PutSegmentHeader(magic, version, h)| == 12 + |h.engineId|
            && Read32(data) == magic && Read16(data[4..]) == version
            && Read16(data[6..]) == h.shardCount && Read16(data[8..]) == h.shardId && Read16(data[10..]) == |h.engineId|
            && data[12..12 + |h.engineId|] == h.engineId
  {
    var data := PutSegmentHeader(magic, version, h) + rest;
    var t5 := h.engineId + rest;
    var t4 := LE(2, |h.engineId|) + t5;
    var t3 := LE(2, h.shardId) + t4;
    var t2 := LE(2, h.shardCount) + t3;
    var t1 := LE(2, version) + t2;
    assert data == LE(4, magic) + t1;
    Read32LE(magic, t1);
    Read16LE(version, t2);
    Read16LE(h.shardCount, t3);
    Read16LE(h.shardId, t4);
    Read16LE(|h.engineId|, t5);
    assert data[6..] == t2 by { assert data[4..] == t1 && t1[2..] == data[6..]; }
    assert data[8..] == t3 by { assert t2[2..] == data[8..]; }
    assert data[10..] == t4 by { assert t3[2..] == data[10..]; }
    assert data[12..] == t5 by { assert t4[2..] == data[12..]; }
    assert data[12..12 + |h.engineId|] == t5[..|h.engineId|];
  }

  /** A header reads back, and a header cut short reads as an end of data. */
  lemma HeaderRoundTrip(magic: uint32, version: uint16, h: SegmentHeader, rest: Data, k: nat)
    requires HeaderFits(h)
    ensures GetSegmentHeader(magic, version, PutSegmentHeader(magic, version, h) + rest) == HeaderOk(h, 12 + |h.engineId|)
    ensures k < |PutSegmentHeader(magic, version, h)| ==>
              GetSegmentHeader(magic, version, PutSegmentHeader(magic, version, h)[..k]) == HeaderEof
  {
    SegmentHeaderTails(magic, version, h, rest);
    var head := PutSegmentHeader(magic, version, h);
    SegmentHeaderTails(magic, version, h, []);
    assert head + [] == head;
    if k < |head| {
      var cut := head[..k];
      if k >= 4 {
        assert cut[..4] == head[..4];
      }
      if k >= 6 {
        assert cut[4..][..2] == head[4..][..2];
      }
      if k >= 12 {
        assert cut[10..][..2] == head[10..][..2];
      }
    }
  }

  lemma SegmentHeadReads(h: SegmentHeader, rest: Data, k: nat)
    requires HeaderFits(h)
    ensures DecodeSegmentHeader(SegmentHead(h) + rest) == HeaderOk(h, |SegmentHead(h)|)
    ensures k < |SegmentHead(h)| ==> DecodeSegmentHeader(SegmentHead(h)[..k]) == HeaderEof
  {
    HeaderRoundTrip(SEGMENT_MAGIC, SCHEMA_VERSION, h, rest, k);
  }

  // ---- The record format, as the rest of the log sees it ----

  /** Encoders and decoders of records and of segment headers. */
  datatype Wire = Wire(frame: Record -> Data, decode: Data -> Decoded,
                       head: SegmentHeader -> Data, readHead: Data -> HeaderResult)

  ghost predicate Progress(w: Wire) {
    && (forall s :: w.decode(s).Decoded? ==> 0 < w.decode(s).consumed <= |s|)
    && (forall s :: w.readHead(s).HeaderOk? ==> w.readHead(s).consumed <= |s|)
  }

  /** Records the writer of a shard can log. */
  predicate Good(rec: Record) {
    Encodable(rec) && rec.sequence == rec.command.sequence
  }

  /** Frames read back whatever follows them, and torn frames read as an end of data. */
  ghost predicate Faithful(w: Wire) {
    && Progress(w)
    && (forall rec, rest :: Good(rec) ==> w.decode(w.frame(rec) + rest) == Decoded(rec, |w.frame(rec)|))
    && (forall rec, k :: Good(rec) && 0 <= k < |w.frame(rec)| ==> w.decode(w.frame(rec)[..k]) == Eof)
    && (forall h, rest :: HeaderFits(h) ==> w.readHead(w.head(h) + rest) == HeaderOk(h, |w.head(h)|))
    && (forall h, k :: HeaderFits(h) && 0 <= k < |w.head(h)| ==> w.readHead(w.head(h)[..k]) == HeaderEof)
  }

  /** The format of the write-ahead log with a given checksum. */
  function WalWire(crc: Checksum): Wire {
    Wire(rec => if Encodable(rec) then Frame(crc, rec) else [], s => DecodeRecord(crc, s),
         h => if HeaderFits(h) then SegmentHead(h) else [], DecodeSegmentHeader)
  }

  lemma WalProgress(crc: Checksum)
    ensures Progress(WalWire(crc))
  {
    hide Frame, SegmentHead;
  }

  lemma WalIsFaithful(crc: Checksum)
    ensures Faithful(WalWire(crc))
  {
    hide Progress, Frame, DecodeRecord, SegmentHead, DecodeSegmentHeader;
    var w := WalWire(crc);
    WalProgress(crc);
    forall rec, rest | Good(rec) ensures w.decode(w.frame(rec) + rest) == Decoded(rec, |w.frame(rec)|) {
      RecordRoundTrip(crc, rec, rest);
    }
    forall rec, k | Good(rec) && 0 <= k < |w.frame(rec)| ensures w.decode(w.frame(rec)[..k]) == Eof {
      TornFrame(crc, rec, k);
    }
    forall h, rest | HeaderFits(h) ensures w.readHead(w.head(h) + rest) == HeaderOk(h, |w.head(h)|) {
      SegmentHeadReads(h, rest, 0);
    }
    forall h, k | HeaderFits(h) && 0 <= k < |w.head(h)| ensures w.readHead(w.head(h)[..k]) == HeaderEof {
      SegmentHeadReads(h, [], k);
    }
  }

  lemma FrameNotEmpty(w: Wire, rec: Record)
    requires Faithful(w) && Good(rec)
    ensures |w.frame(rec)| > 0
  {
    assert w.decode(w.frame(rec) + []) == Decoded(rec, |w.frame(rec)|);
  }

  // ---- Records of one segment ----

  datatype ReadResult = Records(records: seq<Record>) | Failed

  function Prepend(rec: Record, r: ReadResult): ReadResult {
    if r.Failed? then Failed else Records([rec] + r.records)
  }

  /** The records in the bytes behind a segment header. */
  function ReadFrames(w: Wire, s: Data, shard: uint16, allowTail: bool): ReadResult
    requires Progress(w)
    decreases |s|
  {
    if s == [] then Records([])
    else match w.decode(s)
      case Eof => if allowTail then Records([]) else Failed
      case Bad => Failed
      case Decoded(rec, n) =>
        if rec.shardId != shard then Failed else Prepend(rec, ReadFrames(w, s[n..], shard, allowTail))
  }

  function ReadSegment(w: Wire, data: Data, want: SegmentHeader, validate: bool, allowTail: bool): ReadResult
    requires Progress(w)
  {
    match w.readHead(data)
    case HeaderEof => if allowTail then Records([]) else Failed
    case HeaderBad => Failed
    case HeaderOk(h, n) =>
      if h.shardId != want.shardId then Failed
      else if validate && h.engineId != want.engineId then Failed
      else if validate && h.shardCount != want.shardCount then Failed
      else ReadFrames(w, data[n..], want.shardId, allowTail)
  }

  /** All segments of a shard in order; only the last may end in the middle of a record. */
  function ReadShard(w: Wire, segments: seq<Data>, want: SegmentHeader, validate: bool): ReadResult
    requires Progress(w)
  {
    if segments == [] then Records([])
    else match ReadSegment(w, segments[0], want, validate, |segments| == 1)
      case Failed => Failed
      case Records(rs) => PrependAll(rs, ReadShard(w, segments[1..], want, validate))
  }

  /** The reading loop of a segment. */
  method ReadFramesLoop(w: Wire, data: Data, start: nat, shard: uint16, allowTail: bool) returns (r: ReadResult)
    requires start <= |data| && Progress(w)
    ensures r == ReadFrames(w, data[start..], shard, allowTail)
  {
    var records: seq<Record> := [];
    var offset := start;
    while offset < |data|
      invariant start <= offset <= |data|
      invariant ReadFrames(w, data[start..], shard, allowTail) ==
                PrependAll(records, ReadFrames(w, data[offset..], shard, allowTail))
    {
      match w.decode(data[offset..]) {
        case Eof =>
          if allowTail {
            break;
          }
          return Failed;
        case Bad =>
          return Failed;
        case Decoded(rec, consumed) =>
          if rec.shardId != shard {
            return Failed;
          }
          assert data[offset..][consumed..] == data[offset + consumed..];
          PrependNext(records, rec, ReadFrames(w, data[offset + consumed..], shard, allowTail));
          records := records + [rec];
          offset := offset + consumed;
      }
    }
    assert records + [] == records;
    r := Records(records);
  }

  function PrependAll(rs: seq<Record>, r: ReadResult): ReadResult {
    if r.Failed? then Failed else Records(rs + r.records)
  }

  lemma PrependNext(rs: seq<Record>, rec: Record, r: ReadResult)
    ensures PrependAll(rs, Prepend(rec, r)) == PrependAll(rs + [rec], r)
  {
    if r.Records? {
      assert rs + ([rec] + r.records) == (rs + [rec]) + r.records;
    }
  }

  /** The loop over the segments of a shard. */
  method ReadShardLoop(w: Wire, segments: seq<Data>, want: SegmentHeader, validate: bool) returns (r: ReadResult)
    requires Progress(w)
    ensures r == ReadShard(w, segments, want, validate)
  {
    hide Progress, ReadSegment, PrependAll;
    var out: seq<Record> := [];
    assert segments[0..] == segments;
    PrependEnds(out, ReadShard(w, segments, want, validate));
    for i := 0 to |segments|
      invariant ReadShard(w, segments, want, validate) ==
                PrependAll(out, ReadShard(w, segments[i..], want, validate))
    {
      assert segments[i..][1..] == segments[i + 1..];
      var one := ReadSegment(w, segments[i], want, validate, i == |segments| - 1);
      PrependEnds(out, Failed);
      if one.Failed? {
        return Failed;
      }
      PrependTwice(out, one.records, ReadShard(w, segments[i + 1..], want, validate));
      out := out + one.records;
    }
    PrependEnds(out, Failed);
    r := Records(out);
  }

  lemma PrependEnds(rs: seq<Record>, r: ReadResult)
    ensures PrependAll([], r) == r && PrependAll(rs, Failed) == Failed && PrependAll(rs, Records([])) == Records(rs)
  {
    assert rs + [] == rs;
  }

  lemma PrependTwice(a: seq<Record>, b: seq<Record>, r: ReadResult)
    ensures PrependAll(a, PrependAll(b, r)) == PrependAll(a + b, r)
  {
    if r.Records? {
      assert a + (b + r.records) == (a + b) + r.records;
    }
  }

  // ---- What the writer puts there ----

  /** Records the writer of this shard can log. */
  ghost predicate Loggable(shard: uint16, rs: seq<Record>) {
    forall i :: 0 <= i < |rs| ==> Good(rs[i]) && rs[i].shardId == shard
  }

  function Frames(w: Wire, rs: seq<Record>): Data {
    if rs == [] then [] else w.frame(rs[0]) + Frames(w, rs[1..])
  }

  lemma {:induction false} FramesConcat(w: Wire, a: seq<Record>, b: seq<Record>)
    ensures Frames(w, a + b) == Frames(w, a) + Frames(w, b)
  {
    if a == [] {
      assert a + b == b;
    } else {
      FramesConcat(w, a[1..], b);
      assert (a + b)[1..] == a[1..] + b;
    }
  }

  /** How many records lie wholly within the first k bytes. */
  function Whole(w: Wire, rs: seq<Record>, k: nat): (m: nat)
    ensures m <= |rs|
  {
    if rs == [] || k < |w.frame(rs[0])| then 0
    else 1 + Whole(w, rs[1..], k - |w.frame(rs[0])|)
  }

  /** It is the largest number of records whose bytes fit. */
  lemma {:induction false} WholeIsMaximal(w: Wire, rs: seq<Record>, k: nat, n: nat)
    requires n <= |rs|
    ensures |Frames(w, rs[..Whole(w, rs, k)])| <= k
    ensures |Frames(w, rs[..n])| <= k <==> n <= Whole(w, rs, k)
  {
    if rs != [] && n > 0 {
      assert rs[..n][1..] == rs[1..][..n - 1];
    }
    if rs != [] && k >= |w.frame(rs[0])| {
      WholeIsMaximal(w, rs[1..], k - |w.frame(rs[0])|, if n > 0 then n - 1 else 0);
      var m := Whole(w, rs, k);
      assert rs[..m][1..] == rs[1..][..m - 1];
    }
  }

  /** The cut falls between two records. */
  ghost predicate OnBoundary(w: Wire, rs: seq<Record>, k: nat) {
    k == |Frames(w, rs[..Whole(w, rs, k)])|
  }

  lemma ReadOneMore(w: Wire, rec: Record, rest: Data, allowTail: bool)
    requires Faithful(w) && Good(rec)
    ensures ReadFrames(w, w.frame(rec) + rest, rec.shardId, allowTail) ==
            Prepend(rec, ReadFrames(w, rest, rec.shardId, allowTail))
  {
    FrameNotEmpty(w, rec);
    assert (w.frame(rec) + rest)[|w.frame(rec)|..] == rest;
  }

  lemma ReadTorn(w: Wire, rec: Record, k: nat, allowTail: bool)
    requires Faithful(w) && Good(rec) && 0 < k < |w.frame(rec)|
    ensures ReadFrames(w, w.frame(rec)[..k], rec.shardId, allowTail) == if allowTail then Records([]) else Failed
  {
  }

  /** Reading a cut run of records: exactly the whole ones, or failure when a torn end is not allowed. */
  lemma {:induction false} CutFrames(w: Wire, shard: uint16, rs: seq<Record>, k: nat, allowTail: bool)
    requires Faithful(w) && Loggable(shard, rs) && k <= |Frames(w, rs)|
    ensures ReadFrames(w, Frames(w, rs)[..k], shard, allowTail) ==
            if allowTail || OnBoundary(w, rs, k) then Records(rs[..Whole(w, rs, k)]) else Failed
  {
    hide Faithful, Progress;
    if rs != [] {
      var frame, rest := w.frame(rs[0]), Frames(w, rs[1..]);
      if k < |frame| {
        assert (frame + rest)[..k] == frame[..k];
        if k > 0 {
          ReadTorn(w, rs[0], k, allowTail);
        }
      } else {
        assert (frame + rest)[..k] == frame + rest[..k - |frame|];
        ReadOneMore(w, rs[0], rest[..k - |frame|], allowTail);
        CutFrames(w, shard, rs[1..], k - |frame|, allowTail);
        var m := Whole(w, rs, k);
        assert rs[..m][1..] == rs[1..][..m - 1];
        assert rs[..m] == [rs[0]] + rs[1..][..m - 1];
      }
    }
  }

  function SegmentBytes(w: Wire, h: SegmentHeader, rs: seq<Record>): Data
  {
    w.head(h) + Frames(w, rs)
  }

  /** A segment file as a crash can leave it: the first cut bytes of what was written. */
  datatype Piece = Piece(records: seq<Record>, cut: nat)

  ghost predicate Proper(w: Wire, h: SegmentHeader, p: Piece) {
    HeaderFits(h) && Loggable(h.shardId, p.records) && p.cut <= |SegmentBytes(w, h, p.records)|
  }

  function Image(w: Wire, h: SegmentHeader, p: Piece): Data
    requires Proper(w, h, p)
  {
    SegmentBytes(w, h, p.records)[..p.cut]
  }

  function Survivors(w: Wire, h: SegmentHeader, p: Piece): seq<Record>
    requires Proper(w, h, p)
  {
    var head := |w.head(h)|;
    if p.cut < head then [] else p.records[..Whole(w, p.records, p.cut - head)]
  }

  /** The file ends where its header or one of its records ends. */
  ghost predicate Clean(w: Wire, h: SegmentHeader, p: Piece)
    requires Proper(w, h, p)
  {
    var head := |w.head(h)|;
    p.cut >= head && OnBoundary(w, p.records, p.cut - head)
  }

  /** Torn tail: a last segment cut anywhere reads as the records wholly before the cut;
      any other segment does so exactly when it ends cleanly. */
  lemma CutSegment(w: Wire, h: SegmentHeader, p: Piece, validate: bool, allowTail: bool)
    requires Faithful(w) && Proper(w, h, p)
    ensures ReadSegment(w, Image(w, h, p), h, validate, allowTail) ==
            if allowTail || Clean(w, h, p) then Records(Survivors(w, h, p)) else Failed
  {
    hide Progress, ReadFrames, Frames, Loggable, Whole, OnBoundary;
    var head, frames := w.head(h), Frames(w, p.records);
    if p.cut < |head| {
      assert (head + frames)[..p.cut] == head[..p.cut];
    } else {
      var rest := frames[..p.cut - |head|];
      assert (head + frames)[..p.cut] == head + rest;
      assert (head + rest)[|head|..] == rest;
      CutFrames(w, h.shardId, p.records, p.cut - |head|, allowTail);
    }
  }

  ghost predicate AllProper(w: Wire, h: SegmentHeader, ps: seq<Piece>) {
    forall i :: 0 <= i < |ps| ==> Proper(w, h, ps[i])
  }

  function Images(w: Wire, h: SegmentHeader, ps: seq<Piece>): seq<Data>
    requires AllProper(w, h, ps)
  {
    if ps == [] then [] else [Image(w, h, ps[0])] + Images(w, h, ps[1..])
  }

  function AllSurvivors(w: Wire, h: SegmentHeader, ps: seq<Piece>): seq<Record>
    requires AllProper(w, h, ps)
  {
    if ps == [] then [] else Survivors(w, h, ps[0]) + AllSurvivors(w, h, ps[1..])
  }

  /** Every segment but the last ends cleanly. */
  ghost predicate CleanButLast(w: Wire, h: SegmentHeader, ps: seq<Piece>)
    requires AllProper(w, h, ps)
  {
    forall i :: 0 <= i < |ps| - 1 ==> Clean(w, h, ps[i])
  }

  /** Reading a shard succeeds exactly when every segment but the last ends cleanly. A torn segment
      is tolerated while it is the last, and is fatal once a restart has opened another behind it. */
  lemma {:induction false} CutShard(w: Wire, h: SegmentHeader, ps: seq<Piece>, validate: bool)
    requires Faithful(w) && AllProper(w, h, ps)
    ensures |Images(w, h, ps)| == |ps|
    ensures ReadShard(w, Images(w, h, ps), h, validate) ==
            if CleanButLast(w, h, ps) then Records(AllSurvivors(w, h, ps)) else Failed
  {
    if ps != [] {
      var rest := ps[1..];
      CutShard(w, h, rest, validate);
      CutSegment(w, h, ps[0], validate, |ps| == 1);
      assert Images(w, h, ps)[1..] == Images(w, h, rest);
      assert CleanButLast(w, h, ps) <==> (|ps| == 1 || Clean(w, h, ps[0])) && CleanButLast(w, h, rest) by {
        forall i | 0 <= i < |rest| - 1 ensures rest[i] == ps[i + 1] {
        }
        if CleanButLast(w, h, ps) {
          forall i | 0 <= i < |rest| - 1 ensures Clean(w, h, rest[i]) {
            assert Clean(w, h, ps[i + 1]);
          }
        }
        if (|ps| == 1 || Clean(w, h, ps[0])) && CleanButLast(w, h, rest) {
          forall i | 0 <= i < |ps| - 1 ensures Clean(w, h, ps[i]) {
            if i > 0 {
              assert Clean(w, h, rest[i - 1]);
            }
          }
        }
      }
    }
  }
}
