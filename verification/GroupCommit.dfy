/** The group-commit writer of a shard and its disk (internal/journal/writer.go), as a machine whose
    steps are the points where another goroutine, the timer, an I/O failure or a crash can intervene. */
module GroupCommit {
  import opened Bytes
  import opened Codec
  import opened Reader

  datatype Config = Config(wire: Wire, header: SegmentHeader, maxCommands: nat, maxBytes: nat, segmentMax: nat)

  ghost predicate Usable(cfg: Config) {
    Faithful(cfg.wire) && Progress(cfg.wire) && HeaderFits(cfg.header) && cfg.maxCommands > 0 && cfg.maxBytes > 0 && cfg.segmentMax > 0
  }

  /** All that the writer itself needs of the record format. */
  ghost predicate Framed(cfg: Config) {
    cfg.maxCommands > 0 && cfg.maxBytes > 0 && forall rec :: Good(rec) ==> cfg.wire.frame(rec) != []
  }

  lemma UsableIsFramed(cfg: Config)
    requires Usable(cfg)
    ensures Framed(cfg)
  {
    forall rec | Good(rec) ensures cfg.wire.frame(rec) != [] {
      FrameNotEmpty(cfg.wire, rec);
    }
  }

  /** A segment file: the bytes that a crash keeps, those of which it keeps any prefix, and whether
      the directory entry is durable. The other fields are bookkeeping that no step looks at: the
      records whose bytes were put there, and how many of them are synced. */
  datatype Segment = Segment(synced: Data, unsynced: Data, linked: bool, records: seq<Record>, stable: nat)

  /** An append carries its position among all appends, which stands for its acknowledgement channel;
      the others carry the channel that is closed when they are done. */
  datatype Request = AppendReq(index: nat, record: Record) | FlushReq(token: nat) | ShutdownReq(token: nat)

  /** What follows a flush. */
  datatype After = Boot | Resume | Answer(token: nat) | Stop(token: nat)

  datatype Stage = NewFile | WriteHeader | SyncHeader | SyncDirectory

  datatype Phase =
    | Opening(stage: Stage, after: After)
    | Idle
    | Flushing(after: After)
    | Writing(after: After)
    | Syncing(after: After)
    | Rejecting(after: After)
    | Stopped

  /** What waits for the next write: the bytes, whom to tell, whether the timer runs, and (bookkeeping)
      the records that the bytes encode. */
  datatype Batch = Batch(bytes: Data, acks: seq<nat>, armed: bool, records: seq<Record>)

  const NO_BATCH := Batch([], [], false, [])

  /** The last three fields are bookkeeping: all records ever submitted, how many of them the writer has
      taken from its queue, and how many had been submitted when each token was handed in. */
  datatype Writer = Writer(
    phase: Phase,
    queue: seq<Request>,
    batch: Batch,
    failed: bool,
    currentSize: nat,
    disk: seq<Segment>,
    done: set<nat>,
    acks: map<nat, bool>,
    submitted: seq<Record>,
    taken: nat,
    asked: map<nat, nat>)

  function Start(disk: seq<Segment>): Writer {
    Writer(Opening(NewFile, Boot), [], NO_BATCH, false, 0, disk, {}, map[], [], 0, map[])
  }

  datatype Action =
    | TakeRequest
    | TimerFires
    | BeginFlush
    | CreateFile
    | PutHeader(kept: nat)
    | SyncHead
    | SyncDir
    | PutBatch(kept: nat)
    | SyncBatch
    | Fail
    | RejectOne
    | EndReject

  predicate Enabled(cfg: Config, w: Writer, a: Action) {
    match a
    case TakeRequest => w.phase.Idle? && w.queue != []
    case TimerFires => w.phase.Idle? && w.batch.armed
    case BeginFlush => w.phase.Flushing?
    case CreateFile => w.phase.Opening? && w.phase.stage == NewFile
    case PutHeader(kept) => w.phase.Opening? && w.phase.stage == WriteHeader && w.disk != [] && kept <= |cfg.wire.head(cfg.header)|
    case SyncHead => w.phase.Opening? && w.phase.stage == SyncHeader && w.disk != []
    case SyncDir => w.phase.Opening? && w.phase.stage == SyncDirectory && w.disk != []
    case PutBatch(kept) => w.phase.Writing? && kept <= |w.batch.bytes| && w.disk != []
    case SyncBatch => w.phase.Syncing? && w.disk != []
    case Fail => w.phase.Opening? || w.phase.Writing? || w.phase.Syncing?
    case RejectOne => w.phase.Rejecting? && w.queue != []
    case EndReject => w.phase.Rejecting? && w.queue == []
  }

  function Last(disk: seq<Segment>): Segment
    requires disk != []
  {
    disk[|disk| - 1]
  }

  function SetLast(disk: seq<Segment>, s: Segment): seq<Segment>
    requires disk != []
  {
    disk[..|disk| - 1] + [s]
  }

  /** The same answer on several acknowledgement channels. */
  function AckAll(acks: map<nat, bool>, ks: seq<nat>, ok: bool): map<nat, bool>
    decreases |ks|
  {
    if ks == [] then acks else AckAll(acks[ks[0] := ok], ks[1..], ok)
  }

  function Close(done: set<nat>, after: After): set<nat> {
    if after.Answer? || after.Stop? then done + {after.token} else done
  }

  /** A flush is over and went well. */
  function Settle(w: Writer, after: After): Writer {
    w.(phase := if after.Stop? then Stopped else Idle, done := Close(w.done, after))
  }

  /** Everything pending is acknowledged. */
  function Acknowledge(w: Writer, after: After): Writer {
    Settle(w.(acks := AckAll(w.acks, w.batch.acks, true), batch := NO_BATCH), after)
  }

  /** A write, a sync or the opening of a segment went wrong. */
  function Break(w: Writer): Writer
    requires w.phase.Opening? || w.phase.Writing? || w.phase.Syncing?
  {
    w.(failed := true, acks := AckAll(w.acks, w.batch.acks, false), phase := Rejecting(w.phase.after))
  }

  function Add(cfg: Config, b: Batch, index: nat, record: Record): Batch {
    Batch(b.bytes + cfg.wire.frame(record), b.acks + [index], true, b.records + [record])
  }

  predicate Full(cfg: Config, b: Batch) {
    |b.acks| >= cfg.maxCommands || |b.bytes| >= cfg.maxBytes
  }

  function TakeAppend(cfg: Config, w: Writer, index: nat, record: Record): Writer {
    if !Encodable(record) then w.(acks := w.acks[index := false], taken := w.taken + 1)
    else
      var batch := Add(cfg, w.batch, index, record);
      w.(batch := batch, taken := w.taken + 1, phase := if Full(cfg, batch) then Flushing(Resume) else w.phase)
  }

  function Take(cfg: Config, w: Writer): Writer
    requires w.queue != []
  {
    var w1 := w.(queue := w.queue[1..]);
    match w.queue[0]
    case AppendReq(index, record) => TakeAppend(cfg, w1, index, record)
    case FlushReq(token) => w1.(phase := Flushing(Answer(token)))
    case ShutdownReq(token) => w1.(phase := Flushing(Stop(token)))
  }

  function Flush(cfg: Config, w: Writer): Writer
    requires w.phase.Flushing?
  {
    var after := w.phase.after;
    if w.batch.acks == [] then Settle(w, after)
    else if w.batch.bytes == [] then Acknowledge(w, after)
    else if w.currentSize + |w.batch.bytes| > cfg.segmentMax then w.(phase := Opening(NewFile, after))
    else w.(phase := Writing(after))
  }

  function Filled(s: Segment, b: Batch, kept: nat): Segment
    requires kept <= |b.bytes|
  {
    s.(unsynced := b.bytes[..kept], records := s.records + b.records)
  }

  function Write(w: Writer, kept: nat): Writer
    requires w.phase.Writing? && kept <= |w.batch.bytes| && w.disk != []
  {
    var w1 := w.(disk := SetLast(w.disk, Filled(Last(w.disk), w.batch, kept)));
    if kept < |w.batch.bytes| then Break(w1) else w1.(phase := Syncing(w.phase.after))
  }

  function Settled(s: Segment): Segment {
    s.(synced := s.synced + s.unsynced, unsynced := [], stable := |s.records|)
  }

  function Sync(w: Writer): Writer
    requires w.phase.Syncing? && w.disk != []
  {
    Acknowledge(w.(disk := SetLast(w.disk, Settled(Last(w.disk))), currentSize := w.currentSize + |w.batch.bytes|), w.phase.after)
  }

  function Reject(w: Writer): Writer
    requires w.queue != []
  {
    var w1 := w.(queue := w.queue[1..]);
    match w.queue[0]
    case AppendReq(index, _) => w1.(acks := w.acks[index := false])
    case FlushReq(token) => w1.(done := w.done + {token})
    case ShutdownReq(token) => w1.(done := w.done + {token})
  }

  function Next(cfg: Config, w: Writer, a: Action): Writer
    requires Enabled(cfg, w, a)
  {
    match a
    case TakeRequest => Take(cfg, w)
    case TimerFires => w.(phase := Flushing(Resume))
    case BeginFlush => Flush(cfg, w)
    case CreateFile => w.(phase := Opening(WriteHeader, w.phase.after), disk := w.disk + [Blank([], [])])
    case PutHeader(kept) =>
      var head := cfg.wire.head(cfg.header);
      var w1 := w.(disk := SetLast(w.disk, Last(w.disk).(unsynced := head[..kept])));
      if kept < |head| then Break(w1) else w1.(phase := Opening(SyncHeader, w.phase.after))
    case SyncHead =>
      var last := Last(w.disk);
      w.(disk := SetLast(w.disk, last.(synced := last.synced + last.unsynced, unsynced := [])),
         phase := Opening(SyncDirectory, w.phase.after))
    case SyncDir =>
      w.(disk := SetLast(w.disk, Last(w.disk).(linked := true)), currentSize := |cfg.wire.head(cfg.header)|,
         phase := if w.phase.after.Boot? then Idle else Writing(w.phase.after))
    case PutBatch(kept) => Write(w, kept)
    case SyncBatch => Sync(w)
    case Fail => Break(w)
    case RejectOne => Reject(w)
    case EndReject => w.(phase := Stopped, done := Close(w.done, w.phase.after))
  }

  // ---- What others do to the writer ----

  function Submit(w: Writer, rec: Record): Writer {
    w.(queue := w.queue + [AppendReq(|w.submitted|, rec)], submitted := w.submitted + [rec])
  }

  function Ask(w: Writer, req: Request): Writer
    requires !req.AppendReq?
  {
    w.(queue := w.queue + [req], asked := w.asked[req.token := |w.submitted|])
  }

  // ---- Histories ----

  /** The records that the writer can encode; the others are answered with an error and skipped. */
  function Keep(rs: seq<Record>): (kept: seq<Record>)
    ensures |kept| <= |rs|
  {
    if rs == [] then []
    else
      var n := |rs| - 1;
      Keep(rs[..n]) + if Good(rs[n]) then [rs[n]] else []
  }

  function Logged(disk: seq<Segment>): seq<Record> {
    if disk == [] then [] else Logged(disk[..|disk| - 1]) + Last(disk).records
  }

  /** How many records are on disk for good. */
  function Durable(disk: seq<Segment>): nat {
    if disk == [] then 0 else |Logged(disk[..|disk| - 1])| + Last(disk).stable
  }

  lemma {:induction false} KeepPrefix(rs: seq<Record>, k: nat)
    requires k <= |rs|
    ensures Keep(rs[..k]) <= Keep(rs)
  {
    if k < |rs| {
      var n := |rs| - 1;
      assert rs[..n][..k] == rs[..k];
      KeepPrefix(rs[..n], k);
    } else {
      assert rs[..k] == rs;
    }
  }

  lemma {:induction false} KeepAll(rs: seq<Record>)
    requires forall r :: r in rs ==> Good(r)
    ensures Keep(rs) == rs
  {
    if rs != [] {
      var n := |rs| - 1;
      KeepAll(rs[..n]);
      assert rs == rs[..n] + [rs[n]];
    }
  }

  lemma KeepNext(rs: seq<Record>, k: nat)
    requires k < |rs|
    ensures Keep(rs[..k + 1]) == Keep(rs[..k]) + if Good(rs[k]) then [rs[k]] else []
  {
    assert rs[..k + 1][..k] == rs[..k];
  }

  lemma KeepMore(rs: seq<Record>, r: Record)
    ensures Keep(rs) <= Keep(rs + [r])
  {
    assert (rs + [r])[..|rs|] == rs;
    KeepPrefix(rs + [r], |rs|);
  }

  // ---- The invariant ----

  predicate Alive(p: Phase) {
    !p.Rejecting? && !p.Stopped?
  }

  /** Between two batches: every byte of every record is synced. */
  ghost predicate Intact(cfg: Config, s: Segment) {
    && Loggable(cfg.header.shardId, s.records) && s.stable == |s.records| && s.linked
    && s.synced == SegmentBytes(cfg.wire, cfg.header, s.records) && s.unsynced == []
  }

  /** At any moment: the bytes are a beginning of what the records need, the stable ones are synced,
      and nothing was logged in a file whose directory entry may vanish. */
  ghost predicate Torn(cfg: Config, s: Segment) {
    && Loggable(cfg.header.shardId, s.records) && s.stable <= |s.records|
    && s.synced + s.unsynced <= SegmentBytes(cfg.wire, cfg.header, s.records)
    && (s.stable > 0 ==> |SegmentBytes(cfg.wire, cfg.header, s.records[..s.stable])| <= |s.synced|)
    && (!s.linked ==> s.records == [])
  }

  ghost predicate SmallBatch(cfg: Config, rs: seq<Record>) {
    && |rs| <= cfg.maxCommands
    && (rs != [] ==> |Frames(cfg.wire, rs[..|rs| - 1])| < cfg.maxBytes)
  }

  /** A segment keeps to its maximal size unless it holds a single batch. */
  ghost predicate Bounded(cfg: Config, s: Segment) {
    |s.synced| + |s.unsynced| <= cfg.segmentMax || SmallBatch(cfg, s.records)
  }

  function Blank(synced: Data, unsynced: Data): Segment {
    Segment(synced, unsynced, false, [], 0)
  }

  /** The current segment, by what the writer is doing. */
  ghost predicate LastOk(cfg: Config, phase: Phase, last: Segment, size: nat, bytes: Data) {
    match phase
    case Opening(stage, _) =>
      (match stage
       case NewFile => Intact(cfg, last)
       case WriteHeader => last == Blank([], [])
       case SyncHeader => last == Blank([], cfg.wire.head(cfg.header))
       case SyncDirectory => last == Blank(cfg.wire.head(cfg.header), []))
    case Writing(_) =>
      && Intact(cfg, last) && size == |last.synced|
      && (last.records == [] || size + |bytes| <= cfg.segmentMax)
    case Syncing(_) =>
      && Torn(cfg, last) && size == |last.synced| && last.unsynced == bytes && last.linked
      && last.synced + bytes == SegmentBytes(cfg.wire, cfg.header, last.records)
    case Rejecting(_) => Torn(cfg, last)
    case Stopped => Torn(cfg, last)
    case _ => Intact(cfg, last) && size == |last.synced|
  }

  /** Only the last segment is ever touched, and segments of earlier runs are not. */
  ghost predicate FilesOk(cfg: Config, base: seq<Segment>, disk: seq<Segment>) {
    && base <= disk
    && (forall i :: 0 <= i < |base| ==> Intact(cfg, base[i]))
    && (forall i :: 0 <= i < |disk| - 1 ==> Intact(cfg, disk[i]))
    && (forall i :: |base| <= i < |disk| ==> Bounded(cfg, disk[i]))
  }

  predicate Unopened(p: Phase) {
    (p.Opening? && p.stage == NewFile) || p.Rejecting? || p.Stopped?
  }

  ghost predicate DiskOk(cfg: Config, base: seq<Segment>, disk: seq<Segment>, phase: Phase, size: nat, bytes: Data) {
    && FilesOk(cfg, base, disk)
    && (|disk| == |base| ==> Unopened(phase))
    && (disk != [] ==> LastOk(cfg, phase, Last(disk), size, bytes))
  }

  /** Pending bytes are the encodings of the records whose acknowledgements are pending, and the timer
      is armed exactly when there are any. */
  ghost predicate BatchOk(cfg: Config, b: Batch) {
    && b.bytes == Frames(cfg.wire, b.records) && |b.acks| == |b.records|
    && (b.bytes == [] <==> b.acks == [])
    && Loggable(cfg.header.shardId, b.records) && SmallBatch(cfg, b.records)
    && (b.armed <==> b.acks != [])
  }

  /** An idle writer is below both thresholds; one that writes has something to write. */
  predicate PhaseOk(cfg: Config, phase: Phase, b: Batch) {
    match phase
    case Opening(_, after) => after.Boot? <==> b.acks == []
    case Idle => !Full(cfg, b)
    case Flushing(after) => !after.Boot?
    case Writing(after) => !after.Boot? && b.acks != []
    case Syncing(after) => !after.Boot? && b.acks != []
    case _ => true
  }

  /** The appends in the queue are the submitted records not yet taken, in order, and each other
      request stands behind the appends that were submitted before it. */
  ghost predicate Lined(queue: seq<Request>, submitted: seq<Record>, asked: map<nat, nat>, from: nat)
    decreases |queue|
  {
    if queue == [] then from == |submitted|
    else if queue[0].AppendReq? then
      && from < |submitted| && queue[0] == AppendReq(from, submitted[from])
      && Lined(queue[1..], submitted, asked, from + 1)
    else
      && queue[0].token in asked && asked[queue[0].token] == from
      && Lined(queue[1..], submitted, asked, from)
  }

  /** The request being served came behind what has been taken. */
  ghost predicate ServingOk(phase: Phase, asked: map<nat, nat>, taken: nat) {
    var after := if phase.Opening? || phase.Flushing? || phase.Writing? || phase.Syncing? then phase.after else Resume;
    after.Answer? || after.Stop? ==> after.token in asked && asked[after.token] <= taken
  }

  /** Unless the writer has failed, a closed token means that all before it is answered. */
  ghost predicate DoneOk(done: set<nat>, asked: map<nat, nat>, acks: map<nat, bool>) {
    forall t :: t in done ==> t in asked && Covered(asked[t], acks)
  }

  ghost predicate Covered(n: nat, acks: map<nat, bool>) {
    forall k :: 0 <= k < n ==> k in acks
  }

  /** Whatever the writer has taken is answered or waits for the next write. */
  ghost predicate TakenOk(submitted: seq<Record>, taken: nat, acks: map<nat, bool>, waiting: seq<nat>) {
    && taken <= |submitted|
    && (forall k :: k in waiting ==> k < taken && Good(submitted[k]))
    && (forall k :: 0 <= k < taken ==> k in acks || k in waiting)
  }

  /** Each pending acknowledgement belongs to the record at its place in the batch, in order of submission. */
  ghost predicate WaitsOk(submitted: seq<Record>, taken: nat, b: Batch) {
    && |b.acks| == |b.records|
    && (forall i :: 0 <= i < |b.acks| ==> b.acks[i] < taken <= |submitted| && submitted[b.acks[i]] == b.records[i])
    && (forall i, j :: 0 <= i < j < |b.acks| ==> b.acks[i] < b.acks[j])
  }

  /** The submitted records that these acknowledgements are for. */
  ghost function RecordsAt(submitted: seq<Record>, ks: seq<nat>): seq<Record>
    requires forall i :: 0 <= i < |ks| ==> ks[i] < |submitted|
  {
    seq(|ks|, i requires 0 <= i < |ks| => submitted[ks[i]])
  }

  ghost function Unwritten(phase: Phase, b: Batch): seq<Record> {
    if phase.Syncing? then [] else b.records
  }

  /** Disk and pending batch hold exactly the encodable records taken. */
  ghost predicate LogOk(base: seq<Record>, log: seq<Record>, unwritten: seq<Record>, taken: seq<Record>) {
    log + unwritten == base + Keep(taken)
  }

  /** A success is acknowledged only for a record that is on disk for good. */
  ghost predicate AcksOk(base: nat, durable: nat, submitted: seq<Record>, acks: map<nat, bool>) {
    forall k :: k in acks ==> k < |submitted| && (acks[k] ==> OnDisk(base, durable, submitted, k))
  }

  ghost predicate OnDisk(base: nat, durable: nat, submitted: seq<Record>, k: nat)
    requires k < |submitted|
  {
    Good(submitted[k]) && base + |Keep(submitted[..k + 1])| <= durable
  }

  ghost predicate QueueOk(queue: seq<Request>, submitted: seq<Record>) {
    forall i :: 0 <= i < |queue| && queue[i].AppendReq? ==> queue[i].index < |submitted|
  }

  ghost predicate Sent(cfg: Config, submitted: seq<Record>) {
    forall i :: 0 <= i < |submitted| ==> submitted[i].shardId == cfg.header.shardId && submitted[i].sequence == submitted[i].command.sequence
  }

  ghost predicate Working(cfg: Config, base: seq<Segment>, w: Writer) {
    && !w.failed && BatchOk(cfg, w.batch) && PhaseOk(cfg, w.phase, w.batch)
    && TakenOk(w.submitted, w.taken, w.acks, w.batch.acks) && WaitsOk(w.submitted, w.taken, w.batch)
    && Lined(w.queue, w.submitted, w.asked, w.taken) && ServingOk(w.phase, w.asked, w.taken)
    && LogOk(Logged(base), Logged(w.disk), Unwritten(w.phase, w.batch), w.submitted[..w.taken])
  }

  /** The invariant. Comparing the conjunction with true keeps it one proof goal, which is cheaper than one goal
      for each of its parts. */
  ghost predicate Inv(cfg: Config, base: seq<Segment>, w: Writer) {
    true == (
    && DiskOk(cfg, base, w.disk, w.phase, w.currentSize, w.batch.bytes)
    && (Alive(w.phase) ==> Working(cfg, base, w))
    && (w.phase.Rejecting? ==> w.failed)
    && (!w.failed ==> DoneOk(w.done, w.asked, w.acks))
    && Sent(cfg, w.submitted) && QueueOk(w.queue, w.submitted)
    && Logged(w.disk) <= Logged(base) + Keep(w.submitted)
    && AcksOk(|Logged(base)|, Durable(w.disk), w.submitted, w.acks))
  }

  // ---- Every step keeps it ----

  lemma {:induction false} AckAllMeaning(acks: map<nat, bool>, ks: seq<nat>, ok: bool)
    ensures forall k :: k in AckAll(acks, ks, ok) <==> k in acks || k in ks
    ensures forall k :: k in ks ==> AckAll(acks, ks, ok)[k] == ok
    ensures forall k :: k in acks && k !in ks ==> AckAll(acks, ks, ok)[k] == acks[k]
    decreases |ks|
  {
    if ks != [] {
      AckAllMeaning(acks[ks[0] := ok], ks[1..], ok);
      assert ks == [ks[0]] + ks[1..];
    }
  }

  lemma SetLastMeaning(disk: seq<Segment>, s: Segment)
    requires disk != []
    ensures Last(SetLast(disk, s)) == s && |SetLast(disk, s)| == |disk|
    ensures forall i :: 0 <= i < |disk| - 1 ==> SetLast(disk, s)[i] == disk[i]
    ensures Logged(SetLast(disk, s)) == Logged(disk[..|disk| - 1]) + s.records
    ensures Durable(SetLast(disk, s)) == |Logged(disk[..|disk| - 1])| + s.stable
  {
    assert SetLast(disk, s)[..|disk| - 1] == disk[..|disk| - 1];
  }

  lemma AddedMeaning(disk: seq<Segment>, s: Segment)
    ensures Logged(disk + [s]) == Logged(disk) + s.records
    ensures Durable(disk + [s]) == |Logged(disk)| + s.stable
  {
    assert (disk + [s])[..|disk|] == disk;
  }

  lemma {:induction false} LinedMore(queue: seq<Request>, submitted: seq<Record>, asked: map<nat, nat>, from: nat, rec: Record)
    requires Lined(queue, submitted, asked, from)
    ensures Lined(queue + [AppendReq(|submitted|, rec)], submitted + [rec], asked, from)
    decreases |queue|
  {
    var queue', submitted' := queue + [AppendReq(|submitted|, rec)], submitted + [rec];
    if queue == [] {
      assert queue'[1..] == [];
    } else {
      assert queue'[1..] == queue[1..] + [AppendReq(|submitted|, rec)];
      LinedMore(queue[1..], submitted, asked, if queue[0].AppendReq? then from + 1 else from, rec);
    }
  }

  lemma {:induction false} LinedAsk(queue: seq<Request>, submitted: seq<Record>, asked: map<nat, nat>, from: nat, req: Request)
    requires Lined(queue, submitted, asked, from) && !req.AppendReq? && req.token !in asked
    ensures Lined(queue + [req], submitted, asked[req.token := |submitted|], from)
    decreases |queue|
  {
    if queue == [] {
      assert (queue + [req])[1..] == [];
    } else {
      assert (queue + [req])[1..] == queue[1..] + [req];
      LinedAsk(queue[1..], submitted, asked, if queue[0].AppendReq? then from + 1 else from, req);
    }
  }

  lemma AcksMore(base: nat, durable: nat, submitted: seq<Record>, more: seq<Record>, acks: map<nat, bool>)
    requires AcksOk(base, durable, submitted, acks)
    ensures AcksOk(base, durable, submitted + more, acks)
  {
    forall k | k in acks && acks[k] ensures OnDisk(base, durable, submitted + more, k) {
      assert (submitted + more)[..k + 1] == submitted[..k + 1];
    }
  }

  lemma SentMore(cfg: Config, queue: seq<Request>, submitted: seq<Record>, rec: Record)
    requires Sent(cfg, submitted) && QueueOk(queue, submitted)
    requires rec.shardId == cfg.header.shardId && rec.sequence == rec.command.sequence
    ensures Sent(cfg, submitted + [rec]) && QueueOk(queue + [AppendReq(|submitted|, rec)], submitted + [rec])
  {
  }

  lemma TakenMore(submitted: seq<Record>, taken: nat, acks: map<nat, bool>, waiting: seq<nat>, rec: Record)
    requires TakenOk(submitted, taken, acks, waiting)
    ensures TakenOk(submitted + [rec], taken, acks, waiting) && (submitted + [rec])[..taken] == submitted[..taken]
  {
  }

  lemma WaitsMore(submitted: seq<Record>, more: seq<Record>, taken: nat, b: Batch)
    requires WaitsOk(submitted, taken, b) && submitted <= more
    ensures WaitsOk(more, taken, b)
  {
    forall i | 0 <= i < |b.acks| ensures b.acks[i] < taken <= |more| && more[b.acks[i]] == b.records[i] {
      assert more[b.acks[i]] == submitted[b.acks[i]];
    }
  }

  lemma SubmitKeeps(cfg: Config, base: seq<Segment>, w: Writer, rec: Record)
    requires Inv(cfg, base, w) && rec.shardId == cfg.header.shardId && rec.sequence == rec.command.sequence
    ensures Inv(cfg, base, Submit(w, rec))
  {
    hide FilesOk, Torn, Intact, Lined, AcksOk, Keep, Sent, QueueOk, LogOk, Logged, BatchOk, WaitsOk;
    KeepMore(w.submitted, rec);
    SentMore(cfg, w.queue, w.submitted, rec);
    AcksMore(|Logged(base)|, Durable(w.disk), w.submitted, [rec], w.acks);
    if Alive(w.phase) {
      TakenMore(w.submitted, w.taken, w.acks, w.batch.acks, rec);
      WaitsMore(w.submitted, w.submitted + [rec], w.taken, w.batch);
      LinedMore(w.queue, w.submitted, w.asked, w.taken, rec);
    }
  }

  lemma AskKeeps(cfg: Config, base: seq<Segment>, w: Writer, req: Request)
    requires Inv(cfg, base, w) && !req.AppendReq? && req.token !in w.asked
    ensures Inv(cfg, base, Ask(w, req))
  {
    hide FilesOk, Torn, Intact, Lined, AcksOk, Keep, Sent, LogOk, Logged, BatchOk, WaitsOk;
    if Alive(w.phase) {
      LinedAsk(w.queue, w.submitted, w.asked, w.taken, req);
    }
  }

  lemma AddKeeps(cfg: Config, b: Batch, index: nat, rec: Record)
    requires Framed(cfg) && BatchOk(cfg, b) && !Full(cfg, b) && Good(rec) && rec.shardId == cfg.header.shardId
    ensures BatchOk(cfg, Add(cfg, b, index, rec))
  {
    FramesConcat(cfg.wire, b.records, [rec]);
    assert [rec][1..] == [];
    assert (b.records + [rec])[..|b.records|] == b.records;
  }

  lemma LogMore(base: seq<Record>, log: seq<Record>, unwritten: seq<Record>, submitted: seq<Record>, k: nat)
    requires k < |submitted| && LogOk(base, log, unwritten, submitted[..k])
    ensures LogOk(base, log, unwritten + if Good(submitted[k]) then [submitted[k]] else [], submitted[..k + 1])
  {
    KeepNext(submitted, k);
    var more := if Good(submitted[k]) then [submitted[k]] else [];
    assert log + (unwritten + more) == (log + unwritten) + more;
  }

  lemma TakenNext(submitted: seq<Record>, taken: nat, acks: map<nat, bool>, waiting: seq<nat>)
    requires TakenOk(submitted, taken, acks, waiting) && taken < |submitted|
    ensures TakenOk(submitted, taken + 1, acks[taken := false], waiting)
    ensures Good(submitted[taken]) ==> TakenOk(submitted, taken + 1, acks, waiting + [taken])
  {
    forall k | 0 <= k < taken + 1 ensures k in acks || k in waiting + [taken] {
      assert k < taken ==> k in acks || k in waiting;
    }
  }

  lemma WaitsNext(cfg: Config, submitted: seq<Record>, taken: nat, b: Batch)
    requires WaitsOk(submitted, taken, b) && taken < |submitted|
    ensures WaitsOk(submitted, taken + 1, b) && WaitsOk(submitted, taken + 1, Add(cfg, b, taken, submitted[taken]))
  {
    hide Frames;
    var b' := Add(cfg, b, taken, submitted[taken]);
    forall i | 0 <= i < |b'.acks| ensures b'.acks[i] < taken + 1 && submitted[b'.acks[i]] == b'.records[i] {
      assert i < |b.acks| ==> b'.acks[i] == b.acks[i] && b'.records[i] == b.records[i];
    }
  }

  lemma AcksRefused(base: nat, durable: nat, submitted: seq<Record>, acks: map<nat, bool>, k: nat)
    requires AcksOk(base, durable, submitted, acks) && k < |submitted|
    ensures AcksOk(base, durable, submitted, acks[k := false])
  {
  }

  lemma TakeAppendKeeps(cfg: Config, base: seq<Segment>, w: Writer)
    requires Framed(cfg) && Inv(cfg, base, w) && w.phase.Idle? && w.queue != [] && w.queue[0].AppendReq?
    ensures Inv(cfg, base, Take(cfg, w))
  {
    hide FilesOk, Torn, Intact, AcksOk, Keep, LogOk, Logged, BatchOk, WaitsOk;
    var rec := w.submitted[w.taken];
    LogMore(Logged(base), Logged(w.disk), w.batch.records, w.submitted, w.taken);
    TakenNext(w.submitted, w.taken, w.acks, w.batch.acks);
    WaitsNext(cfg, w.submitted, w.taken, w.batch);
    AcksRefused(|Logged(base)|, Durable(w.disk), w.submitted, w.acks, w.taken);
    if Good(rec) {
      AddKeeps(cfg, w.batch, w.taken, rec);
    } else {
      assert w.batch.records + [] == w.batch.records;
    }
  }

  lemma TakeOtherKeeps(cfg: Config, base: seq<Segment>, w: Writer)
    requires Inv(cfg, base, w) && w.phase.Idle? && w.queue != [] && !w.queue[0].AppendReq?
    ensures Inv(cfg, base, Take(cfg, w))
  {
    hide FilesOk, Torn, Intact, AcksOk, Keep, Sent, LogOk, Logged, BatchOk, TakenOk, WaitsOk;
  }

  /** A flush that is over closes its token. */
  lemma SettleDone(w: Writer, after: After, acks: map<nat, bool>)
    requires !w.failed && DoneOk(w.done, w.asked, w.acks) && w.acks.Keys <= acks.Keys
    requires TakenOk(w.submitted, w.taken, acks, [])
    requires after.Answer? || after.Stop? ==> after.token in w.asked && w.asked[after.token] <= w.taken
    ensures DoneOk(Close(w.done, after), w.asked, acks)
  {
    forall t | t in w.done ensures Covered(w.asked[t], acks) {
      assert Covered(w.asked[t], w.acks);
    }
  }

  lemma FlushKeeps(cfg: Config, base: seq<Segment>, w: Writer)
    requires Framed(cfg) && Inv(cfg, base, w) && w.phase.Flushing?
    ensures Inv(cfg, base, Flush(cfg, w))
  {
    hide Torn, Intact, Lined, AcksOk, Keep, Sent, QueueOk, Logged, TakenOk, WaitsOk, LogOk, Frames;
    IntactIsTorn(cfg, Last(w.disk));
    if w.batch.acks == [] {
      SettleDone(w, w.phase.after, w.acks);
    }
  }

  lemma AllRefused(base: nat, durable: nat, submitted: seq<Record>, acks: map<nat, bool>, ks: seq<nat>)
    requires AcksOk(base, durable, submitted, acks) && forall k :: k in ks ==> k < |submitted|
    ensures AcksOk(base, durable, submitted, AckAll(acks, ks, false))
  {
    AckAllMeaning(acks, ks, false);
  }

  /** When everything taken is durable, everything that waits may be acknowledged. */
  lemma AllGranted(base: nat, durable: nat, w: Writer, more: nat)
    requires AcksOk(base, durable, w.submitted, w.acks) && durable <= more
    requires TakenOk(w.submitted, w.taken, w.acks, w.batch.acks)
    requires more >= base + |Keep(w.submitted[..w.taken])|
    ensures AcksOk(base, more, w.submitted, AckAll(w.acks, w.batch.acks, true))
    ensures TakenOk(w.submitted, w.taken, AckAll(w.acks, w.batch.acks, true), [])
    ensures w.acks.Keys <= AckAll(w.acks, w.batch.acks, true).Keys
  {
    hide AckAll, Keep;
    var acks := AckAll(w.acks, w.batch.acks, true);
    AckAllMeaning(w.acks, w.batch.acks, true);
    forall k | k in acks && acks[k] ensures k < |w.submitted| && OnDisk(base, more, w.submitted, k) {
      if k in w.batch.acks {
        KeepPrefix(w.submitted[..w.taken], k + 1);
        assert w.submitted[..w.taken][..k + 1] == w.submitted[..k + 1];
      }
    }
  }

  lemma IntactIsTorn(cfg: Config, s: Segment)
    requires Intact(cfg, s)
    ensures Torn(cfg, s)
  {
    assert s.synced + [] == s.synced && s.records[..s.stable] == s.records;
  }

  lemma BlankIsTorn(cfg: Config, synced: Data, unsynced: Data)
    requires synced + unsynced <= cfg.wire.head(cfg.header)
    ensures Torn(cfg, Blank(synced, unsynced))
  {
    assert cfg.wire.head(cfg.header) + [] == cfg.wire.head(cfg.header);
  }

  lemma LastIsTorn(cfg: Config, phase: Phase, last: Segment, size: nat, bytes: Data)
    requires LastOk(cfg, phase, last, size, bytes)
    ensures Torn(cfg, last)
  {
    var head := cfg.wire.head(cfg.header);
    assert [] + head == head && head + [] == head;
    BlankIsTorn(cfg, [], []);
    BlankIsTorn(cfg, [], head);
    BlankIsTorn(cfg, head, []);
    if Intact(cfg, last) {
      IntactIsTorn(cfg, last);
    }
  }

  /** The writer dies with its last segment in whatever state it is. */
  lemma BreakKeeps(cfg: Config, base: seq<Segment>, w: Writer)
    requires w.phase.Opening? || w.phase.Writing? || w.phase.Syncing?
    requires FilesOk(cfg, base, w.disk) && (w.disk != [] ==> Torn(cfg, Last(w.disk)))
    requires TakenOk(w.submitted, w.taken, w.acks, w.batch.acks)
    requires Sent(cfg, w.submitted) && QueueOk(w.queue, w.submitted) && Logged(w.disk) <= Logged(base) + Keep(w.submitted)
    requires AcksOk(|Logged(base)|, Durable(w.disk), w.submitted, w.acks)
    ensures Inv(cfg, base, Break(w))
  {
    hide FilesOk, Torn, Intact, Lined, AcksOk, Keep, Sent, QueueOk, Logged, LogOk, Frames;
    AllRefused(|Logged(base)|, Durable(w.disk), w.submitted, w.acks, w.batch.acks);
  }

  lemma FailKeeps(cfg: Config, base: seq<Segment>, w: Writer)
    requires Inv(cfg, base, w) && (w.phase.Opening? || w.phase.Writing? || w.phase.Syncing?)
    ensures Inv(cfg, base, Break(w))
  {
    hide FilesOk, Torn, Lined, AcksOk, Keep, Sent, QueueOk, LogOk, Logged, BatchOk, TakenOk, WaitsOk;
    if w.disk != [] {
      LastIsTorn(cfg, w.phase, Last(w.disk), w.currentSize, w.batch.bytes);
    }
    BreakKeeps(cfg, base, w);
  }

  /** Replacing the last segment by a good one. */
  lemma FilesLast(cfg: Config, base: seq<Segment>, disk: seq<Segment>, s: Segment)
    requires FilesOk(cfg, base, disk) && |disk| > |base| && Bounded(cfg, s)
    ensures FilesOk(cfg, base, SetLast(disk, s))
  {
    SetLastMeaning(disk, s);
  }

  lemma CreateDisk(cfg: Config, base: seq<Segment>, disk: seq<Segment>, after: After, size: nat, bytes: Data)
    requires DiskOk(cfg, base, disk, Opening(NewFile, after), size, bytes)
    ensures var disk' := disk + [Blank([], [])];
            && DiskOk(cfg, base, disk', Opening(WriteHeader, after), size, bytes)
            && Logged(disk') == Logged(disk) && Durable(disk') == Durable(disk)
  {
    AddedMeaning(disk, Blank([], []));
    assert Logged(disk) + [] == Logged(disk);
  }

  lemma CreateKeeps(cfg: Config, base: seq<Segment>, w: Writer)
    requires Inv(cfg, base, w) && Enabled(cfg, w, CreateFile)
    ensures Inv(cfg, base, Next(cfg, w, CreateFile))
  {
    hide FilesOk, Torn, Intact, Lined, AcksOk, Keep, Sent, QueueOk, LogOk, Logged, BatchOk, WaitsOk;
    CreateDisk(cfg, base, w.disk, w.phase.after, w.currentSize, w.batch.bytes);
  }

  lemma HeaderDisk(cfg: Config, base: seq<Segment>, disk: seq<Segment>, after: After, size: nat, bytes: Data, kept: nat)
    requires DiskOk(cfg, base, disk, Opening(WriteHeader, after), size, bytes) && kept <= |cfg.wire.head(cfg.header)|
    ensures disk != []
    ensures var head := cfg.wire.head(cfg.header); var disk' := SetLast(disk, Last(disk).(unsynced := head[..kept]));
            && FilesOk(cfg, base, disk') && Torn(cfg, Last(disk'))
            && Logged(disk') == Logged(disk) && Durable(disk') == Durable(disk)
            && (kept == |head| ==> DiskOk(cfg, base, disk', Opening(SyncHeader, after), size, bytes))
  {
    hide Intact, Torn, Logged;
    var head := cfg.wire.head(cfg.header);
    var s := Blank([], head[..kept]);
    SetLastMeaning(disk, s);
    LoggedLast(disk);
    FilesLast(cfg, base, disk, s);
    assert [] + head[..kept] == head[..kept] && head[..|head|] == head;
    BlankIsTorn(cfg, [], head[..kept]);
  }

  lemma LoggedLast(disk: seq<Segment>)
    requires disk != []
    ensures Logged(disk) == Logged(disk[..|disk| - 1]) + Last(disk).records
  {
  }

  lemma PutHeaderKeeps(cfg: Config, base: seq<Segment>, w: Writer, kept: nat)
    requires Inv(cfg, base, w) && Enabled(cfg, w, PutHeader(kept))
    ensures Inv(cfg, base, Next(cfg, w, PutHeader(kept)))
  {
    hide FilesOk, Torn, Intact, Lined, AcksOk, Keep, Sent, QueueOk, LogOk, Logged, BatchOk, TakenOk, WaitsOk, SetLast;
    HeaderDisk(cfg, base, w.disk, w.phase.after, w.currentSize, w.batch.bytes, kept);
    var head := cfg.wire.head(cfg.header);
    if kept < |head| {
      BreakKeeps(cfg, base, w.(disk := SetLast(w.disk, Last(w.disk).(unsynced := head[..kept]))));
    }
  }

  lemma HeadedDisk(cfg: Config, base: seq<Segment>, disk: seq<Segment>, after: After, size: nat, bytes: Data)
    requires DiskOk(cfg, base, disk, Opening(SyncHeader, after), size, bytes)
    ensures disk != []
    ensures var last := Last(disk); var disk' := SetLast(disk, last.(synced := last.synced + last.unsynced, unsynced := []));
            && DiskOk(cfg, base, disk', Opening(SyncDirectory, after), size, bytes)
            && Logged(disk') == Logged(disk) && Durable(disk') == Durable(disk)
  {
    hide Intact, Torn, Logged, SetLast;
    var s := Blank(cfg.wire.head(cfg.header), []);
    SetLastMeaning(disk, s);
    LoggedLast(disk);
    FilesLast(cfg, base, disk, s);
    assert [] + cfg.wire.head(cfg.header) == cfg.wire.head(cfg.header);
  }

  lemma SyncHeadKeeps(cfg: Config, base: seq<Segment>, w: Writer)
    requires Inv(cfg, base, w) && Enabled(cfg, w, SyncHead)
    ensures Inv(cfg, base, Next(cfg, w, SyncHead))
  {
    hide FilesOk, Torn, Intact, Lined, AcksOk, Keep, Sent, QueueOk, LogOk, Logged, BatchOk, WaitsOk;
    HeadedDisk(cfg, base, w.disk, w.phase.after, w.currentSize, w.batch.bytes);
  }

  lemma OpenedDisk(cfg: Config, base: seq<Segment>, disk: seq<Segment>, after: After, size: nat, bytes: Data)
    requires DiskOk(cfg, base, disk, Opening(SyncDirectory, after), size, bytes)
    ensures disk != []
    ensures var disk' := SetLast(disk, Last(disk).(linked := true));
            && (forall p: Phase :: p.Idle? || p.Writing? ==> DiskOk(cfg, base, disk', p, |cfg.wire.head(cfg.header)|, bytes))
            && Logged(disk') == Logged(disk) && Durable(disk') == Durable(disk)
  {
    var s := Last(disk).(linked := true);
    SetLastMeaning(disk, s);
    FilesLast(cfg, base, disk, s);
    assert cfg.wire.head(cfg.header) + [] == cfg.wire.head(cfg.header);
  }

  lemma SyncDirKeeps(cfg: Config, base: seq<Segment>, w: Writer)
    requires Inv(cfg, base, w) && Enabled(cfg, w, SyncDir) && Framed(cfg)
    ensures Inv(cfg, base, Next(cfg, w, SyncDir))
  {
    hide FilesOk, Torn, Intact, Lined, AcksOk, Keep, Sent, QueueOk, LogOk, Logged, WaitsOk;
    OpenedDisk(cfg, base, w.disk, w.phase.after, w.currentSize, w.batch.bytes);
  }

  lemma SegmentGrows(cfg: Config, a: seq<Record>, b: seq<Record>)
    ensures SegmentBytes(cfg.wire, cfg.header, a + b) == SegmentBytes(cfg.wire, cfg.header, a) + Frames(cfg.wire, b)
  {
    hide Frames;
    FramesConcat(cfg.wire, a, b);
    var head := cfg.wire.head(cfg.header);
    assert head + (Frames(cfg.wire, a) + Frames(cfg.wire, b)) == (head + Frames(cfg.wire, a)) + Frames(cfg.wire, b);
  }

  /** A segment with a batch written, wholly or in part, behind its records. */
  lemma FilledOk(cfg: Config, s: Segment, b: Batch, kept: nat)
    requires Intact(cfg, s) && BatchOk(cfg, b) && kept <= |b.bytes|
    requires s.records == [] || |s.synced| + |b.bytes| <= cfg.segmentMax
    ensures Torn(cfg, Filled(s, b, kept)) && Bounded(cfg, Filled(s, b, kept))
    ensures s.synced + b.bytes == SegmentBytes(cfg.wire, cfg.header, s.records + b.records)
  {
    SegmentGrows(cfg, s.records, b.records);
    assert (s.records + b.records)[..s.stable] == s.records;
    assert s.records == [] ==> s.records + b.records == b.records;
    assert s.synced + b.bytes[..kept] <= s.synced + b.bytes;
  }

  lemma LogWritten(base: seq<Segment>, w: Writer)
    requires w.disk != [] && TakenOk(w.submitted, w.taken, w.acks, w.batch.acks)
    requires LogOk(Logged(base), Logged(w.disk), w.batch.records, w.submitted[..w.taken])
    ensures var log := Logged(w.disk[..|w.disk| - 1]) + (Last(w.disk).records + w.batch.records);
            && LogOk(Logged(base), log, [], w.submitted[..w.taken])
            && log <= Logged(base) + Keep(w.submitted)
  {
    var log := Logged(w.disk) + w.batch.records;
    assert Logged(w.disk[..|w.disk| - 1]) + (Last(w.disk).records + w.batch.records) == log;
    assert log + [] == log;
    KeepPrefix(w.submitted, w.taken);
  }

  lemma WriteDisk(cfg: Config, base: seq<Segment>, disk: seq<Segment>, after: After, size: nat, b: Batch, kept: nat)
    requires DiskOk(cfg, base, disk, Writing(after), size, b.bytes) && BatchOk(cfg, b) && kept <= |b.bytes|
    ensures disk != []
    ensures var disk' := SetLast(disk, Filled(Last(disk), b, kept));
            && FilesOk(cfg, base, disk') && Torn(cfg, Last(disk')) && Durable(disk') == Durable(disk)
            && Logged(disk') == Logged(disk[..|disk| - 1]) + (Last(disk).records + b.records)
            && (kept == |b.bytes| ==> DiskOk(cfg, base, disk', Syncing(after), size, b.bytes))
  {
    hide Frames, SegmentBytes, Loggable, SmallBatch, Logged;
    var s := Filled(Last(disk), b, kept);
    FilledOk(cfg, Last(disk), b, kept);
    SetLastMeaning(disk, s);
    FilesLast(cfg, base, disk, s);
    assert b.bytes[..|b.bytes|] == b.bytes;
  }

  lemma WriteKeeps(cfg: Config, base: seq<Segment>, w: Writer, kept: nat)
    requires Inv(cfg, base, w) && Enabled(cfg, w, PutBatch(kept))
    ensures Inv(cfg, base, Write(w, kept))
  {
    hide FilesOk, Torn, Intact, Lined, AcksOk, Keep, Sent, QueueOk, WaitsOk, Logged, SetLast, Filled;
    WriteDisk(cfg, base, w.disk, w.phase.after, w.currentSize, w.batch, kept);
    LogWritten(base, w);
    if kept < |w.batch.bytes| {
      BreakKeeps(cfg, base, w.(disk := SetLast(w.disk, Filled(Last(w.disk), w.batch, kept))));
    }
  }

  lemma SettledIntact(cfg: Config, s: Segment, bytes: Data)
    requires Torn(cfg, s) && s.unsynced == bytes && s.linked
    requires s.synced + bytes == SegmentBytes(cfg.wire, cfg.header, s.records)
    ensures Intact(cfg, Settled(s)) && Torn(cfg, Settled(s))
  {
    hide Frames, SegmentBytes, Loggable;
    IntactIsTorn(cfg, Settled(s));
  }

  lemma SettledBounded(cfg: Config, s: Segment)
    requires Bounded(cfg, s)
    ensures Bounded(cfg, Settled(s))
  {
    hide SmallBatch;
  }

  lemma SyncDisk(cfg: Config, base: seq<Segment>, disk: seq<Segment>, after: After, size: nat, bytes: Data)
    requires DiskOk(cfg, base, disk, Syncing(after), size, bytes)
    ensures disk != []
    ensures var disk' := SetLast(disk, Settled(Last(disk)));
            && (forall p: Phase :: p.Idle? || p.Stopped? ==> DiskOk(cfg, base, disk', p, size + |bytes|, []))
            && Logged(disk') == Logged(disk) && Durable(disk') == |Logged(disk)| >= Durable(disk)
  {
    hide SegmentBytes, Intact, Bounded, Logged, SetLast;
    var s := Settled(Last(disk));
    SetLastMeaning(disk, s);
    LoggedLast(disk);
    SettledIntact(cfg, Last(disk), bytes);
    LastBounded(cfg, base, disk);
    SettledBounded(cfg, Last(disk));
    FilesLast(cfg, base, disk, s);
  }

  lemma LastBounded(cfg: Config, base: seq<Segment>, disk: seq<Segment>)
    requires FilesOk(cfg, base, disk) && |disk| > |base|
    ensures Bounded(cfg, Last(disk))
  {
  }

  lemma EmptyBatchOk(cfg: Config)
    requires Framed(cfg)
    ensures BatchOk(cfg, NO_BATCH) && PhaseOk(cfg, Idle, NO_BATCH)
  {
  }

  /** What waited is acknowledged, and nothing waits any more. */
  lemma SyncedAcks(cfg: Config, base: seq<Segment>, w: Writer)
    requires Inv(cfg, base, w) && w.phase.Syncing? && Durable(w.disk) <= |Logged(w.disk)|
    ensures var acks := AckAll(w.acks, w.batch.acks, true);
            && AcksOk(|Logged(base)|, |Logged(w.disk)|, w.submitted, acks) && TakenOk(w.submitted, w.taken, acks, [])
            && DoneOk(Close(w.done, w.phase.after), w.asked, acks)
  {
    hide DiskOk, Lined, AcksOk, Keep, Sent, QueueOk, Logged, BatchOk, TakenOk, WaitsOk, DoneOk, AckAll, Durable;
    assert Logged(w.disk) + [] == Logged(w.disk);
    AllGranted(|Logged(base)|, Durable(w.disk), w, |Logged(w.disk)|);
    SettleDone(w, w.phase.after, AckAll(w.acks, w.batch.acks, true));
  }

  lemma NothingWaits(submitted: seq<Record>, taken: nat)
    requires taken <= |submitted|
    ensures WaitsOk(submitted, taken, NO_BATCH)
  {
  }

  lemma SyncKeeps(cfg: Config, base: seq<Segment>, w: Writer)
    requires Framed(cfg) && Inv(cfg, base, w) && Enabled(cfg, w, SyncBatch)
    ensures Inv(cfg, base, Sync(w))
  {
    hide DiskOk, Lined, AcksOk, Keep, Sent, QueueOk, Logged, BatchOk, WaitsOk, DoneOk, Durable, AckAll, SetLast, Settled, Close;
    SyncDisk(cfg, base, w.disk, w.phase.after, w.currentSize, w.batch.bytes);
    EmptyBatchOk(cfg);
    NothingWaits(w.submitted, w.taken);
    assert Logged(w.disk) + [] == Logged(w.disk);
    SyncedAcks(cfg, base, w);
    assert Sync(w).phase.Idle? || Sync(w).phase.Stopped?;
  }

  lemma RejectKeeps(cfg: Config, base: seq<Segment>, w: Writer)
    requires Inv(cfg, base, w) && Enabled(cfg, w, RejectOne)
    ensures Inv(cfg, base, Reject(w))
  {
    if w.queue[0].AppendReq? {
      AcksRefused(|Logged(base)|, Durable(w.disk), w.submitted, w.acks, w.queue[0].index);
    }
  }

  /** Nothing is ever withdrawn from the acknowledgement channels. */
  lemma StepAcks(cfg: Config, w: Writer, a: Action)
    requires Enabled(cfg, w, a)
    ensures Next(cfg, w, a).asked == w.asked && w.acks.Keys <= Next(cfg, w, a).acks.Keys
  {
    hide AckAll, SetLast, Filled, Settled, Add;
    AckAllMeaning(w.acks, w.batch.acks, true);
    AckAllMeaning(w.acks, w.batch.acks, false);
  }

  lemma StepGrows(cfg: Config, base: seq<Segment>, w: Writer, a: Action)
    requires Inv(cfg, base, w) && Enabled(cfg, w, a)
    ensures Next(cfg, w, a).submitted == w.submitted && Durable(Next(cfg, w, a).disk) >= Durable(w.disk)
  {
    hide FilesOk, Torn, Intact, Lined, AcksOk, Keep, Sent, LogOk, BatchOk, TakenOk, WaitsOk, Logged;
    var after := if w.phase.Opening? || w.phase.Writing? || w.phase.Syncing? then w.phase.after else Resume;
    match a {
      case CreateFile => CreateDisk(cfg, base, w.disk, after, w.currentSize, w.batch.bytes);
      case PutHeader(kept) => SetLastMeaning(w.disk, Blank([], cfg.wire.head(cfg.header)[..kept]));
      case SyncHead => HeadedDisk(cfg, base, w.disk, after, w.currentSize, w.batch.bytes);
      case SyncDir => OpenedDisk(cfg, base, w.disk, after, w.currentSize, w.batch.bytes);
      case PutBatch(kept) => WriteDisk(cfg, base, w.disk, after, w.currentSize, w.batch, kept);
      case SyncBatch => SyncDisk(cfg, base, w.disk, after, w.currentSize, w.batch.bytes);
      case _ =>
    }
  }

  lemma TimerKeeps(cfg: Config, base: seq<Segment>, w: Writer)
    requires Inv(cfg, base, w) && w.phase.Idle?
    ensures Inv(cfg, base, w.(phase := Flushing(Resume)))
  {
    hide FilesOk, Torn, Intact, Lined, AcksOk, Keep, Sent, QueueOk, LogOk, Logged, BatchOk, TakenOk, WaitsOk;
  }

  lemma EndRejectKeeps(cfg: Config, base: seq<Segment>, w: Writer)
    requires Inv(cfg, base, w) && w.phase.Rejecting?
    ensures Inv(cfg, base, w.(phase := Stopped, done := Close(w.done, w.phase.after)))
  {
    hide FilesOk, Torn, Intact, Lined, AcksOk, Keep, Sent, QueueOk, LogOk, Logged, BatchOk, TakenOk, WaitsOk;
  }

  lemma StepKeeps(cfg: Config, base: seq<Segment>, w: Writer, a: Action)
    requires Framed(cfg) && Inv(cfg, base, w) && Enabled(cfg, w, a)
    ensures Inv(cfg, base, Next(cfg, w, a))
    ensures Next(cfg, w, a).submitted == w.submitted && Durable(Next(cfg, w, a).disk) >= Durable(w.disk)
  {
    StepGrows(cfg, base, w, a);
    hide Inv, Take, Flush, Write, Sync, Break, Reject, Logged, Durable;
    match a {
      case TakeRequest =>
        if w.queue[0].AppendReq? {
          TakeAppendKeeps(cfg, base, w);
        } else {
          TakeOtherKeeps(cfg, base, w);
        }
      case TimerFires => TimerKeeps(cfg, base, w);
      case EndReject => EndRejectKeeps(cfg, base, w);
      case BeginFlush => FlushKeeps(cfg, base, w);
      case CreateFile => CreateKeeps(cfg, base, w);
      case PutHeader(kept) => PutHeaderKeeps(cfg, base, w, kept);
      case SyncHead => SyncHeadKeeps(cfg, base, w);
      case SyncDir => SyncDirKeeps(cfg, base, w);
      case PutBatch(kept) => WriteKeeps(cfg, base, w, kept);
      case SyncBatch => SyncKeeps(cfg, base, w);
      case Fail => FailKeeps(cfg, base, w);
      case RejectOne => RejectKeeps(cfg, base, w);
    }
  }

  lemma StartsWell(cfg: Config, base: seq<Segment>)
    requires forall i :: 0 <= i < |base| ==> Intact(cfg, base[i])
    ensures Inv(cfg, base, Start(base))
  {
  }

  // ---- Crashes ----

  /** What a crash can leave of a file: all synced bytes and any beginning of the others. */
  ghost predicate Remains(s: Segment, file: Data) {
    s.synced <= file && file <= s.synced + s.unsynced
  }

  /** A file whose directory entry is not synced may be lost as a whole. */
  ghost predicate CrashLeaves(disk: seq<Segment>, files: seq<Data>) {
    && (|files| == |disk| || (disk != [] && !Last(disk).linked && |files| == |disk| - 1))
    && (forall i :: 0 <= i < |files| ==> Remains(disk[i], files[i]))
  }

  function PieceOf(s: Segment, file: Data): Piece {
    Piece(s.records, |file|)
  }

  lemma TornPiece(cfg: Config, s: Segment, file: Data)
    requires Usable(cfg) && Torn(cfg, s) && Remains(s, file)
    ensures Proper(cfg.wire, cfg.header, PieceOf(s, file)) && Image(cfg.wire, cfg.header, PieceOf(s, file)) == file
    ensures Survivors(cfg.wire, cfg.header, PieceOf(s, file)) <= s.records
    ensures s.stable <= |Survivors(cfg.wire, cfg.header, PieceOf(s, file))|
  {
    hide Faithful, Progress, Loggable, Frames;
    var head := |cfg.wire.head(cfg.header)|;
    if s.stable > 0 {
      WholeIsMaximal(cfg.wire, s.records, |file| - head, s.stable);
    }
  }

  lemma IntactPiece(cfg: Config, s: Segment, file: Data)
    requires Usable(cfg) && Intact(cfg, s) && Remains(s, file)
    ensures Proper(cfg.wire, cfg.header, PieceOf(s, file)) && Image(cfg.wire, cfg.header, PieceOf(s, file)) == file
    ensures Clean(cfg.wire, cfg.header, PieceOf(s, file))
    ensures Survivors(cfg.wire, cfg.header, PieceOf(s, file)) == s.records
  {
    hide Faithful, Progress, Loggable, Frames;
    IntactIsTorn(cfg, s);
    TornPiece(cfg, s, file);
    assert file == s.synced;
    assert s.records[..|s.records|] == s.records;
  }

  lemma {:induction false} ImagesAt(w: Wire, h: SegmentHeader, ps: seq<Piece>, i: nat)
    requires AllProper(w, h, ps) && i < |ps|
    ensures |Images(w, h, ps)| == |ps| && Images(w, h, ps)[i] == Image(w, h, ps[i])
  {
    if |ps| > 1 {
      ImagesAt(w, h, ps[1..], if i > 0 then i - 1 else 0);
    }
  }

  lemma {:induction false} SurvivorsSnoc(w: Wire, h: SegmentHeader, ps: seq<Piece>, p: Piece)
    requires AllProper(w, h, ps) && Proper(w, h, p)
    ensures AllProper(w, h, ps + [p])
    ensures AllSurvivors(w, h, ps + [p]) == AllSurvivors(w, h, ps) + Survivors(w, h, p)
  {
    if ps == [] {
      assert ps + [p] == [p] && [p][1..] == [];
    } else {
      assert (ps + [p])[1..] == ps[1..] + [p];
      SurvivorsSnoc(w, h, ps[1..], p);
    }
  }

  function Pieces(disk: seq<Segment>, files: seq<Data>): (ps: seq<Piece>)
    requires |files| == |disk|
    ensures |ps| == |disk| && forall i :: 0 <= i < |ps| ==> ps[i] == PieceOf(disk[i], files[i])
  {
    seq(|disk|, i requires 0 <= i < |disk| => PieceOf(disk[i], files[i]))
  }

  lemma {:induction false} IntactSurvive(cfg: Config, disk: seq<Segment>, files: seq<Data>)
    requires Usable(cfg) && |files| == |disk|
    requires forall i :: 0 <= i < |disk| ==> Intact(cfg, disk[i]) && Remains(disk[i], files[i])
    ensures AllProper(cfg.wire, cfg.header, Pieces(disk, files))
    ensures AllSurvivors(cfg.wire, cfg.header, Pieces(disk, files)) == Logged(disk)
  {
    hide Faithful, Progress, Survivors, Frames, Loggable;
    if disk != [] {
      var n := |disk| - 1;
      IntactSurvive(cfg, disk[..n], files[..n]);
      IntactPiece(cfg, disk[n], files[n]);
      assert Pieces(disk, files) == Pieces(disk[..n], files[..n]) + [PieceOf(disk[n], files[n])];
      SurvivorsSnoc(cfg.wire, cfg.header, Pieces(disk[..n], files[..n]), PieceOf(disk[n], files[n]));
    }
  }

  /** All files of a crash, each a piece of its segment; all but the last are whole. */
  lemma PiecesOf(cfg: Config, disk: seq<Segment>, files: seq<Data>)
    requires Usable(cfg) && |files| == |disk| && disk != []
    requires forall i :: 0 <= i < |disk| ==> Remains(disk[i], files[i])
    requires forall i :: 0 <= i < |disk| - 1 ==> Intact(cfg, disk[i])
    requires Torn(cfg, Last(disk))
    ensures AllProper(cfg.wire, cfg.header, Pieces(disk, files)) && CleanButLast(cfg.wire, cfg.header, Pieces(disk, files))
    ensures Images(cfg.wire, cfg.header, Pieces(disk, files)) == files
  {
    hide Faithful, Progress, Frames, Loggable, Remains, Intact, Torn;
    var ps := Pieces(disk, files);
    forall i | 0 <= i < |disk|
      ensures Proper(cfg.wire, cfg.header, ps[i]) && Image(cfg.wire, cfg.header, ps[i]) == files[i]
      ensures i < |disk| - 1 ==> Clean(cfg.wire, cfg.header, ps[i])
    {
      if i < |disk| - 1 {
        IntactPiece(cfg, disk[i], files[i]);
      } else {
        TornPiece(cfg, disk[i], files[i]);
      }
    }
    forall i | 0 <= i < |disk|
      ensures |Images(cfg.wire, cfg.header, ps)| == |ps| && Images(cfg.wire, cfg.header, ps)[i] == files[i]
    {
      ImagesAt(cfg.wire, cfg.header, ps, i);
    }
  }

  lemma DiskSurvivors(cfg: Config, disk: seq<Segment>, files: seq<Data>)
    requires Usable(cfg) && |files| == |disk| && disk != []
    requires forall i :: 0 <= i < |disk| ==> Remains(disk[i], files[i])
    requires forall i :: 0 <= i < |disk| - 1 ==> Intact(cfg, disk[i])
    requires Torn(cfg, Last(disk)) && AllProper(cfg.wire, cfg.header, Pieces(disk, files))
    ensures var rs := AllSurvivors(cfg.wire, cfg.header, Pieces(disk, files));
            rs <= Logged(disk) && Durable(disk) <= |rs|
  {
    hide Faithful, Progress, Survivors, Frames, Loggable;
    var n := |disk| - 1;
    var front, p := Pieces(disk[..n], files[..n]), PieceOf(disk[n], files[n]);
    IntactSurvive(cfg, disk[..n], files[..n]);
    TornPiece(cfg, disk[n], files[n]);
    assert Pieces(disk, files) == front + [p];
    SurvivorsSnoc(cfg.wire, cfg.header, front, p);
  }

  ghost predicate Readable(cfg: Config, disk: seq<Segment>, files: seq<Data>, validate: bool)
    requires Progress(cfg.wire)
  {
    var r := ReadShard(cfg.wire, files, cfg.header, validate);
    r.Records? && r.records <= Logged(disk) && Durable(disk) <= |r.records|
  }

  lemma ReadDisk(cfg: Config, disk: seq<Segment>, files: seq<Data>, validate: bool)
    requires Usable(cfg) && |files| == |disk|
    requires forall i :: 0 <= i < |disk| ==> Remains(disk[i], files[i])
    requires forall i :: 0 <= i < |disk| - 1 ==> Intact(cfg, disk[i])
    requires disk != [] ==> Torn(cfg, Last(disk))
    ensures Readable(cfg, disk, files, validate)
  {
    hide Faithful, Progress, Remains, Intact, CleanButLast;
    if disk != [] {
      PiecesOf(cfg, disk, files);
      DiskSurvivors(cfg, disk, files);
      CutShard(cfg.wire, cfg.header, Pieces(disk, files), validate);
    }
  }

  /** Crash safety of the log: after a crash at any moment the shard's files can be read, and hold the
      old records followed by a beginning of the encodable records submitted, in order; every record
      that was acknowledged with success is among them. */
  lemma ReadBack(cfg: Config, base: seq<Segment>, w: Writer, files: seq<Data>, validate: bool)
    requires Usable(cfg) && Inv(cfg, base, w) && CrashLeaves(w.disk, files)
    ensures var r := ReadShard(cfg.wire, files, cfg.header, validate);
            && r.Records? && r.records <= Logged(base) + Keep(w.submitted)
            && Logged(base) <= r.records && Durable(w.disk) <= |r.records|
            && forall k :: k in w.acks && w.acks[k] ==> Logged(base) + Keep(w.submitted[..k + 1]) <= r.records
  {
    hide Faithful, Progress, LastOk, Working, CrashLeaves, Sent, QueueOk, Torn, Logged, Durable, Intact, DoneOk, Keep, ReadShard, Bounded;
    CrashReadable(cfg, base, w, files, validate);
    BaseDurable(cfg, base, w.disk);
    var all := Logged(base) + Keep(w.submitted);
    var rs := ReadShard(cfg.wire, files, cfg.header, validate).records;
    forall k | k in w.acks && w.acks[k] ensures Logged(base) + Keep(w.submitted[..k + 1]) <= rs {
      assert OnDisk(|Logged(base)|, Durable(w.disk), w.submitted, k);
      KeepPrefix(w.submitted, k + 1);
      PrefixesOfOne(Logged(base) + Keep(w.submitted[..k + 1]), rs, all);
    }
    PrefixesOfOne(Logged(base), rs, all);
  }

  lemma CrashReadable(cfg: Config, base: seq<Segment>, w: Writer, files: seq<Data>, validate: bool)
    requires Usable(cfg) && Inv(cfg, base, w) && CrashLeaves(w.disk, files)
    ensures Readable(cfg, w.disk, files, validate)
  {
    hide Faithful, Progress, LastOk, Working, Remains, Sent, QueueOk, AcksOk, Intact, Torn;
    if w.disk != [] {
      LastIsTorn(cfg, w.phase, Last(w.disk), w.currentSize, w.batch.bytes);
    }
    if |files| < |w.disk| {
      DropUnlinked(cfg, w.disk);
      ReadDisk(cfg, w.disk[..|w.disk| - 1], files, validate);
    } else {
      ReadDisk(cfg, w.disk, files, validate);
    }
  }

  lemma PrefixesOfOne(a: seq<Record>, b: seq<Record>, all: seq<Record>)
    requires a <= all && b <= all && |a| <= |b|
    ensures a <= b
  {
  }

  lemma DropUnlinked(cfg: Config, disk: seq<Segment>)
    requires disk != [] && Torn(cfg, Last(disk)) && !Last(disk).linked
    requires forall i :: 0 <= i < |disk| - 1 ==> Intact(cfg, disk[i])
    ensures var front := disk[..|disk| - 1];
            && Logged(front) == Logged(disk) && Durable(front) == Durable(disk)
            && (front != [] ==> Torn(cfg, Last(front)))
  {
    var front := disk[..|disk| - 1];
    assert Logged(front) + [] == Logged(front);
    if front != [] {
      IntactIsTorn(cfg, Last(front));
    }
  }

  lemma {:induction false} LoggedPrefix(base: seq<Segment>, disk: seq<Segment>)
    requires base <= disk
    ensures Logged(base) <= Logged(disk)
  {
    if |base| < |disk| {
      LoggedPrefix(base, disk[..|disk| - 1]);
    } else {
      assert base == disk;
    }
  }

  lemma BaseDurable(cfg: Config, base: seq<Segment>, disk: seq<Segment>)
    requires base <= disk && (forall i :: 0 <= i < |base| ==> Intact(cfg, base[i]))
    ensures |Logged(base)| <= Durable(disk)
  {
    if |base| < |disk| {
      LoggedPrefix(base, disk[..|disk| - 1]);
    } else {
      assert base == disk;
    }
  }
}
