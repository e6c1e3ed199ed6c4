/** Starting, and starting again on what a crash left: when runs chain, and what goes wrong when a file was
    left torn. */
module Restarts {
  import opened Model
  import opened Bytes
  import opened Codec
  import opened Reader
  import opened Replay
  import opened Recovery
  import opened Registry
  import opened SnapshotOrder
  import opened Engine
  import opened ShardLoop
  import opened Sequencing
  import opened EndToEnd
  import W = GroupCommit
  import S = ShardLaws
  import E = EngineLaws

  // ---- Files that end on a record boundary ----

  /** The file is a header and whole records, nothing more. */
  ghost predicate EndsCleanly(cfg: W.Config, file: Data) {
    exists rs :: Loggable(cfg.header.shardId, rs) && file == SegmentBytes(cfg.wire, cfg.header, rs)
  }

  lemma AllWhole(w: Wire, rs: seq<Record>)
    ensures Whole(w, rs, |Frames(w, rs)|) == |rs| && OnBoundary(w, rs, |Frames(w, rs)|)
  {
    assert rs[..|rs|] == rs;
    WholeIsMaximal(w, rs, |Frames(w, rs)|, |rs|);
  }

  lemma CleanReads(cfg: W.Config, rs: seq<Record>, allowTail: bool)
    requires W.Usable(cfg) && Loggable(cfg.header.shardId, rs)
    ensures ReadSegment(cfg.wire, SegmentBytes(cfg.wire, cfg.header, rs), cfg.header, true, allowTail) == Records(rs)
  {
    hide Faithful, Progress, Frames, Whole, OnBoundary, Loggable, ReadSegment;
    var bytes := SegmentBytes(cfg.wire, cfg.header, rs);
    AllWhole(cfg.wire, rs);
    CutSegment(cfg.wire, cfg.header, Piece(rs, |bytes|), true, allowTail);
    assert bytes[..|bytes|] == bytes && rs[..|rs|] == rs;
  }

  /** What a crash left of a segment ends on a boundary exactly when the cut is clean. */
  lemma CleanIff(cfg: W.Config, p: Piece)
    requires W.Usable(cfg) && Proper(cfg.wire, cfg.header, p)
    ensures Clean(cfg.wire, cfg.header, p) <==> EndsCleanly(cfg, Image(cfg.wire, cfg.header, p))
    ensures !Clean(cfg.wire, cfg.header, p) ==>
              ReadSegment(cfg.wire, Image(cfg.wire, cfg.header, p), cfg.header, true, false) == Failed
  {
    hide Faithful, Progress, ReadSegment, Frames, Whole;
    CutSegment(cfg.wire, cfg.header, p, true, false);
    if Clean(cfg.wire, cfg.header, p) {
      var head := cfg.wire.head(cfg.header);
      var m := Whole(cfg.wire, p.records, p.cut - |head|);
      assert p.records == p.records[..m] + p.records[m..];
      FramesConcat(cfg.wire, p.records[..m], p.records[m..]);
      assert Image(cfg.wire, cfg.header, p) == SegmentBytes(cfg.wire, cfg.header, p.records[..m]);
    }
    if EndsCleanly(cfg, Image(cfg.wire, cfg.header, p)) {
      var rs :| Loggable(cfg.header.shardId, rs) && Image(cfg.wire, cfg.header, p) == SegmentBytes(cfg.wire, cfg.header, rs);
      CleanReads(cfg, rs, false);
    }
  }

  // ---- The segments that a restart finds ----

  /** The records of a file, a torn end ignored. */
  ghost function ReadAlone(cfg: W.Config, file: Data): seq<Record>
    requires Progress(cfg.wire)
  {
    var r := ReadSegment(cfg.wire, file, cfg.header, true, true);
    if r.Records? then r.records else []
  }

  /** A file on disk at a start: all its bytes are durable. */
  ghost function SegmentOf(cfg: W.Config, file: Data): W.Segment
    requires Progress(cfg.wire)
  {
    W.Segment(file, [], true, ReadAlone(cfg, file), |ReadAlone(cfg, file)|)
  }

  ghost function BaseOf(cfg: W.Config, files: seq<Data>): (base: seq<W.Segment>)
    requires Progress(cfg.wire)
    ensures |base| == |files| && forall i :: 0 <= i < |files| ==> base[i] == SegmentOf(cfg, files[i])
  {
    seq(|files|, i requires 0 <= i < |files| => SegmentOf(cfg, files[i]))
  }

  /** A file gives an intact segment exactly when it ends on a record boundary. */
  lemma CleanIsIntact(cfg: W.Config, file: Data)
    requires W.Usable(cfg)
    ensures W.Intact(cfg, SegmentOf(cfg, file)) <==> EndsCleanly(cfg, file)
    ensures EndsCleanly(cfg, file) ==> forall allowTail ::
              ReadSegment(cfg.wire, file, cfg.header, true, allowTail) == Records(ReadAlone(cfg, file))
  {
    hide Faithful, Progress, ReadSegment, Frames, Loggable, SegmentBytes;
    if EndsCleanly(cfg, file) {
      var rs :| Loggable(cfg.header.shardId, rs) && file == SegmentBytes(cfg.wire, cfg.header, rs);
      CleanReads(cfg, rs, true);
      CleanReads(cfg, rs, false);
    }
  }

  lemma {:induction false} LoggedCons(s: W.Segment, rest: seq<W.Segment>)
    ensures W.Logged([s] + rest) == s.records + W.Logged(rest)
    decreases |rest|
  {
    if rest == [] {
      assert [s] + rest == [s] && [s][..0] == [];
    } else {
      var n := |rest| - 1;
      assert ([s] + rest)[..n + 1] == [s] + rest[..n];
      LoggedCons(s, rest[..n]);
    }
  }

  lemma {:induction false} CleanFilesRead(cfg: W.Config, files: seq<Data>)
    requires W.Usable(cfg) && forall i :: 0 <= i < |files| ==> EndsCleanly(cfg, files[i])
    ensures ReadShard(cfg.wire, files, cfg.header, true) == Records(W.Logged(BaseOf(cfg, files)))
  {
    hide Faithful, Progress, ReadSegment, EndsCleanly, ReadAlone, W.Logged;
    NothingLogged();
    if files != [] {
      CleanIsIntact(cfg, files[0]);
      CleanFilesRead(cfg, files[1..]);
      assert BaseOf(cfg, files) == [SegmentOf(cfg, files[0])] + BaseOf(cfg, files[1..]);
      LoggedCons(SegmentOf(cfg, files[0]), BaseOf(cfg, files[1..]));
    } else {
      assert BaseOf(cfg, files) == [];
    }
  }

  lemma NothingLogged()
    ensures W.Logged([]) == []
  {
  }

  // ---- The engine started again ----

  /** The books of one shard among all recovered ones. */
  ghost function ShardBooks(books: Books, symbols: seq<Symbol>): Books {
    map symbol | symbol in symbols && symbol in books :: books[symbol]
  }

  ghost predicate Fitting(site: Site, s: State, files: seq<seq<Data>>, state: EngineState) {
    && |site.world.setups| == |site.earlier| == |s.shards| == |files| == |state.marks|
    && forall j :: 0 <= j < |files| ==> Progress(site.world.setups[j].cfg.wire)
  }

  ghost function RestartedSetup(site: Site, files: seq<Data>, state: EngineState, j: nat): Setup
    requires j < |site.world.setups| && j < |state.marks| && Progress(site.world.setups[j].cfg.wire)
  {
    var cfg := site.world.setups[j].cfg;
    Setup(cfg, BaseOf(cfg, files), ShardBooks(state.books, SymbolsForShard(site.registry, j)), state.marks[j])
  }

  /** The engine started again on the files that a crash left and the state recovered from them. */
  ghost function Restarted(site: Site, s: State, files: seq<seq<Data>>, state: EngineState, next: uint64): Site
    requires Fitting(site, s, files, state)
  {
    var n := |files|;
    var setups := seq(n, j requires 0 <= j < n => RestartedSetup(site, files[j], state, j));
    site.(world := site.world.(first := next, setups := setups),
          earlier := seq(n, j requires 0 <= j < n => site.earlier[j] + GivenBack(site.world.setups[j], s.shards[j], files[j])))
  }

  lemma RestartedBooks(setup: Setup, symbols: seq<Symbol>, earlier: seq<Command>, s: Shard, file: seq<Data>, base: seq<W.Segment>, books: Books)
    requires Progress(setup.cfg.wire) && Opened(setup, symbols, earlier) && KeptOk(setup, s, file)
    requires ReadShard(setup.cfg.wire, file, setup.cfg.header, true) == Records(W.Logged(base))
    requires var live := GivenBack(setup, s, file);
             forall symbol :: symbol in symbols ==>
               symbol in books && symbol in ReplayBooks(setup.books, live) && books[symbol] == ReplayBooks(setup.books, live)[symbol]
    ensures var live := GivenBack(setup, s, file);
            var setup' := Setup(setup.cfg, base, ShardBooks(books, symbols), LastSeq(setup.mark, live));
            Opened(setup', symbols, earlier + live) && setup'.books.Keys == set symbol | symbol in symbols
  {
    hide Progress, GivenBack, ReplayBooks, RecordsOf, Rising, ReadShard, W.Logged, LastSeq, Routable;
    var live := GivenBack(setup, s, file);
    RisingJoin(0, earlier, live);
    ReplayJoin(ShardId(setup), StartBooks(symbols, map[]), earlier, live);
    OpenedKeys(setup, symbols, earlier);
    ReplayKeys(setup.books, live);
    var books' := ShardBooks(books, symbols);
    assert books'.Keys == ReplayBooks(setup.books, live).Keys;
    assert books' == ReplayBooks(setup.books, live);
  }

  ghost predicate AllClean(site: Site, files: seq<seq<Data>>) {
    && |files| == |site.world.setups|
    && forall j, i :: 0 <= j < |files| && 0 <= i < |files[j]| ==> EndsCleanly(site.world.setups[j].cfg, files[j][i])
  }

  lemma RestartedAt(site: Site, s: State, files: seq<seq<Data>>, r: EngineResult, next: uint64, j: nat)
    requires Deployed(site) && |s.shards| == |files| == site.cfg.shardCount && AllKeptOk(site, s, files)
    requires Recovers(site, s, files, r) && j < |files| && Fitting(site, s, files, r.state) && AllClean(site, files)
    ensures var site' := Restarted(site, s, files, r.state, next);
            && ShardDeployed(site', j) && S.Sane(site'.world.setups[j]) && site'.world.setups[j].mark == r.state.marks[j]
            && site'.world.setups[j].books.Keys == set symbol | symbol in SymbolsForShard(site.registry, j)
  {
    hide Holds, Routes, Progress, KeptOk, GivenBack, ReplayBooks, Faithful, W.Intact, Opened, LastSeq, ReadShard, W.Logged, EndsCleanly;
    var setup := site.world.setups[j];
    assert ShardDeployed(site, j) && ShardRecovered(site, s, files, r.state, j) && S.Sane(setup);
    CleanFilesRead(setup.cfg, files[j]);
    forall i | 0 <= i < |files[j]| ensures W.Intact(setup.cfg, SegmentOf(setup.cfg, files[j][i])) {
      CleanIsIntact(setup.cfg, files[j][i]);
    }
    RestartedBooks(setup, SymbolsForShard(site.registry, j), site.earlier[j], s.shards[j], files[j], BaseOf(setup.cfg, files[j]), r.state.books);
  }

  lemma CleanRestart(site: Site, s: State, files: seq<seq<Data>>, r: EngineResult, next: uint64)
    requires Deployed(site) && |s.shards| == |files| == site.cfg.shardCount && AllKeptOk(site, s, files)
    requires Recovers(site, s, files, r) && Fitting(site, s, files, r.state) && AllClean(site, files)
    requires next != 0 && forall j :: 0 <= j < |r.state.marks| ==> r.state.marks[j] < next
    ensures Deployed(Restarted(site, s, files, r.state, next))
  {
    hide Holds, Progress, KeptOk, GivenBack, ShardDeployed, S.Sane, ShardRecovered, EndsCleanly;
    var site' := Restarted(site, s, files, r.state, next);
    forall j | 0 <= j < |files|
      ensures ShardDeployed(site', j) && S.Sane(site'.world.setups[j]) && site'.world.setups[j].mark < next
      ensures site'.world.setups[j].books.Keys == set symbol | symbol in SymbolsForShard(site.registry, j)
    {
      RestartedAt(site, s, files, r, next, j);
    }
    assert Routes(site'.world) by {
      forall symbol | site'.world.route(symbol).Some?
        ensures site'.world.route(symbol).value < |site'.world.setups|
        ensures symbol in site'.world.setups[site'.world.route(symbol).value].books
      {
        HomeBook(site, site'.world.setups, symbol);
      }
    }
  }

  lemma HomeBook(site: Site, setups: seq<Setup>, symbol: Symbol)
    requires Modulus(site.cfg.shardCount) != 0 && Holds(site.registry, site.hash, site.cfg.symbols, site.cfg.shardCount)
    requires site.world.route(symbol) == ShardFor(site.registry, symbol) && |setups| == site.cfg.shardCount
    requires forall j :: 0 <= j < |setups| ==> setups[j].books.Keys == set symbol | symbol in SymbolsForShard(site.registry, j)
    requires site.world.route(symbol).Some?
    ensures site.world.route(symbol).value < |setups| && symbol in setups[site.world.route(symbol).value].books
  {
    var j := site.world.route(symbol).value;
    Partition(site.registry, site.hash, site.cfg.symbols, site.cfg.shardCount, symbol, j);
    assert symbol in setups[j].books.Keys;
  }

  /** Runs chain exactly when no file was left torn: the engine started on the recovered books, watermarks
      and next sequence number, over the very files that the crash left, meets all assumptions again (with the
      surviving commands counted among the earlier ones) if and only if every file ends on a record boundary. */
  lemma RestartIsDeployed(site: Site, s: State, files: seq<seq<Data>>, r: EngineResult, next: uint64)
    requires Deployed(site) && E.Reachable(site.world, s) && Crashed(site, s, files) && Recovers(site, s, files, r)
    requires next != 0 && forall j :: 0 <= j < |r.state.marks| ==> r.state.marks[j] < next
    ensures Fitting(site, s, files, r.state)
    ensures Deployed(Restarted(site, s, files, r.state, next)) <==> AllClean(site, files)
  {
    hide Holds, Progress, KeptOk, GivenBack, ShardDeployed, S.Sane, E.Reachable, ShardOk, SequencerOk, EndsCleanly, Crashed;
    E.ReachableIsSound(site.world, s);
    CrashedCount(site, s, files);
    CrashKeeps(site, s, files);
    if AllClean(site, files) {
      CleanRestart(site, s, files, r, next);
    }
    var site' := Restarted(site, s, files, r.state, next);
    if Deployed(site') {
      forall j, i | 0 <= j < |files| && 0 <= i < |files[j]| ensures EndsCleanly(site.world.setups[j].cfg, files[j][i]) {
        assert S.Sane(site'.world.setups[j]);
        SaneIsClean(site'.world.setups[j], files[j], i);
      }
    }
  }

  lemma CrashedCount(site: Site, s: State, files: seq<seq<Data>>)
    requires PerShard(site) && Crashed(site, s, files)
    ensures |s.shards| == |files| == site.cfg.shardCount
  {
  }

  lemma SaneIsClean(setup: Setup, files: seq<Data>, i: nat)
    requires S.Sane(setup) && Progress(setup.cfg.wire) && setup.base == BaseOf(setup.cfg, files) && i < |files|
    ensures EndsCleanly(setup.cfg, files[i])
  {
    hide W.Intact, EndsCleanly, Faithful, Progress;
    CleanIsIntact(setup.cfg, files[i]);
  }

  // ---- Many runs ----

  /** A run with its end: the engine as started, the state it had reached, the files that the crash left, and
      what was recovered from them for the next run. */
  datatype Epoch = Epoch(site: Site, s: State, files: seq<seq<Data>>, state: EngineState, next: uint64)

  ghost predicate Ran(e: Epoch) {
    PerShard(e.site) && E.Reachable(e.site.world, e.s) && Crashed(e.site, e.s, e.files)
  }

  /** The next run starts on what this one left, all files ending on record boundaries. */
  ghost predicate Follows(e: Epoch, f: Epoch)
    requires Ran(e)
  {
    && AllClean(e.site, e.files) && Fitting(e.site, e.s, e.files, e.state)
    && Recovers(e.site, e.s, e.files, Restored(e.state))
    && e.next != 0 && (forall j :: 0 <= j < |e.state.marks| ==> e.state.marks[j] < e.next)
    && f.site == Restarted(e.site, e.s, e.files, e.state, e.next)
  }

  /** A life of the engine over any number of runs. */
  ghost predicate Chain(es: seq<Epoch>) {
    && es != [] && Deployed(es[0].site) && (forall i :: 0 <= i < |es| ==> Ran(es[i]))
    && (forall i :: 0 <= i < |es| - 1 ==> Follows(es[i], es[i + 1]))
  }

  lemma FollowsDeployed(e: Epoch, f: Epoch)
    requires Ran(e) && Deployed(e.site) && Follows(e, f)
    ensures Deployed(f.site) && f.site.cfg == e.site.cfg && f.site.registry == e.site.registry
  {
    hide Holds, E.Sane, ShardDeployed, Recovers, AllClean, Crashed, E.Reachable, Fitting;
    RestartIsDeployed(e.site, e.s, e.files, Restored(e.state), e.next);
  }

  lemma {:induction false} ChainDeployed(es: seq<Epoch>, i: nat)
    requires Chain(es) && i < |es|
    ensures Deployed(es[i].site) && es[i].site.cfg == es[0].site.cfg && es[i].site.registry == es[0].site.registry
  {
    hide Deployed, Ran, Follows;
    if i > 0 {
      ChainDeployed(es, i - 1);
      assert Follows(es[i - 1], es[i - 1 + 1]);
      FollowsDeployed(es[i - 1], es[i]);
    }
  }

  /** What was answered before a restart counts among the earlier commands after it, whatever happens then. */
  lemma WithinRestart(e: Epoch, f: Epoch, cuts: seq<seq<Command>>)
    requires Ran(e) && Deployed(e.site) && Follows(e, f) && Ran(f) && Within(e.site, e.s, cuts)
    ensures Within(f.site, f.s, cuts)
  {
    hide Holds, E.Sane, ShardDeployed, Recovers, AllClean, E.Reachable, ShardOk, SequencerOk, KeptOk, GivenBack, Progress, ShardLoop.Inv;
    E.ReachableIsSound(e.site.world, e.s);
    CrashKeeps(e.site, e.s, e.files);
    forall j | 0 <= j < |cuts| ensures cuts[j] <= EverAnswered(f.site, f.s, j) {
      AnsweredIsKept(e.site, e.s, e.files, j);
    }
  }

  lemma {:induction false} WithinLaterRun(es: seq<Epoch>, k: nat, i: nat, cuts: seq<seq<Command>>)
    requires Chain(es) && k <= i < |es| && Within(es[k].site, es[k].s, cuts)
    ensures Within(es[i].site, es[i].s, cuts)
    decreases i
  {
    hide Deployed, Ran, Follows, Within;
    if k < i {
      WithinLaterRun(es, k, i - 1, cuts);
      ChainDeployed(es, i - 1);
      assert Follows(es[i - 1], es[i - 1 + 1]);
      WithinRestart(es[i - 1], es[i], cuts);
    }
  }

  /** Snapshots outlive restarts: over any number of runs, a snapshot made in any of them (its cuts within what
      the shards had answered there) serves for recovery after the crash of the last, and so does none. */
  lemma SnapshotAcrossRuns(es: seq<Epoch>, k: nat, cuts: seq<seq<Command>>, snap: EngineSnapshot)
    requires Chain(es) && k < |es| && Within(es[k].site, es[k].s, cuts)
    requires Captures(es[0].site.cfg, es[0].site.registry, cuts, snap)
    ensures var e := es[|es| - 1];
            && Ran(e) && Progress(e.site.cfg.wire) && |e.files| == |e.s.shards| == e.site.cfg.shardCount
            && Recovers(e.site, e.s, e.files, RecoveredState(e.site.cfg, e.site.registry, Some(snap), e.files))
            && Recovers(e.site, e.s, e.files, RecoveredState(e.site.cfg, e.site.registry, None, e.files))
  {
    hide Deployed, Follows, Within, Captures, Crashed, E.Reachable, Recovers, RecoveredState, Progress;
    var n := |es| - 1;
    ChainDeployed(es, n);
    WithinLaterRun(es, k, n, cuts);
    CrashedCount(es[n].site, es[n].s, es[n].files);
    CrashRecovery(es[n].site, es[n].s, cuts, snap, es[n].files);
    CrashReplay(es[n].site, es[n].s, es[n].files);
  }

  // ---- A file left torn ----

  /** Segments found at the start are never touched, whatever they hold. */
  ghost predicate BaseKept(base: seq<W.Segment>, w: W.Writer) {
    base <= w.disk && (|w.disk| == |base| ==> W.Unopened(w.phase))
  }

  lemma WriterKeepsBase(cfg: W.Config, base: seq<W.Segment>, w: W.Writer, a: W.Action)
    requires BaseKept(base, w) && W.Enabled(cfg, w, a)
    ensures BaseKept(base, W.Next(cfg, w, a))
  {
    hide W.AckAll, W.Add, W.Filled, W.Settled;
  }

  lemma ShardKeepsBase(setup: Setup, s: Shard, a: ShardLoop.Action)
    requires BaseKept(setup.base, s.writer) && ShardLoop.Enabled(setup, s, a)
    ensures BaseKept(setup.base, ShardLoop.WriterNext(setup, s, a))
  {
    hide W.Next, W.Enabled;
    if a.WriterStep? {
      WriterKeepsBase(setup.cfg, setup.base, s.writer, a.action);
    }
  }

  ghost predicate BasesKept(world: World, s: State) {
    |s.shards| == |world.setups| && forall j :: 0 <= j < |s.shards| ==> BaseKept(world.setups[j].base, s.shards[j].writer)
  }

  lemma StepKeepsBases(world: World, s: State, a: Sequencing.Action)
    requires BasesKept(world, s) && Sequencing.Enabled(world, s, a)
    ensures BasesKept(world, Sequencing.Next(world, s, a))
  {
    hide BaseKept, ShardLoop.Enabled, ShardLoop.WriterNext, ShardLoop.LoopNext, Handle;
    if a.ShardStep? {
      ShardKeepsBase(world.setups[a.shard], s.shards[a.shard], a.action);
    }
  }

  lemma {:induction false} RunKeepsBases(world: World, s: State, steps: seq<Sequencing.Action>)
    requires BasesKept(world, s) && E.CanRun(world, s, steps)
    ensures BasesKept(world, E.Run(world, s, steps))
    decreases |steps|
  {
    hide BasesKept, Sequencing.Next, Sequencing.Enabled;
    if steps != [] {
      StepKeepsBases(world, s, steps[0]);
      RunKeepsBases(world, Sequencing.Next(world, s, steps[0]), steps[1..]);
    }
  }

  lemma ReachableKeepsBases(world: World, s: State)
    requires E.Reachable(world, s)
    ensures BasesKept(world, s)
  {
    hide E.CanRun, E.Run;
    var steps :| E.CanRun(world, Sequencing.Start(world), steps) && s == E.Run(world, Sequencing.Start(world), steps);
    RunKeepsBases(world, Sequencing.Start(world), steps);
  }

  /** Old files are found again as they were. */
  lemma OldFilesStay(cfg: W.Config, files: seq<Data>, disk: seq<W.Segment>, later: seq<Data>)
    requires Progress(cfg.wire) && BaseOf(cfg, files) <= disk && W.CrashLeaves(disk, later) && |later| >= |files|
    ensures files <= later
  {
    hide Progress, ReadAlone;
    var base := BaseOf(cfg, files);
    forall i | 0 <= i < |files| ensures later[i] == files[i] {
      assert disk[i] == base[i] && W.Remains(disk[i], later[i]);
      assert files[i] + [] == files[i];
    }
  }

  /** A torn file in front of another makes the shard unreadable. */
  lemma {:induction false} TornInside(w: Wire, files: seq<Data>, want: SegmentHeader, i: nat)
    requires Progress(w) && i < |files| - 1 && ReadSegment(w, files[i], want, true, false) == Failed
    ensures ReadShard(w, files, want, true) == Failed
    decreases i
  {
    hide Progress, ReadSegment;
    if i > 0 {
      TornInside(w, files[1..], want, i - 1);
    }
  }

  lemma {:induction false} UnreadableAborts(cfg: Config, shard: nat, books: Books, marks: seq<uint64>, files: seq<seq<Data>>, j: nat)
    requires Progress(cfg.wire) && |marks| == |files| && j < |files|
    requires ReadShard(cfg.wire, files[j], HeaderFor(cfg, shard + j), true) == Failed
    ensures RecoverFiles(cfg, shard, books, marks, files) == Aborted
    decreases j
  {
    hide Progress, ReadShard, Recover, HeaderFor;
    if j > 0 {
      match ReadShard(cfg.wire, files[0], HeaderFor(cfg, shard), true) {
        case Failed =>
        case Records(rs) =>
          var r := Recover(books, marks[0], rs);
          if r.Recovered? {
            assert files[1..][j - 1] == files[j] && shard + 1 + (j - 1) == shard + j;
            UnreadableAborts(cfg, shard + 1, r.books, marks[1..], files[1..], j - 1);
          }
      }
    }
  }

  /** A crashed file that does not end on a boundary cannot be read once it is not the last. */
  lemma TornFile(setup: Setup, s: Shard, files: seq<Data>, i: nat)
    requires W.Usable(setup.cfg) && ShardLoop.Inv(setup, s) && W.CrashLeaves(s.writer.disk, files) && i < |files|
    requires !EndsCleanly(setup.cfg, files[i])
    ensures ReadSegment(setup.cfg.wire, files[i], setup.cfg.header, true, false) == Failed
  {
    hide Faithful, Progress, EndsCleanly, ReadSegment, W.Remains;
    SegmentIsTorn(setup, s, i);
    W.TornPiece(setup.cfg, s.writer.disk[i], files[i]);
    CleanIff(setup.cfg, W.PieceOf(s.writer.disk[i], files[i]));
  }

  lemma SegmentIsTorn(setup: Setup, s: Shard, i: nat)
    requires ShardLoop.Inv(setup, s) && i < |s.writer.disk|
    ensures W.Torn(setup.cfg, s.writer.disk[i])
  {
    hide W.Torn, W.Intact, W.Working, LoopOk, DurableOk, FlushOk, W.AcksOk, W.Sent, W.QueueOk;
    var w := s.writer;
    if i == |w.disk| - 1 {
      W.LastIsTorn(setup.cfg, w.phase, W.Last(w.disk), w.currentSize, w.batch.bytes);
    } else {
      W.IntactIsTorn(setup.cfg, w.disk[i]);
    }
  }

  /** A torn file is fatal later: when a crash left a file of some shard that does not end on a record
      boundary, the engine starts again on it, but once the restarted writer has made its next segment durable,
      no recovery succeeds any more: from no snapshot, in no later state of that run, after no crash. */
  lemma TornRestartIsFatal(site: Site, s: State, files: seq<seq<Data>>, state: EngineState, next: uint64, t: State, later: seq<seq<Data>>, j: nat, i: nat, snapshot: Option<EngineSnapshot>)
    requires Deployed(site) && E.Reachable(site.world, s) && Crashed(site, s, files) && Fitting(site, s, files, state)
    requires j < |files| && i < |files[j]| && !EndsCleanly(site.world.setups[j].cfg, files[j][i])
    requires E.Reachable(Restarted(site, s, files, state, next).world, t) && j < |t.shards| && |later| == site.cfg.shardCount
    requires |t.shards[j].writer.disk| > |files[j]| && t.shards[j].writer.disk[|files[j]|].linked
    requires W.CrashLeaves(t.shards[j].writer.disk, later[j])
    ensures Progress(site.cfg.wire) && RecoveredState(site.cfg, site.registry, snapshot, later) == Aborted
  {
    hide Holds, E.Sane, Progress, EndsCleanly, E.Reachable, ReadShard, RecoverFiles, ShardOk, SequencerOk, ShardLoop.Inv, ReadSegment, Opened, Suits, StartBooks, Latest, GivenBack;
    DeployedProgress(site);
    TornShardFails(site, s, files, state, next, t, later[j], j, i);
    assert ShardDeployed(site, j);
    match snapshot {
      case None => UnreadableAborts(site.cfg, 0, StartBooks(site.cfg.symbols, map[]), Zeros(site.cfg.shardCount), later, j);
      case Some(snap) =>
        if Suits(site.cfg, site.registry, snap) {
          SuitsCount(site.cfg, site.registry, snap);
          UnreadableAborts(site.cfg, 0, StartBooks(site.cfg.symbols, Latest(snap.books)), snap.lastApplied, later, j);
        }
    }
  }

  lemma SuitsCount(cfg: Config, registry: SymbolRegistry, snap: EngineSnapshot)
    requires Suits(cfg, registry, snap)
    ensures |snap.lastApplied| == cfg.shardCount
  {
  }

  lemma TornShardFails(site: Site, s: State, files: seq<seq<Data>>, state: EngineState, next: uint64, t: State, later: seq<Data>, j: nat, i: nat)
    requires Deployed(site) && E.Reachable(site.world, s) && Crashed(site, s, files) && Fitting(site, s, files, state)
    requires j < |files| && i < |files[j]| && !EndsCleanly(site.world.setups[j].cfg, files[j][i])
    requires E.Reachable(Restarted(site, s, files, state, next).world, t) && j < |t.shards|
    requires |t.shards[j].writer.disk| > |files[j]| && t.shards[j].writer.disk[|files[j]|].linked
    requires W.CrashLeaves(t.shards[j].writer.disk, later)
    ensures var setup := site.world.setups[j]; ReadShard(setup.cfg.wire, later, setup.cfg.header, true) == Failed
  {
    hide Holds, Progress, EndsCleanly, E.Reachable, ReadShard, ShardLoop.Inv, ReadSegment, W.Usable, GivenBack;
    var setup, world' := site.world.setups[j], Restarted(site, s, files, state, next).world;
    assert S.Sane(setup);
    ReachableKeepsBases(world', t);
    assert BaseKept(world'.setups[j].base, t.shards[j].writer);
    OldFilesStay(setup.cfg, files[j], t.shards[j].writer.disk, later);
    TornFile(setup, s.shards[j], files[j], i);
    TornInside(setup.cfg.wire, later, setup.cfg.header, i);
  }

  // ---- The first start ----

  /** Limits of the writers. */
  datatype Limits = Limits(maxCommands: nat, maxBytes: nat, segmentMax: nat)

  ghost function FirstSetup(cfg: Config, registry: SymbolRegistry, limits: Limits, j: nat): Setup {
    Setup(W.Config(cfg.wire, HeaderFor(cfg, j), limits.maxCommands, limits.maxBytes, limits.segmentMax), [],
          StartBooks(SymbolsForShard(registry, j), map[]), 0)
  }

  /** The engine started for the first time, on empty directories. */
  ghost function Fresh(cfg: Config, registry: SymbolRegistry, hash: Hash, limits: Limits): Site {
    Site(cfg, registry, hash,
         World(symbol => ShardFor(registry, symbol), 1, seq(cfg.shardCount, j requires 0 <= j < cfg.shardCount => FirstSetup(cfg, registry, limits, j))),
         seq(cfg.shardCount, j => []))
  }

  /** It meets all assumptions, with the actual record format. */
  lemma FreshIsDeployed(cfg: Config, registry: SymbolRegistry, hash: Hash, limits: Limits, crc: Checksum)
    requires Modulus(cfg.shardCount) != 0 && Holds(registry, hash, cfg.symbols, cfg.shardCount)
    requires cfg.wire == WalWire(crc) && |cfg.engineId| <= 0xffff
    requires limits.maxCommands > 0 && limits.maxBytes > 0 && limits.segmentMax > 0
    ensures Deployed(Fresh(cfg, registry, hash, limits))
  {
    hide Holds, Faithful, Progress, WalWire;
    var site := Fresh(cfg, registry, hash, limits);
    WalIsFaithful(crc);
    FaithfulProgress(cfg.wire);
    forall j | 0 <= j < cfg.shardCount ensures ShardDeployed(site, j) && S.Sane(site.world.setups[j]) {
      assert W.Logged([]) == [];
    }
    forall symbol | site.world.route(symbol).Some?
      ensures site.world.route(symbol).value < |site.world.setups|
      ensures symbol in site.world.setups[site.world.route(symbol).value].books
    {
      HomeBook(site, site.world.setups, symbol);
    }
  }

  lemma FaithfulProgress(w: Wire)
    requires Faithful(w)
    ensures Progress(w)
  {
  }
}
