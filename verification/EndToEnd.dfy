/** The whole way round: a run of the engine, a crash, and recovery from snapshot and log. */
module EndToEnd {
  import opened Model
  import opened Bytes
  import opened Codec
  import opened Reader
  import opened PriceTimeBook
  import opened BookLaws
  import opened Snapshots
  import opened Replay
  import opened Recovery
  import opened Registry
  import opened SnapshotOrder
  import opened Engine
  import opened ShardLoop
  import opened Sequencing
  import W = GroupCommit
  import S = ShardLaws
  import E = EngineLaws

  // ---- One shard over all its runs ----

  lemma {:induction false} RisingJoin(mark: uint64, a: seq<Command>, b: seq<Command>)
    requires Rising(mark, a) && Rising(LastSeq(mark, a), b)
    ensures Rising(mark, a + b) && LastSeq(mark, a + b) == LastSeq(LastSeq(mark, a), b)
    decreases |a|
  {
    if a == [] {
      assert a + b == b;
    } else {
      assert (a + b)[1..] == a[1..] + b;
      RisingJoin(a[0].sequence, a[1..], b);
    }
  }

  /** The shard was opened on what its commands of earlier runs left: their records on disk, and the
      books and the watermark that replaying them gives. */
  ghost predicate Opened(setup: Setup, symbols: seq<Symbol>, earlier: seq<Command>) {
    && Routable(StartBooks(symbols, map[]), earlier) && Rising(0, earlier)
    && setup.books == ReplayBooks(StartBooks(symbols, map[]), earlier)
    && setup.mark == LastSeq(0, earlier)
    && W.Logged(setup.base) == RecordsOf(ShardId(setup), StartBooks(symbols, map[]), earlier)
  }

  lemma ReplayJoin(shard: uint16, birth: Books, earlier: seq<Command>, live: seq<Command>)
    requires Routable(birth, earlier) && Routable(ReplayBooks(birth, earlier), live)
    ensures Routable(birth, earlier + live)
    ensures ReplayBooks(birth, earlier + live) == ReplayBooks(ReplayBooks(birth, earlier), live)
    ensures RecordsOf(shard, birth, earlier + live) == RecordsOf(shard, birth, earlier) + RecordsOf(shard, ReplayBooks(birth, earlier), live)
  {
    assert forall c :: c in live ==> c.symbol in ReplayBooks(birth, earlier);
    ReplaySplit(shard, birth, earlier, live);
  }

  lemma RoutablePart(books: Books, cs: seq<Command>, n: nat)
    requires Routable(books, cs) && n <= |cs|
    ensures Routable(books, cs[..n])
  {
  }

  lemma HistoryLives(setup: Setup, symbols: seq<Symbol>, earlier: seq<Command>, live: seq<Command>, cut: nat)
    requires Opened(setup, symbols, earlier) && cut <= |earlier + live| && Routable(setup.books, live) && Rising(setup.mark, live)
    ensures var h := History(ShardId(setup), StartBooks(symbols, map[]), 0, earlier + live, cut);
            && Lived(h) && Log(h) == W.Logged(setup.base) + RecordsOf(ShardId(setup), setup.books, live)
            && LiveBooks(h) == ReplayBooks(setup.books, live) && LiveMark(h) == LastSeq(setup.mark, live)
  {
    hide W.Logged, StartBooks, ReplayBooks, RecordsOf, Rising, Routable, LastSeq;
    RisingJoin(0, earlier, live);
    ReplayJoin(ShardId(setup), StartBooks(symbols, map[]), earlier, live);
  }

  // ---- Books stay such that a snapshot gives them back ----

  ghost predicate AllSound(books: Books) {
    forall symbol :: symbol in books ==> books[symbol].symbol == symbol && Sound(false, 0, books[symbol])
  }

  lemma {:induction false} ReplaySound(books: Books, cs: seq<Command>)
    requires AllSound(books) && Routable(books, cs)
    ensures AllSound(ReplayBooks(books, cs))
    decreases |cs|
  {
    hide Sound, Apply;
    if cs != [] {
      var c := cs[0];
      ApplySound(false, 0, books[c.symbol], c);
      SoundLater(false, c.sequence, 0, Apply(books[c.symbol], c).book);
      ApplyKeepsSymbol(books[c.symbol], c);
      ReplaySound(ApplyTo(books, c), cs[1..]);
    }
  }

  lemma EmptySound(symbols: seq<Symbol>)
    ensures AllSound(StartBooks(symbols, map[]))
  {
  }

  // ---- The engine ----

  /** The engine as it was started: symbols are routed by the registry, and every shard was opened on
      its own files. */
  datatype Site = Site(cfg: Config, registry: SymbolRegistry, hash: Hash, world: World, earlier: seq<seq<Command>>)

  ghost predicate ShardDeployed(site: Site, j: nat)
    requires j < |site.world.setups| && j < |site.earlier|
  {
    var setup := site.world.setups[j];
    && setup.cfg.wire == site.cfg.wire && setup.cfg.header == HeaderFor(site.cfg, j)
    && Opened(setup, SymbolsForShard(site.registry, j), site.earlier[j])
  }

  /** One entry for each shard. */
  ghost predicate PerShard(site: Site) {
    |site.world.setups| == |site.earlier| == site.cfg.shardCount
  }

  ghost predicate Deployed(site: Site) {
    && Modulus(site.cfg.shardCount) != 0 && Holds(site.registry, site.hash, site.cfg.symbols, site.cfg.shardCount)
    && E.Sane(site.world) && PerShard(site)
    && (forall symbol :: site.world.route(symbol) == ShardFor(site.registry, symbol))
    && (forall j :: 0 <= j < site.cfg.shardCount ==> ShardDeployed(site, j))
  }

  /** Crashed files of all shards, from records that could be encoded. */
  ghost predicate Crashed(site: Site, s: State, files: seq<seq<Data>>)
    requires PerShard(site)
  {
    && |s.shards| == |files| == site.cfg.shardCount
    && forall j :: 0 <= j < |files| ==>
         && ShardLoop.Inv(site.world.setups[j], s.shards[j])
         && W.CrashLeaves(s.shards[j].writer.disk, files[j])
         && forall r :: r in S.Wrote(site.world.setups[j], s.shards[j]) ==> Good(r)
  }

  /** The commands of this run that the log of a shard gives back. */
  ghost function GivenBack(setup: Setup, s: Shard, file: seq<Data>): seq<Command>
    requires Progress(setup.cfg.wire)
  {
    var r := ReadShard(setup.cfg.wire, file, setup.cfg.header, true);
    var n := if r.Records? then |r.records| - |W.Logged(setup.base)| else 0;
    if 0 <= n <= |s.loop.applied| then CommandsOf(s.loop.applied)[..n] else []
  }

  /** What recovery must bring back of a shard. */
  ghost predicate KeptOk(setup: Setup, s: Shard, file: seq<Data>)
    requires Progress(setup.cfg.wire)
  {
    var live := GivenBack(setup, s, file);
    && s.loop.completed <= |live| && live <= CommandsOf(s.loop.applied)
    && Routable(setup.books, live) && Rising(setup.mark, live)
    && ReadShard(setup.cfg.wire, file, setup.cfg.header, true) ==
       Records(W.Logged(setup.base) + RecordsOf(ShardId(setup), setup.books, live))
  }

  lemma {:induction false} RecordsPrefix(shard: uint16, books: Books, cs: seq<Command>, n: nat)
    requires Routable(books, cs) && n <= |cs|
    ensures Routable(books, cs[..n]) && RecordsOf(shard, books, cs[..n]) == RecordsOf(shard, books, cs)[..n]
  {
    assert cs == cs[..n] + cs[n..];
    ReplaySplit(shard, books, cs[..n], cs[n..]);
  }

  /** A crashed shard reads back as a beginning of what it applied, with all that it answered. */
  lemma ShardKept(setup: Setup, s: Shard, file: seq<Data>)
    requires W.Usable(setup.cfg) && ShardLoop.Inv(setup, s) && W.CrashLeaves(s.writer.disk, file)
    requires forall r :: r in S.Wrote(setup, s) ==> Good(r)
    requires Rising(setup.mark, CommandsOf(s.loop.applied))
    ensures Progress(setup.cfg.wire) && KeptOk(setup, s, file)
  {
    hide Faithful, Progress, ShardLoop.Inv, W.CrashLeaves, W.Logged, Good, ReadShard, Rising, S.Survives, S.Wrote, KeptOk;
    S.CrashRead(setup, s, file);
    var rs := ReadShard(setup.cfg.wire, file, setup.cfg.header, true).records;
    S.CrashKeepsPrefix(setup, s, rs);
    var m: nat :| s.loop.completed <= m <= |S.Wrote(setup, s)| && rs == W.Logged(setup.base) + S.Wrote(setup, s)[..m];
    AppliedRoutable(setup, s);
    PrefixKept(setup, s, file, m);
  }

  /** A log with the first m records of what was applied gives the first m commands back. */
  lemma PrefixKept(setup: Setup, s: Shard, file: seq<Data>, m: nat)
    requires Progress(setup.cfg.wire) && Routable(setup.books, CommandsOf(s.loop.applied))
    requires Rising(setup.mark, CommandsOf(s.loop.applied)) && s.loop.completed <= m <= |s.loop.applied|
    requires ReadShard(setup.cfg.wire, file, setup.cfg.header, true) ==
             Records(W.Logged(setup.base) + RecordsOf(ShardId(setup), setup.books, CommandsOf(s.loop.applied))[..m])
    ensures KeptOk(setup, s, file)
  {
    hide Progress, W.Logged, ReadShard, Rising, RecordsOf, Routable;
    var cs := CommandsOf(s.loop.applied);
    RecordsPrefix(ShardId(setup), setup.books, cs, m);
    RecordsCount(ShardId(setup), setup.books, cs);
    assert cs == cs[..m] + cs[m..];
    RisingSplit(setup.mark, cs[..m], cs[m..]);
  }

  lemma RecordsCount(shard: uint16, books: Books, cs: seq<Command>)
    requires Routable(books, cs)
    ensures |RecordsOf(shard, books, cs)| == |cs|
  {
  }

  lemma AppliedRoutable(setup: Setup, s: Shard)
    requires ShardLoop.Inv(setup, s)
    ensures Routable(setup.books, CommandsOf(s.loop.applied))
    ensures S.Wrote(setup, s) == RecordsOf(ShardId(setup), setup.books, CommandsOf(s.loop.applied))
  {
  }

  // ---- All shards together ----

  lemma {:induction false} AllCutAt(hs: seq<History>, symbol: Symbol)
    requires AllLived(hs)
    ensures symbol in AllCutBooks(hs) <==> exists j :: 0 <= j < |hs| && symbol in hs[j].start
    ensures forall j :: 0 <= j < |hs| && symbol in hs[j].start ==>
              symbol in CutBooks(hs[j]) && symbol in AllCutBooks(hs) && AllCutBooks(hs)[symbol] == CutBooks(hs[j])[symbol]
  {
    hide Lived, CutBooks, LiveBooks;
    if hs != [] {
      var h, rest := hs[0], hs[1..];
      AllCutAt(rest, symbol);
      OtherKeys(h, rest);
      forall j | 0 <= j < |hs| && symbol in hs[j].start
        ensures symbol in CutBooks(hs[j]) && symbol in AllCutBooks(hs) && AllCutBooks(hs)[symbol] == CutBooks(hs[j])[symbol]
      {
        if j > 0 {
          assert hs[j] == rest[j - 1];
        }
      }
      if exists j :: 0 <= j < |rest| && symbol in rest[j].start {
        var j :| 0 <= j < |rest| && symbol in rest[j].start;
        assert hs[j + 1] == rest[j];
      }
    }
  }

  lemma {:induction false} AllLiveAt(hs: seq<History>, symbol: Symbol)
    requires AllLived(hs)
    ensures forall j :: 0 <= j < |hs| && symbol in hs[j].start ==>
              symbol in LiveBooks(hs[j]) && symbol in AllLiveBooks(hs) && AllLiveBooks(hs)[symbol] == LiveBooks(hs[j])[symbol]
  {
    hide Lived, CutBooks, LiveBooks;
    if hs != [] {
      var h, rest := hs[0], hs[1..];
      AllLiveAt(rest, symbol);
      OtherKeys(h, rest);
      forall j | 0 <= j < |hs| && symbol in hs[j].start
        ensures symbol in LiveBooks(hs[j]) && symbol in AllLiveBooks(hs) && AllLiveBooks(hs)[symbol] == LiveBooks(hs[j])[symbol]
      {
        if j > 0 {
          assert hs[j] == rest[j - 1];
        }
      }
    }
  }

  lemma {:induction false} ListsAt(hs: seq<History>, j: nat)
    requires AllLived(hs) && j < |hs|
    ensures Logs(hs)[j] == Log(hs[j]) && CutMarks(hs)[j] == CutMark(hs[j]) && LiveMarks(hs)[j] == LiveMark(hs[j])
  {
    hide Log, CutMark, LiveMark, Lived;
    if j > 0 {
      ListsAt(hs[1..], j - 1);
    }
  }

  lemma {:induction false} FilesAreLogs(cfg: Config, shard: nat, books: Books, marks: seq<uint64>, files: seq<seq<Data>>, logs: seq<seq<Record>>)
    requires Progress(cfg.wire) && |marks| == |files| == |logs|
    requires forall i :: 0 <= i < |files| ==> ReadShard(cfg.wire, files[i], HeaderFor(cfg, shard + i), true) == Records(logs[i])
    ensures RecoverFiles(cfg, shard, books, marks, files) == RecoverAll(books, marks, logs)
    decreases |files|
  {
    hide Progress, ReadShard, Recover, HeaderFor;
    if files != [] {
      assert ReadShard(cfg.wire, files[0], HeaderFor(cfg, shard + 0), true) == Records(logs[0]);
      var r := Recover(books, marks[0], logs[0]);
      if r.Recovered? {
        forall i | 0 <= i < |files[1..]|
          ensures ReadShard(cfg.wire, files[1..][i], HeaderFor(cfg, shard + 1 + i), true) == Records(logs[1..][i])
        {
          assert files[1..][i] == files[i + 1] && logs[1..][i] == logs[i + 1] && shard + 1 + i == shard + (i + 1);
        }
        FilesAreLogs(cfg, shard + 1, r.books, marks[1..], files[1..], logs[1..]);
      }
    }
  }

  /** Recovery from any start that is a cut of these histories. */
  lemma RecoverHistories(cfg: Config, hs: seq<History>, start: Books, marks: seq<uint64>, files: seq<seq<Data>>)
    requires Progress(cfg.wire) && AllLived(hs) && |files| == |hs|
    requires forall j :: 0 <= j < |files| ==> ReadShard(cfg.wire, files[j], HeaderFor(cfg, j), true) == Records(Log(hs[j]))
    requires start == AllCutBooks(hs) && marks == CutMarks(hs)
    ensures RecoverFiles(cfg, 0, start, marks, files) == Restored(EngineState(AllLiveBooks(hs), LiveMarks(hs)))
  {
    hide Progress, ReadShard, RecoverFiles, RecoverAll, HeaderFor, Lived, Log, AllCutBooks, AllLiveBooks, CutMarks, LiveMarks, Logs;
    forall j | 0 <= j < |files|
      ensures ReadShard(cfg.wire, files[j], HeaderFor(cfg, 0 + j), true) == Records(Logs(hs)[j])
    {
      ListsAt(hs, j);
    }
    FilesAreLogs(cfg, 0, start, marks, files, Logs(hs));
    RecoverEngine(map[], hs);
    assert map[] + AllCutBooks(hs) == AllCutBooks(hs) && map[] + AllLiveBooks(hs) == AllLiveBooks(hs);
  }

  // ---- The snapshot ----

  ghost function Birth(registry: SymbolRegistry, j: nat): Books {
    StartBooks(SymbolsForShard(registry, j), map[])
  }

  ghost predicate ShowsBooks(restored: map<Symbol, BookSnapshot>, symbols: seq<Symbol>, books: Books) {
    forall symbol :: symbol in symbols ==> symbol in restored && symbol in books && Shows(restored[symbol], books[symbol])
  }

  /** The watermark and the books that a snapshot holds for a shard are those after these commands, from
      the first the shard ever had. */
  ghost predicate ShardCaptured(registry: SymbolRegistry, j: nat, cut: seq<Command>, mark: uint64, restored: map<Symbol, BookSnapshot>) {
    && Routable(Birth(registry, j), cut) && mark == LastSeq(0, cut)
    && ShowsBooks(restored, SymbolsForShard(registry, j), ReplayBooks(Birth(registry, j), cut))
  }

  /** The snapshot holds every shard at its cut. It does not matter in which run it was made. */
  ghost predicate Captures(cfg: Config, registry: SymbolRegistry, cuts: seq<seq<Command>>, snap: EngineSnapshot) {
    && Suits(cfg, registry, snap) && |cuts| == cfg.shardCount
    && forall j :: 0 <= j < cfg.shardCount ==> ShardCaptured(registry, j, cuts[j], snap.lastApplied[j], Latest(snap.books))
  }

  /** The commands that a shard has answered with success, in this run and in those before. */
  ghost function EverAnswered(site: Site, s: State, j: nat): seq<Command>
    requires j < |site.earlier| && j < |s.shards|
  {
    var l := s.shards[j].loop;
    site.earlier[j] + CommandsOf(l.applied)[..if l.completed <= |l.applied| then l.completed else |l.applied|]
  }

  /** The cuts lie within what the shards have answered. */
  ghost predicate Within(site: Site, s: State, cuts: seq<seq<Command>>) {
    && |cuts| == |site.earlier| == |s.shards|
    && forall j :: 0 <= j < |cuts| ==> cuts[j] <= EverAnswered(site, s, j)
  }

  /** Every symbol has its book on the shard it is routed to. */
  lemma SymbolHome(site: Site, symbol: Symbol, j: nat)
    requires Deployed(site) && j < site.cfg.shardCount
    ensures symbol in SymbolsForShard(site.registry, j) <==> site.world.route(symbol) == Some(j)
    ensures symbol in site.cfg.symbols <==> site.world.route(symbol).Some?
    ensures site.world.route(symbol).Some? ==> site.world.route(symbol).value < site.cfg.shardCount
  {
    hide E.Sane, ShardDeployed, Holds;
    Partition(site.registry, site.hash, site.cfg.symbols, site.cfg.shardCount, symbol, j);
  }

  lemma RestoresCut(registry: SymbolRegistry, j: nat, cut: seq<Command>, mark: uint64, restored: map<Symbol, BookSnapshot>, symbol: Symbol)
    requires ShardCaptured(registry, j, cut, mark, restored) && symbol in SymbolsForShard(registry, j)
    ensures var books := ReplayBooks(Birth(registry, j), cut); symbol in books && StartBook(symbol, restored) == books[symbol]
  {
    hide ReplayBooks, Routable, Sound, Restore, Shows, StartBooks, LastSeq;
    EmptySound(SymbolsForShard(registry, j));
    ReplaySound(Birth(registry, j), cut);
    RestoreGivesBack(false, 0, restored[symbol], ReplayBooks(Birth(registry, j), cut)[symbol]);
  }

  // ---- The theorem ----

  ghost predicate ShardRecovered(site: Site, s: State, files: seq<seq<Data>>, state: EngineState, j: nat)
    requires PerShard(site) && |s.shards| == |files| == |state.marks| == site.cfg.shardCount && j < |files|
  {
    var setup := site.world.setups[j];
    && Progress(setup.cfg.wire) && KeptOk(setup, s.shards[j], files[j])
    && var live := GivenBack(setup, s.shards[j], files[j]);
    && state.marks[j] == LastSeq(setup.mark, live)
    && forall symbol :: symbol in SymbolsForShard(site.registry, j) ==>
         symbol in state.books && symbol in ReplayBooks(setup.books, live) && state.books[symbol] == ReplayBooks(setup.books, live)[symbol]
  }

  /** Recovery gave every shard the books and watermark of a beginning of the commands it had applied,
      with all the commands it had answered. */
  ghost predicate Recovers(site: Site, s: State, files: seq<seq<Data>>, r: EngineResult)
    requires PerShard(site) && |s.shards| == |files| == site.cfg.shardCount
  {
    && r.Restored? && |r.state.marks| == site.cfg.shardCount
    && forall j :: 0 <= j < site.cfg.shardCount ==> ShardRecovered(site, s, files, r.state, j)
  }

  ghost predicate AllKeptOk(site: Site, s: State, files: seq<seq<Data>>)
    requires PerShard(site) && |s.shards| == |files| == site.cfg.shardCount
  {
    forall j :: 0 <= j < site.cfg.shardCount ==>
      Progress(site.world.setups[j].cfg.wire) && KeptOk(site.world.setups[j], s.shards[j], files[j])
  }

  lemma CrashKeeps(site: Site, s: State, files: seq<seq<Data>>)
    requires Deployed(site) && Sequencing.Inv(site.world, s) && Crashed(site, s, files)
    ensures AllKeptOk(site, s, files)
  {
    hide ShardLoop.Inv, ShardOk, SequencerOk, Rising, Routes, KeptOk, W.CrashLeaves, Good, S.Wrote, ShardDeployed, Holds;
    forall j | 0 <= j < site.cfg.shardCount
      ensures Progress(site.world.setups[j].cfg.wire) && KeptOk(site.world.setups[j], s.shards[j], files[j])
    {
      E.AppliedRising(site.world, s, j);
      S.SaneUsable(site.world.setups[j]);
      ShardKept(site.world.setups[j], s.shards[j], files[j]);
    }
  }

  /** The history of a shard with the snapshot's cut; a cut of zero means that there is no snapshot. */
  ghost function ShardHistory(site: Site, s: State, files: seq<seq<Data>>, cuts: seq<nat>, j: nat): History
    requires PerShard(site) && |s.shards| == |files| == |cuts| == site.cfg.shardCount && j < |files|
    requires Progress(site.world.setups[j].cfg.wire)
  {
    var setup := site.world.setups[j];
    History(ShardId(setup), StartBooks(SymbolsForShard(site.registry, j), map[]), 0,
            site.earlier[j] + GivenBack(setup, s.shards[j], files[j]), cuts[j])
  }

  ghost predicate Histories(site: Site, s: State, files: seq<seq<Data>>, cuts: seq<nat>, hs: seq<History>)
    requires PerShard(site) && |s.shards| == |files| == |cuts| == site.cfg.shardCount && AllKeptOk(site, s, files)
  {
    && |hs| == site.cfg.shardCount
    && forall j :: 0 <= j < |hs| ==>
         cuts[j] <= |site.earlier[j]| + |GivenBack(site.world.setups[j], s.shards[j], files[j])| && hs[j] == ShardHistory(site, s, files, cuts, j)
  }

  lemma HistoryAt(site: Site, s: State, files: seq<seq<Data>>, cuts: seq<nat>, hs: seq<History>, j: nat)
    requires Deployed(site) && |s.shards| == |files| == |cuts| == site.cfg.shardCount && AllKeptOk(site, s, files)
    requires Histories(site, s, files, cuts, hs) && j < |hs|
    ensures Lived(hs[j]) && Progress(site.cfg.wire)
    ensures ReadShard(site.cfg.wire, files[j], HeaderFor(site.cfg, j), true) == Records(Log(hs[j]))
    ensures var setup, live := site.world.setups[j], GivenBack(site.world.setups[j], s.shards[j], files[j]);
            LiveBooks(hs[j]) == ReplayBooks(setup.books, live) && LiveMark(hs[j]) == LastSeq(setup.mark, live)
    ensures hs[j].start.Keys == set symbol | symbol in SymbolsForShard(site.registry, j)
  {
    hide Holds, E.Sane, Progress, Rising, Routable, RecordsOf, ReadShard, ReplayBooks, Opened, GivenBack, Lived, W.Logged, LastSeq;
    var setup := site.world.setups[j];
    assert ShardDeployed(site, j);
    HistoryLives(setup, SymbolsForShard(site.registry, j), site.earlier[j], GivenBack(setup, s.shards[j], files[j]), cuts[j]);
  }

  lemma HistoriesLive(site: Site, s: State, files: seq<seq<Data>>, cuts: seq<nat>, hs: seq<History>)
    requires Deployed(site) && |s.shards| == |files| == |cuts| == site.cfg.shardCount && AllKeptOk(site, s, files)
    requires Histories(site, s, files, cuts, hs)
    ensures AllLived(hs)
  {
    hide Holds, E.Sane, ShardDeployed, KeptOk, Histories, Lived, Progress;
    forall j | 0 <= j < |hs| ensures Lived(hs[j]) {
      HistoryAt(site, s, files, cuts, hs, j);
    }
    forall i, j | 0 <= i < j < |hs| ensures hs[i].start.Keys !! hs[j].start.Keys {
      HistoryAt(site, s, files, cuts, hs, i);
      HistoryAt(site, s, files, cuts, hs, j);
      HistoriesCount(site, s, files, cuts, hs);
      forall symbol | symbol in hs[i].start.Keys ensures symbol !in hs[j].start.Keys {
        SymbolHome(site, symbol, i);
        SymbolHome(site, symbol, j);
      }
    }
  }

  lemma HistoriesCount(site: Site, s: State, files: seq<seq<Data>>, cuts: seq<nat>, hs: seq<History>)
    requires Deployed(site) && |s.shards| == |files| == |cuts| == site.cfg.shardCount && AllKeptOk(site, s, files)
    requires Histories(site, s, files, cuts, hs)
    ensures |hs| == site.cfg.shardCount
  {
  }

  /** Whatever cut the start is, recovery ends in the same state. */
  lemma RecoverFromStart(site: Site, s: State, files: seq<seq<Data>>, cuts: seq<nat>, hs: seq<History>, start: Books, marks: seq<uint64>)
    requires Deployed(site) && |s.shards| == |files| == |cuts| == site.cfg.shardCount && AllKeptOk(site, s, files)
    requires Histories(site, s, files, cuts, hs) && AllLived(hs) && Progress(site.cfg.wire)
    requires start == AllCutBooks(hs) && marks == CutMarks(hs)
    ensures Recovers(site, s, files, RecoverFiles(site.cfg, 0, start, marks, files))
  {
    hide Holds, E.Sane, ShardDeployed, Histories, Lived, Progress, ReadShard, RecoverFiles, AllCutBooks, AllLiveBooks, CutMarks, LiveMarks, Log, KeptOk, GivenBack, ReplayBooks, HeaderFor, LastSeq;
    HistoriesCount(site, s, files, cuts, hs);
    forall j | 0 <= j < |files| ensures ReadShard(site.cfg.wire, files[j], HeaderFor(site.cfg, j), true) == Records(Log(hs[j])) {
      HistoryAt(site, s, files, cuts, hs, j);
    }
    RecoverHistories(site.cfg, hs, start, marks, files);
    LiveMarksCount(hs);
    var state := EngineState(AllLiveBooks(hs), LiveMarks(hs));
    forall j | 0 <= j < |files| ensures ShardRecovered(site, s, files, state, j) {
      StateAt(site, s, files, cuts, hs, state, j);
    }
  }

  lemma LiveMarksCount(hs: seq<History>)
    requires AllLived(hs)
    ensures |LiveMarks(hs)| == |CutMarks(hs)| == |hs|
  {
  }

  lemma StateAt(site: Site, s: State, files: seq<seq<Data>>, cuts: seq<nat>, hs: seq<History>, state: EngineState, j: nat)
    requires Deployed(site) && |s.shards| == |files| == |cuts| == |state.marks| == site.cfg.shardCount && AllKeptOk(site, s, files)
    requires Histories(site, s, files, cuts, hs) && AllLived(hs) && j < |hs| && |hs| == site.cfg.shardCount
    requires state == EngineState(AllLiveBooks(hs), LiveMarks(hs))
    ensures ShardRecovered(site, s, files, state, j)
  {
    hide Holds, E.Sane, ShardDeployed, Histories, Lived, Progress, AllLiveBooks, LiveMarks, KeptOk, GivenBack, ReplayBooks, LastSeq, LiveBooks, LiveMark, ReadShard;
    HistoryAt(site, s, files, cuts, hs, j);
    ListsAt(hs, j);
    forall symbol | symbol in SymbolsForShard(site.registry, j)
      ensures symbol in state.books && symbol in LiveBooks(hs[j]) && state.books[symbol] == LiveBooks(hs[j])[symbol]
    {
      AllLiveAt(hs, symbol);
      assert symbol in hs[j].start.Keys;
    }
  }

  /** Start books and watermarks that agree with the cut of every shard. */
  lemma StartIsCut(site: Site, hs: seq<History>, restored: map<Symbol, BookSnapshot>, marks: seq<uint64>)
    requires Deployed(site) && AllLived(hs) && |hs| == |marks| == site.cfg.shardCount
    requires forall j :: 0 <= j < |hs| ==>
               && hs[j].start.Keys == (set symbol | symbol in SymbolsForShard(site.registry, j))
               && marks[j] == CutMark(hs[j])
               && forall symbol :: symbol in hs[j].start ==> symbol in CutBooks(hs[j]) && StartBook(symbol, restored) == CutBooks(hs[j])[symbol]
    ensures StartBooks(site.cfg.symbols, restored) == AllCutBooks(hs) && marks == CutMarks(hs)
  {
    hide Holds, E.Sane, ShardDeployed, Lived, AllCutBooks, CutMarks, CutBooks, CutMark, StartBook;
    LiveMarksCount(hs);
    forall j | 0 <= j < |hs| ensures CutMarks(hs)[j] == marks[j] {
      ListsAt(hs, j);
    }
    var start, all := StartBooks(site.cfg.symbols, restored), AllCutBooks(hs);
    forall symbol ensures symbol in start <==> symbol in all {
      AllCutAt(hs, symbol);
      HomeAt(site, hs, symbol);
    }
    forall symbol | symbol in start ensures start[symbol] == all[symbol] {
      AllCutAt(hs, symbol);
      HomeAt(site, hs, symbol);
      var j :| 0 <= j < |hs| && symbol in hs[j].start;
    }
  }

  lemma HomeAt(site: Site, hs: seq<History>, symbol: Symbol)
    requires Deployed(site) && |hs| == site.cfg.shardCount
    requires forall j :: 0 <= j < |hs| ==> hs[j].start.Keys == (set symbol | symbol in SymbolsForShard(site.registry, j))
    ensures symbol in site.cfg.symbols <==> exists j :: 0 <= j < |hs| && symbol in hs[j].start
  {
    hide Holds, E.Sane, ShardDeployed;
    if exists j :: 0 <= j < |hs| && symbol in hs[j].start {
      var j :| 0 <= j < |hs| && symbol in hs[j].start;
      assert symbol in hs[j].start.Keys;
      SymbolHome(site, symbol, j);
    }
    if symbol in site.cfg.symbols {
      RoutedHome(site, symbol);
      var j := site.world.route(symbol).value;
      SymbolHome(site, symbol, j);
      assert symbol in hs[j].start.Keys;
    }
  }

  lemma RoutedHome(site: Site, symbol: Symbol)
    requires Deployed(site) && symbol in site.cfg.symbols
    ensures site.world.route(symbol).Some? && site.world.route(symbol).value < site.cfg.shardCount
  {
    Partition(site.registry, site.hash, site.cfg.symbols, site.cfg.shardCount, symbol, 0);
  }

  /** Without a snapshot: replay from empty books. */
  lemma RecoverFromNothing(site: Site, s: State, files: seq<seq<Data>>)
    requires Deployed(site) && |s.shards| == |files| == site.cfg.shardCount && AllKeptOk(site, s, files) && Progress(site.cfg.wire)
    ensures Recovers(site, s, files, RecoveredState(site.cfg, site.registry, None, files))
  {
    hide Holds, E.Sane, ShardDeployed, Lived, Recovers, RecoverFiles, Progress, KeptOk, GivenBack, StartBooks, CutMark, CutBooks, LiveBooks, LiveMark, Log, ReadShard, HeaderFor, ReplayBooks, LastSeq;
    var n := site.cfg.shardCount;
    var cuts: seq<nat> := seq(n, i => 0);
    var hs := seq(n, j requires 0 <= j < n => ShardHistory(site, s, files, cuts, j));
    HistoriesLive(site, s, files, cuts, hs);
    forall j | 0 <= j < n
      ensures hs[j].start.Keys == (set symbol | symbol in SymbolsForShard(site.registry, j)) && CutMark(hs[j]) == 0
      ensures forall symbol :: symbol in hs[j].start ==> symbol in CutBooks(hs[j]) && StartBook(symbol, map[]) == CutBooks(hs[j])[symbol]
    {
      HistoryAt(site, s, files, cuts, hs, j);
      NoCut(hs[j], SymbolsForShard(site.registry, j));
    }
    StartIsCut(site, hs, map[], Zeros(n));
    RecoverFromStart(site, s, files, cuts, hs, StartBooks(site.cfg.symbols, map[]), Zeros(n));
  }

  lemma NoCut(h: History, symbols: seq<Symbol>)
    requires Lived(h) && h.cut == 0 && h.mark == 0 && h.start == StartBooks(symbols, map[])
    ensures CutMark(h) == 0 && CutBooks(h) == h.start
    ensures forall symbol :: symbol in h.start ==> StartBook(symbol, map[]) == h.start[symbol]
  {
    assert h.commands[..0] == [];
  }

  /** A history cut where the snapshot is. */
  lemma CutIsCaptured(registry: SymbolRegistry, j: nat, h: History, cut: seq<Command>, mark: uint64, restored: map<Symbol, BookSnapshot>)
    requires Lived(h) && h.start == Birth(registry, j) && h.mark == 0 && cut <= h.commands && h.cut == |cut|
    requires ShardCaptured(registry, j, cut, mark, restored)
    ensures mark == CutMark(h)
    ensures forall symbol :: symbol in SymbolsForShard(registry, j) ==>
              symbol in CutBooks(h) && StartBook(symbol, restored) == CutBooks(h)[symbol]
  {
    hide ReplayBooks, Routable, StartBook, StartBooks, ShowsBooks, Rising;
    assert h.commands[..h.cut] == cut;
    forall symbol | symbol in SymbolsForShard(registry, j)
      ensures symbol in CutBooks(h) && StartBook(symbol, restored) == CutBooks(h)[symbol]
    {
      RestoresCut(registry, j, cut, mark, restored, symbol);
    }
  }

  /** From a snapshot at any cut of what the files give back. */
  lemma RecoverFromSnapshot(site: Site, s: State, cuts: seq<seq<Command>>, snap: EngineSnapshot, files: seq<seq<Data>>)
    requires Deployed(site) && |s.shards| == |files| == site.cfg.shardCount && AllKeptOk(site, s, files)
    requires Captures(site.cfg, site.registry, cuts, snap) && Progress(site.cfg.wire)
    requires forall j :: 0 <= j < |cuts| ==> cuts[j] <= site.earlier[j] + GivenBack(site.world.setups[j], s.shards[j], files[j])
    ensures Recovers(site, s, files, RecoveredState(site.cfg, site.registry, Some(snap), files))
  {
    hide Holds, E.Sane, ShardDeployed, Lived, Recovers, RecoverFiles, Progress, KeptOk, GivenBack, StartBooks, CutMark, CutBooks, LiveBooks, LiveMark, Log, ReadShard, HeaderFor, ReplayBooks, LastSeq, ShardCaptured, StartBook, Latest;
    var n := site.cfg.shardCount;
    var lengths := seq(n, j requires 0 <= j < n => |cuts[j]|);
    var hs := seq(n, j requires 0 <= j < n => ShardHistory(site, s, files, lengths, j));
    HistoriesLive(site, s, files, lengths, hs);
    forall j | 0 <= j < n
      ensures hs[j].start.Keys == (set symbol | symbol in SymbolsForShard(site.registry, j)) && snap.lastApplied[j] == CutMark(hs[j])
      ensures forall symbol :: symbol in hs[j].start ==>
                symbol in CutBooks(hs[j]) && StartBook(symbol, Latest(snap.books)) == CutBooks(hs[j])[symbol]
    {
      HistoryAt(site, s, files, lengths, hs, j);
      CutIsCaptured(site.registry, j, hs[j], cuts[j], snap.lastApplied[j], Latest(snap.books));
    }
    StartIsCut(site, hs, Latest(snap.books), snap.lastApplied);
    RecoverFromStart(site, s, files, lengths, hs, StartBooks(site.cfg.symbols, Latest(snap.books)), snap.lastApplied);
  }

  /** Replay from empty books: after a crash at any moment of any run, with or without a drain in it. */
  lemma CrashReplay(site: Site, s: State, files: seq<seq<Data>>)
    requires Deployed(site) && E.Reachable(site.world, s) && Crashed(site, s, files)
    ensures Progress(site.cfg.wire) && Recovers(site, s, files, RecoveredState(site.cfg, site.registry, None, files))
  {
    hide Holds, ShardDeployed, E.Sane, ShardOk, SequencerOk, Recovers, RecoveredState, Progress, E.Reachable;
    E.ReachableIsSound(site.world, s);
    DeployedProgress(site);
    CrashKeeps(site, s, files);
    RecoverFromNothing(site, s, files);
  }

  /** Snapshot plus log is what replay from empty books gives, and is the live engine as far as it was
      durable: after a crash at any moment of any run, recovery from any snapshot whose cuts lie within what
      the shards have answered, in this run or an earlier one, succeeds and gives every shard the books,
      trade counters and watermark of a beginning of the commands it had applied, including all commands it
      had answered with success. */
  lemma CrashRecovery(site: Site, s: State, cuts: seq<seq<Command>>, snap: EngineSnapshot, files: seq<seq<Data>>)
    requires Deployed(site) && E.Reachable(site.world, s) && Crashed(site, s, files)
    requires Captures(site.cfg, site.registry, cuts, snap) && Within(site, s, cuts)
    ensures Progress(site.cfg.wire) && Recovers(site, s, files, RecoveredState(site.cfg, site.registry, Some(snap), files))
  {
    hide Holds, ShardDeployed, E.Sane, ShardOk, SequencerOk, Recovers, RecoveredState, Progress, E.Reachable, Captures, KeptOk, EverAnswered;
    E.ReachableIsSound(site.world, s);
    DeployedProgress(site);
    CrashKeeps(site, s, files);
    forall j | 0 <= j < |cuts| ensures cuts[j] <= site.earlier[j] + GivenBack(site.world.setups[j], s.shards[j], files[j]) {
      AnsweredIsKept(site, s, files, j);
    }
    CutsCount(site.cfg, site.registry, cuts, snap);
    RecoverFromSnapshot(site, s, cuts, snap, files);
  }

  lemma CutsCount(cfg: Config, registry: SymbolRegistry, cuts: seq<seq<Command>>, snap: EngineSnapshot)
    requires Captures(cfg, registry, cuts, snap)
    ensures |cuts| == cfg.shardCount
  {
  }

  lemma AnsweredIsKept(site: Site, s: State, files: seq<seq<Data>>, j: nat)
    requires |s.shards| == |files| == |site.world.setups| == |site.earlier| && j < |files|
    requires Progress(site.world.setups[j].cfg.wire) && KeptOk(site.world.setups[j], s.shards[j], files[j])
    ensures EverAnswered(site, s, j) <= site.earlier[j] + GivenBack(site.world.setups[j], s.shards[j], files[j])
  {
    hide Progress, GivenBack, Routable, Rising, RecordsOf, ReadShard, W.Logged;
  }

  lemma DeployedProgress(site: Site)
    requires Deployed(site)
    ensures Progress(site.cfg.wire)
  {
    hide Holds, Routes, Progress, S.Sane, Opened;
    assert ShardDeployed(site, 0);
    S.SaneUsable(site.world.setups[0]);
  }

  // ---- The snapshot of a drain is such a snapshot ----

  lemma {:induction false} LatestHas(bs: seq<BookSnapshot>, i: nat)
    requires i < |bs|
    ensures bs[i].symbol in Latest(bs)
  {
    if i < |bs| - 1 {
      LatestHas(bs[..|bs| - 1], i);
    }
  }

  lemma {:induction false} MergeAt(parts: seq<Books>, symbol: Symbol)
    requires forall i, j :: 0 <= i < j < |parts| ==> parts[i].Keys !! parts[j].Keys
    ensures symbol in Merge(parts) ==> exists j :: 0 <= j < |parts| && symbol in parts[j]
    ensures forall j :: 0 <= j < |parts| && symbol in parts[j] ==> symbol in Merge(parts) && Merge(parts)[symbol] == parts[j][symbol]
  {
    if parts != [] {
      var n := |parts| - 1;
      MergeAt(parts[..n], symbol);
      if symbol in Merge(parts) && symbol !in parts[n] {
        var j :| 0 <= j < n && symbol in parts[..n][j];
        assert symbol in parts[j];
      }
      forall j | 0 <= j < |parts| && symbol in parts[j]
        ensures symbol in Merge(parts) && Merge(parts)[symbol] == parts[j][symbol]
      {
        if j < n {
          assert parts[j].Keys !! parts[n].Keys && symbol in parts[j].Keys;
          assert symbol in parts[..n][j];
        }
      }
    }
  }

  /** What a shard holds while a drain is held. */
  ghost predicate Drained(site: Site, s: State, parts: seq<Books>, marks: seq<uint64>) {
    && |parts| == |marks| == |s.shards| == |site.world.setups|
    && forall j :: 0 <= j < |parts| ==> parts[j] == s.shards[j].loop.books && marks[j] == s.shards[j].loop.lastApplied
  }

  lemma DrainedAt(site: Site, s: State, parts: seq<Books>, marks: seq<uint64>, j: nat)
    requires Deployed(site) && E.Reachable(site.world, s) && Drained(site, s, parts, marks) && j < |parts|
    requires s.sequencer.mode.Holding? && s.sequencer.mode.ok && s.sequencer.mode.drain !in s.sequencer.released
    ensures var cs := EverAnswered(site, s, j);
            Routable(Birth(site.registry, j), cs) && parts[j] == ReplayBooks(Birth(site.registry, j), cs) && marks[j] == LastSeq(0, cs)
    ensures parts[j].Keys == set symbol | symbol in SymbolsForShard(site.registry, j)
  {
    hide Holds, E.Sane, Routable, LastSeq, Rising, RoutedTo, ReplayBooks, E.Reachable, W.Logged, StartBooks;
    var setup, live := site.world.setups[j], CommandsOf(s.shards[j].loop.applied);
    assert ShardDeployed(site, j);
    E.DrainHolds(site.world, s, j);
    assert live[..|live|] == live;
    ReplayJoin(ShardId(setup), Birth(site.registry, j), site.earlier[j], live);
    RisingJoin(0, site.earlier[j], live);
    OpenedKeys(setup, SymbolsForShard(site.registry, j), site.earlier[j]);
    ReplayKeys(setup.books, live);
  }

  lemma ReplayKeys(books: Books, cs: seq<Command>)
    requires Routable(books, cs)
    ensures ReplayBooks(books, cs).Keys == books.Keys
  {
  }

  lemma OpenedKeys(setup: Setup, symbols: seq<Symbol>, earlier: seq<Command>)
    requires Opened(setup, symbols, earlier)
    ensures setup.books.Keys == set symbol | symbol in symbols
  {
  }

  ghost function AllAnswered(site: Site, s: State): (cuts: seq<seq<Command>>)
    requires |site.earlier| == |s.shards|
    ensures |cuts| == |s.shards| && forall j :: 0 <= j < |cuts| ==> cuts[j] == EverAnswered(site, s, j)
  {
    seq(|s.shards|, j requires 0 <= j < |s.shards| => EverAnswered(site, s, j))
  }

  /** A snapshot made from the shards of a held drain captures exactly what they have answered. */
  lemma DrainIsCaptured(site: Site, s: State, snap: EngineSnapshot, parts: seq<Books>)
    requires Deployed(site) && E.Reachable(site.world, s) && Drained(site, s, parts, snap.lastApplied)
    requires s.sequencer.mode.Holding? && s.sequencer.mode.ok && s.sequencer.mode.drain !in s.sequencer.released
    requires snap.engineId == site.cfg.engineId && snap.shardCount == site.cfg.shardCount && Covers(snap.books, Merge(parts))
    ensures Captures(site.cfg, site.registry, AllAnswered(site, s), snap) && Within(site, s, AllAnswered(site, s))
  {
    hide Holds, E.Sane, ShardDeployed, EverAnswered, Routable, LastSeq, ReplayBooks, Latest, Merge, Shows, E.Reachable, StartBooks, Covers, ShowsBooks, Drained;
    DrainedCount(site, s, parts, snap.lastApplied);
    forall j | 0 <= j < |parts|
      ensures parts[j].Keys == set symbol | symbol in SymbolsForShard(site.registry, j)
    {
      DrainedAt(site, s, parts, snap.lastApplied, j);
    }
    PartsApart(site, parts);
    forall i | 0 <= i < |snap.books| ensures ShardFor(site.registry, snap.books[i].symbol).Some? {
      PartSymbol(site, parts, snap, i);
    }
    forall j | 0 <= j < site.cfg.shardCount
      ensures ShardCaptured(site.registry, j, EverAnswered(site, s, j), snap.lastApplied[j], Latest(snap.books))
    {
      DrainedAt(site, s, parts, snap.lastApplied, j);
      PartShown(site, parts, snap, j);
    }
  }

  lemma DrainedCount(site: Site, s: State, parts: seq<Books>, marks: seq<uint64>)
    requires Drained(site, s, parts, marks)
    ensures |parts| == |marks| == |s.shards| == |site.world.setups|
  {
  }

  lemma PartsApart(site: Site, parts: seq<Books>)
    requires Deployed(site) && |parts| == site.cfg.shardCount
    requires forall j :: 0 <= j < |parts| ==> parts[j].Keys == set symbol | symbol in SymbolsForShard(site.registry, j)
    ensures forall i, j :: 0 <= i < j < |parts| ==> parts[i].Keys !! parts[j].Keys
  {
    hide Holds, E.Sane, ShardDeployed;
    forall i, j | 0 <= i < j < |parts| ensures parts[i].Keys !! parts[j].Keys {
      forall symbol | symbol in parts[i].Keys ensures symbol !in parts[j].Keys {
        SymbolHome(site, symbol, i);
        SymbolHome(site, symbol, j);
      }
    }
  }

  lemma PartSymbol(site: Site, parts: seq<Books>, snap: EngineSnapshot, i: nat)
    requires Deployed(site) && |parts| == site.cfg.shardCount && i < |snap.books| && Covers(snap.books, Merge(parts))
    requires forall i, j :: 0 <= i < j < |parts| ==> parts[i].Keys !! parts[j].Keys
    requires forall j :: 0 <= j < |parts| ==> parts[j].Keys == set symbol | symbol in SymbolsForShard(site.registry, j)
    ensures ShardFor(site.registry, snap.books[i].symbol).Some?
  {
    hide Holds, E.Sane, ShardDeployed, Latest, Merge, Shows;
    var symbol := snap.books[i].symbol;
    LatestHas(snap.books, i);
    MergeAt(parts, symbol);
    assert symbol in Merge(parts).Keys;
    var j :| 0 <= j < |parts| && symbol in parts[j];
    assert symbol in parts[j].Keys;
    SymbolHome(site, symbol, j);
  }

  lemma PartShown(site: Site, parts: seq<Books>, snap: EngineSnapshot, j: nat)
    requires Deployed(site) && |parts| == site.cfg.shardCount && j < |parts| && Covers(snap.books, Merge(parts))
    requires forall i, j :: 0 <= i < j < |parts| ==> parts[i].Keys !! parts[j].Keys
    requires parts[j].Keys == set symbol | symbol in SymbolsForShard(site.registry, j)
    ensures ShowsBooks(Latest(snap.books), SymbolsForShard(site.registry, j), parts[j])
  {
    hide Holds, E.Sane, ShardDeployed, Latest, Merge, Shows;
    forall symbol | symbol in SymbolsForShard(site.registry, j)
      ensures symbol in Latest(snap.books) && symbol in parts[j] && Shows(Latest(snap.books)[symbol], parts[j][symbol])
    {
      assert symbol in parts[j].Keys;
      MergeAt(parts, symbol);
      assert symbol in Latest(snap.books).Keys;
    }
  }

  /** What lies within the answered commands stays there while the run goes on. */
  lemma WithinLater(site: Site, s: State, cuts: seq<seq<Command>>, steps: seq<Sequencing.Action>)
    requires Within(site, s, cuts) && E.CanRun(site.world, s, steps)
    ensures Within(site, E.Run(site.world, s, steps), cuts)
  {
    hide E.CanRun, E.Run;
    var t := E.Run(site.world, s, steps);
    RunCount(site.world, s, steps);
    forall j | 0 <= j < |cuts| ensures cuts[j] <= EverAnswered(site, t, j) {
      E.RunGrows(site.world, s, steps, j);
    }
  }

  lemma {:induction false} RunCount(world: World, s: State, steps: seq<Sequencing.Action>)
    requires E.CanRun(world, s, steps)
    ensures |E.Run(world, s, steps).shards| == |s.shards|
    decreases |steps|
  {
    hide ShardLoop.Enabled, ShardLoop.Next, Handle, Push, TakeAnswer, CloseInbox;
    if steps != [] {
      RunCount(world, Sequencing.Next(world, s, steps[0]), steps[1..]);
    }
  }

  /** The whole way round: a snapshot is made while a drain is held; the engine runs on, in any way, and
      crashes at any moment; then recovery from that snapshot succeeds. */
  lemma SnapshotThenCrash(site: Site, s: State, snap: EngineSnapshot, parts: seq<Books>, steps: seq<Sequencing.Action>, files: seq<seq<Data>>)
    requires Deployed(site) && E.Reachable(site.world, s) && Drained(site, s, parts, snap.lastApplied)
    requires s.sequencer.mode.Holding? && s.sequencer.mode.ok && s.sequencer.mode.drain !in s.sequencer.released
    requires snap.engineId == site.cfg.engineId && snap.shardCount == site.cfg.shardCount && Covers(snap.books, Merge(parts))
    requires E.CanRun(site.world, s, steps) && Crashed(site, E.Run(site.world, s, steps), files)
    ensures Progress(site.cfg.wire)
    ensures Recovers(site, E.Run(site.world, s, steps), files, RecoveredState(site.cfg, site.registry, Some(snap), files))
  {
    hide Holds, ShardDeployed, E.Sane, Captures, Crashed, Recovers, RecoveredState, Progress, E.Reachable, E.CanRun, E.Run, Covers, Drained, EverAnswered;
    DrainedCount(site, s, parts, snap.lastApplied);
    DrainIsCaptured(site, s, snap, parts);
    E.ReachableLater(site.world, s, steps);
    WithinLater(site, s, AllAnswered(site, s), steps);
    CrashRecovery(site, E.Run(site.world, s, steps), AllAnswered(site, s), snap, files);
  }
}
