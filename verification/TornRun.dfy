/** A run of the engine that answers a command with success and crashes in the middle of the next record, so
    that the file it leaves is torn. */
module TornRun {
  import opened Model
  import opened Bytes
  import opened Codec
  import opened Reader
  import opened Replay
  import PriceTimeBook
  import opened Registry
  import opened Sequencing
  import opened EndToEnd
  import opened Restarts
  import opened ShardRuns
  import L = ShardLoop
  import W = GroupCommit
  import S = ShardLaws
  import E = EngineLaws

  // ---- Steps of one shard are steps of the engine ----

  lemma {:induction false} LiftRun(world: World, s: State, j: nat, es: seq<S.Event>)
    requires E.Reachable(world, s) && j < |s.shards| == |world.setups| && OwnSteps(es)
    requires S.CanRun(world.setups[j], s.shards[j], es)
    ensures E.Reachable(world, s.(shards := s.shards[j := S.Run(world.setups[j], s.shards[j], es)]))
    decreases |es|
  {
    hide L.Enabled, L.Next, E.Reachable;
    if es == [] {
      assert s.shards[j := s.shards[j]] == s.shards;
    } else {
      var a := ShardStep(j, es[0].action);
      var s' := Sequencing.Next(world, s, a);
      OneStep(world, s, a);
      LiftRun(world, s', j, es[1..]);
      var t := S.Run(world.setups[j], s.shards[j], es);
      assert s'.shards[j := t] == s.shards[j := t];
    }
  }

  lemma OneStep(world: World, s: State, a: Sequencing.Action)
    requires E.Reachable(world, s) && Sequencing.Enabled(world, s, a)
    ensures E.Reachable(world, Sequencing.Next(world, s, a))
  {
    hide E.Reachable, Sequencing.Next, Sequencing.Enabled;
    assert [a][1..] == [];
    assert E.CanRun(world, Sequencing.Next(world, s, a), []);
    E.ReachableLater(world, s, [a]);
    assert E.Run(world, s, [a]) == E.Run(world, Sequencing.Next(world, s, a), []);
  }

  lemma Lifts(world: World, s: State, j: nat, t: L.Shard)
    requires E.Reachable(world, s) && j < |s.shards| == |world.setups| && Goes(world.setups[j], s.shards[j], t)
    ensures E.Reachable(world, s.(shards := s.shards[j := t]))
  {
    hide E.Reachable;
    var es :| OwnSteps(es) && S.CanRun(world.setups[j], s.shards[j], es) && S.Run(world.setups[j], s.shards[j], es) == t;
    LiftRun(world, s, j, es);
  }

  /** The sequencer has nothing to do. */
  ghost predicate Waiting(s: State) {
    s.sequencer.mode.Ready? && s.sequencer.queue == [] && !s.sequencer.closed && s.sequencer.out.next != 0
  }

  /** A submitted command arrives in the inbox of its shard. */
  lemma Arrives(world: World, s: State, j: nat, c: Command) returns (t: State)
    requires E.Reachable(world, s) && Waiting(s) && j < |s.shards| == |world.setups| && world.route(c.symbol) == Some(j)
    ensures E.Reachable(world, t) && |t.shards| == |s.shards|
    ensures t.shards == s.shards[j := L.Push(s.shards[j], L.CommandMsg(c.(sequence := s.sequencer.out.next), |s.sequencer.log|))]
    ensures t.sequencer.mode.Ready? && t.sequencer.queue == [] && !t.sequencer.closed
    ensures t.sequencer.log == s.sequencer.log + [CommandReq(c, |s.sequencer.log|)]
    ensures t.sequencer.results == s.sequencer.results && t.sequencer.released == s.sequencer.released
    ensures t.sequencer.out.next == PriceTimeBook.Succ64(s.sequencer.out.next)
  {
    hide E.Reachable, L.Push;
    OneStep(world, s, Submit(c));
    t := Sequencing.Next(world, s, Submit(c));
    assert t.sequencer.queue == [CommandReq(c, |s.sequencer.log|)] && t.sequencer.queue[1..] == [];
    OneStep(world, t, Take);
    t := Sequencing.Next(world, t, Take);
  }

  // ---- One command answered, the next one half written ----

  /** A shard with an open segment and one command under way. */
  ghost predicate Fit(setup: L.Setup, s: L.Shard, c: Command, ticket: nat) {
    && Expects(s, c, ticket) && s.loop.pending == [] && s.writer.batch == W.NO_BATCH && s.writer.disk != []
    && Good(RecordOf(L.ShardId(setup), s.loop.books, c)) && W.Framed(setup.cfg)
  }

  ghost function BatchOf(setup: L.Setup, s: L.Shard, c: Command): W.Batch
    requires c.symbol in s.loop.books
  {
    var rec := RecordOf(L.ShardId(setup), s.loop.books, c);
    W.Batch(setup.cfg.wire.frame(rec), [|s.writer.submitted|], true, [rec])
  }

  /** Its record is written and not yet synced. */
  lemma WritesOne(setup: L.Setup, s: L.Shard, from: L.Shard, c: Command, ticket: nat) returns (t: L.Shard, disk: seq<W.Segment>)
    requires Goes(setup, from, s) && Fit(setup, s, c, ticket)
    ensures Goes(setup, from, t) && disk != []
    ensures var rec, k := RecordOf(L.ShardId(setup), s.loop.books, c), |s.writer.submitted|;
            && t.loop == s.loop.(inbox := [], books := ApplyTo(s.loop.books, c), arrived := s.loop.arrived + [L.Arrival(c, ticket)],
                                 applied := s.loop.applied + [L.Arrival(c, ticket)],
                                 pending := [L.Pending(rec.sequence, rec.result, ticket, k)])
            && t.writer.phase == W.Syncing(W.Resume) && t.writer.batch == BatchOf(setup, s, c) && t.writer.acks == s.writer.acks
            && t.writer.queue == [] && !t.writer.failed && t.writer.submitted == s.writer.submitted + [rec]
            && t.writer.disk == W.SetLast(disk, W.Filled(W.Last(disk), t.writer.batch, |t.writer.batch.bytes|))
  {
    hide Goes, RecordOf, ApplyTo, W.SetLast, W.Filled;
    var rec := RecordOf(L.ShardId(setup), s.loop.books, c);
    assert [] + setup.cfg.wire.frame(rec) == setup.cfg.wire.frame(rec);
    t := Delivers(setup, s, from, c, ticket);
    var size := 0;
    t, disk, size := Writes(setup, t, from);
  }

  /** Its record is synced and its result answered. */
  lemma AnswersOne(setup: L.Setup, s: L.Shard, from: L.Shard, c: Command, ticket: nat) returns (t: L.Shard)
    requires Goes(setup, from, s) && Fit(setup, s, c, ticket)
    ensures Goes(setup, from, t)
    ensures var rec := RecordOf(L.ShardId(setup), s.loop.books, c);
            && t.loop.control.Running? && t.loop.inbox == [] && t.loop.inboxClosed == s.loop.inboxClosed && !t.loop.failed && t.loop.pending == []
            && t.loop.books == ApplyTo(s.loop.books, c) && t.loop.applied == s.loop.applied + [L.Arrival(c, ticket)]
            && t.loop.completed == s.loop.completed + 1 && L.Reply(ticket, L.Done(rec.result)) in t.loop.replies
            && t.writer.phase.Idle? && t.writer.queue == [] && !t.writer.failed && t.writer.batch == W.NO_BATCH && t.writer.disk != []
            && t.writer.submitted == s.writer.submitted + [rec]
  {
    hide Goes, RecordOf, ApplyTo, W.SetLast, W.Filled, W.AckAll;
    var disk;
    t, disk := WritesOne(setup, s, from, c, ticket);
    W.SetLastMeaning(disk, W.Filled(W.Last(disk), t.writer.batch, |t.writer.batch.bytes|));
    W.SetLastMeaning(t.writer.disk, W.Settled(W.Last(t.writer.disk)));
    W.AckAllMeaning(t.writer.acks, t.writer.batch.acks, true);
    assert |s.writer.submitted| in t.writer.batch.acks;
    t := Syncs(setup, t, from);
    GoesOn(setup, from, t, L.Complete);
    t := L.Next(setup, t, L.Complete);
  }

  // ---- The crash ----

  /** Of every file what is synced, and of the last one the first byte behind it. */
  ghost function Remnants(disk: seq<W.Segment>, extra: nat): (files: seq<Data>)
    requires disk != [] ==> extra <= |W.Last(disk).unsynced|
    ensures |files| == |disk|
    ensures forall i :: 0 <= i < |disk| - 1 ==> files[i] == disk[i].synced
    ensures disk != [] ==> files[|disk| - 1] == W.Last(disk).synced + W.Last(disk).unsynced[..extra]
  {
    seq(|disk|, i requires 0 <= i < |disk| =>
      if i < |disk| - 1 then disk[i].synced else disk[i].synced + disk[i].unsynced[..extra])
  }

  lemma RemnantsLeft(disk: seq<W.Segment>, extra: nat)
    requires disk != [] ==> extra <= |W.Last(disk).unsynced|
    ensures W.CrashLeaves(disk, Remnants(disk, extra))
  {
    var files := Remnants(disk, extra);
    forall i | 0 <= i < |files| ensures W.Remains(disk[i], files[i]) {
      if i == |disk| - 1 {
        assert files[i] <= disk[i].synced + disk[i].unsynced;
      }
    }
  }

  /** One byte of a longer record: the file does not end on a boundary. */
  lemma OneByteMore(cfg: W.Config, s: W.Segment, older: seq<Record>, rec: Record)
    requires W.Usable(cfg) && W.Torn(cfg, s) && s.records == older + [rec] && s.unsynced == cfg.wire.frame(rec) && |s.unsynced| > 1
    requires s.synced + s.unsynced == SegmentBytes(cfg.wire, cfg.header, s.records)
    ensures !EndsCleanly(cfg, s.synced + s.unsynced[..1])
  {
    hide Faithful, Progress, Frames, Whole, EndsCleanly, Loggable;
    var file, head, w := s.synced + s.unsynced[..1], cfg.wire.head(cfg.header), cfg.wire;
    W.SegmentGrows(cfg, older, [rec]);
    OneFrame(w, rec);
    assert s.synced == SegmentBytes(w, cfg.header, older) by {
      assert (s.synced + s.unsynced)[..|s.synced|] == s.synced;
    }
    W.TornPiece(cfg, s, file);
    var p := W.PieceOf(s, file);
    var k := p.cut - |head|;
    assert k == |Frames(w, older)| + 1;
    WholeIsMaximal(w, p.records, k, |older|);
    WholeIsMaximal(w, p.records, k, |p.records|);
    assert p.records[..|older|] == older && p.records[..|p.records|] == p.records;
    assert |Frames(w, p.records)| > k;
    assert Whole(w, p.records, k) == |older|;
    CleanIff(cfg, p);
  }

  lemma OneFrame(w: Wire, rec: Record)
    ensures Frames(w, [rec]) == w.frame(rec)
  {
    assert [rec][1..] == [];
  }

  // ---- The whole run ----

  /** Two commands for one shard whose records can be encoded; the frame of the second is more than a byte. */
  ghost predicate Pair(site: Site, j: nat, c: Command, d: Command) {
    && Deployed(site) && site.world.first < 0xffff_ffff_ffff_ffff
    && site.world.route(c.symbol) == Some(j) && site.world.route(d.symbol) == Some(j)
    && j < |site.world.setups|
    && var setup, c', d' := site.world.setups[j], c.(sequence := site.world.first), d.(sequence := site.world.first + 1);
    && c'.symbol in setup.books && d'.symbol in ApplyTo(setup.books, c')
    && Good(RecordOf(L.ShardId(setup), setup.books, c'))
    && Good(RecordOf(L.ShardId(setup), ApplyTo(setup.books, c'), d'))
    && |setup.cfg.wire.frame(RecordOf(L.ShardId(setup), ApplyTo(setup.books, c'), d'))| > 1
  }

  /** The first command is answered with its result, the second written but not synced; no other shard moves. */
  ghost predicate HalfWay(site: Site, j: nat, c: Command, d: Command, s: State, disk: seq<W.Segment>)
    requires Pair(site, j, c, d)
  {
    var setup, c', d' := site.world.setups[j], c.(sequence := site.world.first), d.(sequence := site.world.first + 1);
    var first, second := RecordOf(L.ShardId(setup), setup.books, c'), RecordOf(L.ShardId(setup), ApplyTo(setup.books, c'), d');
    && |s.shards| == |site.world.setups| && (forall i :: 0 <= i < |s.shards| && i != j ==> s.shards[i] == L.Start(site.world.setups[i]))
    && var t := s.shards[j];
    && t.loop.completed == 1 && |t.loop.applied| == 2 && L.Reply(0, L.Done(first.result)) in t.loop.replies
    && t.writer.phase == W.Syncing(W.Resume) && t.writer.submitted == [first, second] && disk != []
    && t.writer.batch == W.Batch(setup.cfg.wire.frame(second), [1], true, [second])
    && t.writer.disk == W.SetLast(disk, W.Filled(W.Last(disk), t.writer.batch, |t.writer.batch.bytes|))
  }

  lemma StartReachable(world: World)
    ensures E.Reachable(world, Sequencing.Start(world))
  {
    assert E.CanRun(world, Sequencing.Start(world), []) && E.Run(world, Sequencing.Start(world), []) == Sequencing.Start(world);
  }

  lemma PairFramed(site: Site, j: nat)
    requires Deployed(site) && j < |site.world.setups|
    ensures W.Usable(site.world.setups[j].cfg) && W.Framed(site.world.setups[j].cfg)
  {
    hide Holds, Faithful, Progress, ShardDeployed, Routes, W.Intact;
    assert S.Sane(site.world.setups[j]);
    W.UsableIsFramed(site.world.setups[j].cfg);
  }

  /** The shard opens its segment and answers the first command. */
  lemma FirstAnswered(site: Site, j: nat, c: Command, d: Command) returns (s: State)
    requires Pair(site, j, c, d)
    ensures E.Reachable(site.world, s) && Waiting(s) && |s.sequencer.log| == 1 && s.sequencer.out.next == site.world.first + 1
    ensures |s.shards| == |site.world.setups| && forall i :: 0 <= i < |s.shards| && i != j ==> s.shards[i] == L.Start(site.world.setups[i])
    ensures var setup, t, c' := site.world.setups[j], s.shards[j], c.(sequence := site.world.first);
            && t.loop.control.Running? && t.loop.inbox == [] && !t.loop.failed && t.loop.pending == []
            && t.loop.books == ApplyTo(setup.books, c') && |t.loop.applied| == 1 && t.loop.completed == 1
            && L.Reply(0, L.Done(RecordOf(L.ShardId(setup), setup.books, c').result)) in t.loop.replies
            && t.writer.phase.Idle? && t.writer.queue == [] && !t.writer.failed && t.writer.batch == W.NO_BATCH && t.writer.disk != []
            && t.writer.submitted == [RecordOf(L.ShardId(setup), setup.books, c')]
  {
    hide E.Reachable, Goes, ShardReachable, RecordOf, ApplyTo, Good, Deployed, W.Usable, W.Framed;
    var world, setup := site.world, site.world.setups[j];
    PairFramed(site, j);
    StartReachable(world);
    s := Sequencing.Start(world);
    StartsWaiting(site);
    var t := Boots(setup);
    Lifts(world, s, j, t);
    s := s.(shards := s.shards[j := t]);
    s := Arrives(world, s, j, c);
    GoesNowhere(setup, s.shards[j]);
    t := AnswersOne(setup, s.shards[j], s.shards[j], c.(sequence := world.first), 0);
    Lifts(world, s, j, t);
    s := s.(shards := s.shards[j := t]);
  }

  lemma StartsWaiting(site: Site)
    requires Deployed(site)
    ensures Waiting(Sequencing.Start(site.world)) && |site.world.setups| == site.cfg.shardCount
  {
    hide Holds, ShardDeployed, S.Sane, Routes;
  }

  lemma SecondWritten(site: Site, j: nat, c: Command, d: Command) returns (s: State, disk: seq<W.Segment>)
    requires Pair(site, j, c, d)
    ensures E.Reachable(site.world, s) && HalfWay(site, j, c, d, s, disk)
  {
    hide E.Reachable, Goes, RecordOf, ApplyTo, Good, Deployed, W.Usable, W.Framed, W.SetLast, W.Filled;
    var world, setup := site.world, site.world.setups[j];
    PairFramed(site, j);
    s := FirstAnswered(site, j, c, d);
    s := Arrives(world, s, j, d);
    GoesNowhere(setup, s.shards[j]);
    var t;
    t, disk := WritesOne(setup, s.shards[j], s.shards[j], d.(sequence := world.first + 1), 1);
    Lifts(world, s, j, t);
    s := s.(shards := s.shards[j := t]);
  }

  lemma IdleCrash(setup: L.Setup)
    requires S.Sane(setup)
    ensures L.Inv(setup, L.Start(setup)) && S.Wrote(setup, L.Start(setup)) == []
    ensures W.CrashLeaves(setup.base, Remnants(setup.base, 0))
  {
    hide W.Inv, Faithful, Progress;
    S.StartsWell(setup);
    RemnantsLeft(setup.base, 0);
  }

  /** The files of the crash: the busy shard's last file has one byte of the second record. */
  ghost function CrashFiles(s: State, j: nat): (files: seq<seq<Data>>)
    requires j < |s.shards|
    requires forall i :: 0 <= i < |s.shards| ==> s.shards[i].writer.disk != [] && i == j ==> |W.Last(s.shards[i].writer.disk).unsynced| >= 1
    ensures |files| == |s.shards|
  {
    seq(|s.shards|, i requires 0 <= i < |s.shards| => Remnants(s.shards[i].writer.disk, if i == j then 1 else 0))
  }

  lemma BusyShard(site: Site, j: nat, c: Command, d: Command, s: State, disk: seq<W.Segment>)
    requires Pair(site, j, c, d) && HalfWay(site, j, c, d, s, disk) && Sequencing.Inv(site.world, s)
    ensures var setup, t := site.world.setups[j], s.shards[j];
            && L.Inv(setup, t) && (forall r :: r in S.Wrote(setup, t) ==> Good(r))
            && t.writer.disk != [] && |W.Last(t.writer.disk).unsynced| > 1
            && W.CrashLeaves(t.writer.disk, Remnants(t.writer.disk, 1))
            && !EndsCleanly(setup.cfg, W.Last(t.writer.disk).synced + W.Last(t.writer.disk).unsynced[..1])
  {
    hide Deployed, RecordOf, ApplyTo, Good, EndsCleanly, Faithful, Progress, W.Working, L.LoopOk, L.DurableOk, L.FlushOk, W.FilesOk, W.Torn, Fed, PartOk, VouchedOk, SequencerOk, W.AcksOk, W.CrashLeaves;
    var setup, t := site.world.setups[j], s.shards[j];
    PairFramed(site, j);
    assert ShardOk(site.world, s.sequencer, j, t);
    S.WroteSubmitted(setup, t);
    assert |S.Wrote(setup, t)| == 2 && S.Wrote(setup, t) == t.writer.submitted;
    var second := t.writer.submitted[1];
    W.SetLastMeaning(disk, W.Filled(W.Last(disk), t.writer.batch, |t.writer.batch.bytes|));
    assert t.writer.batch.bytes[..|t.writer.batch.bytes|] == t.writer.batch.bytes;
    RemnantsLeft(t.writer.disk, 1);
    OneByteMore(setup.cfg, W.Last(t.writer.disk), W.Last(disk).records, second);
  }

  /** Such crashes happen: in every engine and for every two commands of one shard that can be encoded, some run
      answers the first with its result, and then a crash leaves the shard's last file torn. By
      `TornRestartIsFatal` the engine starts once more on these files and never again after that. */
  lemma TornCrashHappens(site: Site, j: nat, c: Command, d: Command) returns (s: State, files: seq<seq<Data>>)
    requires Pair(site, j, c, d)
    ensures E.Reachable(site.world, s) && Crashed(site, s, files) && j < |files| && files[j] != []
    ensures s.shards[j].loop.completed == 1
    ensures exists result :: L.Reply(0, L.Done(result)) in s.shards[j].loop.replies
    ensures !EndsCleanly(site.world.setups[j].cfg, files[j][|files[j]| - 1])
  {
    hide E.Reachable, RecordOf, ApplyTo, Good, EndsCleanly, S.Wrote, L.Inv, W.CrashLeaves, ShardOk, SequencerOk, Holds, S.Sane, Routes, ShardDeployed, Waiting;
    var disk;
    s, disk := SecondWritten(site, j, c, d);
    E.ReachableIsSound(site.world, s);
    BusyShard(site, j, c, d, s, disk);
    files := CrashFiles(s, j);
    forall i | 0 <= i < |files|
      ensures && L.Inv(site.world.setups[i], s.shards[i]) && W.CrashLeaves(s.shards[i].writer.disk, files[i])
              && forall r :: r in S.Wrote(site.world.setups[i], s.shards[i]) ==> Good(r)
    {
      if i != j {
        IdleCrash(site.world.setups[i]);
      }
    }
  }
}
