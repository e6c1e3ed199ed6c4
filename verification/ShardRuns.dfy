/** Stretches of a run of one shard, and a run that skips a record which cannot be encoded: it is answered with
    an error, but the writer goes on (internal/journal/writer.go). */
module ShardRuns {
  import opened Model
  import opened Bytes
  import opened Codec
  import opened Reader
  import opened Replay
  import opened ShardLoop
  import W = GroupCommit
  import S = ShardLaws

  // ---- A shard on its own ----

  /** Steps of loop and writer only. */
  ghost predicate OwnSteps(es: seq<S.Event>) {
    forall i :: 0 <= i < |es| ==> es[i].Own? && !es[i].action.Release?
  }

  ghost predicate Goes(setup: Setup, s: Shard, t: Shard) {
    exists es :: OwnSteps(es) && S.CanRun(setup, s, es) && S.Run(setup, s, es) == t
  }

  lemma {:induction false} RunMore(setup: Setup, s: Shard, es: seq<S.Event>, e: S.Event)
    requires S.CanRun(setup, s, es) && S.Fits(setup, S.Run(setup, s, es), e)
    ensures S.CanRun(setup, s, es + [e]) && S.Run(setup, s, es + [e]) == S.Do(setup, S.Run(setup, s, es), e)
    decreases |es|
  {
    hide S.Fits, S.Do;
    if es == [] {
      assert es + [e] == [e] && [e][1..] == [];
    } else {
      assert (es + [e])[1..] == es[1..] + [e] && (es + [e])[0] == es[0];
      RunMore(setup, S.Do(setup, s, es[0]), es[1..], e);
    }
  }

  lemma GoesNowhere(setup: Setup, s: Shard)
    ensures Goes(setup, s, s)
  {
    assert OwnSteps([]) && S.CanRun(setup, s, []) && S.Run(setup, s, []) == s;
  }

  lemma GoesOn(setup: Setup, s: Shard, t: Shard, a: ShardLoop.Action)
    requires Goes(setup, s, t) && ShardLoop.Enabled(setup, t, a) && !a.Release?
    ensures Goes(setup, s, ShardLoop.Next(setup, t, a))
  {
    hide ShardLoop.Enabled, ShardLoop.Next;
    var es :| OwnSteps(es) && S.CanRun(setup, s, es) && S.Run(setup, s, es) == t;
    assert OwnSteps(es + [S.Own(a)]);
    RunMore(setup, s, es, S.Own(a));
  }

  /** The writer opens a segment, at its start or before a batch. */
  lemma Opens(setup: Setup, s: Shard, from: Shard) returns (t: Shard)
    requires Goes(setup, from, s) && s.writer.phase.Opening? && s.writer.phase.stage == W.NewFile
    ensures Goes(setup, from, t) && t.loop == s.loop
    ensures var head, after := setup.cfg.wire.head(setup.cfg.header), s.writer.phase.after;
            t.writer == s.writer.(phase := if after.Boot? then W.Idle else W.Writing(after), currentSize := |head|,
                                  disk := s.writer.disk + [W.Segment(head, [], true, [], 0)])
  {
    hide Goes;
    t := Created(setup, s, from);
    var head := setup.cfg.wire.head(setup.cfg.header);
    assert [] + head == head;
    LastReplaced(s.writer.disk, W.Blank([], head), W.Blank(head, []));
    LastReplaced(s.writer.disk, W.Blank(head, []), W.Segment(head, [], true, [], 0));
    GoesOn(setup, from, t, WriterStep(W.SyncHead));
    t := ShardLoop.Next(setup, t, WriterStep(W.SyncHead));
    GoesOn(setup, from, t, WriterStep(W.SyncDir));
    t := ShardLoop.Next(setup, t, WriterStep(W.SyncDir));
  }

  lemma LastReplaced(disk: seq<W.Segment>, a: W.Segment, b: W.Segment)
    ensures W.Last(disk + [a]) == a && W.SetLast(disk + [a], b) == disk + [b]
  {
  }

  lemma Created(setup: Setup, s: Shard, from: Shard) returns (t: Shard)
    requires Goes(setup, from, s) && s.writer.phase.Opening? && s.writer.phase.stage == W.NewFile
    ensures Goes(setup, from, t) && t.loop == s.loop
    ensures var head, after := setup.cfg.wire.head(setup.cfg.header), s.writer.phase.after;
            t.writer == s.writer.(phase := W.Opening(W.SyncHeader, after), disk := s.writer.disk + [W.Blank([], head)])
  {
    hide Goes;
    var head := setup.cfg.wire.head(setup.cfg.header);
    assert head[..|head|] == head;
    LastReplaced(s.writer.disk, W.Blank([], []), W.Blank([], head));
    GoesOn(setup, from, s, WriterStep(W.CreateFile));
    t := ShardLoop.Next(setup, s, WriterStep(W.CreateFile));
    GoesOn(setup, from, t, WriterStep(W.PutHeader(|head|)));
    t := ShardLoop.Next(setup, t, WriterStep(W.PutHeader(|head|)));
  }

  /** Nothing but one command is under way. */
  ghost predicate Expects(s: Shard, c: Command, ticket: nat) {
    && s.loop.control.Running? && s.loop.inbox == [CommandMsg(c, ticket)] && !s.loop.failed
    && |s.loop.pending| < MAX_PENDING && c.symbol in s.loop.books
    && s.writer.phase.Idle? && s.writer.queue == [] && !s.writer.failed
  }

  /** The command is applied and its record handed to the writer. */
  lemma Delivers(setup: Setup, s: Shard, from: Shard, c: Command, ticket: nat) returns (t: Shard)
    requires Goes(setup, from, s) && Expects(s, c, ticket)
    ensures Goes(setup, from, t)
    ensures var rec, k := RecordOf(ShardId(setup), s.loop.books, c), |s.writer.submitted|;
            && t.loop == s.loop.(inbox := [], books := ApplyTo(s.loop.books, c), arrived := s.loop.arrived + [Arrival(c, ticket)],
                                 applied := s.loop.applied + [Arrival(c, ticket)],
                                 pending := s.loop.pending + [Pending(rec.sequence, rec.result, ticket, k)])
            && t.writer == W.TakeAppend(setup.cfg, s.writer.(submitted := s.writer.submitted + [rec]), k, rec)
  {
    hide Goes, RecordOf, ApplyTo, W.TakeAppend;
    var rec, k := RecordOf(ShardId(setup), s.loop.books, c), |s.writer.submitted|;
    assert s.loop.inbox[1..] == [];
    GoesOn(setup, from, s, Receive);
    t := ShardLoop.Next(setup, s, Receive);
    GoesOn(setup, from, t, Send(true));
    t := ShardLoop.Next(setup, t, Send(true));
    assert t.writer.queue == [W.AppendReq(k, rec)] && t.writer.queue[1..] == [];
    GoesOn(setup, from, t, WriterStep(W.TakeRequest));
    t := ShardLoop.Next(setup, t, WriterStep(W.TakeRequest));
    assert t.writer == W.TakeAppend(setup.cfg, s.writer.(submitted := s.writer.submitted + [rec]), k, rec);
  }

  /** A batch waits: the writer is idle with its timer armed, or about to flush. */
  ghost predicate HasBatch(w: W.Writer) {
    && (w.phase.Idle? || w.phase == W.Flushing(W.Resume)) && w.disk != []
    && w.batch.armed && w.batch.acks != [] && w.batch.bytes != []
  }

  /** The batch is written, to the current segment or to a new one, and not yet synced. The disk before that
      is returned too. */
  lemma Writes(setup: Setup, s: Shard, from: Shard) returns (t: Shard, disk: seq<W.Segment>, size: nat)
    requires Goes(setup, from, s) && HasBatch(s.writer)
    ensures Goes(setup, from, t) && t.loop == s.loop
    ensures var head := setup.cfg.wire.head(setup.cfg.header);
            disk == s.writer.disk || disk == s.writer.disk + [W.Segment(head, [], true, [], 0)]
    ensures t.writer == s.writer.(phase := W.Syncing(W.Resume), currentSize := size,
                                  disk := W.SetLast(disk, W.Filled(W.Last(disk), s.writer.batch, |s.writer.batch.bytes|)))
  {
    hide Goes, W.SetLast, W.Filled;
    t := s;
    if t.writer.phase.Idle? {
      GoesOn(setup, from, t, WriterStep(W.TimerFires));
      t := ShardLoop.Next(setup, t, WriterStep(W.TimerFires));
    }
    GoesOn(setup, from, t, WriterStep(W.BeginFlush));
    t := ShardLoop.Next(setup, t, WriterStep(W.BeginFlush));
    if t.writer.phase.Opening? {
      t := Opens(setup, t, from);
    }
    disk, size := t.writer.disk, t.writer.currentSize;
    var bytes := t.writer.batch.bytes;
    GoesOn(setup, from, t, WriterStep(W.PutBatch(|bytes|)));
    t := ShardLoop.Next(setup, t, WriterStep(W.PutBatch(|bytes|)));
  }

  lemma Syncs(setup: Setup, s: Shard, from: Shard) returns (t: Shard)
    requires Goes(setup, from, s) && s.writer.phase.Syncing? && s.writer.disk != []
    ensures Goes(setup, from, t) && t.loop == s.loop && t.writer == W.Sync(s.writer)
  {
    hide Goes, W.Sync;
    GoesOn(setup, from, s, WriterStep(W.SyncBatch));
    t := ShardLoop.Next(setup, s, WriterStep(W.SyncBatch));
  }

  // ---- A record skipped ----

  /** Some run of the shard leads there. */
  ghost predicate ShardReachable(setup: Setup, s: Shard) {
    exists es :: S.CanRun(setup, Start(setup), es) && S.Run(setup, Start(setup), es) == s
  }

  lemma {:induction false} RunJoin(setup: Setup, s: Shard, a: seq<S.Event>, b: seq<S.Event>)
    requires S.CanRun(setup, s, a) && S.CanRun(setup, S.Run(setup, s, a), b)
    ensures S.CanRun(setup, s, a + b) && S.Run(setup, s, a + b) == S.Run(setup, S.Run(setup, s, a), b)
    decreases |a|
  {
    hide S.Fits, S.Do;
    if a == [] {
      assert a + b == b;
    } else {
      assert (a + b)[1..] == a[1..] + b && (a + b)[0] == a[0];
      RunJoin(setup, S.Do(setup, s, a[0]), a[1..], b);
    }
  }

  lemma ReachesOn(setup: Setup, s: Shard, t: Shard)
    requires ShardReachable(setup, s) && Goes(setup, s, t)
    ensures ShardReachable(setup, t)
  {
    hide S.CanRun, S.Run;
    var a :| S.CanRun(setup, Start(setup), a) && S.Run(setup, Start(setup), a) == s;
    var b :| OwnSteps(b) && S.CanRun(setup, s, b) && S.Run(setup, s, b) == t;
    RunJoin(setup, Start(setup), a, b);
  }

  lemma ReachesPush(setup: Setup, s: Shard, m: Message)
    requires ShardReachable(setup, s) && !s.loop.inboxClosed
    ensures ShardReachable(setup, Push(s, m))
  {
    var a :| S.CanRun(setup, Start(setup), a) && S.Run(setup, Start(setup), a) == s;
    RunMore(setup, Start(setup), a, S.Pushed(m));
  }

  lemma Boots(setup: Setup) returns (s: Shard)
    ensures var head := setup.cfg.wire.head(setup.cfg.header);
            && ShardReachable(setup, s) && Goes(setup, Start(setup), s) && s.loop == Start(setup).loop
            && s.writer == W.Start(setup.base).(phase := W.Idle, currentSize := |head|,
                                                disk := setup.base + [W.Segment(head, [], true, [], 0)])
  {
    GoesNowhere(setup, Start(setup));
    assert S.CanRun(setup, Start(setup), []) && S.Run(setup, Start(setup), []) == Start(setup);
    s := Opens(setup, Start(setup), Start(setup));
    ReachesOn(setup, Start(setup), s);
  }

  lemma LoggedMore(disk: seq<W.Segment>, before: seq<W.Segment>, head: Data, b: W.Batch)
    requires before != [] && (before == disk || before == disk + [W.Segment(head, [], true, [], 0)])
    ensures W.Logged(W.SetLast(before, W.Filled(W.Last(before), b, |b.bytes|))) == W.Logged(disk) + b.records
  {
    W.SetLastMeaning(before, W.Filled(W.Last(before), b, |b.bytes|));
    W.AddedMeaning(disk, W.Segment(head, [], true, [], 0));
    assert W.Logged(before) == W.Logged(disk) + [] == W.Logged(disk);
    var front := W.Logged(before[..|before| - 1]);
    assert front + (W.Last(before).records + b.records) == (front + W.Last(before).records) + b.records;
  }

  /** What waits is written and synced. */
  lemma Finishes(setup: Setup, s: Shard) returns (t: Shard)
    requires ShardReachable(setup, s) && HasBatch(s.writer)
    ensures ShardReachable(setup, t) && t.loop == s.loop && t.writer.submitted == s.writer.submitted
    ensures W.Logged(t.writer.disk) == W.Logged(s.writer.disk) + s.writer.batch.records
  {
    hide ShardReachable, Goes, W.Logged, W.SetLast, W.Filled, W.AckAll;
    GoesNowhere(setup, s);
    var disk, size := [], 0;
    t, disk, size := Writes(setup, s, s);
    LoggedMore(s.writer.disk, disk, setup.cfg.wire.head(setup.cfg.header), s.writer.batch);
    W.SetLastMeaning(disk, W.Filled(W.Last(disk), s.writer.batch, |s.writer.batch.bytes|));
    var written := t.writer.disk;
    t := Syncs(setup, t, s);
    W.SetLastMeaning(written, W.Settled(W.Last(written)));
    LoggedSplit(written);
    ReachesOn(setup, s, t);
  }

  lemma LoggedSplit(disk: seq<W.Segment>)
    requires disk != []
    ensures W.Logged(disk) == W.Logged(disk[..|disk| - 1]) + W.Last(disk).records
  {
  }

  /** A shard that has just started takes two commands, of which the first cannot be encoded. */
  lemma TakesTwo(setup: Setup, c: Command, d: Command) returns (s: Shard)
    requires S.Sane(setup) && c.symbol in setup.books && d.symbol in setup.books && |c.symbol| > 0xffff
    requires Good(RecordOf(ShardId(setup), ApplyTo(setup.books, c), d))
    ensures var first, second := RecordOf(ShardId(setup), setup.books, c), RecordOf(ShardId(setup), ApplyTo(setup.books, c), d);
            && ShardReachable(setup, s) && s.loop.applied == [Arrival(c, 0), Arrival(d, 1)]
            && s.writer.submitted == [first, second] && HasBatch(s.writer) && s.writer.batch.records == [second]
            && W.Logged(s.writer.disk) == W.Logged(setup.base) && first != second
  {
    hide ShardReachable, Goes, Faithful, Progress, ApplyTo, W.Logged;
    S.SaneUsable(setup);
    W.UsableIsFramed(setup.cfg);
    SameKeys(setup.books, c);
    var first, second := RecordOf(ShardId(setup), setup.books, c), RecordOf(ShardId(setup), ApplyTo(setup.books, c), d);
    s := Boots(setup);
    W.AddedMeaning(setup.base, W.Segment(setup.cfg.wire.head(setup.cfg.header), [], true, [], 0));
    assert W.Logged(setup.base) + [] == W.Logged(setup.base);
    s := TakesOne(setup, s, c, 0);
    assert !Encodable(first) && Encodable(second);
    s := TakesOne(setup, s, d, 1);
    assert s.writer.batch == W.Batch([] + setup.cfg.wire.frame(second), [1], true, [second]);
  }

  /** Two commands are applied; the first has a symbol too long for the record format. The log then holds
      the second alone behind the records of earlier runs, which is not a beginning of what was applied. */
  lemma LogSkips(setup: Setup, c: Command, d: Command) returns (s: Shard)
    requires S.Sane(setup) && c.symbol in setup.books && d.symbol in setup.books && |c.symbol| > 0xffff
    requires Good(RecordOf(ShardId(setup), ApplyTo(setup.books, c), d))
    ensures ShardReachable(setup, s) && s.loop.applied == [Arrival(c, 0), Arrival(d, 1)]
    ensures s.writer.submitted ==
            [RecordOf(ShardId(setup), setup.books, c), RecordOf(ShardId(setup), ApplyTo(setup.books, c), d)]
    ensures W.Logged(s.writer.disk) == W.Logged(setup.base) + [s.writer.submitted[1]]
    ensures !(W.Logged(s.writer.disk) <= W.Logged(setup.base) + s.writer.submitted)
  {
    hide ShardReachable, ApplyTo, RecordOf, W.Logged, S.Sane, HasBatch;
    s := TakesTwo(setup, c, d);
    s := Finishes(setup, s);
    NotBeginning(W.Logged(setup.base), s.writer.submitted[0], s.writer.submitted[1]);
  }

  lemma NotBeginning(base: seq<Record>, first: Record, second: Record)
    requires first != second
    ensures !(base + [second] <= base + [first, second])
  {
    assert (base + [second])[|base|] != (base + [first, second])[|base|];
  }

  lemma TakesOne(setup: Setup, s: Shard, c: Command, ticket: nat) returns (t: Shard)
    requires ShardReachable(setup, s) && !s.loop.inboxClosed && s.loop.inbox == [] && Expects(Push(s, CommandMsg(c, ticket)), c, ticket)
    ensures ShardReachable(setup, t)
    ensures var rec, k := RecordOf(ShardId(setup), s.loop.books, c), |s.writer.submitted|;
            && t.loop == s.loop.(books := ApplyTo(s.loop.books, c), arrived := s.loop.arrived + [Arrival(c, ticket)],
                                 applied := s.loop.applied + [Arrival(c, ticket)],
                                 pending := s.loop.pending + [Pending(rec.sequence, rec.result, ticket, k)])
            && t.writer == W.TakeAppend(setup.cfg, s.writer.(submitted := s.writer.submitted + [rec]), k, rec)
  {
    hide ShardReachable, Goes, RecordOf, ApplyTo, W.TakeAppend;
    var from := Push(s, CommandMsg(c, ticket));
    ReachesPush(setup, s, CommandMsg(c, ticket));
    GoesNowhere(setup, from);
    t := Delivers(setup, from, from, c, ticket);
    ReachesOn(setup, from, t);
  }

  lemma SameKeys(books: Books, c: Command)
    requires c.symbol in books
    ensures ApplyTo(books, c).Keys == books.Keys
  {
  }
}
