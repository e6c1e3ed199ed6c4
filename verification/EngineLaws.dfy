/** What holds over every run of sequencer and shards: sequencing, barriers, drains, one reply each. */
module EngineLaws {
  import opened Model
  import opened Replay
  import opened Recovery
  import opened ShardLoop
  import opened Sequencing
  import W = GroupCommit
  import S = ShardLaws

  ghost predicate CanRun(world: World, s: State, steps: seq<Sequencing.Action>)
    decreases |steps|
  {
    steps == [] || (Sequencing.Enabled(world, s, steps[0]) && CanRun(world, Sequencing.Next(world, s, steps[0]), steps[1..]))
  }

  ghost function Run(world: World, s: State, steps: seq<Sequencing.Action>): State
    requires CanRun(world, s, steps)
    decreases |steps|
  {
    if steps == [] then s else Run(world, Sequencing.Next(world, s, steps[0]), steps[1..])
  }

  lemma {:induction false} RunKeeps(world: World, s: State, steps: seq<Sequencing.Action>)
    requires Prepared(world) && Sequencing.Inv(world, s) && CanRun(world, s, steps)
    ensures Sequencing.Inv(world, Run(world, s, steps))
    decreases |steps|
  {
    hide Prepared, Sequencing.Inv, Sequencing.Next, Sequencing.Enabled;
    if steps != [] {
      Sequencing.StepKeeps(world, s, steps[0]);
      RunKeeps(world, Sequencing.Next(world, s, steps[0]), steps[1..]);
    }
  }

  /** A working configuration for every shard, a router that agrees with the books, and sequence numbers
      that go on after those recovered. */
  ghost predicate Sane(world: World) {
    && Routes(world) && world.first != 0
    && (forall j :: 0 <= j < |world.setups| ==> S.Sane(world.setups[j]) && world.setups[j].mark < world.first)
  }

  lemma StartsWell(world: World)
    requires Sane(world)
    ensures Prepared(world) && Sequencing.Inv(world, Sequencing.Start(world))
  {
    hide S.Sane, Routes, ShardLoop.Inv, ShardLoop.Start, W.Framed;
    var s := Sequencing.Start(world);
    forall j | 0 <= j < |world.setups| ensures W.Framed(world.setups[j].cfg) && ShardOk(world, s.sequencer, j, s.shards[j]) {
      S.StartsWell(world.setups[j]);
      StartsFree(world, j);
    }
  }

  lemma StartsFree(world: World, j: nat)
    requires j < |world.setups|
    ensures var l := ShardLoop.Start(world.setups[j]).loop;
            Fed(world.route, [], j, l) && Free(l, {}) && !l.inboxClosed
  {
  }

  lemma Reached(world: World, steps: seq<Sequencing.Action>)
    requires Sane(world) && CanRun(world, Sequencing.Start(world), steps)
    ensures Prepared(world) && Sequencing.Inv(world, Run(world, Sequencing.Start(world), steps))
  {
    hide Sane, Prepared, Sequencing.Inv, Sequencing.Start;
    StartsWell(world);
    RunKeeps(world, Sequencing.Start(world), steps);
  }

  /** Some run leads there. */
  ghost predicate Reachable(world: World, s: State) {
    exists steps :: CanRun(world, Sequencing.Start(world), steps) && s == Run(world, Sequencing.Start(world), steps)
  }

  lemma ReachableIsSound(world: World, s: State)
    requires Sane(world) && Reachable(world, s)
    ensures Prepared(world) && Sequencing.Inv(world, s)
  {
    hide Sane, Prepared, Sequencing.Inv, Sequencing.Start, CanRun, Run;
    var steps :| CanRun(world, Sequencing.Start(world), steps) && s == Run(world, Sequencing.Start(world), steps);
    Reached(world, steps);
  }

  lemma {:induction false} RunJoin(world: World, s: State, a: seq<Sequencing.Action>, b: seq<Sequencing.Action>)
    requires CanRun(world, s, a) && CanRun(world, Run(world, s, a), b)
    ensures CanRun(world, s, a + b) && Run(world, s, a + b) == Run(world, Run(world, s, a), b)
    decreases |a|
  {
    hide Sequencing.Next, Sequencing.Enabled;
    if a == [] {
      assert a + b == b;
    } else {
      assert (a + b)[1..] == a[1..] + b;
      RunJoin(world, Sequencing.Next(world, s, a[0]), a[1..], b);
    }
  }

  lemma ReachableLater(world: World, s: State, steps: seq<Sequencing.Action>)
    requires Reachable(world, s) && CanRun(world, s, steps)
    ensures Reachable(world, Run(world, s, steps))
  {
    hide Sequencing.Start, CanRun, Run;
    var first :| CanRun(world, Sequencing.Start(world), first) && s == Run(world, Sequencing.Start(world), first);
    RunJoin(world, Sequencing.Start(world), first, steps);
  }

  /** Nothing applied or answered is taken back. */
  ghost predicate ShardGrows(s: Shard, t: Shard) {
    s.loop.applied <= t.loop.applied && s.loop.completed <= t.loop.completed
  }

  lemma StepGrows(world: World, s: State, a: Sequencing.Action, j: nat)
    requires Sequencing.Enabled(world, s, a) && j < |s.shards|
    ensures var t := Sequencing.Next(world, s, a); |t.shards| == |s.shards| && ShardGrows(s.shards[j], t.shards[j])
  {
    hide ShardLoop.Enabled, ShardLoop.LoopNext, ShardLoop.WriterNext, Handle;
    if a.ShardStep? && a.shard == j {
      AppliedGrows(world.setups[j], s.shards[j], a.action);
    }
  }

  lemma AppliedGrows(setup: Setup, s: Shard, a: ShardLoop.Action)
    requires ShardLoop.Enabled(setup, s, a)
    ensures s.loop.applied <= ShardLoop.LoopNext(setup, s, a).applied
    ensures s.loop.completed <= ShardLoop.LoopNext(setup, s, a).completed
  {
    hide ApplyTo, RecordOf, ShardLoop.UnknownSymbol, Errors, W.Enabled;
  }

  lemma {:induction false} RunGrows(world: World, s: State, steps: seq<Sequencing.Action>, j: nat)
    requires CanRun(world, s, steps) && j < |s.shards|
    ensures var t := Run(world, s, steps); |t.shards| == |s.shards| && ShardGrows(s.shards[j], t.shards[j])
    decreases |steps|
  {
    hide Sequencing.Next, Sequencing.Enabled;
    if steps != [] {
      StepGrows(world, s, steps[0], j);
      RunGrows(world, Sequencing.Next(world, s, steps[0]), steps[1..], j);
    }
  }

  // ---- Sequence numbers ----

  /** Sequence numbers are given out without gap or reuse, and stop when they are used up. */
  lemma {:induction false} SequencesGapFree(route: Router, first: uint64, log: seq<Request>)
    requires first != 0
    ensures var o := Process(route, first, log);
            && first + |o.routed| <= 0x1_0000_0000_0000_0000
            && o.next == (first + |o.routed|) % 0x1_0000_0000_0000_0000
            && forall i :: 0 <= i < |o.routed| ==> o.routed[i].command.sequence == first + i
  {
    if log != [] {
      SequencesGapFree(route, first, log[..|log| - 1]);
    }
  }

  /** The commands for listed symbols, in the order in which they were requested. */
  function Wanted(route: Router, log: seq<Request>): (w: seq<Request>)
    ensures forall i :: 0 <= i < |w| ==> w[i].CommandReq?
  {
    if log == [] then []
    else
      var n := |log| - 1;
      Wanted(route, log[..n]) + if log[n].CommandReq? && route(log[n].command.symbol).Some? then [log[n]] else []
  }

  /** The i-th of these was routed under the i-th number. */
  ghost predicate RoutedUnder(first: uint64, routed: seq<Arrival>, w: seq<Request>)
    requires forall i :: 0 <= i < |w| ==> w[i].CommandReq?
  {
    && |routed| <= |w| && first + |routed| <= 0x1_0000_0000_0000_0000
    && forall i :: 0 <= i < |routed| ==> routed[i] == Arrival(w[i].command.(sequence := first + i), w[i].ticket)
  }

  lemma RoutedUnderMore(first: uint64, routed: seq<Arrival>, w: seq<Request>, x: Request)
    requires (forall i :: 0 <= i < |w| ==> w[i].CommandReq?) && x.CommandReq? && RoutedUnder(first, routed, w)
    ensures RoutedUnder(first, routed, w + [x])
    ensures |routed| == |w| && first + |routed| < 0x1_0000_0000_0000_0000 ==>
              RoutedUnder(first, routed + [Arrival(x.command.(sequence := first + |routed|), x.ticket)], w + [x])
  {
  }

  /** Every command for a listed symbol is routed, in the order of the requests and under the next number, until
      the numbers are used up. */
  lemma {:induction false} RoutedInOrder(route: Router, first: uint64, log: seq<Request>)
    requires first != 0
    ensures var o, w := Process(route, first, log), Wanted(route, log);
            && |o.routed| == (if |w| <= 0x1_0000_0000_0000_0000 - first then |w| else 0x1_0000_0000_0000_0000 - first)
            && RoutedUnder(first, o.routed, w)
  {
    hide Unrouted, RoutedUnder;
    if log == [] {
      assert RoutedUnder(first, [], []) by { NoneRouted(first); }
    } else {
      var n := |log| - 1;
      RoutedInOrder(route, first, log[..n]);
      SequencesGapFree(route, first, log[..n]);
      if log[n].CommandReq? && route(log[n].command.symbol).Some? {
        RoutedUnderMore(first, Process(route, first, log[..n]).routed, Wanted(route, log[..n]), log[n]);
      } else {
        assert Wanted(route, log[..n]) + [] == Wanted(route, log[..n]);
      }
    }
  }

  lemma NoneRouted(first: uint64)
    ensures RoutedUnder(first, [], [])
  {
  }

  /** A command for a symbol that is not listed is refused, and one that comes when the numbers are used up is
      answered with an error; the sequencer answers nothing else. */
  lemma {:induction false} SequencerReplies(route: Router, first: uint64, log: seq<Request>, r: Reply)
    requires first != 0
    ensures r in Process(route, first, log).replies <==> RefusedRequest(route, log, r) || LateRequest(route, first, log, r)
  {
    hide RefusedRequest, LateRequest, Wanted;
    if log == [] {
      NoRequests(route, first, r);
    } else {
      var before := log[..|log| - 1];
      SequencerReplies(route, first, before, r);
      SequencesGapFree(route, first, before);
      RoutedInOrder(route, first, before);
      RefusedMore(route, log, r);
      LateMore(route, first, log, r);
    }
  }

  lemma NoRequests(route: Router, first: uint64, r: Reply)
    ensures !RefusedRequest(route, [], r) && !LateRequest(route, first, [], r)
  {
  }

  /** The answer to a command for a symbol that is not listed. */
  ghost predicate RefusedRequest(route: Router, log: seq<Request>, r: Reply) {
    exists x :: x in log && x.CommandReq? && route(x.command.symbol).None?
      && r == Reply(x.ticket, Done(Result(0, [Rejected(x.command.orderId, REJECT_INVALID_SYMBOL)])))
  }

  /** The answer to a command that comes when the numbers are used up. */
  ghost predicate LateRequest(route: Router, first: uint64, log: seq<Request>, r: Reply) {
    exists i :: 0 <= i < |log| && log[i].CommandReq? && route(log[i].command.symbol).Some?
      && |Wanted(route, log[..i])| >= 0x1_0000_0000_0000_0000 - first && r == Reply(log[i].ticket, Error)
  }

  lemma RefusedMore(route: Router, log: seq<Request>, r: Reply)
    requires log != []
    ensures var n := |log| - 1;
            var x := log[n];
            RefusedRequest(route, log, r) <==>
            RefusedRequest(route, log[..n], r)
            || (x.CommandReq? && route(x.command.symbol).None?
                && r == Reply(x.ticket, Done(Result(0, [Rejected(x.command.orderId, REJECT_INVALID_SYMBOL)]))))
  {
    var n := |log| - 1;
    assert log == log[..n] + [log[n]];
  }

  lemma LateMore(route: Router, first: uint64, log: seq<Request>, r: Reply)
    requires log != []
    ensures var n := |log| - 1; var x := log[n];
            LateRequest(route, first, log, r) <==>
            LateRequest(route, first, log[..n], r)
            || (x.CommandReq? && route(x.command.symbol).Some?
                && |Wanted(route, log[..n])| >= 0x1_0000_0000_0000_0000 - first && r == Reply(x.ticket, Error))
  {
    var n := |log| - 1;
    assert forall i :: 0 <= i < n ==> log[..n][i] == log[i] && log[..n][..i] == log[..i];
    if LateRequest(route, first, log[..n], r) {
      var i :| 0 <= i < n && log[..n][i].CommandReq? && route(log[..n][i].command.symbol).Some?
        && |Wanted(route, log[..n][..i])| >= 0x1_0000_0000_0000_0000 - first && r == Reply(log[..n][i].ticket, Error);
      assert log[i].CommandReq? && |Wanted(route, log[..i])| >= 0x1_0000_0000_0000_0000 - first;
    }
  }

  /** What was routed stays routed. */
  lemma {:induction false} ProcessGrows(route: Router, first: uint64, log: seq<Request>, n: nat)
    requires n <= |log|
    ensures Process(route, first, log[..n]).routed <= Process(route, first, log).routed
  {
    if n < |log| {
      var m := |log| - 1;
      assert log[..m][..n] == log[..n];
      ProcessGrows(route, first, log[..m], n);
    } else {
      assert log[..n] == log;
    }
  }

  /** The commands of one shard rise in sequence. */
  lemma {:induction false} RoutedRising(route: Router, xs: seq<Arrival>, j: nat, mark: uint64, first: uint64)
    requires mark < first && forall i :: 0 <= i < |xs| ==> xs[i].command.sequence == first + i
    ensures var cs := CommandsOf(RoutedTo(route, xs, j));
            Rising(mark, cs) && (cs != [] ==> cs[|cs| - 1].sequence < first + |xs|)
  {
    if xs != [] {
      var n := |xs| - 1;
      RoutedRising(route, xs[..n], j, mark, first);
      if route(xs[n].command.symbol) == Some(j) {
        CommandsOfMore(RoutedTo(route, xs[..n], j), xs[n]);
        RisingMore(mark, CommandsOf(RoutedTo(route, xs[..n], j)), xs[n].command);
      } else {
        assert RoutedTo(route, xs[..n], j) + [] == RoutedTo(route, xs[..n], j);
      }
    } else {
      assert CommandsOf([]) == [];
    }
  }

  lemma {:induction false} RisingMore(mark: uint64, cs: seq<Command>, c: Command)
    requires Rising(mark, cs) && LastSeq(mark, cs) < c.sequence
    ensures Rising(mark, cs + [c])
    decreases |cs|
  {
    if cs == [] {
      assert cs + [c] == [c] && [c][1..] == [];
    } else {
      assert (cs + [c])[1..] == cs[1..] + [c];
      RisingMore(cs[0].sequence, cs[1..], c);
    }
  }

  // ---- Barriers and drains ----

  /** The command was answered with the result that the log holds for it, and its record is on disk. */
  ghost predicate Settled(setup: Setup, s: Shard, x: Arrival)
    requires ShardLoop.Inv(setup, s)
  {
    exists k: nat :: k < s.loop.completed <= |s.loop.applied| && s.loop.applied[k] == x
      && Reply(x.ticket, Done(S.Wrote(setup, s)[k].result)) in s.loop.replies
      && k < |s.writer.submitted| && s.writer.submitted[k] == S.Wrote(setup, s)[k]
      && W.OnDisk(|W.Logged(setup.base)|, W.Durable(s.writer.disk), s.writer.submitted, k)
  }

  lemma CompletedIsSettled(setup: Setup, s: Shard, k: nat)
    requires ShardLoop.Inv(setup, s) && k < s.loop.completed
    ensures s.loop.completed <= |s.loop.applied| && Settled(setup, s, s.loop.applied[k])
  {
    hide W.Inv, W.Logged, W.Durable, W.OnDisk, BooksOk, TicketsOk, ArrivedOk, PendingOk;
    S.WroteSubmitted(setup, s);
    assert AnswerAt(S.Wrote(setup, s), s.loop.applied, k) in s.loop.replies;
  }

  lemma {:induction false} RoutedPrefix(route: Router, xs: seq<Arrival>, n: nat, j: nat)
    requires n <= |xs|
    ensures RoutedTo(route, xs[..n], j) <= RoutedTo(route, xs, j)
  {
    if n < |xs| {
      var m := |xs| - 1;
      assert xs[..m][..n] == xs[..n];
      RoutedPrefix(route, xs[..m], n, j);
    } else {
      assert xs[..n] == xs;
    }
  }

  lemma {:induction false} RoutedHas(route: Router, xs: seq<Arrival>, x: Arrival, j: nat)
    requires x in xs && route(x.command.symbol) == Some(j)
    ensures x in RoutedTo(route, xs, j)
  {
    var n := |xs| - 1;
    if xs[n] != x {
      assert xs == xs[..n] + [xs[n]];
      RoutedHas(route, xs[..n], x, j);
    }
  }

  lemma {:induction false} RoutedSome(route: Router, first: uint64, log: seq<Request>)
    ensures forall x :: x in Process(route, first, log).routed ==> route(x.command.symbol).Some?
  {
    if log != [] {
      RoutedSome(route, first, log[..|log| - 1]);
    }
  }

  /** What a shard has applied is a beginning of what was routed to it. */
  lemma AppliedIsRouted(world: World, q: Sequencer, j: nat, s: Shard)
    requires Routes(world) && j < |world.setups| && ShardOk(world, q, j, s)
    ensures s.loop.applied <= RoutedTo(world.route, q.out.routed, j)
  {
    hide W.Inv, BooksOk, TicketsOk, PendingOk, RepliesOk, DurableOk, FlushOk, Known, RoutedTo, Routes, Fed, PartOk, VouchedOk;
    ArrivedKnown(world, q, j, s);
  }

  /** What a shard applies rises in sequence, from above its watermark. */
  lemma AppliedRising(world: World, s: State, j: nat)
    requires Sane(world) && Sequencing.Inv(world, s) && j < |s.shards|
    ensures Rising(world.setups[j].mark, CommandsOf(s.shards[j].loop.applied))
  {
    hide ShardLoop.Inv, Fed, PartOk, VouchedOk, Process, RoutedTo, S.Sane, Rising, Routes, ReportsOk;
    var q, applied := s.sequencer, s.shards[j].loop.applied;
    assert ShardOk(world, q, j, s.shards[j]);
    SequencesGapFree(world.route, world.first, q.log[..|q.log| - |q.queue|]);
    RoutedRising(world.route, q.out.routed, j, world.setups[j].mark, world.first);
    AppliedIsRouted(world, q, j, s.shards[j]);
    var all := RoutedTo(world.route, q.out.routed, j);
    assert CommandsOf(all) == CommandsOf(applied) + CommandsOf(all[|applied|..]);
    RisingSplit(world.setups[j].mark, CommandsOf(applied), CommandsOf(all[|applied|..]));
  }

  /** Barrier: when a barrier or drain has reported success, every command requested before it that was
      routed has been answered with its result, on whatever shard, and is on disk. */
  lemma BarrierHolds(world: World, s: State, id: nat, x: Arrival)
    requires Sane(world) && Reachable(world, s) && id in s.sequencer.results && s.sequencer.results[id]
    ensures id < |s.sequencer.log| && s.sequencer.log[id].FlushReq?
    ensures x in Process(world.route, world.first, s.sequencer.log[..id]).routed ==>
              var j := world.route(x.command.symbol);
              && j.Some? && j.value < |s.shards| == |world.setups|
              && ShardLoop.Inv(world.setups[j.value], s.shards[j.value]) && Settled(world.setups[j.value], s.shards[j.value], x)
  {
    ReachableIsSound(world, s);
    VouchedHolds(world, s, id, x);
  }

  lemma VouchedHolds(world: World, s: State, id: nat, x: Arrival)
    requires Prepared(world) && Sequencing.Inv(world, s)
    requires id in s.sequencer.results && s.sequencer.results[id]
    ensures id < |s.sequencer.log| && s.sequencer.log[id].FlushReq?
    ensures x in Process(world.route, world.first, s.sequencer.log[..id]).routed ==>
              var j := world.route(x.command.symbol);
              j.Some? && j.value < |s.shards| && Settled(world.setups[j.value], s.shards[j.value], x)
  {
    hide ShardLoop.Inv, Fed, PartOk, RoutedTo, Process, W.Framed, Numbered, ShutdownOk, PollOk, Settled;
    var q := s.sequencer;
    var early := Process(world.route, world.first, q.log[..id]).routed;
    if x in early {
      var done := |q.log| - |q.queue|;
      RoutedSome(world.route, world.first, q.log[..id]);
      var j := world.route(x.command.symbol).value;
      assert ShardOk(world, q, j, s.shards[j]);
      EarlyPrefix(world, q, id);
      RoutedHas(world.route, early, x, j);
      RoutedPrefix(world.route, q.out.routed, |early|, j);
      AppliedIsRouted(world, q, j, s.shards[j]);
      var k :| 0 <= k < |RoutedTo(world.route, early, j)| && RoutedTo(world.route, early, j)[k] == x;
      CompletedIsSettled(world.setups[j], s.shards[j], k);
      assert s.shards[j].loop.applied[k] == x;
    }
  }

  lemma EarlyPrefix(world: World, q: Sequencer, id: nat)
    requires SequencerOk(world, q) && id in q.vouched && q.vouched[id] <= |q.out.routed|
    ensures q.out.routed[..q.vouched[id]] == Process(world.route, world.first, q.log[..id]).routed
  {
    hide Process, Numbered, ShutdownOk, PollOk;
    var done := |q.log| - |q.queue|;
    if id <= done {
      assert q.log[..done][..id] == q.log[..id];
      ProcessGrows(world.route, world.first, q.log[..done], id);
    } else {
      assert q.log[..id][..done] == q.log[..done];
      ProcessGrows(world.route, world.first, q.log[..id], done);
    }
  }

  /** Drain: while a drain that reported success is held, every shard is paused with nothing pending, its
      books are the replay of exactly the commands routed to it, and its watermark is the last of them. */
  lemma DrainHolds(world: World, s: State, j: nat)
    requires Sane(world) && Reachable(world, s) && j < |s.shards| == |world.setups|
    requires s.sequencer.mode.Holding? && s.sequencer.mode.ok && s.sequencer.mode.drain !in s.sequencer.released
    ensures var l, setup := s.shards[j].loop, world.setups[j];
            var cs := CommandsOf(RoutedTo(world.route, s.sequencer.out.routed, j));
            && l.control == Paused(s.sequencer.mode.drain) && l.pending == [] && l.inbox == [] && !l.failed
            && l.applied == RoutedTo(world.route, s.sequencer.out.routed, j) && l.completed == |l.applied|
            && Routable(setup.books, cs) && l.books == ReplayBooks(setup.books, cs)
            && Rising(setup.mark, cs) && l.lastApplied == LastSeq(setup.mark, cs)
  {
    hide W.Inv, TicketsOk, PendingOk, RepliesOk, DurableOk, FlushOk, Known, RoutedTo, Fed, VouchedOk, Process, S.Sane, Rising, ArrivedOk, Reachable;
    ReachableIsSound(world, s);
    var q, l := s.sequencer, s.shards[j].loop;
    assert ShardOk(world, q, j, s.shards[j]);
    CalmComplete(world, q, j, s.shards[j], ForDrain(q.mode.drain));
    SequencesGapFree(world.route, world.first, q.log[..|q.log| - |q.queue|]);
    RoutedRising(world.route, q.out.routed, j, world.setups[j].mark, world.first);
  }

  // ---- Flushes report success ----

  ghost predicate SomeFailed(shards: seq<Shard>) {
    exists j :: 0 <= j < |shards| && shards[j].loop.failed
  }

  ghost predicate HonestAnswer(l: Loop) {
    l.answer == Some(false) ==> l.failed
  }

  /** A flush reports failure, or is on its way to, only because a shard has failed. */
  ghost predicate Blameless(s: State) {
    && (forall j :: 0 <= j < |s.shards| ==> HonestAnswer(s.shards[j].loop))
    && ((s.sequencer.mode.Polling? || s.sequencer.mode.Holding?) && !s.sequencer.mode.ok ==> SomeFailed(s.shards))
    && (forall id :: id in s.sequencer.results && !s.sequencer.results[id] ==> SomeFailed(s.shards))
  }

  /** A shard that has failed stays failed, and answers false only when it has. */
  lemma FailureStays(setup: Setup, s: Shard, a: ShardLoop.Action)
    requires ShardLoop.Enabled(setup, s, a)
    ensures var l := ShardLoop.LoopNext(setup, s, a);
            && (s.loop.failed ==> l.failed)
            && (HonestAnswer(s.loop) ==> HonestAnswer(l))
  {
    hide ApplyTo, RecordOf, ShardLoop.UnknownSymbol, Errors, W.Enabled;
  }

  /** One shard changed, and did not recover. */
  lemma StillFailed(shards: seq<Shard>, j: nat, t: Shard)
    requires j < |shards| && (shards[j].loop.failed ==> t.loop.failed)
    ensures SomeFailed(shards) ==> SomeFailed(shards[j := t])
    ensures t.loop.failed ==> SomeFailed(shards[j := t])
  {
    var after := shards[j := t];
    forall k | 0 <= k < |shards| && shards[k].loop.failed ensures after[k].loop.failed {
    }
    assert t.loop.failed ==> after[j].loop.failed;
  }

  lemma ShardStepBlameless(world: World, s: State, j: nat, b: ShardLoop.Action)
    requires Sequencing.Enabled(world, s, ShardStep(j, b)) && Blameless(s)
    ensures Blameless(Sequencing.Next(world, s, ShardStep(j, b)))
  {
    hide ShardLoop.Enabled, ShardLoop.LoopNext, ShardLoop.WriterNext, SomeFailed, HonestAnswer;
    FailureStays(world.setups[j], s.shards[j], b);
    StillFailed(s.shards, j, ShardLoop.Next(world.setups[j], s.shards[j], b));
  }

  lemma StepBlameless(world: World, s: State, a: Sequencing.Action)
    requires Sequencing.Enabled(world, s, a) && Blameless(s)
    ensures Blameless(Sequencing.Next(world, s, a))
  {
    hide ShardLoop.Enabled, ShardLoop.Next, Handle, SomeFailed;
    if a.ShardStep? {
      ShardStepBlameless(world, s, a.shard, a.action);
    } else {
      var q, s' := s.sequencer, Sequencing.Next(world, s, a);
      forall j, t: Shard | 0 <= j < |s.shards| && t.loop.failed == s.shards[j].loop.failed
        ensures SomeFailed(s.shards) ==> SomeFailed(s.shards[j := t])
      {
        StillFailed(s.shards, j, t);
      }
      assert a.HearAnswer? && q.mode.ok && !s'.sequencer.mode.ok ==> HonestAnswer(s.shards[q.mode.at].loop);
      if a.HearAnswer? {
        StillFailed(s.shards, q.mode.at, TakeAnswer(s.shards[q.mode.at]));
      }
    }
  }

  lemma {:induction false} RunBlameless(world: World, s: State, steps: seq<Sequencing.Action>)
    requires CanRun(world, s, steps) && Blameless(s)
    ensures Blameless(Run(world, s, steps))
    decreases |steps|
  {
    hide Sequencing.Next, Sequencing.Enabled, Blameless;
    if steps != [] {
      StepBlameless(world, s, steps[0]);
      RunBlameless(world, Sequencing.Next(world, s, steps[0]), steps[1..]);
    }
  }

  /** While no shard has failed, every barrier and every drain that was answered was answered with success,
      and a drain that is held is held with success. */
  lemma FlushesSucceed(world: World, s: State, id: nat)
    requires Reachable(world, s) && forall j :: 0 <= j < |s.shards| ==> !s.shards[j].loop.failed
    ensures id in s.sequencer.results ==> s.sequencer.results[id]
    ensures s.sequencer.mode.Holding? ==> s.sequencer.mode.ok
  {
    hide CanRun, Run, Sequencing.Start;
    var steps :| CanRun(world, Sequencing.Start(world), steps) && s == Run(world, Sequencing.Start(world), steps);
    StartsBlameless(world);
    RunBlameless(world, Sequencing.Start(world), steps);
  }

  lemma StartsBlameless(world: World)
    ensures Blameless(Sequencing.Start(world))
  {
  }

  // ---- One reply for every command ----

  function RequestTickets(log: seq<Request>): multiset<nat> {
    if log == [] then multiset{}
    else
      var n := |log| - 1;
      RequestTickets(log[..n]) + if log[n].CommandReq? then multiset{log[n].ticket} else multiset{}
  }

  /** A handled command is routed or answered. */
  lemma {:induction false} HandledOnce(route: Router, first: uint64, log: seq<Request>)
    ensures var o := Process(route, first, log); RequestTickets(log) == Tickets(o.routed) + ReplyTickets(o.replies)
  {
    hide Tickets, ReplyTickets, Unrouted;
    if log == [] {
      NoneHandled();
    } else {
      var n := |log| - 1;
      HandledOnce(route, first, log[..n]);
      if log[n].CommandReq? {
        var o, c, ticket := Process(route, first, log[..n]), log[n].command, log[n].ticket;
        ReplyTicketsMore(o.replies, Reply(ticket, Done(Unrouted(c))));
        ReplyTicketsMore(o.replies, Reply(ticket, Error));
        TicketsMore(o.routed, Arrival(c.(sequence := o.next), ticket));
      }
    }
  }

  lemma NoneHandled()
    ensures Tickets([]) == multiset{} && ReplyTickets([]) == multiset{}
  {
  }

  /** Tickets are positions in the log, so every command has its own. */
  lemma {:induction false} TicketsDiffer(log: seq<Request>, t: nat)
    requires forall i :: 0 <= i < |log| && log[i].CommandReq? ==> log[i].ticket == i
    ensures RequestTickets(log)[t] == if t < |log| && log[t].CommandReq? then 1 else 0
  {
    if log != [] {
      TicketsDiffer(log[..|log| - 1], t);
    }
  }

  /** The tickets of the commands of the first n shards. */
  function ShardTickets(route: Router, xs: seq<Arrival>, n: nat): multiset<nat> {
    if n == 0 then multiset{} else ShardTickets(route, xs, n - 1) + Tickets(RoutedTo(route, xs, n - 1))
  }

  /** The ticket of a command, if it goes to one of the first n shards. */
  function TicketBelow(route: Router, x: Arrival, n: nat): multiset<nat> {
    var r := route(x.command.symbol);
    if r.Some? && r.value < n then multiset{x.ticket} else multiset{}
  }

  lemma TicketBelowStep(route: Router, x: Arrival, n: nat)
    requires n > 0
    ensures TicketBelow(route, x, n) ==
            TicketBelow(route, x, n - 1) + if route(x.command.symbol) == Some(n - 1) then multiset{x.ticket} else multiset{}
  {
  }

  lemma {:induction false} ShardTicketsMore(route: Router, xs: seq<Arrival>, x: Arrival, n: nat)
    ensures ShardTickets(route, xs + [x], n) == ShardTickets(route, xs, n) + TicketBelow(route, x, n)
  {
    hide Tickets, RoutedTo, ShardTickets, TicketBelow;
    ShardTicketsStep(route, xs, n);
    ShardTicketsStep(route, xs + [x], n);
    if n > 0 {
      ShardTicketsMore(route, xs, x, n - 1);
      OneShardMore(route, xs, x, n - 1);
      TicketBelowStep(route, x, n);
      var here := if route(x.command.symbol) == Some(n - 1) then multiset{x.ticket} else multiset{};
      Interchange(ShardTickets(route, xs, n - 1), TicketBelow(route, x, n - 1), Tickets(RoutedTo(route, xs, n - 1)), here);
    } else {
      NoTicketBelow(route, x);
    }
  }

  lemma Interchange(a: multiset<nat>, b: multiset<nat>, c: multiset<nat>, d: multiset<nat>)
    ensures (a + b) + (c + d) == (a + c) + (b + d)
  {
  }

  lemma NoTicketBelow(route: Router, x: Arrival)
    ensures TicketBelow(route, x, 0) == multiset{}
  {
  }

  lemma ShardTicketsStep(route: Router, xs: seq<Arrival>, n: nat)
    ensures ShardTickets(route, xs, n) ==
            if n == 0 then multiset{} else ShardTickets(route, xs, n - 1) + Tickets(RoutedTo(route, xs, n - 1))
  {
    hide Tickets, RoutedTo;
  }

  lemma OneShardMore(route: Router, xs: seq<Arrival>, x: Arrival, j: nat)
    ensures Tickets(RoutedTo(route, xs + [x], j)) ==
            Tickets(RoutedTo(route, xs, j)) + if route(x.command.symbol) == Some(j) then multiset{x.ticket} else multiset{}
  {
    hide Tickets, RoutedTo;
    RoutedToMore(route, xs, x, j);
    TicketsMore(RoutedTo(route, xs, j), x);
    assert RoutedTo(route, xs, j) + [] == RoutedTo(route, xs, j);
  }

  lemma {:induction false} NoTickets(route: Router, n: nat)
    ensures ShardTickets(route, [], n) == multiset{}
  {
    if n > 0 {
      NoTickets(route, n - 1);
    }
  }

  /** The shards share out the routed commands. */
  lemma {:induction false} ShardsShare(route: Router, xs: seq<Arrival>, n: nat)
    requires forall x :: x in xs ==> route(x.command.symbol).Some? && route(x.command.symbol).value < n
    ensures ShardTickets(route, xs, n) == Tickets(xs)
  {
    hide ShardTickets;
    if xs == [] {
      NoTickets(route, n);
    } else {
      var m := |xs| - 1;
      ShardsShare(route, xs[..m], n);
      assert xs == xs[..m] + [xs[m]];
      ShardTicketsMore(route, xs[..m], xs[m], n);
    }
  }

  function ShardReplies(shards: seq<Shard>, n: nat): multiset<nat>
    requires n <= |shards|
  {
    if n == 0 then multiset{} else ShardReplies(shards, n - 1) + ReplyTickets(shards[n - 1].loop.replies)
  }

  lemma ExitedReplies(world: World, q: Sequencer, j: nat, s: Shard)
    requires j < |world.setups| && ShardOk(world, q, j, s) && s.loop.control.Exited?
    ensures ReplyTickets(s.loop.replies) == Tickets(RoutedTo(world.route, q.out.routed, j))
  {
    hide ShardLoop.Inv, PartOk, VouchedOk, RoutedTo, Tickets, ReplyTickets;
    S.ExitedAnswered(world.setups[j], s);
    assert s.loop.arrived + [] == s.loop.arrived;
  }

  lemma {:induction false} AllExited(world: World, s: State, n: nat)
    requires Sequencing.Inv(world, s) && n <= |s.shards|
    requires forall j :: 0 <= j < |s.shards| ==> s.shards[j].loop.control.Exited?
    ensures ShardReplies(s.shards, n) == ShardTickets(world.route, s.sequencer.out.routed, n)
  {
    hide SequencerOk, ShardOk, RoutedTo, Tickets, ReplyTickets;
    if n > 0 {
      AllExited(world, s, n - 1);
      ExitedReplies(world, s.sequencer, n - 1, s.shards[n - 1]);
    }
  }

  /** When the sequencer and all shard loops have ended, every admitted command stood before the shutdown
      request and has exactly one reply, from the sequencer or from a shard. */
  lemma OneReplyForEach(world: World, s: State, t: nat)
    requires Sane(world) && Reachable(world, s) && s.sequencer.mode.Finished?
    requires forall j :: 0 <= j < |s.shards| ==> s.shards[j].loop.control.Exited?
    ensures s.sequencer.queue == [] && s.sequencer.log != [] && s.sequencer.log[|s.sequencer.log| - 1].ShutdownReq?
    ensures (ReplyTickets(s.sequencer.out.replies) + ShardReplies(s.shards, |s.shards|))[t] ==
            if t < |s.sequencer.log| && s.sequencer.log[t].CommandReq? then 1 else 0
  {
    hide ShardOk, Process, RequestTickets, Tickets, ReplyTickets, RoutedTo, ShardReplies, ShardTickets, ReportsOk, PollOk, W.Framed, Sane, Reachable;
    ReachableIsSound(world, s);
    var q := s.sequencer;
    assert q.log[..|q.log| - |q.queue|] == q.log;
    AllExited(world, s, |s.shards|);
    RoutedSome(world.route, world.first, q.log);
    ShardsShare(world.route, q.out.routed, |s.shards|);
    HandledOnce(world.route, world.first, q.log);
    TicketsDiffer(q.log, t);
  }

  // ---- Shard by shard is the same as in global order ----

  lemma {:induction false} ForSymbolMore(cs: seq<Command>, c: Command, symbol: Symbol)
    ensures ForSymbol(cs + [c], symbol) == ForSymbol(cs, symbol) + if c.symbol == symbol then [c] else []
  {
    if cs == [] {
      assert cs + [c] == [c] && [c][1..] == [];
    } else {
      assert (cs + [c])[0] == cs[0] && (cs + [c])[1..] == cs[1..] + [c];
      ForSymbolMore(cs[1..], c, symbol);
      var first := if cs[0].symbol == symbol then [cs[0]] else [];
      var last := if c.symbol == symbol then [c] else [];
      assert first + (ForSymbol(cs[1..], symbol) + last) == (first + ForSymbol(cs[1..], symbol)) + last;
    }
  }

  lemma {:induction false} OneShardHasAll(route: Router, xs: seq<Arrival>, j: nat, symbol: Symbol)
    requires route(symbol) == Some(j)
    ensures ForSymbol(CommandsOf(RoutedTo(route, xs, j)), symbol) == ForSymbol(CommandsOf(xs), symbol)
  {
    if xs == [] {
      assert CommandsOf([]) == [];
    } else {
      var n := |xs| - 1;
      var xs0 := xs[..n];
      OneShardHasAll(route, xs0, j, symbol);
      assert xs == xs0 + [xs[n]];
      RoutedToMore(route, xs0, xs[n], j);
      CommandsOfMore(xs0, xs[n]);
      CommandsOfMore(RoutedTo(route, xs0, j), xs[n]);
      ForSymbolMore(CommandsOf(xs0), xs[n].command, symbol);
      ForSymbolMore(CommandsOf(RoutedTo(route, xs0, j)), xs[n].command, symbol);
      assert RoutedTo(route, xs0, j) + [] == RoutedTo(route, xs0, j);
    }
  }

  /** A symbol lives on one shard, so its book is the same whether the commands are replayed shard by
      shard or in the global order of their sequence numbers. */
  lemma ShardsReplayGlobally(route: Router, xs: seq<Arrival>, j: nat, symbol: Symbol, part: Books, all: Books)
    requires route(symbol) == Some(j) && symbol in part && symbol in all && part[symbol] == all[symbol]
    requires Routable(part, CommandsOf(RoutedTo(route, xs, j))) && Routable(all, CommandsOf(xs))
    ensures ReplayBooks(part, CommandsOf(RoutedTo(route, xs, j)))[symbol] == ReplayBooks(all, CommandsOf(xs))[symbol]
  {
    OneShardHasAll(route, xs, j, symbol);
    ReplayIsPerSymbol(part, CommandsOf(RoutedTo(route, xs, j)), all, CommandsOf(xs), symbol);
  }
}
