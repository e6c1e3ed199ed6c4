/** A run of the engine in which a command is answered, a barrier reports success, and a drain reports success
    and holds every shard. */
module FlushRun {
  import opened Model
  import opened Codec
  import opened Reader
  import opened Replay
  import opened Sequencing
  import opened ShardRuns
  import opened TornRun
  import L = ShardLoop
  import W = GroupCommit
  import S = ShardLaws
  import E = EngineLaws

  /** Nothing is under way in the shard. */
  ghost predicate Rests(s: L.Shard) {
    && s.loop.control.Running? && s.loop.inbox == [] && !s.loop.failed && s.loop.pending == []
    && s.writer.phase.Idle? && s.writer.queue == [] && !s.writer.failed && s.writer.batch == W.NO_BATCH && s.writer.disk != []
  }

  /** A flush changed nothing but what the shard waits for. */
  ghost predicate Flushed(s: L.Shard, t: L.Shard, waiter: L.Waiter) {
    && t.loop == s.loop.(control := t.loop.control, nextToken := t.loop.nextToken, answer := t.loop.answer)
    && t.loop.control == (if waiter.ForDrain? then L.Paused(waiter.drain) else L.Running)
    && t.writer == s.writer.(done := t.writer.done, asked := t.writer.asked)
  }

  /** The loop hands the flush on to its writer. */
  lemma Asks(setup: L.Setup, s: L.Shard, waiter: L.Waiter) returns (t: L.Shard)
    requires Rests(s)
    ensures var token := s.loop.nextToken;
            && Goes(setup, L.Push(s, L.FlushMsg(waiter)), t)
            && t.loop == s.loop.(control := L.Flushing(waiter, token), nextToken := token + 1)
            && t.writer == s.writer.(queue := [W.FlushReq(token)], asked := s.writer.asked[token := |s.writer.submitted|])
  {
    hide Goes;
    var from := L.Push(s, L.FlushMsg(waiter));
    GoesNowhere(setup, from);
    assert from.loop.inbox[1..] == [];
    GoesOn(setup, from, from, L.Receive);
    t := L.Next(setup, from, L.Receive);
    GoesOn(setup, from, t, L.SendFlush);
    t := L.Next(setup, t, L.SendFlush);
    assert [] + [W.FlushReq(s.loop.nextToken)] == [W.FlushReq(s.loop.nextToken)];
  }

  /** A shard at rest answers a flush with success. */
  lemma Answers(setup: L.Setup, s: L.Shard, waiter: L.Waiter) returns (t: L.Shard)
    requires Rests(s)
    ensures Goes(setup, L.Push(s, L.FlushMsg(waiter)), t)
    ensures Flushed(s, t, waiter) && t.loop.answer == Some(true)
  {
    hide Goes, L.Push, L.Enqueue, L.FlushPending, W.TakeAppend;
    var from := L.Push(s, L.FlushMsg(waiter));
    t := Asks(setup, s, waiter);
    assert t.writer.queue[1..] == [];
    GoesOn(setup, from, t, L.WriterStep(W.TakeRequest));
    t := L.Next(setup, t, L.WriterStep(W.TakeRequest));
    GoesOn(setup, from, t, L.WriterStep(W.BeginFlush));
    t := L.Next(setup, t, L.WriterStep(W.BeginFlush));
    GoesOn(setup, from, t, L.FlushReturns);
    t := L.Next(setup, t, L.FlushReturns);
    GoesOn(setup, from, t, L.FinishFlush);
    t := L.Next(setup, t, L.FinishFlush);
  }

  /** The sequencer asks the shards below n, and each answers with success. */
  lemma {:induction false} Polls(world: World, s: State, id: nat, waiter: L.Waiter, n: nat) returns (t: State)
    requires E.Reachable(world, s) && s.sequencer.mode == Polling(id, waiter, 0, false, true)
    requires n <= |s.shards| == |world.setups| && forall j :: 0 <= j < |s.shards| ==> Rests(s.shards[j])
    ensures E.Reachable(world, t) && |t.shards| == |s.shards|
    ensures t.sequencer == s.sequencer.(mode := Polling(id, waiter, n, false, true))
    ensures forall j :: 0 <= j < n ==> Flushed(s.shards[j], t.shards[j], waiter)
    ensures forall j :: n <= j < |s.shards| ==> t.shards[j] == s.shards[j]
  {
    hide E.Reachable, Rests, Goes, L.Push, Flushed;
    if n == 0 {
      t := s;
    } else {
      var j := n - 1;
      t := Polls(world, s, id, waiter, j);
      t := PollsOne(world, t, j);
    }
  }

  lemma PollsOne(world: World, s: State, j: nat) returns (t: State)
    requires E.Reachable(world, s) && s.sequencer.mode.Polling? && s.sequencer.mode.at == j
    requires !s.sequencer.mode.sent && s.sequencer.mode.ok
    requires j < |s.shards| == |world.setups| && Rests(s.shards[j])
    ensures E.Reachable(world, t) && |t.shards| == |s.shards| && t.shards == s.shards[j := t.shards[j]]
    ensures t.sequencer == s.sequencer.(mode := s.sequencer.mode.(at := j + 1))
    ensures Flushed(s.shards[j], t.shards[j], s.sequencer.mode.waiter)
  {
    hide E.Reachable, Goes, Rests;
    var waiter := s.sequencer.mode.waiter;
    OneStep(world, s, SendFlush);
    t := Sequencing.Next(world, s, SendFlush);
    var shard := Answers(world.setups[j], s.shards[j], waiter);
    Lifts(world, t, j, shard);
    t := t.(shards := t.shards[j := shard]);
    OneStep(world, t, HearAnswer);
    t := Sequencing.Next(world, t, HearAnswer);
  }

  /** A barrier or drain goes through and reports success. */
  lemma Passes(world: World, s: State, drain: bool) returns (t: State)
    requires E.Reachable(world, s) && s.sequencer.mode.Ready? && s.sequencer.queue == [] && !s.sequencer.closed
    requires |s.shards| == |world.setups| && forall j :: 0 <= j < |s.shards| ==> Rests(s.shards[j])
    ensures var q, id := t.sequencer, |s.sequencer.log|;
            && E.Reachable(world, t) && |t.shards| == |s.shards|
            && q.log == s.sequencer.log + [NewFlush(s.sequencer, drain)] && q.queue == [] && !q.closed
            && q.results == s.sequencer.results[id := true] && q.released == s.sequencer.released
            && q.mode == (if drain then Holding(id, true) else Ready)
            && forall j :: 0 <= j < |s.shards| ==> Flushed(s.shards[j], t.shards[j], NewFlush(s.sequencer, drain).waiter)
  {
    hide E.Reachable, Rests, Flushed;
    var r := NewFlush(s.sequencer, drain);
    OneStep(world, s, AskFlush(drain));
    t := Sequencing.Next(world, s, AskFlush(drain));
    assert t.sequencer.queue == [r] && t.sequencer.queue[1..] == [];
    OneStep(world, t, Take);
    t := Sequencing.Next(world, t, Take);
    t := Polls(world, t, r.id, r.waiter, |s.shards|);
    OneStep(world, t, Report);
    t := Sequencing.Next(world, t, Report);
  }

  /** Every shard opens its first segment. */
  lemma {:induction false} AllBoot(world: World, n: nat) returns (s: State)
    requires n <= |world.setups|
    ensures E.Reachable(world, s) && s.sequencer == Sequencing.Start(world).sequencer && |s.shards| == |world.setups|
    ensures forall j :: 0 <= j < |s.shards| ==> s.shards[j].loop == L.Start(world.setups[j]).loop
    ensures forall j :: 0 <= j < n ==> Rests(s.shards[j])
    ensures forall j :: n <= j < |s.shards| ==> s.shards[j] == L.Start(world.setups[j])
    ensures forall j :: 0 <= j < n ==> s.shards[j].writer.submitted == []
  {
    hide E.Reachable, Goes, ShardReachable;
    if n == 0 {
      StartReachable(world);
      s := Sequencing.Start(world);
    } else {
      s := AllBoot(world, n - 1);
      var t := Boots(world.setups[n - 1]);
      Lifts(world, s, n - 1, t);
      s := s.(shards := s.shards[n - 1 := t]);
    }
  }

  /** For every engine that meets the assumptions and every command whose record can be logged there is a run
      in which the command is answered with its result, a barrier behind it succeeds, and a drain behind that
      succeeds and is held. */
  lemma FlushesHappen(world: World, c: Command, j: nat) returns (s: State)
    requires E.Sane(world) && j < |world.setups| && world.route(c.symbol) == Some(j)
    requires var setup := world.setups[j];
             c.symbol in setup.books && Good(RecordOf(L.ShardId(setup), setup.books, c.(sequence := world.first)))
    ensures E.Reachable(world, s) && |s.shards| == |world.setups|
    ensures var q, setup := s.sequencer, world.setups[j];
            && q.log == [CommandReq(c, 0), FlushReq(1, L.ForBarrier), FlushReq(2, L.ForDrain(2))]
            && q.results == map[1 := true, 2 := true] && q.mode == Holding(2, true) && 2 !in q.released
            && (forall i :: 0 <= i < |s.shards| ==> !s.shards[i].loop.failed && s.shards[i].loop.control == L.Paused(2))
            && s.shards[j].loop.applied == [L.Arrival(c.(sequence := world.first), 0)]
            && L.Reply(0, L.Done(RecordOf(L.ShardId(setup), setup.books, c.(sequence := world.first)).result)) in s.shards[j].loop.replies
  {
    hide E.Reachable, Goes, RecordOf, ApplyTo, Good, W.Framed, E.Sane;
    var setup := world.setups[j];
    SaneFramed(world, j);
    s := AllBoot(world, |world.setups|);
    s := Arrives(world, s, j, c);
    GoesNowhere(setup, s.shards[j]);
    var t := AnswersOne(setup, s.shards[j], s.shards[j], c.(sequence := world.first), 0);
    Lifts(world, s, j, t);
    s := s.(shards := s.shards[j := t]);
    s := Passes(world, s, false);
    s := Passes(world, s, true);
  }

  lemma SaneFramed(world: World, j: nat)
    requires E.Sane(world) && j < |world.setups|
    ensures W.Framed(world.setups[j].cfg) && world.first != 0
  {
    hide Routes, W.Usable;
    S.SaneUsable(world.setups[j]);
    W.UsableIsFramed(world.setups[j].cfg);
  }
}
