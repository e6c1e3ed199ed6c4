/** Nothing fails without a cause: as long as the disk works, no request times out and every record can be
    encoded, no shard fails, every command that reaches a shard is answered with a result, and every flush succeeds. */
module Faultless {
  import opened Model
  import opened Codec
  import opened Replay
  import opened Sequencing
  import L = ShardLoop
  import W = GroupCommit
  import E = EngineLaws

  /** A disk that fails or takes only part of a write. */
  predicate DiskFault(cfg: W.Config, w: W.Writer, a: W.Action) {
    a.Fail? || (a.PutHeader? && a.kept < |cfg.wire.head(cfg.header)|) || (a.PutBatch? && a.kept < |w.batch.bytes|)
  }

  /** That, or a request to the writer that is given up. */
  predicate Fault(setup: L.Setup, s: L.Shard, a: L.Action) {
    || (a.WriterStep? && DiskFault(setup.cfg, s.writer, a.action))
    || a == L.Send(false) || a.FlushTimesOut? || a.ShutdownTimesOut?
  }

  ghost predicate AllEncodable(w: W.Writer) {
    forall r :: r in w.submitted ==> Encodable(r)
  }

  ghost predicate AllAcked(acks: map<nat, bool>) {
    forall k :: k in acks ==> acks[k]
  }

  ghost predicate QueueSubmitted(w: W.Writer) {
    forall req :: req in w.queue && req.AppendReq? ==> req.record in w.submitted
  }

  ghost predicate WriterWell(w: W.Writer) {
    && !w.failed && !w.phase.Rejecting? && QueueSubmitted(w)
    && (AllEncodable(w) ==> AllAcked(w.acks))
  }

  ghost predicate Well(s: L.Shard) {
    WriterWell(s.writer) && (AllEncodable(s.writer) ==> !s.loop.failed)
  }

  lemma AllAckedMore(acks: map<nat, bool>, ks: seq<nat>)
    requires AllAcked(acks)
    ensures AllAcked(W.AckAll(acks, ks, true))
  {
    W.AckAllMeaning(acks, ks, true);
  }

  lemma TakeStaysWell(cfg: W.Config, w: W.Writer)
    requires WriterWell(w) && w.queue != []
    ensures WriterWell(W.Take(cfg, w))
  {
    hide W.Add, W.Full;
    var w' := W.Take(cfg, w);
    assert w.queue[0] in w.queue && forall req :: req in w.queue[1..] ==> req in w.queue;
    assert w'.submitted == w.submitted;
  }

  lemma WriterStaysWell(cfg: W.Config, w: W.Writer, a: W.Action)
    requires WriterWell(w) && W.Enabled(cfg, w, a) && !DiskFault(cfg, w, a)
    ensures WriterWell(W.Next(cfg, w, a))
  {
    hide W.Take, W.SetLast, W.Filled, W.AckAll, QueueSubmitted, AllAcked, AllEncodable;
    if a.TakeRequest? {
      TakeStaysWell(cfg, w);
    } else {
      SameQueue(w, W.Next(cfg, w, a));
      if AllEncodable(w) {
        AllAckedMore(w.acks, w.batch.acks);
      }
    }
  }

  lemma SameQueue(w: W.Writer, w': W.Writer)
    ensures w'.queue == w.queue && w'.submitted == w.submitted ==>
              (QueueSubmitted(w) <==> QueueSubmitted(w')) && (AllEncodable(w) <==> AllEncodable(w'))
  {
  }

  /** What the loop hands to the writer. */
  lemma SubmitStaysWell(w: W.Writer, rec: Record)
    requires WriterWell(w)
    ensures WriterWell(W.Submit(w, rec)) && (AllEncodable(W.Submit(w, rec)) ==> AllEncodable(w))
  {
    var w' := W.Submit(w, rec);
    assert forall r :: r in w'.submitted <==> r in w.submitted || r == rec;
    assert forall q :: q in w'.queue <==> q in w.queue || q == W.AppendReq(|w.submitted|, rec);
  }

  lemma AskStaysWell(w: W.Writer, req: W.Request)
    requires WriterWell(w) && !req.AppendReq?
    ensures WriterWell(W.Ask(w, req)) && (AllEncodable(W.Ask(w, req)) <==> AllEncodable(w))
  {
    assert forall q :: q in W.Ask(w, req).queue <==> q in w.queue || q == req;
  }

  lemma KeepsSubmitted(cfg: W.Config, w: W.Writer, a: W.Action)
    requires W.Enabled(cfg, w, a)
    ensures W.Next(cfg, w, a).submitted == w.submitted
  {
    hide W.SetLast, W.Filled, W.AckAll, W.Add, W.Full;
  }

  lemma WellWriter(w: W.Writer)
    requires WriterWell(w)
    ensures !w.failed && (AllEncodable(w) ==> forall k :: k in w.acks ==> w.acks[k])
  {
  }

  /** A loop fails only when its writer has failed, says no, or is given up. */
  lemma LoopStaysWell(setup: L.Setup, s: L.Shard, a: L.Action)
    requires L.Enabled(setup, s, a) && !s.loop.failed && !s.writer.failed && !Fault(setup, s, a)
    requires forall k :: k in s.writer.acks ==> s.writer.acks[k]
    ensures !L.LoopNext(setup, s, a).failed
  {
    hide ApplyTo, RecordOf, L.UnknownSymbol, L.Errors, W.Enabled, DiskFault;
  }

  lemma StepStaysWell(setup: L.Setup, s: L.Shard, a: L.Action)
    requires Well(s) && L.Enabled(setup, s, a) && !Fault(setup, s, a)
    ensures Well(L.Next(setup, s, a))
  {
    hide WriterWell, AllEncodable, W.Next, W.Enabled, W.Submit, W.Ask, L.LoopNext;
    var w := s.writer;
    WellWriter(w);
    if AllEncodable(w) {
      LoopStaysWell(setup, s, a);
    }
    match a {
      case WriterStep(b) =>
        WriterStaysWell(setup.cfg, w, b);
        KeepsSubmitted(setup.cfg, w, b);
        SameQueue(w, W.Next(setup.cfg, w, b));
        SameRecords(w, W.Next(setup.cfg, w, b));
      case Send(_) => SubmitStaysWell(w, s.loop.control.record);
      case SendFlush => AskStaysWell(w, W.FlushReq(s.loop.nextToken));
      case SendShutdown => AskStaysWell(w, W.ShutdownReq(s.loop.nextToken));
      case _ =>
    }
  }

  lemma SameRecords(w: W.Writer, w': W.Writer)
    requires w'.submitted == w.submitted
    ensures AllEncodable(w) <==> AllEncodable(w')
  {
  }

  // ---- Whole runs ----

  /** A run without a fault. */
  ghost predicate Smooth(world: World, s: State, steps: seq<Sequencing.Action>)
    requires E.CanRun(world, s, steps)
    decreases |steps|
  {
    steps == [] ||
      var a := steps[0];
      && (a.ShardStep? ==> !Fault(world.setups[a.shard], s.shards[a.shard], a.action))
      && Smooth(world, Sequencing.Next(world, s, a), steps[1..])
  }

  ghost predicate AllWell(s: State) {
    forall j :: 0 <= j < |s.shards| ==> Well(s.shards[j])
  }

  /** The sequencer does not touch what matters. */
  lemma SequencerStaysWell(world: World, s: State, a: Sequencing.Action)
    requires AllWell(s) && Sequencing.Enabled(world, s, a) && !a.ShardStep?
    ensures AllWell(Sequencing.Next(world, s, a))
  {
    hide WriterWell, AllEncodable, Handle;
  }

  lemma {:induction false} SmoothRun(world: World, s: State, steps: seq<Sequencing.Action>)
    requires AllWell(s) && E.CanRun(world, s, steps) && Smooth(world, s, steps)
    ensures AllWell(E.Run(world, s, steps))
    decreases |steps|
  {
    hide Well, Fault, Handle, L.Enabled, L.Next;
    if steps != [] {
      var a := steps[0];
      if a.ShardStep? {
        StepStaysWell(world.setups[a.shard], s.shards[a.shard], a.action);
      } else {
        SequencerStaysWell(world, s, a);
      }
      SmoothRun(world, Sequencing.Next(world, s, a), steps[1..]);
    }
  }

  /** After a run without a fault in which every record could be encoded, no shard has failed, no shard has
      answered a command with an error, and every barrier and drain that was answered succeeded. */
  lemma NothingFails(world: World, steps: seq<Sequencing.Action>)
    requires E.Sane(world) && E.CanRun(world, Sequencing.Start(world), steps) && Smooth(world, Sequencing.Start(world), steps)
    requires forall s :: s in E.Run(world, Sequencing.Start(world), steps).shards ==> AllEncodable(s.writer)
    ensures var t := E.Run(world, Sequencing.Start(world), steps);
            && (forall s :: s in t.shards ==> !s.loop.failed && forall r :: r in s.loop.replies ==> r.outcome.Done?)
            && (forall id :: id in t.sequencer.results ==> t.sequencer.results[id])
  {
    hide E.CanRun, E.Run, E.Sane, Sequencing.Start, Smooth, Sequencing.Inv, Well, AllEncodable;
    var t := E.Run(world, Sequencing.Start(world), steps);
    StartsAllWell(world);
    SmoothRun(world, Sequencing.Start(world), steps);
    E.Reached(world, steps);
    forall s | s in t.shards ensures !s.loop.failed && forall r :: r in s.loop.replies ==> r.outcome.Done? {
      var j :| 0 <= j < |t.shards| && t.shards[j] == s;
      WellShard(s);
      ErrorMeansFailed(world, t, j);
    }
    forall id | id in t.sequencer.results ensures t.sequencer.results[id] {
      E.FlushesSucceed(world, t, id);
    }
  }

  lemma WellShard(s: L.Shard)
    requires Well(s) && AllEncodable(s.writer)
    ensures !s.loop.failed
  {
  }

  lemma ErrorMeansFailed(world: World, s: State, j: nat)
    requires Sequencing.Inv(world, s) && j < |s.shards|
    ensures forall r :: r in s.shards[j].loop.replies && r.outcome.Error? ==> s.shards[j].loop.failed
  {
    hide W.Inv, L.FlushOk, L.DurableOk, L.BooksOk, L.PendingOk, L.TicketsOk, SequencerOk, Fed, PartOk, VouchedOk, RoutedTo;
    assert ShardOk(world, s.sequencer, j, s.shards[j]);
  }

  lemma StartsAllWell(world: World)
    ensures AllWell(Sequencing.Start(world))
  {
  }
}
