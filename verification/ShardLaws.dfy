/** What holds over every run of a shard: crash safety, fail-stop, and one reply per command. */
module ShardLaws {
  import opened Model
  import opened Bytes
  import opened Codec
  import opened Reader
  import opened Replay
  import opened ShardLoop
  import W = GroupCommit

  /** A step of the shard, or something the sequencer does to it. */
  datatype Event = Own(action: Action) | Pushed(message: Message) | Shut | Read

  predicate Fits(setup: Setup, s: Shard, e: Event) {
    match e
    case Own(a) => Enabled(setup, s, a)
    case Pushed(_) => !s.loop.inboxClosed
    case _ => true
  }

  function Do(setup: Setup, s: Shard, e: Event): Shard
    requires Fits(setup, s, e)
  {
    match e
    case Own(a) => Next(setup, s, a)
    case Pushed(m) => Push(s, m)
    case Shut => CloseInbox(s)
    case Read => TakeAnswer(s)
  }

  ghost predicate CanRun(setup: Setup, s: Shard, es: seq<Event>)
    decreases |es|
  {
    es == [] || (Fits(setup, s, es[0]) && CanRun(setup, Do(setup, s, es[0]), es[1..]))
  }

  ghost function Run(setup: Setup, s: Shard, es: seq<Event>): Shard
    requires CanRun(setup, s, es)
    decreases |es|
  {
    if es == [] then s else Run(setup, Do(setup, s, es[0]), es[1..])
  }

  lemma ClosedKeeps(setup: Setup, l: Loop, submitted: seq<Record>)
    requires LoopOk(setup, l, submitted)
    ensures LoopOk(setup, l.(inboxClosed := true), submitted)
  {
    hide BooksOk, Journal, MarkOk, PendingOk, ArrivedOk, TicketsOk, Routable, RepliesOk;
  }

  lemma DoKeeps(setup: Setup, s: Shard, e: Event)
    requires W.Framed(setup.cfg) && Inv(setup, s) && Fits(setup, s, e)
    ensures Inv(setup, Do(setup, s, e))
  {
    hide LoopOk, W.Inv, W.Framed, Next;
    var l, submitted := s.loop, s.writer.submitted;
    match e {
      case Own(a) => StepKeeps(setup, s, a);
      case Pushed(m) => InboxKeeps(setup, l, submitted, l.answer, l.inbox + [m], l.nextToken);
      case Shut => ClosedKeeps(setup, l, submitted);
      case Read => InboxKeeps(setup, l, submitted, None, l.inbox, l.nextToken);
    }
  }

  lemma {:induction false} RunKeeps(setup: Setup, s: Shard, es: seq<Event>)
    requires W.Framed(setup.cfg) && Inv(setup, s) && CanRun(setup, s, es)
    ensures Inv(setup, Run(setup, s, es))
    decreases |es|
  {
    hide Inv, Do, Fits, W.Framed;
    if es != [] {
      DoKeeps(setup, s, es[0]);
      RunKeeps(setup, Do(setup, s, es[0]), es[1..]);
    }
  }

  /** A configuration that works, and files of earlier runs that end on record boundaries. */
  ghost predicate Sane(setup: Setup) {
    W.Usable(setup.cfg) && forall i :: 0 <= i < |setup.base| ==> W.Intact(setup.cfg, setup.base[i])
  }

  lemma StartsWell(setup: Setup)
    requires Sane(setup)
    ensures Inv(setup, Start(setup)) && W.Framed(setup.cfg)
  {
    hide Faithful, Progress, W.Intact;
    W.UsableIsFramed(setup.cfg);
    W.StartsWell(setup.cfg, setup.base);
    assert CommandsOf([]) == [];
  }

  lemma SaneUsable(setup: Setup)
    requires Sane(setup)
    ensures W.Usable(setup.cfg) && Progress(setup.cfg.wire)
  {
  }

  lemma Reached(setup: Setup, es: seq<Event>)
    requires Sane(setup) && CanRun(setup, Start(setup), es)
    ensures Inv(setup, Run(setup, Start(setup), es))
  {
    hide Sane, Inv, Start;
    StartsWell(setup);
    RunKeeps(setup, Start(setup), es);
  }

  // ---- Crash safety ----

  /** The records of the commands that a shard has applied. */
  ghost function Wrote(setup: Setup, s: Shard): (rs: seq<Record>)
    requires Inv(setup, s)
    ensures |rs| == |s.loop.applied|
  {
    Journal(setup, s.loop.applied)
  }

  lemma {:induction false} KeepIsGood(rs: seq<Record>)
    ensures forall r :: r in W.Keep(rs) ==> Good(r)
  {
    if rs != [] {
      KeepIsGood(rs[..|rs| - 1]);
    }
  }

  /** Skipping changes nothing up to some point exactly when nothing is skipped before it. */
  lemma {:induction false} KeepAgrees(rs: seq<Record>, m: nat)
    requires m <= |W.Keep(rs)|
    ensures W.Keep(rs)[..m] == rs[..m] <==> forall r :: r in rs[..m] ==> Good(r)
  {
    hide Good;
    if forall r :: r in rs[..m] ==> Good(r) {
      W.KeepAll(rs[..m]);
      W.KeepPrefix(rs, m);
    }
    if W.Keep(rs)[..m] == rs[..m] {
      KeepIsGood(rs);
      assert forall r :: r in W.Keep(rs)[..m] ==> r in W.Keep(rs);
    }
  }

  /** What is read back after a crash: the records of earlier runs, then the encodable ones among the
      first commands applied in this run, in order. Every command answered with its result is there, with
      that result; and the log is simply a beginning of the commands applied exactly when no record
      up to there was too large to encode. */
  ghost predicate Survives(setup: Setup, s: Shard, rs: seq<Record>)
    requires Inv(setup, s)
  {
    var before, wrote := W.Logged(setup.base), Wrote(setup, s);
    && before <= rs && rs <= before + W.Keep(wrote)
    && AnsweredSurvive(before, wrote, s.loop.completed, rs)
    && BeginsWith(before, wrote, rs)
  }

  ghost predicate AnsweredSurvive(before: seq<Record>, wrote: seq<Record>, completed: nat, rs: seq<Record>) {
    forall k :: 0 <= k < completed <= |wrote| ==> Survived(before, wrote, k, rs)
  }

  /** The record of command k is there, behind all encodable ones before it. */
  ghost predicate Survived(before: seq<Record>, wrote: seq<Record>, k: nat, rs: seq<Record>)
    requires k < |wrote|
  {
    Good(wrote[k]) && before + W.Keep(wrote[..k + 1]) <= rs
  }

  ghost predicate BeginsWith(before: seq<Record>, wrote: seq<Record>, rs: seq<Record>) {
    var m := |rs| - |before|;
    && 0 <= m <= |wrote|
    && (rs == before + wrote[..m] <==> forall r :: r in wrote[..m] ==> Good(r))
  }

  lemma KeepLength(rs: seq<Record>)
    ensures |W.Keep(rs)| <= |rs|
  {
  }

  lemma WroteSubmitted(setup: Setup, s: Shard)
    requires Inv(setup, s)
    ensures s.writer.submitted <= Wrote(setup, s) && s.loop.completed <= |s.writer.submitted|
    ensures W.Keep(s.writer.submitted) <= W.Keep(Wrote(setup, s))
  {
    hide W.Inv, PendingOk, BooksOk, RepliesOk, ArrivedOk, TicketsOk;
    W.KeepPrefix(Wrote(setup, s), |s.writer.submitted|);
    assert Wrote(setup, s)[..|s.writer.submitted|] == s.writer.submitted;
  }

  lemma CompletedSurvive(setup: Setup, s: Shard, rs: seq<Record>, k: nat)
    requires Inv(setup, s) && k < s.loop.completed && W.Durable(s.writer.disk) <= |rs|
    requires rs <= W.Logged(setup.base) + W.Keep(Wrote(setup, s))
    ensures s.loop.completed <= |Wrote(setup, s)|
    ensures Survived(W.Logged(setup.base), Wrote(setup, s), k, rs)
  {
    hide W.Inv, LoopOk, W.Keep, W.Logged, W.Durable, Good, Wrote;
    WroteSubmitted(setup, s);
    var wrote := Wrote(setup, s);
    assert W.OnDisk(|W.Logged(setup.base)|, W.Durable(s.writer.disk), s.writer.submitted, k);
    assert s.writer.submitted[..k + 1] == wrote[..k + 1];
    W.KeepPrefix(wrote, k + 1);
    W.PrefixesOfOne(W.Logged(setup.base) + W.Keep(wrote[..k + 1]), rs, W.Logged(setup.base) + W.Keep(wrote));
  }

  /** The log is the beginning of the applied commands exactly when nothing was skipped up to there. */
  lemma BeginningIff(before: seq<Record>, wrote: seq<Record>, rs: seq<Record>)
    requires before <= rs && rs <= before + W.Keep(wrote)
    ensures BeginsWith(before, wrote, rs)
  {
    hide W.Keep, Good;
    var m := |rs| - |before|;
    KeepLength(wrote);
    KeepAgrees(wrote, m);
    assert rs[|before|..] == W.Keep(wrote)[..m];
    assert rs == before + W.Keep(wrote)[..m];
    if rs == before + wrote[..m] {
      assert (before + wrote[..m])[|before|..] == wrote[..m];
    }
  }

  lemma DurableSurvives(setup: Setup, s: Shard, rs: seq<Record>)
    requires Inv(setup, s) && W.Durable(s.writer.disk) <= |rs|
    requires W.Logged(setup.base) <= rs && rs <= W.Logged(setup.base) + W.Keep(Wrote(setup, s))
    ensures Survives(setup, s, rs)
  {
    hide W.Keep, W.Logged, W.Durable, Good, Inv, Wrote, BeginsWith, AnsweredSurvive;
    AllAnsweredSurvive(setup, s, rs);
    BeginningIff(W.Logged(setup.base), Wrote(setup, s), rs);
  }

  lemma AllAnsweredSurvive(setup: Setup, s: Shard, rs: seq<Record>)
    requires Inv(setup, s) && W.Durable(s.writer.disk) <= |rs|
    requires rs <= W.Logged(setup.base) + W.Keep(Wrote(setup, s))
    ensures AnsweredSurvive(W.Logged(setup.base), Wrote(setup, s), s.loop.completed, rs)
  {
    hide W.Keep, W.Logged, W.Durable, Survived, Inv, Wrote;
    var before, wrote := W.Logged(setup.base), Wrote(setup, s);
    forall k | 0 <= k < s.loop.completed <= |wrote| ensures Survived(before, wrote, k, rs) {
      CompletedSurvive(setup, s, rs, k);
    }
  }

  lemma CrashRead(setup: Setup, s: Shard, files: seq<Data>)
    requires W.Usable(setup.cfg) && Inv(setup, s) && W.CrashLeaves(s.writer.disk, files)
    ensures Progress(setup.cfg.wire)
    ensures var r := ReadShard(setup.cfg.wire, files, setup.cfg.header, true); r.Records? && Survives(setup, s, r.records)
  {
    hide Faithful, Progress, W.Keep, W.Logged, W.Durable, Good, Wrote, W.CrashLeaves, LoopOk, DurableOk, FlushOk, W.Inv, ReadShard;
    W.ReadBack(setup.cfg, setup.base, s.writer, files, true);
    WroteSubmitted(setup, s);
    DurableSurvives(setup, s, ReadShard(setup.cfg.wire, files, setup.cfg.header, true).records);
  }

  /** Crash safety: for every run, with any batching, rotation, timing, I/O failure and crash point. */
  lemma CrashSafety(setup: Setup, es: seq<Event>, files: seq<Data>)
    requires Sane(setup) && CanRun(setup, Start(setup), es)
    requires W.CrashLeaves(Run(setup, Start(setup), es).writer.disk, files)
    ensures Inv(setup, Run(setup, Start(setup), es)) && Progress(setup.cfg.wire)
    ensures var r := ReadShard(setup.cfg.wire, files, setup.cfg.header, true);
            r.Records? && Survives(setup, Run(setup, Start(setup), es), r.records)
  {
    Reached(setup, es);
    CrashRead(setup, Run(setup, Start(setup), es), files);
  }

  /** With records that can be encoded, the log is a beginning of the commands applied that holds all
      commands answered with success. */
  lemma CrashKeepsPrefix(setup: Setup, s: Shard, rs: seq<Record>)
    requires Inv(setup, s) && Survives(setup, s, rs) && forall r :: r in Wrote(setup, s) ==> Good(r)
    ensures exists m: nat :: s.loop.completed <= m <= |Wrote(setup, s)| && rs == W.Logged(setup.base) + Wrote(setup, s)[..m]
  {
    hide Inv, W.Logged, W.Keep, Good, Wrote;
    var before, wrote := W.Logged(setup.base), Wrote(setup, s);
    var m := |rs| - |before|;
    CompletedBound(setup, s);
    if s.loop.completed > 0 {
      var n := s.loop.completed;
      assert Survived(before, wrote, n - 1, rs) && wrote[..n - 1 + 1] == wrote[..n];
      W.KeepAll(wrote[..n]);
    }
  }

  lemma CompletedBound(setup: Setup, s: Shard)
    requires Inv(setup, s)
    ensures s.loop.completed <= |Wrote(setup, s)|
  {
    WroteSubmitted(setup, s);
  }

  /** Replies and log agree: over every run, a result is sent for a command of this shard only when the
      command is among those completed, and it is the result that the log holds for it. The only other results
      are rejections of commands whose symbol the shard does not have. */
  lemma RepliesMatchLog(setup: Setup, es: seq<Event>, reply: Reply)
    requires Sane(setup) && CanRun(setup, Start(setup), es) && reply in Run(setup, Start(setup), es).loop.replies && reply.outcome.Done?
    ensures var s := Run(setup, Start(setup), es); Inv(setup, s) && (FromLog(setup, s, reply) || ForeignCommand(setup, s, reply))
  {
    hide Sane, CanRun, Run, Start, W.Inv, PendingOk, CountsOk, BooksOk, ArrivedOk, TicketsOk, DurableOk, FlushOk, Wrote, FromLog, ForeignCommand;
    Reached(setup, es);
    ResultsMatch(setup, Run(setup, Start(setup), es), reply);
  }

  ghost predicate FromLog(setup: Setup, s: Shard, reply: Reply)
    requires Inv(setup, s) && reply.outcome.Done?
  {
    exists k: nat :: k < s.loop.completed <= |Wrote(setup, s)| && reply.ticket == s.loop.applied[k].ticket
      && reply.outcome.result == Wrote(setup, s)[k].result
  }

  ghost predicate ForeignCommand(setup: Setup, s: Shard, reply: Reply)
    requires reply.outcome.Done?
  {
    exists x :: x in s.loop.arrived && x.command.symbol !in setup.books && reply.ticket == x.ticket
      && reply.outcome.result == Result(x.command.sequence, [Rejected(x.command.orderId, REJECT_INVALID_SYMBOL)])
  }

  lemma ResultsMatch(setup: Setup, s: Shard, reply: Reply)
    requires Inv(setup, s) && reply in s.loop.replies && reply.outcome.Done?
    ensures FromLog(setup, s, reply) || ForeignCommand(setup, s, reply)
  {
    hide W.Inv, PendingOk, CountsOk, BooksOk, ArrivedOk, TicketsOk, DurableOk, FlushOk;
    var l := s.loop;
    if Answered(l.completed, l.applied, Wrote(setup, s), reply) {
      var k :| 0 <= k < l.completed <= |l.applied| && reply == AnswerAt(Wrote(setup, s), l.applied, k);
    } else {
      assert Refused(setup.books.Keys, l.arrived, reply);
    }
  }

  // ---- Fail-stop ----

  ghost predicate AllErrors(rs: seq<Reply>) {
    forall r :: r in rs ==> r.outcome.Error?
  }

  /** Nothing of a failed shard moves any more but the errors it answers. */
  ghost predicate Stuck(s: Shard, t: Shard) {
    && t.loop.failed && t.loop.pending == [] && t.loop.books == s.loop.books && t.loop.applied == s.loop.applied
    && t.loop.completed == s.loop.completed && t.loop.lastApplied == s.loop.lastApplied
    && t.writer.submitted == s.writer.submitted
    && s.loop.replies <= t.loop.replies && AllErrors(t.loop.replies[|s.loop.replies|..])
  }

  lemma LoopStuck(setup: Setup, s: Shard, a: Action)
    requires s.loop.failed && s.loop.pending == [] && Enabled(setup, s, a)
    requires !s.loop.control.Sending? && !s.loop.control.Asking? && !s.loop.control.Flushing?
    ensures Stuck(s, Shard(LoopNext(setup, s, a), s.writer))
  {
    hide W.Enabled, ApplyTo, RecordOf, UnknownSymbol;
    assert Errors([]) == [];
    assert s.loop.replies + [] == s.loop.replies;
  }

  lemma StepStuck(setup: Setup, s: Shard, e: Event)
    requires Inv(setup, s) && s.loop.failed && Fits(setup, s, e)
    ensures Stuck(s, Do(setup, s, e))
  {
    hide W.Inv, PendingOk, BooksOk, ArrivedOk, TicketsOk, DurableOk, FlushOk, RepliesOk, W.Enabled, W.Next, LoopNext, Journal;
    if e.Own? {
      LoopStuck(setup, s, e.action);
      if e.action.WriterStep? {
        W.StepGrows(setup.cfg, setup.base, s.writer, e.action.action);
      }
    }
  }

  lemma {:induction false} RunStuck(setup: Setup, s: Shard, es: seq<Event>)
    requires W.Framed(setup.cfg) && Inv(setup, s) && s.loop.failed && CanRun(setup, s, es)
    ensures Stuck(s, Run(setup, s, es))
    decreases |es|
  {
    hide Do, Fits, W.Framed, W.Inv, PendingOk, BooksOk, ArrivedOk, TicketsOk, DurableOk, FlushOk, RepliesOk;
    if es != [] {
      StepStuck(setup, s, es[0]);
      DoKeeps(setup, s, es[0]);
      var t := Do(setup, s, es[0]);
      RunStuck(setup, t, es[1..]);
      var u := Run(setup, s, es);
      assert u.loop.replies[|s.loop.replies|..] == t.loop.replies[|s.loop.replies|..] + u.loop.replies[|t.loop.replies|..];
    }
  }

  /** An error is never cleared, leaves nothing pending, and stops applying, appending and succeeding:
      whatever run led to it and however the run goes on. */
  lemma FailStop(setup: Setup, es: seq<Event>, more: seq<Event>)
    requires Sane(setup) && CanRun(setup, Start(setup), es) && Run(setup, Start(setup), es).loop.failed
    requires CanRun(setup, Run(setup, Start(setup), es), more)
    ensures Stuck(Run(setup, Start(setup), es), Run(setup, Run(setup, Start(setup), es), more))
  {
    hide Sane, CanRun, Run, Start, Inv, Stuck, W.Framed;
    StartsWell(setup);
    Reached(setup, es);
    RunStuck(setup, Run(setup, Start(setup), es), more);
  }

  lemma ExitedAnswered(setup: Setup, s: Shard)
    requires Inv(setup, s) && s.loop.control.Exited?
    ensures Tickets(s.loop.arrived) == ReplyTickets(s.loop.replies) && s.loop.inbox == []
  {
    hide W.Inv, PendingOk, BooksOk, ArrivedOk, DurableOk, FlushOk, RepliesOk, CountsOk;
  }

  /** When the loop has ended, after whatever run, every command it received has exactly one reply. */
  lemma OneReplyEach(setup: Setup, es: seq<Event>)
    requires Sane(setup) && CanRun(setup, Start(setup), es) && Run(setup, Start(setup), es).loop.control.Exited?
    ensures var l := Run(setup, Start(setup), es).loop; Tickets(l.arrived) == ReplyTickets(l.replies) && l.inbox == []
  {
    hide Sane, CanRun, Run, Start, Inv, Tickets, ReplyTickets;
    Reached(setup, es);
    ExitedAnswered(setup, Run(setup, Start(setup), es));
  }

  /** After a flush, in every run, the loop does not have to wait for what is pending: it is acknowledged
      already. */
  lemma FlushCompletes(setup: Setup, es: seq<Event>)
    requires Sane(setup) && CanRun(setup, Start(setup), es) && Run(setup, Start(setup), es).loop.control.Completing?
    ensures var s := Run(setup, Start(setup), es); Enabled(setup, s, if s.loop.pending == [] then FinishFlush else Complete)
  {
    hide Sane, CanRun, Run, Start, W.Inv, BooksOk, ArrivedOk, DurableOk, RepliesOk, TicketsOk;
    Reached(setup, es);
    var s := Run(setup, Start(setup), es);
    if s.loop.pending != [] {
      assert s.loop.pending[0] == PendingAt(Wrote(setup, s), s.loop.applied, s.loop.completed);
    }
  }

  /** Group commit, between any two steps of any run: the pending bytes are the encodings of exactly the
      submitted records whose acknowledgements are pending, in order of submission; the timer is armed exactly
      when there are any; an idle writer is below both thresholds; and no segment of this run exceeds its
      maximal size unless it holds a single batch, which without its last record is below both thresholds. */
  lemma GroupCommits(setup: Setup, es: seq<Event>)
    requires Sane(setup) && CanRun(setup, Start(setup), es)
    ensures var w, cfg := Run(setup, Start(setup), es).writer, setup.cfg;
            && (W.Alive(w.phase) ==>
                  && (forall i :: 0 <= i < |w.batch.acks| ==> w.batch.acks[i] < |w.submitted| && Good(w.submitted[w.batch.acks[i]]))
                  && (forall i, j :: 0 <= i < j < |w.batch.acks| ==> w.batch.acks[i] < w.batch.acks[j])
                  && w.batch.bytes == Frames(cfg.wire, W.RecordsAt(w.submitted, w.batch.acks))
                  && (w.batch.armed <==> w.batch.acks != []))
            && (w.phase.Idle? ==> |w.batch.acks| < cfg.maxCommands && |w.batch.bytes| < cfg.maxBytes)
            && (forall i :: |setup.base| <= i < |w.disk| ==>
                  |w.disk[i].synced| + |w.disk[i].unsynced| <= cfg.segmentMax || W.SmallBatch(cfg, w.disk[i].records))
  {
    hide Sane, CanRun, Run, Start, LoopOk, FlushOk, DurableOk, Frames, Good, W.Intact, W.LastOk, W.AcksOk, W.Keep, W.Lined;
    Reached(setup, es);
    var w := Run(setup, Start(setup), es).writer;
    if W.Alive(w.phase) {
      forall i | 0 <= i < |w.batch.acks|
        ensures w.batch.acks[i] < |w.submitted| && Good(w.submitted[w.batch.acks[i]])
      {
        assert w.batch.acks[i] in w.batch.acks;
      }
      assert W.RecordsAt(w.submitted, w.batch.acks) == w.batch.records;
    }
  }

  /** Nothing is written before it is due: the writer turns to a flush only when its timer fires, when it is asked
      to, or when a batch has reached a threshold; and it then opens a new segment exactly when the batch does not
      fit behind what is already in the current one. */
  lemma CommitsWhenDue(setup: Setup, es: seq<Event>, a: W.Action)
    requires Sane(setup) && CanRun(setup, Start(setup), es)
    requires W.Enabled(setup.cfg, Run(setup, Start(setup), es).writer, a)
    ensures var w, cfg := Run(setup, Start(setup), es).writer, setup.cfg;
            var w' := W.Next(cfg, w, a);
            && (!w.phase.Flushing? && w'.phase.Flushing? ==>
                  || a.TimerFires? || (a.TakeRequest? && !w.queue[0].AppendReq?)
                  || |w'.batch.acks| >= cfg.maxCommands || |w'.batch.bytes| >= cfg.maxBytes)
            && (a.BeginFlush? ==>
                  w.disk != [] &&
                  (w'.phase.Opening? <==> w.batch.acks != [] && |W.Last(w.disk).synced| + |w.batch.bytes| > cfg.segmentMax))
  {
    hide Sane, CanRun, Run, Start, LoopOk, FlushOk, DurableOk, Frames, Good, W.Intact, W.AcksOk, W.Keep, W.Lined,
         W.Bounded, W.SetLast, W.Filled, W.AckAll;
    Reached(setup, es);
  }
}
