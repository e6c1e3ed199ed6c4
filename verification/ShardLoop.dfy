/** The loop of a shard with its log writer (internal/shard/loop.go): commands are applied at once,
    and answered only when the writer has acknowledged their records. */
module ShardLoop {
  import opened Model
  import opened Codec
  import opened Replay
  import W = GroupCommit

  const MAX_PENDING := 1024

  datatype Outcome = Done(result: Result) | Error

  /** A reply channel is known by the ticket of its command. */
  datatype Reply = Reply(ticket: nat, outcome: Outcome)

  /** Who waits for a flush: a barrier, or a drain that then holds the shard. */
  datatype Waiter = ForBarrier | ForDrain(drain: nat)

  datatype Message = CommandMsg(command: Command, ticket: nat) | FlushMsg(waiter: Waiter)

  /** A command that was applied and waits for its record to be durable. */
  datatype Pending = Pending(sequence: uint64, result: Result, ticket: nat, ack: nat)

  /** Where the loop stands: in its select, in the send of an append, before and after the send of a
      flush request, in completeAll, held by a drain, and before and after the shutdown request. */
  datatype Control =
    | Running
    | Sending(record: Record, ticket: nat)
    | Asking(waiter: Waiter)
    | Flushing(waiter: Waiter, token: nat)
    | Completing(waiter: Waiter)
    | Paused(drain: nat)
    | Leaving
    | Closing(token: nat)
    | Exited

  datatype Arrival = Arrival(command: Command, ticket: nat)

  /** The last three fields are bookkeeping: the commands received, those applied to the books, and
      how many of these were answered with their result. */
  datatype Loop = Loop(
    books: Books,
    lastApplied: uint64,
    failed: bool,
    pending: seq<Pending>,
    control: Control,
    inbox: seq<Message>,
    inboxClosed: bool,
    answer: Option<bool>,
    replies: seq<Reply>,
    nextToken: nat,
    arrived: seq<Arrival>,
    applied: seq<Arrival>,
    completed: nat)

  datatype Shard = Shard(loop: Loop, writer: W.Writer)

  /** What a shard starts from: configuration, segments of earlier runs, recovered books and watermark. */
  datatype Setup = Setup(cfg: W.Config, base: seq<W.Segment>, books: Books, mark: uint64)

  function Start(setup: Setup): Shard {
    Shard(Loop(setup.books, setup.mark, false, [], Running, [], false, None, [], 0, [], [], 0), W.Start(setup.base))
  }

  function ShardId(setup: Setup): uint16 {
    setup.cfg.header.shardId
  }

  // ---- The loop's operations ----

  function Errors(ps: seq<Pending>): seq<Reply> {
    if ps == [] then [] else [Reply(ps[0].ticket, Error)] + Errors(ps[1..])
  }

  function FailPending(l: Loop): Loop {
    l.(failed := true, replies := l.replies + Errors(l.pending), pending := [])
  }

  function CompleteNext(l: Loop, ok: bool): Loop
    requires l.pending != []
  {
    var p := l.pending[0];
    if !ok then FailPending(l)
    else l.(lastApplied := p.sequence, replies := l.replies + [Reply(p.ticket, Done(p.result))], pending := l.pending[1..],
            completed := l.completed + 1)
  }

  function UnknownSymbol(c: Command): Result {
    Result(c.sequence, [Rejected(c.orderId, REJECT_INVALID_SYMBOL)])
  }

  function Enqueue(id: uint16, l: Loop, walFailed: bool, c: Command, ticket: nat): Loop {
    var l1 := l.(arrived := l.arrived + [Arrival(c, ticket)]);
    if l.failed then l1.(replies := l.replies + [Reply(ticket, Error)])
    else if c.symbol !in l.books then l1.(replies := l.replies + [Reply(ticket, Done(UnknownSymbol(c)))])
    else
      var rec := RecordOf(id, l.books, c);
      var l2 := l1.(books := ApplyTo(l.books, c), applied := l.applied + [Arrival(c, ticket)]);
      if walFailed then Refuse(l2, ticket) else l2.(control := Sending(rec, ticket))
  }

  /** The append failed: everything pending is failed first, then the command itself. */
  function Refuse(l: Loop, ticket: nat): Loop {
    var l1 := FailPending(l);
    l1.(replies := l1.replies + [Reply(ticket, Error)], control := Running)
  }

  function AnswerWaiter(l: Loop, waiter: Waiter): Loop {
    l.(answer := Some(!l.failed), control := if waiter.ForDrain? then Paused(waiter.drain) else Running)
  }

  function FlushPending(l: Loop, walFailed: bool, waiter: Waiter): Loop {
    if l.failed || walFailed then AnswerWaiter(FailPending(l), waiter) else l.(control := Asking(waiter))
  }

  datatype Action =
    | Receive
    | Complete
    | Send(accepted: bool)
    | SendFlush
    | FlushReturns
    | FlushTimesOut
    | FinishFlush
    | Release
    | Leave
    | SendShutdown
    | ShutdownReturns
    | ShutdownTimesOut
    | WriterStep(action: W.Action)

  predicate Enabled(setup: Setup, s: Shard, a: Action) {
    var l := s.loop;
    match a
    case Receive => l.control.Running? && l.inbox != [] && |l.pending| < MAX_PENDING
    case Complete => (l.control.Running? || l.control.Completing?) && l.pending != [] && l.pending[0].ack in s.writer.acks
    case Send(_) => l.control.Sending?
    case SendFlush => l.control.Asking?
    case FlushReturns => l.control.Flushing? && l.control.token in s.writer.done
    case FlushTimesOut => l.control.Asking? || l.control.Flushing?
    case FinishFlush => l.control.Completing? && l.pending == []
    case Release => l.control.Paused?
    case Leave => l.control.Running? && l.inbox == [] && l.inboxClosed && l.pending == []
    case SendShutdown => l.control.Leaving?
    case ShutdownReturns =>
      || (l.control.Leaving? && s.writer.phase.Stopped?)
      || (l.control.Closing? && l.control.token in s.writer.done)
    case ShutdownTimesOut => l.control.Leaving? || l.control.Closing?
    case WriterStep(b) => W.Enabled(setup.cfg, s.writer, b)
  }

  function LoopNext(setup: Setup, s: Shard, a: Action): Loop
    requires Enabled(setup, s, a)
  {
    var l := s.loop;
    match a
    case Receive =>
      var l1 := l.(inbox := l.inbox[1..]);
      (match l.inbox[0]
       case CommandMsg(c, ticket) => Enqueue(ShardId(setup), l1, s.writer.failed, c, ticket)
       case FlushMsg(waiter) => FlushPending(l1, s.writer.failed, waiter))
    case Complete => CompleteNext(l, s.writer.acks[l.pending[0].ack])
    case Send(accepted) =>
      if accepted then
        var rec := l.control.record;
        l.(pending := l.pending + [Pending(rec.sequence, rec.result, l.control.ticket, |s.writer.submitted|)], control := Running)
      else Refuse(l, l.control.ticket)
    case SendFlush => l.(control := Flushing(l.control.waiter, l.nextToken), nextToken := l.nextToken + 1)
    case FlushReturns =>
      if s.writer.failed then AnswerWaiter(FailPending(l), l.control.waiter) else l.(control := Completing(l.control.waiter))
    case FlushTimesOut => AnswerWaiter(FailPending(l), l.control.waiter)
    case FinishFlush => AnswerWaiter(l, l.control.waiter)
    case Release => l.(control := Running)
    case Leave => l.(control := Leaving)
    case SendShutdown => l.(control := Closing(l.nextToken), nextToken := l.nextToken + 1)
    case ShutdownReturns => l.(control := Exited, failed := l.failed || s.writer.failed)
    case ShutdownTimesOut => l.(control := Exited, failed := true)
    case WriterStep(_) => l
  }

  function WriterNext(setup: Setup, s: Shard, a: Action): W.Writer
    requires Enabled(setup, s, a)
  {
    match a
    case Send(accepted) => if accepted then W.Submit(s.writer, s.loop.control.record) else s.writer
    case SendFlush => W.Ask(s.writer, W.FlushReq(s.loop.nextToken))
    case SendShutdown => W.Ask(s.writer, W.ShutdownReq(s.loop.nextToken))
    case WriterStep(b) => W.Next(setup.cfg, s.writer, b)
    case _ => s.writer
  }

  function Next(setup: Setup, s: Shard, a: Action): Shard
    requires Enabled(setup, s, a)
  {
    Shard(LoopNext(setup, s, a), WriterNext(setup, s, a))
  }

  /** What the sequencer does to a shard: it fills and closes the inbox and takes the answer. */
  function Push(s: Shard, m: Message): Shard {
    s.(loop := s.loop.(inbox := s.loop.inbox + [m]))
  }

  function CloseInbox(s: Shard): Shard {
    s.(loop := s.loop.(inboxClosed := true))
  }

  function TakeAnswer(s: Shard): Shard {
    s.(loop := s.loop.(answer := None))
  }

  // ---- Histories ----

  function CommandsOf(xs: seq<Arrival>): (cs: seq<Command>)
    ensures |cs| == |xs| && forall i :: 0 <= i < |xs| ==> cs[i] == xs[i].command
  {
    seq(|xs|, i requires 0 <= i < |xs| => xs[i].command)
  }

  /** The commands for symbols of this shard. */
  function Known(symbols: set<Symbol>, xs: seq<Arrival>): seq<Arrival> {
    if xs == [] then []
    else
      var n := |xs| - 1;
      Known(symbols, xs[..n]) + if xs[n].command.symbol in symbols then [xs[n]] else []
  }

  lemma CommandsOfMore(xs: seq<Arrival>, x: Arrival)
    ensures CommandsOf(xs + [x]) == CommandsOf(xs) + [x.command]
  {
  }

  lemma KnownMore(symbols: set<Symbol>, xs: seq<Arrival>, x: Arrival)
    ensures Known(symbols, xs + [x]) == Known(symbols, xs) + if x.command.symbol in symbols then [x] else []
  {
    assert (xs + [x])[..|xs|] == xs;
  }

  /** The records of the applied commands. */
  ghost function Journal(setup: Setup, applied: seq<Arrival>): (rs: seq<Record>)
    requires Routable(setup.books, CommandsOf(applied))
    ensures |rs| == |applied|
  {
    RecordsOf(ShardId(setup), setup.books, CommandsOf(applied))
  }

  ghost predicate BooksOk(setup: Setup, books: Books, applied: seq<Arrival>) {
    Routable(setup.books, CommandsOf(applied)) && books == ReplayBooks(setup.books, CommandsOf(applied))
  }

  lemma BooksNext(setup: Setup, books: Books, applied: seq<Arrival>, x: Arrival)
    requires BooksOk(setup, books, applied) && x.command.symbol in books
    ensures BooksOk(setup, ApplyTo(books, x.command), applied + [x])
    ensures Journal(setup, applied + [x]) == Journal(setup, applied) + [RecordOf(ShardId(setup), books, x.command)]
  {
    CommandsOfMore(applied, x);
    ReplayNext(ShardId(setup), setup.books, CommandsOf(applied), x.command);
  }

  /** What is pending is what was applied and not yet answered, in order. */
  ghost predicate PendingOk(journal: seq<Record>, applied: seq<Arrival>, completed: nat, pending: seq<Pending>) {
    && |journal| == |applied| && completed + |pending| <= |applied|
    && forall i :: 0 <= i < |pending| ==> pending[i] == PendingAt(journal, applied, completed + i)
  }

  ghost function PendingAt(journal: seq<Record>, applied: seq<Arrival>, k: nat): Pending
    requires k < |journal| == |applied|
  {
    Pending(journal[k].sequence, journal[k].result, applied[k].ticket, k)
  }

  ghost function AnswerAt(journal: seq<Record>, applied: seq<Arrival>, k: nat): Reply
    requires k < |journal| == |applied|
  {
    Reply(applied[k].ticket, Done(journal[k].result))
  }

  /** Applied, submitted, pending and answered commands differ only by the one being sent. */
  ghost predicate CountsOk(l: Loop, journal: seq<Record>, submitted: seq<Record>) {
    && submitted <= journal && l.completed <= |submitted|
    && (l.failed ==> l.pending == [] && !l.control.Sending? && !l.control.Asking? && !l.control.Flushing?)
    && (!l.failed ==> |submitted| == l.completed + |l.pending|)
    && (!l.failed ==> |journal| == |submitted| + if l.control.Sending? then 1 else 0)
    && (l.control.Sending? ==> |journal| == |l.applied| && SentOk(l.control, journal, l.applied, |submitted|))
  }

  ghost predicate SentOk(c: Control, journal: seq<Record>, applied: seq<Arrival>, k: nat)
    requires c.Sending? && |journal| == |applied|
  {
    k < |journal| && c.record == journal[k] && c.ticket == applied[k].ticket
  }

  ghost predicate MarkOk(mark: uint64, applied: seq<Arrival>, completed: nat, lastApplied: uint64) {
    && completed <= |applied|
    && lastApplied == if completed == 0 then mark else applied[completed - 1].command.sequence
  }

  /** Whatever was answered with its result is on disk for good. */
  ghost predicate DurableOk(base: seq<W.Segment>, w: W.Writer, completed: nat) {
    && completed <= |w.submitted|
    && forall k :: 0 <= k < completed ==> W.OnDisk(|W.Logged(base)|, W.Durable(w.disk), w.submitted, k)
  }

  ghost predicate ArrivedOk(symbols: set<Symbol>, arrived: seq<Arrival>, applied: seq<Arrival>, failed: bool) {
    && applied <= Known(symbols, arrived)
    && (!failed ==> applied == Known(symbols, arrived))
  }

  /** An error is answered only by a failed loop, a result only when the command is completed or was
      for no symbol of this shard. */
  ghost predicate RepliesOk(symbols: set<Symbol>, arrived: seq<Arrival>, applied: seq<Arrival>, completed: nat, failed: bool,
                            replies: seq<Reply>, journal: seq<Record>)
    requires |journal| == |applied|
  {
    && (forall r :: r in replies && r.outcome.Error? ==> failed)
    && (forall r :: r in replies && r.outcome.Done? ==> Answered(completed, applied, journal, r) || Refused(symbols, arrived, r))
    && (forall k :: 0 <= k < completed <= |applied| ==> AnswerAt(journal, applied, k) in replies)
  }

  ghost predicate Answered(completed: nat, applied: seq<Arrival>, journal: seq<Record>, r: Reply)
    requires |journal| == |applied|
  {
    exists k :: 0 <= k < completed <= |applied| && r == AnswerAt(journal, applied, k)
  }

  ghost predicate Refused(symbols: set<Symbol>, arrived: seq<Arrival>, r: Reply) {
    exists x :: x in arrived && x.command.symbol !in symbols && r == Reply(x.ticket, Done(UnknownSymbol(x.command)))
  }

  // ---- Reply channels are conserved ----

  function Tickets(xs: seq<Arrival>): multiset<nat> {
    if xs == [] then multiset{} else Tickets(xs[..|xs| - 1]) + multiset{xs[|xs| - 1].ticket}
  }

  function ReplyTickets(rs: seq<Reply>): multiset<nat> {
    if rs == [] then multiset{} else ReplyTickets(rs[..|rs| - 1]) + multiset{rs[|rs| - 1].ticket}
  }

  function PendingTickets(ps: seq<Pending>): multiset<nat> {
    if ps == [] then multiset{} else multiset{ps[0].ticket} + PendingTickets(ps[1..])
  }

  function SendingTicket(c: Control): multiset<nat> {
    if c.Sending? then multiset{c.ticket} else multiset{}
  }

  /** Every command received has been answered once, or is pending, or is being sent. */
  ghost predicate TicketsOk(arrived: seq<Arrival>, replies: seq<Reply>, pending: seq<Pending>, control: Control) {
    Tickets(arrived) == ReplyTickets(replies) + PendingTickets(pending) + SendingTicket(control)
  }

  /** A loop that leaves its select for good has nothing left. */
  ghost predicate ExitOk(l: Loop) {
    && (l.control.Leaving? || l.control.Closing? || l.control.Exited? ==> l.inbox == [] && l.inboxClosed && l.pending == [])
    && (l.control.Paused? ==> l.pending == [])
    && |l.pending| <= MAX_PENDING && (l.control.Sending? ==> |l.pending| < MAX_PENDING)
  }

  ghost predicate LoopOk(setup: Setup, l: Loop, submitted: seq<Record>) {
    && Routable(setup.books, CommandsOf(l.applied)) && BooksOk(setup, l.books, l.applied)
    && var journal := Journal(setup, l.applied);
    && PendingOk(journal, l.applied, l.completed, l.pending)
    && CountsOk(l, journal, submitted)
    && RepliesOk(setup.books.Keys, l.arrived, l.applied, l.completed, l.failed, l.replies, journal)
    && MarkOk(setup.mark, l.applied, l.completed, l.lastApplied)
    && ArrivedOk(setup.books.Keys, l.arrived, l.applied, l.failed)
    && TicketsOk(l.arrived, l.replies, l.pending, l.control)
    && ExitOk(l)
  }

  /** Tokens are fresh; a flush in flight stands behind everything submitted; and once it has returned,
      everything submitted is acknowledged. */
  ghost predicate FlushOk(l: Loop, w: W.Writer) {
    && (forall t :: t in w.asked ==> t < l.nextToken)
    && (l.control.Flushing? ==> l.control.token in w.asked && w.asked[l.control.token] == |w.submitted|)
    && (l.control.Completing? ==> W.Covered(|w.submitted|, w.acks))
  }

  ghost predicate Inv(setup: Setup, s: Shard) {
    && W.Inv(setup.cfg, setup.base, s.writer)
    && FlushOk(s.loop, s.writer)
    && DurableOk(setup.base, s.writer, s.loop.completed)
    && LoopOk(setup, s.loop, s.writer.submitted)
  }

  // ---- Every step keeps the invariant ----

  lemma {:induction false} ErrorTickets(rs: seq<Reply>, ps: seq<Pending>)
    ensures ReplyTickets(rs + Errors(ps)) == ReplyTickets(rs) + PendingTickets(ps)
    ensures forall r :: r in Errors(ps) ==> r.outcome.Error?
    decreases |ps|
  {
    if ps == [] {
      assert rs + Errors(ps) == rs;
    } else {
      var r := Reply(ps[0].ticket, Error);
      assert rs + Errors(ps) == (rs + [r]) + Errors(ps[1..]);
      ErrorTickets(rs + [r], ps[1..]);
      ReplyTicketsMore(rs, r);
    }
  }

  lemma ReplyTicketsMore(rs: seq<Reply>, r: Reply)
    ensures ReplyTickets(rs + [r]) == ReplyTickets(rs) + multiset{r.ticket}
  {
    assert (rs + [r])[..|rs|] == rs;
  }

  lemma TicketsMore(xs: seq<Arrival>, x: Arrival)
    ensures Tickets(xs + [x]) == Tickets(xs) + multiset{x.ticket}
  {
    assert (xs + [x])[..|xs|] == xs;
  }

  lemma {:induction false} PendingTicketsMore(ps: seq<Pending>, p: Pending)
    ensures PendingTickets(ps + [p]) == PendingTickets(ps) + multiset{p.ticket}
  {
    if ps == [] {
      assert ps + [p] == [p] && [p][1..] == [];
    } else {
      assert (ps + [p])[1..] == ps[1..] + [p];
      PendingTicketsMore(ps[1..], p);
    }
  }

  /** More replies, all of them errors, from a loop that has failed. */
  lemma RepliesFail(symbols: set<Symbol>, l: Loop, journal: seq<Record>, more: seq<Reply>, arrived: seq<Arrival>)
    requires |journal| == |l.applied| && RepliesOk(symbols, l.arrived, l.applied, l.completed, l.failed, l.replies, journal)
    requires l.arrived <= arrived && forall r :: r in more ==> r.outcome.Error?
    ensures RepliesOk(symbols, arrived, l.applied, l.completed, true, l.replies + more, journal)
  {
    forall r | r in l.replies + more && r.outcome.Done?
      ensures Answered(l.completed, l.applied, journal, r) || Refused(symbols, arrived, r)
    {
      assert r in l.replies;
    }
  }

  predicate Steady(c: Control) {
    c.Running? || c.Paused? || c.Completing?
  }

  lemma TicketsFail(arrived: seq<Arrival>, replies: seq<Reply>, pending: seq<Pending>, control: Control, c: Control)
    requires TicketsOk(arrived, replies, pending, control) && !control.Sending? && !c.Sending?
    ensures TicketsOk(arrived, replies + Errors(pending), [], c)
  {
    ErrorTickets(replies, pending);
  }

  /** Failing everything pending. */
  lemma FailKeeps(setup: Setup, l: Loop, submitted: seq<Record>, c: Control)
    requires LoopOk(setup, l, submitted) && !l.control.Sending? && Steady(c)
    ensures LoopOk(setup, FailPending(l).(control := c), submitted)
  {
    hide BooksOk, Journal, MarkOk, Known, TicketsOk, Routable, RepliesOk;
    ErrorTickets(l.replies, l.pending);
    TicketsFail(l.arrived, l.replies, l.pending, l.control, c);
    RepliesFail(setup.books.Keys, l, Journal(setup, l.applied), Errors(l.pending), l.arrived);
  }

  lemma InboxKeeps(setup: Setup, l: Loop, submitted: seq<Record>, a: Option<bool>, inbox: seq<Message>, token: nat)
    requires LoopOk(setup, l, submitted) && (l.inbox == [] && l.inboxClosed ==> inbox == [])
    ensures LoopOk(setup, l.(answer := a, inbox := inbox, nextToken := token), submitted)
  {
    hide BooksOk, Journal, MarkOk, PendingOk, ArrivedOk, TicketsOk, Routable, RepliesOk;
  }

  lemma ControlKeeps(setup: Setup, l: Loop, submitted: seq<Record>, c: Control)
    requires LoopOk(setup, l, submitted) && !l.control.Sending? && !c.Sending?
    requires c.Asking? || c.Flushing? ==> !l.failed
    requires c.Paused? ==> l.pending == []
    requires c.Leaving? || c.Closing? || c.Exited? ==> l.inbox == [] && l.inboxClosed && l.pending == []
    ensures LoopOk(setup, l.(control := c), submitted)
  {
    hide BooksOk, Journal, MarkOk, PendingOk, ArrivedOk, Routable, RepliesOk, Tickets, ReplyTickets, PendingTickets;
  }

  /** A command for a loop that has failed. */
  lemma TurnAwayKeeps(setup: Setup, l: Loop, submitted: seq<Record>, x: Arrival)
    requires LoopOk(setup, l, submitted) && l.failed
    ensures LoopOk(setup, l.(arrived := l.arrived + [x], replies := l.replies + [Reply(x.ticket, Error)]), submitted)
  {
    hide BooksOk, Journal, MarkOk, PendingOk, Known, Routable, RepliesOk, Tickets, ReplyTickets, PendingTickets;
    TicketsMore(l.arrived, x);
    ReplyTicketsMore(l.replies, Reply(x.ticket, Error));
    KnownMore(setup.books.Keys, l.arrived, x);
    RepliesFail(setup.books.Keys, l, Journal(setup, l.applied), [Reply(x.ticket, Error)], l.arrived + [x]);
  }

  lemma RepliesRefuse(symbols: set<Symbol>, l: Loop, journal: seq<Record>, x: Arrival)
    requires |journal| == |l.applied| && RepliesOk(symbols, l.arrived, l.applied, l.completed, l.failed, l.replies, journal)
    requires x.command.symbol !in symbols
    ensures RepliesOk(symbols, l.arrived + [x], l.applied, l.completed, l.failed,
                      l.replies + [Reply(x.ticket, Done(UnknownSymbol(x.command)))], journal)
  {
    var arrived := l.arrived + [x];
    assert x in arrived;
    forall r | r in l.replies && r.outcome.Done?
      ensures Answered(l.completed, l.applied, journal, r) || Refused(symbols, arrived, r)
    {
      if Refused(symbols, l.arrived, r) {
        var y :| y in l.arrived && y.command.symbol !in symbols && r == Reply(y.ticket, Done(UnknownSymbol(y.command)));
        assert y in arrived;
      }
    }
  }

  /** A command for a symbol of another shard. */
  lemma UnknownKeeps(setup: Setup, l: Loop, submitted: seq<Record>, x: Arrival)
    requires LoopOk(setup, l, submitted) && x.command.symbol !in setup.books
    ensures LoopOk(setup, l.(arrived := l.arrived + [x], replies := l.replies + [Reply(x.ticket, Done(UnknownSymbol(x.command)))]), submitted)
  {
    hide BooksOk, Journal, MarkOk, PendingOk, Known, Routable, RepliesOk, Tickets, ReplyTickets, PendingTickets, UnknownSymbol;
    TicketsMore(l.arrived, x);
    ReplyTicketsMore(l.replies, Reply(x.ticket, Done(UnknownSymbol(x.command))));
    KnownMore(setup.books.Keys, l.arrived, x);
    RepliesRefuse(setup.books.Keys, l, Journal(setup, l.applied), x);
  }

  /** One more command applied changes nothing about those before it. */
  lemma AppliedMore(symbols: set<Symbol>, l: Loop, journal: seq<Record>, x: Arrival, rec: Record)
    requires PendingOk(journal, l.applied, l.completed, l.pending)
    requires RepliesOk(symbols, l.arrived, l.applied, l.completed, l.failed, l.replies, journal)
    ensures PendingOk(journal + [rec], l.applied + [x], l.completed, l.pending)
    ensures RepliesOk(symbols, l.arrived + [x], l.applied + [x], l.completed, l.failed, l.replies, journal + [rec])
  {
    forall k | 0 <= k < |journal| ensures AnswerAt(journal + [rec], l.applied + [x], k) == AnswerAt(journal, l.applied, k) {
    }
    forall r | r in l.replies && r.outcome.Done?
      ensures Answered(l.completed, l.applied + [x], journal + [rec], r) || Refused(symbols, l.arrived + [x], r)
    {
      if Answered(l.completed, l.applied, journal, r) {
        var k :| 0 <= k < l.completed <= |l.applied| && r == AnswerAt(journal, l.applied, k);
        assert r == AnswerAt(journal + [rec], l.applied + [x], k);
      } else {
        var y :| y in l.arrived && y.command.symbol !in symbols && r == Reply(y.ticket, Done(UnknownSymbol(y.command)));
        assert y in l.arrived + [x];
      }
    }
  }

  function Applying(id: uint16, l: Loop, x: Arrival): Loop
    requires x.command.symbol in l.books
  {
    l.(arrived := l.arrived + [x], books := ApplyTo(l.books, x.command), applied := l.applied + [x],
       control := Sending(RecordOf(id, l.books, x.command), x.ticket))
  }

  lemma ApplyKeeps(setup: Setup, l: Loop, submitted: seq<Record>, x: Arrival)
    requires LoopOk(setup, l, submitted) && l.control.Running? && !l.failed && |l.pending| < MAX_PENDING
    requires x.command.symbol in l.books
    ensures LoopOk(setup, Applying(ShardId(setup), l, x), submitted)
  {
    hide Journal, RecordOf, ApplyTo, PendingOk, Known, RepliesOk, Tickets, ReplyTickets, PendingTickets;
    BooksNext(setup, l.books, l.applied, x);
    TicketsMore(l.arrived, x);
    KnownMore(setup.books.Keys, l.arrived, x);
    AppliedMore(setup.books.Keys, l, Journal(setup, l.applied), x, RecordOf(ShardId(setup), l.books, x.command));
  }

  /** The append of the command just applied fails. */
  lemma RefuseKeeps(setup: Setup, l: Loop, submitted: seq<Record>)
    requires LoopOk(setup, l, submitted) && l.control.Sending?
    ensures LoopOk(setup, Refuse(l, l.control.ticket), submitted)
  {
    hide BooksOk, Journal, MarkOk, Known, Routable, RepliesOk, Tickets, ReplyTickets;
    var last := Reply(l.control.ticket, Error);
    ErrorTickets(l.replies, l.pending);
    ReplyTicketsMore(l.replies + Errors(l.pending), last);
    assert l.replies + Errors(l.pending) + [last] == l.replies + (Errors(l.pending) + [last]);
    RepliesFail(setup.books.Keys, l, Journal(setup, l.applied), Errors(l.pending) + [last], l.arrived);
  }

  lemma EnqueueKeeps(setup: Setup, l: Loop, submitted: seq<Record>, walFailed: bool, c: Command, ticket: nat)
    requires LoopOk(setup, l, submitted) && l.control.Running? && |l.pending| < MAX_PENDING
    ensures LoopOk(setup, Enqueue(ShardId(setup), l, walFailed, c, ticket), submitted)
  {
    hide LoopOk, RecordOf, ApplyTo, UnknownSymbol;
    SameSymbols(setup, l, submitted);
    var x := Arrival(c, ticket);
    if l.failed {
      TurnAwayKeeps(setup, l, submitted, x);
    } else if c.symbol !in l.books {
      UnknownKeeps(setup, l, submitted, x);
    } else {
      ApplyKeeps(setup, l, submitted, x);
      RefuseKeeps(setup, Applying(ShardId(setup), l, x), submitted);
    }
  }

  lemma SameSymbols(setup: Setup, l: Loop, submitted: seq<Record>)
    requires LoopOk(setup, l, submitted)
    ensures l.books.Keys == setup.books.Keys
  {
  }

  lemma FlushPendingKeeps(setup: Setup, l: Loop, submitted: seq<Record>, walFailed: bool, waiter: Waiter)
    requires LoopOk(setup, l, submitted) && l.control.Running?
    ensures LoopOk(setup, FlushPending(l, walFailed, waiter), submitted)
  {
    if l.failed || walFailed {
      FailAnswerKeeps(setup, l, submitted, waiter);
    } else {
      ControlKeeps(setup, l, submitted, Asking(waiter));
    }
  }

  lemma FailAnswerKeeps(setup: Setup, l: Loop, submitted: seq<Record>, waiter: Waiter)
    requires LoopOk(setup, l, submitted) && !l.control.Sending?
    ensures LoopOk(setup, AnswerWaiter(FailPending(l), waiter), submitted)
  {
    hide LoopOk;
    var l' := AnswerWaiter(FailPending(l), waiter);
    var m := FailPending(l).(control := l'.control);
    FailKeeps(setup, l, submitted, l'.control);
    InboxKeeps(setup, m, submitted, l'.answer, m.inbox, m.nextToken);
  }

  lemma ReceiveKeeps(setup: Setup, s: Shard)
    requires LoopOk(setup, s.loop, s.writer.submitted) && Enabled(setup, s, Receive)
    ensures LoopOk(setup, LoopNext(setup, s, Receive), s.writer.submitted)
  {
    hide LoopOk, Enqueue, FlushPending;
    var l, submitted := s.loop, s.writer.submitted;
    var l1 := l.(inbox := l.inbox[1..]);
    InboxKeeps(setup, l, submitted, l.answer, l1.inbox, l.nextToken);
    match l.inbox[0] {
      case CommandMsg(c, ticket) => EnqueueKeeps(setup, l1, submitted, s.writer.failed, c, ticket);
      case FlushMsg(waiter) => FlushPendingKeeps(setup, l1, submitted, s.writer.failed, waiter);
    }
  }

  lemma PendingMore(journal: seq<Record>, applied: seq<Arrival>, completed: nat, pending: seq<Pending>)
    requires PendingOk(journal, applied, completed, pending) && completed + |pending| < |applied|
    ensures PendingOk(journal, applied, completed, pending + [PendingAt(journal, applied, completed + |pending|)])
  {
  }

  lemma SendKeeps(setup: Setup, l: Loop, submitted: seq<Record>)
    requires LoopOk(setup, l, submitted) && l.control.Sending?
    ensures var rec := l.control.record;
            LoopOk(setup, l.(pending := l.pending + [Pending(rec.sequence, rec.result, l.control.ticket, |submitted|)], control := Running),
                   submitted + [rec])
  {
    hide BooksOk, Journal, MarkOk, Known, Routable, RepliesOk, Tickets, ReplyTickets, PendingTickets, PendingOk;
    var rec := l.control.record;
    var journal := Journal(setup, l.applied);
    assert l.completed + |l.pending| == |submitted| < |l.applied|;
    PendingMore(journal, l.applied, l.completed, l.pending);
    PendingTicketsMore(l.pending, PendingAt(journal, l.applied, |submitted|));
    assert submitted + [rec] == journal[..|submitted| + 1];
  }

  /** The record being sent belongs to this shard. */
  lemma SendingRecord(setup: Setup, l: Loop, submitted: seq<Record>)
    requires LoopOk(setup, l, submitted) && l.control.Sending?
    ensures l.control.record.shardId == ShardId(setup) && l.control.record.sequence == l.control.record.command.sequence
  {
    JournalSequence(setup, l.applied, |submitted|);
  }

  lemma RepliesComplete(symbols: set<Symbol>, l: Loop, journal: seq<Record>)
    requires |journal| == |l.applied| && RepliesOk(symbols, l.arrived, l.applied, l.completed, l.failed, l.replies, journal)
    requires l.completed < |l.applied|
    ensures RepliesOk(symbols, l.arrived, l.applied, l.completed + 1, l.failed,
                      l.replies + [AnswerAt(journal, l.applied, l.completed)], journal)
  {
    var r' := AnswerAt(journal, l.applied, l.completed);
    assert Answered(l.completed + 1, l.applied, journal, r');
    forall r | r in l.replies && r.outcome.Done?
      ensures Answered(l.completed + 1, l.applied, journal, r) || Refused(symbols, l.arrived, r)
    {
      if Answered(l.completed, l.applied, journal, r) {
        var k :| 0 <= k < l.completed <= |l.applied| && r == AnswerAt(journal, l.applied, k);
      }
    }
  }

  lemma PendingLess(journal: seq<Record>, applied: seq<Arrival>, completed: nat, pending: seq<Pending>)
    requires PendingOk(journal, applied, completed, pending) && pending != []
    ensures PendingOk(journal, applied, completed + 1, pending[1..]) && pending[0] == PendingAt(journal, applied, completed)
  {
    forall i | 0 <= i < |pending[1..]| ensures pending[1..][i] == PendingAt(journal, applied, completed + 1 + i) {
      assert pending[1..][i] == pending[i + 1];
    }
  }

  lemma JournalSequence(setup: Setup, applied: seq<Arrival>, k: nat)
    requires Routable(setup.books, CommandsOf(applied)) && k < |applied|
    ensures Journal(setup, applied)[k].sequence == applied[k].command.sequence
    ensures Journal(setup, applied)[k].command == applied[k].command
    ensures Journal(setup, applied)[k].shardId == ShardId(setup)
  {
    RecordAt(ShardId(setup), setup.books, CommandsOf(applied), k);
  }

  lemma CompleteKeeps(setup: Setup, l: Loop, submitted: seq<Record>)
    requires LoopOk(setup, l, submitted) && l.pending != [] && !l.control.Sending?
    ensures LoopOk(setup, CompleteNext(l, true), submitted) && l.pending[0].ack == l.completed < |submitted|
  {
    hide BooksOk, Journal, Known, Routable, RepliesOk, Tickets, ReplyTickets, PendingOk, RecordsOf, CommandsOf;
    var journal := Journal(setup, l.applied);
    PendingLess(journal, l.applied, l.completed, l.pending);
    JournalSequence(setup, l.applied, l.completed);
    RepliesComplete(setup.books.Keys, l, journal);
    ReplyTicketsMore(l.replies, AnswerAt(journal, l.applied, l.completed));
  }

  lemma DurableGrows(base: seq<W.Segment>, w: W.Writer, completed: nat, w': W.Writer)
    requires DurableOk(base, w, completed) && w.submitted <= w'.submitted && W.Durable(w'.disk) >= W.Durable(w.disk)
    ensures DurableOk(base, w', completed)
  {
    hide W.Keep, W.Logged, W.Durable;
    forall k | 0 <= k < completed ensures W.OnDisk(|W.Logged(base)|, W.Durable(w'.disk), w'.submitted, k) {
      assert w'.submitted[..k + 1] == w.submitted[..k + 1];
      assert W.OnDisk(|W.Logged(base)|, W.Durable(w.disk), w.submitted, k);
    }
  }

  lemma ExitKeeps(setup: Setup, l: Loop, submitted: seq<Record>, failed: bool)
    requires LoopOk(setup, l, submitted) && (l.control.Leaving? || l.control.Closing?) && (l.failed ==> failed)
    ensures LoopOk(setup, l.(control := Exited, failed := failed), submitted)
  {
    hide BooksOk, Journal, MarkOk, PendingOk, Known, Routable, Tickets, ReplyTickets, PendingTickets, Answered, Refused;
  }

  lemma ControlFacts(setup: Setup, l: Loop, submitted: seq<Record>)
    requires LoopOk(setup, l, submitted)
    ensures l.control.Asking? || l.control.Flushing? ==> !l.failed
    ensures l.control.Leaving? || l.control.Closing? ==> l.inbox == [] && l.inboxClosed && l.pending == []
  {
  }

  /** The rest of the loop's steps. */
  lemma OtherKeeps(setup: Setup, s: Shard, a: Action)
    requires LoopOk(setup, s.loop, s.writer.submitted) && Enabled(setup, s, a)
    requires !a.Receive? && !a.Complete? && !a.Send?
    ensures LoopOk(setup, LoopNext(setup, s, a), s.writer.submitted)
  {
    hide LoopOk;
    var l, submitted := s.loop, s.writer.submitted;
    var l' := LoopNext(setup, s, a);
    ControlFacts(setup, l, submitted);
    match a {
      case FlushReturns =>
        if s.writer.failed {
          FailAnswerKeeps(setup, l, submitted, l.control.waiter);
        } else {
          ControlKeeps(setup, l, submitted, l'.control);
        }
      case FlushTimesOut => FailAnswerKeeps(setup, l, submitted, l.control.waiter);
      case WriterStep(_) =>
      case ShutdownReturns => ExitKeeps(setup, l, submitted, l'.failed);
      case ShutdownTimesOut => ExitKeeps(setup, l, submitted, l'.failed);
      case _ =>
        ControlKeeps(setup, l, submitted, l'.control);
        InboxKeeps(setup, l.(control := l'.control), submitted, l'.answer, l.inbox, l'.nextToken);
    }
  }

  lemma FlushReturnsCovered(setup: Setup, s: Shard)
    requires W.Inv(setup.cfg, setup.base, s.writer) && FlushOk(s.loop, s.writer) && Enabled(setup, s, FlushReturns)
    ensures s.writer.failed || W.Covered(|s.writer.submitted|, s.writer.acks)
  {
    hide W.DiskOk, W.Working, W.Sent, W.QueueOk, W.AcksOk, W.Logged, W.Keep;
  }

  lemma FlushStepKeeps(setup: Setup, s: Shard, a: Action)
    requires Inv(setup, s) && Enabled(setup, s, a)
    ensures FlushOk(LoopNext(setup, s, a), WriterNext(setup, s, a))
  {
    hide LoopOk, W.Inv, DurableOk, ApplyTo, RecordOf, Errors, UnknownSymbol, W.Next, W.Enabled;
    if a.FlushReturns? {
      FlushReturnsCovered(setup, s);
    } else if a.WriterStep? {
      W.StepGrows(setup.cfg, setup.base, s.writer, a.action);
      W.StepAcks(setup.cfg, s.writer, a.action);
    }
  }

  /** Every step of loop, writer, timer or failing disk keeps the invariant. */
  lemma StepKeeps(setup: Setup, s: Shard, a: Action)
    requires W.Framed(setup.cfg) && Inv(setup, s) && Enabled(setup, s, a)
    ensures Inv(setup, Next(setup, s, a))
  {
    hide FlushOk, LoopOk, W.Inv, W.Framed, W.Durable, W.OnDisk, W.Logged, CompleteNext, Errors, ApplyTo, RecordOf;
    FlushStepKeeps(setup, s, a);
    var l, w := s.loop, s.writer;
    match a {
      case Receive => ReceiveKeeps(setup, s);
      case Complete => CompleteStepKeeps(setup, s);
      case Send(accepted) =>
        if accepted {
          SendStepKeeps(setup, s);
        } else {
          RefuseKeeps(setup, l, w.submitted);
        }
      case SendFlush =>
        OtherKeeps(setup, s, a);
        FreshToken(s);
        W.AskKeeps(setup.cfg, setup.base, w, W.FlushReq(l.nextToken));
      case SendShutdown =>
        OtherKeeps(setup, s, a);
        FreshToken(s);
        W.AskKeeps(setup.cfg, setup.base, w, W.ShutdownReq(l.nextToken));
      case WriterStep(b) =>
        W.StepKeeps(setup.cfg, setup.base, w, b);
        DurableGrows(setup.base, w, l.completed, W.Next(setup.cfg, w, b));
      case _ => OtherKeeps(setup, s, a);
    }
  }

  lemma FreshToken(s: Shard)
    requires FlushOk(s.loop, s.writer)
    ensures s.loop.nextToken !in s.writer.asked
  {
  }

  lemma CompleteStepKeeps(setup: Setup, s: Shard)
    requires Inv(setup, s) && Enabled(setup, s, Complete)
    ensures Inv(setup, Next(setup, s, Complete))
  {
    hide FlushOk, LoopOk, W.OnDisk, W.Working, W.DiskOk, W.Sent, W.QueueOk;
    FlushStepKeeps(setup, s, Complete);
    var l, w := s.loop, s.writer;
    CompleteKeeps(setup, l, w.submitted);
    if !w.acks[l.pending[0].ack] {
      FailKeeps(setup, l, w.submitted, l.control);
    }
  }

  lemma SendStepKeeps(setup: Setup, s: Shard)
    requires Inv(setup, s) && Enabled(setup, s, Send(true))
    ensures Inv(setup, Next(setup, s, Send(true)))
  {
    hide FlushOk, LoopOk, W.Inv, W.OnDisk;
    FlushStepKeeps(setup, s, Send(true));
    SendKeeps(setup, s.loop, s.writer.submitted);
    SendingRecord(setup, s.loop, s.writer.submitted);
    W.SubmitKeeps(setup.cfg, setup.base, s.writer, s.loop.control.record);
    DurableGrows(setup.base, s.writer, s.loop.completed, W.Submit(s.writer, s.loop.control.record));
  }
}
