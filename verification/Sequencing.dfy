/** The sequencer in front of the shards (internal/ingress/sequencer.go), as a machine whose steps are
    those of the clients, the sequencer's own loop and the shards. */
module Sequencing {
  import opened Model
  import opened PriceTimeBook
  import opened Replay
  import opened ShardLoop
  import W = GroupCommit

  type Router = Symbol -> Option<nat>

  /** A barrier or drain is known by its id. */
  datatype Request =
    | CommandReq(command: Command, ticket: nat)
    | FlushReq(id: nat, waiter: Waiter)
    | ShutdownReq

  /** Where the sequencer's loop stands: in front of its queue; asking one shard after the other to
      flush; holding a drain; closing the inboxes; gone. */
  datatype Mode =
    | Ready
    | Polling(id: nat, waiter: Waiter, at: nat, sent: bool, ok: bool)
    | Holding(drain: nat, ok: bool)
    | Shutting(at: nat)
    | Finished

  /** What handling commands produces: the next sequence number, the commands routed with their
      numbers, and the replies for those that are not routed. */
  datatype Output = Output(next: uint64, routed: seq<Arrival>, replies: seq<Reply>)

  /** The last two fields are bookkeeping: all requests ever queued, and for each flush that reported
      success how many commands had been routed by then. */
  datatype Sequencer = Sequencer(
    queue: seq<Request>,
    closed: bool,
    shutdownSent: bool,
    mode: Mode,
    out: Output,
    results: map<nat, bool>,
    released: set<nat>,
    log: seq<Request>,
    vouched: map<nat, nat>)

  datatype State = State(sequencer: Sequencer, shards: seq<Shard>)

  datatype World = World(route: Router, first: uint64, setups: seq<Setup>)

  /** Symbols are routed to the shard that has their book. */
  ghost predicate Routes(world: World) {
    && (forall symbol :: world.route(symbol).Some? ==>
          world.route(symbol).value < |world.setups| && symbol in world.setups[world.route(symbol).value].books)
  }

  function StartShards(setups: seq<Setup>): (shards: seq<Shard>)
    ensures |shards| == |setups| && forall j :: 0 <= j < |setups| ==> shards[j] == ShardLoop.Start(setups[j])
  {
    seq(|setups|, j requires 0 <= j < |setups| => ShardLoop.Start(setups[j]))
  }

  function Start(world: World): State {
    State(Sequencer([], false, false, Ready, Output(world.first, [], []), map[], {}, [], map[]), StartShards(world.setups))
  }

  function Unrouted(c: Command): Result {
    Result(0, [Rejected(c.orderId, REJECT_INVALID_SYMBOL)])
  }

  function Handle(route: Router, o: Output, c: Command, ticket: nat): Output {
    if route(c.symbol).None? then o.(replies := o.replies + [Reply(ticket, Done(Unrouted(c)))])
    else if o.next == 0 then o.(replies := o.replies + [Reply(ticket, Error)])
    else o.(next := Succ64(o.next), routed := o.routed + [Arrival(c.(sequence := o.next), ticket)])
  }

  datatype Action =
    | Submit(command: Command)
    | AskFlush(drain: bool)
    | MarkClosed
    | AskShutdown
    | ReleaseDrain(id: nat)
    | Take
    | SendFlush
    | HearAnswer
    | Report
    | Resume
    | CloseOne
    | ShardStep(shard: nat, action: ShardLoop.Action)

  predicate Enabled(world: World, s: State, a: Action) {
    var q := s.sequencer;
    match a
    case Submit(_) => !q.closed
    case AskFlush(_) => !q.closed
    case MarkClosed => !q.closed
    case AskShutdown => q.closed && !q.shutdownSent
    case ReleaseDrain(id) => id < |q.log|
    case Take => q.mode.Ready? && q.queue != [] && |s.shards| == |world.setups|
                 && (q.queue[0].CommandReq? && world.route(q.queue[0].command.symbol).Some? ==>
                       world.route(q.queue[0].command.symbol).value < |s.shards|)
    case SendFlush => q.mode.Polling? && q.mode.at < |s.shards| && !q.mode.sent
    case HearAnswer => q.mode.Polling? && q.mode.at < |s.shards| && q.mode.sent && s.shards[q.mode.at].loop.answer.Some?
    case Report => q.mode.Polling? && q.mode.at == |s.shards|
    case Resume => q.mode.Holding? && q.mode.drain in q.released
    case CloseOne => q.mode.Shutting? && q.mode.at <= |s.shards|
    case ShardStep(j, b) =>
      && j < |s.shards| == |world.setups| && ShardLoop.Enabled(world.setups[j], s.shards[j], b)
      && (b.Release? ==> s.shards[j].loop.control.Paused? && s.shards[j].loop.control.drain in q.released)
  }

  function Enqueue(q: Sequencer, r: Request): Sequencer {
    q.(queue := q.queue + [r], log := q.log + [r])
  }

  /** Tickets and ids are positions in the log of requests, so no two are the same. */
  function NewFlush(q: Sequencer, drain: bool): Request {
    FlushReq(|q.log|, if drain then ForDrain(|q.log|) else ForBarrier)
  }

  function TakeCommand(world: World, s: State, c: Command, ticket: nat): State
    requires s.sequencer.queue != []
    requires world.route(c.symbol).Some? ==> world.route(c.symbol).value < |s.shards|
  {
    var q := s.sequencer;
    var out := Handle(world.route, q.out, c, ticket);
    var s1 := s.(sequencer := q.(queue := q.queue[1..], out := out));
    if world.route(c.symbol).None? || q.out.next == 0 then s1
    else
      var j := world.route(c.symbol).value;
      s1.(shards := s.shards[j := Push(s.shards[j], CommandMsg(c.(sequence := q.out.next), ticket))])
  }

  function TakeNext(world: World, s: State): State
    requires Enabled(world, s, Take)
  {
    var q := s.sequencer;
    match q.queue[0]
    case CommandReq(c, ticket) => TakeCommand(world, s, c, ticket)
    case FlushReq(id, waiter) => s.(sequencer := q.(queue := q.queue[1..], mode := Polling(id, waiter, 0, false, true)))
    case ShutdownReq => s.(sequencer := q.(queue := q.queue[1..], mode := Shutting(0)))
  }

  function ReportResult(q: Sequencer): Sequencer
    requires q.mode.Polling?
  {
    var m := q.mode;
    q.(results := q.results[m.id := m.ok],
       vouched := if m.ok then q.vouched[m.id := |q.out.routed|] else q.vouched,
       mode := if m.waiter.ForDrain? then Holding(m.waiter.drain, m.ok) else Ready)
  }

  function Next(world: World, s: State, a: Action): State
    requires Enabled(world, s, a)
  {
    var q := s.sequencer;
    match a
    case Submit(c) => s.(sequencer := Enqueue(q, CommandReq(c, |q.log|)))
    case AskFlush(drain) => s.(sequencer := Enqueue(q, NewFlush(q, drain)))
    case MarkClosed => s.(sequencer := q.(closed := true))
    case AskShutdown => s.(sequencer := Enqueue(q, ShutdownReq).(shutdownSent := true))
    case ReleaseDrain(id) => s.(sequencer := q.(released := q.released + {id}))
    case Take => TakeNext(world, s)
    case SendFlush =>
      var j := q.mode.at;
      State(q.(mode := q.mode.(sent := true)), s.shards[j := Push(s.shards[j], FlushMsg(q.mode.waiter))])
    case HearAnswer =>
      var j := q.mode.at;
      State(q.(mode := q.mode.(sent := false, at := j + 1, ok := q.mode.ok && s.shards[j].loop.answer.value)),
            s.shards[j := TakeAnswer(s.shards[j])])
    case Report => s.(sequencer := ReportResult(q))
    case Resume => s.(sequencer := q.(mode := Ready))
    case CloseOne =>
      var j := q.mode.at;
      if j == |s.shards| then s.(sequencer := q.(mode := Finished))
      else State(q.(mode := Shutting(j + 1)), s.shards[j := CloseInbox(s.shards[j])])
    case ShardStep(j, b) => s.(shards := s.shards[j := ShardLoop.Next(world.setups[j], s.shards[j], b)])
  }

  // ---- Requests ----

  /** Handling all command requests of a log, in order. */
  function Process(route: Router, first: uint64, log: seq<Request>): Output {
    if log == [] then Output(first, [], [])
    else
      var n := |log| - 1;
      var o := Process(route, first, log[..n]);
      if log[n].CommandReq? then Handle(route, o, log[n].command, log[n].ticket) else o
  }

  lemma ProcessNext(route: Router, first: uint64, log: seq<Request>, n: nat)
    requires n < |log|
    ensures Process(route, first, log[..n + 1]) ==
            var o := Process(route, first, log[..n]);
            if log[n].CommandReq? then Handle(route, o, log[n].command, log[n].ticket) else o
  {
    assert log[..n + 1][..n] == log[..n];
  }

  /** The queue is the end of the log, and what the sequencer has done is what handling the rest does. */
  ghost predicate QueueOk(world: World, queue: seq<Request>, log: seq<Request>, out: Output) {
    && |queue| <= |log| && queue == log[|log| - |queue|..]
    && out == Process(world.route, world.first, log[..|log| - |queue|])
  }

  /** Tickets and flush ids are positions in the log. */
  ghost predicate Numbered(log: seq<Request>) {
    forall i :: 0 <= i < |log| ==>
      match log[i]
      case CommandReq(_, ticket) => ticket == i
      case FlushReq(id, waiter) => id == i && (waiter.ForDrain? ==> waiter.drain == i)
      case ShutdownReq => i == |log| - 1
  }

  predicate Ending(m: Mode) {
    m.Shutting? || m.Finished?
  }

  /** The shutdown request is the last one ever queued. */
  ghost predicate ShutdownOk(q: Sequencer) {
    && (q.shutdownSent ==> q.closed && q.log != [] && q.log[|q.log| - 1].ShutdownReq?)
    && (!q.shutdownSent ==> !Ending(q.mode) && forall i :: 0 <= i < |q.log| ==> !q.log[i].ShutdownReq?)
    && (Ending(q.mode) ==> q.queue == [])
    && (q.shutdownSent && !Ending(q.mode) ==> q.queue != [])
  }

  // ---- What a shard was sent ----

  function CommandsIn(inbox: seq<Message>): seq<Arrival> {
    if inbox == [] then []
    else (if inbox[0].CommandMsg? then [Arrival(inbox[0].command, inbox[0].ticket)] else []) + CommandsIn(inbox[1..])
  }

  /** The commands routed to one shard. */
  function RoutedTo(route: Router, xs: seq<Arrival>, j: nat): seq<Arrival> {
    if xs == [] then []
    else
      var n := |xs| - 1;
      RoutedTo(route, xs[..n], j) + if route(xs[n].command.symbol) == Some(j) then [xs[n]] else []
  }

  ghost predicate Fed(route: Router, routed: seq<Arrival>, j: nat, l: Loop) {
    l.arrived + CommandsIn(l.inbox) == RoutedTo(route, routed, j)
  }

  // ---- The part of a shard in a flush ----

  predicate Serving(c: Control) {
    c.Asking? || c.Flushing? || c.Completing?
  }

  ghost predicate NoFlush(inbox: seq<Message>) {
    forall i :: 0 <= i < |inbox| ==> inbox[i].CommandMsg?
  }

  ghost predicate HeldOnly(c: Control, released: set<nat>) {
    c.Paused? ==> c.drain in released
  }

  /** No flush concerns the shard. */
  ghost predicate Free(l: Loop, released: set<nat>) {
    NoFlush(l.inbox) && l.answer == None && !Serving(l.control) && HeldOnly(l.control, released)
  }

  /** Nothing is left to do, nothing failed, and a drain not yet released holds the shard. */
  ghost predicate Calm(l: Loop, waiter: Waiter, released: set<nat>) {
    && l.inbox == [] && !l.inboxClosed && l.pending == [] && !l.failed
    && (l.control.Running? || l.control.Paused?)
    && (waiter.ForDrain? && waiter.drain !in released ==> l.control == Paused(waiter.drain))
  }

  /** The shard has answered. */
  ghost predicate Past(l: Loop, waiter: Waiter, ok: bool, released: set<nat>) {
    && NoFlush(l.inbox) && !Serving(l.control)
    && (l.control.Paused? && !waiter.ForDrain? ==> l.control.drain in released)
    && (l.control.Paused? && waiter.ForDrain? ==> l.control.drain == waiter.drain || l.control.drain in released)
    && (ok ==> Calm(l, waiter, released))
  }

  ghost predicate InFlush(l: Loop, waiter: Waiter, released: set<nat>) {
    && !l.inboxClosed
    && (if l.answer.Some? then Past(l, waiter, l.answer.value, released)
        else if Serving(l.control) then l.control.waiter == waiter && l.inbox == []
        else
          && l.inbox != [] && l.inbox[|l.inbox| - 1] == FlushMsg(waiter) && NoFlush(l.inbox[..|l.inbox| - 1])
          && HeldOnly(l.control, released))
  }

  ghost predicate PartOk(mode: Mode, released: set<nat>, j: nat, l: Loop) {
    && (l.inboxClosed ==> mode.Finished? || (mode.Shutting? && j < mode.at))
    && (mode.Finished? || (mode.Shutting? && j < mode.at) ==> l.inboxClosed)
    && match mode
       case Polling(_, waiter, at, sent, ok) =>
         if j < at then l.answer == None && Past(l, waiter, ok, released)
         else if j == at && sent then InFlush(l, waiter, released)
         else Free(l, released)
       case Holding(drain, ok) => l.answer == None && Past(l, ForDrain(drain), ok, released)
       case _ => Free(l, released)
  }

  /** A flush that reported success vouches for every command routed before. */
  ghost predicate VouchedOk(route: Router, q: Sequencer, j: nat, completed: nat) {
    forall id :: id in q.vouched ==>
      && q.vouched[id] <= |q.out.routed|
      && |RoutedTo(route, q.out.routed[..q.vouched[id]], j)| <= completed
  }

  ghost predicate ShardOk(world: World, q: Sequencer, j: nat, s: Shard)
    requires j < |world.setups|
  {
    && ShardLoop.Inv(world.setups[j], s)
    && Fed(world.route, q.out.routed, j, s.loop)
    && PartOk(q.mode, q.released, j, s.loop)
    && VouchedOk(world.route, q, j, s.loop.completed)
  }

  /** The flush in progress, or the drain being held, is the last request taken. */
  ghost predicate PollOk(mode: Mode, queue: seq<Request>, log: seq<Request>) {
    && (mode.Polling? ==> mode.id + |queue| + 1 == |log| && log[mode.id] == FlushReq(mode.id, mode.waiter))
    && (mode.Holding? ==> mode.drain + |queue| + 1 == |log| && log[mode.drain].FlushReq?)
  }

  /** Success is reported only for flushes, and vouches for exactly the commands requested before. */
  ghost predicate ReportsOk(world: World, q: Sequencer) {
    && (forall id :: id in q.results && q.results[id] ==> id in q.vouched)
    && (q.mode.Holding? && q.mode.ok ==> q.mode.drain in q.results && q.results[q.mode.drain])
    && (forall id :: id in q.vouched ==>
          && id < |q.log| && q.log[id].FlushReq?
          && q.vouched[id] == |Process(world.route, world.first, q.log[..id]).routed|)
  }

  ghost predicate SequencerOk(world: World, q: Sequencer) {
    && QueueOk(world, q.queue, q.log, q.out) && Numbered(q.log) && ShutdownOk(q)
    && PollOk(q.mode, q.queue, q.log) && ReportsOk(world, q)
    && (q.mode.Polling? ==> q.mode.at <= |world.setups|)
    && (q.mode.Shutting? ==> q.mode.at <= |world.setups|)
  }

  ghost predicate Inv(world: World, s: State) {
    && SequencerOk(world, s.sequencer)
    && |s.shards| == |world.setups|
    && forall j :: 0 <= j < |s.shards| ==> ShardOk(world, s.sequencer, j, s.shards[j])
  }

  // ---- Steps of a shard ----

  lemma FedStep(route: Router, routed: seq<Arrival>, j: nat, setup: Setup, s: Shard, a: ShardLoop.Action)
    requires Fed(route, routed, j, s.loop) && ShardLoop.Enabled(setup, s, a)
    ensures Fed(route, routed, j, ShardLoop.LoopNext(setup, s, a))
  {
    hide ApplyTo, RecordOf, UnknownSymbol, Errors, W.Enabled, RoutedTo;
    var l, l' := s.loop, ShardLoop.LoopNext(setup, s, a);
    if a.Receive? && l.inbox[0].CommandMsg? {
      var x := Arrival(l.inbox[0].command, l.inbox[0].ticket);
      assert l'.arrived == l.arrived + [x] && l'.inbox == l.inbox[1..];
      assert (l.arrived + [x]) + CommandsIn(l'.inbox) == l.arrived + ([x] + CommandsIn(l'.inbox));
    } else if a.Receive? {
      assert [] + CommandsIn(l.inbox[1..]) == CommandsIn(l.inbox[1..]);
    }
  }

  lemma CompletedGrows(setup: Setup, s: Shard, a: ShardLoop.Action)
    requires ShardLoop.Enabled(setup, s, a)
    ensures ShardLoop.LoopNext(setup, s, a).completed >= s.loop.completed
    ensures ShardLoop.LoopNext(setup, s, a).inboxClosed == s.loop.inboxClosed
  {
    hide ApplyTo, RecordOf, UnknownSymbol, Errors, W.Enabled;
  }

  lemma FreeStep(setup: Setup, s: Shard, a: ShardLoop.Action, released: set<nat>)
    requires ShardLoop.Enabled(setup, s, a) && Free(s.loop, released)
    ensures Free(ShardLoop.LoopNext(setup, s, a), released)
  {
    hide ApplyTo, RecordOf, UnknownSymbol, Errors, W.Enabled;
  }

  lemma PastStep(setup: Setup, s: Shard, a: ShardLoop.Action, waiter: Waiter, ok: bool, released: set<nat>)
    requires ShardLoop.Enabled(setup, s, a) && Past(s.loop, waiter, ok, released)
    requires a.Release? ==> s.loop.control.drain in released
    ensures Past(ShardLoop.LoopNext(setup, s, a), waiter, ok, released)
    ensures ShardLoop.LoopNext(setup, s, a).answer == s.loop.answer
  {
    hide ApplyTo, RecordOf, UnknownSymbol, Errors, W.Enabled;
  }

  /** The flush request is still in the inbox. */
  lemma WaitingStep(setup: Setup, s: Shard, a: ShardLoop.Action, waiter: Waiter, released: set<nat>)
    requires ShardLoop.Enabled(setup, s, a) && InFlush(s.loop, waiter, released)
    requires s.loop.answer.None? && !Serving(s.loop.control)
    ensures InFlush(ShardLoop.LoopNext(setup, s, a), waiter, released)
  {
    hide ApplyTo, RecordOf, UnknownSymbol, Errors, W.Enabled, NoFlush;
    WaitingInbox(s.loop.inbox, waiter);
  }

  /** Without its first message the inbox still ends in the flush request, or is empty. */
  lemma WaitingInbox(inbox: seq<Message>, waiter: Waiter)
    requires inbox != [] && inbox[|inbox| - 1] == FlushMsg(waiter) && NoFlush(inbox[..|inbox| - 1])
    ensures |inbox| == 1 ==> inbox[0] == FlushMsg(waiter) && inbox[1..] == [] && NoFlush(inbox[1..])
    ensures |inbox| > 1 ==>
              var rest := inbox[1..];
              inbox[0].CommandMsg? && rest != [] && rest[|rest| - 1] == FlushMsg(waiter) && NoFlush(rest[..|rest| - 1])
  {
    if |inbox| > 1 {
      var front, rest := inbox[..|inbox| - 1], inbox[1..];
      assert inbox[0] == front[0];
      var middle := rest[..|rest| - 1];
      forall i | 0 <= i < |middle| ensures middle[i].CommandMsg? {
        assert middle[i] == front[i + 1];
      }
    }
  }

  /** The loop is at the flush. */
  lemma ServingStep(setup: Setup, s: Shard, a: ShardLoop.Action, waiter: Waiter, released: set<nat>)
    requires ShardLoop.Enabled(setup, s, a) && InFlush(s.loop, waiter, released)
    requires s.loop.answer.None? && Serving(s.loop.control)
    ensures InFlush(ShardLoop.LoopNext(setup, s, a), waiter, released)
  {
    hide ApplyTo, RecordOf, UnknownSymbol, Errors, W.Enabled, ShardLoop.Enqueue, FlushPending;
  }

  lemma InFlushStep(setup: Setup, s: Shard, a: ShardLoop.Action, waiter: Waiter, released: set<nat>)
    requires ShardLoop.Enabled(setup, s, a) && InFlush(s.loop, waiter, released)
    requires a.Release? ==> s.loop.control.drain in released
    ensures InFlush(ShardLoop.LoopNext(setup, s, a), waiter, released)
  {
    hide ShardLoop.LoopNext, Past;
    if s.loop.answer.Some? {
      CompletedGrows(setup, s, a);
      PastStep(setup, s, a, waiter, s.loop.answer.value, released);
    } else if Serving(s.loop.control) {
      ServingStep(setup, s, a, waiter, released);
    } else {
      WaitingStep(setup, s, a, waiter, released);
    }
  }

  lemma PartStep(setup: Setup, s: Shard, a: ShardLoop.Action, mode: Mode, released: set<nat>, j: nat)
    requires ShardLoop.Enabled(setup, s, a) && PartOk(mode, released, j, s.loop)
    requires a.Release? ==> s.loop.control.drain in released
    ensures PartOk(mode, released, j, ShardLoop.LoopNext(setup, s, a))
  {
    hide ShardLoop.LoopNext, ShardLoop.Enabled, Past, InFlush, Free;
    CompletedGrows(setup, s, a);
    match mode {
      case Polling(_, waiter, at, sent, ok) =>
        if j < at {
          PastStep(setup, s, a, waiter, ok, released);
        } else if j == at && sent {
          InFlushStep(setup, s, a, waiter, released);
        } else {
          FreeStep(setup, s, a, released);
        }
      case Holding(drain, ok) => PastStep(setup, s, a, ForDrain(drain), ok, released);
      case _ => FreeStep(setup, s, a, released);
    }
  }

  lemma ShardStepOk(world: World, q: Sequencer, j: nat, s: Shard, a: ShardLoop.Action)
    requires j < |world.setups| && W.Framed(world.setups[j].cfg) && ShardOk(world, q, j, s)
    requires ShardLoop.Enabled(world.setups[j], s, a)
    requires a.Release? ==> s.loop.control.drain in q.released
    ensures ShardOk(world, q, j, ShardLoop.Next(world.setups[j], s, a))
  {
    hide ShardLoop.LoopNext, ShardLoop.Enabled, ShardLoop.Inv, Fed, PartOk, RoutedTo, W.Framed;
    var setup := world.setups[j];
    CompletedGrows(setup, s, a);
    ShardLoop.StepKeeps(setup, s, a);
    FedStep(world.route, q.out.routed, j, setup, s, a);
    PartStep(setup, s, a, q.mode, q.released, j);
  }

  // ---- Steps of the sequencer, seen from one shard ----

  lemma PushKeeps(setup: Setup, s: Shard, m: Message)
    requires ShardLoop.Inv(setup, s) && !s.loop.inboxClosed
    ensures ShardLoop.Inv(setup, Push(s, m))
  {
    hide W.Inv, LoopOk, DurableOk;
    InboxKeeps(setup, s.loop, s.writer.submitted, s.loop.answer, s.loop.inbox + [m], s.loop.nextToken);
  }

  lemma TakeAnswerKeeps(setup: Setup, s: Shard)
    requires ShardLoop.Inv(setup, s)
    ensures ShardLoop.Inv(setup, TakeAnswer(s))
  {
    hide W.Inv, LoopOk, DurableOk;
    InboxKeeps(setup, s.loop, s.writer.submitted, None, s.loop.inbox, s.loop.nextToken);
  }

  lemma CloseKeeps(setup: Setup, s: Shard)
    requires ShardLoop.Inv(setup, s)
    ensures ShardLoop.Inv(setup, CloseInbox(s))
  {
    hide W.Inv, BooksOk, Journal, MarkOk, PendingOk, ArrivedOk, TicketsOk, Routable, RepliesOk, DurableOk;
  }

  lemma {:induction false} CommandsInMore(inbox: seq<Message>, m: Message)
    ensures CommandsIn(inbox + [m]) == CommandsIn(inbox) + if m.CommandMsg? then [Arrival(m.command, m.ticket)] else []
    decreases |inbox|
  {
    if inbox == [] {
      assert inbox + [m] == [m] && [m][1..] == [];
    } else {
      var first := if inbox[0].CommandMsg? then [Arrival(inbox[0].command, inbox[0].ticket)] else [];
      assert (inbox + [m])[0] == inbox[0] && (inbox + [m])[1..] == inbox[1..] + [m];
      CommandsInMore(inbox[1..], m);
      var last := if m.CommandMsg? then [Arrival(m.command, m.ticket)] else [];
      assert CommandsIn(inbox + [m]) == first + CommandsIn(inbox[1..] + [m]);
      assert first + (CommandsIn(inbox[1..]) + last) == (first + CommandsIn(inbox[1..])) + last;
    }
  }

  lemma RoutedToMore(route: Router, xs: seq<Arrival>, x: Arrival, j: nat)
    ensures RoutedTo(route, xs + [x], j) == RoutedTo(route, xs, j) + if route(x.command.symbol) == Some(j) then [x] else []
  {
    assert (xs + [x])[..|xs|] == xs;
  }

  lemma VouchedMore(route: Router, q: Sequencer, q': Sequencer, j: nat, completed: nat)
    requires VouchedOk(route, q, j, completed) && q'.vouched == q.vouched && q.out.routed <= q'.out.routed
    ensures VouchedOk(route, q', j, completed)
  {
    forall id | id in q.vouched ensures |RoutedTo(route, q'.out.routed[..q.vouched[id]], j)| <= completed {
      assert q'.out.routed[..q.vouched[id]] == q.out.routed[..q.vouched[id]];
    }
  }

  /** A routed command reaches the inbox of its shard and no other. */
  lemma RouteOk(world: World, q: Sequencer, q': Sequencer, j: nat, s: Shard, x: Arrival)
    requires j < |world.setups| && ShardOk(world, q, j, s) && q.mode.Ready? && q'.mode == q.mode
    requires q'.vouched == q.vouched && q'.released == q.released && q'.out.routed == q.out.routed + [x]
    ensures ShardOk(world, q', j, if world.route(x.command.symbol) == Some(j) then Push(s, CommandMsg(x.command, x.ticket)) else s)
  {
    hide ShardLoop.Inv, RoutedTo, VouchedOk, CommandsIn;
    RoutedToMore(world.route, q.out.routed, x, j);
    CommandsInMore(s.loop.inbox, CommandMsg(x.command, x.ticket));
    VouchedMore(world.route, q, q', j, s.loop.completed);
    if world.route(x.command.symbol) == Some(j) {
      PushKeeps(world.setups[j], s, CommandMsg(x.command, x.ticket));
      assert (s.loop.arrived + CommandsIn(s.loop.inbox)) + [x] == s.loop.arrived + (CommandsIn(s.loop.inbox) + [x]);
    } else {
      assert RoutedTo(world.route, q.out.routed, j) + [] == RoutedTo(world.route, q.out.routed, j);
    }
  }

  /** A change of mode that fits what the shard is doing. */
  lemma ModeOk(world: World, q: Sequencer, q': Sequencer, j: nat, s: Shard)
    requires j < |world.setups| && ShardOk(world, q, j, s) && q'.out == q.out && q'.vouched == q.vouched
    requires PartOk(q'.mode, q'.released, j, s.loop)
    ensures ShardOk(world, q', j, s)
  {
    hide ShardLoop.Inv, RoutedTo, PartOk;
  }

  lemma ReleaseOk(mode: Mode, released: set<nat>, j: nat, l: Loop, id: nat)
    requires PartOk(mode, released, j, l)
    ensures PartOk(mode, released + {id}, j, l)
  {
    hide NoFlush;
  }

  lemma SendFlushOk(world: World, q: Sequencer, q': Sequencer, j: nat, s: Shard)
    requires j < |world.setups| && ShardOk(world, q, j, s) && q.mode.Polling? && !q.mode.sent
    requires q' == q.(mode := q.mode.(sent := true))
    ensures ShardOk(world, q', j, if j == q.mode.at then Push(s, FlushMsg(q.mode.waiter)) else s)
  {
    hide ShardLoop.Inv, RoutedTo, CommandsIn, Past;
    if j == q.mode.at {
      var m := FlushMsg(q.mode.waiter);
      PushKeeps(world.setups[j], s, m);
      CommandsInMore(s.loop.inbox, m);
      assert CommandsIn(s.loop.inbox) + [] == CommandsIn(s.loop.inbox);
      assert (s.loop.inbox + [m])[..|s.loop.inbox|] == s.loop.inbox;
    }
  }

  lemma HearOk(world: World, q: Sequencer, q': Sequencer, j: nat, s: Shard, v: bool)
    requires j < |world.setups| && ShardOk(world, q, j, s) && q.mode.Polling? && q.mode.sent
    requires j == q.mode.at ==> s.loop.answer == Some(v)
    requires q' == q.(mode := q.mode.(sent := false, at := q.mode.at + 1, ok := q.mode.ok && v))
    ensures ShardOk(world, q', j, if j == q.mode.at then TakeAnswer(s) else s)
  {
    hide ShardLoop.Inv, RoutedTo, CommandsIn, NoFlush;
    if j == q.mode.at {
      TakeAnswerKeeps(world.setups[j], s);
    }
  }

  lemma CloseOk(world: World, q: Sequencer, q': Sequencer, j: nat, s: Shard)
    requires j < |world.setups| && ShardOk(world, q, j, s) && q.mode.Shutting?
    requires q' == q.(mode := if q.mode.at == |world.setups| then Finished else Shutting(q.mode.at + 1))
    requires q.mode.at <= |world.setups|
    ensures ShardOk(world, q', j, if j == q.mode.at then CloseInbox(s) else s)
  {
    hide ShardLoop.Inv, RoutedTo, CommandsIn, NoFlush;
    if j == q.mode.at {
      CloseKeeps(world.setups[j], s);
    }
  }

  // ---- A shard at rest ----

  lemma {:induction false} RoutedSymbols(route: Router, xs: seq<Arrival>, j: nat)
    ensures forall x :: x in RoutedTo(route, xs, j) ==> route(x.command.symbol) == Some(j)
    ensures |RoutedTo(route, xs, j)| <= |xs|
  {
    if xs != [] {
      RoutedSymbols(route, xs[..|xs| - 1], j);
    }
  }

  lemma {:induction false} KnownAll(symbols: set<Symbol>, xs: seq<Arrival>)
    requires forall x :: x in xs ==> x.command.symbol in symbols
    ensures Known(symbols, xs) == xs
  {
    if xs != [] {
      var n := |xs| - 1;
      KnownAll(symbols, xs[..n]);
      assert xs == xs[..n] + [xs[n]];
    }
  }

  /** Commands sent by the sequencer are for symbols of the shard. */
  lemma ArrivedKnown(world: World, q: Sequencer, j: nat, s: Shard)
    requires Routes(world) && j < |world.setups| && ShardOk(world, q, j, s)
    ensures forall x :: x in s.loop.arrived ==> x.command.symbol in world.setups[j].books
    ensures Known(world.setups[j].books.Keys, s.loop.arrived) == s.loop.arrived <= RoutedTo(world.route, q.out.routed, j)
  {
    hide ShardLoop.Inv, VouchedOk, PartOk, RoutedTo, CommandsIn, Known;
    var all := RoutedTo(world.route, q.out.routed, j);
    RoutedSymbols(world.route, q.out.routed, j);
    forall x | x in s.loop.arrived ensures x.command.symbol in world.setups[j].books {
      assert x in s.loop.arrived + CommandsIn(s.loop.inbox);
    }
    KnownAll(world.setups[j].books.Keys, s.loop.arrived);
  }

  lemma RestingCounts(setup: Setup, s: Shard)
    requires ShardLoop.Inv(setup, s) && s.loop.pending == [] && !s.loop.failed && !s.loop.control.Sending?
    ensures s.loop.completed == |s.loop.applied| && s.loop.applied == Known(setup.books.Keys, s.loop.arrived)
  {
    hide W.Inv, DurableOk, FlushOk, BooksOk, RepliesOk, TicketsOk, Known;
  }

  /** A calm shard has completed exactly the commands routed to it. */
  lemma CalmComplete(world: World, q: Sequencer, j: nat, s: Shard, waiter: Waiter)
    requires Routes(world) && j < |world.setups| && ShardOk(world, q, j, s) && Calm(s.loop, waiter, q.released)
    ensures s.loop.applied == s.loop.arrived == RoutedTo(world.route, q.out.routed, j)
    ensures s.loop.completed == |s.loop.applied|
  {
    hide ShardLoop.Inv, VouchedOk, PartOk, RoutedTo, Known, Routes;
    RestingCounts(world.setups[j], s);
    ArrivedKnown(world, q, j, s);
    assert s.loop.arrived + [] == s.loop.arrived;
  }

  /** A flush that reports success may vouch for what was routed. */
  lemma ReportOk(world: World, q: Sequencer, j: nat, s: Shard)
    requires Routes(world) && j < |world.setups| && ShardOk(world, q, j, s)
    requires q.mode.Polling? && q.mode.at == |world.setups|
    ensures ShardOk(world, ReportResult(q), j, s)
  {
    hide ShardLoop.Inv, RoutedTo, CommandsIn, Known, Routes, NoFlush;
    if q.mode.ok {
      CalmComplete(world, q, j, s, q.mode.waiter);
      assert q.out.routed[..|q.out.routed|] == q.out.routed;
    }
  }

  lemma ReportsMore(world: World, q: Sequencer, q': Sequencer)
    requires ReportsOk(world, q) && q'.results == q.results && q'.vouched == q.vouched && q.log <= q'.log
    requires q'.mode.Holding? ==> q'.mode == q.mode
    ensures ReportsOk(world, q')
  {
    hide Process;
    forall id | id in q.vouched ensures q'.vouched[id] == |Process(world.route, world.first, q'.log[..id]).routed| {
      assert q'.log[..id] == q.log[..id];
    }
  }

  lemma ReportVouches(world: World, q: Sequencer)
    requires QueueOk(world, q.queue, q.log, q.out) && PollOk(q.mode, q.queue, q.log) && ReportsOk(world, q) && q.mode.Polling?
    requires Numbered(q.log)
    ensures ReportsOk(world, ReportResult(q))
    ensures PollOk(ReportResult(q).mode, q.queue, q.log)
  {
    hide Process;
    ProcessNext(world.route, world.first, q.log, q.mode.id);
  }

  // ---- All together ----

  ghost predicate Prepared(world: World) {
    Routes(world) && forall j :: 0 <= j < |world.setups| ==> W.Framed(world.setups[j].cfg)
  }

  /** A request at the end of queue and log. */
  lemma QueuedOk(world: World, q: Sequencer, r: Request)
    requires QueueOk(world, q.queue, q.log, q.out) && Numbered(q.log) && (forall i :: 0 <= i < |q.log| ==> !q.log[i].ShutdownReq?)
    requires match r
             case CommandReq(_, ticket) => ticket == |q.log|
             case FlushReq(id, waiter) => id == |q.log| && (waiter.ForDrain? ==> waiter.drain == |q.log|)
             case ShutdownReq => true
    ensures QueueOk(world, q.queue + [r], q.log + [r], q.out) && Numbered(q.log + [r])
  {
    hide Process;
    var n := |q.log| - |q.queue|;
    assert (q.log + [r])[..n] == q.log[..n] && (q.log + [r])[n..] == q.log[n..] + [r];
  }

  lemma ClientQueueOk(world: World, s: State, a: Action)
    requires SequencerOk(world, s.sequencer) && Enabled(world, s, a)
    requires a.Submit? || a.AskFlush? || a.MarkClosed? || a.AskShutdown? || a.ReleaseDrain?
    ensures SequencerOk(world, Next(world, s, a).sequencer)
  {
    hide Process, ReportsOk, QueueOk, Numbered;
    var q, q' := s.sequencer, Next(world, s, a).sequencer;
    ReportsMore(world, q, q');
    match a {
      case Submit(c) => QueuedOk(world, q, CommandReq(c, |q.log|));
      case AskFlush(drain) => QueuedOk(world, q, NewFlush(q, drain));
      case AskShutdown => QueuedOk(world, q, ShutdownReq);
      case _ =>
    }
  }

  lemma ClientStepKeeps(world: World, s: State, a: Action)
    requires Inv(world, s) && Enabled(world, s, a)
    requires a.Submit? || a.AskFlush? || a.MarkClosed? || a.AskShutdown? || a.ReleaseDrain?
    ensures Inv(world, Next(world, s, a))
  {
    hide ShardLoop.Inv, Fed, RoutedTo, PartOk, VouchedOk, SequencerOk;
    var q, q' := s.sequencer, Next(world, s, a).sequencer;
    ClientQueueOk(world, s, a);
    forall j | 0 <= j < |s.shards| ensures ShardOk(world, q', j, s.shards[j]) {
      assert ShardOk(world, q, j, s.shards[j]);
      if a.ReleaseDrain? {
        ReleaseOk(q.mode, q.released, j, s.shards[j].loop, a.id);
      }
      ModeOk(world, q, q', j, s.shards[j]);
    }
  }

  /** What the sequencer does next leaves the queue the end of the log. */
  lemma TakeQueue(world: World, q: Sequencer, out: Output)
    requires QueueOk(world, q.queue, q.log, q.out) && q.queue != []
    requires out == if q.queue[0].CommandReq? then Handle(world.route, q.out, q.queue[0].command, q.queue[0].ticket) else q.out
    ensures QueueOk(world, q.queue[1..], q.log, out)
  {
    hide Process, Handle;
    ProcessNext(world.route, world.first, q.log, |q.log| - |q.queue|);
  }

  lemma TakeCommandQueue(world: World, s: State)
    requires SequencerOk(world, s.sequencer) && Enabled(world, s, Take) && s.sequencer.queue[0].CommandReq?
    ensures SequencerOk(world, Next(world, s, Take).sequencer)
  {
    hide Process, QueueOk, ReportsOk;
    var q, q' := s.sequencer, Next(world, s, Take).sequencer;
    TakeQueue(world, q, q'.out);
    ReportsMore(world, q, q');
    LastOfQueue(world, q);
  }

  lemma TakeCommandKeeps(world: World, s: State)
    requires Inv(world, s) && Enabled(world, s, Take) && s.sequencer.queue[0].CommandReq?
    ensures Inv(world, Next(world, s, Take))
  {
    hide ShardLoop.Inv, Fed, RoutedTo, PartOk, SequencerOk, VouchedOk;
    var q, s' := s.sequencer, Next(world, s, Take);
    var q', c := s'.sequencer, q.queue[0].command;
    TakeCommandQueue(world, s);
    var x := Arrival(c.(sequence := q.out.next), q.queue[0].ticket);
    forall j | 0 <= j < |s.shards| ensures ShardOk(world, q', j, s'.shards[j]) {
      if world.route(c.symbol).None? || q.out.next == 0 {
        UnroutedOk(world, q, q', j, s.shards[j]);
      } else {
        RouteOk(world, q, q', j, s.shards[j], x);
      }
    }
  }

  lemma UnroutedOk(world: World, q: Sequencer, q': Sequencer, j: nat, s: Shard)
    requires j < |world.setups| && ShardOk(world, q, j, s) && q'.out.routed == q.out.routed && q'.vouched == q.vouched
    requires q'.mode == q.mode && q'.released == q.released
    ensures ShardOk(world, q', j, s)
  {
    hide ShardLoop.Inv, RoutedTo, PartOk, Fed;
  }

  lemma TakeOtherKeeps(world: World, s: State)
    requires Inv(world, s) && Enabled(world, s, Take) && !s.sequencer.queue[0].CommandReq?
    ensures Inv(world, Next(world, s, Take))
  {
    hide ShardLoop.Inv, Fed, RoutedTo, Process, QueueOk, VouchedOk, ReportsOk;
    var q, q' := s.sequencer, Next(world, s, Take).sequencer;
    TakeQueue(world, q, q.out);
    ReportsMore(world, q, q');
    LastOfQueue(world, q);
    forall j | 0 <= j < |s.shards| ensures ShardOk(world, q', j, s.shards[j]) {
      assert ShardOk(world, q, j, s.shards[j]);
      ModeOk(world, q, q', j, s.shards[j]);
    }
  }

  /** A shutdown request is alone in the queue when its turn comes. */
  lemma LastOfQueue(world: World, q: Sequencer)
    requires QueueOk(world, q.queue, q.log, q.out) && Numbered(q.log) && q.queue != []
    ensures |q.queue| <= |q.log| && (q.queue[0].ShutdownReq? ==> |q.queue| == 1)
    ensures q.queue[0] == q.log[|q.log| - |q.queue|] && q.queue[|q.queue| - 1] == q.log[|q.log| - 1]
  {
    hide Process;
  }

  lemma PollKeeps(world: World, s: State, a: Action)
    requires Prepared(world) && Inv(world, s) && Enabled(world, s, a)
    requires a.SendFlush? || a.HearAnswer? || a.Report? || a.Resume? || a.CloseOne?
    ensures Inv(world, Next(world, s, a))
  {
    hide ShardLoop.Inv, Fed, RoutedTo, Process, QueueOk, VouchedOk, Routes, PartOk, Numbered, ReportsOk;
    var q, s' := s.sequencer, Next(world, s, a);
    if a.Report? {
      ReportVouches(world, q);
    } else {
      ReportsMore(world, q, s'.sequencer);
    }
    forall j | 0 <= j < |s.shards| ensures ShardOk(world, s'.sequencer, j, s'.shards[j]) {
      assert ShardOk(world, q, j, s.shards[j]);
      match a {
        case SendFlush => SendFlushOk(world, q, s'.sequencer, j, s.shards[j]);
        case HearAnswer => HearOk(world, q, s'.sequencer, j, s.shards[j], s.shards[q.mode.at].loop.answer.value);
        case Report => ReportOk(world, q, j, s.shards[j]);
        case Resume => ResumeOk(world, q, j, s.shards[j]);
        case CloseOne => CloseOk(world, q, s'.sequencer, j, s.shards[j]);
      }
    }
  }

  lemma ResumeOk(world: World, q: Sequencer, j: nat, s: Shard)
    requires j < |world.setups| && ShardOk(world, q, j, s) && q.mode.Holding? && q.mode.drain in q.released
    ensures ShardOk(world, q.(mode := Ready), j, s)
  {
    hide ShardLoop.Inv, Fed, RoutedTo, NoFlush;
  }

  lemma ShardStepKeeps(world: World, s: State, j: nat, b: ShardLoop.Action)
    requires Prepared(world) && Inv(world, s) && Enabled(world, s, ShardStep(j, b))
    ensures Inv(world, Next(world, s, ShardStep(j, b)))
  {
    hide ShardOk, SequencerOk, ShardLoop.Enabled, ShardLoop.Next;
    ShardStepOk(world, s.sequencer, j, s.shards[j], b);
  }

  lemma StepKeeps(world: World, s: State, a: Action)
    requires Prepared(world) && Inv(world, s) && Enabled(world, s, a)
    ensures Inv(world, Next(world, s, a))
  {
    hide Inv, Next;
    match a {
      case Take =>
        if s.sequencer.queue[0].CommandReq? {
          TakeCommandKeeps(world, s);
        } else {
          TakeOtherKeeps(world, s);
        }
      case ShardStep(j, b) => ShardStepKeeps(world, s, j, b);
      case SendFlush => PollKeeps(world, s, a);
      case HearAnswer => PollKeeps(world, s, a);
      case Report => PollKeeps(world, s, a);
      case Resume => PollKeeps(world, s, a);
      case CloseOne => PollKeeps(world, s, a);
      case _ => ClientStepKeeps(world, s, a);
    }
  }
}
