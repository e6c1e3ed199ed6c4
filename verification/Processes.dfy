/** The parts of the shard loop, the log writer and the sequencer that run without waiting, as the
    objects that own the state. What they do is exactly a step, or a run of steps, of the machines in
    ShardLoop, GroupCommit and Sequencing. */
module Processes {
  import opened Model
  import opened Bytes
  import opened Codec
  import opened Replay
  import opened PriceTimeBook
  import opened Engine
  import opened Shelves
  import opened ShardLoop
  import W = GroupCommit
  import Q = Sequencing

  // ---- The shard loop (internal/shard/loop.go) ----

  /** Completing commands one after the other, with the acknowledgements that arrive for them. After an
      error nothing is pending and the loop ends. */
  function CompleteMany(l: Loop, acks: seq<bool>): Loop
    requires |acks| >= |l.pending|
    decreases |l.pending|
  {
    if l.pending == [] then l else CompleteMany(CompleteNext(l, acks[0]), acks[1..])
  }

  lemma {:induction false} ErrorsMore(ps: seq<Pending>, p: Pending)
    ensures Errors(ps + [p]) == Errors(ps) + [Reply(p.ticket, Error)]
  {
    if ps == [] {
      assert ps + [p] == [p] && [p][1..] == [];
    } else {
      assert (ps + [p])[1..] == ps[1..] + [p];
      ErrorsMore(ps[1..], p);
    }
  }

  /** The loop with its pointer books. */
  class LoopObject {
    const id: uint16
    const shelf: Shelf
    var lastApplied: uint64
    var failed: bool
    var pending: seq<Pending>
    var replies: seq<Reply>
    ghost var arrived: seq<Arrival>
    ghost var applied: seq<Arrival>
    ghost var completed: nat

    constructor (id: uint16, shelf: Shelf, mark: uint64)
      requires Apart(shelf)
      ensures Valid() && this.id == id && this.shelf == shelf
      ensures lastApplied == mark && !failed && pending == [] && replies == []
      ensures arrived == [] && applied == [] && completed == 0
    {
      hide Kept;
      this.id, this.shelf, lastApplied, failed, pending, replies := id, shelf, mark, false, [], [];
      arrived, applied, completed := [], [], 0;
    }

    ghost predicate Valid()
      reads this
      reads set symbol | symbol in shelf :: shelf[symbol]
      reads set symbol, o | symbol in shelf && o in shelf[symbol].Repr :: o
    {
      Apart(shelf) && this !in Objects(shelf)
    }

    /** The loop as the machine sees it; the rest (control, inbox, answer) is not the object's. */
    ghost function State(rest: Loop): Loop
      requires Valid()
      reads this
      reads set symbol | symbol in shelf :: shelf[symbol]
      reads set symbol, o | symbol in shelf && o in shelf[symbol].Repr :: o
    {
      Loop(Views(shelf), lastApplied, failed, pending, rest.control, rest.inbox, rest.inboxClosed, rest.answer, replies, rest.nextToken,
           arrived, applied, completed)
    }

    method FailPending(ghost rest: Loop)
      requires Valid()
      modifies this
      ensures Valid() && State(rest) == ShardLoop.FailPending(old(State(rest)))
    {
      hide Apart, Views;
      failed := true;
      for i := 0 to |pending|
        invariant Valid() && failed && pending == old(pending) && replies == old(replies) + Errors(pending[..i])
        invariant State(rest) == old(State(rest)).(failed := true, replies := replies)
      {
        assert pending[..i + 1] == pending[..i] + [pending[i]];
        ErrorsMore(pending[..i], pending[i]);
        replies := replies + [Reply(pending[i].ticket, Error)];
      }
      assert pending[..|pending|] == pending;
      pending := [];
    }

    method CompleteNext(ok: bool, ghost rest: Loop)
      requires Valid() && pending != []
      modifies this
      ensures Valid() && State(rest) == ShardLoop.CompleteNext(old(State(rest)), ok)
    {
      hide Apart, Views;
      var command := pending[0];
      if !ok {
        failed := true;
        replies := replies + [Reply(command.ticket, Error)];
        pending := pending[1..];
        FailPending(rest);
        assert replies == old(replies) + Errors(old(pending));
      } else {
        pending := pending[1..];
        lastApplied := command.sequence;
        replies := replies + [Reply(command.ticket, Done(command.result))];
        completed := completed + 1;
      }
    }

    method CompleteAll(acks: seq<bool>, ghost rest: Loop)
      requires Valid() && |acks| >= |pending|
      modifies this
      ensures Valid() && State(rest) == CompleteMany(old(State(rest)), acks) && pending == []
    {
      hide Apart, Views;
      var n := 0;
      while pending != []
        invariant Valid() && n <= |acks| && |acks| - n >= |pending|
        invariant CompleteMany(old(State(rest)), acks) == CompleteMany(State(rest), acks[n..])
        decreases |pending|
      {
        assert acks[n..][1..] == acks[n + 1..];
        CompleteNext(acks[n], rest);
        n := n + 1;
      }
    }

    /** The loop with one more command received and applied. */
    static ghost function Taken(l: Loop, c: Command, ticket: nat): Loop
      requires c.symbol in l.books
    {
      l.(arrived := l.arrived + [Arrival(c, ticket)], books := ApplyTo(l.books, c), applied := l.applied + [Arrival(c, ticket)])
    }

    /** The command on its pointer book, and the record for the log. */
    method ApplyCommand(c: Command, ticket: nat, ghost rest: Loop) returns (record: Record)
      requires Valid() && c.symbol in shelf
      modifies this`arrived, this`applied, Objects(shelf)
      ensures Valid() && c.symbol in old(State(rest)).books && State(rest) == Taken(old(State(rest)), c, ticket)
      ensures record == RecordOf(id, old(State(rest)).books, c)
    {
      hide Apply, ApplyTo, Kept, Views;
      ApartKeys(shelf);
      InObjects(shelf, c.symbol);
      var result := ApplyOnShelf(shelf, c);
      record := Record(id, c.sequence, c, result);
      arrived, applied := arrived + [Arrival(c, ticket)], applied + [Arrival(c, ticket)];
    }

    /** The append failed: everything pending first, then the command itself. */
    method RefuseCommand(ticket: nat, ghost rest: Loop)
      requires Valid() && rest.control == Running
      modifies this
      ensures Valid() && State(rest) == Refuse(old(State(rest)), ticket)
    {
      hide Views, Apart, Errors;
      FailPending(rest);
      replies := replies + [Reply(ticket, Error)];
    }

    /** A command for a book of this shard is applied at once; if the log has failed, it is refused with all
        that is pending, otherwise its record is returned for the log. */
    method TakeKnown(c: Command, ticket: nat, walFailed: bool, ghost rest: Loop) returns (append: Option<Record>)
      requires Valid() && rest.control == Running && !failed && c.symbol in shelf
      modifies this, Objects(shelf)
      ensures Valid()
      ensures var l := ShardLoop.Enqueue(id, old(State(rest)), walFailed, c, ticket);
              && State(rest.(control := l.control)) == l
              && append == if l.control.Sending? then Some(l.control.record) else None
    {
      hide ApplyTo, Views, RecordOf, Apart, Errors, Objects;
      var record := ApplyCommand(c, ticket, rest);
      append := Some(record);
      if walFailed {
        RefuseCommand(ticket, rest);
        append := None;
      }
    }

    /** Returns the record to append, if the command got that far. */
    method EnqueueCommand(c: Command, ticket: nat, walFailed: bool, ghost rest: Loop) returns (append: Option<Record>)
      requires Valid() && rest.control == Running
      modifies this, Objects(shelf)
      ensures Valid()
      ensures var l := ShardLoop.Enqueue(id, old(State(rest)), walFailed, c, ticket);
              && State(rest.(control := l.control)) == l
              && append == if l.control.Sending? then Some(l.control.record) else None
    {
      hide Apply, ApplyTo, Kept, Views, RecordOf, Apart, Errors;
      ApartKeys(shelf);
      if !failed && c.symbol in shelf {
        append := TakeKnown(c, ticket, walFailed, rest);
      } else {
        arrived := arrived + [Arrival(c, ticket)];
        replies := replies + [Reply(ticket, if failed then Error else Done(ShardLoop.UnknownSymbol(c)))];
        append := None;
      }
    }
  }

  // ---- The log writer (internal/journal/writer.go) ----

  /** Rejecting requests until the queue is empty. */
  function RejectAll(w: W.Writer): W.Writer
    decreases |w.queue|
  {
    if w.queue == [] then w else RejectAll(W.Reject(w))
  }

  lemma {:induction false} AckAllMore(acks: map<nat, bool>, ks: seq<nat>, k: nat, ok: bool)
    ensures W.AckAll(acks, ks + [k], ok) == W.AckAll(acks, ks, ok)[k := ok]
    decreases |ks|
  {
    if ks == [] {
      assert ks + [k] == [k] && [k][1..] == [];
    } else {
      assert (ks + [k])[1..] == ks[1..] + [k];
      AckAllMore(acks[ks[0] := ok], ks[1..], k, ok);
    }
  }

  class WriterObject {
    var queue: seq<W.Request>
    var pendingBytes: Data
    var pendingAcks: seq<nat>
    var timerArmed: bool
    var failed: bool
    var acks: map<nat, bool>
    var done: set<nat>
    ghost var pendingRecords: seq<Record>
    ghost var taken: nat

    constructor ()
      ensures queue == [] && pendingBytes == [] && pendingAcks == [] && !timerArmed && !failed && acks == map[] && done == {}
      ensures pendingRecords == [] && taken == 0
    {
      queue, pendingBytes, pendingAcks, timerArmed, failed, acks, done := [], [], [], false, false, map[], {};
      pendingRecords, taken := [], 0;
    }

    ghost function State(rest: W.Writer): W.Writer
      reads this
    {
      W.Writer(rest.phase, queue, W.Batch(pendingBytes, pendingAcks, timerArmed, pendingRecords), failed, rest.currentSize, rest.disk,
               done, acks, rest.submitted, taken, rest.asked)
    }

    /** The same answer to everyone who waits. */
    method Answer(ok: bool, ghost rest: W.Writer)
      modifies this`acks
      ensures State(rest) == old(State(rest)).(acks := W.AckAll(old(acks), pendingAcks, ok))
    {
      for i := 0 to |pendingAcks|
        invariant acks == W.AckAll(old(acks), pendingAcks[..i], ok)
      {
        assert pendingAcks[..i + 1] == pendingAcks[..i] + [pendingAcks[i]];
        AckAllMore(old(acks), pendingAcks[..i], pendingAcks[i], ok);
        acks := acks[pendingAcks[i] := ok];
      }
      assert pendingAcks[..|pendingAcks|] == pendingAcks;
    }

    method RejectRemaining(ghost rest: W.Writer)
      modifies this`queue, this`acks, this`done
      ensures State(rest) == RejectAll(old(State(rest))) && queue == []
    {
      while queue != []
        invariant RejectAll(old(State(rest))) == RejectAll(State(rest))
        decreases |queue|
      {
        match queue[0] {
          case AppendReq(index, _) => acks := acks[index := false];
          case FlushReq(token) => done := done + {token};
          case ShutdownReq(token) => done := done + {token};
        }
        queue := queue[1..];
      }
    }

    /** What follows a successful write and sync. */
    method Acknowledge(after: W.After, ghost rest: W.Writer)
      modifies this
      ensures State(rest.(phase := W.Settle(old(State(rest)), after).phase)) == W.Acknowledge(old(State(rest)), after)
    {
      Answer(true, rest);
      pendingBytes, pendingAcks, timerArmed := [], [], false;
      pendingRecords := [];
      if after.Answer? || after.Stop? {
        done := done + {after.token};
      }
    }

    /** What follows a failed write, sync or opening: a terminal error for all that wait or stand in line. */
    method Break(ghost rest: W.Writer)
      requires rest.phase.Opening? || rest.phase.Writing? || rest.phase.Syncing?
      modifies this
      ensures var broken := W.Break(old(State(rest)));
              State(rest.(phase := broken.phase)) == RejectAll(broken)
    {
      failed := true;
      Answer(false, rest);
      RejectRemaining(rest.(phase := W.Rejecting(rest.phase.after)));
    }

    /** An append request: encode, or answer with an error; says whether to flush. */
    method TakeAppend(cfg: W.Config, index: nat, record: Record, ghost rest: W.Writer) returns (full: bool)
      requires rest.phase == W.Idle
      modifies this
      ensures var w := W.TakeAppend(cfg, old(State(rest)), index, record);
              State(rest.(phase := w.phase)) == w && (full <==> w.phase.Flushing?)
    {
      taken := taken + 1;
      if !Encodable(record) {
        acks := acks[index := false];
        return false;
      }
      pendingBytes := pendingBytes + cfg.wire.frame(record);
      pendingAcks := pendingAcks + [index];
      pendingRecords := pendingRecords + [record];
      timerArmed := true;
      full := |pendingAcks| >= cfg.maxCommands || |pendingBytes| >= cfg.maxBytes;
    }
  }

  // ---- The sequencer (internal/ingress/sequencer.go) ----

  class SequencerObject {
    var nextSeq: uint64
    var inboxes: seq<seq<Message>>
    var replies: seq<Reply>
    var closed: bool
    ghost var routed: seq<Arrival>

    constructor (initial: uint64, shards: nat)
      ensures nextSeq == (if initial == 0 then 1 else initial) && |inboxes| == shards && replies == [] && !closed && routed == []
    {
      nextSeq, inboxes, replies, closed, routed := if initial == 0 then 1 else initial, seq(shards, i => []), [], false, [];
    }

    ghost function Out(): Q.Output
      reads this
    {
      Q.Output(nextSeq, routed, replies)
    }

    /** Routes a command to its shard with the next sequence number, or answers it. */
    method HandleCommand(route: Q.Router, c: Command, ticket: nat)
      requires route(c.symbol).Some? ==> route(c.symbol).value < |inboxes|
      modifies this
      ensures Out() == Q.Handle(route, old(Out()), c, ticket) && closed == old(closed) && |inboxes| == |old(inboxes)|
      ensures forall j :: 0 <= j < |inboxes| ==>
                inboxes[j] == old(inboxes)[j] +
                  if route(c.symbol) == Some(j) && old(nextSeq) != 0 then [CommandMsg(c.(sequence := old(nextSeq)), ticket)] else []
    {
      var shard := route(c.symbol);
      if shard.None? {
        replies := replies + [Reply(ticket, Done(Q.Unrouted(c)))];
        return;
      }
      if nextSeq == 0 {
        replies := replies + [Reply(ticket, Error)];
        return;
      }
      var command := c.(sequence := nextSeq);
      nextSeq := (nextSeq + 1) % 0x1_0000_0000_0000_0000;
      inboxes := inboxes[shard.value := inboxes[shard.value] + [CommandMsg(command, ticket)]];
      routed := routed + [Arrival(command, ticket)];
    }

    /** Only the first shutdown wins. */
    method MarkClosed() returns (first: bool)
      modifies this`closed
      ensures closed && first == !old(closed)
    {
      first := !closed;
      closed := true;
    }
  }
}
