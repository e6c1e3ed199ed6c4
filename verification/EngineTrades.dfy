/** Trade ids over a whole run of the engine. */
module EngineTrades {
  import opened Model
  import opened PriceTimeBook
  import opened TradeIds
  import opened Codec
  import opened Replay
  import opened Recovery
  import opened ShardLoop
  import opened Sequencing
  import E = EngineLaws
  import W = GroupCommit

  /** The records of everything that a shard has applied in this run. */
  ghost function AppliedRecords(setup: Setup, s: Shard): seq<Record> {
    var cs := CommandsOf(s.loop.applied);
    if Routable(setup.books, cs) then RecordsOf(ShardId(setup), setup.books, cs) else []
  }

  /** Every record comes from applying its command to some book. */
  lemma {:induction false} RecordIsApplied(shard: uint16, books: Books, cs: seq<Command>, k: nat) returns (b: Book)
    requires Routable(books, cs) && k < |cs|
    ensures RecordsOf(shard, books, cs)[k].result == Apply(b, cs[k]).result
    decreases k
  {
    hide Apply;
    if k == 0 {
      b := books[cs[0].symbol];
    } else {
      b := RecordIsApplied(shard, ApplyTo(books, cs[0]), cs[1..], k - 1);
    }
  }

  lemma {:induction false} RisingDiffer(mark: uint64, cs: seq<Command>, i: nat, k: nat)
    requires Rising(mark, cs) && i < k < |cs|
    ensures cs[i].sequence < cs[k].sequence
    decreases |cs|
  {
    var a, b := cs[..i + 1], cs[i + 1..];
    assert cs == a + b;
    RisingSplit(mark, a, b);
    assert Rising(cs[i].sequence, b + []) by {
      assert b + [] == b;
    }
    RisingSplit(cs[i].sequence, b, []);
    assert cs[k] == b[k - i - 1] && cs[k] in b;
  }

  /** What a shard applied is among the routed commands, for a symbol of that shard. */
  lemma AppliedPlace(world: World, s: State, j: nat, k: nat) returns (p: nat)
    requires Prepared(world) && Sequencing.Inv(world, s) && j < |s.shards| && k < |s.shards[j].loop.applied|
    ensures p < |s.sequencer.out.routed| && s.sequencer.out.routed[p] == s.shards[j].loop.applied[k]
    ensures world.route(s.shards[j].loop.applied[k].command.symbol) == Some(j)
  {
    hide ShardLoop.Inv, Fed, PartOk, VouchedOk, RoutedTo, SequencerOk, W.Framed, Routes;
    var q, applied := s.sequencer, s.shards[j].loop.applied;
    assert ShardOk(world, q, j, s.shards[j]);
    E.AppliedIsRouted(world, q, j, s.shards[j]);
    var all := RoutedTo(world.route, q.out.routed, j);
    RoutedSymbols(world.route, q.out.routed, j);
    assert all[k] == applied[k] && all[k] in all;
    RoutedFrom(world.route, q.out.routed, j, all[k]);
    p :| 0 <= p < |q.out.routed| && q.out.routed[p] == applied[k];
  }

  lemma {:induction false} RoutedFrom(route: Router, xs: seq<Arrival>, j: nat, x: Arrival)
    requires x in RoutedTo(route, xs, j)
    ensures x in xs
  {
    var n := |xs| - 1;
    if x in RoutedTo(route, xs[..n], j) {
      RoutedFrom(route, xs[..n], j, x);
    }
  }

  /** Commands at different places, on one shard or on two, have different sequence numbers. */
  lemma SequencesDiffer(world: World, s: State, j: nat, k: nat, j': nat, k': nat)
    requires E.Sane(world) && E.Reachable(world, s) && j < |s.shards| && j' < |s.shards| && (j, k) != (j', k')
    requires k < |s.shards[j].loop.applied| && k' < |s.shards[j'].loop.applied|
    ensures s.shards[j].loop.applied[k].command.sequence != s.shards[j'].loop.applied[k'].command.sequence
  {
    hide E.Sane, Prepared, E.Reachable, Rising, RoutedTo, ShardLoop.Inv, Fed, PartOk, VouchedOk, Process, Numbered, ShutdownOk, PollOk, ReportsOk;
    E.ReachableIsSound(world, s);
    FirstNonzero(world);
    var q := s.sequencer;
    var p := AppliedPlace(world, s, j, k);
    var p' := AppliedPlace(world, s, j', k');
    E.SequencesGapFree(world.route, world.first, q.log[..|q.log| - |q.queue|]);
    assert q.out.routed[p].command.sequence == world.first + p && q.out.routed[p'].command.sequence == world.first + p';
    if j == j' {
      E.AppliedRising(world, s, j);
      var cs := CommandsOf(s.shards[j].loop.applied);
      RisingDiffer(world.setups[j].mark, cs, if k < k' then k else k', if k < k' then k' else k);
    }
  }

  lemma FirstNonzero(world: World)
    requires E.Sane(world)
    ensures world.first != 0
  {
  }

  /** No two trades of a run carry the same id, on whatever shards and by whatever commands, while sequence
      numbers are below 2^44 and no command trades more than 2^20 times. */
  lemma EngineTradeIdsUnique(world: World, s: State, j: nat, k: nat, i: nat, j': nat, k': nat, i': nat)
    requires E.Sane(world) && E.Reachable(world, s) && j < |s.shards| == |world.setups| && j' < |s.shards|
    requires k < |AppliedRecords(world.setups[j], s.shards[j])| && k' < |AppliedRecords(world.setups[j'], s.shards[j'])|
    requires var r, r' := AppliedRecords(world.setups[j], s.shards[j])[k], AppliedRecords(world.setups[j'], s.shards[j'])[k'];
             && r.command.sequence < 0x1000_0000_0000 && r'.command.sequence < 0x1000_0000_0000
             && i < |IdsOf(r.result.events)| <= 0x10_0000 && i' < |IdsOf(r'.result.events)| && (j, k, i) != (j', k', i')
    ensures IdsOf(AppliedRecords(world.setups[j], s.shards[j])[k].result.events)[i] !=
            IdsOf(AppliedRecords(world.setups[j'], s.shards[j'])[k'].result.events)[i']
  {
    hide E.Sane, E.Reachable, Apply, IdsOf;
    var cs, cs' := CommandsOf(s.shards[j].loop.applied), CommandsOf(s.shards[j'].loop.applied);
    RecordAt(ShardId(world.setups[j]), world.setups[j].books, cs, k);
    RecordAt(ShardId(world.setups[j']), world.setups[j'].books, cs', k');
    var b := RecordIsApplied(ShardId(world.setups[j]), world.setups[j].books, cs, k);
    var b' := RecordIsApplied(ShardId(world.setups[j']), world.setups[j'].books, cs', k');
    var x := Application(b, cs[k]);
    if (j, k) == (j', k') {
      TradeIdsUnique(x, i, x, i');
    } else {
      SequencesDiffer(world, s, j, k, j', k');
      TradeIdsUnique(x, i, Application(b', cs'[k']), i');
    }
  }
}
