/** Laws of the order book over single commands and over whole runs. */
module BookLaws {
  import opened Model
  import opened PriceTimeBook
  import Levels

  /** x may stand before y on a side: not at a worse price, and, when command sequence
      numbers increase, earlier if at the same price. */
  ghost predicate Before(timed: bool, isBid: bool, x: Resting, y: Resting) {
    && !Ahead(isBid, y.price, x.price)
    && x.id != y.id
    && (timed && x.price == y.price ==> x.sequence < y.sequence)
  }

  ghost predicate Fit(timed: bool, isBid: bool, last: uint64, x: Resting) {
    x.side == SideOf(isBid) && x.price > 0 && (timed ==> x.sequence <= last)
  }

  ghost predicate Ranked(timed: bool, isBid: bool, last: uint64, q: Queue) {
    && (forall i, j :: 0 <= i < j < |q| ==> Before(timed, isBid, q[i], q[j]))
    && (forall x :: x in q ==> Fit(timed, isBid, last, x))
  }

  ghost predicate Uncrossed(bids: Queue, asks: Queue) {
    bids != [] && asks != [] ==> bids[0].price < asks[0].price
  }

  ghost predicate Apart(p: Queue, q: Queue) {
    forall x, y :: x in p && y in q ==> x.id != y.id
  }

  /** Best price first, first come first served, every id once, no bid at or above an ask. */
  ghost predicate Sound(timed: bool, last: uint64, b: Book) {
    && Ranked(timed, true, last, b.bids) && Ranked(timed, false, last, b.asks)
    && Apart(b.bids, b.asks) && Uncrossed(b.bids, b.asks)
  }

  lemma {:induction false} InsertMembers(isBid: bool, q: Queue, o: Resting)
    ensures forall x :: x in Insert(isBid, q, o) <==> x in q || x == o
    ensures Insert(isBid, q, o)[0] == o || (q != [] && Insert(isBid, q, o)[0] == q[0])
  {
    if q != [] && !Ahead(isBid, o.price, q[0].price) {
      InsertMembers(isBid, q[1..], o);
      assert q == [q[0]] + q[1..];
    }
  }

  lemma PrependRanked(timed: bool, isBid: bool, last: uint64, x: Resting, q: Queue)
    requires Ranked(timed, isBid, last, q) && Fit(timed, isBid, last, x)
    requires forall y :: y in q ==> Before(timed, isBid, x, y)
    ensures Ranked(timed, isBid, last, [x] + q)
  {
    var p := [x] + q;
    forall i, j | 0 <= i < j < |p| ensures Before(timed, isBid, p[i], p[j]) {
      if i > 0 {
        assert Before(timed, isBid, q[i - 1], q[j - 1]);
      }
    }
  }

  lemma TailRanked(timed: bool, isBid: bool, last: uint64, q: Queue)
    requires Ranked(timed, isBid, last, q) && q != []
    ensures Ranked(timed, isBid, last, q[1..])
    ensures Fit(timed, isBid, last, q[0]) && forall y :: y in q[1..] ==> Before(timed, isBid, q[0], y)
  {
    forall i, j | 0 <= i < j < |q| - 1 ensures Before(timed, isBid, q[1..][i], q[1..][j]) {
      assert Before(timed, isBid, q[i + 1], q[j + 1]);
    }
    forall y | y in q[1..] ensures Before(timed, isBid, q[0], y) {
      var i :| 0 <= i < |q| - 1 && q[1..][i] == y;
      assert Before(timed, isBid, q[0], q[i + 1]);
    }
  }

  lemma {:induction false} InsertRanked(timed: bool, isBid: bool, last: uint64, q: Queue, o: Resting)
    requires Ranked(timed, isBid, last, q) && Fit(timed, isBid, o.sequence, o)
    requires forall x :: x in q ==> x.id != o.id
    requires timed ==> last < o.sequence
    ensures Ranked(timed, isBid, o.sequence, Insert(isBid, q, o))
  {
    if q == [] {
    } else {
      TailRanked(timed, isBid, last, q);
      assert q == [q[0]] + q[1..];
      if Ahead(isBid, o.price, q[0].price) {
        forall x | x in q ensures Fit(timed, isBid, o.sequence, x) {
          assert Fit(timed, isBid, last, x);
        }
        PrependRanked(timed, isBid, o.sequence, o, q);
      } else {
        InsertRanked(timed, isBid, last, q[1..], o);
        InsertMembers(isBid, q[1..], o);
        PrependRanked(timed, isBid, o.sequence, q[0], Insert(isBid, q[1..], o));
      }
    }
  }

  lemma {:induction false} WithoutRanked(timed: bool, isBid: bool, last: uint64, q: Queue, id: uint64)
    requires Ranked(timed, isBid, last, q)
    ensures Ranked(timed, isBid, last, Without(q, id))
    ensures Without(q, id) != [] ==> q != [] && !Ahead(isBid, Without(q, id)[0].price, q[0].price)
  {
    if q != [] {
      TailRanked(timed, isBid, last, q);
      WithoutRanked(timed, isBid, last, q[1..], id);
      WithoutIds(q[1..], id);
      if q[0].id != id {
        PrependRanked(timed, isBid, last, q[0], Without(q[1..], id));
      } else if Without(q, id) != [] {
        assert Before(timed, isBid, q[0], Without(q, id)[0]);
      }
    }
  }

  /** The same orders in the same places, up to quantities. */
  ghost predicate SameRanks(p: Queue, q: Queue) {
    |p| == |q| && forall i :: 0 <= i < |q| ==> p[i] == q[i].(leaves := p[i].leaves)
  }

  lemma {:induction false} WithLeavesSameRanks(q: Queue, id: uint64, n: quantity)
    ensures SameRanks(WithLeaves(q, id, n), q)
  {
    if q != [] {
      WithLeavesSameRanks(q[1..], id, n);
    }
  }

  lemma SameRanksRanked(timed: bool, isBid: bool, last: uint64, p: Queue, q: Queue)
    requires SameRanks(p, q) && Ranked(timed, isBid, last, q)
    ensures Ranked(timed, isBid, last, p)
    ensures forall x :: x in p ==> exists y :: y in q && y.id == x.id
    ensures p != [] ==> p[0].price == q[0].price
  {
    forall i, j | 0 <= i < j < |p| ensures Before(timed, isBid, p[i], p[j]) {
      assert Before(timed, isBid, q[i], q[j]);
    }
    forall x | x in p
      ensures Fit(timed, isBid, last, x)
      ensures exists y :: y in q && y.id == x.id
    {
      var i :| 0 <= i < |p| && p[i] == x;
      assert q[i] in q && Fit(timed, isBid, last, q[i]);
    }
  }

  /** A sweep leaves a ranked list whose head is no better than before and not acceptable to
      a taker with quantity left. */
  lemma {:induction false} SweepRanked(timed: bool, isBid: bool, last: uint64, q: Queue, t: Taker, leaves: int64, n: uint64)
    requires leaves >= 0 && Ranked(timed, isBid, last, q)
    ensures var r := Sweep(isBid, q, t, leaves, n);
            && Ranked(timed, isBid, last, r.queue)
            && (r.queue != [] ==> q != [] && !Ahead(isBid, r.queue[0].price, q[0].price))
            && (r.leaves > 0 && r.queue != [] ==> !Takes(isBid, t.limit, r.queue[0].price))
            && (forall x :: x in r.queue ==> exists y :: y in q && y.id == x.id)
    decreases leaves
  {
    if leaves > 0 && q != [] && Takes(isBid, t.limit, q[0].price) {
      var m := Meet(q, t, leaves, n);
      MeetRanked(timed, isBid, last, q, t, leaves, n);
      SweepRanked(timed, isBid, last, m.queue, t, m.leaves, m.nextTradeSeq);
      var r := Sweep(isBid, m.queue, t, m.leaves, m.nextTradeSeq);
      forall x | x in r.queue ensures exists y :: y in q && y.id == x.id {
        var z :| z in m.queue && z.id == x.id;
      }
    }
  }

  lemma MeetRanked(timed: bool, isBid: bool, last: uint64, q: Queue, t: Taker, leaves: int64, n: uint64)
    requires leaves > 0 && q != [] && Ranked(timed, isBid, last, q)
    ensures var m := Meet(q, t, leaves, n);
            && Ranked(timed, isBid, last, m.queue)
            && (m.queue != [] ==> !Ahead(isBid, m.queue[0].price, q[0].price))
            && (forall x :: x in m.queue ==> exists y :: y in q && y.id == x.id)
  {
    var m := Meet(q, t, leaves, n);
    TailRanked(timed, isBid, last, q);
    if |m.queue| == |q| {
      SameRanksRanked(timed, isBid, last, m.queue, q);
    } else if m.queue != [] {
      assert Before(timed, isBid, q[0], q[1]);
    }
  }

  lemma MatchSound(timed: bool, last: uint64, b: Book, side: uint8, t: Taker, leaves: int64)
    requires Sound(timed, last, b) && leaves >= 0
    ensures var s := Match(b, side, t, leaves);
            && Sound(timed, last, AfterMatch(b, side, s))
            && (s.leaves > 0 && s.queue != [] ==> !Takes(side != SIDE_BUY, t.limit, s.queue[0].price))
  {
    SweepRanked(timed, side != SIDE_BUY, last, Opposite(b, side), t, leaves, b.nextTradeSeq);
  }

  lemma RestSound(timed: bool, last: uint64, b: Book, o: Resting)
    requires Sound(timed, last, b) && Absent(b, o.id) && o.price > 0 && (timed ==> last < o.sequence)
    requires o.side == SIDE_BUY || o.side == SIDE_SELL
    requires var q := Opposite(b, o.side); q != [] ==> !Takes(o.side != SIDE_BUY, o.price, q[0].price)
    ensures Sound(timed, o.sequence, Rest(b, o))
  {
    var isBid := o.side == SIDE_BUY;
    var q := if isBid then b.bids else b.asks;
    InsertRanked(timed, isBid, last, q, o);
    InsertMembers(isBid, q, o);
    SoundLater(timed, last, o.sequence, b);
  }

  lemma SoundLater(timed: bool, last: uint64, later: uint64, b: Book)
    requires Sound(timed, last, b) && (timed ==> last <= later)
    ensures Sound(timed, later, b)
  {
    forall x | x in b.bids ensures Fit(timed, true, later, x) {
      assert Fit(timed, true, last, x);
    }
    forall x | x in b.asks ensures Fit(timed, false, later, x) {
      assert Fit(timed, false, last, x);
    }
  }

  lemma RemoveSound(timed: bool, last: uint64, b: Book, id: uint64)
    requires Sound(timed, last, b)
    ensures Sound(timed, last, Remove(b, id))
  {
    WithoutRanked(timed, true, last, b.bids, id);
    WithoutRanked(timed, false, last, b.asks, id);
    WithoutIds(b.bids, id);
    WithoutIds(b.asks, id);
  }

  lemma AmendSound(timed: bool, last: uint64, b: Book, id: uint64, n: quantity)
    requires Sound(timed, last, b)
    ensures Sound(timed, last, b.(bids := WithLeaves(b.bids, id, n), asks := WithLeaves(b.asks, id, n)))
  {
    var p, q := WithLeaves(b.bids, id, n), WithLeaves(b.asks, id, n);
    WithLeavesSameRanks(b.bids, id, n);
    WithLeavesSameRanks(b.asks, id, n);
    SameRanksRanked(timed, true, last, p, b.bids);
    SameRanksRanked(timed, false, last, q, b.asks);
    forall x, y | x in p && y in q ensures x.id != y.id {
      var x' :| x' in b.bids && x'.id == x.id;
      var y' :| y' in b.asks && y'.id == y.id;
    }
  }

  /** Match, then rest the remainder. */
  lemma MatchRestSound(timed: bool, last: uint64, b: Book, side: uint8, t: Taker, leaves: int64)
    requires Sound(timed, last, b) && leaves >= 0 && Absent(b, t.id) && t.limit > 0 && (timed ==> last < t.sequence)
    requires side == SIDE_BUY || side == SIDE_SELL
    ensures var s := Match(b, side, t, leaves);
            s.leaves > 0 ==>
              Sound(timed, t.sequence, Rest(AfterMatch(b, side, s), Resting(t.id, side, t.limit, s.leaves, t.sequence)))
  {
    var s := Match(b, side, t, leaves);
    if s.leaves > 0 {
      MatchSound(timed, last, b, side, t, leaves);
      MatchAbsent(b, side, t, leaves, t.id);
      RestSound(timed, last, AfterMatch(b, side, s), Resting(t.id, side, t.limit, s.leaves, t.sequence));
    }
  }

  lemma FoundSide(timed: bool, last: uint64, b: Book, id: uint64)
    requires Sound(timed, last, b) && Lookup(b, id).Some?
    ensures var o := Lookup(b, id).value; (o.side == SIDE_BUY || o.side == SIDE_SELL) && o.price > 0
  {
    var o := Lookup(b, id).value;
    assert Fit(timed, true, last, o) || Fit(timed, false, last, o);
  }

  lemma EnterSound(timed: bool, last: uint64, b: Book, c: Command)
    requires Sound(timed, last, b) && (timed ==> last < c.sequence) && Absent(b, c.orderId)
    requires Validates(c) && c.kind == COMMAND_NEW
    ensures Sound(timed, c.sequence, Enter(b, c).book)
  {
    var t := Taker(c.orderId, c.price, c.sequence);
    MatchSound(timed, last, b, c.side, t, c.quantity);
    SoundLater(timed, last, c.sequence, AfterMatch(b, c.side, Match(b, c.side, t, c.quantity)));
    if c.orderType == TYPE_LIMIT {
      MatchRestSound(timed, last, b, c.side, t, c.quantity);
    }
  }

  lemma ReplaceSound(timed: bool, last: uint64, b: Book, c: Command)
    requires Sound(timed, last, b) && (timed ==> last < c.sequence)
    ensures Sound(timed, c.sequence, Replace(b, c).book)
  {
    SoundLater(timed, last, c.sequence, b);
    var found := Lookup(b, c.orderId);
    if found.Some? && c.newLeaves > 0 && ReplacePrice(found.value, c) > 0 {
      var o := found.value;
      FoundSide(timed, last, b, c.orderId);
      if RetainsPriority(o, c) {
        AmendSound(timed, c.sequence, b, c.orderId, c.newLeaves);
      } else {
        var removed, t := Remove(b, c.orderId), Taker(c.orderId, ReplacePrice(o, c), c.sequence);
        RemoveSound(timed, last, b, c.orderId);
        RemoveAbsent(b, c.orderId);
        MatchSound(timed, last, removed, o.side, t, c.newLeaves);
        SoundLater(timed, last, c.sequence, AfterMatch(removed, o.side, Match(removed, o.side, t, c.newLeaves)));
        MatchRestSound(timed, last, removed, o.side, t, c.newLeaves);
      }
    }
  }

  /** Every command keeps the book sound. */
  lemma ApplySound(timed: bool, last: uint64, b: Book, c: Command)
    requires Sound(timed, last, b) && (timed ==> last < c.sequence)
    ensures Sound(timed, c.sequence, Apply(b, c).book)
  {
    SoundLater(timed, last, c.sequence, b);
    if c.symbol == b.symbol && Validates(c) {
      if c.kind == COMMAND_NEW {
        if Lookup(b, c.orderId).None? {
          EnterSound(timed, last, b, c);
        }
      } else if c.kind == COMMAND_CANCEL {
        RemoveSound(timed, c.sequence, b, c.orderId);
      } else {
        ReplaceSound(timed, last, b, c);
      }
    }
  }

  lemma ApplyKeepsSymbol(b: Book, c: Command)
    ensures Apply(b, c).book.symbol == b.symbol
  {
  }

  // ---- Runs of one book ----

  /** The book after a run of commands. */
  function Run(b: Book, cs: seq<Command>): Book
    decreases |cs|
  {
    if cs == [] then b else Run(Apply(b, cs[0]).book, cs[1..])
  }

  function Results(b: Book, cs: seq<Command>): seq<Result>
    decreases |cs|
  {
    if cs == [] then [] else [Apply(b, cs[0]).result] + Results(Apply(b, cs[0]).book, cs[1..])
  }

  ghost predicate Increasing(last: uint64, cs: seq<Command>)
    decreases |cs|
  {
    cs == [] || (last < cs[0].sequence && Increasing(cs[0].sequence, cs[1..]))
  }

  function LastSequence(last: uint64, cs: seq<Command>): uint64 {
    if cs == [] then last else cs[|cs| - 1].sequence
  }

  /** Every book a run can reach is sound, and with increasing sequence numbers its queues are
      in order of arrival. */
  lemma {:induction false} RunSound(timed: bool, last: uint64, b: Book, cs: seq<Command>)
    requires Sound(timed, last, b) && (timed ==> Increasing(last, cs))
    ensures Sound(timed, LastSequence(last, cs), Run(b, cs))
    decreases |cs|
  {
    if cs != [] {
      ApplySound(timed, last, b, cs[0]);
      RunSound(timed, cs[0].sequence, Apply(b, cs[0]).book, cs[1..]);
    }
  }

  lemma ReachableBooksAreSound(symbol: Symbol, cs: seq<Command>)
    ensures Sound(false, LastSequence(0, cs), Run(Empty(symbol), cs))
    ensures Increasing(0, cs) ==> Sound(true, LastSequence(0, cs), Run(Empty(symbol), cs))
  {
    RunSound(false, 0, Empty(symbol), cs);
    if Increasing(0, cs) {
      RunSound(true, 0, Empty(symbol), cs);
    }
  }

  // ---- Conservation of quantity ----

  function OnBook(b: Book): nat {
    TotalLeaves(b.bids) + TotalLeaves(b.asks)
  }

  function Traded(events: seq<Event>): int {
    if events == [] then 0
    else (if events[0].kind == EVENT_TRADE then events[0].quantity else 0) + Traded(events[1..])
  }

  function CanceledQty(events: seq<Event>): int {
    if events == [] then 0
    else (if events[0].kind == EVENT_CANCELED then events[0].canceled else 0) + CanceledQty(events[1..])
  }

  ghost predicate WasAccepted(events: seq<Event>) {
    events != [] && events[0].kind == EVENT_ACCEPTED
  }

  /** Quantity a command brings to the book: all of an accepted new order, the change of a replaced one. */
  ghost function Brought(b: Book, c: Command): int {
    if !WasAccepted(Apply(b, c).result.events) then 0
    else if c.kind == COMMAND_NEW then c.quantity
    else if c.kind == COMMAND_REPLACE then c.newLeaves - Lookup(b, c.orderId).value.leaves
    else 0
  }

  lemma {:induction false} TradedConcat(a: seq<Event>, b: seq<Event>)
    ensures Traded(a + b) == Traded(a) + Traded(b) && CanceledQty(a + b) == CanceledQty(a) + CanceledQty(b)
  {
    if a == [] {
      assert a + b == b;
    } else {
      TradedConcat(a[1..], b);
      assert (a + b)[1..] == a[1..] + b;
    }
  }

  lemma TwoEvents(x: Event, y: Event)
    ensures Traded([x, y]) == Traded([x]) + Traded([y]) && CanceledQty([x, y]) == CanceledQty([x]) + CanceledQty([y])
    ensures Trades([x, y]) == Trades([x]) + Trades([y])
  {
    assert [x, y] == [x] + [y];
    TradedConcat([x], [y]);
    TradesConcat([x], [y]);
  }

  lemma MeetConserves(q: Queue, t: Taker, leaves: int64, n: uint64)
    requires q != [] && leaves > 0
    ensures var m := Meet(q, t, leaves, n);
            && Traded(m.events) == leaves - m.leaves && CanceledQty(m.events) == 0
            && TotalLeaves(m.queue) == TotalLeaves(q) - Traded(m.events)
  {
    var m := Meet(q, t, leaves, n);
    if |m.events| == 2 {
      TwoEvents(m.events[0], m.events[1]);
      assert m.queue[1..] == q[1..];
    } else {
      assert m.events[1..] == [];
    }
  }

  /** Each traded unit leaves the taker and the resting side once. */
  lemma {:induction false} SweepConserves(isBid: bool, q: Queue, t: Taker, leaves: int64, n: uint64)
    requires leaves >= 0
    ensures var r := Sweep(isBid, q, t, leaves, n);
            && Traded(r.events) == leaves - r.leaves && CanceledQty(r.events) == 0
            && TotalLeaves(r.queue) == TotalLeaves(q) - Traded(r.events)
    decreases leaves
  {
    if leaves > 0 && q != [] && Takes(isBid, t.limit, q[0].price) {
      var m := Meet(q, t, leaves, n);
      MeetConserves(q, t, leaves, n);
      SweepConserves(isBid, m.queue, t, m.leaves, m.nextTradeSeq);
      TradedConcat(m.events, Sweep(isBid, m.queue, t, m.leaves, m.nextTradeSeq).events);
    }
  }

  lemma {:induction false} InsertTotal(isBid: bool, q: Queue, o: Resting)
    ensures TotalLeaves(Insert(isBid, q, o)) == TotalLeaves(q) + o.leaves
  {
    if q == [] {
      assert [o][1..] == [];
    } else if Ahead(isBid, o.price, q[0].price) {
      assert ([o] + q)[1..] == q;
    } else {
      InsertTotal(isBid, q[1..], o);
      var rest := Insert(isBid, q[1..], o);
      assert ([q[0]] + rest)[1..] == rest;
    }
  }

  lemma MatchConserves(b: Book, side: uint8, t: Taker, leaves: int64)
    requires leaves >= 0
    ensures var s := Match(b, side, t, leaves);
            && Traded(s.events) == leaves - s.leaves && CanceledQty(s.events) == 0
            && OnBook(AfterMatch(b, side, s)) == OnBook(b) - Traded(s.events)
  {
    SweepConserves(side != SIDE_BUY, Opposite(b, side), t, leaves, b.nextTradeSeq);
  }

  lemma RestConserves(b: Book, o: Resting)
    ensures OnBook(Rest(b, o)) == OnBook(b) + o.leaves
  {
    InsertTotal(true, b.bids, o);
    InsertTotal(false, b.asks, o);
  }

  lemma {:induction false} WithoutTotal(timed: bool, isBid: bool, last: uint64, q: Queue, o: Resting)
    requires Ranked(timed, isBid, last, q)
    ensures o in q ==> TotalLeaves(Without(q, o.id)) == TotalLeaves(q) - o.leaves
    ensures (forall x :: x in q ==> x.id != o.id) ==> Without(q, o.id) == q
  {
    if forall x :: x in q ==> x.id != o.id {
      Levels.WithoutAbsent(q, o.id);
    }
    if q != [] {
      TailRanked(timed, isBid, last, q);
      WithoutTotal(timed, isBid, last, q[1..], o);
      var rest := Without(q[1..], o.id);
      assert q == [q[0]] + q[1..];
      if q[0].id != o.id {
        assert ([q[0]] + rest)[1..] == rest;
      }
    }
  }

  lemma {:induction false} WithLeavesTotal(timed: bool, isBid: bool, last: uint64, q: Queue, o: Resting, n: quantity)
    requires Ranked(timed, isBid, last, q)
    ensures o in q ==> TotalLeaves(WithLeaves(q, o.id, n)) == TotalLeaves(q) - o.leaves + n
    ensures (forall x :: x in q ==> x.id != o.id) ==> WithLeaves(q, o.id, n) == q
  {
    if forall x :: x in q ==> x.id != o.id {
      Levels.WithLeavesAbsent(q, o.id, n);
    }
    if q != [] {
      TailRanked(timed, isBid, last, q);
      WithLeavesTotal(timed, isBid, last, q[1..], o, n);
      assert q == [q[0]] + q[1..];
      assert WithLeaves(q, o.id, n)[1..] == WithLeaves(q[1..], o.id, n);
    }
  }

  lemma FoundOnce(timed: bool, last: uint64, b: Book, id: uint64)
    requires Sound(timed, last, b) && Lookup(b, id).Some?
    ensures var o := Lookup(b, id).value;
            || (o in b.bids && forall x :: x in b.asks ==> x.id != id)
            || (o in b.asks && forall x :: x in b.bids ==> x.id != id)
  {
  }

  lemma RemoveConserves(timed: bool, last: uint64, b: Book, id: uint64)
    requires Sound(timed, last, b) && Lookup(b, id).Some?
    ensures OnBook(Remove(b, id)) == OnBook(b) - Lookup(b, id).value.leaves
  {
    var o := Lookup(b, id).value;
    FoundOnce(timed, last, b, id);
    WithoutTotal(timed, true, last, b.bids, o);
    WithoutTotal(timed, false, last, b.asks, o);
  }

  lemma AmendConserves(timed: bool, last: uint64, b: Book, c: Command)
    requires Sound(timed, last, b) && Lookup(b, c.orderId).Some? && c.newLeaves > 0
    ensures var o := Lookup(b, c.orderId).value;
            && OnBook(Amend(b, c, o).book) == OnBook(b) - o.leaves + c.newLeaves
            && Traded(Amend(b, c, o).result.events) == 0 && CanceledQty(Amend(b, c, o).result.events) == 0
  {
    hide Ranked, WithLeaves, TotalLeaves, Apart;
    var o := Lookup(b, c.orderId).value;
    FoundOnce(timed, last, b, c.orderId);
    WithLeavesTotal(timed, true, last, b.bids, o, c.newLeaves);
    WithLeavesTotal(timed, false, last, b.asks, o, c.newLeaves);
    var reduced := if c.newLeaves < o.leaves then [Reduced(c.orderId, c.newLeaves)] else [];
    TradedConcat([Accepted(c.orderId)] + reduced, [Replaced(c.orderId, o.price, c.newLeaves, true)]);
    TradedConcat([Accepted(c.orderId)], reduced);
  }

  lemma EnterConserves(b: Book, c: Command)
    requires c.quantity > 0
    ensures var a := Enter(b, c);
            OnBook(a.book) + 2 * Traded(a.result.events) + CanceledQty(a.result.events) == OnBook(b) + c.quantity
  {
    var s := Match(b, c.side, Taker(c.orderId, c.price, c.sequence), c.quantity);
    MatchConserves(b, c.side, Taker(c.orderId, c.price, c.sequence), c.quantity);
    TradedConcat([Accepted(c.orderId)], s.events);
    if s.leaves > 0 {
      RestConserves(AfterMatch(b, c.side, s), Resting(c.orderId, c.side, c.price, s.leaves, c.sequence));
      TradedConcat([Accepted(c.orderId)] + s.events, [Canceled(c.orderId, s.leaves, CANCEL_UNFILLED_REMAINDER)]);
      TradedConcat([Accepted(c.orderId)] + s.events, [Rested(c.orderId, c.price, s.leaves)]);
    }
  }

  lemma ReenterConserves(b: Book, c: Command, side: uint8, price: int64)
    requires c.newLeaves > 0
    ensures var a := Reenter(b, c, side, price);
            && OnBook(a.book) + 2 * Traded(a.result.events) == OnBook(b) + c.newLeaves
            && CanceledQty(a.result.events) == 0
  {
    var s := Match(b, side, Taker(c.orderId, price, c.sequence), c.newLeaves);
    MatchConserves(b, side, Taker(c.orderId, price, c.sequence), c.newLeaves);
    TradedConcat([Accepted(c.orderId)], s.events);
    if s.leaves > 0 {
      RestConserves(AfterMatch(b, side, s), Resting(c.orderId, side, price, s.leaves, c.sequence));
      var tail := [Rested(c.orderId, price, s.leaves), Replaced(c.orderId, price, s.leaves, false)];
      TradedConcat([Accepted(c.orderId)] + s.events, tail);
      TwoEvents(tail[0], tail[1]);
    } else {
      TradedConcat([Accepted(c.orderId)] + s.events, [Replaced(c.orderId, price, 0, false)]);
    }
  }

  /** What a command brings is traded away on both sides, cancelled, or left on the book. */
  lemma ApplyConserves(timed: bool, last: uint64, b: Book, c: Command)
    requires Sound(timed, last, b)
    ensures var a := Apply(b, c);
            OnBook(b) + Brought(b, c) == OnBook(a.book) + 2 * Traded(a.result.events) + CanceledQty(a.result.events)
  {
    var found := Lookup(b, c.orderId);
    if c.symbol != b.symbol || !Validates(c) {
    } else if c.kind == COMMAND_NEW {
      if found.None? && !FokRefuses(b, c) {
        EnterConserves(b, c);
      }
    } else if found.Some? {
      if c.kind == COMMAND_CANCEL {
        RemoveConserves(timed, last, b, c.orderId);
        var events := Cancel(b, c).result.events;
        TwoEvents(events[0], events[1]);
      } else if ReplacePrice(found.value, c) > 0 {
        if RetainsPriority(found.value, c) {
          AmendConserves(timed, last, b, c);
        } else {
          RemoveConserves(timed, last, b, c.orderId);
          ReenterConserves(Remove(b, c.orderId), c, found.value.side, ReplacePrice(found.value, c));
        }
      }
    }
  }

  ghost function TotalBrought(b: Book, cs: seq<Command>): int
    decreases |cs|
  {
    if cs == [] then 0 else Brought(b, cs[0]) + TotalBrought(Apply(b, cs[0]).book, cs[1..])
  }

  ghost function TotalTraded(rs: seq<Result>): int {
    if rs == [] then 0 else Traded(rs[0].events) + TotalTraded(rs[1..])
  }

  ghost function TotalCanceled(rs: seq<Result>): int {
    if rs == [] then 0 else CanceledQty(rs[0].events) + TotalCanceled(rs[1..])
  }

  /** Conservation over every run. */
  lemma {:induction false} RunConserves(timed: bool, last: uint64, b: Book, cs: seq<Command>)
    requires Sound(timed, last, b) && (timed ==> Increasing(last, cs))
    ensures OnBook(b) + TotalBrought(b, cs) ==
            OnBook(Run(b, cs)) + 2 * TotalTraded(Results(b, cs)) + TotalCanceled(Results(b, cs))
    decreases |cs|
  {
    if cs != [] {
      var a := Apply(b, cs[0]);
      ApplyConserves(timed, last, b, cs[0]);
      ApplySound(timed, last, b, cs[0]);
      RunConserves(timed, cs[0].sequence, a.book, cs[1..]);
      assert Results(b, cs)[1..] == Results(a.book, cs[1..]);
    }
  }

  // ---- Replacement as cancel and new ----

  function CancelOf(c: Command): Command {
    c.(kind := COMMAND_CANCEL)
  }

  /** A new good-till-cancelled limit order with the replacement's price and quantity. */
  function NewOf(c: Command, o: Resting): Command {
    c.(kind := COMMAND_NEW, side := o.side, orderType := TYPE_LIMIT, tif := TIF_GTC,
       price := ReplacePrice(o, c), quantity := c.newLeaves)
  }

  function Trades(events: seq<Event>): seq<Event> {
    if events == [] then []
    else (if events[0].kind == EVENT_TRADE then [events[0]] else []) + Trades(events[1..])
  }

  lemma {:induction false} TradesConcat(a: seq<Event>, b: seq<Event>)
    ensures Trades(a + b) == Trades(a) + Trades(b)
  {
    if a == [] {
      assert a + b == b;
    } else {
      TradesConcat(a[1..], b);
      var first := if a[0].kind == EVENT_TRADE then [a[0]] else [];
      assert (a + b)[0] == a[0] && (a + b)[1..] == a[1..] + b;
      assert first + (Trades(a[1..]) + Trades(b)) == (first + Trades(a[1..])) + Trades(b);
    }
  }

  /** A replacement that asks for another price or for more quantity does what cancelling the order and
      entering a new one does. */
  lemma ReplaceIsCancelThenNew(timed: bool, last: uint64, b: Book, c: Command)
    requires Sound(timed, last, b) && c.symbol == b.symbol && Validates(c) && c.kind == COMMAND_REPLACE
    requires var found := Lookup(b, c.orderId);
             found.Some? && ((c.newPrice != 0 && c.newPrice != found.value.price) || c.newLeaves > found.value.leaves)
    ensures var o := Lookup(b, c.orderId).value;
            var canceled := Apply(b, CancelOf(c));
            var renewed := Apply(canceled.book, NewOf(c, o));
            && Apply(b, c).book == renewed.book
            && Trades(Apply(b, c).result.events) == Trades(canceled.result.events) + Trades(renewed.result.events)
  {
    hide Match, AfterMatch, Rest, Sound, Trades;
    var o := Lookup(b, c.orderId).value;
    FoundSide(timed, last, b, c.orderId);
    RemoveAbsent(b, c.orderId);
    var removed := Remove(b, c.orderId);
    assert Apply(b, CancelOf(c)).book == removed && Lookup(removed, c.orderId).None?;
    CancelTrades(b, CancelOf(c));
    ReenterTrades(removed, c, o.side, ReplacePrice(o, c));
    EnterTrades(removed, NewOf(c, o));
  }

  lemma CancelTrades(b: Book, c: Command)
    requires Lookup(b, c.orderId).Some?
    ensures Trades(Cancel(b, c).result.events) == []
  {
    var events := Cancel(b, c).result.events;
    TwoEvents(events[0], events[1]);
  }

  lemma ReenterTrades(b: Book, c: Command, side: uint8, price: int64)
    requires c.newLeaves > 0
    ensures Trades(Reenter(b, c, side, price).result.events) ==
            Trades([Accepted(c.orderId)] + Match(b, side, Taker(c.orderId, price, c.sequence), c.newLeaves).events)
  {
    hide Match, AfterMatch, Rest;
    var s := Match(b, side, Taker(c.orderId, price, c.sequence), c.newLeaves);
    var events := [Accepted(c.orderId)] + s.events;
    if s.leaves == 0 {
      TradesConcat(events, [Replaced(c.orderId, price, 0, false)]);
    } else {
      var tail := [Rested(c.orderId, price, s.leaves), Replaced(c.orderId, price, s.leaves, false)];
      TwoEvents(tail[0], tail[1]);
      TradesConcat(events, tail);
    }
  }

  lemma EnterTrades(b: Book, c: Command)
    requires c.quantity > 0
    ensures Trades(Enter(b, c).result.events) ==
            Trades([Accepted(c.orderId)] + Match(b, c.side, Taker(c.orderId, c.price, c.sequence), c.quantity).events)
  {
    hide Match, AfterMatch, Rest;
    var s := Match(b, c.side, Taker(c.orderId, c.price, c.sequence), c.quantity);
    var events := [Accepted(c.orderId)] + s.events;
    if s.leaves != 0 {
      TradesConcat(events, [Canceled(c.orderId, s.leaves, CANCEL_UNFILLED_REMAINDER)]);
      TradesConcat(events, [Rested(c.orderId, c.price, s.leaves)]);
    }
  }
}
