/** What every command does to a book and answers, said with bare comparisons of prices, quantities and
    sequence numbers and without the functions that compute it. */
module CommandLaws {
  import opened Model
  import opened PriceTimeBook
  import opened MatchingLaws
  import opened BookLaws
  import Levels

  // ---- Saying what happened ----

  /** The side that orders of this side rest on. */
  function OwnSide(b: Book, side: uint8): Queue {
    if side == SIDE_BUY then b.bids else b.asks
  }

  function OtherSide(b: Book, side: uint8): Queue {
    if side == SIDE_BUY then b.asks else b.bids
  }

  ghost predicate StandsOn(b: Book, o: Resting) {
    o in b.bids || o in b.asks
  }

  /** Price-time priority: the order stands behind all at its price or a better one, ahead of all at a worse
      one; nothing else moves. */
  ghost predicate Joins(side: uint8, before: Queue, after: Queue, o: Resting) {
    exists i :: 0 <= i <= |before| && JoinsAt(side, before, after, o, i)
  }

  ghost predicate JoinsAt(side: uint8, before: Queue, after: Queue, o: Resting, i: nat)
    requires i <= |before|
  {
    && after == before[..i] + [o] + before[i..]
    && (forall j :: 0 <= j < i ==> if side == SIDE_BUY then before[j].price >= o.price else before[j].price <= o.price)
    && (forall j :: i <= j < |before| ==> if side == SIDE_BUY then before[j].price < o.price else before[j].price > o.price)
  }

  /** The order is gone; nothing else moves. */
  ghost predicate Leaves(before: Queue, after: Queue, o: Resting) {
    exists i :: 0 <= i < |before| && before[i] == o && after == before[..i] + before[i + 1..]
  }

  /** This quantity was taken from the head of the list, order by order. */
  ghost predicate Eaten(before: Queue, after: Queue, qty: int) {
    exists k :: 0 <= k <= |before| && EatenTo(before, after, qty, k)
  }

  ghost predicate EatenTo(before: Queue, after: Queue, qty: int, k: nat)
    requires k <= |before|
  {
    var part := qty - TotalLeaves(before[..k]);
    || (part == 0 && after == before[k..])
    || (k < |before| && 0 < part < before[k].leaves
        && after == [before[k].(leaves := before[k].leaves - part)] + before[k + 1..])
  }

  ghost predicate OnlyFills(events: seq<Event>) {
    forall e :: e in events ==> e.kind == EVENT_TRADE || e.kind == EVENT_REDUCED
  }

  /** These fills took an exact beginning of the list, each at its maker's price, only the last in part. */
  ghost predicate Filled(isBid: bool, q: Queue, t: Taker, leaves: int64, n: uint64, s: Swept) {
    exists k, p :: Consumes(isBid, q, t, leaves, n, s, k, p)
  }

  /** The answer: accepted, the fills, and then this. */
  ghost predicate Answers(b: Book, a: Applied, side: uint8, t: Taker, left: int64, qty: int64, tail: seq<Event>) {
    exists fills :: a.result.events == [Accepted(t.id)] + fills + tail &&
      Filled(side == SIDE_SELL, OtherSide(b, side), t, qty, b.nextTradeSeq,
             Swept(OtherSide(a.book, side), left, a.book.nextTradeSeq, fills))
  }

  // ---- Matching ----

  /** Every trade is within the limit and names the taker. */
  ghost predicate FillsWithin(isBid: bool, t: Taker, events: seq<Event>) {
    && OnlyFills(events)
    && forall e :: e in events && e.kind == EVENT_TRADE ==>
         && e.takerId == t.id && e.quantity > 0
         && (t.limit == 0 || if isBid then e.price >= t.limit else e.price <= t.limit)
  }

  lemma {:induction false} SweepWithin(isBid: bool, q: Queue, t: Taker, leaves: int64, n: uint64)
    requires leaves >= 0
    ensures FillsWithin(isBid, t, Sweep(isBid, q, t, leaves, n).events)
    decreases leaves
  {
    hide TradeId;
    if leaves > 0 && q != [] && Takes(isBid, t.limit, q[0].price) {
      var m := Meet(q, t, leaves, n);
      SweepWithin(isBid, m.queue, t, m.leaves, m.nextTradeSeq);
    }
  }

  lemma SoundBestFirst(timed: bool, last: uint64, b: Book)
    requires Sound(timed, last, b)
    ensures BestFirst(true, b.bids) && BestFirst(false, b.asks)
  {
    forall i, j | 0 <= i < j < |b.bids| ensures !Ahead(true, b.bids[j].price, b.bids[i].price) {
      assert Before(timed, true, b.bids[i], b.bids[j]);
    }
    forall i, j | 0 <= i < j < |b.asks| ensures !Ahead(false, b.asks[j].price, b.asks[i].price) {
      assert Before(timed, false, b.asks[i], b.asks[j]);
    }
  }

  /** What a sweep of a best-first list takes, and what it leaves. */
  ghost predicate SweptRight(isBid: bool, q: Queue, limit: int64, leaves: int64, s: Swept) {
    && leaves - s.leaves == Traded(s.events) == Min(leaves, Acceptable(isBid, q, limit))
    && CanceledQty(s.events) == 0
    && Eaten(q, s.queue, leaves - s.leaves)
    && (s.leaves > 0 ==> forall o :: o in s.queue ==> limit != 0 && if isBid then o.price < limit else o.price > limit)
  }

  lemma SweepRight(isBid: bool, q: Queue, t: Taker, leaves: int64, n: uint64)
    requires leaves >= 0 && BestFirst(isBid, q)
    ensures SweptRight(isBid, q, t.limit, leaves, Sweep(isBid, q, t, leaves, n))
  {
    hide Sweep, Acceptable, Reachable, Traded, CanceledQty, TotalLeaves, Fills;
    var s := Sweep(isBid, q, t, leaves, n);
    SweepConserves(isBid, q, t, leaves, n);
    SweepFillsAllItCan(isBid, q, t, leaves, n);
    AllAcceptableReachable(isBid, q, t.limit);
    var k, p := SweepConsumesPrefix(isBid, q, t, leaves, n);
    assert EatenTo(q, s.queue, leaves - s.leaves, k);
    if s.leaves > 0 && k < |q| {
      forall o | o in s.queue ensures t.limit != 0 && if isBid then o.price < t.limit else o.price > t.limit {
        var i :| 0 <= i < |q[k..]| && q[k..][i] == o;
        assert o == q[k + i] && (i > 0 ==> !Ahead(isBid, q[k + i].price, q[k].price));
      }
    }
  }

  lemma SweepFilled(isBid: bool, q: Queue, t: Taker, leaves: int64, n: uint64)
    requires leaves >= 0
    ensures Filled(isBid, q, t, leaves, n, Sweep(isBid, q, t, leaves, n))
  {
    hide Sweep, Consumes;
    var k, p := SweepConsumesPrefix(isBid, q, t, leaves, n);
  }

  lemma {:induction false} InsertJoins(isBid: bool, q: Queue, o: Resting) returns (i: nat)
    requires BestFirst(isBid, q)
    ensures i <= |q| && JoinsAt(SideOf(isBid), q, Insert(isBid, q, o), o, i)
  {
    if q == [] {
      i := 0;
      assert q[..0] + [o] + q[0..] == [o];
    } else if Ahead(isBid, o.price, q[0].price) {
      i := 0;
      assert q[..0] + [o] + q[0..] == [o] + q;
      forall j | 0 <= j < |q| ensures if isBid then q[j].price < o.price else q[j].price > o.price {
        assert j > 0 ==> !Ahead(isBid, q[j].price, q[0].price);
      }
    } else {
      var rest := q[1..];
      forall a, b | 0 <= a < b < |rest| ensures !Ahead(isBid, rest[b].price, rest[a].price) {
        assert rest[a] == q[a + 1] && rest[b] == q[b + 1];
      }
      var k := InsertJoins(isBid, rest, o);
      i := k + 1;
      assert q[..i] == [q[0]] + rest[..k] && q[i..] == rest[k..];
      assert [q[0]] + (rest[..k] + [o] + rest[k..]) == q[..i] + [o] + q[i..];
      forall j | 0 <= j < i ensures if isBid then q[j].price >= o.price else q[j].price <= o.price {
        assert j > 0 ==> q[j] == rest[j - 1];
      }
      forall j | i <= j < |q| ensures if isBid then q[j].price < o.price else q[j].price > o.price {
        assert q[j] == rest[j - 1];
      }
    }
  }

  lemma RestJoins(timed: bool, last: uint64, b: Book, o: Resting)
    requires Sound(timed, last, b) && (o.side == SIDE_BUY || o.side == SIDE_SELL)
    ensures Joins(o.side, OwnSide(b, o.side), OwnSide(Rest(b, o), o.side), o)
    ensures OtherSide(Rest(b, o), o.side) == OtherSide(b, o.side) && Rest(b, o).nextTradeSeq == b.nextTradeSeq
  {
    SoundBestFirst(timed, last, b);
    var i := InsertJoins(o.side == SIDE_BUY, OwnSide(b, o.side), o);
  }

  // ---- New orders ----

  ghost predicate ProperNew(b: Book, c: Command) {
    && c.symbol == b.symbol && c.symbol != [] && c.kind == COMMAND_NEW && c.orderId != 0 && c.quantity > 0
    && (c.side == SIDE_BUY || c.side == SIDE_SELL)
    && (c.orderType == TYPE_MARKET || (c.orderType == TYPE_LIMIT && c.price > 0))
    && (c.tif == TIF_GTC || c.tif == TIF_IOC || c.tif == TIF_FOK)
  }

  /** What rests opposite the order within its price: all of it for a price of zero. */
  function Offered(b: Book, side: uint8, price: int64): nat {
    Acceptable(side == SIDE_SELL, OtherSide(b, side), price)
  }

  /** A fill-or-kill order is taken only when enough is there: for a limit order within its price, for a market
      order on the whole side. */
  ghost predicate Enough(b: Book, c: Command) {
    c.tif == TIF_FOK ==>
      c.quantity <= if c.orderType == TYPE_MARKET then TotalLeaves(OtherSide(b, c.side)) else Offered(b, c.side, c.price)
  }

  lemma EnoughIsAccepted(timed: bool, last: uint64, b: Book, c: Command)
    requires Sound(timed, last, b) && ProperNew(b, c)
    ensures Enough(b, c) <==> !FokRefuses(b, c)
  {
    SoundBestFirst(timed, last, b);
    var isBid, q := c.side == SIDE_SELL, OtherSide(b, c.side);
    if c.orderType == TYPE_MARKET {
      FokMarketSeesAll(isBid, q, c.price);
    } else {
      FokSeesReachable(isBid, q, c.orderType, c.price);
      AllAcceptableReachable(isBid, q, c.price);
    }
  }

  /** A new order is refused, and changes nothing, exactly when its id is on the book or it is a fill-or-kill
      order for which there is not enough. */
  lemma NewOrderRefused(timed: bool, last: uint64, b: Book, c: Command)
    requires Sound(timed, last, b) && ProperNew(b, c)
    ensures !Absent(b, c.orderId) ==> Apply(b, c) == Applied(b, Result(c.sequence, [Rejected(c.orderId, REJECT_DUPLICATE_ORDER_ID)]))
    ensures Absent(b, c.orderId) && !Enough(b, c) ==>
              Apply(b, c) == Applied(b, Result(c.sequence, [Rejected(c.orderId, REJECT_WOULD_NOT_FULLY_FILL)]))
    ensures Absent(b, c.orderId) && Enough(b, c) ==> Apply(b, c).result.events[..1] == [Accepted(c.orderId)]
  {
    hide Match, AfterMatch, Rest;
    EnoughIsAccepted(timed, last, b, c);
  }

  /** Matching against one side touches nothing else. */
  lemma MatchSides(b: Book, side: uint8, t: Taker, leaves: int64)
    requires leaves >= 0
    ensures var s := Match(b, side, t, leaves);
            && OwnSide(AfterMatch(b, side, s), side) == OwnSide(b, side) && OtherSide(AfterMatch(b, side, s), side) == s.queue
            && AfterMatch(b, side, s).nextTradeSeq == s.nextTradeSeq && 0 <= s.leaves <= leaves
  {
  }

  lemma MatchRight(timed: bool, last: uint64, b: Book, side: uint8, t: Taker, leaves: int64)
    requires Sound(timed, last, b) && leaves >= 0 && (side == SIDE_BUY || side == SIDE_SELL)
    ensures var s := Match(b, side, t, leaves);
            && SweptRight(side == SIDE_SELL, OtherSide(b, side), t.limit, leaves, s) && FillsWithin(side == SIDE_SELL, t, s.events)
            && Filled(side == SIDE_SELL, OtherSide(b, side), t, leaves, b.nextTradeSeq, s)
  {
    hide SweptRight, FillsWithin, Filled, Sweep;
    SweepFilled(side == SIDE_SELL, OtherSide(b, side), t, leaves, b.nextTradeSeq);
    SoundBestFirst(timed, last, b);
    SweepRight(side == SIDE_SELL, OtherSide(b, side), t, leaves, b.nextTradeSeq);
    SweepWithin(side == SIDE_SELL, OtherSide(b, side), t, leaves, b.nextTradeSeq);
  }

  /** What the fills of an answer add up to. */
  lemma AnswerTotals(id: uint64, fills: seq<Event>, tail: seq<Event>)
    ensures Traded([Accepted(id)] + fills + tail) == Traded(fills) + Traded(tail)
    ensures CanceledQty([Accepted(id)] + fills + tail) == CanceledQty(fills) + CanceledQty(tail)
  {
    TradedConcat([Accepted(id)] + fills, tail);
    TradedConcat([Accepted(id)], fills);
    assert [Accepted(id)][1..] == [];
  }

  /** Fills and what is left on the opposite side, said of the whole command. */
  ghost predicate MatchedRight(b: Book, a: Applied, side: uint8, id: uint64, limit: int64, qty: int64) {
    var traded := Traded(a.result.events);
    && traded == Min(qty, Offered(b, side, limit))
    && Eaten(OtherSide(b, side), OtherSide(a.book, side), traded)
    && (traded < qty ==> forall o :: o in OtherSide(a.book, side) ==>
          limit != 0 && if side == SIDE_BUY then o.price > limit else o.price < limit)
    && (forall e :: e in a.result.events && e.kind == EVENT_TRADE ==>
          && e.takerId == id && e.quantity > 0
          && (limit == 0 || if side == SIDE_BUY then e.price <= limit else e.price >= limit))
  }

  /** Fills with an answer around them. */
  lemma AnswerRight(b: Book, a: Applied, side: uint8, t: Taker, qty: int64, s: Swept, tail: seq<Event>)
    requires side == SIDE_BUY || side == SIDE_SELL
    requires SweptRight(side == SIDE_SELL, OtherSide(b, side), t.limit, qty, s) && FillsWithin(side == SIDE_SELL, t, s.events)
    requires Filled(side == SIDE_SELL, OtherSide(b, side), t, qty, b.nextTradeSeq, s)
    requires a.result.events == [Accepted(t.id)] + s.events + tail
    requires OtherSide(a.book, side) == s.queue && a.book.nextTradeSeq == s.nextTradeSeq
    requires Traded(tail) == 0 && forall e :: e in tail ==> e.kind != EVENT_TRADE
    ensures MatchedRight(b, a, side, t.id, t.limit, qty) && Answers(b, a, side, t, s.leaves, qty, tail)
    ensures Traded(a.result.events) == qty - s.leaves && CanceledQty(a.result.events) == CanceledQty(tail)
  {
    hide Traded, CanceledQty, Acceptable, Eaten, Filled;
    assert s == Swept(OtherSide(a.book, side), s.leaves, a.book.nextTradeSeq, s.events);
    AnswerTotals(t.id, s.events, tail);
  }

  lemma OneEvent(e: Event)
    ensures Traded([e]) == (if e.kind == EVENT_TRADE then e.quantity else 0)
    ensures CanceledQty([e]) == if e.kind == EVENT_CANCELED then e.canceled else 0
    ensures Traded([]) == 0 && CanceledQty([]) == 0
  {
    assert [e][1..] == [];
  }

  /** The end of a new order's answer. */
  function NewTail(c: Command, left: int64): seq<Event> {
    if left == 0 then []
    else if c.orderType == TYPE_MARKET || c.tif != TIF_GTC then [Canceled(c.orderId, left, CANCEL_UNFILLED_REMAINDER)]
    else [Rested(c.orderId, c.price, left)]
  }

  lemma NewApplied(b: Book, c: Command)
    requires ProperNew(b, c) && Absent(b, c.orderId) && !FokRefuses(b, c)
    ensures var s := Match(b, c.side, Taker(c.orderId, c.price, c.sequence), c.quantity);
            var matched := AfterMatch(b, c.side, s);
            var dropped := c.orderType == TYPE_MARKET || c.tif != TIF_GTC;
            (c.tif == TIF_FOK && c.orderType == TYPE_LIMIT ==> s.leaves == 0) ==>
              Apply(b, c) ==
              Applied(if s.leaves == 0 || dropped then matched
                      else Rest(matched, Resting(c.orderId, c.side, c.price, s.leaves, c.sequence)),
                      Result(c.sequence, [Accepted(c.orderId)] + s.events + NewTail(c, s.leaves)))
  {
    hide Match, AfterMatch, Rest, FokRefuses;
    var s := Match(b, c.side, Taker(c.orderId, c.price, c.sequence), c.quantity);
    assert Lookup(b, c.orderId).None?;
    assert [Accepted(c.orderId)] + s.events + [] == [Accepted(c.orderId)] + s.events;
  }

  /** An accepted new order trades all it can within its price, in price-time order. What is left of a market
      order, or under any policy but good-till-cancelled, is cancelled: the order is not on the book and no
      event says that it rests. What is left of a good-till-cancelled limit order, and nothing else, rests
      with its price and sequence behind its equals, and nothing is cancelled. */
  lemma NewOrderDone(timed: bool, last: uint64, b: Book, c: Command)
    requires Sound(timed, last, b) && ProperNew(b, c) && Absent(b, c.orderId) && Enough(b, c)
    ensures var a := Apply(b, c); var events := a.result.events; var left := c.quantity - Traded(events);
            && a.result.sequence == c.sequence && 0 <= left <= c.quantity
            && MatchedRight(b, a, c.side, c.orderId, c.price, c.quantity)
            && Answers(b, a, c.side, Taker(c.orderId, c.price, c.sequence), left, c.quantity, NewTail(c, left))
            && (c.orderType == TYPE_MARKET || c.tif != TIF_GTC ==>
                  && Absent(a.book, c.orderId) && OwnSide(a.book, c.side) == OwnSide(b, c.side)
                  && CanceledQty(events) == left && forall e :: e in events ==> e.kind != EVENT_RESTED)
            && (c.orderType == TYPE_LIMIT && c.tif == TIF_GTC ==>
                  && CanceledQty(events) == 0 && (forall e :: e in events ==> e.kind != EVENT_CANCELED)
                  && (left == 0 ==> Absent(a.book, c.orderId) && OwnSide(a.book, c.side) == OwnSide(b, c.side))
                  && (left > 0 ==> Joins(c.side, OwnSide(b, c.side), OwnSide(a.book, c.side),
                                         Resting(c.orderId, c.side, c.price, left, c.sequence))))
  {
    hide Match, AfterMatch, Rest, Acceptable, Traded, CanceledQty, Eaten, Joins, Sound, FokRefuses, Canceled, Rested;
    var t := Taker(c.orderId, c.price, c.sequence);
    var s := Match(b, c.side, t, c.quantity);
    var matched := AfterMatch(b, c.side, s);
    EnoughIsAccepted(timed, last, b, c);
    MatchRight(timed, last, b, c.side, t, c.quantity);
    MatchSides(b, c.side, t, c.quantity);
    MatchAbsent(b, c.side, t, c.quantity, c.orderId);
    NewApplied(b, c);
    TailTotals(c, s.leaves);
    if s.leaves > 0 && c.orderType == TYPE_LIMIT && c.tif == TIF_GTC {
      MatchSound(timed, last, b, c.side, t, c.quantity);
      RestJoins(timed, last, matched, Resting(c.orderId, c.side, c.price, s.leaves, c.sequence));
    }
    FokIsFilled(b, c, s);
    AnswerRight(b, Apply(b, c), c.side, t, c.quantity, s, NewTail(c, s.leaves));
  }

  /** An accepted fill-or-kill limit order has nothing left. */
  lemma FokIsFilled(b: Book, c: Command, s: Swept)
    requires ProperNew(b, c) && Enough(b, c)
    requires SweptRight(c.side == SIDE_SELL, OtherSide(b, c.side), c.price, c.quantity, s)
    ensures c.tif == TIF_FOK && c.orderType == TYPE_LIMIT ==> s.leaves == 0
  {
  }

  lemma TailTotals(c: Command, left: int64)
    requires left >= 0
    ensures Traded(NewTail(c, left)) == 0
    ensures CanceledQty(NewTail(c, left)) == if c.orderType == TYPE_MARKET || c.tif != TIF_GTC then left else 0
    ensures forall e :: e in NewTail(c, left) ==>
              e.kind == if c.orderType == TYPE_MARKET || c.tif != TIF_GTC then EVENT_CANCELED else EVENT_RESTED
  {
    OneEvent(Canceled(c.orderId, left, CANCEL_UNFILLED_REMAINDER));
    OneEvent(Rested(c.orderId, c.price, left));
  }

  // ---- Orders found on the book ----

  ghost predicate Distinct(q: Queue) {
    forall i, j :: 0 <= i < j < |q| ==> q[i].id != q[j].id
  }

  /** The order has new leaves; nothing else changes. */
  ghost predicate Resized(before: Queue, after: Queue, o: Resting, leaves: quantity) {
    exists i :: 0 <= i < |before| && before[i] == o && after == before[..i] + [o.(leaves := leaves)] + before[i + 1..]
  }

  lemma {:induction false} WithLeavesElsewhere(q: Queue, id: uint64, leaves: quantity)
    requires forall o :: o in q ==> o.id != id
    ensures WithLeaves(q, id, leaves) == q && Without(q, id) == q
  {
    if q != [] {
      WithLeavesElsewhere(q[1..], id, leaves);
    }
  }

  lemma {:induction false} ResizedAt(q: Queue, o: Resting, leaves: quantity, i: nat)
    requires Distinct(q) && i < |q| && q[i] == o
    ensures WithLeaves(q, o.id, leaves) == q[..i] + [o.(leaves := leaves)] + q[i + 1..]
    ensures Without(q, o.id) == q[..i] + q[i + 1..]
  {
    var rest := q[1..];
    if i == 0 {
      forall x | x in rest ensures x.id != o.id {
        var j :| 0 <= j < |rest| && rest[j] == x;
        assert q[j + 1] == x;
      }
      WithLeavesElsewhere(rest, o.id, leaves);
    } else {
      forall j, k | 0 <= j < k < |rest| ensures rest[j].id != rest[k].id {
        assert rest[j] == q[j + 1] && rest[k] == q[k + 1];
      }
      ResizedAt(rest, o, leaves, i - 1);
      assert q[..i] == [q[0]] + rest[..i - 1] && q[i + 1..] == rest[i..];
    }
  }

  /** Where an order found by its id is. */
  lemma FoundOrder(timed: bool, last: uint64, b: Book, o: Resting)
    requires Sound(timed, last, b) && StandsOn(b, o)
    ensures Lookup(b, o.id) == Some(o) && (o.side == SIDE_BUY || o.side == SIDE_SELL) && o.price > 0
    ensures o in OwnSide(b, o.side) && Distinct(OwnSide(b, o.side))
    ensures forall x :: x in OtherSide(b, o.side) ==> x.id != o.id
  {
    forall q: Queue, isBid, x, y | Ranked(timed, isBid, last, q) && x in q && y in q && x.id == y.id ensures x == y {
      var i :| 0 <= i < |q| && q[i] == x;
      var j :| 0 <= j < |q| && q[j] == y;
      assert i < j ==> Before(timed, isBid, q[i], q[j]);
      assert j < i ==> Before(timed, isBid, q[j], q[i]);
    }
    assert o in b.bids ==> Fit(timed, true, last, o);
    assert o in b.asks ==> Fit(timed, false, last, o);
    var own, isBid := OwnSide(b, o.side), o.side == SIDE_BUY;
    forall i, j | 0 <= i < j < |own| ensures own[i].id != own[j].id {
      assert Before(timed, isBid, own[i], own[j]);
    }
  }

  // ---- Cancelling ----

  /** Cancelling takes exactly the named order off its side and reports what it had left; an id that is not on
      the book is refused and changes nothing. */
  lemma CancelTakesOut(timed: bool, last: uint64, b: Book, c: Command)
    requires Sound(timed, last, b) && c.symbol == b.symbol && c.symbol != []
    requires c.kind == COMMAND_CANCEL && c.orderId != 0
    ensures forall o :: StandsOn(b, o) && o.id == c.orderId ==>
              var a := Apply(b, c);
              && a.result == Result(c.sequence, [Accepted(c.orderId), Canceled(c.orderId, o.leaves, CANCEL_BY_USER)])
              && Leaves(OwnSide(b, o.side), OwnSide(a.book, o.side), o) && OtherSide(a.book, o.side) == OtherSide(b, o.side)
              && a.book.nextTradeSeq == b.nextTradeSeq
    ensures Absent(b, c.orderId) ==> Apply(b, c) == Applied(b, Result(c.sequence, [Rejected(c.orderId, REJECT_UNKNOWN_ORDER_ID)]))
  {
    hide Sound;
    forall o | StandsOn(b, o) && o.id == c.orderId
      ensures Lookup(b, c.orderId) == Some(o)
      ensures Leaves(OwnSide(b, o.side), OwnSide(Remove(b, o.id), o.side), o)
      ensures OtherSide(Remove(b, o.id), o.side) == OtherSide(b, o.side)
    {
      FoundOrder(timed, last, b, o);
      RemovedRight(b, o);
    }
  }

  lemma RemovedRight(b: Book, o: Resting)
    requires o.side == SIDE_BUY || o.side == SIDE_SELL
    requires o in OwnSide(b, o.side) && Distinct(OwnSide(b, o.side)) && forall x :: x in OtherSide(b, o.side) ==> x.id != o.id
    ensures Leaves(OwnSide(b, o.side), OwnSide(Remove(b, o.id), o.side), o)
    ensures OtherSide(Remove(b, o.id), o.side) == OtherSide(b, o.side)
  {
    var own := OwnSide(b, o.side);
    var i :| 0 <= i < |own| && own[i] == o;
    ResizedAt(own, o, o.leaves, i);
    WithLeavesElsewhere(OtherSide(b, o.side), o.id, o.leaves);
  }

  lemma AmendedRight(b: Book, o: Resting, leaves: quantity)
    requires o.side == SIDE_BUY || o.side == SIDE_SELL
    requires o in OwnSide(b, o.side) && Distinct(OwnSide(b, o.side)) && forall x :: x in OtherSide(b, o.side) ==> x.id != o.id
    ensures var b' := b.(bids := WithLeaves(b.bids, o.id, leaves), asks := WithLeaves(b.asks, o.id, leaves));
            && Resized(OwnSide(b, o.side), OwnSide(b', o.side), o, leaves) && OtherSide(b', o.side) == OtherSide(b, o.side)
  {
    var own := OwnSide(b, o.side);
    var i :| 0 <= i < |own| && own[i] == o;
    ResizedAt(own, o, leaves, i);
    WithLeavesElsewhere(OtherSide(b, o.side), o.id, leaves);
  }

  // ---- Replacing ----

  ghost predicate ProperReplace(b: Book, c: Command, o: Resting) {
    && c.symbol == b.symbol && c.symbol != [] && c.kind == COMMAND_REPLACE && c.orderId != 0
    && c.newLeaves > 0 && c.newPrice >= 0 && StandsOn(b, o) && o.id == c.orderId
  }

  /** No other price and no more quantity. */
  ghost predicate KeepsPlace(o: Resting, c: Command) {
    (c.newPrice == 0 || c.newPrice == o.price) && c.newLeaves <= o.leaves
  }

  /** A replacement that asks for no other price and no more quantity leaves every order in its place and
      trades nothing; it says so, and says what was taken off when anything was. */
  lemma ReplaceKeepsPlace(timed: bool, last: uint64, b: Book, c: Command, o: Resting)
    requires Sound(timed, last, b) && ProperReplace(b, c, o) && KeepsPlace(o, c)
    ensures var a := Apply(b, c);
            && Resized(OwnSide(b, o.side), OwnSide(a.book, o.side), o, c.newLeaves)
            && OtherSide(a.book, o.side) == OtherSide(b, o.side) && a.book.nextTradeSeq == b.nextTradeSeq
            && a.result == Result(c.sequence,
                                  [Accepted(c.orderId)] + (if c.newLeaves < o.leaves then [Reduced(c.orderId, c.newLeaves)] else [])
                                  + [Replaced(c.orderId, o.price, c.newLeaves, true)])
  {
    hide Sound, Resized;
    FoundOrder(timed, last, b, o);
    AmendedRight(b, o, c.newLeaves);
  }

  /** The end of the answer to a replacement that loses its place. */
  function ReplaceTail(id: uint64, price: int64, left: int64): seq<Event> {
    (if left > 0 then [Rested(id, price, left)] else []) + [Replaced(id, price, left, false)]
  }

  lemma ReplaceTailTotals(id: uint64, price: int64, left: int64)
    ensures Traded(ReplaceTail(id, price, left)) == 0 && CanceledQty(ReplaceTail(id, price, left)) == 0
    ensures forall e :: e in ReplaceTail(id, price, left) ==> e.kind == EVENT_RESTED || e.kind == EVENT_REPLACED
  {
    hide Traded, CanceledQty;
    var end := Replaced(id, price, left, false);
    OneEvent(end);
    if left > 0 {
      OneEvent(Rested(id, price, left));
      TradedConcat([Rested(id, price, left)], [end]);
    } else {
      assert ReplaceTail(id, price, left) == [end];
    }
  }

  /** Only this order is gone. */
  ghost predicate Clears(b: Book, cleared: Book, o: Resting) {
    && Leaves(OwnSide(b, o.side), OwnSide(cleared, o.side), o) && OtherSide(cleared, o.side) == OtherSide(b, o.side)
    && cleared.nextTradeSeq == b.nextTradeSeq
  }

  /** Any other replacement takes the order off the book, trades the new quantity within the new price, in
      price-time order, and rests what is left with the command's sequence behind its equals; it says that the
      place was lost, and cancels nothing. */
  lemma ReplaceLosesPlace(timed: bool, last: uint64, b: Book, c: Command, o: Resting)
    requires Sound(timed, last, b) && ProperReplace(b, c, o) && !KeepsPlace(o, c)
    ensures var p := if c.newPrice == 0 then o.price else c.newPrice;
            exists cleared :: Clears(b, cleared, o) && Replaces(cleared, Apply(b, c), c, o.side, p)
  {
    hide Sound, Match, AfterMatch, Rest, Remove, Leaves, Replaces;
    var p := if c.newPrice == 0 then o.price else c.newPrice;
    FoundOrder(timed, last, b, o);
    RemovedRight(b, o);
    RemoveSound(timed, last, b, c.orderId);
    RemoveAbsent(b, c.orderId);
    var cleared := Remove(b, c.orderId);
    assert cleared.nextTradeSeq == b.nextTradeSeq by { RemoveKeeps(b, c.orderId); }
    ReenterReplaces(timed, last, cleared, c, o.side, p);
    assert Clears(b, cleared, o);
    assert Apply(b, c) == Reenter(cleared, c, o.side, p);
  }

  lemma RemoveKeeps(b: Book, id: uint64)
    ensures Remove(b, id).nextTradeSeq == b.nextTradeSeq
  {
  }

  /** What such a replacement does to the book without the old order. */
  ghost predicate Replaces(b: Book, a: Applied, c: Command, side: uint8, price: int64) {
    var events := a.result.events;
    var left := c.newLeaves - Traded(events);
    && a.result.sequence == c.sequence && 0 <= left <= c.newLeaves && CanceledQty(events) == 0
    && MatchedRight(b, a, side, c.orderId, price, c.newLeaves)
    && Answers(b, a, side, Taker(c.orderId, price, c.sequence), left, c.newLeaves, ReplaceTail(c.orderId, price, left))
    && (left == 0 ==> OwnSide(a.book, side) == OwnSide(b, side))
    && (left > 0 ==> Joins(side, OwnSide(b, side), OwnSide(a.book, side), Resting(c.orderId, side, price, left, c.sequence)))
  }

  lemma ReenterReplaces(timed: bool, last: uint64, b: Book, c: Command, side: uint8, price: int64)
    requires Sound(timed, last, b) && c.newLeaves > 0 && (side == SIDE_BUY || side == SIDE_SELL)
    ensures Replaces(b, Reenter(b, c, side, price), c, side, price)
  {
    hide Match, AfterMatch, Rest, Acceptable, Traded, CanceledQty, Eaten, Joins, Sound, SweptRight, FillsWithin, Filled,
         MatchedRight, Answers, Reenter, ReplaceTail;
    var t := Taker(c.orderId, price, c.sequence);
    var s := Match(b, side, t, c.newLeaves);
    var matched := AfterMatch(b, side, s);
    MatchRight(timed, last, b, side, t, c.newLeaves);
    MatchSides(b, side, t, c.newLeaves);
    ReplaceTailTotals(c.orderId, price, s.leaves);
    if s.leaves > 0 {
      MatchSound(timed, last, b, side, t, c.newLeaves);
      RestJoins(timed, last, matched, Resting(c.orderId, side, price, s.leaves, c.sequence));
    }
    ReenterApplied(b, c, side, price);
    AnswerRight(b, Reenter(b, c, side, price), side, t, c.newLeaves, s, ReplaceTail(c.orderId, price, s.leaves));
  }

  lemma ReenterApplied(b: Book, c: Command, side: uint8, price: int64)
    requires c.newLeaves > 0
    ensures var s := Match(b, side, Taker(c.orderId, price, c.sequence), c.newLeaves);
            var matched := AfterMatch(b, side, s);
            Reenter(b, c, side, price) ==
            Applied(if s.leaves == 0 then matched else Rest(matched, Resting(c.orderId, side, price, s.leaves, c.sequence)),
                    Result(c.sequence, [Accepted(c.orderId)] + s.events + ReplaceTail(c.orderId, price, s.leaves)))
  {
    hide Match, AfterMatch, Rest, Accepted, Rested, Replaced;
    var t := Taker(c.orderId, price, c.sequence);
    var s := Match(b, side, t, c.newLeaves);
    MatchSides(b, side, t, c.newLeaves);
    if s.leaves == 0 {
      assert ReplaceTail(c.orderId, price, 0) == [Replaced(c.orderId, price, 0, false)];
    } else {
      assert ReplaceTail(c.orderId, price, s.leaves)
          == [Rested(c.orderId, price, s.leaves), Replaced(c.orderId, price, s.leaves, false)];
    }
  }

  // ---- Every command ----

  /** A command the book understands. */
  ghost predicate Proper(b: Book, c: Command) {
    && c.symbol == b.symbol && c.symbol != [] && c.orderId != 0
    && (ProperNew(b, c) || c.kind == COMMAND_CANCEL || (c.kind == COMMAND_REPLACE && c.newLeaves > 0 && c.newPrice >= 0))
  }

  /** Only these reasons are given to a command for its own fields, and each names a field that is wrong. */
  ghost predicate Blames(b: Book, c: Command, reason: uint16) {
    || (reason == REJECT_INVALID_SYMBOL && (c.symbol != b.symbol || c.symbol == []))
    || (reason == REJECT_INVALID_ORDER_ID && c.orderId == 0)
    || (reason == REJECT_INVALID_SIDE && c.kind == COMMAND_NEW && c.side != SIDE_BUY && c.side != SIDE_SELL)
    || (reason == REJECT_INVALID_ORDER_TYPE && c.kind == COMMAND_NEW && c.orderType != TYPE_LIMIT && c.orderType != TYPE_MARKET)
    || (reason == REJECT_INVALID_TIF && c.kind == COMMAND_NEW && c.tif != TIF_GTC && c.tif != TIF_IOC && c.tif != TIF_FOK)
    || (reason == REJECT_INVALID_QUANTITY && c.kind == COMMAND_NEW && c.quantity <= 0)
    || (reason == REJECT_INVALID_PRICE && c.kind == COMMAND_NEW && c.orderType == TYPE_LIMIT && c.price <= 0)
    || (reason == REJECT_INVALID_REPLACE && c.kind == COMMAND_REPLACE && (c.newLeaves <= 0 || c.newPrice < 0))
    || (reason == REJECT_INVALID_COMMAND_TYPE && c.kind != COMMAND_NEW && c.kind != COMMAND_CANCEL && c.kind != COMMAND_REPLACE)
  }

  /** The one rejection due. */
  ghost predicate Refuses(b: Book, c: Command, events: seq<Event>) {
    && |events| == 1 && events[0] == Rejected(c.orderId, events[0].reason)
    && if !Proper(b, c) then Blames(b, c, events[0].reason)
       else if c.kind != COMMAND_NEW then events[0].reason == REJECT_UNKNOWN_ORDER_ID
       else events[0].reason == if Absent(b, c.orderId) then REJECT_WOULD_NOT_FULLY_FILL else REJECT_DUPLICATE_ORDER_ID
  }

  /** A command is accepted exactly when its fields are in order and the book allows it: a new order needs a
      fresh id and, under fill-or-kill, enough to fill it; a cancel or a replacement needs its order on the
      book. A command that is not accepted changes nothing and is answered with the one rejection due. */
  lemma AcceptedExactly(timed: bool, last: uint64, b: Book, c: Command)
    requires Sound(timed, last, b)
    ensures var a := Apply(b, c); var unused := Absent(b, c.orderId);
            && a.result.sequence == c.sequence
            && (Proper(b, c) && (if c.kind == COMMAND_NEW then unused && Enough(b, c) else !unused) <==>
                  Accepted(c.orderId) in a.result.events)
            && (Accepted(c.orderId) !in a.result.events ==> a.book == b && Refuses(b, c, a.result.events))
  {
    hide Sound, Match, AfterMatch, Rest, Enough, FokRefuses, Remove, WithLeaves;
    if Proper(b, c) && c.kind == COMMAND_NEW {
      EnoughIsAccepted(timed, last, b, c);
    } else if Proper(b, c) && !Absent(b, c.orderId) {
      FoundSide(timed, last, b, c.orderId);
    }
    var a := Apply(b, c);
    assert a.result.events != [];
    if a.result.events[0].kind == EVENT_REJECTED {
      assert a.result.events[0] == Rejected(c.orderId, a.result.events[0].reason);
    } else {
      assert a.result.events[0] == Accepted(c.orderId);
    }
  }

  ghost predicate PriceWithin(side: uint8, limit: int64, e: Event) {
    if side == SIDE_BUY then e.price <= limit else e.price >= limit
  }

  /** No command trades outside its limit: a priced buy pays at most its price and a priced sell gets at least
      it, where a replacement without a price goes by the price of the order it replaces. */
  lemma TradesWithinLimit(timed: bool, last: uint64, b: Book, c: Command, e: Event)
    requires Sound(timed, last, b) && e in Apply(b, c).result.events && e.kind == EVENT_TRADE
    ensures e.takerId == c.orderId && e.quantity > 0 && (c.kind == COMMAND_NEW || c.kind == COMMAND_REPLACE)
    ensures c.kind == COMMAND_NEW && c.price != 0 ==> PriceWithin(c.side, c.price, e)
    ensures c.kind == COMMAND_REPLACE ==>
              exists o :: StandsOn(b, o) && o.id == c.orderId
                && PriceWithin(o.side, if c.newPrice == 0 then o.price else c.newPrice, e)
  {
    hide Sound, Match, AfterMatch, Rest, Remove, Enter, Cancel, Replace, FokRefuses, Traded, CanceledQty, Eaten, Offered, Joins, Answers;
    AcceptedExactly(timed, last, b, c);
    assert Accepted(c.orderId) in Apply(b, c).result.events;
    if c.kind == COMMAND_NEW {
      NewOrderDone(timed, last, b, c);
    } else {
      var o :| StandsOn(b, o) && o.id == c.orderId;
      if c.kind == COMMAND_CANCEL {
        CancelTakesOut(timed, last, b, c);
        assert false;
      } else if KeepsPlace(o, c) {
        ReplaceKeepsPlace(timed, last, b, c, o);
        assert false;
      } else {
        FoundOrder(timed, last, b, o);
        ReplaceLosesPlace(timed, last, b, c, o);
      }
    }
  }
}
