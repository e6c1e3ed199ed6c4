/** What matching does to the opposite side, said without mentioning how it loops. */
module MatchingLaws {
  import opened Model
  import opened PriceTimeBook

  /** n uint64 increments. */
  function Add64(n: uint64, k: nat): uint64 {
    (n + k) % 0x1_0000_0000_0000_0000
  }

  /** The trades of a taker that fills these orders completely, in this order. */
  function Fills(q: Queue, t: Taker, n: uint64): seq<Event> {
    if q == [] then []
    else [Trade(TradeId(t.sequence, n), q[0].id, t.id, q[0].price, q[0].leaves)] + Fills(q[1..], t, Succ64(n))
  }

  /** The last, partial fill of a sweep: the maker stays, reduced. */
  function PartialFill(maker: Resting, t: Taker, n: uint64, qty: int64): seq<Event>
    requires 0 < qty < maker.leaves
  {
    [Trade(TradeId(t.sequence, n), maker.id, t.id, maker.price, qty), Reduced(maker.id, maker.leaves - qty)]
  }

  /** The outcome of filling the first k orders and taking p from the next. */
  ghost predicate Consumes(isBid: bool, q: Queue, t: Taker, leaves: int64, n: uint64, r: Swept, k: nat, p: int64) {
    && k <= |q| && 0 <= p
    && (forall i :: 0 <= i < k ==> t.limit == 0 || if isBid then q[i].price >= t.limit else q[i].price <= t.limit)
    && r.leaves == leaves - TotalLeaves(q[..k]) - p
    && (p == 0 ==>
          && r.queue == q[k..] && r.events == Fills(q[..k], t, n) && r.nextTradeSeq == Add64(n, k)
          && (r.leaves == 0 || k == |q| || (t.limit != 0 && if isBid then q[k].price < t.limit else q[k].price > t.limit)))
    && (p > 0 ==>
          && k < |q| && (t.limit == 0 || if isBid then q[k].price >= t.limit else q[k].price <= t.limit)
          && p < q[k].leaves && r.leaves == 0
          && r.queue == [q[k].(leaves := q[k].leaves - p)] + q[k + 1..]
          && r.events == Fills(q[..k], t, n) + PartialFill(q[k], t, Add64(n, k), p)
          && r.nextTradeSeq == Add64(n, k + 1))
  }

  lemma Add64Succ(n: uint64, k: nat)
    ensures Add64(Succ64(n), k) == Add64(n, k + 1) && Add64(n, 0) == n && Add64(n, 1) == Succ64(n)
  {
  }

  /** A sweep fills an exact prefix of the price-time order, at the makers' prices, every maker
      completely but possibly the last, and stops only when it is filled or the next price is not
      acceptable. */
  lemma {:induction false} SweepConsumesPrefix(isBid: bool, q: Queue, t: Taker, leaves: int64, n: uint64)
    returns (k: nat, p: int64)
    requires leaves >= 0
    ensures Consumes(isBid, q, t, leaves, n, Sweep(isBid, q, t, leaves, n), k, p)
    decreases leaves
  {
    hide Consumes, TradeId, Add64;
    k, p := 0, 0;
    if leaves > 0 && q != [] && Takes(isBid, t.limit, q[0].price) {
      if leaves >= q[0].leaves {
        k, p := SweepConsumesPrefix(isBid, q[1..], t, leaves - q[0].leaves, Succ64(n));
        ConsumesOneMore(isBid, q, t, leaves, n, Sweep(isBid, q[1..], t, leaves - q[0].leaves, Succ64(n)), k, p);
        k := k + 1;
      } else {
        p := leaves;
        ConsumesPart(isBid, q, t, leaves, n);
      }
    } else {
      ConsumesNothing(isBid, q, t, leaves, n);
    }
  }

  lemma ConsumesNothing(isBid: bool, q: Queue, t: Taker, leaves: int64, n: uint64)
    requires leaves >= 0 && (leaves == 0 || q == [] || !Takes(isBid, t.limit, q[0].price))
    ensures Consumes(isBid, q, t, leaves, n, Swept(q, leaves, n, []), 0, 0)
  {
    assert q[0..] == q;
  }

  lemma ConsumesPart(isBid: bool, q: Queue, t: Taker, leaves: int64, n: uint64)
    requires q != [] && 0 < leaves < q[0].leaves && Takes(isBid, t.limit, q[0].price)
    ensures Consumes(isBid, q, t, leaves, n, Sweep(isBid, q, t, leaves, n), 0, leaves)
  {
    var m := Meet(q, t, leaves, n);
    Add64Succ(n, 0);
    assert Sweep(isBid, m.queue, t, 0, m.nextTradeSeq) == Swept(m.queue, 0, m.nextTradeSeq, []);
    assert m.events + [] == m.events && [] + m.events == m.events && q[..0] == [];
  }

  lemma ConsumesOneMore(isBid: bool, q: Queue, t: Taker, leaves: int64, n: uint64, r: Swept, k: nat, p: int64)
    requires q != [] && Takes(isBid, t.limit, q[0].price) && leaves >= q[0].leaves
    requires Consumes(isBid, q[1..], t, leaves - q[0].leaves, Succ64(n), r, k, p)
    ensures var trade := Trade(TradeId(t.sequence, n), q[0].id, t.id, q[0].price, q[0].leaves);
            Consumes(isBid, q, t, leaves, n, r.(events := [trade] + r.events), k + 1, p)
  {
    Add64Succ(n, k);
    Add64Succ(n, k + 1);
    assert q[..k + 1][0] == q[0] && q[..k + 1][1..] == q[1..][..k];
    assert q[1..][k..] == q[k + 1..];
    if p > 0 {
      assert q[1..][k + 1..] == q[k + 2..];
      var trade := Trade(TradeId(t.sequence, n), q[0].id, t.id, q[0].price, q[0].leaves);
      assert [trade] + (Fills(q[1..][..k], t, Succ64(n)) + PartialFill(q[k + 1], t, Add64(n, k + 1), p))
          == ([trade] + Fills(q[1..][..k], t, Succ64(n))) + PartialFill(q[k + 1], t, Add64(n, k + 1), p);
    }
  }

  /** The resting quantity a taker's limit accepts, counted from the head of the list. */
  function Reachable(isBid: bool, q: Queue, limit: int64): nat {
    if q == [] then 0
    else if limit == 0 || (if isBid then q[0].price >= limit else q[0].price <= limit)
    then q[0].leaves + Reachable(isBid, q[1..], limit)
    else 0
  }

  /** The resting quantity within a taker's limit anywhere in the list: bids at or above it, asks at or below
      it, everything when there is no limit. */
  function Acceptable(isBid: bool, q: Queue, limit: int64): nat {
    if q == [] then 0
    else
      (if limit == 0 || (if isBid then q[0].price >= limit else q[0].price <= limit) then q[0].leaves else 0)
      + Acceptable(isBid, q[1..], limit)
  }

  ghost predicate BestFirst(isBid: bool, q: Queue) {
    forall i, j :: 0 <= i < j < |q| ==> if isBid then q[i].price >= q[j].price else q[i].price <= q[j].price
  }

  lemma {:induction false} NothingAcceptable(isBid: bool, q: Queue, limit: int64)
    requires forall o :: o in q ==> !Takes(isBid, limit, o.price)
    ensures Acceptable(isBid, q, limit) == 0
  {
    if q != [] {
      NothingAcceptable(isBid, q[1..], limit);
    }
  }

  /** On a best-first list no acceptable order hides behind an unacceptable one. */
  lemma {:induction false} AllAcceptableReachable(isBid: bool, q: Queue, limit: int64)
    requires BestFirst(isBid, q)
    ensures Reachable(isBid, q, limit) == Acceptable(isBid, q, limit)
  {
    if q != [] {
      if Takes(isBid, limit, q[0].price) {
        AllAcceptableReachable(isBid, q[1..], limit);
      } else {
        forall o | o in q ensures !Takes(isBid, limit, o.price) {
          var i :| 0 <= i < |q| && q[i] == o;
        }
        NothingAcceptable(isBid, q, limit);
      }
    }
  }

  /** Matching fills as much as the taker wants and the book can give, never less. */
  lemma {:induction false} SweepFillsAllItCan(isBid: bool, q: Queue, t: Taker, leaves: int64, n: uint64)
    requires leaves >= 0
    ensures leaves - Sweep(isBid, q, t, leaves, n).leaves == Min(leaves, Reachable(isBid, q, t.limit))
    decreases leaves
  {
    if leaves > 0 && q != [] && Takes(isBid, t.limit, q[0].price) {
      var m := Meet(q, t, leaves, n);
      if leaves >= q[0].leaves {
        SweepFillsAllItCan(isBid, q[1..], t, m.leaves, m.nextTradeSeq);
      }
    }
  }

  lemma {:induction false} FokSeesReachable(isBid: bool, q: Queue, orderType: uint8, limit: int64)
    requires if orderType == TYPE_MARKET then limit == 0 else limit != 0
    ensures FokQuantity(isBid, q, orderType, limit) == Reachable(isBid, q, limit)
  {
    if q != [] && Takes(isBid, limit, q[0].price) {
      FokSeesReachable(isBid, q[1..], orderType, limit);
    }
  }

  lemma {:induction false} FokMarketSeesAll(isBid: bool, q: Queue, limit: int64)
    ensures FokQuantity(isBid, q, TYPE_MARKET, limit) == TotalLeaves(q)
    ensures Reachable(isBid, q, limit) <= TotalLeaves(q)
  {
    if q != [] {
      FokMarketSeesAll(isBid, q[1..], limit);
    }
  }

  /** A validated new order that has the fill-or-kill policy and a fresh id. */
  ghost predicate IsFok(b: Book, c: Command) {
    Validates(c) && c.kind == COMMAND_NEW && c.symbol == b.symbol && c.tif == TIF_FOK && Absent(b, c.orderId)
  }

  /** What matching the order would leave unfilled. */
  function Unfilled(b: Book, c: Command): int64
    requires c.quantity > 0
  {
    Match(b, c.side, Taker(c.orderId, c.price, c.sequence), c.quantity).leaves
  }

  ghost function ReachableFor(b: Book, c: Command): nat {
    Reachable(c.side != SIDE_BUY, Opposite(b, c.side), c.price)
  }

  /** For a limit order, and for a market order without a price, fill-or-kill means what it says:
      accepted exactly when matching leaves nothing. A refused order changes nothing. */
  lemma FokIsAllOrNothing(b: Book, c: Command)
    requires IsFok(b, c) && (c.orderType == TYPE_LIMIT || c.price == 0)
    ensures FokRefuses(b, c) <==> Unfilled(b, c) > 0
    ensures FokRefuses(b, c) <==> ReachableFor(b, c) < c.quantity
    ensures FokRefuses(b, c) ==> Apply(b, c) == Reject(b, c, REJECT_WOULD_NOT_FULLY_FILL)
    ensures !FokRefuses(b, c) ==> Apply(b, c) == Enter(b, c)
  {
    var isBid, q := c.side != SIDE_BUY, Opposite(b, c.side);
    assert Lookup(b, c.orderId).None?;
    FokSeesReachable(isBid, q, c.orderType, c.price);
    SweepFillsAllItCan(isBid, q, Taker(c.orderId, c.price, c.sequence), c.quantity, b.nextTradeSeq);
  }

  /** The exact exception: a market order with a price is checked against the whole side but
      matched only within that price, so it can be accepted and yet cancelled in part. */
  lemma FokKillsPartially(b: Book, c: Command)
    requires IsFok(b, c)
    ensures !FokRefuses(b, c) && Unfilled(b, c) > 0 <==>
              && c.orderType == TYPE_MARKET && c.price != 0
              && ReachableFor(b, c) < c.quantity <= TotalLeaves(Opposite(b, c.side))
  {
    var isBid, q := c.side != SIDE_BUY, Opposite(b, c.side);
    SweepFillsAllItCan(isBid, q, Taker(c.orderId, c.price, c.sequence), c.quantity, b.nextTradeSeq);
    if c.orderType == TYPE_MARKET {
      FokMarketSeesAll(isBid, q, c.price);
      if c.price == 0 {
        FokSeesReachable(isBid, q, c.orderType, c.price);
      }
    } else {
      FokSeesReachable(isBid, q, c.orderType, c.price);
    }
  }
}
