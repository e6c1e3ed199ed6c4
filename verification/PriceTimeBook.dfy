/** The reference order book: each side is one list in price-time order. This is
    what internal/book/book.go must be indistinguishable from. */
module PriceTimeBook {
  import opened Model

  /** A resting order; also the record an order snapshot stores. */
  datatype Resting = Resting(id: uint64, side: uint8, price: int64, leaves: quantity, sequence: uint64)

  type Queue = seq<Resting>

  datatype Book = Book(symbol: Symbol, bids: Queue, asks: Queue, nextTradeSeq: uint64)

  datatype Applied = Applied(book: Book, result: Result)

  function Empty(symbol: Symbol): Book {
    Book(symbol, [], [], 1)
  }

  /** Price p is strictly better than q on a side. */
  predicate Ahead(isBid: bool, p: int, q: int) {
    if isBid then p > q else p < q
  }

  function SideOf(isBid: bool): uint8 {
    if isBid then SIDE_BUY else SIDE_SELL
  }

  /** A taker with this limit accepts this resting price; limit 0 accepts all. */
  predicate Takes(isBid: bool, limit: int, price: int) {
    limit == 0 || if isBid then price >= limit else price <= limit
  }

  /** The test the fill-or-kill check uses: it looks at the order type, not at price 0. */
  predicate FokTakes(isBid: bool, orderType: uint8, limit: int, price: int) {
    orderType == TYPE_MARKET || if isBid then price >= limit else price <= limit
  }

  /** Behind every order of an equal or better price, ahead of every worse one. */
  function Insert(isBid: bool, q: Queue, o: Resting): Queue {
    if q == [] then [o]
    else if Ahead(isBid, o.price, q[0].price) then [o] + q
    else [q[0]] + Insert(isBid, q[1..], o)
  }

  function Find(q: Queue, id: uint64): (r: Option<Resting>)
    ensures r.None? ==> forall o :: o in q ==> o.id != id
    ensures r.Some? ==> r.value in q && r.value.id == id
  {
    if q == [] then None
    else if q[0].id == id then Some(q[0])
    else Find(q[1..], id)
  }

  function Lookup(b: Book, id: uint64): (r: Option<Resting>)
    ensures r.None? ==> forall o :: o in b.bids || o in b.asks ==> o.id != id
    ensures r.Some? ==> (r.value in b.bids || r.value in b.asks) && r.value.id == id
  {
    if Find(b.bids, id).Some? then Find(b.bids, id) else Find(b.asks, id)
  }

  function Without(q: Queue, id: uint64): Queue {
    if q == [] then []
    else if q[0].id == id then Without(q[1..], id)
    else [q[0]] + Without(q[1..], id)
  }

  function WithLeaves(q: Queue, id: uint64, leaves: quantity): Queue {
    if q == [] then []
    else [if q[0].id == id then q[0].(leaves := leaves) else q[0]] + WithLeaves(q[1..], id, leaves)
  }

  function TotalLeaves(q: Queue): nat {
    if q == [] then 0 else q[0].leaves + TotalLeaves(q[1..])
  }

  /** What a fill-or-kill order could take: the leading orders whose price it accepts. */
  function FokQuantity(isBid: bool, q: Queue, orderType: uint8, limit: int): nat {
    if q == [] || !FokTakes(isBid, orderType, limit, q[0].price) then 0
    else q[0].leaves + FokQuantity(isBid, q[1..], orderType, limit)
  }

  function Min(a: int, b: int): int {
    if a < b then a else b
  }

  /** Command sequence in the high 44 bits, trade counter in the low 20; uint64 arithmetic. */
  function TradeId(sequence: uint64, tradeSeq: uint64): uint64 {
    (sequence * 0x10_0000) % 0x1_0000_0000_0000_0000 + tradeSeq % 0x10_0000
  }

  function Succ64(n: uint64): uint64 {
    (n + 1) % 0x1_0000_0000_0000_0000
  }

  /** What is left of the opposite side and of the taker, and what happened. */
  datatype Swept = Swept(queue: Queue, leaves: int64, nextTradeSeq: uint64, events: seq<Event>)

  /** The identity and limit of an incoming order and of the command that carries it. */
  datatype Taker = Taker(id: uint64, limit: int64, sequence: uint64)

  /** The list after a quantity is taken from its first order. */
  function TakenFirst(q: Queue, qty: int64): Queue
    requires q != [] && 0 < qty <= q[0].leaves
  {
    if qty == q[0].leaves then q[1..] else [q[0].(leaves := q[0].leaves - qty)] + q[1..]
  }

  /** The taker meets the head of the list: they trade what both have, at the maker's price. */
  function Meet(q: Queue, t: Taker, leaves: int64, tradeSeq: uint64): (m: Swept)
    requires q != [] && leaves > 0
    ensures 0 <= m.leaves < leaves
  {
    var maker := q[0];
    var traded := Min(leaves, maker.leaves);
    var left := maker.leaves - traded;
    var trade := Trade(TradeId(t.sequence, tradeSeq), maker.id, t.id, maker.price, traded);
    Swept(TakenFirst(q, traded), leaves - traded, Succ64(tradeSeq),
          if left == 0 then [trade] else [trade, Reduced(maker.id, left)])
  }

  lemma MeetParts(q: Queue, t: Taker, leaves: int64, n: uint64, traded: int64, left: int64, q': Queue, events: seq<Event>)
    requires q != [] && leaves > 0 && traded == Min(leaves, q[0].leaves) && left == q[0].leaves - traded
    requires q' == TakenFirst(q, traded)
    requires var trade := Trade(TradeId(t.sequence, n), q[0].id, t.id, q[0].price, traded);
             events == if left == 0 then [trade] else [trade, Reduced(q[0].id, left)]
    ensures Meet(q, t, leaves, n) == Swept(q', leaves - traded, Succ64(n), events)
  {
  }

  /** The taker keeps meeting the head of the list while it has quantity and accepts the price. */
  function Sweep(isBid: bool, q: Queue, t: Taker, leaves: int64, tradeSeq: uint64): (r: Swept)
    requires leaves >= 0
    ensures 0 <= r.leaves <= leaves
    decreases leaves
  {
    if leaves == 0 || q == [] || !Takes(isBid, t.limit, q[0].price) then Swept(q, leaves, tradeSeq, [])
    else
      var m := Meet(q, t, leaves, tradeSeq);
      var r := Sweep(isBid, m.queue, t, m.leaves, m.nextTradeSeq);
      r.(events := m.events + r.events)
  }

  function After(events: seq<Event>, r: Swept): Swept {
    r.(events := events + r.events)
  }

  /** One more turn leaves the outcome of the whole sweep unchanged. */
  lemma SweepTurn(isBid: bool, q: Queue, t: Taker, leaves: int64, n: uint64, events: seq<Event>)
    requires leaves > 0 && q != [] && Takes(isBid, t.limit, q[0].price)
    ensures var m := Meet(q, t, leaves, n);
            After(events, Sweep(isBid, q, t, leaves, n)) ==
            After(events + m.events, Sweep(isBid, m.queue, t, m.leaves, m.nextTradeSeq))
  {
    var m := Meet(q, t, leaves, n);
    var r := Sweep(isBid, m.queue, t, m.leaves, m.nextTradeSeq);
    assert events + (m.events + r.events) == (events + m.events) + r.events;
  }

  lemma SweepStop(isBid: bool, q: Queue, t: Taker, leaves: int64, n: uint64, events: seq<Event>)
    requires leaves >= 0 && (leaves == 0 || q == [] || !Takes(isBid, t.limit, q[0].price))
    ensures After(events, Sweep(isBid, q, t, leaves, n)) == Swept(q, leaves, n, events)
  {
    assert events + [] == events;
  }

  /** The orders an incoming order of this side trades with. */
  function Opposite(b: Book, side: uint8): Queue {
    if side == SIDE_BUY then b.asks else b.bids
  }

  function WithOpposite(b: Book, side: uint8, q: Queue): Book {
    if side == SIDE_BUY then b.(asks := q) else b.(bids := q)
  }

  function Match(b: Book, side: uint8, t: Taker, leaves: int64): Swept
    requires leaves >= 0
  {
    Sweep(side != SIDE_BUY, Opposite(b, side), t, leaves, b.nextTradeSeq)
  }

  function AfterMatch(b: Book, side: uint8, s: Swept): Book {
    WithOpposite(b, side, s.queue).(nextTradeSeq := s.nextTradeSeq)
  }

  /** Nobody on the book has this id. */
  ghost predicate Absent(b: Book, id: uint64) {
    forall o :: o in b.bids || o in b.asks ==> o.id != id
  }

  lemma {:induction false} SweepAbsent(isBid: bool, q: Queue, t: Taker, leaves: int64, n: uint64, id: uint64)
    requires leaves >= 0 && forall o :: o in q ==> o.id != id
    ensures forall o :: o in Sweep(isBid, q, t, leaves, n).queue ==> o.id != id
    decreases leaves
  {
    if leaves > 0 && q != [] && Takes(isBid, t.limit, q[0].price) {
      var m := Meet(q, t, leaves, n);
      SweepAbsent(isBid, m.queue, t, m.leaves, m.nextTradeSeq, id);
    }
  }

  /** Matching brings no id onto the book. */
  lemma MatchAbsent(b: Book, side: uint8, t: Taker, leaves: int64, id: uint64)
    requires leaves >= 0 && Absent(b, id)
    ensures Absent(AfterMatch(b, side, Match(b, side, t, leaves)), id)
  {
    SweepAbsent(side != SIDE_BUY, Opposite(b, side), t, leaves, b.nextTradeSeq, id);
  }

  lemma {:induction false} WithoutIds(q: Queue, id: uint64)
    ensures forall o :: o in Without(q, id) <==> o in q && o.id != id
  {
    if q != [] {
      WithoutIds(q[1..], id);
      assert q == [q[0]] + q[1..];
    }
  }

  function Rest(b: Book, o: Resting): Book {
    if o.side == SIDE_SELL then b.(asks := Insert(false, b.asks, o))
    else b.(bids := Insert(true, b.bids, o))
  }

  lemma RemoveAbsent(b: Book, id: uint64)
    ensures Absent(Remove(b, id), id)
  {
    WithoutIds(b.bids, id);
    WithoutIds(b.asks, id);
  }

  function Remove(b: Book, id: uint64): Book {
    b.(bids := Without(b.bids, id), asks := Without(b.asks, id))
  }

  function Reject(b: Book, c: Command, reason: uint16): Applied {
    Applied(b, Result(c.sequence, [Rejected(c.orderId, reason)]))
  }

  /** An accepted new order: match, then cancel or rest what is left. */
  function Enter(b: Book, c: Command): Applied
    requires c.quantity > 0
  {
    var s := Match(b, c.side, Taker(c.orderId, c.price, c.sequence), c.quantity);
    var matched := AfterMatch(b, c.side, s);
    var events := [Accepted(c.orderId)] + s.events;
    if s.leaves == 0 then Applied(matched, Result(c.sequence, events))
    else if c.orderType == TYPE_MARKET || c.tif == TIF_IOC then
      Applied(matched, Result(c.sequence, events + [Canceled(c.orderId, s.leaves, CANCEL_UNFILLED_REMAINDER)]))
    else
      Applied(Rest(matched, Resting(c.orderId, c.side, c.price, s.leaves, c.sequence)),
              Result(c.sequence, events + [Rested(c.orderId, c.price, s.leaves)]))
  }

  predicate FokRefuses(b: Book, c: Command) {
    c.tif == TIF_FOK && FokQuantity(c.side != SIDE_BUY, Opposite(b, c.side), c.orderType, c.price) < c.quantity
  }

  function New(b: Book, c: Command): Applied
    requires c.quantity > 0
  {
    if Lookup(b, c.orderId).Some? then Reject(b, c, REJECT_DUPLICATE_ORDER_ID)
    else if FokRefuses(b, c) then Reject(b, c, REJECT_WOULD_NOT_FULLY_FILL)
    else Enter(b, c)
  }

  function Cancel(b: Book, c: Command): Applied {
    var found := Lookup(b, c.orderId);
    if found.None? then Reject(b, c, REJECT_UNKNOWN_ORDER_ID)
    else Applied(Remove(b, c.orderId),
                 Result(c.sequence, [Accepted(c.orderId), Canceled(c.orderId, found.value.leaves, CANCEL_BY_USER)]))
  }

  function ReplacePrice(o: Resting, c: Command): int64 {
    if c.newPrice > 0 then c.newPrice else o.price
  }

  predicate RetainsPriority(o: Resting, c: Command) {
    ReplacePrice(o, c) == o.price && c.newLeaves <= o.leaves
  }

  /** A replacement that keeps its place: same price, no more quantity. */
  function Amend(b: Book, c: Command, o: Resting): Applied
    requires c.newLeaves > 0
  {
    var reduced := if c.newLeaves < o.leaves then [Reduced(c.orderId, c.newLeaves)] else [];
    Applied(b.(bids := WithLeaves(b.bids, c.orderId, c.newLeaves), asks := WithLeaves(b.asks, c.orderId, c.newLeaves)),
            Result(c.sequence, [Accepted(c.orderId)] + reduced + [Replaced(c.orderId, o.price, c.newLeaves, true)]))
  }

  /** A replacement that loses its place, on the book without the old order: match, then rest what is left. */
  function Reenter(b: Book, c: Command, side: uint8, price: int64): Applied
    requires c.newLeaves > 0
  {
    var s := Match(b, side, Taker(c.orderId, price, c.sequence), c.newLeaves);
    var matched := AfterMatch(b, side, s);
    var events := [Accepted(c.orderId)] + s.events;
    if s.leaves == 0 then
      Applied(matched, Result(c.sequence, events + [Replaced(c.orderId, price, 0, false)]))
    else
      Applied(Rest(matched, Resting(c.orderId, side, price, s.leaves, c.sequence)),
              Result(c.sequence,
                     events + [Rested(c.orderId, price, s.leaves), Replaced(c.orderId, price, s.leaves, false)]))
  }

  function Replace(b: Book, c: Command): Applied {
    var found := Lookup(b, c.orderId);
    if found.None? then Reject(b, c, REJECT_UNKNOWN_ORDER_ID)
    else
      var o := found.value;
      if ReplacePrice(o, c) <= 0 || c.newLeaves <= 0 then Reject(b, c, REJECT_INVALID_REPLACE)
      else if RetainsPriority(o, c) then Amend(b, c, o)
      else Reenter(Remove(b, c.orderId), c, o.side, ReplacePrice(o, c))
  }

  function Apply(b: Book, c: Command): Applied {
    if c.symbol != b.symbol then Reject(b, c, REJECT_INVALID_SYMBOL)
    else if !Validates(c) then Reject(b, c, RejectReason(c))
    else if c.kind == COMMAND_NEW then New(b, c)
    else if c.kind == COMMAND_CANCEL then Cancel(b, c)
    else Replace(b, c)
  }
}
