/** The order book as internal/book/book.go keeps it: per side a map from price to
    level and a sorted price slice, per level an intrusive doubly linked queue with
    a cached total, and one index from order id to order. Every method is proved
    against PriceTimeBook through the ghost ladders. */
module PointerBook {
  import opened Model
  import opened Levels
  import opened Spec = PriceTimeBook
  import opened Snapshots
  import BookLaws

  class Order {
    const id: uint64
    const side: uint8
    const price: int64
    const sequence: uint64
    var leaves: int64
    var prev: Order?
    var next: Order?
    var level: PriceLevel?

    constructor (id: uint64, side: uint8, price: int64, leaves: int64, sequence: uint64)
      ensures this.id == id && this.side == side && this.price == price && this.sequence == sequence
      ensures this.leaves == leaves && level == null
    {
      this.id, this.side, this.price, this.sequence, this.leaves := id, side, price, sequence, leaves;
      prev, next, level := null, null, null;
    }

    ghost predicate Names(r: Resting) {
      r.id == id && r.side == side && r.price == price && r.sequence == sequence
    }
  }

  ghost predicate Apart(queue: seq<Order>, i: nat, j: nat)
    requires i < |queue| && j < |queue|
  {
    queue[i] != queue[j]
  }

  /** Order k occurs nowhere else in the queue. */
  lemma AllApart(queue: seq<Order>, view: Queue, price: int64, k: nat)
    requires Named(queue, view, price) && k < |queue|
    ensures forall i :: 0 <= i < |queue| && i != k ==> queue[i] != queue[k]
  {
    forall i | 0 <= i < |queue| && i != k ensures queue[i] != queue[k] {
      assert if i < k then Apart(queue, i, k) else Apart(queue, k, i);
    }
  }

  /** The queue lists distinct orders of one price, and the view names them in turn. */
  ghost predicate Named(queue: seq<Order>, view: Queue, price: int64) {
    && |queue| == |view|
    && (forall i, j :: 0 <= i < j < |queue| ==> Apart(queue, i, j))
    && (forall i :: 0 <= i < |queue| ==> queue[i].price == price && queue[i].Names(view[i]))
  }

  lemma DropAt<T>(s: seq<T>, k: nat)
    requires k < |s|
    ensures |Drop(s, k)| == |s| - 1
    ensures forall i :: 0 <= i < |s| - 1 ==> Drop(s, k)[i] == s[if i < k then i else i + 1]
  {
  }

  lemma NamedDrop(queue: seq<Order>, view: Queue, price: int64, k: nat)
    requires Named(queue, view, price) && k < |queue|
    ensures Named(Drop(queue, k), Drop(view, k), price)
  {
    DropAt(queue, k);
    DropAt(view, k);
    forall i, j | 0 <= i < j < |queue| - 1 ensures Apart(Drop(queue, k), i, j) {
      assert Apart(queue, if i < k then i else i + 1, if j < k then j else j + 1);
    }
  }

  lemma NamedAppend(queue: seq<Order>, view: Queue, price: int64, order: Order, entry: Resting)
    requires Named(queue, view, price) && order !in queue && order.price == price && order.Names(entry)
    ensures Named(queue + [order], view + [entry], price)
  {
    var q := queue + [order];
    forall i, j | 0 <= i < j < |q| ensures Apart(q, i, j) {
      if j < |queue| {
        assert Apart(queue, i, j);
      }
    }
  }

  ghost predicate Counted(queue: seq<Order>, view: Queue)
    reads queue
  {
    |queue| == |view| && forall i :: 0 <= i < |queue| ==> queue[i].leaves == view[i].leaves
  }

  ghost predicate CountedBut(queue: seq<Order>, view: Queue, k: nat)
    reads queue
  {
    k < |queue| == |view| && forall i :: 0 <= i < |queue| && i != k ==> queue[i].leaves == view[i].leaves
  }

  lemma CountedDrop(queue: seq<Order>, view: Queue, k: nat)
    requires CountedBut(queue, view, k)
    ensures Counted(Drop(queue, k), Drop(view, k))
  {
    DropAt(queue, k);
    DropAt(view, k);
  }

  /** The orders are doubly linked in this sequence and point back at their level. */
  ghost predicate Chained(queue: seq<Order>, level: PriceLevel)
    reads queue
  {
    && (forall i {:trigger queue[i].level} :: 0 <= i < |queue| ==> queue[i].level == level)
    && (queue != [] ==> queue[0].prev == null && queue[|queue| - 1].next == null)
    && (forall i {:trigger queue[i].prev} :: 0 < i < |queue| ==> queue[i].prev == queue[i - 1])
    && (forall i {:trigger queue[i].next} :: 0 <= i < |queue| - 1 ==> queue[i].next == queue[i + 1])
  }

  /** Once both neighbours of order k bypass it, the rest of the queue is chained. */
  lemma ChainedDrop(q: seq<Order>, k: nat, level: PriceLevel)
    requires k < |q|
    requires forall i {:trigger q[i].level} :: 0 <= i < |q| && i != k ==> q[i].level == level
    requires forall i {:trigger q[i].prev} :: 0 < i < |q| && i != k && i != k + 1 ==> q[i].prev == q[i - 1]
    requires forall i {:trigger q[i].next} :: 0 <= i < |q| - 1 && i != k && i != k - 1 ==> q[i].next == q[i + 1]
    requires k > 0 ==> q[0].prev == null
    requires k < |q| - 1 ==> q[|q| - 1].next == null
    requires k > 0 ==> q[k - 1].next == (if k + 1 < |q| then q[k + 1] else null)
    requires k + 1 < |q| ==> q[k + 1].prev == (if k > 0 then q[k - 1] else null)
    ensures Chained(Drop(q, k), level)
  {
    DropAt(q, k);
  }

  class PriceLevel {
    const price: int64
    ghost const isBid: bool
    var totalQty: int
    var head: Order?
    var tail: Order?
    ghost var queue: seq<Order>
    ghost var view: Queue

    constructor (price: int64, ghost isBid: bool)
      ensures this.price == price && this.isBid == isBid
      ensures queue == [] && view == [] && Linked() && Tallied()
    {
      this.price, this.isBid := price, isBid;
      totalQty, head, tail := 0, null, null;
      queue, view := [], [];
    }

    ghost predicate Ends(q: seq<Order>)
      reads this
    {
      && head == (if q == [] then null else q[0])
      && tail == (if q == [] then null else q[|q| - 1])
    }

    /** The links spell out the ghost queue, and the ghost view names its orders. */
    ghost predicate Linked()
      reads this, queue
    {
      && Named(queue, view, price)
      && Ends(queue)
      && Chained(queue, this)
    }

    ghost predicate Tallied()
      reads this, queue
    {
      Counted(queue, view) && totalQty == TotalLeaves(view)
    }

    /** Order k may have been reduced already, down to zero, together with the total. */
    ghost predicate TalliedBut(k: nat)
      reads this, queue
    {
      CountedBut(queue, view, k) && totalQty == TotalLeaves(view) - view[k].leaves + queue[k].leaves
    }

    /** The pointer updates of an append. */
    method Link(order: Order)
      requires Linked() && order !in queue
      modifies this`head, this`tail, queue`next, order`prev, order`next, order`level
      ensures Chained(queue + [order], this) && Ends(queue + [order])
    {
      if queue != [] {
        AllApart(queue, view, price, |queue| - 1);
      }
      order.prev := tail;
      order.next := null;
      order.level := this;
      if tail != null {
        tail.next := order;
      } else {
        head := order;
      }
      tail := order;
    }

    method Append(order: Order)
      requires Linked() && Tallied()
      requires order !in queue && order.price == price && order.leaves > 0
      modifies this, queue`next, order`prev, order`next, order`level
      ensures Linked() && Tallied()
      ensures queue == old(queue) + [order]
      ensures view == old(view) + [Resting(order.id, order.side, order.price, old(order.leaves), order.sequence)]
    {
      Link(order);
      totalQty := totalQty + order.leaves;
      ghost var entry := Resting(order.id, order.side, order.price, order.leaves, order.sequence);
      TotalConcat(view, [entry]);
      NamedAppend(queue, view, price, order, entry);
      queue, view := queue + [order], view + [entry];
    }

    lemma TalliedIsTalliedBut(k: nat)
      requires Tallied() && k < |queue|
      ensures TalliedBut(k)
    {
    }

    /** Takes a quantity off an order and the total; the view keeps the old quantity. */
    method Reduce(order: Order, qty: int64, ghost k: nat)
      requires Linked() && Tallied() && k < |queue| && queue[k] == order && 0 <= qty <= order.leaves
      modifies order`leaves, this`totalQty
      ensures Linked() && TalliedBut(k) && order.leaves == old(order.leaves) - qty
    {
      AllApart(queue, view, price, k);
      order.leaves := order.leaves - qty;
      totalQty := totalQty - qty;
    }

    ghost method Update(order: Order, k: nat)
      requires Linked() && TalliedBut(k) && queue[k] == order && order.leaves > 0
      modifies this`view
      ensures Linked() && Tallied()
      ensures view == old(view)[k := old(view)[k].(leaves := order.leaves)]
    {
      TotalSet(view, k, order.leaves);
      view := view[k := view[k].(leaves := order.leaves)];
    }

    /** The pointer updates of a removal: both neighbours, or the ends, bypass the order. */
    method Unlink(order: Order, ghost k: nat)
      requires Linked() && k < |queue| && queue[k] == order
      modifies this`head, this`tail, queue`prev, queue`next, queue`level
      ensures Chained(Drop(queue, k), this) && Ends(Drop(queue, k))
      ensures order.level == null
    {
      AllApart(queue, view, price, k);
      if k > 0 {
        AllApart(queue, view, price, k - 1);
      }
      if k + 1 < |queue| {
        AllApart(queue, view, price, k + 1);
      }
      if order.prev != null {
        order.prev.next := order.next;
      } else {
        head := order.next;
      }
      if order.next != null {
        order.next.prev := order.prev;
      } else {
        tail := order.prev;
      }
      order.prev := null;
      order.next := null;
      order.level := null;
      ChainedDrop(queue, k, this);
      DropAt(queue, k);
    }

    method Remove(order: Order, ghost k: nat)
      requires Linked() && TalliedBut(k) && queue[k] == order
      modifies this, queue`prev, queue`next, queue`level
      ensures Linked() && Tallied() && order.level == null
      ensures queue == Drop(old(queue), k) && view == Drop(old(view), k)
      ensures forall o :: o in queue <==> o in old(queue) && o != order
    {
      DropsOnly(queue, view, price, k);
      totalQty := totalQty - order.leaves;
      Unlink(order, k);
      NamedDrop(queue, view, price, k);
      CountedDrop(queue, view, k);
      TotalDrop(view, k);
      queue, view := Drop(queue, k), Drop(view, k);
    }
  }

  /** A level none of whose objects changed is as it was. */
  twostate lemma SameLevel(l: PriceLevel)
    requires old(l.Linked()) && unchanged(l)
    requires forall o :: o in old(l.queue) ==> unchanged(o)
    ensures l.Linked() && (old(l.Tallied()) ==> l.Tallied())
  {
    forall i | 0 <= i < |l.queue| ensures unchanged(l.queue[i]) {
      assert l.queue[i] in old(l.queue);
    }
  }

  lemma DropsOnly(queue: seq<Order>, view: Queue, price: int64, k: nat)
    requires Named(queue, view, price) && k < |queue|
    ensures forall o :: o in Drop(queue, k) <==> o in queue && o != queue[k]
  {
    AllApart(queue, view, price, k);
    DropAt(queue, k);
    assert queue == queue[..k] + [queue[k]] + queue[k + 1..];
  }

  ghost predicate SortedPrices(isBid: bool, prices: seq<int64>) {
    forall i, j :: 0 <= i < j < |prices| ==> Ahead(isBid, prices[i], prices[j])
  }

  lemma InsertedAt<T>(s: seq<T>, i: nat, x: T)
    requires i <= |s|
    ensures |Inserted(s, i, x)| == |s| + 1 && Inserted(s, i, x)[i] == x
    ensures forall j :: 0 <= j < |s| + 1 && j != i ==> Inserted(s, i, x)[j] == s[if j < i then j else j - 1]
    ensures forall y :: y in Inserted(s, i, x) <==> y in s || y == x
  {
    assert s == s[..i] + s[i..];
  }

  lemma SortedInserted(isBid: bool, s: seq<int64>, i: nat, x: int64)
    requires i <= |s| && SortedPrices(isBid, s)
    requires forall j :: 0 <= j < i ==> Ahead(isBid, s[j], x)
    requires forall j :: i <= j < |s| ==> Ahead(isBid, x, s[j])
    ensures SortedPrices(isBid, Inserted(s, i, x))
    ensures forall y :: y in Inserted(s, i, x) <==> y in s || y == x
  {
    InsertedAt(s, i, x);
  }

  lemma DropMembers(isBid: bool, s: seq<int64>, k: nat)
    requires k < |s| && SortedPrices(isBid, s)
    ensures SortedPrices(isBid, Drop(s, k))
    ensures forall y :: y in Drop(s, k) <==> y in s && y != s[k]
  {
    DropAt(s, k);
    assert s == s[..k] + [s[k]] + s[k + 1..];
  }

  /** The ladder shows, price by price, the queue of the level stored under that price. */
  ghost predicate Mirrors(view: Ladder, prices: seq<int64>, levels: map<int64, PriceLevel>)
    reads levels.Values
  {
    && |view| == |prices|
    && (forall i :: 0 <= i < |prices| ==> prices[i] in levels)
    && (forall i :: 0 <= i < |prices| ==> view[i] == Level(prices[i], levels[prices[i]].view))
  }

  lemma MirrorsInserted(view: Ladder, prices: seq<int64>, levels: map<int64, PriceLevel>, i: nat, level: PriceLevel)
    requires Mirrors(view, prices, levels) && i <= |prices|
    requires level.price !in levels && level.view == []
    ensures Mirrors(Inserted(view, i, Level(level.price, [])), Inserted(prices, i, level.price), levels[level.price := level])
  {
    InsertedAt(prices, i, level.price);
    InsertedAt(view, i, Level(level.price, []));
  }

  class SideBook {
    const isBid: bool
    var levels: map<int64, PriceLevel>
    var prices: seq<int64>
    ghost var view: Ladder

    constructor (isBid: bool)
      ensures this.isBid == isBid && levels == map[] && prices == [] && view == []
    {
      this.isBid := isBid;
      levels, prices, view := map[], [], [];
    }

    ghost predicate Sorted()
      reads this
    {
      SortedPrices(isBid, prices)
    }

    /** The price slice lists the keys of the level map, best first, without repeats. */
    ghost predicate Indexed()
      reads this, levels.Values
    {
      && Sorted()
      && (forall p :: p in levels <==> p in prices)
      && (forall p :: p in levels ==> levels[p].price == p && levels[p].isBid == isBid)
      && Mirrors(view, prices, levels)
    }

    /** The cached totals are the sums of the queues the ladder shows. */
    ghost predicate Totalled()
      reads this, levels.Values
    {
      && Ordered(isBid, view) && |view| == |prices|
      && forall n :: 0 <= n < |prices| ==>
           && prices[n] in levels && view[n].price == prices[n] && view[n].orders != []
           && levels[prices[n]].totalQty == TotalLeaves(view[n].orders)
    }

    /** Adds up acceptable levels until the required quantity is reached. */
    method Available(limit: int64, orderType: uint8, required: int64) returns (total: int64)
      requires Totalled() && required > 0
      ensures total == Min(required, FokQuantity(isBid, Flatten(view), orderType, limit))
    {
      total := 0;
      assert view[0..] == view;
      for n := 0 to |prices|
        invariant 0 <= total < required
        invariant FokQuantity(isBid, Flatten(view), orderType, limit) ==
                  total + FokQuantity(isBid, Flatten(view[n..]), orderType, limit)
      {
        FokStep(isBid, view, n, orderType, limit);
        if !FokTakes(isBid, orderType, limit, prices[n]) {
          break;
        }
        var levelQty := levels[prices[n]].totalQty;
        if levelQty >= required - total {
          return required;
        }
        total := total + levelQty;
      }
    }

    method Best() returns (level: PriceLevel?)
      requires Indexed()
      ensures prices == [] ==> level == null
      ensures prices != [] ==> level == levels[prices[0]]
    {
      if |prices| == 0 {
        return null;
      }
      level := levels[prices[0]];
    }

    method FindInsertIndex(price: int64) returns (idx: nat)
      requires Sorted()
      ensures idx <= |prices|
      ensures forall j :: 0 <= j < idx ==> Ahead(isBid, prices[j], price)
      ensures forall j :: idx <= j < |prices| ==> !Ahead(isBid, prices[j], price)
    {
      var left, right := 0, |prices|;
      while left < right
        invariant 0 <= left <= right <= |prices|
        invariant forall j :: 0 <= j < left ==> Ahead(isBid, prices[j], price)
        invariant forall j :: right <= j < |prices| ==> !Ahead(isBid, prices[j], price)
      {
        var mid := left + (right - left) / 2;
        if isBid {
          if prices[mid] > price {
            left := mid + 1;
          } else {
            right := mid;
          }
        } else {
          if prices[mid] < price {
            left := mid + 1;
          } else {
            right := mid;
          }
        }
      }
      idx := left;
    }

    method FindPriceIndex(price: int64) returns (idx: int)
      requires Sorted()
      ensures price in prices ==> 0 <= idx < |prices| && prices[idx] == price
      ensures price !in prices ==> idx == -1
    {
      idx := FindInsertIndex(price);
      if idx >= |prices| || prices[idx] != price {
        idx := -1;
      }
    }

    /** Makes an empty level and inserts its price at the sorted place. */
    method AddLevel(price: int64) returns (level: PriceLevel, ghost i: nat)
      requires Indexed() && price !in levels
      modifies this
      ensures Indexed() && fresh(level) && levels == old(levels)[price := level]
      ensures level.queue == [] && level.view == [] && level.Linked() && level.Tallied()
      ensures i < |prices| && prices[i] == price && i <= |old(view)|
      ensures view == Inserted(old(view), i, Level(price, []))
    {
      level := new PriceLevel(price, isBid);
      var idx := FindInsertIndex(price);
      i := idx;
      SortedInserted(isBid, prices, idx, price);
      MirrorsInserted(view, prices, levels, idx, level);
      levels := levels[price := level];
      prices := prices[..idx] + [price] + prices[idx..];
      view := Inserted(view, idx, Level(price, []));
      assert prices[idx] == price;
    }

    method RemoveLevelIfEmpty(level: PriceLevel, ghost i: nat)
      requires Indexed() && level.Linked()
      requires i < |prices| && levels[prices[i]] == level
      modifies this
      ensures Indexed()
      ensures level.queue != [] ==> levels == old(levels) && prices == old(prices) && view == old(view)
      ensures level.queue == [] ==>
                && levels == old(levels) - {level.price}
                && prices == Drop(old(prices), i)
                && view == Drop(old(view), i)
    {
      if level.head != null {
        return;
      }
      levels := levels - {level.price};
      var idx := FindPriceIndex(level.price);
      assert prices[i] == level.price && idx == i;
      DropMembers(isBid, prices, idx);
      DropAt(prices, idx);
      DropAt(view, idx);
      prices := Drop(prices, idx);
      view := Drop(view, idx);
    }
  }

  /** The id index changed only for orders that are or were in the queue, and holds its orders. */
  ghost predicate Refiled(before: map<uint64, Order>, queue: seq<Order>, after: map<uint64, Order>, queue': seq<Order>) {
    && (forall id :: id in before && before[id] !in queue ==> id in after && after[id] == before[id])
    && (forall id :: id in after ==>
          || (after[id] in queue' && after[id].id == id)
          || (id in before && after[id] == before[id] && after[id] !in queue))
    && (forall o :: o in queue' ==> o.id in after && after[o.id] == o)
  }

  lemma RefiledWithout(before: map<uint64, Order>, queue: seq<Order>, queue': seq<Order>, order: Order)
    requires forall id :: id in before ==> before[id].id == id
    requires forall o :: o in queue ==> o.id in before && before[o.id] == o
    requires forall o :: o in queue' <==> o in queue && o != order
    requires order in queue
    ensures Refiled(before, queue, before - {order.id}, queue')
  {
  }

  lemma RefiledWith(before: map<uint64, Order>, queue: seq<Order>, order: Order)
    requires forall id :: id in before ==> before[id].id == id
    requires forall o :: o in queue ==> o.id in before && before[o.id] == o
    requires order.id !in before
    ensures Refiled(before, queue, before[order.id := order], queue + [order])
  {
  }

  lemma RefiledSame(before: map<uint64, Order>, queue: seq<Order>)
    requires forall id :: id in before ==> before[id].id == id
    requires forall o :: o in queue ==> o.id in before && before[o.id] == o
    ensures Refiled(before, queue, before, queue)
  {
  }

  /** Following the links from the head visits the ghost queue and ends. */
  ghost predicate Walkable(level: PriceLevel)
    reads level, level.queue
  {
    && level.Ends(level.queue)
    && (forall i {:trigger level.queue[i].next} :: 0 <= i < |level.queue| - 1 ==> level.queue[i].next == level.queue[i + 1])
    && (level.queue != [] ==> level.queue[|level.queue| - 1].next == null)
  }

  ghost function SumQty(queue: seq<Order>): int
    reads queue
  {
    if queue == [] then 0 else queue[0].leaves + SumQty(queue[1..])
  }

  lemma {:induction false} SumQtyNext(queue: seq<Order>, k: nat)
    requires k < |queue|
    ensures SumQty(queue[..k + 1]) == SumQty(queue[..k]) + queue[k].leaves
  {
    if k == 0 {
      assert queue[..1][1..] == [];
    } else {
      SumQtyNext(queue[1..], k - 1);
      assert queue[..k + 1][1..] == queue[1..][..k] && queue[..k][1..] == queue[1..][..k - 1];
    }
  }

  lemma {:induction false} SumQtyIsTotal(queue: seq<Order>, view: Queue)
    requires Counted(queue, view)
    ensures SumQty(queue) == TotalLeaves(view)
  {
    if queue != [] {
      SumQtyIsTotal(queue[1..], view[1..]);
    }
  }

  ghost predicate Healthy(level: PriceLevel)
    reads level, level.queue
  {
    && level.queue != []
    && (forall o :: o in level.queue ==> o.level == level && o.leaves > 0)
    && SumQty(level.queue) == level.totalQty
  }

  ghost predicate HealthySide(s: SideBook)
    reads *
  {
    && (forall i :: 1 <= i < |s.prices| ==> !Ahead(s.isBid, s.prices[i], s.prices[i - 1]))
    && (forall i :: 0 <= i < |s.prices| ==> s.prices[i] in s.levels && Healthy(s.levels[s.prices[i]]))
  }

  ghost predicate Crossed(bids: SideBook, asks: SideBook)
    requires HealthySide(bids) && HealthySide(asks)
    reads *
  {
    && bids.prices != [] && asks.prices != []
    && bids.levels[bids.prices[0]].price >= asks.levels[asks.prices[0]].price
  }

  class OrderBook {
    const symbol: Symbol
    const bids: SideBook
    const asks: SideBook
    var orders: map<uint64, Order>
    var nextTradeSeq: uint64
    ghost var rungs: set<PriceLevel>
    ghost var Repr: set<object>

    ghost function SideFor(isBid: bool): SideBook {
      if isBid then bids else asks
    }

    /** The rungs are exactly the levels of the two sides, each stored under its price. */
    ghost predicate Racked()
      reads this, bids, asks
    {
      && (forall p :: p in bids.levels ==> bids.levels[p] in rungs)
      && (forall p :: p in asks.levels ==> asks.levels[p] in rungs)
      && (forall l :: l in rungs ==>
            l.price in SideFor(l.isBid).levels && SideFor(l.isBid).levels[l.price] == l)
    }

    /** The level's queue is linked, and the id index points at each of its orders. */
    ghost predicate Hosts(l: PriceLevel)
      reads this`orders, l, l.queue
    {
      l.Linked() && Filed(l)
    }

    ghost predicate Filed(l: PriceLevel)
      reads this`orders, l
    {
      forall o :: o in l.queue ==> o.side == SideOf(l.isBid) && o.id in orders && orders[o.id] == o
    }

    ghost predicate Rooted()
      reads this, Repr
    {
      && this in Repr && bids in Repr && asks in Repr && bids.isBid && !asks.isBid
      && rungs <= Repr
      && (forall l, o :: l in rungs && o in l.queue ==> o in Repr)
    }

    ghost predicate AllHosted()
      requires Rooted()
      reads this, Repr
    {
      forall l :: l in rungs ==> Hosts(l)
    }

    ghost predicate AllPlaced()
      requires Rooted()
      reads this, Repr
    {
      forall id :: id in orders ==>
        && orders[id] in Repr && orders[id].id == id
        && orders[id].level != null && orders[id].level in rungs && orders[id] in orders[id].level.queue
    }

    /** Every level but one agrees with its view on quantities and is not empty. */
    ghost predicate Settled(x: PriceLevel?)
      requires Rooted()
      reads this, Repr
    {
      forall l :: l in rungs && l != x ==> l.Tallied() && l.queue != []
    }

    /** Everything but the quantities of one level, which an operation may be halfway through. Comparing the
        conjunction with true keeps it one proof goal, which is cheaper than one goal for each of its parts. */
    ghost predicate ValidBut(x: PriceLevel?)
      reads this, Repr
    {
      true == (
      && Rooted() && Racked()
      && (forall l :: l in rungs ==> l in Repr)
      && bids.levels.Values <= rungs && asks.levels.Values <= rungs
      && bids.Indexed() && asks.Indexed()
      && AllHosted() && AllPlaced() && Settled(x))
    }

    ghost predicate Valid()
      reads this, Repr
    {
      ValidBut(null)
    }

    ghost function View(): Spec.Book
      reads this, bids, asks
    {
      Spec.Book(symbol, Flatten(bids.view), Flatten(asks.view), nextTradeSeq)
    }

    constructor (symbol: Symbol, tradeSeq: uint64 := 1)
      ensures Valid() && fresh(Repr)
      ensures View() == Empty(symbol).(nextTradeSeq := tradeSeq)
    {
      this.symbol := symbol;
      bids := new SideBook(true);
      asks := new SideBook(false);
      orders, nextTradeSeq, rungs := map[], tradeSeq, {};
      new;
      Repr := {this, bids, asks};
    }

    /** No other order on this side has the same id. */
    lemma SoleOrder(x: PriceLevel?, isBid: bool, i: nat, k: nat)
      requires ValidBut(x)
      requires i < |SideFor(isBid).view| && k < |SideFor(isBid).view[i].orders|
      ensures Sole(SideFor(isBid).view, i, k)
    {
      var s := SideFor(isBid);
      var level := s.levels[s.prices[i]];
      forall j, m | 0 <= j < |s.view| && 0 <= m < |s.view[j].orders| && s.view[j].orders[m].id == s.view[i].orders[k].id
        ensures j == i && m == k
      {
        var other := s.levels[s.prices[j]];
        assert Hosts(level) && Hosts(other);
        assert other.queue[m] in other.queue && level.queue[k] in level.queue;
        assert other.queue[m].Names(other.view[m]) && level.queue[k].Names(level.view[k]);
        assert other.queue[m] == level.queue[k];
        assert other.queue[m].level == other && level.queue[k].level == level;
        AllApart(level.queue, level.view, level.price, k);
      }
    }

    /** Takes the order out of its queue and out of the index; the level may be left empty. */
    method Detach(order: Order, level: PriceLevel, bookSide: SideBook, ghost i: nat, ghost k: nat)
      requires ValidBut(level) && level in rungs && bookSide == SideFor(level.isBid)
      requires level.TalliedBut(k) && level.queue[k] == order
      requires i < |bookSide.prices| && bookSide.prices[i] == level.price
      modifies Repr
      ensures ValidBut(level) && level.Tallied() && Same(level.isBid) && level in rungs
      ensures |level.queue| == |old(level.queue)| - 1 && level.view == Drop(old(level.view), k)
      ensures bookSide.prices == old(bookSide.prices) && i < |old(bookSide.view)|
      ensures bookSide.view == old(bookSide.view)[i := Level(level.price, level.view)]
    {
      Ready(level, level, i);
      DropsOnly(level.queue, level.view, level.price, k);
      RefiledWithout(orders, level.queue, Drop(level.queue, k), order);
      label before:
      Unfile(order, level, bookSide, i, k);
      RequeuedValid@before(Rung(this, level, i));
    }

    method Unfile(order: Order, level: PriceLevel, bookSide: SideBook, ghost i: nat, ghost k: nat)
      requires bids.isBid && !asks.isBid && level.Linked() && level.TalliedBut(k) && level.queue[k] == order
      requires forall o :: o in level.queue ==> o in Repr && o.side == SideOf(level.isBid)
      requires Refiled(orders, level.queue, orders - {order.id}, Drop(level.queue, k))
      requires bookSide == SideFor(level.isBid) && i < |bookSide.view|
      modifies this`orders, bookSide`view, level, level.queue`prev, level.queue`next, level.queue`level
      ensures Requeued(this, level, bookSide, SideFor(!level.isBid), i) && level.Tallied() && Repr == old(Repr)
      ensures |level.queue| == |old(level.queue)| - 1 && level.view == Drop(old(level.view), k)
    {
      hide Refiled, PriceLevel.Linked, PriceLevel.Tallied;
      orders := orders - {order.id};
      bookSide.view := bookSide.view[i := Level(level.price, Drop(level.view, k))];
      level.Remove(order, k);
    }

    /** Puts the order at the tail of its level's queue and into the index. */
    method Attach(order: Order, level: PriceLevel, bookSide: SideBook, ghost i: nat)
      requires ValidBut(level) && level.Tallied() && level in rungs && bookSide == SideFor(level.isBid)
      requires i < |bookSide.prices| && bookSide.prices[i] == level.price
      requires order !in Repr && order.id !in orders && order.leaves > 0
      requires order.price == level.price && order.side == SideOf(level.isBid)
      modifies Repr, order
      ensures Valid() && Repr == old(Repr) + {order} && nextTradeSeq == old(nextTradeSeq)
      ensures SideFor(!level.isBid).view == old(SideFor(!level.isBid).view)
      ensures i < |old(bookSide.view)|
      ensures bookSide.view == old(bookSide.view)[i := Level(level.price, old(level.view) +
                                [Resting(order.id, order.side, order.price, old(order.leaves), order.sequence)])]
    {
      Ready(level, level, i);
      RefiledWith(orders, level.queue, order);
      label before:
      File(order, level, bookSide, i);
      RequeuedValid@before(Rung(this, level, i));
      Resettled(level);
    }

    /** What an operation on one level needs to know about it. */
    lemma Ready(x: PriceLevel?, level: PriceLevel, i: nat)
      requires ValidBut(x) && level in rungs && (x == null || x == level)
      requires i < |SideFor(level.isBid).prices| && SideFor(level.isBid).prices[i] == level.price
      ensures ValidBut(level) && bids.isBid && !asks.isBid && Hosts(level)
      ensures forall o :: o in level.queue ==> o in Repr
      ensures forall id :: id in orders ==> orders[id].id == id
      ensures i < |SideFor(level.isBid).view| && SideFor(level.isBid).view[i] == Level(level.price, level.view)
      ensures level in Repr && SideFor(level.isBid) in Repr
      ensures x == null ==> level.Tallied() && level.queue != []
    {
    }

    lemma Resettled(level: PriceLevel)
      requires ValidBut(level) && level.Tallied() && level.queue != []
      ensures Valid()
    {
    }

    method File(order: Order, level: PriceLevel, bookSide: SideBook, ghost i: nat)
      requires bids.isBid && !asks.isBid && level.Linked() && level.Tallied()
      requires forall o :: o in level.queue ==> o in Repr && o.side == SideOf(level.isBid)
      requires Refiled(orders, level.queue, orders[order.id := order], level.queue + [order])
      requires bookSide == SideFor(level.isBid) && i < |bookSide.view|
      requires order !in Repr && order.id !in orders && order.leaves > 0
      requires order.price == level.price && order.side == SideOf(level.isBid)
      modifies this`orders, this`Repr, bookSide`view, level, level.queue`next, order`prev, order`next, order`level
      ensures Requeued(this, level, bookSide, SideFor(!level.isBid), i) && level.Tallied()
      ensures level.queue != [] && Repr == old(Repr) + {order}
      ensures level.view == old(level.view) +
                            [Resting(order.id, order.side, order.price, old(order.leaves), order.sequence)]
    {
      hide Refiled, PriceLevel.Linked, PriceLevel.Tallied;
      ghost var entry := Resting(order.id, order.side, order.price, order.leaves, order.sequence);
      orders := orders[order.id := order];
      Repr := Repr + {order};
      bookSide.view := bookSide.view[i := Level(level.price, level.view + [entry])];
      level.Append(order);
    }

    /** Takes a quantity off an order and off its level's total; the views lag behind. */
    method Shrink(order: Order, level: PriceLevel, qty: int64, ghost i: nat, ghost k: nat)
      requires Valid() && level in rungs && k < |level.queue| && level.queue[k] == order && 0 <= qty <= order.leaves
      requires i < |SideFor(level.isBid).prices| && SideFor(level.isBid).prices[i] == level.price
      modifies order`leaves, level`totalQty
      ensures ValidBut(level) && level.TalliedBut(k) && order.leaves == old(order.leaves) - qty
      ensures Same(level.isBid) && SideFor(level.isBid).view == old(SideFor(level.isBid).view)
      ensures SideFor(level.isBid).prices == old(SideFor(level.isBid).prices) && level.view == old(level.view)
    {
      Ready(null, level, i);
      label before:
      Slim(order, level, qty, i, k);
      RequeuedValid@before(Rung(this, level, i));
    }

    method Slim(order: Order, level: PriceLevel, qty: int64, ghost i: nat, ghost k: nat)
      requires bids.isBid && !asks.isBid && Hosts(level) && level.Tallied()
      requires forall o :: o in level.queue ==> o in Repr
      requires forall id :: id in orders ==> orders[id].id == id
      requires k < |level.queue| && level.queue[k] == order && 0 <= qty <= order.leaves
      requires var s := SideFor(level.isBid); i < |s.view| && s.view[i] == Level(level.price, level.view)
      modifies order`leaves, level`totalQty
      ensures Requeued(this, level, SideFor(level.isBid), SideFor(!level.isBid), i) && level.TalliedBut(k)
      ensures order.leaves == old(order.leaves) - qty
      ensures Same(level.isBid) && SideFor(level.isBid).view == old(SideFor(level.isBid).view)
      ensures SideFor(level.isBid).prices == old(SideFor(level.isBid).prices) && level.view == old(level.view)
    {
      RefiledSame(orders, level.queue);
      ghost var s := SideFor(level.isBid);
      assert s.view == s.view[i := Level(level.price, level.view)] && order in level.queue;
      level.Reduce(order, qty, k);
    }

    /** Brings the views up to date with the reduced quantity of an order. */
    ghost method Restate(order: Order, level: PriceLevel, bookSide: SideBook, i: nat, k: nat)
      requires ValidBut(level) && level in rungs && bookSide == SideFor(level.isBid)
      requires level.TalliedBut(k) && level.queue[k] == order && order.leaves > 0
      requires i < |bookSide.prices| && bookSide.prices[i] == level.price
      modifies level`view, bookSide`view
      ensures Valid() && Same(level.isBid) && i < |old(bookSide.view)| && old(bookSide.view)[i] == Level(level.price, old(level.view))
      ensures k < |old(level.view)|
      ensures bookSide.view ==
              old(bookSide.view)[i := Level(level.price, old(level.view)[k := old(level.view)[k].(leaves := order.leaves)])]
    {
      Ready(level, level, i);
      label before:
      Redraw(order, level, bookSide, i, k);
      RequeuedValid@before(Rung(this, level, i));
      Resettled(level);
    }

    ghost method Redraw(order: Order, level: PriceLevel, bookSide: SideBook, i: nat, k: nat)
      requires bids.isBid && !asks.isBid && Hosts(level) && level.TalliedBut(k) && level.queue[k] == order && order.leaves > 0
      requires forall o :: o in level.queue ==> o in Repr
      requires forall id :: id in orders ==> orders[id].id == id
      requires bookSide == SideFor(level.isBid) && i < |bookSide.view|
      modifies level`view, bookSide`view
      ensures Requeued(this, level, bookSide, SideFor(!level.isBid), i) && level.Tallied() && level.queue != []
      ensures level.view == old(level.view)[k := old(level.view)[k].(leaves := order.leaves)]
    {
      RefiledSame(orders, level.queue);
      level.Update(order, k);
      bookSide.view := bookSide.view[i := Level(level.price, level.view)];
    }

    /** What an operation on one side leaves alone. */
    twostate predicate Same(isBid: bool)
      reads this, bids, asks
    {
      Repr == old(Repr) && nextTradeSeq == old(nextTradeSeq) && SideFor(!isBid).view == old(SideFor(!isBid).view)
    }

    method RemoveActive(order: Order, level: PriceLevel, bookSide: SideBook, ghost i: nat, ghost k: nat)
      requires ValidBut(level) && level in rungs && order.level == level && bookSide == SideFor(level.isBid)
      requires level.TalliedBut(k) && level.queue[k] == order
      requires i < |bookSide.prices| && bookSide.prices[i] == level.price
      modifies Repr
      ensures Valid() && Same(level.isBid)
      ensures i < |old(bookSide.view)| && k < |old(bookSide.view)[i].orders|
      ensures bookSide.view == Removed(old(bookSide.view), i, k)
    {
      AtRung(level, level, i, k);
      RemovedInSteps(bookSide.view, i, k);
      Detach(order, level, bookSide, i, k);
      Prune(level, bookSide, i);
    }

    lemma RankOf(x: PriceLevel?, level: PriceLevel) returns (i: nat)
      requires ValidBut(x) && level in rungs
      ensures i < |SideFor(level.isBid).prices| && SideFor(level.isBid).prices[i] == level.price
    {
      i :| 0 <= i < |SideFor(level.isBid).prices| && SideFor(level.isBid).prices[i] == level.price;
    }

    lemma AtRung(x: PriceLevel?, level: PriceLevel, i: nat, k: nat)
      requires ValidBut(x) && level in rungs
      requires i < |SideFor(level.isBid).prices| && SideFor(level.isBid).prices[i] == level.price && k < |level.queue|
      ensures i < |SideFor(level.isBid).view| && SideFor(level.isBid).view[i] == Level(level.price, level.view)
      ensures |level.view| == |level.queue| && level.queue[k].Names(level.view[k])
      ensures level.queue[k].side == SideOf(level.isBid) && (level != x ==> level.queue[k].leaves == level.view[k].leaves)
      ensures level in Repr && SideFor(level.isBid) in Repr && level.queue[k] in Repr
    {
      assert Hosts(level) && level.queue[k] in level.queue;
    }

    /** The step of the ladder that shows a level. */
    lemma Shown(x: PriceLevel?, level: PriceLevel, i: nat)
      requires ValidBut(x) && level in rungs
      requires i < |SideFor(level.isBid).prices| && SideFor(level.isBid).prices[i] == level.price
      ensures i < |SideFor(level.isBid).view| && SideFor(level.isBid).view[i] == Level(level.price, level.view)
    {
    }

    lemma LadderOrdered(x: PriceLevel?, isBid: bool)
      requires ValidBut(x)
      ensures Ordered(isBid, SideFor(isBid).view)
    {
      var s := SideFor(isBid);
      forall i, k | 0 <= i < |s.view| && 0 <= k < |s.view[i].orders|
        ensures s.view[i].orders[k].price == s.view[i].price
      {
        var level := s.levels[s.prices[i]];
        assert Hosts(level) && level.queue[k].Names(level.view[k]);
      }
    }

    lemma RestedFlat(level: PriceLevel, i: nat, entry: Resting)
      requires ValidBut(level) && level in rungs && entry.price == level.price
      requires i < |SideFor(level.isBid).prices| && SideFor(level.isBid).prices[i] == level.price
      ensures i < |SideFor(level.isBid).view|
      ensures Flatten(SideFor(level.isBid).view[i := Level(level.price, level.view + [entry])]) ==
              Insert(level.isBid, Flatten(SideFor(level.isBid).view), entry)
    {
      Shown(level, level, i);
      LadderOrdered(level, level.isBid);
      RestInLevel(level.isBid, SideFor(level.isBid).view, i, entry);
    }

    ghost function Entry(order: Order): Resting
      requires order.leaves > 0
      reads order
    {
      Resting(order.id, order.side, order.price, order.leaves, order.sequence)
    }

    method RestOn(order: Order, bookSide: SideBook)
      requires Valid() && order !in Repr && order.id !in orders && order.leaves > 0
      requires bookSide in [bids, asks] && order.side == SideOf(bookSide.isBid)
      modifies Repr, order
      ensures Valid() && fresh(Repr - old(Repr) - {order}) && nextTradeSeq == old(nextTradeSeq)
      ensures SideFor(!bookSide.isBid).view == old(SideFor(!bookSide.isBid).view)
      ensures Flatten(bookSide.view) == Insert(bookSide.isBid, old(Flatten(bookSide.view)), old(Entry(order)))
    {
      hide Flatten, Insert;
      ghost var entry := Entry(order);
      var level, i := GetOrCreateLevel(bookSide, order.price);
      RestedFlat(level, i, entry);
      Attach(order, level, bookSide, i);
    }

    method Rest(order: Order)
      requires Valid() && order !in Repr && order.id !in orders && order.leaves > 0
      requires order.side == SIDE_BUY || order.side == SIDE_SELL
      modifies Repr, order
      ensures Valid() && fresh(Repr - old(Repr) - {order})
      ensures View() == Spec.Rest(old(View()), old(Entry(order)))
    {
      var bookSide := bids;
      if order.side == SIDE_SELL {
        bookSide := asks;
      }
      RestOn(order, bookSide);
    }

    /** The low 20 bits count trades, the rest is the command's sequence number. */
    method NextTradeId(sequence: uint64) returns (id: uint64)
      requires Valid()
      modifies this`nextTradeSeq
      ensures Valid()
      ensures id == TradeId(sequence, old(nextTradeSeq)) && nextTradeSeq == Succ64(old(nextTradeSeq))
    {
      id := TradeId(sequence, nextTradeSeq);
      nextTradeSeq := Succ64(nextTradeSeq);
      CounterValid(this);
    }

    /** The first order of the best level, where matching takes place. */
    lemma BestOrder(isBid: bool)
      requires Valid() && SideFor(isBid).prices != []
      ensures var s := SideFor(isBid);
              && s.prices[0] in s.levels
              && var best := s.levels[s.prices[0]];
              && best in rungs && best.isBid == isBid && best.price == s.prices[0] && best.queue != []
              && s.view != [] && s.view[0] == Level(best.price, best.view) && |best.view| == |best.queue|
              && best.head == best.queue[0] && best.head.leaves == best.view[0].leaves && best.head.Names(best.view[0])
              && best.head.level == best && best.head.id in orders && orders[best.head.id] == best.head
              && best.head in Repr && best in Repr && s in Repr
    {
      var s := SideFor(isBid);
      var best := s.levels[s.prices[0]];
      assert Hosts(best) && best.Tallied() && best.queue[0] in best.queue;
      assert best.queue[0].level == best;
    }

    /** Gives a resting order a smaller positive quantity, where it stands. */
    method SetLeaves(order: Order, level: PriceLevel, bookSide: SideBook, leaves: int64, ghost i: nat, ghost k: nat)
      requires Valid() && level in rungs && bookSide == SideFor(level.isBid)
      requires k < |level.queue| && level.queue[k] == order && 0 < leaves <= order.leaves
      requires i < |bookSide.prices| && bookSide.prices[i] == level.price
      modifies Repr
      ensures Valid() && Same(level.isBid)
      ensures i < |old(bookSide.view)| && k < |old(bookSide.view)[i].orders|
      ensures bookSide.view == Amended(old(bookSide.view), i, k, leaves)
    {
      AtRung(null, level, i, k);
      Shrink(order, level, order.leaves - leaves, i, k);
      Restate(order, level, bookSide, i, k);
    }

    /** Removes a resting order whose quantity is used up. */
    method UseUp(order: Order, level: PriceLevel, bookSide: SideBook, ghost i: nat, ghost k: nat)
      requires Valid() && level in rungs && bookSide == SideFor(level.isBid)
      requires order.level == level && k < |level.queue| && level.queue[k] == order && 0 < order.leaves
      requires i < |bookSide.prices| && bookSide.prices[i] == level.price
      modifies Repr
      ensures Valid() && Same(level.isBid)
      ensures i < |old(bookSide.view)| && k < |old(bookSide.view)[i].orders|
      ensures bookSide.view == Removed(old(bookSide.view), i, k)
    {
      AtRung(null, level, i, k);
      Shrink(order, level, order.leaves, i, k);
      RemoveActive(order, level, bookSide, i, k);
    }

    /** Takes a quantity from a resting order, which leaves the book when nothing is left of it. */
    method Take(order: Order, level: PriceLevel, bookSide: SideBook, qty: int64, ghost i: nat, ghost k: nat)
      returns (left: int64)
      requires Valid() && level in rungs && bookSide == SideFor(level.isBid)
      requires order.level == level && k < |level.queue| && level.queue[k] == order && 0 < qty <= order.leaves
      requires i < |bookSide.prices| && bookSide.prices[i] == level.price
      modifies Repr
      ensures Valid() && Same(level.isBid) && left == old(order.leaves) - qty
      ensures i < |old(bookSide.view)| && k < |old(bookSide.view)[i].orders|
      ensures old(bookSide.view)[i].orders[k].leaves == old(order.leaves)
      ensures bookSide.view == Taken(old(bookSide.view), i, k, qty)
    {
      hide ValidBut, Removed, Amended;
      AtRung(null, level, i, k);
      left := order.leaves - qty;
      if left == 0 {
        UseUp(order, level, bookSide, i, k);
      } else {
        SetLeaves(order, level, bookSide, left, i, k);
      }
    }

    /** Takes up to the wanted quantity from the best order of a side. */
    method TakeFromBest(opposite: SideBook, want: int64) returns (maker: Order, traded: int64, left: int64)
      requires Valid() && opposite in [bids, asks] && opposite.prices != [] && want > 0
      modifies Repr
      ensures Valid() && Same(opposite.isBid)
      ensures old(Flatten(opposite.view)) != []
      ensures var q := old(Flatten(opposite.view));
              && maker.id == q[0].id && maker.price == q[0].price
              && traded == Min(want, q[0].leaves) && left == q[0].leaves - traded
              && Flatten(opposite.view) == TakenFirst(q, traded)
    {
      BestOrder(opposite.isBid);
      var best := opposite.levels[opposite.prices[0]];
      maker := best.head;
      traded := Min(want, maker.leaves);
      TakenHead(opposite.view, traded);
      left := Take(maker, best, opposite, traded, 0, 0);
    }

    /** One turn of the matching loop: the incoming order meets the best resting order. */
    method TradeWithBest(taker: Taker, leaves: int64, opposite: SideBook) returns (left: int64, events: seq<Event>)
      requires Valid() && opposite in [bids, asks] && opposite.prices != [] && leaves > 0
      modifies Repr
      ensures Valid() && Repr == old(Repr)
      ensures SideFor(!opposite.isBid).view == old(SideFor(!opposite.isBid).view)
      ensures old(Flatten(opposite.view)) != []
      ensures Meet(old(Flatten(opposite.view)), taker, leaves, old(nextTradeSeq)) ==
              Swept(Flatten(opposite.view), left, nextTradeSeq, events)
    {
      ghost var q, n := Flatten(opposite.view), nextTradeSeq;
      var id := NextTradeId(taker.sequence);
      var maker, traded, resting := TakeFromBest(opposite, leaves);
      left := leaves - traded;
      var trade := Trade(id, maker.id, taker.id, maker.price, traded);
      events := if resting == 0 then [trade] else [trade, Reduced(maker.id, resting)];
      MeetParts(q, taker, leaves, n, traded, resting, Flatten(opposite.view), events);
    }

    /** The best level of a side stands at the price of the head of its list. */
    method BestOf(s: SideBook) returns (best: PriceLevel?)
      requires Valid() && s in [bids, asks]
      ensures best == null ==> Flatten(s.view) == []
      ensures best != null ==> s.prices != [] && Flatten(s.view) != [] && Flatten(s.view)[0].price == best.price
    {
      best := s.Best();
      if best != null {
        BestOrder(s.isBid);
        TakenHead(s.view, 1);
      }
    }

    /** The matching loop. */
    method MatchAgainst(taker: Taker, quantity: int64, opposite: SideBook) returns (leaves: int64, events: seq<Event>)
      requires Valid() && opposite in [bids, asks] && quantity >= 0
      modifies Repr
      ensures Valid() && Repr == old(Repr)
      ensures SideFor(!opposite.isBid).view == old(SideFor(!opposite.isBid).view)
      ensures Sweep(opposite.isBid, old(Flatten(opposite.view)), taker, quantity, old(nextTradeSeq)) ==
              Swept(Flatten(opposite.view), leaves, nextTradeSeq, events)
    {
      ghost var isBid := opposite.isBid;
      ghost var swept := Sweep(isBid, Flatten(opposite.view), taker, quantity, nextTradeSeq);
      leaves, events := quantity, [];
      assert [] + swept.events == swept.events;
      while leaves > 0
        invariant Valid() && Repr == old(Repr) && 0 <= leaves
        invariant SideFor(!isBid).view == old(SideFor(!isBid).view)
        invariant swept == After(events, Sweep(isBid, Flatten(opposite.view), taker, leaves, nextTradeSeq))
        decreases leaves
      {
        var best := BestOf(opposite);
        if best == null || !Takes(opposite.isBid, taker.limit, best.price) {
          break;
        }
        SweepTurn(isBid, Flatten(opposite.view), taker, leaves, nextTradeSeq, events);
        var left, news := TradeWithBest(taker, leaves, opposite);
        leaves, events := left, events + news;
      }
      SweepStop(isBid, Flatten(opposite.view), taker, leaves, nextTradeSeq, events);
    }

    method Match(taker: Taker, side: uint8, quantity: int64) returns (leaves: int64, events: seq<Event>)
      requires Valid() && quantity >= 0
      modifies Repr
      ensures Valid() && Repr == old(Repr)
      ensures var s := Spec.Match(old(View()), side, taker, quantity);
              s.leaves == leaves && s.events == events && View() == AfterMatch(old(View()), side, s)
    {
      if side == SIDE_BUY {
        leaves, events := MatchAgainst(taker, quantity, asks);
      } else {
        leaves, events := MatchAgainst(taker, quantity, bids);
      }
    }

    /** Whatever the list of a side shows is what the index holds under that id. */
    lemma ShownIsFiled(isBid: bool, e: Resting)
      requires Valid() && e in Flatten(SideFor(isBid).view)
      ensures e.id in orders && orders[e.id].leaves > 0 && Entry(orders[e.id]) == e && e.side == SideOf(isBid)
    {
      var s := SideFor(isBid);
      var i, k := FlattenMember(s.view, e);
      var level := s.levels[s.prices[i]];
      assert Hosts(level) && level.Tallied() && level.queue[k] in level.queue;
      assert level.queue[k].Names(level.view[k]) && level.queue[k].leaves == level.view[k].leaves;
    }

    /** Where an indexed order stands. */
    lemma Where(id: uint64) returns (isBid: bool, i: nat, k: nat)
      requires Valid() && id in orders
      ensures var o := orders[id]; var s := SideFor(isBid);
              && o.leaves > 0 && o.side == SideOf(isBid) && o.id == id
              && o.level != null && o.level in rungs && o.level.isBid == isBid && o.level.price == o.price
              && k < |o.level.queue| && o.level.queue[k] == o && o.level.Tallied()
              && i < |s.prices| && s.prices[i] == o.level.price
              && i < |s.view| && k < |s.view[i].orders| && s.view[i].orders[k] == Entry(o)
    {
      var o := orders[id];
      var level := o.level;
      isBid := level.isBid;
      assert Hosts(level) && level.Tallied();
      i := RankOf(null, level);
      k :| 0 <= k < |level.queue| && level.queue[k] == o;
      AtRung(null, level, i, k);
    }

    /** Looking an id up in the index is looking it up in the lists. */
    lemma LookupIsIndex(id: uint64)
      requires Valid()
      ensures id !in orders ==> Lookup(View(), id) == None
      ensures id in orders ==> orders[id].leaves > 0 && Lookup(View(), id) == Some(Entry(orders[id]))
    {
      var found := Lookup(View(), id);
      if found.Some? {
        if found.value in Flatten(bids.view) {
          ShownIsFiled(true, found.value);
        } else {
          ShownIsFiled(false, found.value);
        }
      } else if id in orders {
        var isBid, i, k := Where(id);
        FlattenContains(SideFor(isBid).view, i, k);
      }
    }

    lemma AbsentFromIndex(id: uint64)
      requires Valid() && Absent(View(), id)
      ensures id !in orders
    {
      LookupIsIndex(id);
    }

    /** The side an order is not on does not show its id. */
    lemma NotOnOtherSide(isBid: bool, id: uint64)
      requires Valid() && id in orders && orders[id].side == SideOf(isBid)
      ensures forall e :: e in Flatten(SideFor(!isBid).view) ==> e.id != id
    {
      forall e | e in Flatten(SideFor(!isBid).view) ensures e.id != id {
        ShownIsFiled(!isBid, e);
      }
    }

    /** Takes an order off the book. */
    method Withdraw(order: Order)
      requires Valid() && order.id in orders && orders[order.id] == order
      modifies Repr
      ensures Valid() && Repr == old(Repr)
      ensures View() == Spec.Remove(old(View()), order.id) && Absent(View(), order.id)
    {
      RemoveAbsent(View(), order.id);
      ghost var isBid, i, k := Where(order.id);
      NotOnOtherSide(isBid, order.id);
      WithoutAbsent(Flatten(SideFor(!isBid).view), order.id);
      SoleOrder(null, isBid, i, k);
      RemovedFlat(SideFor(isBid).view, i, k);
      Ready(null, order.level, i);
      order.level.TalliedIsTalliedBut(k);
      var bookSide := bids;
      if order.side == SIDE_SELL {
        bookSide := asks;
      }
      RemoveActive(order, order.level, bookSide, i, k);
    }

    /** Reduces an order where it stands; it keeps its place in the queue. */
    method ReduceInPlace(order: Order, leaves: int64)
      requires Valid() && order.id in orders && orders[order.id] == order && 0 < leaves <= order.leaves
      modifies Repr
      ensures Valid() && Repr == old(Repr)
      ensures View() == old(View()).(bids := WithLeaves(old(View()).bids, order.id, leaves),
                                     asks := WithLeaves(old(View()).asks, order.id, leaves))
    {
      ghost var isBid, i, k := Where(order.id);
      var bookSide := if order.side == SIDE_SELL then asks else bids;
      NotOnOtherSide(isBid, order.id);
      WithLeavesAbsent(Flatten(SideFor(!isBid).view), order.id, leaves);
      SoleOrder(null, isBid, i, k);
      ReducedFlat(bookSide.view, i, k, leaves);
      AtRung(null, order.level, i, k);
      SetLeaves(order, order.level, bookSide, leaves, i, k);
    }

    /** What a fill-or-kill order could take, up to what it needs. */
    method AvailableQtyFor(side: uint8, limit: int64, orderType: uint8, required: int64) returns (total: int64)
      requires Valid() && required > 0
      ensures total == Min(required, FokQuantity(side != SIDE_BUY, Opposite(View(), side), orderType, limit))
    {
      LevelTotals(side != SIDE_BUY);
      if side == SIDE_BUY {
        total := asks.Available(limit, orderType, required);
      } else {
        total := bids.Available(limit, orderType, required);
      }
    }

    lemma LevelTotals(isBid: bool)
      requires Valid()
      ensures SideFor(isBid).isBid == isBid && SideFor(isBid).Totalled()
    {
      var s := SideFor(isBid);
      LadderOrdered(null, isBid);
      forall n | 0 <= n < |s.prices|
        ensures s.prices[n] in s.levels && s.view[n].price == s.prices[n] && s.view[n].orders != []
        ensures s.levels[s.prices[n]].totalQty == TotalLeaves(s.view[n].orders)
      {
        LevelShown(s, n);
      }
    }

    method HandleNew(c: Command) returns (events: seq<Event>)
      requires Valid() && c.quantity > 0 && (c.side == SIDE_BUY || c.side == SIDE_SELL)
      modifies Repr
      ensures Valid() && fresh(Repr - old(Repr))
      ensures New(old(View()), c) == Applied(View(), Result(c.sequence, events))
    {
      LookupIsIndex(c.orderId);
      if c.orderId in orders {
        return [Rejected(c.orderId, REJECT_DUPLICATE_ORDER_ID)];
      }
      if c.tif == TIF_FOK {
        var available := AvailableQtyFor(c.side, c.price, c.orderType, c.quantity);
        if available < c.quantity {
          return [Rejected(c.orderId, REJECT_WOULD_NOT_FULLY_FILL)];
        }
      }
      events := EnterOrder(c);
    }

    method EnterOrder(c: Command) returns (events: seq<Event>)
      requires Valid() && c.quantity > 0 && (c.side == SIDE_BUY || c.side == SIDE_SELL) && Absent(View(), c.orderId)
      modifies Repr
      ensures Valid() && fresh(Repr - old(Repr))
      ensures Enter(old(View()), c) == Applied(View(), Result(c.sequence, events))
    {
      var taker := Taker(c.orderId, c.price, c.sequence);
      MatchAbsent(View(), c.side, taker, c.quantity, c.orderId);
      var leaves, trades := Match(taker, c.side, c.quantity);
      events := [Accepted(c.orderId)] + trades;
      if leaves == 0 {
        return;
      }
      if c.orderType == TYPE_MARKET || c.tif == TIF_IOC {
        events := events + [Canceled(c.orderId, leaves, CANCEL_UNFILLED_REMAINDER)];
        return;
      }
      AbsentFromIndex(c.orderId);
      var order := new Order(c.orderId, c.side, c.price, leaves, c.sequence);
      Rest(order);
      events := events + [Rested(c.orderId, c.price, leaves)];
    }

    method HandleCancel(c: Command) returns (events: seq<Event>)
      requires Valid()
      modifies Repr
      ensures Valid() && Repr == old(Repr)
      ensures Cancel(old(View()), c) == Applied(View(), Result(c.sequence, events))
    {
      LookupIsIndex(c.orderId);
      if c.orderId !in orders {
        return [Rejected(c.orderId, REJECT_UNKNOWN_ORDER_ID)];
      }
      var order := orders[c.orderId];
      var canceled := order.leaves;
      Withdraw(order);
      events := [Accepted(c.orderId), Canceled(c.orderId, canceled, CANCEL_BY_USER)];
    }

    method HandleReplace(c: Command) returns (events: seq<Event>)
      requires Valid()
      modifies Repr
      ensures Valid() && fresh(Repr - old(Repr))
      ensures Replace(old(View()), c) == Applied(View(), Result(c.sequence, events))
    {
      hide ValidBut;
      LookupIsIndex(c.orderId);
      if c.orderId !in orders {
        return [Rejected(c.orderId, REJECT_UNKNOWN_ORDER_ID)];
      }
      var order := orders[c.orderId];
      var newPrice := if c.newPrice > 0 then c.newPrice else order.price;
      if newPrice <= 0 || c.newLeaves <= 0 {
        return [Rejected(c.orderId, REJECT_INVALID_REPLACE)];
      }
      ghost var isBid, _, _ := Where(c.orderId);
      ghost var b, o := View(), Entry(order);
      assert ReplacePrice(o, c) == newPrice;
      if newPrice == order.price && c.newLeaves <= order.leaves {
        assert Replace(b, c) == Amend(b, c, o);
        events := AmendOrder(c, order);
      } else {
        assert Replace(b, c) == Reenter(Spec.Remove(b, c.orderId), c, o.side, newPrice);
        events := MoveOrder(c, order, newPrice);
      }
    }

    method MoveOrder(c: Command, order: Order, price: int64) returns (events: seq<Event>)
      requires Valid() && c.orderId in orders && orders[c.orderId] == order && order.id == c.orderId && c.newLeaves > 0
      requires order.side == SIDE_BUY || order.side == SIDE_SELL
      modifies Repr
      ensures Valid() && fresh(Repr - old(Repr))
      ensures Reenter(Spec.Remove(old(View()), c.orderId), c, order.side, price) == Applied(View(), Result(c.sequence, events))
    {
      hide ValidBut, Reenter, Spec.Remove;
      Withdraw(order);
      events := ReenterOrder(c, order.side, price);
    }

    method AmendOrder(c: Command, order: Order) returns (events: seq<Event>)
      requires Valid() && c.orderId in orders && orders[c.orderId] == order && order.id == c.orderId
      requires 0 < c.newLeaves <= order.leaves
      modifies Repr
      ensures Valid() && Repr == old(Repr)
      ensures Amend(old(View()), c, old(Entry(order))) == Applied(View(), Result(c.sequence, events))
    {
      var reduced := order.leaves - c.newLeaves;
      ReduceInPlace(order, c.newLeaves);
      events := [Accepted(c.orderId)] + (if reduced > 0 then [Reduced(c.orderId, c.newLeaves)] else [])
                + [Replaced(c.orderId, order.price, c.newLeaves, true)];
    }

    method ReenterOrder(c: Command, side: uint8, price: int64) returns (events: seq<Event>)
      requires Valid() && c.newLeaves > 0 && (side == SIDE_BUY || side == SIDE_SELL) && Absent(View(), c.orderId)
      modifies Repr
      ensures Valid() && fresh(Repr - old(Repr))
      ensures Reenter(old(View()), c, side, price) == Applied(View(), Result(c.sequence, events))
    {
      var taker := Taker(c.orderId, price, c.sequence);
      MatchAbsent(View(), side, taker, c.newLeaves, c.orderId);
      var leaves, trades := Match(taker, side, c.newLeaves);
      events := [Accepted(c.orderId)] + trades;
      if leaves > 0 {
        AbsentFromIndex(c.orderId);
        var order := new Order(c.orderId, side, price, leaves, c.sequence);
        Rest(order);
        events := events + [Rested(c.orderId, price, leaves), Replaced(c.orderId, price, leaves, false)];
      } else {
        events := events + [Replaced(c.orderId, price, leaves, false)];
      }
    }

    /** Every command has exactly the effect and the events of the reference book. */
    method Apply(c: Command) returns (result: Result)
      requires Valid()
      modifies Repr
      ensures Valid() && fresh(Repr - old(Repr))
      ensures Spec.Apply(old(View()), c) == Applied(View(), result)
    {
      var events;
      if c.symbol != symbol {
        events := [Rejected(c.orderId, REJECT_INVALID_SYMBOL)];
      } else if !Validates(c) {
        events := [Rejected(c.orderId, RejectReason(c))];
      } else if c.kind == COMMAND_NEW {
        events := HandleNew(c);
      } else if c.kind == COMMAND_CANCEL {
        events := HandleCancel(c);
      } else {
        events := HandleReplace(c);
      }
      result := Result(c.sequence, events);
    }

    /** The queue of a level, copied by following its links. */
    method SnapshotLevel(level: PriceLevel) returns (out: Queue)
      requires level.Linked() && level.Tallied()
      ensures out == level.view
    {
      out := [];
      var o := level.head;
      ghost var k := 0;
      while o != null
        invariant 0 <= k <= |level.queue| && o == (if k < |level.queue| then level.queue[k] else null)
        invariant out == level.view[..k]
        decreases |level.queue| - k
      {
        assert level.queue[k].Names(level.view[k]) && level.queue[k].leaves == level.view[k].leaves;
        out := out + [Resting(o.id, o.side, o.price, o.leaves, o.sequence)];
        if k + 1 < |level.queue| {
          assert level.queue[k].next == level.queue[k + 1];
        } else {
          assert level.queue[k].next == null;
        }
        o := o.next;
        k := k + 1;
      }
    }

    lemma LevelShown(s: SideBook, n: nat)
      requires Valid() && s in [bids, asks] && n < |s.prices|
      ensures s.prices[n] in s.levels && n < |s.view|
      ensures var level := s.levels[s.prices[n]];
              level.Linked() && level.Tallied() && level.queue != [] && s.view[n] == Level(s.prices[n], level.view)
    {
      assert Hosts(s.levels[s.prices[n]]);
    }

    lemma SideShown(s: SideBook)
      requires Valid() && s in [bids, asks]
      ensures |s.view| == |s.prices|
    {
    }

    method SnapshotSide(s: SideBook) returns (out: Ladder)
      requires Valid() && s in [bids, asks]
      ensures out == s.view
    {
      hide ValidBut, PriceLevel.Linked, PriceLevel.Tallied;
      out := [];
      SideShown(s);
      for n := 0 to |s.prices|
        invariant |s.view| == |s.prices| && out == s.view[..n]
      {
        LevelShown(s, n);
        var level := s.levels[s.prices[n]];
        var queue := SnapshotLevel(level);
        out := out + [Level(s.prices[n], queue)];
      }
    }

    method Snapshot() returns (s: BookSnapshot)
      requires Valid()
      ensures Shows(s, View())
    {
      var b := SnapshotSide(bids);
      var a := SnapshotSide(asks);
      s := BookSnapshot(symbol, nextTradeSeq, b, a);
    }

    method RestoreLevel(queue: Queue)
      requires Valid() && Restable(View(), queue)
      modifies Repr
      ensures Valid() && fresh(Repr - old(Repr))
      ensures View() == RestAll(old(View()), queue)
    {
      for k := 0 to |queue|
        invariant Valid() && fresh(Repr - old(Repr))
        invariant View() == RestAll(old(View()), queue[..k])
      {
        RestableNext(old(View()), queue, k);
        AbsentFromIndex(queue[k].id);
        var order := new Order(queue[k].id, queue[k].side, queue[k].price, queue[k].leaves, queue[k].sequence);
        Rest(order);
      }
      assert queue[..|queue|] == queue;
    }

    method RestoreSide(levels: Ladder)
      requires Valid() && Restable(View(), Flatten(levels))
      modifies Repr
      ensures Valid() && fresh(Repr - old(Repr))
      ensures View() == RestAll(old(View()), Flatten(levels))
    {
      for i := 0 to |levels|
        invariant Valid() && fresh(Repr - old(Repr))
        invariant View() == RestAll(old(View()), Flatten(levels[..i]))
      {
        RestableLevel(old(View()), levels, i);
        RestoreLevel(levels[i].orders);
      }
      assert levels[..|levels|] == levels;
    }

    /** A book rebuilt from a snapshot by resting its orders one by one. */
    static method NewFromSnapshot(s: BookSnapshot) returns (b: OrderBook)
      requires Restable(Empty(s.symbol), Flatten(s.bids) + Flatten(s.asks))
      ensures b.Valid() && fresh(b.Repr)
      ensures b.View() == Restore(s)
    {
      hide OrderBook.ValidBut, RestAll;
      ghost var empty := Empty(s.symbol).(nextTradeSeq := s.nextTradeSeq);
      assert Restable(empty, Flatten(s.bids) + Flatten(s.asks));
      RestableRest(empty, Flatten(s.bids), Flatten(s.asks));
      b := new OrderBook(s.symbol, s.nextTradeSeq);
      b.RestoreSide(s.bids);
      b.RestoreSide(s.asks);
    }

    /** The self-check of one level: its queue is there, belongs to it, is positive and sums to the total. */
    method CheckLevel(level: PriceLevel) returns (ok: bool)
      requires Walkable(level)
      ensures ok <==> Healthy(level)
    {
      if level.head == null || level.tail == null {
        return false;
      }
      var qty := 0;
      var o := level.head;
      ghost var k := 0;
      while o != null
        invariant 0 <= k <= |level.queue| && o == (if k < |level.queue| then level.queue[k] else null)
        invariant forall i :: 0 <= i < k ==> level.queue[i].level == level && level.queue[i].leaves > 0
        invariant qty == SumQty(level.queue[..k])
        decreases |level.queue| - k
      {
        if o.level != level || o.leaves <= 0 {
          return false;
        }
        SumQtyNext(level.queue, k);
        qty := qty + o.leaves;
        if k + 1 < |level.queue| {
          assert level.queue[k].next == level.queue[k + 1];
        }
        o := o.next;
        k := k + 1;
      }
      assert level.queue[..k] == level.queue;
      ok := qty == level.totalQty;
    }

    method CheckSide(s: SideBook) returns (ok: bool)
      requires forall p :: p in s.levels ==> Walkable(s.levels[p])
      ensures ok <==> HealthySide(s)
    {
      var i := 1;
      while i < |s.prices|
        invariant 1 <= i && (i <= |s.prices| || |s.prices| == 0)
        invariant forall j :: 1 <= j < i && j < |s.prices| ==> !Ahead(s.isBid, s.prices[j], s.prices[j - 1])
      {
        if (s.isBid && s.prices[i] > s.prices[i - 1]) || (!s.isBid && s.prices[i] < s.prices[i - 1]) {
          assert Ahead(s.isBid, s.prices[i], s.prices[i - 1]);
          return false;
        }
        i := i + 1;
      }
      for n := 0 to |s.prices|
        invariant forall j :: 0 <= j < n ==> s.prices[j] in s.levels && Healthy(s.levels[s.prices[j]])
      {
        if s.prices[n] !in s.levels {
          return false;
        }
        var fine := CheckLevel(s.levels[s.prices[n]]);
        if !fine {
          return false;
        }
      }
      ok := true;
    }

    /** The book's self-check reports a problem exactly when there is one. */
    method CheckInvariants() returns (ok: bool)
      requires forall p :: p in bids.levels ==> Walkable(bids.levels[p])
      requires forall p :: p in asks.levels ==> Walkable(asks.levels[p])
      ensures ok <==> HealthySide(bids) && HealthySide(asks) && !Crossed(bids, asks)
    {
      var b := CheckSide(bids);
      if !b {
        return false;
      }
      var a := CheckSide(asks);
      if !a {
        return false;
      }
      ok := !(|bids.prices| > 0 && |asks.prices| > 0
              && bids.levels[bids.prices[0]].price >= asks.levels[asks.prices[0]].price);
    }

    /** Every valid and sound book, hence every reachable one, passes its self-check. */
    lemma ReachableIsHealthy(timed: bool, last: uint64)
      requires Valid() && BookLaws.Sound(timed, last, View())
      ensures forall p :: p in bids.levels ==> Walkable(bids.levels[p])
      ensures forall p :: p in asks.levels ==> Walkable(asks.levels[p])
      ensures HealthySide(bids) && HealthySide(asks) && !Crossed(bids, asks)
    {
      SideIsHealthy(true);
      SideIsHealthy(false);
      if bids.prices != [] && asks.prices != [] {
        BestOrder(true);
        BestOrder(false);
        TakenHead(bids.view, 1);
        TakenHead(asks.view, 1);
      }
    }

    lemma SideIsHealthy(isBid: bool)
      requires Valid()
      ensures HealthySide(SideFor(isBid))
      ensures forall p :: p in SideFor(isBid).levels ==> Walkable(SideFor(isBid).levels[p])
    {
      var s := SideFor(isBid);
      forall p | p in s.levels ensures Walkable(s.levels[p]) && Healthy(s.levels[p]) {
        var level := s.levels[p];
        assert Hosts(level) && level.Tallied() && level.queue != [];
        SumQtyIsTotal(level.queue, level.view);
        forall o | o in level.queue ensures o.level == level && o.leaves > 0 {
          var i :| 0 <= i < |level.queue| && level.queue[i] == o;
          assert level.queue[i].level == level && level.queue[i].leaves == level.view[i].leaves;
        }
      }
    }

    /** Forgets the level if its queue is empty. */
    method Prune(level: PriceLevel, bookSide: SideBook, ghost i: nat)
      requires ValidBut(level) && level.Tallied() && level in rungs && bookSide == SideFor(level.isBid)
      requires i < |bookSide.prices| && bookSide.prices[i] == level.price
      modifies Repr
      ensures Valid() && Same(level.isBid)
      ensures i < |old(bookSide.view)|
      ensures bookSide.view == if |old(level.queue)| == 0 then Drop(old(bookSide.view), i) else old(bookSide.view)
    {
      if level.head == null {
        label before:
        Forget(level, bookSide, i);
        PrunedValid@before(Rung(this, level, i));
      } else {
        Resettled(level);
      }
    }

    /** The level for a price on a side, made on demand; the price-time list stays as it is. */
    method GetOrCreateLevel(bookSide: SideBook, price: int64) returns (level: PriceLevel, ghost i: nat)
      requires Valid() && (bookSide == bids || bookSide == asks)
      modifies Repr
      ensures ValidBut(level) && level.Tallied() && level in rungs && bookSide == SideFor(level.isBid)
      ensures level.price == price && i < |bookSide.prices| && bookSide.prices[i] == price
      ensures Repr >= old(Repr) && fresh(Repr - old(Repr)) && orders == old(orders) && nextTradeSeq == old(nextTradeSeq)
      ensures level.isBid == bookSide.isBid && SideFor(!bookSide.isBid).view == old(SideFor(!bookSide.isBid).view)
      ensures Flatten(bookSide.view) == old(Flatten(bookSide.view))
    {
      hide AllPlaced, Flatten, PriceLevel.Linked, PriceLevel.Tallied, Inserted;
      if price in bookSide.levels {
        level := bookSide.levels[price];
        i := RankOf(null, level);
      } else {
        label before:
        level, i := Extend(bookSide, price);
        OpenedValid@before(Slot(this, bookSide, price));
        FlattenInserted(old(bookSide.view), i, price);
      }
    }

    method Extend(bookSide: SideBook, price: int64) returns (level: PriceLevel, ghost i: nat)
      requires bids.isBid && !asks.isBid && (bookSide == bids || bookSide == asks)
      requires bookSide.Indexed() && price !in bookSide.levels
      modifies this`rungs, this`Repr, bookSide
      ensures Opened(this, bookSide, SideFor(!bookSide.isBid), price)
      ensures level == bookSide.levels[price] && fresh(level)
      ensures i < |bookSide.prices| && bookSide.prices[i] == price && i <= |old(bookSide.view)|
      ensures bookSide.view == Inserted(old(bookSide.view), i, Level(price, []))
    {
      hide PriceLevel.Linked, PriceLevel.Tallied, Inserted;
      level, i := bookSide.AddLevel(price);
      rungs, Repr := rungs + {level}, Repr + {level};
    }

    method Forget(level: PriceLevel, bookSide: SideBook, ghost i: nat)
      requires bids.isBid && !asks.isBid && bookSide == SideFor(level.isBid) && bookSide.Indexed()
      requires level.Linked() && level.queue == [] && i < |bookSide.prices| && bookSide.levels[bookSide.prices[i]] == level
      modifies this`rungs, bookSide
      ensures Pruned(this, level, bookSide, SideFor(!level.isBid), i)
    {
      rungs := rungs - {level};
      bookSide.RemoveLevelIfEmpty(level, i);
    }
  }

  /** Only the trade counter of the book changed. */
  twostate predicate OnlyCounter(b: OrderBook)
    reads *
  {
    && b.Repr == old(b.Repr) && b.rungs == old(b.rungs) && b.orders == old(b.orders)
    && forall o :: o in b.Repr && o != b ==> unchanged(o)
  }

  twostate lemma CounterHosts(b: OrderBook)
    requires old(b.Rooted() && b.AllHosted() && b.Settled(null)) && OnlyCounter(b)
    ensures b.Rooted() && b.AllHosted() && b.Settled(null)
  {
    forall l | l in b.rungs ensures b.Hosts(l) && l.Tallied() && l.queue != [] {
      assert old(b.Hosts(l));
      assert forall o :: o in old(l.queue) ==> o in b.Repr;
      SameLevel(l);
    }
  }

  twostate lemma CounterIndexed(b: OrderBook)
    requires old(b.Rooted() && b.Racked() && b.AllPlaced() && b.bids.Indexed() && b.asks.Indexed()) && OnlyCounter(b)
    requires old(b.bids.levels.Values <= b.rungs && b.asks.levels.Values <= b.rungs) && b.Rooted()
    ensures b.Racked() && b.AllPlaced() && b.bids.Indexed() && b.asks.Indexed()
  {
  }

  /** Nothing that validity depends on reads the trade counter. */
  twostate lemma CounterValid(b: OrderBook)
    requires old(b.Valid()) && OnlyCounter(b)
    ensures b.Valid()
  {
    CounterHosts(b);
    CounterIndexed(b);
  }

  /** A level of a book; i is its rank on its side. */
  datatype Rung = Rung(book: OrderBook, level: PriceLevel, i: nat) {
    ghost function Side(): SideBook {
      book.SideFor(level.isBid)
    }

    ghost function Other(): SideBook {
      book.SideFor(!level.isBid)
    }
  }

  /** A change confined to one level: its queue and view, the orders that are or were in
      it, their entries in the id index, and the level's step of the ladder. */
  twostate predicate Requeued(b: OrderBook, level: PriceLevel, side: SideBook, other: SideBook, i: nat)
    reads *
  {
    && level.Linked()
    && (forall o :: o in level.queue ==>
          o.side == SideOf(level.isBid) && o in b.Repr && (o in old(level.queue) || o !in old(b.Repr)))
    && (forall o: Order :: o in old(b.Repr) && o !in old(level.queue) ==> unchanged(o))
    && (forall l: PriceLevel :: l in old(b.Repr) && l != level ==> unchanged(l))
    && unchanged(other)
    && side.levels == old(side.levels) && side.prices == old(side.prices)
    && i < |old(side.view)| && side.view == old(side.view)[i := Level(level.price, level.view)]
    && old(b.Repr) <= b.Repr && b.rungs == old(b.rungs) && b.nextTradeSeq == old(b.nextTradeSeq)
    && Refiled(old(b.orders), old(level.queue), b.orders, level.queue)
  }

  twostate lemma OldQueuesDiffer(pair: (PriceLevel, PriceLevel))
    requires old(pair.0.Linked()) && old(pair.1.Linked()) && pair.0 != pair.1
    ensures forall o :: o in old(pair.0.queue) ==> o !in old(pair.1.queue)
  {
    var (l, level) := pair;
    forall o | o in old(l.queue) ensures old(o.level) == l {
      var i :| 0 <= i < |old(l.queue)| && old(l.queue)[i] == o;
      assert old(l.queue[i].level) == l;
    }
    forall o | o in old(level.queue) ensures old(o.level) == level {
      var i :| 0 <= i < |old(level.queue)| && old(level.queue)[i] == o;
      assert old(level.queue[i].level) == level;
    }
  }

  twostate lemma RequeuedLevels(at: Rung)
    requires old(at.book.Rooted() && at.book.AllHosted()) && at.level in old(at.book.rungs) && Requeued(at.book, at.level, at.Side(), at.Other(), at.i)
    requires at.book.Rooted()
    ensures at.book.AllHosted()
    ensures old(at.book.Settled(at.level)) ==> at.book.Settled(at.level)
  {
    var Rung(b, level, i) := at;
    forall l | l in b.rungs && l != level
      ensures b.Hosts(l) && (old(b.Settled(level)) ==> l.Tallied() && l.queue != [])
    {
      assert old(b.Hosts(l)) && old(b.Hosts(level));
      OldQueuesDiffer((l, level));
      assert forall o :: o in old(l.queue) ==> o in old(b.Repr) && old(b.orders)[o.id] !in old(level.queue);
      SameLevel(l);
    }
  }

  twostate lemma RequeuedPlaced(at: Rung)
    requires old(at.book.Rooted() && at.book.AllHosted() && at.book.AllPlaced())
    requires at.level in old(at.book.rungs) && Requeued(at.book, at.level, at.Side(), at.Other(), at.i) && at.book.Rooted()
    ensures at.book.AllPlaced()
  {
    var Rung(b, level, i) := at;
    assert old(b.Hosts(level));
    forall id | id in b.orders
      ensures b.orders[id] in b.Repr && b.orders[id].id == id
      ensures b.orders[id].level != null && b.orders[id].level in b.rungs && b.orders[id] in b.orders[id].level.queue
    {
      var o := b.orders[id];
      if o in level.queue {
        var m :| 0 <= m < |level.queue| && level.queue[m] == o;
        assert level.queue[m].level == level;
      } else {
        assert old(o.level) != level;
      }
    }
  }

  twostate lemma RequeuedRooted(at: Rung)
    requires old(at.book.Rooted()) && at.level in old(at.book.rungs) && Requeued(at.book, at.level, at.Side(), at.Other(), at.i)
    ensures at.book.Rooted()
  {
  }

  twostate lemma RequeuedOwnSide(at: Rung)
    requires old(at.Side().Indexed() && at.Side().levels.Values <= at.book.rungs && at.book.rungs <= at.book.Repr)
    requires at.level.price in old(at.Side().levels) && old(at.Side().levels)[at.level.price] == at.level && Requeued(at.book, at.level, at.Side(), at.Other(), at.i)
    requires at.i < |old(at.Side().prices)| && old(at.Side().prices)[at.i] == at.level.price
    ensures at.Side().Indexed()
  {
    var s := at.Side();
    forall j | 0 <= j < |s.prices| ensures s.view[j] == Level(s.prices[j], s.levels[s.prices[j]].view) {
      if j != at.i {
        assert Ahead(s.isBid, s.prices[j], s.prices[at.i]) || Ahead(s.isBid, s.prices[at.i], s.prices[j]);
        assert s.levels[s.prices[j]] != at.level;
        assert s.levels[s.prices[j]] in old(s.levels.Values);
      }
    }
  }

  twostate lemma RequeuedOtherSide(at: Rung)
    requires var s := at.book.SideFor(!at.level.isBid);
             && s.isBid != at.level.isBid
             && old(s.Indexed() && s.levels.Values <= at.book.rungs && at.book.rungs <= at.book.Repr)
    requires Requeued(at.book, at.level, at.Side(), at.Other(), at.i)
    ensures at.book.SideFor(!at.level.isBid).Indexed()
  {
  }

  twostate lemma RequeuedIndexed(at: Rung)
    requires old(at.book.Rooted() && at.book.Racked()) && at.level in old(at.book.rungs) && Requeued(at.book, at.level, at.Side(), at.Other(), at.i)
    requires old(at.book.bids.levels.Values <= at.book.rungs && at.book.asks.levels.Values <= at.book.rungs)
    requires old(at.book.bids.Indexed() && at.book.asks.Indexed())
    requires at.i < |old(at.Side().prices)| && old(at.Side().prices)[at.i] == at.level.price
    ensures at.book.bids.Indexed() && at.book.asks.Indexed() && at.book.Racked()
  {
    RequeuedOwnSide(at);
    RequeuedOtherSide(at);
  }

  /** Such a change keeps the book valid, up to the quantities of that level. */
  twostate lemma RequeuedValid(at: Rung)
    requires old(at.book.ValidBut(at.level)) && at.level in old(at.book.rungs) && Requeued(at.book, at.level, at.Side(), at.Other(), at.i)
    requires at.i < |old(at.Side().prices)| && old(at.Side().prices)[at.i] == at.level.price
    ensures at.book.ValidBut(at.level) && at.level in at.book.rungs && at.book.nextTradeSeq == old(at.book.nextTradeSeq)
    ensures at.Other().view == old(at.Other().view) && at.Side().prices == old(at.Side().prices)
    ensures at.i < |old(at.Side().view)| && at.Side().view == old(at.Side().view)[at.i := Level(at.level.price, at.level.view)]
  {
    RequeuedIndexed(at);
    RequeuedRooted(at);
    RequeuedLevels(at);
    RequeuedPlaced(at);
  }

  /** What dropping an empty level does to the heap: no order and no level changes. */
  twostate predicate Pruned(b: OrderBook, level: PriceLevel, side: SideBook, other: SideBook, i: nat)
    reads *
  {
    && level.queue == []
    && (forall o: Order :: o in old(b.Repr) ==> unchanged(o))
    && (forall l: PriceLevel :: l in old(b.Repr) ==> unchanged(l))
    && unchanged(other)
    && side.Indexed() && side.levels == old(side.levels) - {level.price}
    && i < |old(side.view)| && side.view == Drop(old(side.view), i)
    && b.Repr == old(b.Repr) && b.rungs == old(b.rungs) - {level}
    && b.orders == old(b.orders) && b.nextTradeSeq == old(b.nextTradeSeq)
  }

  twostate lemma PrunedHosts(at: Rung)
    requires old(at.book.Rooted() && at.book.AllHosted() && at.book.Settled(at.level)) && Pruned(at.book, at.level, at.Side(), at.Other(), at.i)
    ensures at.book.Rooted() && at.book.AllHosted() && at.book.Settled(null)
  {
    forall l | l in at.book.rungs ensures at.book.Hosts(l) && l.Tallied() && l.queue != [] {
      assert old(at.book.Hosts(l));
      assert forall o :: o in old(l.queue) ==> o in old(at.book.Repr);
      SameLevel(l);
    }
  }

  twostate lemma PrunedPlaced(at: Rung)
    requires old(at.book.Rooted() && at.book.AllPlaced()) && Pruned(at.book, at.level, at.Side(), at.Other(), at.i) && at.book.Rooted()
    ensures at.book.AllPlaced()
  {
  }

  twostate lemma PrunedIndexed(at: Rung)
    requires old(at.book.Rooted() && at.book.Racked()) && at.level in old(at.book.rungs) && Pruned(at.book, at.level, at.Side(), at.Other(), at.i)
    requires old(at.book.bids.levels.Values <= at.book.rungs && at.book.asks.levels.Values <= at.book.rungs)
    requires old(at.book.bids.Indexed() && at.book.asks.Indexed())
    ensures at.book.bids.Indexed() && at.book.asks.Indexed() && at.book.Racked()
  {
  }

  twostate lemma PrunedValid(at: Rung)
    requires old(at.book.ValidBut(at.level)) && at.level in old(at.book.rungs) && Pruned(at.book, at.level, at.Side(), at.Other(), at.i)
    ensures at.book.Valid() && at.book.Repr == old(at.book.Repr) && at.book.nextTradeSeq == old(at.book.nextTradeSeq)
    ensures at.Other().view == old(at.Other().view)
    ensures at.i < |old(at.Side().view)| && at.Side().view == Drop(old(at.Side().view), at.i)
  {
    PrunedIndexed(at);
    PrunedHosts(at);
    PrunedPlaced(at);
  }

  /** A price on a side of a book. */
  datatype Slot = Slot(book: OrderBook, side: SideBook, price: int64) {
    ghost function Other(): SideBook {
      book.SideFor(!side.isBid)
    }
  }

  /** What making an empty level does to the heap. */
  twostate predicate Opened(b: OrderBook, side: SideBook, other: SideBook, price: int64)
    reads *
  {
    && price !in old(side.levels) && price in side.levels
    && (var level := side.levels[price];
        && level !in old(b.Repr) && level.queue == [] && level.Linked() && level.Tallied()
        && side.levels == old(side.levels)[price := level]
        && b.Repr == old(b.Repr) + {level} && b.rungs == old(b.rungs) + {level})
    && side.Indexed()
    && (forall o: Order :: o in old(b.Repr) ==> unchanged(o))
    && (forall l: PriceLevel :: l in old(b.Repr) ==> unchanged(l))
    && unchanged(other)
    && b.orders == old(b.orders) && b.nextTradeSeq == old(b.nextTradeSeq)
  }

  twostate lemma OpenedHosts(at: Slot)
    requires old(at.book.Rooted() && at.book.AllHosted() && at.book.Settled(null))
    requires Opened(at.book, at.side, at.Other(), at.price)
    ensures at.book.Rooted() && at.book.AllHosted() && at.book.Settled(at.side.levels[at.price])
  {
    var b := at.book;
    forall l | l in old(b.rungs) ensures b.Hosts(l) && l.Tallied() && l.queue != [] {
      assert old(b.Hosts(l));
      assert forall o :: o in old(l.queue) ==> o in old(b.Repr);
      SameLevel(l);
    }
  }

  twostate lemma OpenedPlaced(at: Slot)
    requires old(at.book.Rooted() && at.book.AllPlaced()) && at.book.Rooted()
    requires Opened(at.book, at.side, at.Other(), at.price)
    ensures at.book.AllPlaced()
  {
  }

  twostate lemma OpenedIndexed(at: Slot)
    requires old(at.book.Rooted() && at.book.Racked()) && (at.side == at.book.bids || at.side == at.book.asks)
    requires Opened(at.book, at.side, at.Other(), at.price)
    requires old(at.book.bids.levels.Values <= at.book.rungs && at.book.asks.levels.Values <= at.book.rungs)
    requires old(at.book.bids.Indexed() && at.book.asks.Indexed())
    ensures at.book.bids.Indexed() && at.book.asks.Indexed() && at.book.Racked()
  {
  }

  twostate lemma OpenedValid(at: Slot)
    requires old(at.book.Valid()) && (at.side == at.book.bids || at.side == at.book.asks)
    requires Opened(at.book, at.side, at.Other(), at.price)
    ensures at.book.ValidBut(at.side.levels[at.price]) && at.side.levels[at.price] in at.book.rungs
    ensures at.side.levels[at.price].Tallied() && at.side == at.book.SideFor(at.side.levels[at.price].isBid)
    ensures at.book.orders == old(at.book.orders) && at.book.nextTradeSeq == old(at.book.nextTradeSeq)
    ensures at.Other().view == old(at.Other().view) && at.side.levels[at.price].price == at.price
    ensures at.book.Repr == old(at.book.Repr) + {at.side.levels[at.price]}
  {
    OpenedIndexed(at);
    OpenedHosts(at);
    OpenedPlaced(at);
  }
}
