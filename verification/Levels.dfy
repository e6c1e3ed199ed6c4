/** The middle view of a book side: a list of price levels, each with its queue.
    It is the shape of a price-level snapshot, and it lies between the pointer
    structure and the flat price-time list. */
module Levels {
  import opened Model
  import opened PriceTimeBook

  datatype Level = Level(price: int64, orders: Queue)

  type Ladder = seq<Level>

  function Flatten(v: Ladder): Queue {
    if v == [] then [] else v[0].orders + Flatten(v[1..])
  }

  /** Strictly best-first prices, and every order queued at its own price. */
  ghost predicate Ordered(isBid: bool, v: Ladder) {
    && (forall i, j :: 0 <= i < j < |v| ==> Ahead(isBid, v[i].price, v[j].price))
    && (forall i, k :: 0 <= i < |v| && 0 <= k < |v[i].orders| ==> v[i].orders[k].price == v[i].price)
  }

  /** The ladder with the k-th order of level i gone, and the level with it if it was the last. */
  function Removed(v: Ladder, i: nat, k: nat): Ladder
    requires i < |v| && k < |v[i].orders|
  {
    if |v[i].orders| == 1 then Drop(v, i)
    else v[i := Level(v[i].price, Drop(v[i].orders, k))]
  }

  /** The ladder with another quantity for the k-th order of level i. */
  function Amended(v: Ladder, i: nat, k: nat, leaves: quantity): Ladder
    requires i < |v| && k < |v[i].orders|
  {
    v[i := Level(v[i].price, v[i].orders[k := v[i].orders[k].(leaves := leaves)])]
  }

  /** Unlink the order first, then drop the level if it became empty. */
  lemma RemovedInSteps(v: Ladder, i: nat, k: nat)
    requires i < |v| && k < |v[i].orders|
    ensures var w := v[i := Level(v[i].price, Drop(v[i].orders, k))];
            Removed(v, i, k) == if |v[i].orders| == 1 then Drop(w, i) else w
  {
  }

  lemma {:induction false} FlattenSplit(v: Ladder, i: nat)
    requires i <= |v|
    ensures Flatten(v) == Flatten(v[..i]) + Flatten(v[i..])
  {
    if i == 0 {
      assert v[0..] == v && v[..0] == [];
    } else {
      FlattenSplit(v[1..], i - 1);
      assert v[1..][..i - 1] == v[..i][1..];
      assert v[1..][i - 1..] == v[i..];
    }
  }

  /** Replacing the levels in the middle replaces exactly their stretch of the list. */
  lemma FlattenMiddle(pre: Ladder, mid: Ladder, post: Ladder)
    ensures Flatten(pre + mid + post) == Flatten(pre) + Flatten(mid) + Flatten(post)
  {
    var v := pre + mid + post;
    FlattenSplit(v, |pre|);
    assert v[..|pre|] == pre && v[|pre|..] == mid + post;
    FlattenSplit(mid + post, |mid|);
    assert (mid + post)[..|mid|] == mid && (mid + post)[|mid|..] == post;
  }

  lemma FlattenOne(l: Level)
    ensures Flatten([l]) == l.orders
  {
    assert [l][1..] == [];
    assert Flatten([l]) == l.orders + [];
  }

  lemma SplitAt(v: Ladder, i: nat)
    requires i < |v|
    ensures v == v[..i] + [v[i]] + v[i + 1..]
  {
  }

  lemma FlattenAt(v: Ladder, i: nat)
    requires i < |v|
    ensures Flatten(v) == Flatten(v[..i]) + v[i].orders + Flatten(v[i + 1..])
  {
    hide Flatten;
    SplitAt(v, i);
    FlattenMiddle(v[..i], [v[i]], v[i + 1..]);
    FlattenOne(v[i]);
  }

  lemma FlattenUpdate(v: Ladder, i: nat, l: Level)
    requires i < |v|
    ensures Flatten(v[i := l]) == Flatten(v[..i]) + l.orders + Flatten(v[i + 1..])
  {
    FlattenAt(v[i := l], i);
    assert v[i := l][..i] == v[..i] && v[i := l][i + 1..] == v[i + 1..];
  }

  lemma {:induction false} FlattenMember(v: Ladder, o: Resting) returns (i: nat, k: nat)
    requires o in Flatten(v)
    ensures i < |v| && k < |v[i].orders| && v[i].orders[k] == o
  {
    if o in v[0].orders {
      i := 0;
      k :| 0 <= k < |v[0].orders| && v[0].orders[k] == o;
    } else {
      i, k := FlattenMember(v[1..], o);
      i := i + 1;
    }
  }

  lemma FlattenContains(v: Ladder, i: nat, k: nat)
    requires i < |v| && k < |v[i].orders|
    ensures v[i].orders[k] in Flatten(v)
  {
    FlattenAt(v, i);
    assert v[i].orders[k] in v[i].orders;
  }

  lemma {:induction false} InsertSplit(isBid: bool, a: Queue, b: Queue, o: Resting)
    requires forall x :: x in a ==> !Ahead(isBid, o.price, x.price)
    requires b != [] ==> Ahead(isBid, o.price, b[0].price)
    ensures Insert(isBid, a + b, o) == a + [o] + b
  {
    if a == [] {
      assert a + b == b;
      assert a + [o] + b == [o] + b;
    } else {
      InsertSplit(isBid, a[1..], b, o);
      assert (a + b)[1..] == a[1..] + b;
      assert [a[0]] + (a[1..] + [o] + b) == a + [o] + b;
    }
  }

  lemma PricesBefore(isBid: bool, v: Ladder, i: nat, price: int64)
    requires Ordered(isBid, v) && i <= |v|
    requires forall j :: 0 <= j < i ==> !Ahead(isBid, price, v[j].price)
    requires forall j :: i <= j < |v| ==> Ahead(isBid, price, v[j].price)
    ensures forall x :: x in Flatten(v[..i]) ==> !Ahead(isBid, price, x.price)
    ensures forall x :: x in Flatten(v[i..]) ==> Ahead(isBid, price, x.price)
  {
    forall x | x in Flatten(v[..i]) ensures !Ahead(isBid, price, x.price) {
      var j, k := FlattenMember(v[..i], x);
      assert v[j].orders[k].price == v[j].price;
    }
    forall x | x in Flatten(v[i..]) ensures Ahead(isBid, price, x.price) {
      var j, k := FlattenMember(v[i..], x);
      assert v[i + j].orders[k].price == v[i + j].price;
    }
  }

  /** Appending to the queue of an existing level is insertion in price-time order. */
  lemma RestInLevel(isBid: bool, v: Ladder, i: nat, o: Resting)
    requires Ordered(isBid, v) && i < |v| && v[i].price == o.price
    ensures Flatten(v[i := Level(o.price, v[i].orders + [o])]) == Insert(isBid, Flatten(v), o)
  {
    hide Insert, Flatten;
    FlattenUpdate(v, i, Level(o.price, v[i].orders + [o]));
    FlattenSplit(v, i + 1);
    PricesBefore(isBid, v, i + 1, o.price);
    var a, b := Flatten(v[..i + 1]), Flatten(v[i + 1..]);
    InsertSplit(isBid, a, b, o);
    FlattenAt(v[..i + 1], i);
    FlattenNone();
    assert v[..i + 1][..i] == v[..i] && v[..i + 1][i + 1..] == [];
    assert a == Flatten(v[..i]) + v[i].orders;
    var before := Flatten(v[..i]);
    assert before + (v[i].orders + [o]) + b == (before + v[i].orders) + [o] + b;
  }

  lemma FlattenNone()
    ensures Flatten([]) == []
  {
  }

  /** An empty level contributes nothing to the list. */
  lemma FlattenInserted(v: Ladder, i: nat, price: int64)
    requires i <= |v|
    ensures Flatten(Inserted(v, i, Level(price, []))) == Flatten(v)
  {
    FlattenMiddle(v[..i], [Level(price, [])], v[i..]);
    FlattenOne(Level(price, []));
    FlattenSplit(v, i);
  }

  lemma {:induction false} WithoutConcat(a: Queue, b: Queue, id: uint64)
    ensures Without(a + b, id) == Without(a, id) + Without(b, id)
  {
    if a == [] {
      assert a + b == b;
    } else {
      WithoutConcat(a[1..], b, id);
      var first := if a[0].id == id then [] else [a[0]];
      assert (a + b)[0] == a[0] && (a + b)[1..] == a[1..] + b;
      assert first + (Without(a[1..], id) + Without(b, id)) == (first + Without(a[1..], id)) + Without(b, id);
    }
  }

  lemma {:induction false} WithoutAbsent(q: Queue, id: uint64)
    requires forall o :: o in q ==> o.id != id
    ensures Without(q, id) == q
  {
    if q != [] {
      WithoutAbsent(q[1..], id);
      assert q == [q[0]] + q[1..];
    }
  }

  lemma {:induction false} WithLeavesConcat(a: Queue, b: Queue, id: uint64, n: quantity)
    ensures WithLeaves(a + b, id, n) == WithLeaves(a, id, n) + WithLeaves(b, id, n)
  {
    if a == [] {
      assert a + b == b;
    } else {
      WithLeavesConcat(a[1..], b, id, n);
      var first := [if a[0].id == id then a[0].(leaves := n) else a[0]];
      assert (a + b)[0] == a[0] && (a + b)[1..] == a[1..] + b;
      assert first + (WithLeaves(a[1..], id, n) + WithLeaves(b, id, n)) == (first + WithLeaves(a[1..], id, n)) + WithLeaves(b, id, n);
    }
  }

  lemma {:induction false} WithLeavesAbsent(q: Queue, id: uint64, n: quantity)
    requires forall o :: o in q ==> o.id != id
    ensures WithLeaves(q, id, n) == q
  {
    if q != [] {
      WithLeavesAbsent(q[1..], id, n);
      assert q == [q[0]] + q[1..];
    }
  }

  /** Order k of level i is the only one in the ladder with its id. */
  ghost predicate Sole(v: Ladder, i: nat, k: nat)
    requires i < |v| && k < |v[i].orders|
  {
    forall j, m :: 0 <= j < |v| && 0 <= m < |v[j].orders| && v[j].orders[m].id == v[i].orders[k].id ==> j == i && m == k
  }

  lemma SoleAround(v: Ladder, i: nat, k: nat)
    requires i < |v| && k < |v[i].orders| && Sole(v, i, k)
    ensures forall o :: o in Flatten(v[..i]) + v[i].orders[..k] ==> o.id != v[i].orders[k].id
    ensures forall o :: o in v[i].orders[k + 1..] + Flatten(v[i + 1..]) ==> o.id != v[i].orders[k].id
    ensures Flatten(v) == (Flatten(v[..i]) + v[i].orders[..k]) + [v[i].orders[k]] + (v[i].orders[k + 1..] + Flatten(v[i + 1..]))
  {
    var id := v[i].orders[k].id;
    forall o | o in Flatten(v[..i]) ensures o.id != id {
      var j, m := FlattenMember(v[..i], o);
    }
    forall o | o in Flatten(v[i + 1..]) ensures o.id != id {
      var j, m := FlattenMember(v[i + 1..], o);
      assert v[i + 1 + j].orders[m].id == o.id;
    }
    FlattenAt(v, i);
    assert v[i].orders == v[i].orders[..k] + [v[i].orders[k]] + v[i].orders[k + 1..];
  }

  lemma WithoutMiddle(a: Queue, o: Resting, b: Queue)
    requires forall x :: x in a || x in b ==> x.id != o.id
    ensures Without(a + [o] + b, o.id) == a + b
  {
    WithoutConcat(a + [o], b, o.id);
    WithoutConcat(a, [o], o.id);
    WithoutAbsent(a, o.id);
    WithoutAbsent(b, o.id);
    assert Without([o], o.id) == [];
  }

  lemma WithLeavesMiddle(a: Queue, o: Resting, b: Queue, n: quantity)
    requires forall x :: x in a || x in b ==> x.id != o.id
    ensures WithLeaves(a + [o] + b, o.id, n) == a + [o.(leaves := n)] + b
  {
    WithLeavesConcat(a + [o], b, o.id, n);
    WithLeavesConcat(a, [o], o.id, n);
    WithLeavesAbsent(a, o.id, n);
    WithLeavesAbsent(b, o.id, n);
    assert WithLeaves([o], o.id, n) == [o.(leaves := n)];
  }

  /** Unlinking an order from its level is removing its id from the list. */
  lemma RemovedFlat(v: Ladder, i: nat, k: nat)
    requires i < |v| && k < |v[i].orders| && Sole(v, i, k)
    ensures Flatten(Removed(v, i, k)) == Without(Flatten(v), v[i].orders[k].id)
  {
    var q := v[i].orders;
    var a, b := Flatten(v[..i]), Flatten(v[i + 1..]);
    SoleAround(v, i, k);
    WithoutMiddle(a + q[..k], q[k], q[k + 1..] + b);
    assert (a + q[..k]) + (q[k + 1..] + b) == a + (q[..k] + q[k + 1..]) + b;
    RemovedLevel(v, i, k);
  }

  lemma RemovedLevel(v: Ladder, i: nat, k: nat)
    requires i < |v| && k < |v[i].orders|
    ensures Flatten(Removed(v, i, k)) ==
            Flatten(v[..i]) + (v[i].orders[..k] + v[i].orders[k + 1..]) + Flatten(v[i + 1..])
  {
    hide Flatten;
    if |v[i].orders| == 1 {
      FlattenMiddle(v[..i], [], v[i + 1..]);
      FlattenNone();
      assert v[i].orders[..k] + v[i].orders[k + 1..] == [];
      assert v[..i] + [] + v[i + 1..] == Removed(v, i, k);
    } else {
      FlattenUpdate(v, i, Level(v[i].price, v[i].orders[..k] + v[i].orders[k + 1..]));
    }
  }

  /** Changing an order's quantity in its queue is changing it in the list. */
  lemma ReducedFlat(v: Ladder, i: nat, k: nat, n: quantity)
    requires i < |v| && k < |v[i].orders| && Sole(v, i, k)
    ensures Flatten(Amended(v, i, k, n)) == WithLeaves(Flatten(v), v[i].orders[k].id, n)
  {
    var q := v[i].orders;
    var o := q[k].(leaves := n);
    var a, b := Flatten(v[..i]), Flatten(v[i + 1..]);
    SoleAround(v, i, k);
    WithLeavesMiddle(a + q[..k], q[k], q[k + 1..] + b, n);
    FlattenUpdate(v, i, Level(v[i].price, q[k := o]));
    assert (a + q[..k]) + [o] + (q[k + 1..] + b) == a + q[k := o] + b;
  }

  lemma {:induction false} TotalConcat(a: Queue, b: Queue)
    ensures TotalLeaves(a + b) == TotalLeaves(a) + TotalLeaves(b)
  {
    if a == [] {
      assert a + b == b;
    } else {
      TotalConcat(a[1..], b);
      assert (a + b)[1..] == a[1..] + b;
    }
  }

  function Drop<T>(s: seq<T>, k: nat): seq<T>
    requires k < |s|
  {
    s[..k] + s[k + 1..]
  }

  function Inserted<T>(s: seq<T>, i: nat, x: T): seq<T>
    requires i <= |s|
  {
    s[..i] + [x] + s[i..]
  }

  lemma TotalCons(o: Resting, q: Queue)
    ensures TotalLeaves([o] + q) == o.leaves + TotalLeaves(q)
  {
    assert ([o] + q)[1..] == q;
  }

  lemma TotalDrop(q: Queue, k: nat)
    requires k < |q|
    ensures TotalLeaves(Drop(q, k)) == TotalLeaves(q) - q[k].leaves
  {
    hide TotalLeaves;
    TotalConcat(q[..k], q[k + 1..]);
    TotalConcat(q[..k], [q[k]] + q[k + 1..]);
    TotalCons(q[k], q[k + 1..]);
    assert q == q[..k] + ([q[k]] + q[k + 1..]);
  }

  /** Changing one quantity moves the level total by the difference. */
  lemma TotalSet(q: Queue, k: nat, n: quantity)
    requires k < |q|
    ensures TotalLeaves(q[k := q[k].(leaves := n)]) == TotalLeaves(q) - q[k].leaves + n
  {
    var x := q[k].(leaves := n);
    TotalConcat(q[..k], [q[k]] + q[k + 1..]);
    TotalConcat(q[..k], [x] + q[k + 1..]);
    assert q == q[..k] + ([q[k]] + q[k + 1..]);
    assert q[k := x] == q[..k] + ([x] + q[k + 1..]);
  }

  /** A level is taken or skipped as a whole by the fill-or-kill check. */
  lemma {:induction false} FokLevel(isBid: bool, q: Queue, rest: Queue, price: int64, orderType: uint8, limit: int64)
    requires forall o :: o in q ==> o.price == price
    requires FokTakes(isBid, orderType, limit, price)
    ensures FokQuantity(isBid, q + rest, orderType, limit) == TotalLeaves(q) + FokQuantity(isBid, rest, orderType, limit)
  {
    if q == [] {
      assert q + rest == rest;
    } else {
      FokLevel(isBid, q[1..], rest, price, orderType, limit);
      assert (q + rest)[1..] == q[1..] + rest;
    }
  }

  /** The ladder after a quantity is taken from the k-th order of level i. */
  function Taken(v: Ladder, i: nat, k: nat, qty: int64): Ladder
    requires i < |v| && k < |v[i].orders| && 0 < qty <= v[i].orders[k].leaves
  {
    var o := v[i].orders[k];
    if qty == o.leaves then Removed(v, i, k) else Amended(v, i, k, o.leaves - qty)
  }

  lemma FirstLevel(v: Ladder)
    requires v != []
    ensures Flatten(v[..0]) == [] && Flatten(v) == v[0].orders + Flatten(v[1..])
  {
  }

  lemma RemovedHead(v: Ladder)
    requires v != [] && v[0].orders != []
    ensures Flatten(Removed(v, 0, 0)) == Flatten(v)[1..]
  {
    hide Flatten, Removed;
    var q, rest := v[0].orders, Flatten(v[1..]);
    FirstLevel(v);
    RemovedLevel(v, 0, 0);
    assert (q + rest)[1..] == q[1..] + rest;
    assert [] + (q[..0] + q[1..]) + rest == q[1..] + rest;
  }

  lemma AmendedHead(v: Ladder, n: quantity)
    requires v != [] && v[0].orders != []
    ensures Flatten(Amended(v, 0, 0, n)) == [v[0].orders[0].(leaves := n)] + Flatten(v)[1..]
  {
    hide Flatten;
    var q, rest := v[0].orders, Flatten(v[1..]);
    var w, x := Amended(v, 0, 0, n), q[0].(leaves := n);
    FirstLevel(v);
    FirstLevel(w);
    assert w[1..] == v[1..] && w[0].orders == q[0 := x];
    assert q[0 := x] + rest == [x] + (q + rest)[1..];
  }

  /** Taking from the head of the first queue is taking from the head of the list. */
  lemma TakenHead(v: Ladder, qty: int64)
    requires v != [] && v[0].orders != [] && 0 < qty <= v[0].orders[0].leaves
    ensures Flatten(v) != [] && Flatten(v)[0] == v[0].orders[0]
    ensures Flatten(Taken(v, 0, 0, qty)) == TakenFirst(Flatten(v), qty)
  {
    FirstLevel(v);
    if qty == v[0].orders[0].leaves {
      RemovedHead(v);
    } else {
      AmendedHead(v, v[0].orders[0].leaves - qty);
    }
  }

  /** The fill-or-kill check moves down the ladder one level at a time. */
  lemma FokStep(isBid: bool, v: Ladder, n: nat, orderType: uint8, limit: int64)
    requires Ordered(isBid, v) && n < |v|
    ensures FokTakes(isBid, orderType, limit, v[n].price) ==>
              FokQuantity(isBid, Flatten(v[n..]), orderType, limit) ==
              TotalLeaves(v[n].orders) + FokQuantity(isBid, Flatten(v[n + 1..]), orderType, limit)
    ensures !FokTakes(isBid, orderType, limit, v[n].price) && v[n].orders != [] ==>
              FokQuantity(isBid, Flatten(v[n..]), orderType, limit) == 0
  {
    assert v[n..][1..] == v[n + 1..];
    if FokTakes(isBid, orderType, limit, v[n].price) {
      FokLevel(isBid, v[n].orders, Flatten(v[n + 1..]), v[n].price, orderType, limit);
    }
  }
}
