/** Book snapshots: what is saved, and that restoring it gives the book back. */
module Snapshots {
  import opened Model
  import opened PriceTimeBook
  import opened Levels
  import opened BookLaws

  datatype BookSnapshot = BookSnapshot(symbol: Symbol, nextTradeSeq: uint64, bids: Ladder, asks: Ladder)

  /** The snapshot shows this book. */
  ghost predicate Shows(s: BookSnapshot, b: Book) {
    s.symbol == b.symbol && s.nextTradeSeq == b.nextTradeSeq && Flatten(s.bids) == b.bids && Flatten(s.asks) == b.asks
  }

  /** Orders rested one after the other, without matching. */
  function RestAll(b: Book, q: Queue): Book
    decreases |q|
  {
    if q == [] then b else RestAll(Rest(b, q[0]), q[1..])
  }

  function Restore(s: BookSnapshot): Book {
    RestAll(RestAll(Empty(s.symbol).(nextTradeSeq := s.nextTradeSeq), Flatten(s.bids)), Flatten(s.asks))
  }

  /** Orders that can be rested together: valid sides, and no id twice or already there. */
  ghost predicate Restable(b: Book, q: Queue) {
    && (forall i, j :: 0 <= i < j < |q| ==> q[i].id != q[j].id)
    && (forall o :: o in q ==> (o.side == SIDE_BUY || o.side == SIDE_SELL) && Absent(b, o.id))
  }

  lemma {:induction false} RestAllConcat(b: Book, p: Queue, q: Queue)
    ensures RestAll(b, p + q) == RestAll(RestAll(b, p), q)
    decreases |p|
  {
    if p == [] {
      assert p + q == q;
    } else {
      RestAllConcat(Rest(b, p[0]), p[1..], q);
      assert (p + q)[1..] == p[1..] + q;
    }
  }

  lemma RestAbsent(b: Book, o: Resting, id: uint64)
    requires Absent(b, id) && id != o.id
    ensures Absent(Rest(b, o), id)
  {
    InsertMembers(true, b.bids, o);
    InsertMembers(false, b.asks, o);
  }

  lemma {:induction false} RestAllAbsent(b: Book, q: Queue, id: uint64)
    requires Absent(b, id) && forall o :: o in q ==> o.id != id
    ensures Absent(RestAll(b, q), id)
    decreases |q|
  {
    if q != [] {
      RestAbsent(b, q[0], id);
      RestAllAbsent(Rest(b, q[0]), q[1..], id);
    }
  }

  /** After the first orders are rested, the others still can be. */
  lemma RestableRest(b: Book, p: Queue, q: Queue)
    requires Restable(b, p + q)
    ensures Restable(b, p) && Restable(RestAll(b, p), q)
  {
    forall i, j | 0 <= i < j < |p| ensures p[i].id != p[j].id {
      assert (p + q)[i].id != (p + q)[j].id;
    }
    forall i, j | 0 <= i < j < |q| ensures q[i].id != q[j].id {
      assert (p + q)[|p| + i].id != (p + q)[|p| + j].id;
    }
    forall o | o in q ensures Absent(RestAll(b, p), o.id) {
      assert o in p + q;
      var j :| 0 <= j < |q| && q[j] == o;
      assert (p + q)[|p| + j] == o;
      forall x | x in p ensures x.id != o.id {
        var i :| 0 <= i < |p| && p[i] == x;
        assert (p + q)[i].id != (p + q)[|p| + j].id;
      }
      RestAllAbsent(b, p, o.id);
    }
    assert forall o :: o in p ==> o in p + q;
  }

  lemma RestableNext(b: Book, q: Queue, k: nat)
    requires Restable(b, q) && k < |q|
    ensures Absent(RestAll(b, q[..k]), q[k].id) && (q[k].side == SIDE_BUY || q[k].side == SIDE_SELL)
    ensures RestAll(b, q[..k + 1]) == Rest(RestAll(b, q[..k]), q[k])
  {
    assert q == q[..k] + q[k..] && q[..k + 1] == q[..k] + [q[k]];
    RestableRest(b, q[..k], q[k..]);
    assert q[k..][0] in q[k..];
    RestAllConcat(b, q[..k], [q[k]]);
    assert [q[k]][1..] == [];
  }

  lemma RestableLevel(b: Book, v: Ladder, i: nat)
    requires Restable(b, Flatten(v)) && i < |v|
    ensures Restable(RestAll(b, Flatten(v[..i])), v[i].orders)
    ensures RestAll(b, Flatten(v[..i + 1])) == RestAll(RestAll(b, Flatten(v[..i])), v[i].orders)
  {
    FlattenAt(v, i);
    RestableRest(b, Flatten(v[..i]) + v[i].orders, Flatten(v[i + 1..]));
    RestableRest(b, Flatten(v[..i]), v[i].orders);
    FlattenSplit(v[..i + 1], i);
    assert v[..i + 1][..i] == v[..i] && v[..i + 1][i..] == [v[i]];
    FlattenOne(v[i]);
    RestAllConcat(b, Flatten(v[..i]), v[i].orders);
  }

  /** Resting a ranked list behind a ranked list appends it. */
  lemma {:induction false} RestAllAppends(timed: bool, isBid: bool, last: uint64, b: Book, p: Queue, q: Queue)
    requires Ranked(timed, isBid, last, p + q) && p == (if isBid then b.bids else b.asks)
    ensures RestAll(b, q) == if isBid then b.(bids := p + q) else b.(asks := p + q)
    decreases |q|
  {
    if q == [] {
      assert p + q == p;
    } else {
      forall x | x in p ensures !Ahead(isBid, q[0].price, x.price) {
        var i :| 0 <= i < |p| && p[i] == x;
        assert Before(timed, isBid, (p + q)[i], (p + q)[|p|]);
      }
      InsertSplit(isBid, p, [], q[0]);
      assert p + [] == p && p + [q[0]] + [] == p + [q[0]];
      assert (p + [q[0]]) + q[1..] == p + q;
      assert (p + q)[|p|] in p + q && Fit(timed, isBid, last, q[0]);
      RestAllAppends(timed, isBid, last, Rest(b, q[0]), p + [q[0]], q[1..]);
    }
  }

  /** Restoring the snapshot of a sound book gives the same book, trade counter included. */
  lemma RestoreGivesBack(timed: bool, last: uint64, s: BookSnapshot, b: Book)
    requires Sound(timed, last, b) && Shows(s, b)
    ensures Restore(s) == b && Restable(Empty(s.symbol), Flatten(s.bids) + Flatten(s.asks))
  {
    var empty := Empty(s.symbol).(nextTradeSeq := s.nextTradeSeq);
    assert [] + b.bids == b.bids && [] + b.asks == b.asks;
    RestAllAppends(timed, true, last, empty, [], b.bids);
    RestAllAppends(timed, false, last, empty.(bids := b.bids), [], b.asks);
    SoundRestable(timed, last, s.symbol, b);
  }

  lemma SoundRestable(timed: bool, last: uint64, symbol: Symbol, b: Book)
    requires Sound(timed, last, b)
    ensures Restable(Empty(symbol), b.bids + b.asks)
  {
    var q := b.bids + b.asks;
    forall i, j | 0 <= i < j < |q| ensures q[i].id != q[j].id {
      if j < |b.bids| {
        assert Before(timed, true, b.bids[i], b.bids[j]);
      } else if i >= |b.bids| {
        assert Before(timed, false, b.asks[i - |b.bids|], b.asks[j - |b.bids|]);
      } else {
        assert q[i] in b.bids && q[j] in b.asks;
      }
    }
    forall o | o in q ensures o.side == SIDE_BUY || o.side == SIDE_SELL {
      assert Fit(timed, true, last, o) || Fit(timed, false, last, o);
    }
  }
}
