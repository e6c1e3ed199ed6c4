/** The order of books in a snapshot: by symbol, as strings compare (internal/shard/engine.go,
    internal/shard/loop.go). */
module SnapshotOrder {
  import opened Model
  import opened Snapshots

  /** By symbol; of two snapshots of one symbol the later counts. */
  function Latest(bs: seq<BookSnapshot>): map<Symbol, BookSnapshot> {
    if bs == [] then map[] else Latest(bs[..|bs| - 1])[bs[|bs| - 1].symbol := bs[|bs| - 1]]
  }

  /** Strings compare byte by byte, a beginning first. */
  predicate Less(a: Symbol, b: Symbol) {
    b != [] && (a == [] || a[0] < b[0] || (a[0] == b[0] && Less(a[1..], b[1..])))
  }

  lemma {:induction false} LessTotal(a: Symbol, b: Symbol)
    requires a != b
    ensures Less(a, b) <==> !Less(b, a)
  {
    if a != [] && b != [] && a[0] == b[0] {
      assert a == [a[0]] + a[1..] && b == [b[0]] + b[1..];
      LessTotal(a[1..], b[1..]);
    }
  }

  lemma {:induction false} LessTrans(a: Symbol, b: Symbol, c: Symbol)
    requires Less(a, b) && Less(b, c)
    ensures Less(a, c)
  {
    if a != [] && a[0] == b[0] && b[0] == c[0] {
      LessTrans(a[1..], b[1..], c[1..]);
    }
  }

  /** At the first place where they differ the smaller has the smaller byte, or has ended. */
  ghost predicate DiffersAt(a: Symbol, b: Symbol, k: nat) {
    && k <= |a| && k < |b| && a[..k] == b[..k]
    && (k < |a| ==> a[k] < b[k])
  }

  lemma {:induction false} LessMeaning(a: Symbol, b: Symbol)
    ensures Less(a, b) <==> exists k: nat :: DiffersAt(a, b, k)
  {
    if a == [] || b == [] || a[0] != b[0] {
      if Less(a, b) {
        assert DiffersAt(a, b, 0);
      }
      if k: nat :| DiffersAt(a, b, k) {
        assert k > 0 ==> a[..k][0] == b[..k][0];
      }
    } else {
      LessMeaning(a[1..], b[1..]);
      if Less(a[1..], b[1..]) {
        var k: nat :| DiffersAt(a[1..], b[1..], k);
        assert a[..k + 1] == [a[0]] + a[1..][..k] && b[..k + 1] == [b[0]] + b[1..][..k];
        assert DiffersAt(a, b, k + 1);
      }
      if k: nat :| DiffersAt(a, b, k) {
        assert k > 0;
        assert a[1..][..k - 1] == a[..k][1..] && b[1..][..k - 1] == b[..k][1..];
        assert DiffersAt(a[1..], b[1..], k - 1);
      }
    }
  }

  ghost predicate Ordered(bs: seq<BookSnapshot>) {
    forall i, j :: 0 <= i < j < |bs| ==> Less(bs[i].symbol, bs[j].symbol)
  }

  function Place(bs: seq<BookSnapshot>, x: BookSnapshot): (r: seq<BookSnapshot>)
    ensures |r| == |bs| + 1
  {
    if bs == [] || Less(x.symbol, bs[0].symbol) then [x] + bs else [bs[0]] + Place(bs[1..], x)
  }

  lemma {:induction false} PlaceMembers(bs: seq<BookSnapshot>, x: BookSnapshot)
    ensures forall y :: y in Place(bs, x) <==> y in bs || y == x
  {
    if bs != [] && !Less(x.symbol, bs[0].symbol) {
      PlaceMembers(bs[1..], x);
      assert bs == [bs[0]] + bs[1..];
    }
  }

  /** The first is less than all others, and these are in order. */
  lemma OrderedCons(x: BookSnapshot, bs: seq<BookSnapshot>)
    requires Ordered(bs) && forall y :: y in bs ==> Less(x.symbol, y.symbol)
    ensures Ordered([x] + bs)
  {
  }

  lemma {:induction false} PlaceOrdered(bs: seq<BookSnapshot>, x: BookSnapshot)
    requires Ordered(bs) && forall y :: y in bs ==> y.symbol != x.symbol
    ensures Ordered(Place(bs, x))
  {
    if bs == [] {
    } else if Less(x.symbol, bs[0].symbol) {
      forall y | y in bs ensures Less(x.symbol, y.symbol) {
        var i :| 0 <= i < |bs| && bs[i] == y;
        if i > 0 {
          LessTrans(x.symbol, bs[0].symbol, y.symbol);
        }
      }
      OrderedCons(x, bs);
    } else {
      PlaceOrdered(bs[1..], x);
      PlaceMembers(bs[1..], x);
      LessTotal(x.symbol, bs[0].symbol);
      forall y | y in Place(bs[1..], x) ensures Less(bs[0].symbol, y.symbol) {
        if y in bs[1..] {
          var i :| 0 <= i < |bs[1..]| && bs[1..][i] == y;
          assert bs[i + 1] == y;
        }
      }
      OrderedCons(bs[0], Place(bs[1..], x));
    }
  }

  lemma {:induction false} LatestCons(x: BookSnapshot, bs: seq<BookSnapshot>)
    ensures Latest([x] + bs) == map[x.symbol := x] + Latest(bs)
    decreases |bs|
  {
    if bs == [] {
      assert [x] + bs == [x] && [x][..0] == [];
    } else {
      var n := |bs| - 1;
      assert ([x] + bs)[..n + 1] == [x] + bs[..n];
      LatestCons(x, bs[..n]);
    }
  }

  lemma MapOrder(m: map<Symbol, BookSnapshot>, x: BookSnapshot, y: BookSnapshot)
    ensures x.symbol !in m ==> map[x.symbol := x] + m == m[x.symbol := x]
    ensures x.symbol != y.symbol ==> map[y.symbol := y] + m[x.symbol := x] == (map[y.symbol := y] + m)[x.symbol := x]
  {
  }

  /** Where a snapshot of a new symbol stands does not matter. */
  lemma {:induction false} PlaceLatest(bs: seq<BookSnapshot>, x: BookSnapshot)
    requires forall y :: y in bs ==> y.symbol != x.symbol
    ensures Latest(Place(bs, x)) == Latest(bs)[x.symbol := x]
  {
    hide Latest, Less;
    if bs == [] || Less(x.symbol, bs[0].symbol) {
      LatestKeys(bs);
      LatestCons(x, bs);
      MapOrder(Latest(bs), x, x);
    } else {
      assert bs[0] in bs && forall y :: y in bs[1..] ==> y in bs;
      PlaceLatest(bs[1..], x);
      LatestCons(bs[0], Place(bs[1..], x));
      LatestCons(bs[0], bs[1..]);
      assert bs == [bs[0]] + bs[1..];
      MapOrder(Latest(bs[1..]), x, bs[0]);
    }
  }

  lemma MapSize<K, V>(m: map<K, V>, k: K, v: V)
    ensures |m[k := v]| == |m| + if k in m then 0 else 1
  {
    var keys := m[k := v].Keys;
    assert keys == m.Keys + {k};
    assert |m[k := v]| == |keys| && |m| == |m.Keys|;
    assert k in m ==> keys == m.Keys;
  }

  lemma {:induction false} LatestKeys(bs: seq<BookSnapshot>)
    ensures forall symbol :: symbol in Latest(bs) <==> exists y :: y in bs && y.symbol == symbol
    ensures |Latest(bs)| <= |bs|
  {
    if bs != [] {
      var n := |bs| - 1;
      LatestKeys(bs[..n]);
      assert bs == bs[..n] + [bs[n]];
      MapSize(Latest(bs[..n]), bs[n].symbol, bs[n]);
    }
  }

  /** As many snapshots as symbols: none twice. */
  lemma {:induction false} AllNew(bs: seq<BookSnapshot>, n: nat)
    requires |Latest(bs)| == |bs| && n < |bs|
    ensures forall y :: y in bs[..n] ==> y.symbol != bs[n].symbol
    decreases |bs|
  {
    hide Latest;
    var m := |bs| - 1;
    var before := Latest(bs[..m]);
    LatestNext(bs, m);
    assert bs[..m + 1] == bs;
    LatestKeys(bs[..m]);
    MapSize(before, bs[m].symbol, bs[m]);
    if n < m {
      assert bs[..m][..n] == bs[..n];
      AllNew(bs[..m], n);
    }
  }

  /** Sorting by symbol. */
  method SortBooks(bs: seq<BookSnapshot>) returns (sorted: seq<BookSnapshot>)
    requires |Latest(bs)| == |bs|
    ensures Ordered(sorted) && |sorted| == |bs| && Latest(sorted) == Latest(bs)
    ensures forall y :: y in sorted <==> y in bs
  {
    hide Latest, Place, Ordered;
    sorted := [];
    SortedNone(bs);
    for i := 0 to |bs|
      invariant Ordered(sorted) && |sorted| == i && Latest(sorted) == Latest(bs[..i])
      invariant forall y :: y in sorted <==> y in bs[..i]
    {
      AllNew(bs, i);
      PlaceOrdered(sorted, bs[i]);
      PlaceLatest(sorted, bs[i]);
      PlaceMembers(sorted, bs[i]);
      LatestNext(bs, i);
      assert bs[..i + 1] == bs[..i] + [bs[i]];
      sorted := Place(sorted, bs[i]);
    }
    assert bs[..|bs|] == bs;
  }

  lemma LatestNext(bs: seq<BookSnapshot>, i: nat)
    requires i < |bs|
    ensures Latest(bs[..i + 1]) == Latest(bs[..i])[bs[i].symbol := bs[i]]
  {
    assert bs[..i + 1][..i] == bs[..i];
  }

  lemma SortedNone(bs: seq<BookSnapshot>)
    ensures Ordered([]) && Latest([]) == Latest(bs[..0])
  {
  }
}
