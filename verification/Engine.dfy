/** Start-up and snapshots of the whole engine (internal/shard/engine.go). */
module Engine {
  import opened Model
  import opened Bytes
  import opened Reader
  import opened PriceTimeBook
  import opened Snapshots
  import opened SnapshotOrder
  import opened Replay
  import opened Recovery
  import opened Registry
  import P = PointerBook

  datatype EngineSnapshot = EngineSnapshot(engineId: Data, shardCount: nat, lastApplied: seq<uint64>, books: seq<BookSnapshot>)

  datatype Config = Config(engineId: Data, symbols: seq<Symbol>, shardCount: nat, wire: Wire)

  /** The header that the segments of a shard carry. */
  function HeaderFor(cfg: Config, shard: nat): SegmentHeader {
    SegmentHeader(cfg.engineId, shard % 0x1_0000, cfg.shardCount % 0x1_0000)
  }

  function StartBook(symbol: Symbol, restored: map<Symbol, BookSnapshot>): Book {
    if symbol in restored then Restore(restored[symbol]) else Empty(symbol)
  }

  function StartBooks(symbols: seq<Symbol>, restored: map<Symbol, BookSnapshot>): Books {
    map s | s in symbols :: StartBook(s, restored)
  }

  /** The snapshot is one of this engine. */
  ghost predicate Suits(cfg: Config, registry: SymbolRegistry, snap: EngineSnapshot) {
    && snap.engineId == cfg.engineId && snap.shardCount == cfg.shardCount == |snap.lastApplied|
    && forall i :: 0 <= i < |snap.books| ==> ShardFor(registry, snap.books[i].symbol).Some?
  }

  /** The watermarks of the shards before are put in front. */
  function WithMarks(done: seq<uint64>, r: EngineResult): EngineResult {
    if r.Aborted? then Aborted else Restored(EngineState(r.state.books, done + r.state.marks))
  }

  lemma WithMarksTwice(done: seq<uint64>, last: uint64, r: EngineResult)
    ensures WithMarks(done, WithMarks([last], r)) == WithMarks(done + [last], r)
  {
    if r.Restored? {
      assert done + ([last] + r.state.marks) == (done + [last]) + r.state.marks;
    }
  }

  /** Shard after shard: read its files, then replay what its watermark does not cover. */
  function RecoverFiles(cfg: Config, shard: nat, books: Books, marks: seq<uint64>, files: seq<seq<Data>>): EngineResult
    requires Progress(cfg.wire) && |marks| == |files|
    decreases |files|
  {
    if files == [] then Restored(EngineState(books, []))
    else match ReadShard(cfg.wire, files[0], HeaderFor(cfg, shard), true)
      case Failed => Aborted
      case Records(rs) =>
        match Recover(books, marks[0], rs)
        case Recovered(next, last) =>
          WithMarks([last], RecoverFiles(cfg, shard + 1, next, marks[1..], files[1..]))
        case _ => Aborted
  }

  function Zeros(n: nat): (ms: seq<uint64>)
    ensures |ms| == n && forall i :: 0 <= i < n ==> ms[i] == 0
  {
    seq(n, i => 0)
  }

  ghost function RecoveredState(cfg: Config, registry: SymbolRegistry, snapshot: Option<EngineSnapshot>, files: seq<seq<Data>>): EngineResult
    requires Progress(cfg.wire) && |files| == cfg.shardCount
  {
    match snapshot
    case None => RecoverFiles(cfg, 0, StartBooks(cfg.symbols, map[]), Zeros(cfg.shardCount), files)
    case Some(snap) =>
      if Suits(cfg, registry, snap) then RecoverFiles(cfg, 0, StartBooks(cfg.symbols, Latest(snap.books)), snap.lastApplied, files)
      else Aborted
  }

  method LoadSnapshot(cfg: Config, registry: SymbolRegistry, snap: EngineSnapshot) returns (restored: Option<map<Symbol, BookSnapshot>>)
    ensures restored == if Suits(cfg, registry, snap) then Some(Latest(snap.books)) else None
  {
    if snap.engineId != cfg.engineId || snap.shardCount != cfg.shardCount || |snap.lastApplied| != cfg.shardCount {
      return None;
    }
    var bySymbol: map<Symbol, BookSnapshot> := map[];
    for i := 0 to |snap.books|
      invariant bySymbol == Latest(snap.books[..i])
      invariant forall k :: 0 <= k < i ==> ShardFor(registry, snap.books[k].symbol).Some?
    {
      var bs := snap.books[i];
      if ShardFor(registry, bs.symbol).None? {
        return None;
      }
      assert snap.books[..i + 1][..i] == snap.books[..i];
      bySymbol := bySymbol[bs.symbol := bs];
    }
    assert snap.books[..|snap.books|] == snap.books;
    restored := Some(bySymbol);
  }

  method MakeBooks(symbols: seq<Symbol>, restored: map<Symbol, BookSnapshot>) returns (books: Books)
    ensures books == StartBooks(symbols, restored)
  {
    books := map[];
    for i := 0 to |symbols|
      invariant books == StartBooks(symbols[..i], restored)
    {
      assert symbols[..i + 1] == symbols[..i] + [symbols[i]];
      books := books[symbols[i] := StartBook(symbols[i], restored)];
    }
    assert symbols[..|symbols|] == symbols;
  }

  method ReplayFiles(cfg: Config, start: Books, marks: seq<uint64>, files: seq<seq<Data>>) returns (r: EngineResult)
    requires Progress(cfg.wire) && |marks| == |files|
    ensures r == RecoverFiles(cfg, 0, start, marks, files)
  {
    hide Progress, ReadShard, Recover, WithMarks, HeaderFor;
    var books, done := start, [];
    assert marks[0..] == marks && files[0..] == files;
    WithMarksEnds(done, books, RecoverFiles(cfg, 0, start, marks, files));
    for j := 0 to |files|
      invariant |done| == j
      invariant RecoverFiles(cfg, 0, start, marks, files) == WithMarks(done, RecoverFiles(cfg, j, books, marks[j..], files[j..]))
    {
      assert marks[j..][1..] == marks[j + 1..] && files[j..][1..] == files[j + 1..];
      var records := ReadShardLoop(cfg.wire, files[j], HeaderFor(cfg, j), true);
      if records.Failed? {
        WithMarksEnds(done, books, Aborted);
        return Aborted;
      }
      var one := RecoverShard(books, marks[j], records.records);
      if !one.Recovered? {
        WithMarksEnds(done, books, Aborted);
        return Aborted;
      }
      WithMarksTwice(done, one.last, RecoverFiles(cfg, j + 1, one.books, marks[j + 1..], files[j + 1..]));
      books, done := one.books, done + [one.last];
    }
    WithMarksEnds(done, books, Aborted);
    r := Restored(EngineState(books, done));
  }

  lemma WithMarksEnds(done: seq<uint64>, books: Books, r: EngineResult)
    ensures WithMarks([], r) == r && WithMarks(done, Aborted) == Aborted
    ensures WithMarks(done, Restored(EngineState(books, []))) == Restored(EngineState(books, done))
  {
    assert done + [] == done;
  }

  method RecoverBooks(cfg: Config, registry: SymbolRegistry, snapshot: Option<EngineSnapshot>, files: seq<seq<Data>>)
    returns (r: EngineResult)
    requires Progress(cfg.wire) && |files| == cfg.shardCount
    ensures r == RecoveredState(cfg, registry, snapshot, files)
  {
    hide Progress, RecoverFiles, StartBooks, Latest;
    var restored: map<Symbol, BookSnapshot>, marks: seq<uint64> := map[], Zeros(cfg.shardCount);
    if snapshot.Some? {
      var loaded := LoadSnapshot(cfg, registry, snapshot.value);
      if loaded.None? {
        return Aborted;
      }
      restored, marks := loaded.value, snapshot.value.lastApplied;
    }
    var books := MakeBooks(cfg.symbols, restored);
    r := ReplayFiles(cfg, books, marks, files);
  }

  // ---- Taking a snapshot ----

  /** The snapshots show each of these books, and none twice. */
  ghost predicate Covers(bs: seq<BookSnapshot>, views: Books) {
    && |bs| == |views| && Latest(bs).Keys == views.Keys
    && forall symbol :: symbol in views ==> Shows(Latest(bs)[symbol], views[symbol])
  }

  lemma CoversMore(bs: seq<BookSnapshot>, views: Books, one: BookSnapshot, symbol: Symbol, b: Book)
    requires Covers(bs, views) && symbol !in views && one.symbol == symbol && Shows(one, b)
    ensures Covers(bs + [one], views[symbol := b])
  {
    hide Shows;
    assert (bs + [one])[..|bs|] == bs;
    assert views[symbol := b].Keys == views.Keys + {symbol};
    assert |views[symbol := b]| == |views[symbol := b].Keys| && |views| == |views.Keys|;
  }

  lemma {:induction false} LatestJoin(a: seq<BookSnapshot>, b: seq<BookSnapshot>)
    ensures Latest(a + b) == Latest(a) + Latest(b)
  {
    if b == [] {
      assert a + b == a;
    } else {
      var n := |b| - 1;
      assert (a + b)[..|a| + n] == a + b[..n];
      LatestJoin(a, b[..n]);
    }
  }

  lemma CoversJoin(a: seq<BookSnapshot>, x: Books, b: seq<BookSnapshot>, y: Books)
    requires Covers(a, x) && Covers(b, y) && x.Keys !! y.Keys
    ensures Covers(a + b, x + y)
  {
    LatestJoin(a, b);
    assert (x + y).Keys == x.Keys + y.Keys;
    assert |x + y| == |(x + y).Keys| && |x| == |x.Keys| && |y| == |y.Keys|;
  }

  /** The books of a shard, as objects. */
  type Shelf = map<Symbol, P.OrderBook>

  ghost predicate Kept(shelf: Shelf)
    reads set symbol | symbol in shelf :: shelf[symbol]
    reads set symbol, o | symbol in shelf && o in shelf[symbol].Repr :: o
  {
    forall symbol :: symbol in shelf ==> shelf[symbol].Valid() && shelf[symbol].View().symbol == symbol
  }

  ghost function Views(shelf: Shelf): Books
    requires Kept(shelf)
    reads set symbol | symbol in shelf :: shelf[symbol]
    reads set symbol, o | symbol in shelf && o in shelf[symbol].Repr :: o
  {
    map symbol | symbol in shelf :: shelf[symbol].View()
  }

  lemma ShownSymbol(s: BookSnapshot, b: Book)
    requires Shows(s, b)
    ensures s.symbol == b.symbol
  {
  }

  lemma ViewsKeys(shelf: Shelf)
    requires Kept(shelf)
    ensures Views(shelf).Keys == shelf.Keys
  {
  }

  lemma KeptAt(shelf: Shelf, symbol: Symbol)
    requires Kept(shelf) && symbol in shelf
    ensures shelf[symbol].Valid() && shelf[symbol].View().symbol == symbol
    ensures symbol in Views(shelf) && Views(shelf)[symbol] == shelf[symbol].View()
  {
    hide P.OrderBook.Valid, P.OrderBook.View;
  }

  method SnapshotOne(shelf: Shelf, symbol: Symbol) returns (one: BookSnapshot)
    requires Kept(shelf) && symbol in shelf
    ensures one.symbol == symbol && symbol in Views(shelf) && Shows(one, Views(shelf)[symbol])
  {
    hide Shows, P.OrderBook.Valid, P.OrderBook.View;
    KeptAt(shelf, symbol);
    one := shelf[symbol].Snapshot();
    ShownSymbol(one, shelf[symbol].View());
  }

  /** One book less to show. */
  lemma CoversLess(bs: seq<BookSnapshot>, all: Books, left: set<Symbol>, one: BookSnapshot, symbol: Symbol)
    requires Covers(bs, all - left) && symbol in left && symbol in all && one.symbol == symbol && Shows(one, all[symbol])
    ensures Covers(bs + [one], all - (left - {symbol}))
  {
    hide Covers, Shows;
    CoversMore(bs, all - left, one, symbol, all[symbol]);
    assert (all - left)[symbol := all[symbol]] == all - (left - {symbol});
  }

  /** The snapshots of one shard, by symbol; its books come in any order. */
  method SnapshotShelf(shelf: Shelf) returns (bs: seq<BookSnapshot>)
    requires Kept(shelf)
    ensures Covers(bs, Views(shelf)) && Ordered(bs)
  {
    hide Covers, Shows, Kept, Views, Ordered, Latest, P.OrderBook.Valid, P.OrderBook.View;
    ghost var all := Views(shelf);
    bs := [];
    var left := shelf.Keys;
    NothingCovered();
    ViewsKeys(shelf);
    assert all - left == map[];
    while left != {}
      invariant left <= shelf.Keys && Covers(bs, all - left)
      decreases |left|
    {
      var symbol :| symbol in left;
      var one := SnapshotOne(shelf, symbol);
      CoversLess(bs, all, left, one, symbol);
      bs := bs + [one];
      left := left - {symbol};
    }
    assert all - {} == all;
    CoversDistinct(bs, all);
    var sorted := SortBooks(bs);
    CoversSorted(bs, sorted, all);
    bs := sorted;
  }

  lemma CoversDistinct(bs: seq<BookSnapshot>, views: Books)
    requires Covers(bs, views)
    ensures |Latest(bs)| == |bs|
  {
    assert |Latest(bs)| == |Latest(bs).Keys| && |views| == |views.Keys|;
  }

  lemma CoversSorted(bs: seq<BookSnapshot>, sorted: seq<BookSnapshot>, views: Books)
    requires Covers(bs, views) && Latest(sorted) == Latest(bs) && |sorted| == |bs|
    ensures Covers(sorted, views)
  {
  }

  lemma NothingCovered()
    ensures Covers([], map[])
  {
  }

  ghost predicate AllKept(shelves: seq<Shelf>)
    reads set i, symbol | 0 <= i < |shelves| && symbol in shelves[i] :: shelves[i][symbol]
    reads set i, symbol, o | 0 <= i < |shelves| && symbol in shelves[i] && o in shelves[i][symbol].Repr :: o
  {
    && (forall i :: 0 <= i < |shelves| ==> Kept(shelves[i]))
    && (forall i, j :: 0 <= i < j < |shelves| ==> shelves[i].Keys !! shelves[j].Keys)
  }

  /** The books of several shards taken together. */
  ghost function Merge(parts: seq<Books>): Books {
    if parts == [] then map[] else Merge(parts[..|parts| - 1]) + parts[|parts| - 1]
  }

  lemma {:induction false} MergeApart(parts: seq<Books>, symbols: set<Symbol>)
    requires forall i :: 0 <= i < |parts| ==> parts[i].Keys !! symbols
    ensures Merge(parts).Keys !! symbols
  {
    if parts != [] {
      MergeApart(parts[..|parts| - 1], symbols);
    }
  }

  lemma CoversNext(bs: seq<BookSnapshot>, parts: seq<Books>, more: seq<BookSnapshot>, part: Books)
    requires Covers(bs, Merge(parts)) && Covers(more, part) && forall i :: 0 <= i < |parts| ==> parts[i].Keys !! part.Keys
    ensures Covers(bs + more, Merge(parts + [part]))
  {
    hide Covers;
    MergeApart(parts, part.Keys);
    CoversJoin(bs, Merge(parts), more, part);
    assert (parts + [part])[..|parts|] == parts;
  }

  /** The snapshot of a drained engine: the watermarks, and every book of every shard. */
  method CreateSnapshot(engineId: Data, shelves: seq<Shelf>, marks: seq<uint64>)
    returns (snap: EngineSnapshot, ghost parts: seq<Books>)
    requires AllKept(shelves) && |marks| == |shelves|
    ensures snap.engineId == engineId && snap.shardCount == |shelves| && snap.lastApplied == marks
    ensures |parts| == |shelves| && forall j :: 0 <= j < |shelves| ==> parts[j] == Views(shelves[j])
    ensures Covers(snap.books, Merge(parts)) && Ordered(snap.books)
  {
    hide Covers, Merge, Ordered, Latest, Views, P.OrderBook.Valid, P.OrderBook.View;
    var books: seq<BookSnapshot>, lastApplied: seq<uint64> := [], [];
    parts := [];
    NothingMerged();
    for j := 0 to |shelves|
      invariant lastApplied == marks[..j] && Covers(books, Merge(parts))
      invariant |parts| == j && forall i :: 0 <= i < j ==> parts[i] == Views(shelves[i])
    {
      var one := SnapshotShelf(shelves[j]);
      PartApart(shelves, parts, j);
      CoversNext(books, parts, one, Views(shelves[j]));
      parts := parts + [Views(shelves[j])];
      books := books + one;
      lastApplied := lastApplied + [marks[j]];
    }
    CoversDistinct(books, Merge(parts));
    var sorted := SortBooks(books);
    CoversSorted(books, sorted, Merge(parts));
    snap := EngineSnapshot(engineId, |shelves|, lastApplied, sorted);
  }

  lemma PartApart(shelves: seq<Shelf>, parts: seq<Books>, j: nat)
    requires AllKept(shelves) && |parts| == j < |shelves| && forall i :: 0 <= i < j ==> parts[i] == Views(shelves[i])
    ensures forall i :: 0 <= i < j ==> parts[i].Keys !! Views(shelves[j]).Keys
  {
    hide P.OrderBook.Valid, P.OrderBook.View, Views;
    ViewsKeys(shelves[j]);
    forall i | 0 <= i < j ensures parts[i].Keys !! Views(shelves[j]).Keys {
      ViewsKeys(shelves[i]);
    }
  }

  lemma NothingMerged()
    ensures Covers([], Merge([]))
  {
  }
}
