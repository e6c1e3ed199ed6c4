/** Recovery on the pointer books themselves: the replay loop over a shard's books as objects, and the pass
    through snapshots by which the recovered books reach the shard loops (internal/shard/engine.go,
    internal/shard/loop.go). */
module Shelves {
  import opened Model
  import opened PriceTimeBook
  import opened BookLaws
  import opened Snapshots
  import opened Bytes
  import opened Codec
  import opened Reader
  import opened Levels
  import opened Registry
  import opened Replay
  import opened Recovery
  import opened SnapshotOrder
  import opened Engine
  import P = PointerBook

  /** No two books share an object. */
  ghost predicate Apart(shelf: Shelf)
    reads set symbol | symbol in shelf :: shelf[symbol]
    reads set symbol, o | symbol in shelf && o in shelf[symbol].Repr :: o
  {
    Kept(shelf) && Disjoint(shelf)
  }

  ghost predicate Disjoint(shelf: Shelf)
    reads set symbol | symbol in shelf :: shelf[symbol]
  {
    forall a, b :: a in shelf && b in shelf && a != b ==> shelf[a].Repr !! shelf[b].Repr
  }

  ghost function Objects(shelf: Shelf): set<object>
    reads set symbol | symbol in shelf :: shelf[symbol]
  {
    set symbol, o | symbol in shelf && o in shelf[symbol].Repr :: o
  }

  /** What a book's own predicates look at lies within its footprint. */
  lemma Footprint(b: P.OrderBook)
    requires b.Valid()
    ensures b in b.Repr && b.bids in b.Repr && b.asks in b.Repr
  {
  }

  ghost predicate Rooted(shelf: Shelf)
    reads set symbol | symbol in shelf :: shelf[symbol]
  {
    forall symbol :: symbol in shelf ==> var b := shelf[symbol]; b in b.Repr && b.bids in b.Repr && b.asks in b.Repr
  }

  lemma ShelfRooted(shelf: Shelf)
    requires Kept(shelf)
    ensures Rooted(shelf)
  {
    hide P.OrderBook.Valid, P.OrderBook.View;
    forall symbol | symbol in shelf ensures var b := shelf[symbol]; b in b.Repr && b.bids in b.Repr && b.asks in b.Repr {
      Footprint(shelf[symbol]);
    }
  }

  lemma ViewsAfter(shelf: Shelf, views: Books, c: Command)
    requires Kept(shelf) && views.Keys == shelf.Keys && c.symbol in views
    requires forall symbol :: symbol in shelf ==>
               shelf[symbol].View() == if symbol == c.symbol then Apply(views[symbol], c).book else views[symbol]
    ensures Views(shelf) == ApplyTo(views, c)
  {
    hide P.OrderBook.Valid, P.OrderBook.View, Apply;
  }

  /** One command on its book; the other books do not notice. */
  method ApplyOnShelf(shelf: Shelf, c: Command) returns (result: Result)
    requires Apart(shelf) && c.symbol in shelf
    modifies shelf[c.symbol].Repr
    ensures Apart(shelf) && fresh(Objects(shelf) - old(Objects(shelf)))
    ensures result == Apply(old(Views(shelf))[c.symbol], c).result
    ensures Views(shelf) == ApplyTo(old(Views(shelf)), c)
  {
    hide P.OrderBook.ValidBut, Apply, ApplyTo;
    var b := shelf[c.symbol];
    ghost var views := Views(shelf);
    ShelfRooted(shelf);
    ApplyKeepsSymbol(views[c.symbol], c);
    result := b.Apply(c);
    assert b.View() == Apply(views[c.symbol], c).book;
    forall symbol | symbol in shelf && symbol != c.symbol
      ensures shelf[symbol].Repr == old(shelf[symbol].Repr) && shelf[symbol].Valid() && shelf[symbol].View() == views[symbol]
    {
      assert old(shelf[symbol].Repr) !! old(b.Repr);
    }
    ViewsAfter(shelf, views, c);
  }

  /** One record: skipped, or applied and compared. The footprint of the shelf is handed on. */
  method ReplayRecord(shelf: Shelf, last: uint64, rec: Record, ghost rs: seq<Record>, ghost all: set<object>)
    returns (ok: bool, next: uint64, ghost now: set<object>)
    requires Apart(shelf) && Objects(shelf) <= all && rs != [] && rs[0] == rec
    modifies all
    ensures Apart(shelf) && Objects(shelf) <= now && fresh(now - all)
    ensures ok ==> Recover(old(Views(shelf)), last, rs) == Recover(Views(shelf), next, rs[1..])
    ensures !ok ==> !Recover(old(Views(shelf)), last, rs).Recovered?
  {
    hide P.OrderBook.Valid, P.OrderBook.View, Apply, ApplyTo, Kept, Views, Disjoint, Recover;
    ApartKeys(shelf);
    RecoverOne(Views(shelf), last, rs);
    now := all;
    if rec.sequence <= last {
      return true, last, now;
    }
    if rec.command.symbol !in shelf {
      return false, last, now;
    }
    InObjects(shelf, rec.command.symbol);
    var computed := ApplyOnShelf(shelf, rec.command);
    now := all + Objects(shelf);
    ok := EqualResults(computed, rec.result);
    next := rec.sequence;
  }

  /** The replay loop of a shard on its pointer books: it succeeds exactly when recovery on book values does,
      and leaves the books with the recovered contents. */
  method ReplayOnShelf(shelf: Shelf, watermark: uint64, rs: seq<Record>, ghost all: set<object>)
    returns (ok: bool, last: uint64, ghost now: set<object>)
    requires Apart(shelf) && Objects(shelf) <= all
    modifies all
    ensures Apart(shelf) && Objects(shelf) <= now && fresh(now - all)
    ensures ok <==> Recover(old(Views(shelf)), watermark, rs).Recovered?
    ensures ok ==> Recover(old(Views(shelf)), watermark, rs) == Recovered(Views(shelf), last)
  {
    hide P.OrderBook.Valid, P.OrderBook.View, Kept, Views, Recover, Disjoint, Objects;
    ghost var start := Views(shelf);
    last, now := watermark, all;
    assert rs[0..] == rs;
    for i := 0 to |rs|
      invariant Apart(shelf) && Objects(shelf) <= now && fresh(now - all)
      invariant Recover(start, watermark, rs) == Recover(Views(shelf), last, rs[i..])
    {
      assert rs[i..][1..] == rs[i + 1..];
      ok, last, now := ReplayRecord(shelf, last, rs[i], rs[i..], now);
      if !ok {
        return false, last, now;
      }
    }
    RecoverNone(Views(shelf), last, rs[|rs|..]);
    ok := true;
  }

  lemma RecoverOne(books: Books, last: uint64, rs: seq<Record>)
    requires rs != []
    ensures var c := rs[0].command;
            Recover(books, last, rs) ==
            if rs[0].sequence <= last then Recover(books, last, rs[1..])
            else if c.symbol !in books then UnknownSymbol
            else if Apply(books[c.symbol], c).result != rs[0].result then Mismatch
            else Recover(ApplyTo(books, c), rs[0].sequence, rs[1..])
  {
    hide Apply;
  }

  lemma RecoverNone(books: Books, last: uint64, rs: seq<Record>)
    requires rs == []
    ensures Recover(books, last, rs) == Recovered(books, last)
  {
  }

  lemma ApartKeys(shelf: Shelf)
    requires Apart(shelf)
    ensures Kept(shelf) && Views(shelf).Keys == shelf.Keys
  {
    hide P.OrderBook.Valid, P.OrderBook.View;
  }

  lemma InObjects(shelf: Shelf, symbol: Symbol)
    requires symbol in shelf
    ensures shelf[symbol].Repr <= Objects(shelf)
  {
  }

  // ---- Making the books ----

  /** A snapshot whose orders can be rested one by one, as those of every sound book can. */
  ghost predicate Buildable(s: BookSnapshot) {
    Restable(Empty(s.symbol), Flatten(s.bids) + Flatten(s.asks))
  }

  ghost predicate AllBuildable(restored: map<Symbol, BookSnapshot>) {
    forall symbol :: symbol in restored ==> restored[symbol].symbol == symbol && Buildable(restored[symbol])
  }

  lemma RestoredSymbol(s: BookSnapshot)
    ensures Restore(s).symbol == s.symbol
  {
    RestAllSymbol(Empty(s.symbol).(nextTradeSeq := s.nextTradeSeq), Flatten(s.bids));
    RestAllSymbol(RestAll(Empty(s.symbol).(nextTradeSeq := s.nextTradeSeq), Flatten(s.bids)), Flatten(s.asks));
  }

  lemma {:induction false} RestAllSymbol(b: Book, q: Queue)
    ensures RestAll(b, q).symbol == b.symbol
    decreases |q|
  {
    if q != [] {
      RestAllSymbol(Rest(b, q[0]), q[1..]);
    }
  }

  /** The book for a symbol: restored from its snapshot, or empty. */
  method OpenBook(symbol: Symbol, restored: map<Symbol, BookSnapshot>) returns (b: P.OrderBook)
    requires AllBuildable(restored)
    ensures b.Valid() && fresh(b.Repr) && b.View() == StartBook(symbol, restored) && b.View().symbol == symbol
  {
    hide P.OrderBook.ValidBut, P.OrderBook.View, Restore, Restable;
    if symbol in restored {
      RestoredSymbol(restored[symbol]);
      b := P.OrderBook.NewFromSnapshot(restored[symbol]);
    } else {
      b := new P.OrderBook(symbol);
    }
  }

  /** One more book, made of new objects. */
  lemma ShelfMore(shelf: Shelf, symbol: Symbol, b: P.OrderBook, symbols: seq<Symbol>, restored: map<Symbol, BookSnapshot>)
    requires Apart(shelf) && Views(shelf) == StartBooks(symbols, restored)
    requires b.Valid() && b.View() == StartBook(symbol, restored) && b.View().symbol == symbol
    requires forall other :: other in shelf && other != symbol ==> shelf[other].Repr !! b.Repr
    ensures Apart(shelf[symbol := b]) && Views(shelf[symbol := b]) == StartBooks(symbols + [symbol], restored)
  {
    hide P.OrderBook.Valid, P.OrderBook.View, StartBook;
    var more := shelf[symbol := b];
    var start := StartBooks(symbols + [symbol], restored);
    forall other ensures other in more <==> other in start {
      assert other in Views(shelf) <==> other in StartBooks(symbols, restored);
    }
    forall other | other in more ensures Views(more)[other] == start[other] {
      if other != symbol {
        assert Views(shelf)[other] == StartBooks(symbols, restored)[other];
      }
    }
    assert Views(more).Keys == start.Keys;
  }

  lemma ObjectsMore(shelf: Shelf, symbol: Symbol, b: P.OrderBook, all: set<object>)
    requires Objects(shelf) <= all && all !! b.Repr
    ensures Objects(shelf[symbol := b]) <= all + b.Repr
    ensures forall other :: other in shelf ==> shelf[other].Repr !! b.Repr
  {
    forall other | other in shelf ensures shelf[other].Repr !! b.Repr {
      InObjects(shelf, other);
    }
  }

  method OpenShelf(symbols: seq<Symbol>, restored: map<Symbol, BookSnapshot>) returns (shelf: Shelf)
    requires AllBuildable(restored)
    ensures Apart(shelf) && fresh(Objects(shelf)) && Views(shelf) == StartBooks(symbols, restored)
  {
    hide P.OrderBook.ValidBut, P.OrderBook.View, StartBook, AllBuildable, Disjoint, Views;
    shelf := map[];
    ghost var all: set<object> := {};
    EmptyShelf(restored);
    for i := 0 to |symbols|
      invariant Apart(shelf) && Views(shelf) == StartBooks(symbols[..i], restored)
      invariant Objects(shelf) <= all && fresh(all)
    {
      var b := OpenBook(symbols[i], restored);
      assert all !! b.Repr;
      ObjectsMore(shelf, symbols[i], b, all);
      ShelfMore(shelf, symbols[i], b, symbols[..i], restored);
      assert symbols[..i + 1] == symbols[..i] + [symbols[i]];
      shelf, all := shelf[symbols[i] := b], all + b.Repr;
    }
    assert symbols[..|symbols|] == symbols;
  }

  lemma EmptyShelf(restored: map<Symbol, BookSnapshot>)
    ensures Apart(map[]) && Objects(map[]) == {} && Views(map[]) == StartBooks([], restored)
  {
  }

  // ---- The whole of recoverBooks ----

  lemma FilesOne(cfg: Config, shard: nat, books: Books, marks: seq<uint64>, files: seq<seq<Data>>)
    requires Progress(cfg.wire) && |marks| == |files| && files != []
    ensures var read := ReadShard(cfg.wire, files[0], HeaderFor(cfg, shard), true);
            RecoverFiles(cfg, shard, books, marks, files) ==
            if read.Failed? then Aborted
            else if !Recover(books, marks[0], read.records).Recovered? then Aborted
            else var r := Recover(books, marks[0], read.records);
                 WithMarks([r.last], RecoverFiles(cfg, shard + 1, r.books, marks[1..], files[1..]))
  {
    hide Progress, ReadShard, Recover, WithMarks, HeaderFor;
  }

  /** One shard: its files are read and its records replayed. */
  method ReplayShardOnShelf(cfg: Config, shelf: Shelf, shard: nat, mark: uint64, file: seq<Data>,
                            ghost marks: seq<uint64>, ghost files: seq<seq<Data>>, ghost all: set<object>)
    returns (ok: bool, last: uint64, ghost now: set<object>)
    requires Apart(shelf) && Objects(shelf) <= all && Progress(cfg.wire)
    requires |marks| == |files| && files != [] && marks[0] == mark && files[0] == file
    modifies all
    ensures Apart(shelf) && Objects(shelf) <= now && fresh(now - all)
    ensures RecoverFiles(cfg, shard, old(Views(shelf)), marks, files) ==
            if ok then WithMarks([last], RecoverFiles(cfg, shard + 1, Views(shelf), marks[1..], files[1..])) else Aborted
  {
    hide Progress, ReadShard, Recover, WithMarks, HeaderFor, RecoverFiles, P.OrderBook.Valid, P.OrderBook.View, Kept, Views, Disjoint, Objects;
    FilesOne(cfg, shard, Views(shelf), marks, files);
    var records := ReadShardLoop(cfg.wire, file, HeaderFor(cfg, shard), true);
    if records.Failed? {
      return false, mark, all;
    }
    ok, last, now := ReplayOnShelf(shelf, mark, records.records, all);
  }

  /** The shards in turn, on one shelf for all symbols. */
  method ReplayFilesOnShelf(cfg: Config, shelf: Shelf, marks: seq<uint64>, files: seq<seq<Data>>, ghost all: set<object>)
    returns (ok: bool, done: seq<uint64>)
    requires Apart(shelf) && Objects(shelf) <= all && Progress(cfg.wire) && |marks| == |files|
    modifies all
    ensures Apart(shelf)
    ensures ok <==> RecoverFiles(cfg, 0, old(Views(shelf)), marks, files).Restored?
    ensures ok ==> RecoverFiles(cfg, 0, old(Views(shelf)), marks, files) == Restored(EngineState(Views(shelf), done))
  {
    hide Progress, WithMarks, RecoverFiles, P.OrderBook.Valid, P.OrderBook.View, Kept, Views, Disjoint, Objects;
    ghost var start, now := Views(shelf), all;
    done := [];
    assert marks[0..] == marks && files[0..] == files;
    WithMarksEnds(done, start, RecoverFiles(cfg, 0, start, marks, files));
    for j := 0 to |files|
      invariant Apart(shelf) && Objects(shelf) <= now && fresh(now - all) && |done| == j
      invariant RecoverFiles(cfg, 0, start, marks, files) == WithMarks(done, RecoverFiles(cfg, j, Views(shelf), marks[j..], files[j..]))
    {
      assert marks[j..][1..] == marks[j + 1..] && files[j..][1..] == files[j + 1..];
      var last;
      ok, last, now := ReplayShardOnShelf(cfg, shelf, j, marks[j], files[j], marks[j..], files[j..], now);
      WithMarksEnds(done, start, Aborted);
      if !ok {
        return false, done;
      }
      WithMarksTwice(done, last, RecoverFiles(cfg, j + 1, Views(shelf), marks[j + 1..], files[j + 1..]));
      done := done + [last];
    }
    NoFiles(cfg, |files|, Views(shelf), marks[|files|..], files[|files|..]);
    WithMarksEnds(done, Views(shelf), Aborted);
    ok := true;
  }

  lemma NoFiles(cfg: Config, shard: nat, books: Books, marks: seq<uint64>, files: seq<seq<Data>>)
    requires Progress(cfg.wire) && |marks| == |files| && files == []
    ensures RecoverFiles(cfg, shard, books, marks, files) == Restored(EngineState(books, []))
  {
  }

  /** Start-up as the engine does it, on pointer books: it succeeds exactly when recovery on book values does,
      with the same watermarks, and returns snapshots that show the recovered books. */
  method RecoverOnShelf(cfg: Config, registry: SymbolRegistry, snapshot: Option<EngineSnapshot>, files: seq<seq<Data>>)
    returns (ok: bool, out: seq<BookSnapshot>, marks: seq<uint64>)
    requires Progress(cfg.wire) && |files| == cfg.shardCount
    requires snapshot.Some? ==> AllBuildable(Latest(snapshot.value.books))
    ensures ok <==> RecoveredState(cfg, registry, snapshot, files).Restored?
    ensures ok ==> var state := RecoveredState(cfg, registry, snapshot, files).state; marks == state.marks && Covers(out, state.books)
  {
    hide Progress, RecoverFiles, StartBooks, Latest, AllBuildable, Covers, P.OrderBook.ValidBut, P.OrderBook.View;
    var restored: map<Symbol, BookSnapshot>;
    restored, marks, out := map[], Zeros(cfg.shardCount), [];
    NothingToBuild();
    if snapshot.Some? {
      var loaded := LoadSnapshot(cfg, registry, snapshot.value);
      if loaded.None? {
        return false, out, marks;
      }
      restored, marks := loaded.value, snapshot.value.lastApplied;
    }
    var shelf := OpenShelf(cfg.symbols, restored);
    ok, marks := ReplayFilesOnShelf(cfg, shelf, marks, files, Objects(shelf));
    if ok {
      out := SnapshotShelf(shelf);
    }
  }

  lemma NothingToBuild()
    ensures AllBuildable(map[])
  {
  }

  /** The books that the loop of a shard starts with, rebuilt from what start-up returned: exactly the recovered
      books of its symbols, trade counters included. */
  method LoopBooks(symbols: seq<Symbol>, out: seq<BookSnapshot>, ghost books: Books) returns (shelf: Shelf)
    requires Covers(out, books) && forall symbol :: symbol in symbols ==> symbol in books
    requires forall symbol :: symbol in books ==> books[symbol].symbol == symbol && Sound(false, 0, books[symbol])
    ensures Apart(shelf) && Views(shelf) == map symbol | symbol in symbols :: books[symbol]
  {
    hide P.OrderBook.ValidBut, P.OrderBook.View, Sound, Restore, Latest, Restable;
    var restored := Latest(out);
    forall symbol | symbol in books
      ensures symbol in restored && restored[symbol].symbol == symbol && Buildable(restored[symbol]) && Restore(restored[symbol]) == books[symbol]
    {
      assert symbol in Latest(out).Keys;
      RestoreGivesBack(false, 0, restored[symbol], books[symbol]);
    }
    assert AllBuildable(restored) by {
      forall symbol | symbol in restored ensures restored[symbol].symbol == symbol && Buildable(restored[symbol]) {
        assert symbol in Latest(out).Keys;
      }
    }
    shelf := OpenShelf(symbols, restored);
  }
}
