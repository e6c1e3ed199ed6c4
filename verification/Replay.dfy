/** The books of a shard and what a sequence of commands does to them. */
module Replay {
  import opened Model
  import opened PriceTimeBook
  import opened Codec

  type Books = map<Symbol, Book>

  ghost predicate Routable(books: Books, cs: seq<Command>) {
    forall c :: c in cs ==> c.symbol in books
  }

  function ApplyTo(books: Books, c: Command): Books
    requires c.symbol in books
  {
    books[c.symbol := Apply(books[c.symbol], c).book]
  }

  /** The record the shard logs for a command. */
  function RecordOf(shard: uint16, books: Books, c: Command): Record
    requires c.symbol in books
  {
    Record(shard, c.sequence, c, Apply(books[c.symbol], c).result)
  }

  function ReplayBooks(books: Books, cs: seq<Command>): (r: Books)
    requires Routable(books, cs)
    ensures r.Keys == books.Keys
    decreases |cs|
  {
    if cs == [] then books else ReplayBooks(ApplyTo(books, cs[0]), cs[1..])
  }

  function RecordsOf(shard: uint16, books: Books, cs: seq<Command>): (rs: seq<Record>)
    requires Routable(books, cs)
    ensures |rs| == |cs|
    decreases |cs|
  {
    if cs == [] then [] else [RecordOf(shard, books, cs[0])] + RecordsOf(shard, ApplyTo(books, cs[0]), cs[1..])
  }

  lemma {:induction false} ReplaySplit(shard: uint16, books: Books, a: seq<Command>, b: seq<Command>)
    requires Routable(books, a + b)
    ensures Routable(books, a) && Routable(ReplayBooks(books, a), b)
    ensures ReplayBooks(books, a + b) == ReplayBooks(ReplayBooks(books, a), b)
    ensures RecordsOf(shard, books, a + b) == RecordsOf(shard, books, a) + RecordsOf(shard, ReplayBooks(books, a), b)
    decreases |a|
  {
    hide RecordOf, Apply;
    assert forall c :: c in a ==> c in a + b;
    if a == [] {
      assert a + b == b;
    } else {
      assert (a + b)[1..] == a[1..] + b;
      ReplaySplit(shard, ApplyTo(books, a[0]), a[1..], b);
    }
  }

  /** One more command at the end. */
  lemma ReplayNext(shard: uint16, books: Books, cs: seq<Command>, c: Command)
    requires Routable(books, cs) && c.symbol in books
    ensures Routable(books, cs + [c])
    ensures ReplayBooks(books, cs + [c]) == ApplyTo(ReplayBooks(books, cs), c)
    ensures RecordsOf(shard, books, cs + [c]) == RecordsOf(shard, books, cs) + [RecordOf(shard, ReplayBooks(books, cs), c)]
  {
    assert Routable(books, cs + [c]);
    ReplaySplit(shard, books, cs, [c]);
    assert [c][1..] == [];
  }

  lemma {:induction false} RecordAt(shard: uint16, books: Books, cs: seq<Command>, k: nat)
    requires Routable(books, cs) && k < |cs|
    ensures var r := RecordsOf(shard, books, cs)[k]; r.command == cs[k] && r.sequence == cs[k].sequence && r.shardId == shard
    decreases |cs|
  {
    if k > 0 {
      RecordAt(shard, ApplyTo(books, cs[0]), cs[1..], k - 1);
    }
  }

  /** The command history of one symbol. */
  function ForSymbol(cs: seq<Command>, symbol: Symbol): seq<Command> {
    if cs == [] then []
    else (if cs[0].symbol == symbol then [cs[0]] else []) + ForSymbol(cs[1..], symbol)
  }

  /** A book depends only on the commands of its own symbol, in their order: so commands of
      different symbols, and whole shards, may be replayed in any interleaving. */
  lemma {:induction false} ReplayIsPerSymbol(books: Books, cs: seq<Command>, other: Books, ds: seq<Command>, symbol: Symbol)
    requires Routable(books, cs) && Routable(other, ds)
    requires symbol in books && symbol in other && books[symbol] == other[symbol]
    requires ForSymbol(cs, symbol) == ForSymbol(ds, symbol)
    ensures ReplayBooks(books, cs)[symbol] == ReplayBooks(other, ds)[symbol]
    decreases |cs| + |ds|
  {
    if cs != [] && cs[0].symbol != symbol {
      ReplayIsPerSymbol(ApplyTo(books, cs[0]), cs[1..], other, ds, symbol);
    } else if ds != [] && ds[0].symbol != symbol {
      ReplayIsPerSymbol(books, cs, ApplyTo(other, ds[0]), ds[1..], symbol);
    } else if cs != [] && ds != [] {
      assert ForSymbol(cs, symbol)[0] == cs[0] && ForSymbol(ds, symbol)[0] == ds[0];
      assert ForSymbol(cs, symbol)[1..] == ForSymbol(cs[1..], symbol);
      assert ForSymbol(ds, symbol)[1..] == ForSymbol(ds[1..], symbol);
      ReplayIsPerSymbol(ApplyTo(books, cs[0]), cs[1..], ApplyTo(other, ds[0]), ds[1..], symbol);
    }
  }
}
