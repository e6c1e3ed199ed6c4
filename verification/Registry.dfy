/** The fixed assignment of symbols to shards (internal/shard/registry.go). The hash of a symbol is a
    parameter: nothing here depends on which function it is. */
module Registry {
  import opened Model

  type Hash = Symbol -> uint32

  datatype SymbolRegistry = SymbolRegistry(shardCount: nat, bySymbol: map<Symbol, nat>, byShard: map<nat, seq<Symbol>>)

  /** The last outcome is a run-time panic: the hash is reduced modulo the shard count cut to 32 bits. */
  datatype Outcome =
    | Built(registry: SymbolRegistry)
    | BadShardCount
    | NoSymbols
    | EmptySymbol
    | DuplicateSymbol
    | ZeroDivision

  function Modulus(shardCount: nat): nat {
    shardCount % 0x1_0000_0000
  }

  function StableShardId(hash: Hash, symbol: Symbol, shardCount: nat): (id: nat)
    requires Modulus(shardCount) != 0
    ensures id < shardCount
  {
    hash(symbol) % Modulus(shardCount)
  }

  /** The symbols of one shard, in the order of the configuration. */
  function OnShard(hash: Hash, symbols: seq<Symbol>, shardCount: nat, id: nat): seq<Symbol>
    requires Modulus(shardCount) != 0
  {
    if symbols == [] then []
    else
      var n := |symbols| - 1;
      OnShard(hash, symbols[..n], shardCount, id)
      + if StableShardId(hash, symbols[n], shardCount) == id then [symbols[n]] else []
  }

  function ShardFor(r: SymbolRegistry, symbol: Symbol): Option<nat> {
    if symbol in r.bySymbol then Some(r.bySymbol[symbol]) else None
  }

  function SymbolsForShard(r: SymbolRegistry, id: nat): seq<Symbol> {
    if id in r.byShard then r.byShard[id] else []
  }

  ghost predicate Distinct(symbols: seq<Symbol>) {
    forall i, j :: 0 <= i < j < |symbols| ==> symbols[i] != symbols[j]
  }

  /** Both maps hold exactly these symbols, each where its hash puts it. */
  ghost predicate Holds(r: SymbolRegistry, hash: Hash, symbols: seq<Symbol>, shardCount: nat)
    requires Modulus(shardCount) != 0
  {
    && r.shardCount == shardCount
    && (forall s :: s in r.bySymbol <==> s in symbols)
    && (forall s :: s in r.bySymbol ==> r.bySymbol[s] == StableShardId(hash, s, shardCount))
    && (forall id :: SymbolsForShard(r, id) == OnShard(hash, symbols, shardCount, id))
  }

  function Add(r: SymbolRegistry, symbol: Symbol, id: nat): SymbolRegistry {
    r.(bySymbol := r.bySymbol[symbol := id], byShard := r.byShard[id := SymbolsForShard(r, id) + [symbol]])
  }

  lemma OnShardMore(hash: Hash, symbols: seq<Symbol>, shardCount: nat, symbol: Symbol, id: nat)
    requires Modulus(shardCount) != 0
    ensures OnShard(hash, symbols + [symbol], shardCount, id) ==
            OnShard(hash, symbols, shardCount, id) + if StableShardId(hash, symbol, shardCount) == id then [symbol] else []
  {
    assert (symbols + [symbol])[..|symbols|] == symbols;
  }

  lemma HoldsMore(r: SymbolRegistry, hash: Hash, symbols: seq<Symbol>, shardCount: nat, symbol: Symbol)
    requires Modulus(shardCount) != 0 && Holds(r, hash, symbols, shardCount)
    ensures Holds(Add(r, symbol, StableShardId(hash, symbol, shardCount)), hash, symbols + [symbol], shardCount)
  {
    hide OnShard, StableShardId, Modulus;
    var r' := Add(r, symbol, StableShardId(hash, symbol, shardCount));
    forall k ensures SymbolsForShard(r', k) == OnShard(hash, symbols + [symbol], shardCount, k) {
      assert SymbolsForShard(r, k) == OnShard(hash, symbols, shardCount, k);
      OnShardMore(hash, symbols, shardCount, symbol, k);
      assert OnShard(hash, symbols, shardCount, k) + [] == OnShard(hash, symbols, shardCount, k);
    }
  }

  /** The first n symbols are in the registry, without mistake among them. */
  ghost predicate Loaded(r: SymbolRegistry, hash: Hash, symbols: seq<Symbol>, shardCount: nat, n: nat)
    requires n <= |symbols|
  {
    && (Modulus(shardCount) != 0 ==> Holds(r, hash, symbols[..n], shardCount))
    && (Modulus(shardCount) == 0 ==> n == 0 && r.bySymbol == map[])
    && [] !in symbols[..n] && Distinct(symbols[..n])
  }

  ghost predicate Acceptable(symbols: seq<Symbol>, shardCount: nat) {
    Modulus(shardCount) != 0 && [] !in symbols && Distinct(symbols)
  }

  lemma LoadedNext(r: SymbolRegistry, hash: Hash, symbols: seq<Symbol>, shardCount: nat, n: nat)
    requires n < |symbols| && Loaded(r, hash, symbols, shardCount, n)
    ensures symbols[n] == [] || symbols[n] in r.bySymbol || Modulus(shardCount) == 0 ==> !Acceptable(symbols, shardCount)
    ensures symbols[n] != [] && symbols[n] !in r.bySymbol && Modulus(shardCount) != 0 ==>
              Loaded(Add(r, symbols[n], StableShardId(hash, symbols[n], shardCount)), hash, symbols, shardCount, n + 1)
  {
    hide Holds, Add, Modulus;
    var symbol := symbols[n];
    assert symbols[..n + 1] == symbols[..n] + [symbol];
    if Modulus(shardCount) != 0 {
      HoldsMore(r, hash, symbols[..n], shardCount, symbol);
      HoldsKeys(r, hash, symbols[..n], shardCount);
    }
    if symbol in r.bySymbol {
      assert symbol in symbols[..n];
    }
  }

  lemma HoldsKeys(r: SymbolRegistry, hash: Hash, symbols: seq<Symbol>, shardCount: nat)
    requires Modulus(shardCount) != 0 && Holds(r, hash, symbols, shardCount)
    ensures forall s :: s in r.bySymbol <==> s in symbols
  {
  }

  lemma LoadedNone(hash: Hash, symbols: seq<Symbol>, shardCount: nat)
    ensures Loaded(SymbolRegistry(shardCount, map[], map[]), hash, symbols, shardCount, 0)
  {
  }

  lemma LoadedAll(r: SymbolRegistry, hash: Hash, symbols: seq<Symbol>, shardCount: nat)
    requires symbols != [] && Loaded(r, hash, symbols, shardCount, |symbols|)
    ensures Acceptable(symbols, shardCount) && Holds(r, hash, symbols, shardCount)
  {
    assert symbols[..|symbols|] == symbols;
  }

  method NewSymbolRegistry(hash: Hash, symbols: seq<Symbol>, shardCount: int) returns (r: Outcome)
    ensures r.Built? <==> shardCount > 0 && symbols != [] && Acceptable(symbols, shardCount)
    ensures r.Built? ==> Holds(r.registry, hash, symbols, shardCount)
  {
    hide Loaded, Holds, Distinct;
    if shardCount <= 0 {
      return BadShardCount;
    }
    if |symbols| == 0 {
      return NoSymbols;
    }
    var registry := SymbolRegistry(shardCount, map[], map[]);
    LoadedNone(hash, symbols, shardCount);
    for i := 0 to |symbols|
      invariant Loaded(registry, hash, symbols, shardCount, i)
    {
      var symbol := symbols[i];
      LoadedNext(registry, hash, symbols, shardCount, i);
      if symbol == [] {
        return EmptySymbol;
      }
      if symbol in registry.bySymbol {
        return DuplicateSymbol;
      }
      if Modulus(shardCount) == 0 {
        return ZeroDivision;
      }
      registry := Add(registry, symbol, StableShardId(hash, symbol, shardCount));
    }
    LoadedAll(registry, hash, symbols, shardCount);
    r := Built(registry);
  }

  /** The shards partition the symbols: every symbol is on one shard, the one it is routed to, and on
      no other; and no shard has a symbol twice. */
  lemma {:induction false} OnShardMeaning(hash: Hash, symbols: seq<Symbol>, shardCount: nat, id: nat)
    requires Modulus(shardCount) != 0
    ensures forall s :: s in OnShard(hash, symbols, shardCount, id) <==> s in symbols && StableShardId(hash, s, shardCount) == id
    ensures Distinct(symbols) ==> Distinct(OnShard(hash, symbols, shardCount, id))
  {
    if symbols != [] {
      var n := |symbols| - 1;
      OnShardMeaning(hash, symbols[..n], shardCount, id);
      assert symbols == symbols[..n] + [symbols[n]];
      if Distinct(symbols) {
        assert symbols[n] !in symbols[..n];
      }
    }
  }

  lemma Partition(r: SymbolRegistry, hash: Hash, symbols: seq<Symbol>, shardCount: nat, symbol: Symbol, id: nat)
    requires Modulus(shardCount) != 0 && Holds(r, hash, symbols, shardCount)
    ensures symbol in SymbolsForShard(r, id) <==> ShardFor(r, symbol) == Some(id)
    ensures ShardFor(r, symbol).Some? <==> symbol in symbols
    ensures ShardFor(r, symbol).Some? ==> ShardFor(r, symbol).value == hash(symbol) % (shardCount % 0x1_0000_0000) < shardCount
    ensures Distinct(symbols) ==> Distinct(SymbolsForShard(r, id))
  {
    OnShardMeaning(hash, symbols, shardCount, id);
  }
}
