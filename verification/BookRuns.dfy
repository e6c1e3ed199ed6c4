/** A pointer book through a whole run of commands. */
module BookRuns {
  import opened Model
  import opened PriceTimeBook
  import opened MatchingLaws
  import opened BookLaws
  import P = PointerBook

  lemma {:induction false} RunMore(b: Book, cs: seq<Command>, c: Command)
    ensures Run(b, cs + [c]) == Apply(Run(b, cs), c).book
    ensures Results(b, cs + [c]) == Results(b, cs) + [Apply(Run(b, cs), c).result]
    decreases |cs|
  {
    hide Apply;
    if cs == [] {
      assert cs + [c] == [c] && [c][1..] == [];
    } else {
      assert (cs + [c])[1..] == cs[1..] + [c] && (cs + [c])[0] == cs[0];
      RunMore(Apply(b, cs[0]).book, cs[1..], c);
    }
  }

  /** Whatever the commands, the pointer book gives the results of the price-time list, command by command,
      and passes its own self-check after each of them. */
  method RunBook(symbol: Symbol, cs: seq<Command>) returns (b: P.OrderBook, results: seq<Result>, healthy: bool)
    ensures healthy
    ensures b.Valid() && b.View() == Run(Empty(symbol), cs)
    ensures results == Results(Empty(symbol), cs)
  {
    hide P.OrderBook.ValidBut, Apply, Sound;
    b := new P.OrderBook(symbol);
    results, healthy := [], true;
    for i := 0 to |cs|
      invariant b.Valid() && fresh(b.Repr) && healthy
      invariant b.View() == Run(Empty(symbol), cs[..i]) && results == Results(Empty(symbol), cs[..i])
    {
      assert cs[..i + 1] == cs[..i] + [cs[i]];
      RunMore(Empty(symbol), cs[..i], cs[i]);
      var result := b.Apply(cs[i]);
      results := results + [result];
      ReachableBooksAreSound(symbol, cs[..i + 1]);
      b.ReachableIsHealthy(false, LastSequence(0, cs[..i + 1]));
      var ok := b.CheckInvariants();
      healthy := healthy && ok;
    }
    assert cs[..|cs|] == cs;
  }

  function NewOrder(sequence: uint64, symbol: Symbol, id: uint64, side: uint8, orderType: uint8, tif: uint8, price: int64, qty: int64): Command {
    Command(sequence, symbol, COMMAND_NEW, id, side, orderType, tif, price, qty, 0, 0)
  }

  /** A good-till-cancelled limit order that meets nobody rests. */
  lemma MeetsNobody(b: Book, c: Command)
    requires Validates(c) && c.symbol == b.symbol && c.kind == COMMAND_NEW && c.orderType == TYPE_LIMIT && c.tif == TIF_GTC
    requires Lookup(b, c.orderId).None? && Opposite(b, c.side) == []
    ensures Apply(b, c).book == Rest(b, Resting(c.orderId, c.side, c.price, c.quantity, c.sequence))
  {
  }

  /** Two sell orders on an empty book: two at 101, five at 105. */
  lemma TwoOffers(near: Command, far: Command)
    requires near == NewOrder(1, [66], 1, SIDE_SELL, TYPE_LIMIT, TIF_GTC, 101, 2)
    requires far == NewOrder(2, [66], 2, SIDE_SELL, TYPE_LIMIT, TIF_GTC, 105, 5)
    ensures Run(Empty([66]), [near, far]) == Book([66], [], [Resting(1, SIDE_SELL, 101, 2, 1), Resting(2, SIDE_SELL, 105, 5, 2)], 1)
  {
    hide Apply;
    var o, p := Resting(1, SIDE_SELL, 101, 2, 1), Resting(2, SIDE_SELL, 105, 5, 2);
    MeetsNobody(Empty([66]), near);
    var b := Apply(Empty([66]), near).book;
    assert b == Book([66], [], [o], 1);
    MeetsNobody(b, far);
    assert [o][1..] == [];
    assert Insert(false, [o], p) == [o] + Insert(false, [], p) == [o, p];
    assert [near, far][1..] == [far] && [far][1..] == [];
    assert Run(b, [far]) == Run(Apply(b, far).book, []);
  }

  /** A fill-or-kill order that is accepted and yet left in part: five wanted at up to 101 by a market order
      with a price, on a reachable book that offers two there and five at 105. */
  lemma FokPartialExample()
    ensures exists cs, c :: var b := Run(Empty([66]), cs); IsFok(b, c) && !FokRefuses(b, c) && Unfilled(b, c) == 3
  {
    var first := NewOrder(1, [66], 1, SIDE_SELL, TYPE_LIMIT, TIF_GTC, 101, 2);
    var second := NewOrder(2, [66], 2, SIDE_SELL, TYPE_LIMIT, TIF_GTC, 105, 5);
    var c := NewOrder(3, [66], 3, SIDE_BUY, TYPE_MARKET, TIF_FOK, 101, 5);
    TwoOffers(first, second);
    var b := Run(Empty([66]), [first, second]);
    FokPartly(b, c);
  }

  lemma FokPartly(b: Book, c: Command)
    requires b == Book([66], [], [Resting(1, SIDE_SELL, 101, 2, 1), Resting(2, SIDE_SELL, 105, 5, 2)], 1)
    requires c == NewOrder(3, [66], 3, SIDE_BUY, TYPE_MARKET, TIF_FOK, 101, 5)
    ensures IsFok(b, c) && !FokRefuses(b, c) && Unfilled(b, c) == 3
  {
    var near, far := b.asks[0], b.asks[1];
    assert b.asks == [near, far] && b.asks[1..] == [far] && [far][1..] == [];
    FokMarketSeesAll(false, b.asks, 101);
    assert TotalLeaves([far]) == 5 && TotalLeaves(b.asks) == 2 + TotalLeaves([far]);
    assert Reachable(false, [far], 101) == 0 && Reachable(false, b.asks, 101) == 2 + Reachable(false, [far], 101);
    SweepFillsAllItCan(false, b.asks, Taker(3, 101, 3), 5, 1);
  }
}
