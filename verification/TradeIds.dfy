/** Trade ids never repeat. */
module TradeIds {
  import opened Model
  import opened PriceTimeBook
  import opened MatchingLaws

  function IdsOf(events: seq<Event>): seq<uint64> {
    if events == [] then []
    else (if events[0].kind == EVENT_TRADE then [events[0].tradeId] else []) + IdsOf(events[1..])
  }

  /** k ids of one command, the trade counter starting at n. */
  function Ids(sequence: uint64, n: uint64, k: nat): seq<uint64>
    decreases k
  {
    if k == 0 then [] else [TradeId(sequence, n)] + Ids(sequence, Succ64(n), k - 1)
  }

  lemma {:induction false} IdsOfConcat(a: seq<Event>, b: seq<Event>)
    ensures IdsOf(a + b) == IdsOf(a) + IdsOf(b)
  {
    if a == [] {
      assert a + b == b;
    } else {
      IdsOfConcat(a[1..], b);
      assert (a + b)[1..] == a[1..] + b && (a + b)[0] == a[0];
      var first := if a[0].kind == EVENT_TRADE then [a[0].tradeId] else [];
      assert first + (IdsOf(a[1..]) + IdsOf(b)) == (first + IdsOf(a[1..])) + IdsOf(b);
    }
  }

  lemma {:induction false} IdsAt(sequence: uint64, n: uint64, k: nat, i: nat)
    requires i < k
    ensures |Ids(sequence, n, k)| == k && Ids(sequence, n, k)[i] == TradeId(sequence, Add64(n, i))
    decreases k
  {
    hide TradeId, Add64, Succ64;
    Add64Succ(n, 0);
    if k > 1 {
      IdsAt(sequence, Succ64(n), k - 1, if i > 0 then i - 1 else 0);
    }
    if i > 0 {
      Add64Succ(n, i - 1);
    }
  }

  lemma MeetIds(q: Queue, t: Taker, leaves: int64, n: uint64)
    requires q != [] && leaves > 0
    ensures IdsOf(Meet(q, t, leaves, n).events) == [TradeId(t.sequence, n)]
    ensures Meet(q, t, leaves, n).nextTradeSeq == Succ64(n)
  {
    var events := Meet(q, t, leaves, n).events;
    if |events| == 2 {
      assert events == [events[0]] + [events[1]];
      IdsOfConcat([events[0]], [events[1]]);
    }
  }

  /** A sweep numbers its trades consecutively and leaves the counter behind the last. */
  lemma {:induction false} SweepIds(isBid: bool, q: Queue, t: Taker, leaves: int64, n: uint64) returns (k: nat)
    requires leaves >= 0
    ensures IdsOf(Sweep(isBid, q, t, leaves, n).events) == Ids(t.sequence, n, k)
    ensures Sweep(isBid, q, t, leaves, n).nextTradeSeq == Add64(n, k)
    decreases leaves
  {
    k := 0;
    if leaves > 0 && q != [] && Takes(isBid, t.limit, q[0].price) {
      var m := Meet(q, t, leaves, n);
      MeetIds(q, t, leaves, n);
      k := SweepIds(isBid, m.queue, t, m.leaves, m.nextTradeSeq);
      IdsOfConcat(m.events, Sweep(isBid, m.queue, t, m.leaves, m.nextTradeSeq).events);
      Add64Succ(n, k);
      k := k + 1;
    }
  }

  lemma AroundSweep(pre: seq<Event>, mid: seq<Event>, post: seq<Event>)
    requires forall e :: e in pre || e in post ==> e.kind != EVENT_TRADE
    ensures IdsOf(pre + mid + post) == IdsOf(mid)
  {
    IdsOfConcat(pre + mid, post);
    IdsOfConcat(pre, mid);
    NoIds(pre);
    NoIds(post);
  }

  lemma {:induction false} NoIds(events: seq<Event>)
    requires forall e :: e in events ==> e.kind != EVENT_TRADE
    ensures IdsOf(events) == []
  {
    if events != [] {
      NoIds(events[1..]);
    }
  }

  lemma EnterIds(b: Book, c: Command) returns (k: nat)
    requires c.quantity > 0
    ensures IdsOf(Enter(b, c).result.events) == Ids(c.sequence, b.nextTradeSeq, k)
  {
    var t := Taker(c.orderId, c.price, c.sequence);
    k := SweepIds(c.side != SIDE_BUY, Opposite(b, c.side), t, c.quantity, b.nextTradeSeq);
    var s := Match(b, c.side, t, c.quantity);
    var pre := [Accepted(c.orderId)];
    AroundSweep(pre, s.events, []);
    assert pre + s.events + [] == pre + s.events;
    if s.leaves > 0 {
      AroundSweep(pre, s.events, [Canceled(c.orderId, s.leaves, CANCEL_UNFILLED_REMAINDER)]);
      AroundSweep(pre, s.events, [Rested(c.orderId, c.price, s.leaves)]);
    }
  }

  lemma ReenterIds(b: Book, c: Command, side: uint8, price: int64) returns (k: nat)
    requires c.newLeaves > 0
    ensures IdsOf(Reenter(b, c, side, price).result.events) == Ids(c.sequence, b.nextTradeSeq, k)
  {
    var t := Taker(c.orderId, price, c.sequence);
    k := SweepIds(side != SIDE_BUY, Opposite(b, side), t, c.newLeaves, b.nextTradeSeq);
    var s := Match(b, side, t, c.newLeaves);
    var pre := [Accepted(c.orderId)];
    AroundSweep(pre, s.events, [Replaced(c.orderId, price, 0, false)]);
    AroundSweep(pre, s.events, [Rested(c.orderId, price, s.leaves), Replaced(c.orderId, price, s.leaves, false)]);
  }

  /** The trades of one command carry consecutive ids, whatever the command. */
  lemma ApplyIds(b: Book, c: Command) returns (k: nat)
    ensures IdsOf(Apply(b, c).result.events) == Ids(c.sequence, b.nextTradeSeq, k)
  {
    k := 0;
    var found := Lookup(b, c.orderId);
    if c.symbol != b.symbol || !Validates(c) {
    } else if c.kind == COMMAND_NEW {
      if found.None? && !FokRefuses(b, c) {
        k := EnterIds(b, c);
      }
    } else if c.kind == COMMAND_CANCEL {
      NoIds(Cancel(b, c).result.events);
    } else if found.Some? && ReplacePrice(found.value, c) > 0 {
      if RetainsPriority(found.value, c) {
        NoIds(Amend(b, c, found.value).result.events);
      } else {
        k := ReenterIds(Remove(b, c.orderId), c, found.value.side, ReplacePrice(found.value, c));
      }
    }
  }

  /** On 64-bit words, shifting the sequence and joining the low bits of the counter is the arithmetic of
      `TradeId`: the two parts share no bit, and what the shift pushes out is what wrapping drops. */
  lemma ShiftAndJoin(sequence: bv64, n: bv64)
    ensures (sequence << 20) | (n & 0xf_ffff) == sequence * 0x10_0000 + n % 0x10_0000
  {
  }

  /** The low bits of a trade id are those of the counter, the high bits the command's number. */
  lemma TradeIdParts(sequence: uint64, n: uint64)
    requires sequence < 0x1000_0000_0000
    ensures TradeId(sequence, n) / 0x10_0000 == sequence && TradeId(sequence, n) % 0x10_0000 == n % 0x10_0000
  {
  }

  lemma AddBlocks(r: nat, t: nat)
    ensures (r + t * 0x10_0000) % 0x10_0000 == r % 0x10_0000
  {
    var low := r % 0x10_0000;
    assert r + t * 0x10_0000 == low + (r / 0x10_0000 + t) * 0x10_0000;
  }

  /** Wrap-around at 2^64 does not show in the low bits. */
  lemma LowBits(n: uint64, i: nat)
    ensures Add64(n, i) % 0x10_0000 == (n + i) % 0x10_0000
  {
    var wide := 0x1_0000_0000_0000_0000;
    var q, r := (n + i) / wide, (n + i) % wide;
    AddBlocks(r, q * 0x1000_0000_0000);
    assert n + i == r + q * wide;
  }

  lemma CountersDiffer(n: uint64, i: nat, j: nat)
    requires i < j < i + 0x10_0000
    ensures Add64(n, i) % 0x10_0000 != Add64(n, j) % 0x10_0000
  {
    hide Add64;
    LowBits(n, i);
    LowBits(n, j);
    var a, b := (n + i) / 0x10_0000, (n + j) / 0x10_0000;
    assert j - i == (b - a) * 0x10_0000 + (n + j) % 0x10_0000 - (n + i) % 0x10_0000;
  }

  /** An application of a command to a book, from any run of any book of the engine. */
  datatype Application = Application(book: Book, command: Command) {
    function Ids(): seq<uint64> {
      IdsOf(Apply(book, command).result.events)
    }
  }

  /** No two trades share an id when the commands have different sequence numbers below 2^44
      and no command makes more than 2^20 trades. The books may be any, restored or live. */
  lemma TradeIdsUnique(x: Application, i: nat, y: Application, j: nat)
    requires x.command.sequence < 0x1000_0000_0000 && y.command.sequence < 0x1000_0000_0000
    requires x != y ==> x.command.sequence != y.command.sequence
    requires |x.Ids()| <= 0x10_0000 && i < |x.Ids()| && j < |y.Ids()| && (x != y || i != j)
    ensures x.Ids()[i] != y.Ids()[j]
  {
    var k := ApplyIds(x.book, x.command);
    var m := ApplyIds(y.book, y.command);
    var s, n := x.command.sequence, x.book.nextTradeSeq;
    LengthOfIds(s, n, k);
    LengthOfIds(y.command.sequence, y.book.nextTradeSeq, m);
    IdsAt(s, n, k, i);
    IdsAt(y.command.sequence, y.book.nextTradeSeq, m, j);
    TradeIdParts(s, Add64(n, i));
    TradeIdParts(y.command.sequence, Add64(y.book.nextTradeSeq, j));
    if x == y {
      CountersDiffer(n, if i < j then i else j, if i < j then j else i);
    }
  }

  lemma {:induction false} LengthOfIds(sequence: uint64, n: uint64, k: nat)
    ensures |Ids(sequence, n, k)| == k
    decreases k
  {
    if k > 0 {
      LengthOfIds(sequence, Succ64(n), k - 1);
    }
  }
}
