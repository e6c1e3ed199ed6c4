/** Recovery: a snapshot plus the log gives back the live books (internal/shard/engine.go,
    internal/recovery/recovery.go). */
module Recovery {
  import opened Model
  import opened PriceTimeBook
  import opened Codec
  import opened Replay

  /** Field-by-field comparison of a stored and a recomputed result. */
  method EqualResults(a: Result, b: Result) returns (equal: bool)
    ensures equal <==> a == b
  {
    if a.sequence != b.sequence || |a.events| != |b.events| {
      return false;
    }
    for i := 0 to |a.events|
      invariant forall j :: 0 <= j < i ==> a.events[j] == b.events[j]
    {
      var x, y := a.events[i], b.events[i];
      if x.kind != y.kind || x.reason != y.reason || x.orderId != y.orderId || x.makerId != y.makerId
         || x.takerId != y.takerId || x.tradeId != y.tradeId || x.price != y.price || x.quantity != y.quantity
         || x.leaves != y.leaves || x.canceled != y.canceled || x.cancelReason != y.cancelReason
         || x.priorityRetained != y.priorityRetained {
        return false;
      }
    }
    equal := a.events == b.events;
  }

  datatype Recovered = Recovered(books: Books, last: uint64) | UnknownSymbol | Mismatch

  /** Replaying a shard's records: those at or below the watermark are skipped, the others are
      applied and must give the stored result. */
  function Recover(books: Books, last: uint64, rs: seq<Record>): Recovered
    decreases |rs|
  {
    if rs == [] then Recovered(books, last)
    else
      var rec := rs[0];
      if rec.sequence <= last then Recover(books, last, rs[1..])
      else if rec.command.symbol !in books then UnknownSymbol
      else if Apply(books[rec.command.symbol], rec.command).result != rec.result then Mismatch
      else Recover(ApplyTo(books, rec.command), rec.sequence, rs[1..])
  }

  method RecoverShard(start: Books, watermark: uint64, rs: seq<Record>) returns (r: Recovered)
    ensures r == Recover(start, watermark, rs)
  {
    var books, last := start, watermark;
    var prev := watermark;
    assert rs[0..] == rs;
    for i := 0 to |rs|
      invariant Recover(start, watermark, rs) == Recover(books, last, rs[i..]) && prev == last
    {
      var rec := rs[i];
      assert rs[i..][1..] == rs[i + 1..];
      if rec.sequence > last {
        // The source checks the order again here; the skip above has already decided it.
        assert rec.sequence > prev;
        prev := rec.sequence;
        if rec.command.symbol !in books {
          return UnknownSymbol;
        }
        var computed := Apply(books[rec.command.symbol], rec.command);
        var equal := EqualResults(computed.result, rec.result);
        if !equal {
          return Mismatch;
        }
        books := ApplyTo(books, rec.command);
        last := rec.sequence;
      }
    }
    r := Recovered(books, last);
  }

  /** The records that exceed everything before them. */
  function Advancing(last: uint64, rs: seq<Record>): seq<Record>
    decreases |rs|
  {
    if rs == [] then []
    else if rs[0].sequence <= last then Advancing(last, rs[1..])
    else [rs[0]] + Advancing(rs[0].sequence, rs[1..])
  }

  /** Disorder is not rejected: whatever the log holds, exactly the advancing records count. */
  lemma {:induction false} RecoverTakesAdvancing(books: Books, last: uint64, rs: seq<Record>)
    ensures Recover(books, last, rs) == Recover(books, last, Advancing(last, rs))
    decreases |rs|
  {
    if rs != [] {
      var rec := rs[0];
      if rec.sequence <= last {
        RecoverTakesAdvancing(books, last, rs[1..]);
      } else {
        assert Advancing(last, rs)[1..] == Advancing(rec.sequence, rs[1..]);
        if rec.command.symbol in books {
          RecoverTakesAdvancing(ApplyTo(books, rec.command), rec.sequence, rs[1..]);
        }
      }
    }
  }

  lemma {:induction false} SkipOld(books: Books, last: uint64, stale: seq<Record>, rs: seq<Record>)
    requires forall i :: 0 <= i < |stale| ==> stale[i].sequence <= last
    ensures Recover(books, last, stale + rs) == Recover(books, last, rs)
    decreases |stale|
  {
    if stale == [] {
      assert stale + rs == rs;
    } else {
      assert (stale + rs)[1..] == stale[1..] + rs;
      SkipOld(books, last, stale[1..], rs);
    }
  }

  ghost predicate Rising(last: uint64, cs: seq<Command>)
    decreases |cs|
  {
    cs == [] || (last < cs[0].sequence && Rising(cs[0].sequence, cs[1..]))
  }

  function LastSeq(last: uint64, cs: seq<Command>): uint64 {
    if cs == [] then last else cs[|cs| - 1].sequence
  }

  lemma {:induction false} RisingSplit(last: uint64, a: seq<Command>, b: seq<Command>)
    requires Rising(last, a + b)
    ensures Rising(last, a) && Rising(LastSeq(last, a), b) && last <= LastSeq(last, a)
    ensures forall c :: c in a ==> last < c.sequence <= LastSeq(last, a)
    decreases |a|
  {
    if a == [] {
      assert a + b == b;
    } else {
      assert (a + b)[1..] == a[1..] + b;
      RisingSplit(a[0].sequence, a[1..], b);
      assert a == [a[0]] + a[1..];
    }
  }

  /** Replaying the records of a command list on top of other shards' books. */
  lemma {:induction false} RecoverTail(shard: uint16, base: Books, part: Books, last: uint64, cs: seq<Command>)
    requires Routable(part, cs) && Rising(last, cs)
    ensures Recover(base + part, last, RecordsOf(shard, part, cs)) ==
            Recovered(base + ReplayBooks(part, cs), LastSeq(last, cs))
    decreases |cs|
  {
    if cs != [] {
      var c, rs := cs[0], RecordsOf(shard, part, cs);
      assert rs[1..] == RecordsOf(shard, ApplyTo(part, c), cs[1..]);
      assert (base + part)[c.symbol] == part[c.symbol];
      assert ApplyTo(base + part, c) == base + ApplyTo(part, c);
      RecoverTail(shard, base, ApplyTo(part, c), c.sequence, cs[1..]);
    }
  }

  /** The life of a shard: its first books and watermark, the commands it applied, and how many of
      them the snapshot covers. */
  datatype History = History(shard: uint16, start: Books, mark: uint64, commands: seq<Command>, cut: nat)

  ghost predicate Lived(h: History) {
    h.cut <= |h.commands| && Routable(h.start, h.commands) && Rising(h.mark, h.commands)
  }

  ghost function Log(h: History): seq<Record>
    requires Lived(h)
  {
    RecordsOf(h.shard, h.start, h.commands)
  }

  ghost function CutBooks(h: History): Books
    requires Lived(h)
  {
    assert h.commands == h.commands[..h.cut] + h.commands[h.cut..];
    ReplayBooks(h.start, h.commands[..h.cut])
  }

  ghost function CutMark(h: History): uint64
    requires Lived(h)
  {
    LastSeq(h.mark, h.commands[..h.cut])
  }

  ghost function LiveBooks(h: History): Books
    requires Lived(h)
  {
    ReplayBooks(h.start, h.commands)
  }

  ghost function LiveMark(h: History): uint64
    requires Lived(h)
  {
    LastSeq(h.mark, h.commands)
  }

  /** Snapshot plus the whole log is the live state, whatever the cut and whatever other books are
      around; no comparison fails. With the cut at zero this is replay from the first books. */
  lemma RecoverFromCut(base: Books, h: History)
    requires Lived(h)
    ensures Recover(base + CutBooks(h), CutMark(h), Log(h)) == Recovered(base + LiveBooks(h), LiveMark(h))
  {
    var a, b := h.commands[..h.cut], h.commands[h.cut..];
    assert h.commands == a + b;
    ReplaySplit(h.shard, h.start, a, b);
    RisingSplit(h.mark, a, b);
    var stale := RecordsOf(h.shard, h.start, a);
    forall i | 0 <= i < |stale| ensures stale[i].sequence <= CutMark(h) {
      RecordAt(h.shard, h.start, a, i);
      assert a[i] in a;
    }
    SkipOld(base + CutBooks(h), CutMark(h), stale, RecordsOf(h.shard, CutBooks(h), b));
    RecoverTail(h.shard, base, CutBooks(h), CutMark(h), b);
  }

  // ---- All shards ----

  datatype EngineState = EngineState(books: Books, marks: seq<uint64>)

  datatype EngineResult = Restored(state: EngineState) | Aborted

  /** Shard after shard, each with its own watermark and log. */
  function RecoverAll(books: Books, marks: seq<uint64>, logs: seq<seq<Record>>): EngineResult
    requires |marks| == |logs|
    decreases |logs|
  {
    if logs == [] then Restored(EngineState(books, []))
    else match Recover(books, marks[0], logs[0])
      case Recovered(next, last) =>
        (match RecoverAll(next, marks[1..], logs[1..])
         case Restored(s) => Restored(EngineState(s.books, [last] + s.marks))
         case Aborted => Aborted)
      case _ => Aborted
  }

  ghost predicate AllLived(hs: seq<History>) {
    && (forall i :: 0 <= i < |hs| ==> Lived(hs[i]))
    && (forall i, j :: 0 <= i < j < |hs| ==> hs[i].start.Keys !! hs[j].start.Keys)
  }

  ghost function AllCutBooks(hs: seq<History>): Books
    requires AllLived(hs)
  {
    if hs == [] then map[] else AllCutBooks(hs[1..]) + CutBooks(hs[0])
  }

  ghost function AllLiveBooks(hs: seq<History>): Books
    requires AllLived(hs)
  {
    if hs == [] then map[] else AllLiveBooks(hs[1..]) + LiveBooks(hs[0])
  }

  ghost function Logs(hs: seq<History>): (ls: seq<seq<Record>>)
    requires AllLived(hs)
    ensures |ls| == |hs|
  {
    if hs == [] then [] else [Log(hs[0])] + Logs(hs[1..])
  }

  ghost function CutMarks(hs: seq<History>): (ms: seq<uint64>)
    requires AllLived(hs)
    ensures |ms| == |hs|
  {
    if hs == [] then [] else [CutMark(hs[0])] + CutMarks(hs[1..])
  }

  ghost function LiveMarks(hs: seq<History>): (ms: seq<uint64>)
    requires AllLived(hs)
    ensures |ms| == |hs|
  {
    if hs == [] then [] else [LiveMark(hs[0])] + LiveMarks(hs[1..])
  }

  /** Recovery of the whole engine from a snapshot at any cut of each shard. */
  lemma {:induction false} RecoverEngine(base: Books, hs: seq<History>)
    requires AllLived(hs)
    ensures RecoverAll(base + AllCutBooks(hs), CutMarks(hs), Logs(hs)) ==
            Restored(EngineState(base + AllLiveBooks(hs), LiveMarks(hs)))
    decreases |hs|
  {
    if hs == [] {
      assert base + map[] == base;
    } else {
      var h, rest := hs[0], hs[1..];
      assert CutMarks(hs)[1..] == CutMarks(rest) && Logs(hs)[1..] == Logs(rest);
      OtherKeys(h, rest);
      Regroup(base, AllCutBooks(rest), CutBooks(h));
      RecoverFromCut(base + AllCutBooks(rest), h);
      Swap(base, AllCutBooks(rest), LiveBooks(h));
      RecoverEngine(base + LiveBooks(h), rest);
      Swap(base, LiveBooks(h), AllLiveBooks(rest));
      Regroup(base, AllLiveBooks(rest), LiveBooks(h));
    }
  }

  lemma Regroup(a: Books, b: Books, c: Books)
    ensures (a + b) + c == a + (b + c)
  {
  }

  lemma Swap(a: Books, b: Books, c: Books)
    requires b.Keys !! c.Keys
    ensures (a + b) + c == (a + c) + b
  {
    assert b.Keys * c.Keys == {};
    forall k | k in a + b + c ensures ((a + b) + c)[k] == ((a + c) + b)[k] {
      assert !(k in b && k in c);
    }
  }

  lemma {:induction false} OtherKeys(h: History, hs: seq<History>)
    requires AllLived(hs) && Lived(h) && forall i :: 0 <= i < |hs| ==> h.start.Keys !! hs[i].start.Keys
    ensures h.start.Keys !! AllCutBooks(hs).Keys && h.start.Keys !! AllLiveBooks(hs).Keys
    ensures CutBooks(h).Keys == LiveBooks(h).Keys == h.start.Keys
    decreases |hs|
  {
    if hs != [] {
      OtherKeys(h, hs[1..]);
      assert CutBooks(hs[0]).Keys == LiveBooks(hs[0]).Keys == hs[0].start.Keys;
    }
  }

  /** The sequence number to continue with: one past the largest recovered, or zero when exhausted. */
  method NextSequence(marks: seq<uint64>) returns (next: uint64)
    ensures next != 0 ==> forall i :: 0 <= i < |marks| ==> marks[i] < next
    ensures next == 0 <==> 0xffff_ffff_ffff_ffff in marks
    ensures next != 0 ==> next == 1 || next - 1 in marks
  {
    var maximum: uint64 := 0;
    for i := 0 to |marks|
      invariant forall j :: 0 <= j < i ==> marks[j] <= maximum
      invariant maximum == 0 || maximum in marks
    {
      if marks[i] > maximum {
        maximum := marks[i];
      }
    }
    next := (maximum + 1) % 0x1_0000_0000_0000_0000;
  }
}
