/** Little-endian integers as byte sequences. */
module Bytes {
  import opened Model

  type Data = seq<uint8>

  function Pow256(n: nat): nat {
    if n == 0 then 1 else 256 * Pow256(n - 1)
  }

  lemma Pow256Values()
    ensures Pow256(1) == 0x100 && Pow256(2) == 0x1_0000
    ensures Pow256(4) == 0x1_0000_0000 && Pow256(8) == 0x1_0000_0000_0000_0000
  {
    assert Pow256(3) == 0x100_0000 && Pow256(4) == 0x1_0000_0000;
    assert Pow256(5) == 0x100_0000_0000 && Pow256(6) == 0x1_0000_0000_0000;
    assert Pow256(7) == 0x100_0000_0000_0000;
  }

  /** The n lowest bytes of v, lowest first. */
  function LE(n: nat, v: nat): (s: Data)
    ensures |s| == n
  {
    if n == 0 then [] else [v % 256] + LE(n - 1, v / 256)
  }

  function FromLE(s: Data): nat {
    if s == [] then 0 else s[0] + 256 * FromLE(s[1..])
  }

  lemma {:induction false} FromLEBound(s: Data)
    ensures FromLE(s) < Pow256(|s|)
  {
    if s != [] {
      FromLEBound(s[1..]);
    }
  }

  lemma {:induction false} LERoundTrip(n: nat, v: nat)
    requires v < Pow256(n)
    ensures FromLE(LE(n, v)) == v
  {
    if n > 0 {
      LERoundTrip(n - 1, v / 256);
      assert LE(n, v)[1..] == LE(n - 1, v / 256);
    }
  }

  /** The integer in the first n bytes. */
  function Read(n: nat, s: Data): nat
    requires n <= |s|
  {
    FromLE(s[..n])
  }

  function Read8(s: Data): (v: uint8)
    requires |s| >= 1
  {
    s[0]
  }

  function Read16(s: Data): (v: uint16)
    requires |s| >= 2
  {
    FromLEBound(s[..2]);
    Pow256Values();
    Read(2, s)
  }

  function Read32(s: Data): (v: uint32)
    requires |s| >= 4
  {
    FromLEBound(s[..4]);
    Pow256Values();
    Read(4, s)
  }

  function Read64(s: Data): (v: uint64)
    requires |s| >= 8
  {
    FromLEBound(s[..8]);
    Pow256Values();
    Read(8, s)
  }

  /** Reading back a field gives its value and leaves what follows. */
  lemma ReadLE(n: nat, v: nat, rest: Data)
    requires v < Pow256(n)
    ensures Read(n, LE(n, v) + rest) == v && (LE(n, v) + rest)[n..] == rest
  {
    assert (LE(n, v) + rest)[..n] == LE(n, v);
    LERoundTrip(n, v);
  }

  lemma Read16LE(v: uint16, rest: Data)
    ensures Read16(LE(2, v) + rest) == v && (LE(2, v) + rest)[2..] == rest
  {
    Pow256Values();
    ReadLE(2, v, rest);
  }

  lemma Read32LE(v: uint32, rest: Data)
    ensures Read32(LE(4, v) + rest) == v && (LE(4, v) + rest)[4..] == rest
  {
    Pow256Values();
    ReadLE(4, v, rest);
  }

  lemma Read64LE(v: uint64, rest: Data)
    ensures Read64(LE(8, v) + rest) == v && (LE(8, v) + rest)[8..] == rest
  {
    Pow256Values();
    ReadLE(8, v, rest);
  }

  /** Go's conversions between int64 and uint64. */
  function ToUnsigned(x: int64): uint64 {
    if x < 0 then x + 0x1_0000_0000_0000_0000 else x
  }

  function ToSigned(u: uint64): int64 {
    if u >= 0x8000_0000_0000_0000 then u - 0x1_0000_0000_0000_0000 else u
  }
}
