/** Little-endian integers in byte sequences, read and written. */
module Bytes {
  import opened Basics

  type byte = x: int | 0 <= x < 256

  function Pow256(n: nat): nat {
    if n == 0 then 1 else 256 * Pow256(n - 1)
  }

  function FromLE(s: seq<byte>): nat {
    if s == [] then 0 else s[0] + 256 * FromLE(s[1..])
  }

  function ToLE(n: nat, v: nat): (s: seq<byte>)
    ensures |s| == n
  {
    if n == 0 then [] else [v % 256] + ToLE(n - 1, v / 256)
  }

  /** n bytes off the front as one integer, and the rest. */
  function TakeInt(n: nat, s: seq<byte>): (r: Option<(nat, seq<byte>)>) {
    if |s| < n then None else Some((FromLE(s[..n]), s[n..]))
  }

  lemma LastByte(b: byte)
    ensures FromLE([b]) == b
  {
    assert [b][1..] == [];
  }

  /** The lowest byte comes first. */
  lemma LowestFirst(a: byte, b: byte, c: byte, d: byte)
    ensures FromLE([a, b]) == a + 0x100 * b
    ensures FromLE([a, b, c, d]) == a + 0x100 * b + 0x1_0000 * c + 0x100_0000 * d
  {
    LastByte(b);
    LastByte(d);
    assert [a, b][1..] == [b] && [c, d][1..] == [d] && [b, c, d][1..] == [c, d] && [a, b, c, d][1..] == [b, c, d];
    assert FromLE([c, d]) == c + 0x100 * d;
    assert FromLE([b, c, d]) == b + 0x100 * FromLE([c, d]);
  }

  lemma {:induction false} FromToLE(n: nat, v: nat)
    requires v < Pow256(n)
    ensures FromLE(ToLE(n, v)) == v
  {
    if n > 0 {
      FromToLE(n - 1, v / 256);
      assert ToLE(n, v)[1..] == ToLE(n - 1, v / 256);
    }
  }

  lemma FirstByte(b: byte, rest: nat)
    ensures (b + 256 * rest) % 256 == b && (b + 256 * rest) / 256 == rest
  {
  }

  lemma {:induction false} ToFromLE(s: seq<byte>)
    ensures FromLE(s) < Pow256(|s|)
    ensures ToLE(|s|, FromLE(s)) == s
  {
    if s != [] {
      ToFromLE(s[1..]);
      FirstByte(s[0], FromLE(s[1..]));
      assert ToLE(|s|, FromLE(s)) == [s[0]] + ToLE(|s| - 1, FromLE(s[1..]));
    }
  }

  /** Reading back what was written, whatever follows. */
  lemma TakeWritten(n: nat, v: nat, rest: seq<byte>)
    requires v < Pow256(n)
    ensures TakeInt(n, ToLE(n, v) + rest) == Some((v, rest))
  {
    FromToLE(n, v);
    assert (ToLE(n, v) + rest)[..n] == ToLE(n, v);
    assert (ToLE(n, v) + rest)[n..] == rest;
  }

  /** What was read was written. */
  lemma TakenIsWritten(n: nat, s: seq<byte>)
    requires TakeInt(n, s).Some?
    ensures var (v, rest) := TakeInt(n, s).value;
            v < Pow256(n) && s == ToLE(n, v) + rest
  {
    ToFromLE(s[..n]);
    assert s == s[..n] + s[n..];
  }

  lemma Pow256Values()
    ensures Pow256(1) == 0x100 && Pow256(2) == 0x1_0000 && Pow256(4) == 0x1_0000_0000
    ensures Pow256(8) == 0x1_0000_0000_0000_0000
  {
    assert Pow256(3) == 0x100_0000;
    assert Pow256(5) == 0x100_0000_0000;
    assert Pow256(6) == 0x1_0000_0000_0000;
    assert Pow256(7) == 0x100_0000_0000_0000;
  }
}
