/** FNV-1a on 32 bits: the hash behind a name's first color (Code/ui_models/UiModels.cpp) and a recipe's id
    (Code/encoding/Structs/Recipe.cpp). */
module Fnv1a {
  import opened Bytes

  const U32: nat := 0x1_0000_0000
  const BASIS: nat := 2166136261
  const PRIME: nat := 16777619

  /** Bit by bit, the lowest first. */
  function Xor(a: nat, b: nat): nat {
    if a == 0 && b == 0 then 0 else 2 * Xor(a / 2, b / 2) + (a + b) % 2
  }

  /** One byte hashed. */
  function Round(hash: nat, c: byte): (r: nat)
    ensures r < U32
  {
    Xor(hash, c) * PRIME % U32
  }

  function From(hash: nat, bytes: seq<byte>): nat
    decreases |bytes|
  {
    if bytes == [] then hash else From(Round(hash, bytes[0]), bytes[1..])
  }

  function Fnv(bytes: seq<byte>): nat {
    From(BASIS, bytes)
  }

  // ----- The published values -----

  /** The hashes of "", "a" and "ab". */
  lemma FnvValues()
    ensures Fnv([]) == 0x811c9dc5 && Fnv([0x61]) == 0xe40c292c && Fnv([0x61, 0x62]) == 0x4d2505ca
  {
    hide Round;
    FirstByte();
    SecondByte();
    assert [0x61, 0x62][1..] == [0x62];
  }

  lemma FirstByte()
    ensures Round(BASIS, 0x61) == 0xe40c292c
  {
    hide Xor;
    LowByte(BASIS / 256, 197, 0x61);
    LowBytes();
  }

  lemma SecondByte()
    ensures Round(0xe40c292c, 0x62) == 0x4d2505ca
  {
    hide Xor;
    LowByte(0xe40c292c / 256, 44, 0x62);
    LowBytes();
  }

  lemma LowBytes()
    ensures Xor(197, 0x61) == 164 && Xor(44, 0x62) == 78
  {
    assert Xor(1, 0) == 1 && Xor(3, 1) == 2 && Xor(6, 3) == 5 && Xor(12, 6) == 10 && Xor(24, 12) == 20;
    assert Xor(49, 24) == 41 && Xor(98, 48) == 82 && Xor(197, 97) == 164;
    assert Xor(0, 1) == 1 && Xor(1, 3) == 2 && Xor(2, 6) == 4 && Xor(5, 12) == 9 && Xor(11, 24) == 19;
    assert Xor(22, 49) == 39 && Xor(44, 98) == 78;
  }

  lemma NoBits(q: nat)
    ensures Xor(q, 0) == q
  {
    if q > 0 { NoBits(q / 2); }
  }

  /** A byte changes the low byte only. */
  lemma LowByte(q: nat, x: byte, c: byte)
    ensures Xor(256 * q + x, c) == 256 * q + Xor(x, c)
  {
    LowBits(q, x, c, 8, 256);
  }

  lemma XorBits(a: nat, b: nat)
    ensures Xor(a, b) == 2 * Xor(a / 2, b / 2) + (a + b) % 2
  {
  }

  lemma Doubled(h: nat, q: nat, x: nat, c: nat)
    ensures var v := 2 * h * q + x; v / 2 == h * q + x / 2 && (v + c) % 2 == (x + c) % 2
  {
    var y := h * q;
    assert 2 * h * q + x == 2 * y + x;
  }

  lemma {:induction false} LowBits(q: nat, x: nat, c: nat, bits: nat, span: nat)
    requires span == Pow2(bits) && x < span && c < span
    ensures Xor(span * q + x, c) == span * q + Xor(x, c)
  {
    hide Xor;
    if bits == 0 {
      NoBits(q);
      NoBits(x);
    } else {
      var h := Pow2(bits - 1);
      LowBits(q, x / 2, c / 2, bits - 1, h);
      Doubled(h, q, x, c);
      XorBits(span * q + x, c);
      XorBits(x, c);
    }
  }

  function Pow2(n: nat): nat {
    if n == 0 then 1 else 2 * Pow2(n - 1)
  }

  // ----- Different hashes stay different -----

  lemma {:induction false} FromOn(hash: nat, a: seq<byte>, b: seq<byte>)
    ensures From(hash, a + b) == From(From(hash, a), b)
    decreases |a|
  {
    hide Round;
    if a == [] {
      assert a + b == b;
    } else {
      assert (a + b)[1..] == a[1..] + b;
      FromOn(Round(hash, a[0]), a[1..], b);
    }
  }

  lemma {:induction false} XorApart(a: nat, b: nat, c: nat)
    requires Xor(a, c) == Xor(b, c) || Xor(c, a) == Xor(c, b)
    ensures a == b
    decreases a + b + c
  {
    hide Xor;
    XorBits(a, c);
    XorBits(b, c);
    XorBits(c, a);
    XorBits(c, b);
    if a != 0 || b != 0 { XorApart(a / 2, b / 2, c / 2); }
  }

  lemma {:induction false} XorBelow(a: nat, b: nat, bits: nat)
    requires a < Pow2(bits) && b < Pow2(bits)
    ensures Xor(a, b) < Pow2(bits)
    decreases bits
  {
    if bits > 0 { XorBelow(a / 2, b / 2, bits - 1); }
  }

  lemma XorWord(v: nat, c: byte)
    requires v < U32
    ensures Xor(v, c) < U32
  {
    assert Pow2(8) == 256 && Pow2(16) == 0x1_0000 && Pow2(24) == 0x100_0000 && Pow2(32) == U32;
    XorBelow(v, c, 32);
  }

  /** The prime's inverse modulo 2^32: it is odd. */
  const INVERSE: nat := 899433627
  const INVERSE_QUOTIENT: nat := 3513497

  lemma PrimeInjective(x: nat, y: nat)
    requires x < U32 && y < U32 && x * PRIME % U32 == y * PRIME % U32
    ensures x == y
  {
    var m := x * PRIME / U32 - y * PRIME / U32;
    var d := x - y;
    assert d * PRIME == m * U32;
    assert PRIME * INVERSE == 1 + INVERSE_QUOTIENT * U32;
    assert d * PRIME * INVERSE == d + d * INVERSE_QUOTIENT * U32;
    var k := m * INVERSE - d * INVERSE_QUOTIENT;
    assert d == k * U32;
    assert k == 0;
  }

  /** A round loses nothing: not of the hash, for one byte, */
  lemma RoundApart(a: nat, b: nat, c: byte)
    requires a < U32 && b < U32 && Round(a, c) == Round(b, c)
    ensures a == b
  {
    hide Xor;
    XorWord(a, c);
    XorWord(b, c);
    PrimeInjective(Xor(a, c), Xor(b, c));
    XorApart(a, b, c);
  }

  /** nor of the byte, for one hash. */
  lemma BytesApart(hash: nat, c: byte, d: byte)
    requires hash < U32 && Round(hash, c) == Round(hash, d)
    ensures c == d
  {
    hide Xor;
    XorWord(hash, c);
    XorWord(hash, d);
    PrimeInjective(Xor(hash, c), Xor(hash, d));
    XorApart(c, d, hash);
  }

  /** The same bytes keep different hashes different. */
  lemma {:induction false} FromApart(a: nat, b: nat, bytes: seq<byte>)
    requires a < U32 && b < U32 && From(a, bytes) == From(b, bytes)
    ensures a == b
    decreases |bytes|
  {
    hide Round;
    if bytes != [] {
      FromApart(Round(a, bytes[0]), Round(b, bytes[0]), bytes[1..]);
      RoundApart(a, b, bytes[0]);
    }
  }

  /** Two texts that differ in one byte have different hashes. */
  lemma OneByteApart(before: seq<byte>, c: byte, d: byte, after: seq<byte>)
    requires c != d
    ensures Fnv(before + [c] + after) != Fnv(before + [d] + after)
  {
    hide Round;
    var hash := Fnv(before);
    FromBelow(BASIS, before);
    FromOn(BASIS, before + [c], after);
    FromOn(BASIS, before, [c]);
    FromOn(BASIS, before + [d], after);
    FromOn(BASIS, before, [d]);
    assert From(hash, [c]) == Round(hash, c) && From(hash, [d]) == Round(hash, d);
    if Fnv(before + [c] + after) == Fnv(before + [d] + after) {
      FromApart(Round(hash, c), Round(hash, d), after);
      BytesApart(hash, c, d);
    }
  }

  lemma {:induction false} FromBelow(hash: nat, bytes: seq<byte>)
    requires hash < U32
    ensures From(hash, bytes) < U32
    decreases |bytes|
  {
    hide Round;
    if bytes != [] { FromBelow(Round(hash, bytes[0]), bytes[1..]); }
  }
}
