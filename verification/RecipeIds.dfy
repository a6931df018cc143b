/** A recipe's id is the FNV-1a hash of its poison flag and sorted effects as bytes; it tells a poison from a potion. */
module RecipeIds {
  import opened Bytes
  import opened Fnv1a
  import opened RecipeBook
  import opened RecipeBookProofs

  // ----- A recipe's bytes -----

  /** A value's four bytes, lowest first; a negative one's as two's complement. */
  function ValueBytes(v: int): (s: seq<byte>)
    ensures |s| == 4
  {
    ToLE(4, v % U32)
  }

  function KeyBytes(key: seq<int>): seq<byte>
    decreases |key|
  {
    if key == [] then [] else ValueBytes(key[0]) + KeyBytes(key[1..])
  }

  function AllBytes(keys: seq<seq<int>>): seq<byte>
    decreases |keys|
  {
    if keys == [] then [] else KeyBytes(keys[0]) + AllBytes(keys[1..])
  }

  lemma FourBytes(v: int)
    ensures ValueBytes(v) == [v % 256, v / 256 % 256, v / 65536 % 256, v / 16777216 % 256]
  {
    var u := v % U32;
    OneByteOf(v);
    assert ToLE(4, u) == [u % 256] + ToLE(3, u / 256);
    assert ToLE(3, u / 256) == [u / 256 % 256] + ToLE(2, u / 65536);
    assert ToLE(2, u / 65536) == [u / 65536 % 256] + ToLE(1, u / 16777216);
    assert ToLE(1, u / 16777216) == [u / 16777216 % 256] + ToLE(0, u / 16777216 / 256);
  }

  /** A value's low 32 bits have its lower bytes. */
  lemma OneByteOf(v: int)
    ensures var u := v % U32;
            && u % 256 == v % 256 && u / 256 % 256 == v / 256 % 256
            && u / 65536 % 256 == v / 65536 % 256 && u / 16777216 % 256 == v / 16777216 % 256
            && u / 256 / 256 == u / 65536 && u / 65536 / 256 == u / 16777216
  {
    var u, q := v % U32, v / U32;
    First(u, q);
    Second(u, q);
    Third(u, q);
    Fourth(u, q);
    Twice(u);
  }

  lemma Twice(u: nat)
    ensures u / 256 / 256 == u / 65536 && u / 65536 / 256 == u / 16777216
  {
  }

  lemma First(u: nat, q: int)
    ensures (u + q * 0x1_0000_0000) % 256 == u % 256
  {
  }

  lemma Second(u: nat, q: int)
    ensures (u + q * 0x1_0000_0000) / 256 % 256 == u / 256 % 256
  {
    Over256(u, q * 0x100_0000);
    Whole(u / 256, q * 0x1_0000);
  }

  lemma Third(u: nat, q: int)
    ensures (u + q * 0x1_0000_0000) / 65536 % 256 == u / 65536 % 256
  {
    Over65536(u, q * 0x1_0000);
    Whole(u / 65536, q * 0x100);
  }

  lemma Fourth(u: nat, q: int)
    ensures (u + q * 0x1_0000_0000) / 16777216 % 256 == u / 16777216 % 256
  {
    Over16777216(u, q * 0x100);
    Whole(u / 16777216, q);
  }

  lemma Over256(u: nat, x: int)
    ensures (u + 256 * x) / 256 == u / 256 + x
  {
  }

  lemma Over65536(u: nat, x: int)
    ensures (u + 65536 * x) / 65536 == u / 65536 + x
  {
  }

  lemma Over16777216(u: nat, x: int)
    ensures (u + 16777216 * x) / 16777216 == u / 16777216 + x
  {
  }

  lemma Whole(x: int, y: int)
    ensures (x + 256 * y) % 256 == x % 256
  {
  }

  lemma FromFour(hash: nat, a: byte, b: byte, c: byte, d: byte)
    ensures From(hash, [a, b, c, d]) == Round(Round(Round(Round(hash, a), b), c), d)
  {
    hide Round;
    var h1 := Round(hash, a);
    var h2 := Round(h1, b);
    var h3 := Round(h2, c);
    assert [a, b, c, d][1..] == [b, c, d] && [b, c, d][1..] == [c, d] && [c, d][1..] == [d] && [d][1..] == [];
    assert From(hash, [a, b, c, d]) == From(h1, [b, c, d]);
    assert From(h1, [b, c, d]) == From(h2, [c, d]);
    assert From(h2, [c, d]) == From(h3, [d]);
    assert From(h3, [d]) == From(Round(h3, d), []);
  }

  lemma MixIs(hash: nat, v: int)
    ensures Mix(hash, v) == From(hash, ValueBytes(v))
  {
    hide Round, ValueBytes;
    FourBytes(v);
    FromFour(hash, v % 256, v / 256 % 256, v / 65536 % 256, v / 16777216 % 256);
  }

  lemma {:induction false} MixAllIs(hash: nat, values: seq<int>)
    requires hash < U32
    ensures MixAll(hash, values) == From(hash, KeyBytes(values))
    decreases |values|
  {
    hide Mix, ValueBytes;
    if values != [] {
      MixIs(hash, values[0]);
      MixAllIs(Mix(hash, values[0]), values[1..]);
      FromOn(hash, ValueBytes(values[0]), KeyBytes(values[1..]));
    }
  }

  lemma {:induction false} MixKeysIs(hash: nat, keys: seq<seq<int>>)
    requires hash < U32
    ensures MixKeys(hash, keys) == From(hash, AllBytes(keys))
    decreases |keys|
  {
    hide MixAll, KeyBytes;
    if keys != [] {
      MixAllIs(hash, keys[0]);
      MixKeysIs(MixAll(hash, keys[0]), keys[1..]);
      FromOn(hash, KeyBytes(keys[0]), AllBytes(keys[1..]));
    }
  }

  function FlagBytes(poison: bool): seq<byte> {
    if poison then [1, 0, 0, 0] else [0, 0, 0, 0]
  }

  lemma HashIs(r: Recipe)
    ensures Id(r).mod == 0xFFFF_FFFE
    ensures Id(r).base == Fnv(FlagBytes(r.poison) + AllBytes(Sorted(Keys(r.effects))))
  {
    hide Mix, MixKeys, ValueBytes, AllBytes, From, Sorted, Keys;
    var flag, keys := if r.poison then 1 else 0, Sorted(Keys(r.effects));
    FourBytes(flag);
    MixIs(BASIS, flag);
    MixKeysIs(Mix(BASIS, flag), keys);
    FromOn(BASIS, ValueBytes(flag), AllBytes(keys));
  }

  // ----- The same, told of the effects themselves -----

  /** An effect's bytes: plugin, form, magnitude, area and duration. */
  function EffectBytes(e: Effect): seq<byte> {
    ValueBytes(e.id.mod) + ValueBytes(e.id.base) + ValueBytes(e.magnitude) + ValueBytes(e.area) + ValueBytes(e.duration)
  }

  function EffectsBytes(effects: seq<Effect>): seq<byte> {
    if effects == [] then [] else EffectBytes(effects[0]) + EffectsBytes(effects[1..])
  }

  /** e comes before f: by plugin, form, magnitude, area, duration. */
  predicate Before(e: Effect, f: Effect) {
    || e.id.mod < f.id.mod
    || (e.id.mod == f.id.mod && (e.id.base < f.id.base
    || (e.id.base == f.id.base && (e.magnitude < f.magnitude
    || (e.magnitude == f.magnitude && (e.area < f.area
    || (e.area == f.area && e.duration < f.duration)))))))
  }

  ghost predicate InOrder(effects: seq<Effect>) {
    forall i, j {:trigger effects[i], effects[j]} :: 0 <= i < j < |effects| ==> !Before(effects[j], effects[i])
  }

  lemma BeforeIs(e: Effect, f: Effect)
    ensures AtMost(Key(e), Key(f)) <==> !Before(f, e)
  {
    var a, b := Key(e), Key(f);
    Less(a, b, 0);
    Less(a, b, 1);
    Less(a, b, 2);
    Less(a, b, 3);
    Less(a, b, 4);
    assert a[5..] == [] && b[5..] == [];
  }

  lemma Less(a: seq<int>, b: seq<int>, k: nat)
    requires k < |a| == |b|
    ensures AtMost(a[k..], b[k..]) <==> a[k] < b[k] || (a[k] == b[k] && AtMost(a[k + 1..], b[k + 1..]))
  {
    assert a[k..][0] == a[k] && b[k..][0] == b[k] && a[k..][1..] == a[k + 1..] && b[k..][1..] == b[k + 1..];
  }

  lemma KeyBytesAre(e: Effect)
    ensures KeyBytes(Key(e)) == EffectBytes(e)
  {
    hide ValueBytes;
    var k := Key(e);
    assert KeyBytes(k[5..]) == [];
    assert KeyBytes(k[4..]) == ValueBytes(e.duration) + KeyBytes(k[4..][1..]) && k[4..][1..] == k[5..];
    assert KeyBytes(k[3..]) == ValueBytes(e.area) + KeyBytes(k[3..][1..]) && k[3..][1..] == k[4..];
    assert KeyBytes(k[2..]) == ValueBytes(e.magnitude) + KeyBytes(k[2..][1..]) && k[2..][1..] == k[3..];
    assert KeyBytes(k[1..]) == ValueBytes(e.id.base) + KeyBytes(k[1..][1..]) && k[1..][1..] == k[2..];
    assert KeyBytes(k) == ValueBytes(e.id.mod) + KeyBytes(k[1..]);
  }

  lemma {:induction false} AllBytesAre(effects: seq<Effect>)
    ensures AllBytes(Keys(effects)) == EffectsBytes(effects)
  {
    hide KeyBytes, EffectBytes;
    if effects != [] {
      KeyBytesAre(effects[0]);
      AllBytesAre(effects[1..]);
      assert Keys(effects)[1..] == Keys(effects[1..]);
    }
  }

  lemma {:induction false} KeysAt(effects: seq<Effect>)
    ensures |Keys(effects)| == |effects| && forall i :: 0 <= i < |effects| ==> Keys(effects)[i] == Key(effects[i])
  {
    if effects != [] { KeysAt(effects[1..]); }
  }

  /** An effect put before the first that does not come before it. */
  lemma {:induction false} InsertedEffect(e: Effect, effects: seq<Effect>) returns (r: seq<Effect>)
    requires InOrder(effects)
    ensures Keys(r) == Insert(Key(e), Keys(effects)) && multiset(r) == multiset(effects) + multiset{e} && InOrder(r)
    decreases |effects|
  {
    hide Before, AtMost, Key;
    KeysAt(effects);
    if effects == [] {
      r := [e];
      assert r[1..] == [];
    } else {
      BeforeIs(e, effects[0]);
      if AtMost(Key(e), Keys(effects)[0]) {
        r := [e] + effects;
        assert r[1..] == effects;
        FirstInOrder(e, effects);
      } else {
        var rest := InsertedEffect(e, effects[1..]);
        r := [effects[0]] + rest;
        assert r[1..] == rest && effects == [effects[0]] + effects[1..];
        assert Keys(effects)[1..] == Keys(effects[1..]);
        StillInOrder(e, effects, rest);
      }
    }
  }

  lemma FirstInOrder(e: Effect, effects: seq<Effect>)
    requires InOrder(effects) && effects != [] && !Before(effects[0], e)
    ensures InOrder([e] + effects)
  {
    var r := [e] + effects;
    forall j | 0 < j < |r| ensures !Before(r[j], e) {
      if j > 1 { assert !Before(effects[j - 1], effects[0]); }
    }
  }

  lemma StillInOrder(e: Effect, effects: seq<Effect>, rest: seq<Effect>)
    requires InOrder(effects) && effects != [] && Before(effects[0], e)
    requires InOrder(rest) && multiset(rest) == multiset(effects[1..]) + multiset{e}
    ensures InOrder([effects[0]] + rest)
  {
    forall j | 0 <= j < |rest| ensures !Before(rest[j], effects[0]) {
      assert rest[j] in multiset(rest);
      if rest[j] != e {
        assert rest[j] in effects[1..];
        var k :| 0 <= k < |effects[1..]| && effects[1..][k] == rest[j];
        assert !Before(effects[k + 1], effects[0]);
      }
    }
  }

  lemma {:induction false} SortedEffects(effects: seq<Effect>) returns (r: seq<Effect>)
    ensures Keys(r) == Sorted(Keys(effects)) && multiset(r) == multiset(effects) && InOrder(r)
  {
    hide Insert, Key;
    if effects == [] {
      r := [];
    } else {
      var rest := SortedEffects(effects[1..]);
      r := InsertedEffect(effects[0], rest);
      assert effects == [effects[0]] + effects[1..] && Keys(effects)[1..] == Keys(effects[1..]);
    }
  }

  /** A recipe's id is of no plugin, and the FNV-1a hash of the poison flag and of its effects in order, as
      little-endian bytes. */
  lemma IdIsFnv(r: Recipe) returns (sorted: seq<Effect>)
    ensures multiset(sorted) == multiset(r.effects) && InOrder(sorted)
    ensures Id(r).mod == 0xFFFF_FFFE && Id(r).base == Fnv(FlagBytes(r.poison) + EffectsBytes(sorted))
    ensures forall id :: IsId(id) <==> id.mod == 0xFFFF_FFFE
  {
    hide Sorted, Keys, AllBytes, Fnv, Id, InOrder;
    HashIs(r);
    sorted := SortedEffects(r.effects);
    AllBytesAre(sorted);
  }

  // ----- Different ids -----

  /** A poison and a potion of the same effects have different ids. */
  lemma PoisonIsAnother(potion: Recipe, poison: Recipe)
    requires !potion.poison && poison.poison
    requires multiset(Uncosted(potion.effects)) == multiset(Uncosted(poison.effects))
    ensures Id(potion) != Id(poison)
  {
    hide Sorted, Keys, AllBytes, Fnv, Id, Key;
    SameKeysIff(potion.effects, poison.effects);
    SortedPermuted(Keys(potion.effects), Keys(poison.effects));
    HashIs(potion);
    HashIs(poison);
    var rest := AllBytes(Sorted(Keys(potion.effects)));
    OneByteApart([], 0, 1, [0, 0, 0] + rest);
    FlagFirst(rest);
  }

  lemma FlagFirst(rest: seq<byte>)
    ensures [] + [0] + ([0, 0, 0] + rest) == FlagBytes(false) + rest
    ensures [] + [1] + ([0, 0, 0] + rest) == FlagBytes(true) + rest
  {
  }
}
