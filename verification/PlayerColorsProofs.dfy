/** The colour search ends exactly while a light colour is unused, soon while few names are known, and names keep
    different colours. */
module PlayerColorsProofs {
  import opened Basics
  import opened Fnv1a
  import opened PlayerColors

  // ----- The hash -----

  /** A name's hash is FNV-1a of its bytes. */
  lemma {:induction false} HashIsFnv(name: Name)
    ensures Hash(name) == Fnv(name)
  {
    hide Round;
    if name != [] {
      var init, last := name[..|name| - 1], name[|name| - 1];
      HashIsFnv(init);
      FromOn(BASIS, init, [last]);
      assert init + [last] == name && [last][1..] == [];
    }
  }

  // ----- Texts -----

  lemma DigitsDiffer(a: nat, b: nat)
    requires a < 16 && b < 16 && Digit(a) == Digit(b)
    ensures a == b
  {
    var digits := "0123456789abcdef";
    assert digits == ['0', '1', '2', '3', '4', '5', '6', '7', '8', '9', 'a', 'b', 'c', 'd', 'e', 'f'];
  }

  lemma Hex2Differ(a: nat, b: nat)
    requires a < 256 && b < 256 && Hex2(a) == Hex2(b)
    ensures a == b
  {
    assert Hex2(a)[0] == Hex2(b)[0] && Hex2(a)[1] == Hex2(b)[1];
    DigitsDiffer(a / 16, b / 16);
    DigitsDiffer(a % 16, b % 16);
  }

  lemma TextParts(head: string, a: string, b: string, c: string)
    requires |head| == 1 && |a| == |b| == |c| == 2
    ensures var s := head + a + b + c; s[1..3] == a && s[3..5] == b && s[5..7] == c
  {
  }

  lemma TextsDiffer(r: nat, g: nat, b: nat, r': nat, g': nat, b': nat)
    requires r < 256 && g < 256 && b < 256 && r' < 256 && g' < 256 && b' < 256
    requires Text(r, g, b) == Text(r', g', b')
    ensures r == r' && g == g' && b == b'
  {
    TextParts(['#'], Hex2(r), Hex2(g), Hex2(b));
    TextParts(['#'], Hex2(r'), Hex2(g'), Hex2(b'));
    Hex2Differ(r, r');
    Hex2Differ(g, g');
    Hex2Differ(b, b');
  }

  /** A text of lower-case hexadecimal digits read as a number. */
  function FromHex(text: string): Option<nat> {
    if text == [] then Some(0)
    else
      var last := text[|text| - 1];
      match FromHex(text[..|text| - 1])
      case None => None
      case Some(v) =>
        if '0' <= last <= '9' then Some(16 * v + (last - '0') as nat)
        else if 'a' <= last <= 'f' then Some(16 * v + 10 + (last - 'a') as nat)
        else None
  }

  lemma DigitRead(v: nat)
    requires v < 16
    ensures v < 10 ==> '0' <= Digit(v) <= '9' && (Digit(v) - '0') as nat == v
    ensures v >= 10 ==> 'a' <= Digit(v) <= 'f' && 10 + (Digit(v) - 'a') as nat == v
  {
    var digits := "0123456789abcdef";
    assert digits == ['0', '1', '2', '3', '4', '5', '6', '7', '8', '9', 'a', 'b', 'c', 'd', 'e', 'f'];
  }

  lemma DigitAdds(text: string, v: nat)
    requires v < 16
    ensures FromHex(text + [Digit(v)])
         == if FromHex(text).Some? then Some(16 * FromHex(text).value + v) else None
  {
    hide Digit;
    DigitRead(v);
    var s := text + [Digit(v)];
    assert s[..|s| - 1] == text && s[|s| - 1] == Digit(v);
  }

  lemma HexRead(text: string, v: nat)
    requires v < 256
    ensures FromHex(text + Hex2(v)) == if FromHex(text).Some? then Some(256 * FromHex(text).value + v) else None
  {
    hide Digit, FromHex;
    DigitAdds(text, v / 16);
    DigitAdds(text + [Digit(v / 16)], v % 16);
    assert text + Hex2(v) == (text + [Digit(v / 16)]) + [Digit(v % 16)];
  }

  /** A generated color is # and six hexadecimal digits; the number they say is 0x808080 and the three lowest sevens of
      the value's bits, one in each byte. */
  lemma GeneratedSays(rgb: nat)
    ensures Generated(rgb)[0] == '#' && |Generated(rgb)| == 7
    ensures FromHex(Generated(rgb)[1..])
         == Some(0x80_8080 + rgb / 0x4000 % 128 * 0x1_0000 + rgb / 0x80 % 128 * 0x100 + rgb % 128)
  {
    hide Hex2, FromHex;
    var r, g, b := 128 + (rgb / 0x4000) % 128, 128 + (rgb / 0x80) % 128, 128 + rgb % 128;
    var none: string := [];
    assert Generated(rgb)[1..] == none + Hex2(r) + Hex2(g) + Hex2(b);
    NoHex();
    HexRead(none, r);
    HexRead(none + Hex2(r), g);
    HexRead(none + Hex2(r) + Hex2(g), b);
  }

  lemma NoHex()
    ensures FromHex([]) == Some(0)
  {
  }

  // ----- Light colours -----

  lemma LightsDiffer(v: nat, u: nat)
    requires v < LIGHT_COLORS && u < LIGHT_COLORS && Generated(v) == Generated(u)
    ensures v == u
  {
    hide Text;
    TextsDiffer(128 + (v / 0x4000) % 128, 128 + (v / 0x80) % 128, 128 + v % 128,
                128 + (u / 0x4000) % 128, 128 + (u / 0x80) % 128, 128 + u % 128);
    Recomposed(v);
    Recomposed(u);
  }

  lemma Recomposed(v: nat)
    requires v < LIGHT_COLORS
    ensures v == (v / 0x4000) % 128 * 0x4000 + (v / 0x80) % 128 * 0x80 + v % 128
  {
    assert v / 0x4000 == v / 0x80 / 128 && v / 0x4000 < 128;
  }

  lemma DivShift(x: nat, v: nat)
    ensures (x * 0x80 + v) / 0x80 == x + v / 0x80
    ensures (x * 0x4000 + v) / 0x4000 == x + v / 0x4000
  {
  }

  lemma ModShift(x: nat, v: nat)
    ensures (x * 128 + v) % 128 == v % 128
  {
  }

  /** A multiple of 2^21 changes none of the three components. */
  lemma SameBits(q: nat, v: nat)
    ensures var rgb := q * LIGHT_COLORS + v;
            (rgb / 0x4000) % 128 == (v / 0x4000) % 128 && (rgb / 0x80) % 128 == (v / 0x80) % 128 && rgb % 128 == v % 128
  {
    var rgb, a, b, c := q * LIGHT_COLORS + v, q * 128, q * 0x4000, q * 0x4000;
    assert rgb == a * 0x4000 + v && rgb == b * 0x80 + v && rgb == c * 128 + v;
    DivShift(a, v);
    DivShift(b, v);
    ModShift(q, v / 0x4000);
    ModShift(a, v / 0x80);
    ModShift(c, v);
  }

  /** A generated colour only shows the low 21 bits. */
  lemma GeneratedIsLight(rgb: nat)
    ensures Generated(rgb) == Generated(rgb % LIGHT_COLORS)
  {
    hide Text;
    var q, v := rgb / LIGHT_COLORS, rgb % LIGHT_COLORS;
    assert rgb == q * LIGHT_COLORS + v;
    SameBits(q, v);
  }

  /** The low 21 bits tried at an offset. */
  function Low(hash: nat, offset: nat): (v: nat)
    ensures v < LIGHT_COLORS
  {
    (hash + offset * MULTIPLIER) % LIGHT_COLORS
  }

  lemma TriedIsLight(hash: nat, offset: nat)
    ensures Tried(hash, offset) == Generated(Low(hash, offset))
  {
    hide Generated;
    var x := hash + offset * MULTIPLIER;
    GeneratedIsLight(x % U32);
    assert x == x / U32 * (2048 * LIGHT_COLORS) + x % U32;
    ModOfMultiple(x / U32 * 2048, x % U32);
  }

  lemma ModOfMultiple(k: nat, v: nat)
    ensures (k * LIGHT_COLORS + v) % LIGHT_COLORS == v % LIGHT_COLORS
  {
  }

  /** The multiplier's inverse modulo 2^21: it is odd. */
  const INVERSE: nat := 834697
  const INVERSE_QUOTIENT: nat := 1056504046

  /** The odd multiplier makes offsets differ on the low 21 bits. */
  lemma OffsetsDiffer(hash: nat, o: nat, p: nat)
    requires o < LIGHT_COLORS && p < LIGHT_COLORS && Low(hash, o) == Low(hash, p)
    ensures o == p
  {
    var x, y := hash + o * MULTIPLIER, hash + p * MULTIPLIER;
    var m := x / LIGHT_COLORS - y / LIGHT_COLORS;
    assert x - y == m * LIGHT_COLORS;
    var d := o - p;
    assert d * MULTIPLIER == m * LIGHT_COLORS;
    assert MULTIPLIER * INVERSE == 1 + INVERSE_QUOTIENT * LIGHT_COLORS;
    assert d * MULTIPLIER * INVERSE == d + d * INVERSE_QUOTIENT * LIGHT_COLORS;
    var k := m * INVERSE - d * INVERSE_QUOTIENT;
    assert d == k * LIGHT_COLORS;
    assert k == 0;
  }

  lemma TriedDiffer(hash: nat, o: nat, p: nat)
    requires o < LIGHT_COLORS && p < LIGHT_COLORS && Tried(hash, o) == Tried(hash, p)
    ensures o == p
  {
    TriedIsLight(hash, o);
    TriedIsLight(hash, p);
    LightsDiffer(Low(hash, o), Low(hash, p));
    OffsetsDiffer(hash, o, p);
  }

  // ----- Counting -----

  ghost function Image(f: nat -> string, n: nat): set<string> {
    set i | 0 <= i < n :: f(i)
  }

  lemma {:induction false} ImageCount(f: nat -> string, n: nat)
    requires forall i, j :: 0 <= i < j < n ==> f(i) != f(j)
    ensures |Image(f, n)| == n
  {
    if n > 0 {
      ImageCount(f, n - 1);
      ImageNext(f, n - 1);
    }
  }

  lemma ImageNext(f: nat -> string, n: nat)
    requires forall i :: 0 <= i < n ==> f(i) != f(n)
    ensures Image(f, n + 1) == Image(f, n) + {f(n)} && f(n) !in Image(f, n)
  {
  }

  ghost function TriedAt(hash: nat): nat -> string {
    (o: nat) => Tried(hash, o)
  }

  ghost function LightAt(): nat -> string {
    (v: nat) => Generated(v)
  }

  /** All the light colours. */
  ghost function Lights(): set<string> {
    Image(LightAt(), LIGHT_COLORS)
  }

  lemma LightIn(v: nat)
    requires v < LIGHT_COLORS
    ensures Generated(v) in Lights()
  {
    hide Generated;
    assert LightAt()(v) == Generated(v);
  }

  lemma InLights(c: string) returns (v: nat)
    requires c in Lights()
    ensures v < LIGHT_COLORS && c == Generated(v)
  {
    hide Generated;
    v :| v < LIGHT_COLORS && LightAt()(v) == c;
  }

  lemma TriedCount(hash: nat, n: nat)
    requires n <= LIGHT_COLORS
    ensures |Image(TriedAt(hash), n)| == n
  {
    hide Tried;
    var f := TriedAt(hash);
    forall i, j | 0 <= i < j < n ensures f(i) != f(j) {
      if f(i) == f(j) { TriedDiffer(hash, i, j); assert false; }
    }
    ImageCount(f, n);
  }

  lemma LightsCount()
    ensures |Lights()| == LIGHT_COLORS
  {
    hide Generated;
    var f := LightAt();
    forall i, j | 0 <= i < j < LIGHT_COLORS ensures f(i) != f(j) {
      if f(i) == f(j) { LightsDiffer(i, j); assert false; }
    }
    ImageCount(f, LIGHT_COLORS);
  }

  /** The offsets below 2^21 try every light colour. */
  lemma TriesEveryLight(hash: nat)
    ensures Image(TriedAt(hash), LIGHT_COLORS) == Lights()
  {
    hide Tried, Generated, Low;
    TriedCount(hash, LIGHT_COLORS);
    LightsCount();
    forall c | c in Image(TriedAt(hash), LIGHT_COLORS) ensures c in Lights() {
      var o: nat :| o < LIGHT_COLORS && TriedAt(hash)(o) == c;
      TriedIsLight(hash, o);
      LightIn(Low(hash, o));
    }
    SubsetOfSameSize(Image(TriedAt(hash), LIGHT_COLORS), Lights());
  }

  lemma SubsetOfSameSize<T>(a: set<T>, b: set<T>)
    requires a <= b && |a| == |b|
    ensures a == b
  {
    assert b == a + (b - a);
    assert |b| == |a| + |b - a|;
  }

  lemma SubsetSize<T>(a: set<T>, b: set<T>)
    requires a <= b
    ensures |a| <= |b|
  {
    assert b == a + (b - a);
  }

  /** A map has at most as many values as keys. */
  lemma {:induction false} ValuesCount(m: map<Name, string>)
    ensures |m.Values| <= |m|
    ensures Injective(m) ==> |m.Values| == |m|
    decreases |m|
  {
    if m != map[] {
      var k :| k in m;
      var rest := m - {k};
      ValuesCount(rest);
      assert m.Values == rest.Values + {m[k]} by {
        forall v | v in m.Values ensures v in rest.Values + {m[k]} {
          var key :| key in m && m[key] == v;
          if key != k { assert key in rest && rest[key] == v; }
        }
      }
      assert Injective(m) ==> Injective(rest) && m[k] !in rest.Values;
    }
  }

  // ----- The search -----

  lemma {:induction false} FirstIsFirst(colors: map<Name, string>, hash: nat, from: nat, offset: nat)
    requires from <= offset < LIGHT_COLORS && Available(colors, Tried(hash, offset))
    ensures FirstAvailable(colors, hash, from).Some? && FirstAvailable(colors, hash, from).value <= offset
    decreases offset - from
  {
    if from < offset { FirstIsFirst(colors, hash, from + 1, offset); }
  }

  /** With n names known, fewer than 2^21, the search tries at most n + 1 offsets. */
  lemma SearchIsShort(colors: map<Name, string>, hash: nat)
    requires |colors| < LIGHT_COLORS
    ensures FirstAvailable(colors, hash, 0).Some? && FirstAvailable(colors, hash, 0).value <= |colors|
  {
    var tried := Image(TriedAt(hash), |colors| + 1);
    TriedCount(hash, |colors| + 1);
    ValuesCount(colors);
    if tried <= colors.Values {
      SubsetSize(tried, colors.Values);
      assert false;
    }
    var c :| c in tried && c !in colors.Values;
    var o: nat :| o < |colors| + 1 && TriedAt(hash)(o) == c;
    FirstIsFirst(colors, hash, 0, o);
  }

  /** An offset finds a colour available only if one below 2^21 does: the others try the same colours again. */
  lemma FoundBelow(colors: map<Name, string>, hash: nat, o: nat)
    requires Available(colors, Tried(hash, o))
    ensures FirstAvailable(colors, hash, 0).Some?
  {
    TriedIsLight(hash, o);
    LightIn(Low(hash, o));
    TriesEveryLight(hash);
    var p: nat :| p < LIGHT_COLORS && TriedAt(hash)(p) == Tried(hash, o);
    FirstIsFirst(colors, hash, 0, p);
  }

  /** The search ends if and only if some light colour is unused. */
  lemma SearchEndsIff(colors: map<Name, string>, hash: nat)
    ensures FirstAvailable(colors, hash, 0).Some? <==> !(Lights() <= colors.Values)
    ensures FirstAvailable(colors, hash, 0).Some? <==> exists o: nat :: Available(colors, Tried(hash, o))
  {
    forall o: nat | Available(colors, Tried(hash, o)) ensures FirstAvailable(colors, hash, 0).Some? {
      FoundBelow(colors, hash, o);
    }
    TriesEveryLight(hash);
    if FirstAvailable(colors, hash, 0).Some? {
      var o := FirstAvailable(colors, hash, 0).value;
      assert TriedAt(hash)(o) in Image(TriedAt(hash), LIGHT_COLORS);
    }
    if c :| c in Lights() && c !in colors.Values {
      var p: nat :| p < LIGHT_COLORS && TriedAt(hash)(p) == c;
      assert Available(colors, Tried(hash, p));
    }
  }

  // ----- Every registry -----

  ghost predicate Injective(colors: map<Name, string>) {
    forall a, b :: a in colors && b in colors && colors[a] == colors[b] ==> a == b
  }

  /** A registry after calls for these names, in this order: None if a call did not return. */
  ghost function After(names: seq<Name>): Option<map<Name, string>> {
    if names == [] then Some(map[])
    else match After(names[..|names| - 1])
         case None => None
         case Some(colors) =>
           match ColorFor(colors, names[|names| - 1])
           case None => None
           case Some(color) => Some(colors[names[|names| - 1] := color])
  }

  ghost function FirstOf(s: seq<string>, n: nat): set<string>
    requires n <= |s|
  {
    set i | 0 <= i < n :: s[i]
  }

  lemma FirstNext(s: seq<string>, n: nat)
    requires n < |s|
    ensures FirstOf(s, n + 1) == FirstOf(s, n) + {s[n]}
  {
  }

  ghost function PaletteSet(n: nat): set<string>
    requires n <= |PALETTE|
  {
    FirstOf(PALETTE, n)
  }

  /** The first twelve names have the palette, in order; the others have light colours. */
  ghost predicate Reached(colors: map<Name, string>) {
    && Injective(colors)
    && (if |colors| < 12 then colors.Values == PaletteSet(|colors|)
        else PaletteSet(12) <= colors.Values <= PaletteSet(12) + Lights())
  }

  lemma PaletteDiffers(i: nat, j: nat)
    requires i < j < 12
    ensures PALETTE[i] != PALETTE[j]
  {
    var reds := ["64", "65", "ff", "c7", "ff", "54", "ff", "ff", "b7", "8f", "f5", "4e"];
    assert forall k :: 0 <= k < 12 ==> PALETTE[k][1..3] == reds[k];
    assert PALETTE[2][3..5] == "ad" && PALETTE[4][3..5] == "79" && PALETTE[6][3..5] == "e3" && PALETTE[7][3..5] == "7d";
  }

  lemma {:induction false} PaletteCount(n: nat)
    requires n <= 12
    ensures |PaletteSet(n)| == n
  {
    if n > 0 {
      PaletteCount(n - 1);
      forall i | 0 <= i < n - 1 ensures PALETTE[i] != PALETTE[n - 1] { PaletteDiffers(i, n - 1); }
      FirstNext(PALETTE, n - 1);
    }
  }

  lemma NewValues(colors: map<Name, string>, name: Name, color: string)
    requires name !in colors
    ensures colors[name := color].Values == colors.Values + {color}
  {
    var m := colors[name := color];
    forall v | v in colors.Values + {color} ensures v in m.Values {
      if v in colors.Values {
        var a :| a in colors && colors[a] == v;
        assert a in m && m[a] == v;
      } else {
        assert name in m && m[name] == v;
      }
    }
  }

  lemma NewName(colors: map<Name, string>, name: Name, color: string)
    requires Injective(colors) && name !in colors && color !in colors.Values
    ensures Injective(colors[name := color]) && |colors[name := color]| == |colors| + 1
    ensures colors[name := color].Values == colors.Values + {color}
  {
    NewValues(colors, name, color);
    assert colors[name := color].Keys == colors.Keys + {name};
    forall a | a in colors ensures colors[a] != color {
      assert colors[a] in colors.Values;
    }
  }

  lemma PaletteIsNew(n: nat)
    requires n < 12
    ensures PALETTE[n] !in PaletteSet(n)
  {
    forall i | 0 <= i < n ensures PALETTE[i] != PALETTE[n] { PaletteDiffers(i, n); }
  }

  lemma ReachedNext(colors: map<Name, string>, name: Name)
    requires Reached(colors) && ColorFor(colors, name).Some?
    ensures Reached(colors[name := ColorFor(colors, name).value])
  {
    hide FirstAvailable, Tried, Hash, Lights;
    var color := ColorFor(colors, name).value;
    if name in colors {
      assert colors[name := color] == colors;
    } else if |colors| < 12 {
      PaletteIsNew(|colors|);
      NewName(colors, name, color);
      FirstNext(PALETTE, |colors|);
      if |colors| == 11 { assert colors[name := color].Values == PaletteSet(12); }
    } else {
      LightIsNew(colors, name);
    }
  }

  lemma LightIsNew(colors: map<Name, string>, name: Name)
    requires Reached(colors) && name !in colors && |colors| >= 12 && ColorFor(colors, name).Some?
    ensures Reached(colors[name := ColorFor(colors, name).value])
  {
    hide Tried, Low, Generated, Hash, PaletteSet, Lights;
    var color := ColorFor(colors, name).value;
    var offset := FirstAvailable(colors, Hash(name), 0).value;
    TriedIsLight(Hash(name), offset);
    LightIn(Low(Hash(name), offset));
    NewName(colors, name, color);
  }

  lemma {:induction false} AfterReached(names: seq<Name>)
    requires After(names).Some?
    ensures Reached(After(names).value)
  {
    if names != [] {
      var last := |names| - 1;
      AfterReached(names[..last]);
      ReachedNext(After(names[..last]).value, names[last]);
    } else {
      var none: map<Name, string> := map[];
      assert none.Values == PaletteSet(0);
    }
  }

  /** Over any calls, different names have different colours. */
  lemma NamesHaveOwnColors(names: seq<Name>)
    requires After(names).Some?
    ensures Injective(After(names).value)
    ensures forall name :: name in names <==> name in After(names).value
  {
    AfterReached(names);
    AfterNames(names);
  }

  lemma {:induction false} AfterNames(names: seq<Name>)
    requires After(names).Some?
    ensures forall name :: name in names <==> name in After(names).value
  {
    if names != [] {
      var last := |names| - 1;
      AfterNames(names[..last]);
      forall name ensures name in names <==> name in names[..last] || name == names[last] {
        if name in names { var i :| 0 <= i < |names| && names[i] == name; }
      }
    }
  }

  /** A name's colour never changes, whatever calls follow. */
  lemma {:induction false} ColorsStay(names: seq<Name>, k: nat, name: Name)
    requires k <= |names| && After(names).Some? && name in names[..k]
    ensures After(names[..k]).Some? && name in After(names[..k]).value && name in After(names).value
    ensures After(names).value[name] == After(names[..k]).value[name]
    decreases |names|
  {
    if k == |names| {
      assert names[..k] == names;
      AfterNames(names);
    } else {
      var last := |names| - 1;
      assert names[..last][..k] == names[..k];
      ColorsStay(names[..last], k, name);
    }
  }

  /** The first twelve names get the palette, in its order. */
  lemma PaletteFirst(names: seq<Name>, name: Name)
    requires After(names).Some? && name !in After(names).value && |After(names).value| < 12
    requires After(names + [name]).Some?
    ensures forall c :: c in After(names).value.Values ==> exists i :: 0 <= i < |After(names).value| && PALETTE[i] == c
    ensures After(names + [name]).value == After(names).value[name := PALETTE[|After(names).value|]]
  {
    AfterReached(names);
    AfterReached(names + [name]);
    var colors := After(names).value;
    assert (names + [name])[..|names|] == names && (names + [name])[|names|] == name;
    var more := After(names + [name]).value;
    assert more == colors[name := more[name]];
    assert |more| == |colors| + 1 by { assert more.Keys == colors.Keys + {name}; }
    hide After, ColorFor;
    NewValues(colors, name, more[name]);
    FirstNext(PALETTE, |colors|);
    PaletteIsNew(|colors|);
    assert PALETTE[|colors|] in more.Values;
  }

  // ----- How many names a registry can take -----

  lemma LightText(v: nat, i: nat)
    requires v < LIGHT_COLORS && i < 3
    ensures Generated(v)[1 + 2 * i] in ['8', '9', 'a', 'b', 'c', 'd', 'e', 'f']
  {
    var digits := "0123456789abcdef";
    var part := [128 + (v / 0x4000) % 128, 128 + (v / 0x80) % 128, 128 + v % 128][i];
    assert Generated(v)[1 + 2 * i] == Digit(part / 16);
    assert 8 <= part / 16 < 16;
    assert digits == ['0', '1', '2', '3', '4', '5', '6', '7', '8', '9', 'a', 'b', 'c', 'd', 'e', 'f'];
  }

  lemma PaletteText()
    ensures PALETTE[3] == Text(0xc7, 0x8a, 0xff) && PALETTE[9] == Text(0x8f, 0x9d, 0xff) &&
        PALETTE[10] == Text(0xf5, 0xa5, 0xff)
  {
  }

  lemma NotLight(i: nat)
    requires i < 12 && i != 3 && i != 9 && i != 10
    ensures PALETTE[i] !in Lights()
  {
    if PALETTE[i] in Lights() {
      var v := InLights(PALETTE[i]);
      LightText(v, 0);
      LightText(v, 1);
      LightText(v, 2);
      assert false;
    }
  }

  /** Exactly three palette colours are light ones. */
  lemma LightPalette()
    ensures PaletteSet(12) * Lights() == {PALETTE[3], PALETTE[9], PALETTE[10]}
  {
    PaletteText();
    LightOf(0xc7, 0x8a, 0xff);
    LightOf(0x8f, 0x9d, 0xff);
    LightOf(0xf5, 0xa5, 0xff);
    forall i | 0 <= i < 12 && i != 3 && i != 9 && i != 10 ensures PALETTE[i] !in Lights() {
      NotLight(i);
    }
  }

  lemma LightOf(r: nat, g: nat, b: nat)
    requires 128 <= r < 256 && 128 <= g < 256 && 128 <= b < 256
    ensures Text(r, g, b) in Lights()
  {
    hide Text;
    Components(r - 128, g - 128, b - 128);
    LightIn((r - 128) * 0x4000 + (g - 128) * 0x80 + (b - 128));
  }

  lemma Components(r: nat, g: nat, b: nat)
    requires r < 128 && g < 128 && b < 128
    ensures var v := r * 0x4000 + g * 0x80 + b; (v / 0x4000) % 128 == r && (v / 0x80) % 128 == g && v % 128 == b
  {
    var v := r * 0x4000 + g * 0x80 + b;
    assert v / 0x80 == r * 128 + g;
  }

  /** A registry that calls have reached takes a new name exactly while it knows fewer than 2^21 + 9 names. */
  lemma TakesNewNameIff(names: seq<Name>, name: Name)
    requires After(names).Some? && name !in After(names).value
    ensures ColorFor(After(names).value, name).Some? <==> |After(names).value| < LIGHT_COLORS + 9
  {
    hide After, Lights, PaletteSet, FirstAvailable, Tried, Hash;
    var colors := After(names).value;
    AfterReached(names);
    if |colors| >= 12 {
      SearchEndsIff(colors, Hash(name));
      var palette, lights := PaletteSet(12), Lights();
      PaletteCount(12);
      LightsCount();
      ValuesCount(colors);
      LightPalette();
      PaletteDiffers(3, 9);
      PaletteDiffers(3, 10);
      PaletteDiffers(9, 10);
      CountLights(colors.Values, palette, lights);
    }
  }

  lemma CountLights(values: set<string>, palette: set<string>, lights: set<string>)
    requires palette <= values <= palette + lights && |palette| == 12 && |palette * lights| == 3
    ensures lights <= values <==> |values| - 9 >= |lights|
  {
    var used := values * lights;
    assert values == palette + used;
    assert palette * used == palette * lights;
    assert |palette + used| + |palette * used| == |palette| + |used|;
    if lights <= values {
      assert used == lights;
    } else {
      assert used < lights;
      ProperSubsetSize(used, lights);
    }
  }

  lemma ProperSubsetSize<T>(a: set<T>, b: set<T>)
    requires a < b
    ensures |a| < |b|
  {
    assert b == a + (b - a);
    assert b - a != {};
  }

  // ----- A registry that calls fill up -----

  function ZeroBytes(length: nat): (name: Name)
    ensures |name| == length
  {
    seq(length, _ => 0)
  }

  /** That many different names. */
  ghost function FreshNames(n: nat): (names: seq<Name>)
    ensures |names| == n && forall name :: name in names ==> |name| < n
  {
    seq(n, i requires 0 <= i < n => ZeroBytes(i))
  }

  lemma FreshNext(n: nat)
    ensures FreshNames(n + 1) == FreshNames(n) + [ZeroBytes(n)]
  {
  }

  lemma OneMore(names: seq<Name>, name: Name)
    requires After(names).Some? && ColorFor(After(names).value, name).Some? && name !in After(names).value
    ensures After(names + [name]).Some? && |After(names + [name]).value| == |After(names).value| + 1
  {
    hide ColorFor;
    var all, colors := names + [name], After(names).value;
    assert all[..|all| - 1] == names && all[|all| - 1] == name;
    assert colors[name := ColorFor(colors, name).value].Keys == colors.Keys + {name};
  }

  lemma {:induction false} FillsUp(n: nat)
    requires n <= LIGHT_COLORS + 9
    ensures After(FreshNames(n)).Some? && |After(FreshNames(n)).value| == n
  {
    hide ColorFor, FreshNames, After;
    if n == 0 {
      NoCalls();
    } else {
      FillsUp(n - 1);
      AfterNames(FreshNames(n - 1));
      FreshNext(n - 1);
      TakesNewNameIff(FreshNames(n - 1), ZeroBytes(n - 1));
      OneMore(FreshNames(n - 1), ZeroBytes(n - 1));
    }
  }

  lemma NoCalls()
    ensures After(FreshNames(0)) == Some(map[])
  {
    assert FreshNames(0) == [];
  }

  /** Calls reach a registry with 2^21 + 9 names; of it a call for any new name does not return, and there is one. */
  lemma RegistryFills() returns (names: seq<Name>, name: Name)
    ensures After(names).Some? && |After(names).value| == LIGHT_COLORS + 9
    ensures name !in After(names).value && After(names + [name]).None?
    ensures forall other :: other !in After(names).value ==> ColorFor(After(names).value, other).None?
  {
    hide ColorFor, FreshNames;
    var n := LIGHT_COLORS + 9;
    FillsUp(n);
    names, name := FreshNames(n), ZeroBytes(n);
    AfterNames(names);
    forall other | other !in After(names).value ensures ColorFor(After(names).value, other).None? {
      TakesNewNameIff(names, other);
    }
    assert (names + [name])[..n] == names;
  }
}
