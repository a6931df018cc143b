/** Which colour a player's name gets: a palette, then generated light colours no other name has
    (Code/ui_models/UiModels.cpp). */
module PlayerColors {
  import opened Basics
  import opened Bytes
  import opened Fnv1a

  /** A name's bytes. */
  type Name = seq<byte>

  const PALETTE: seq<string> := ["#64b5ff", "#65f08c", "#ffad4a", "#c78aff", "#ff79be", "#54e1ef",
                                 "#ffe36b", "#ff7d75", "#b7eb49", "#8f9dff", "#f5a5ff", "#4ef0c8"]

  const MULTIPLIER: nat := 0x9e37_79b9

  /** The light colours: 7 bits of each component, the high bit set. */
  const LIGHT_COLORS: nat := 0x20_0000

  function Hash(name: Name): nat {
    if name == [] then BASIS else Round(Hash(name[..|name| - 1]), name[|name| - 1])
  }

  function Digit(v: nat): char
    requires v < 16
  {
    "0123456789abcdef"[v]
  }

  /** printf's %02x. */
  function Hex2(v: nat): (s: string)
    requires v < 256
    ensures |s| == 2
  {
    [Digit(v / 16), Digit(v % 16)]
  }

  function Text(r: nat, g: nat, b: nat): (s: string)
    requires r < 256 && g < 256 && b < 256
    ensures |s| == 7
  {
    ['#'] + Hex2(r) + Hex2(g) + Hex2(b)
  }

  /** The 32-bit value tried at an offset. */
  function Rgb(hash: nat, offset: nat): nat {
    (hash + offset * MULTIPLIER) % U32
  }

  function Generated(rgb: nat): string {
    Text(128 + (rgb / 0x4000) % 128, 128 + (rgb / 0x80) % 128, 128 + rgb % 128)
  }

  function Tried(hash: nat, offset: nat): string {
    Generated(Rgb(hash, offset))
  }

  predicate Available(colors: map<Name, string>, color: string) {
    color !in colors.Values
  }

  /** The first available colour from an offset on, of the 2^21 offsets that try different ones. */
  function FirstAvailable(colors: map<Name, string>, hash: nat, offset: nat): (r: Option<nat>)
    requires offset <= LIGHT_COLORS
    ensures r.Some? ==> offset <= r.value < LIGHT_COLORS && Available(colors, Tried(hash, r.value))
    decreases LIGHT_COLORS - offset
  {
    if offset == LIGHT_COLORS then None
    else if Available(colors, Tried(hash, offset)) then Some(offset)
    else FirstAvailable(colors, hash, offset + 1)
  }

  /** The colour of a name: None when the search would not end. */
  function ColorFor(colors: map<Name, string>, name: Name): (r: Option<string>) {
    if name in colors then Some(colors[name])
    else if |colors| < |PALETTE| then Some(PALETTE[|colors|])
    else match FirstAvailable(colors, Hash(name), 0)
         case None => None
         case Some(offset) => Some(Tried(Hash(name), offset))
  }

  /** One registry per UI session. */
  class Registry {
    var colors: map<Name, string>

    constructor ()
      ensures colors == map[]
    {
      colors := map[];
    }

    /** Its colour, the same at every call. */
    method ForName(name: Name) returns (color: string)
      requires ColorFor(colors, name).Some?
      modifies this
      ensures ColorFor(old(colors), name) == Some(color)
      ensures colors == old(colors)[name := color]
    {
      if name in colors {
        color := colors[name];
        assert colors == colors[name := color];
        return;
      }
      if |colors| < |PALETTE| {
        color := PALETTE[|colors|];
        colors := colors[name := color];
        return;
      }
      var hash := HashName(name);
      color := Search(hash);
      colors := colors[name := color];
    }

    /** The loop that tries one offset after another. */
    method Search(hash: nat) returns (color: string)
      requires FirstAvailable(colors, hash, 0).Some?
      ensures color == Tried(hash, FirstAvailable(colors, hash, 0).value)
    {
      var offset: nat := 0;
      while true
        invariant offset < LIGHT_COLORS
        invariant FirstAvailable(colors, hash, offset) == FirstAvailable(colors, hash, 0)
        decreases LIGHT_COLORS - offset
      {
        color := Tried(hash, offset);
        if color !in colors.Values {
          return;
        }
        offset := offset + 1;
      }
    }
  }

  method HashName(name: Name) returns (hash: nat)
    ensures hash == Hash(name)
  {
    hash := BASIS;
    var i := 0;
    while i < |name|
      invariant 0 <= i <= |name|
      invariant hash == Hash(name[..i])
    {
      assert name[..i + 1][..i] == name[..i];
      hash := Xor(hash, name[i]) * PRIME % U32;
      i := i + 1;
    }
    assert name[..i] == name;
  }
}
