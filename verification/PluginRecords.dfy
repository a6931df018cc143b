/** A plugin file's records, written and read (scripts/build_start_room.py, with the `subrecords` of
    scripts/re/dialogue_conditions.py): length-prefixed fields in records in groups in groups. */
module PluginRecords {
  import opened Basics
  import opened Bytes

  const U16 := 0x1_0000
  const U32 := 0x1_0000_0000
  const I32 := 0x8000_0000

  /** A four-character code. */
  type Code = s: seq<byte> | |s| == 4 witness [0, 0, 0, 0]

  const GRUP: Code := [71, 82, 85, 80]
  const XXXX: Code := [88, 88, 88, 88]
  const COMPRESSED := 0x40000
  const HEADER := 24
  const CELL_CHILDREN := 6

  datatype Field = Field(kind: Code, data: seq<byte>)

  datatype Tree =
    | Record(kind: Code, form: nat, fields: seq<Field>, flags: nat)
    | Group(mark: Code, groupType: int, children: seq<Tree>)

  // ----- Written -----

  function WriteField(f: Field): Option<seq<byte>> {
    if |f.data| < U16 then Some(f.kind + ToLE(2, |f.data|) + f.data) else None
  }

  function Join(a: Option<seq<byte>>, b: Option<seq<byte>>): Option<seq<byte>> {
    if a.Some? && b.Some? then Some(a.value + b.value) else None
  }

  function WriteFields(fields: seq<Field>): Option<seq<byte>> {
    if fields == [] then Some([]) else Join(WriteField(fields[0]), WriteFields(fields[1..]))
  }

  function RecordHeader(kind: Code, size: nat, flags: nat, form: nat): (r: seq<byte>)
    ensures |r| == HEADER
  {
    kind + ToLE(4, size) + ToLE(4, flags) + ToLE(4, form) + ToLE(4, 0) + ToLE(2, 44) + ToLE(2, 0)
  }

  function GroupHeader(size: nat, mark: Code, groupType: nat): (r: seq<byte>)
    ensures |r| == HEADER
  {
    GRUP + ToLE(4, size) + mark + ToLE(4, groupType) + ToLE(2, 0) + ToLE(2, 0) + ToLE(4, 0)
  }

  function Unsigned(i: int): nat
    requires -I32 <= i < I32
  {
    if i < 0 then i + U32 else i
  }

  /** The bytes of a record or a group; None where a number does not fit its place. */
  function Write(t: Tree): Option<seq<byte>>
    decreases t, 0
  {
    match t
    case Record(kind, form, fields, flags) =>
      var body := WriteFields(fields);
      if body.Some? && |body.value| < U32 && flags < U32 && form < U32
      then Some(RecordHeader(kind, |body.value|, flags, form) + body.value)
      else None
    case Group(mark, groupType, children) =>
      var body := WriteAll(children);
      if body.Some? && |body.value| + HEADER < U32 && -I32 <= groupType < I32
      then Some(GroupHeader(|body.value| + HEADER, mark, Unsigned(groupType)) + body.value)
      else None
  }

  function WriteAll(trees: seq<Tree>): Option<seq<byte>>
    decreases trees
  {
    if trees == [] then Some([]) else Join(Write(trees[0]), WriteAll(trees[1..]))
  }

  // ----- Read -----

  datatype Leaf = Leaf(kind: Code, form: nat, flags: nat, cell: nat, fields: seq<Field>)

  /** How a reading ends: at the end, in a number past the data or a body that does not decompress, or never: it comes
      to a group of size 0, at which the loop stays for ever (HangsIff says that this is so). */
  datatype Stop = Done | Failed | Hangs

  /** zlib.decompress: the bytes, or None for its error. */
  type Inflate = seq<byte> -> Option<seq<byte>>

  /** What was read, and how it ended. */
  datatype Reading = Reading(leaves: seq<Leaf>, stop: Stop)

  /** A slice as Python's, cut at the data's end. */
  function Slice(s: seq<byte>, from: nat, until: nat): (r: seq<byte>) {
    if from >= |s| || until <= from then [] else s[from..if until < |s| then until else |s|]
  }

  function Int32At(s: seq<byte>, at: nat): nat
    requires at + 4 <= |s|
  {
    FromLE(s[at..at + 4])
  }

  /** A record's fields; None if a large field's size is past the end. `big`: the size an XXXX field gave the next. */
  function Fields(s: seq<byte>, i: nat, big: Option<nat>): Option<seq<Field>>
    decreases |s| - i
  {
    if i + 6 > |s| then Some([])
    else
      var kind, size := s[i..i + 4], FromLE(s[i + 4..i + 6]);
      if kind == XXXX then
        if i + 10 > |s| then None else Fields(s, i + 6 + size, Some(Int32At(s, i + 6)))
      else
        var size := if big.Some? then big.value else size;
        After([Field(kind, Slice(s, i + 6, i + 6 + size))], Fields(s, i + 6 + size, None))
  }

  predicate IsCompressed(flags: nat) {
    flags / COMPRESSED % 2 == 1
  }

  function Prepend(leaves: seq<Leaf>, r: Reading): Reading {
    r.(leaves := leaves + r.leaves)
  }

  /** The body of a record with these bytes: itself, or what it says it is compressed from after a number. */
  function Body(raw: seq<byte>, flags: nat, inflate: Inflate): Option<seq<byte>> {
    if IsCompressed(flags) then inflate(Slice(raw, 4, |raw|)) else Some(raw)
  }

  /** The fields of a record with these bytes. */
  function BodyFields(raw: seq<byte>, flags: nat, inflate: Inflate): Option<seq<Field>> {
    match Body(raw, flags, inflate)
    case None => None
    case Some(body) => Fields(body, 0, None)
  }

  /** The cell of a group's records: its label's, if they are a cell's children. */
  function CellInside(groupType: int, mark: nat, cell: nat): nat {
    if groupType == CELL_CHILDREN then mark else cell
  }

  /** The records from `start` on, up to `end`, in the cell whose children they are. */
  function Parse(data: seq<byte>, start: nat, end: nat, cell: nat, inflate: Inflate): Reading
    decreases |data| - start
  {
    if start >= end then Reading([], Done)
    else if start + 16 > |data| then Reading([], Failed)
    else
      var kind, size := data[start..start + 4], Int32At(data, start + 4);
      var first, second := Int32At(data, start + 8), Int32At(data, start + 12);
      if kind == GRUP then
        var inner := Parse(data, start + HEADER, start + size, CellInside(second, first, cell), inflate);
        if inner.stop != Done then inner
        else if size == 0 then Reading(inner.leaves, Hangs)
        else Prepend(inner.leaves, Parse(data, start + size, end, cell, inflate))
      else
        match BodyFields(Slice(data, start + HEADER, start + HEADER + size), first, inflate)
        case None => Reading([], Failed)
        case Some(fields) =>
          Prepend([Leaf(kind, second, first, cell, fields)], Parse(data, start + size + HEADER, end, cell, inflate))
  }

  // ----- Read with loops, as the source does -----

  /** Fields read so far and, if they are read, the rest. */
  function After(read: seq<Field>, rest: Option<seq<Field>>): Option<seq<Field>> {
    if rest.Some? then Some(read + rest.value) else None
  }

  lemma AfterOne(read: seq<Field>, f: Field, rest: Option<seq<Field>>)
    ensures After(read, After([f], rest)) == After(read + [f], rest)
  {
    if rest.Some? { assert read + ([f] + rest.value) == (read + [f]) + rest.value; }
  }

  lemma AfterFailed(read: seq<Field>)
    ensures After(read, None) == None
  {
  }

  lemma AfterNothing(fields: seq<Field>, rest: Option<seq<Field>>)
    ensures After([], rest) == rest && After(fields, Some([])) == Some(fields)
  {
    assert fields + [] == fields;
    if rest.Some? { assert [] + rest.value == rest.value; }
  }

  method ReadFields(s: seq<byte>) returns (fields: Option<seq<Field>>)
    ensures fields == Fields(s, 0, None)
  {
    hide Slice, FromLE, Int32At, After;
    var i: nat, big: Option<nat>, read: seq<Field> := 0, None, [];
    AfterNothing([], Fields(s, 0, None));
    while i + 6 <= |s|
      invariant Fields(s, 0, None) == After(read, Fields(s, i, big))
      decreases |s| - i
    {
      var kind, size := s[i..i + 4], FromLE(s[i + 4..i + 6]);
      i := i + 6;
      if kind == XXXX {
        if i + 4 > |s| {
          AfterFailed(read);
          return None;
        }
        big := Some(Int32At(s, i));
        i := i + size;
        continue;
      }
      if big.Some? {
        size, big := big.value, None;
      }
      AfterOne(read, Field(kind, Slice(s, i, i + size)), Fields(s, i + size, None));
      read := read + [Field(kind, Slice(s, i, i + size))];
      i := i + size;
    }
    AfterNothing(read, None);
    return Some(read);
  }

  lemma PrependNothing(r: Reading)
    ensures Prepend([], r) == r
  {
    assert [] + r.leaves == r.leaves;
  }

  lemma PrependStop(leaves: seq<Leaf>, stop: Stop)
    ensures Prepend(leaves, Reading([], stop)) == Reading(leaves, stop)
  {
    assert leaves + [] == leaves;
  }

  lemma PrependReading(leaves: seq<Leaf>, more: seq<Leaf>, stop: Stop)
    ensures Prepend(leaves, Reading(more, stop)) == Reading(leaves + more, stop)
  {
  }

  lemma PrependTwice(a: seq<Leaf>, b: seq<Leaf>, r: Reading)
    ensures Prepend(a, Prepend(b, r)) == Prepend(a + b, r)
  {
    assert a + (b + r.leaves) == (a + b) + r.leaves;
  }

  /** Ends with `Hangs` where the source's loop would go on for ever. */
  method Records(data: seq<byte>, from: nat, end: nat, cell: nat, inflate: Inflate) returns (r: Reading)
    ensures r == Parse(data, from, end, cell, inflate)
    decreases |data| - from, 0
  {
    hide Fields, Slice, FromLE, IsCompressed, Prepend, BodyFields, CellInside, Int32At;
    var start: nat, leaves: seq<Leaf> := from, [];
    PrependNothing(Parse(data, from, end, cell, inflate));
    while start < end
      invariant start >= from
      invariant Parse(data, from, end, cell, inflate) == Prepend(leaves, Parse(data, start, end, cell, inflate))
      decreases |data| - start
    {
      if start + 16 > |data| { PrependStop(leaves, Failed); return Reading(leaves, Failed); }
      var kind, size := data[start..start + 4], Int32At(data, start + 4);
      var first, second := Int32At(data, start + 8), Int32At(data, start + 12);
      if kind == GRUP {
        var inner := Records(data, start + HEADER, start + size, CellInside(second, first, cell), inflate);
        PrependTwice(leaves, inner.leaves, Parse(data, start + size, end, cell, inflate));
        PrependReading(leaves, inner.leaves, inner.stop);
        PrependReading(leaves, inner.leaves, Hangs);
        leaves := leaves + inner.leaves;
        if inner.stop != Done { return Reading(leaves, inner.stop); }
        if size == 0 { return Reading(leaves, Hangs); }
        start := start + size;
      } else {
        var fields := ReadBody(Slice(data, start + HEADER, start + HEADER + size), first, inflate);
        if fields.None? { PrependStop(leaves, Failed); return Reading(leaves, Failed); }
        PrependTwice(leaves, [Leaf(kind, second, first, cell, fields.value)],
                     Parse(data, start + size + HEADER, end, cell, inflate));
        leaves := leaves + [Leaf(kind, second, first, cell, fields.value)];
        start := start + size + HEADER;
      }
    }
    PrependStop(leaves, Done);
    return Reading(leaves, Done);
  }

  method ReadBody(raw: seq<byte>, flags: nat, inflate: Inflate) returns (fields: Option<seq<Field>>)
    ensures fields == BodyFields(raw, flags, inflate)
  {
    var body := raw;
    if IsCompressed(flags) {
      var inflated := inflate(Slice(raw, 4, |raw|));
      if inflated.None? { return None; }
      body := inflated.value;
    }
    fields := ReadFields(body);
  }
}
