/** What is written is read back: exactly the records, in order, with their fields and the cell they belong to. */
module PluginRecordsProofs {
  import opened Basics
  import opened Bytes
  import opened PluginRecords

  /** A group around a record. */
  datatype Around = Around(mark: Code, groupType: int)

  /** The cell of a record in these groups, the outermost first: the mark of the innermost one of type 6, or the one
      the reading starts in. */
  function CellOf(around: seq<Around>, cell: nat): nat {
    if around == [] then cell
    else if around[|around| - 1].groupType == 6 then FromLE(around[|around| - 1].mark)
    else CellOf(around[..|around| - 1], cell)
  }

  lemma {:induction false} InnermostMark(around: seq<Around>, cell: nat, k: nat)
    requires k < |around| && around[k].groupType == 6
    requires forall j :: k < j < |around| ==> around[j].groupType != 6
    ensures CellOf(around, cell) == FromLE(around[k].mark)
    decreases |around|
  {
    hide FromLE;
    if k + 1 < |around| { InnermostMark(around[..|around| - 1], cell, k); }
  }

  lemma {:induction false} NoMark(around: seq<Around>, cell: nat)
    requires forall k :: 0 <= k < |around| ==> around[k].groupType != 6
    ensures CellOf(around, cell) == cell
  {
    hide FromLE;
    if around != [] { NoMark(around[..|around| - 1], cell); }
  }

  /** The records of a tree in these groups, in order. */
  function Leaves(t: Tree, around: seq<Around>, cell: nat): seq<Leaf>
    decreases t, 0
  {
    match t
    case Record(kind, form, fields, flags) => [Leaf(kind, form, flags, CellOf(around, cell), fields)]
    case Group(mark, groupType, children) => AllLeaves(children, around + [Around(mark, groupType)], cell)
  }

  function AllLeaves(trees: seq<Tree>, around: seq<Around>, cell: nat): seq<Leaf>
    decreases trees
  {
    if trees == [] then [] else Leaves(trees[0], around, cell) + AllLeaves(trees[1..], around, cell)
  }

  /** The reader's cell inside a group is that of the groups around. */
  lemma CellWithin(around: seq<Around>, mark: Code, groupType: int, cell: nat)
    ensures CellInside(groupType, FromLE(mark), CellOf(around, cell))
         == CellOf(around + [Around(mark, groupType)], cell)
  {
    assert (around + [Around(mark, groupType)])[..|around|] == around;
  }

  predicate NoLarge(fields: seq<Field>) {
    forall f :: f in fields ==> f.kind != XXXX
  }

  // ----- Fields -----

  /** Fields read at i, where `fields` were written. */
  lemma {:induction false} FieldsWritten(s: seq<byte>, i: nat, fields: seq<Field>)
    requires NoLarge(fields) && WriteFields(fields).Some?
    requires i + |WriteFields(fields).value| == |s| && s[i..] == WriteFields(fields).value
    ensures Fields(s, i, None) == Some(fields)
    decreases |fields|
  {
    hide WriteField, Fields;
    if fields == [] {
      NoFields(s, i);
    } else {
      var f := fields[0];
      assert f in fields;
      var one, rest := WriteField(f).value, WriteFields(fields[1..]).value;
      assert s[i..] == one + rest;
      OneField(s, i, f, rest);
      FieldLength(f);
      FieldsWritten(s, i + |one|, fields[1..]);
      FieldThenRest(s, i, f, fields[1..]);
      assert [f] + fields[1..] == fields;
    }
  }

  lemma NoFields(s: seq<byte>, i: nat)
    requires i == |s|
    ensures Fields(s, i, None) == Some([])
  {
  }

  lemma FieldLength(f: Field)
    requires WriteField(f).Some?
    ensures |WriteField(f).value| == 6 + |f.data|
  {
  }

  lemma FieldThenRest(s: seq<byte>, i: nat, f: Field, rest: seq<Field>)
    requires i + 6 + |f.data| <= |s| && s[i..i + 4] == f.kind && FromLE(s[i + 4..i + 6]) == |f.data| && f.kind != XXXX
    requires Slice(s, i + 6, i + 6 + |f.data|) == f.data && Fields(s, i + 6 + |f.data|, None) == Some(rest)
    ensures Fields(s, i, None) == Some([f] + rest)
  {
    hide Slice, FromLE;
  }

  lemma OneField(s: seq<byte>, i: nat, f: Field, rest: seq<byte>)
    requires i <= |s| && WriteField(f).Some? && s[i..] == WriteField(f).value + rest
    ensures i + 6 + |f.data| <= |s| && s[i..i + 4] == f.kind && FromLE(s[i + 4..i + 6]) == |f.data|
    ensures Slice(s, i + 6, i + 6 + |f.data|) == f.data
    ensures s[i + 6 + |f.data|..] == rest
  {
    hide FromLE, ToLE, Pow256;
    var one := WriteField(f).value;
    Pow256Values();
    FromToLE(2, |f.data|);
    assert s[i..][..4] == f.kind && s[i..][4..6] == ToLE(2, |f.data|);
    assert s[i..][6..6 + |f.data|] == f.data && s[i..][|one|..] == rest;
    assert s[i..][..4] == s[i..i + 4] && s[i..][4..6] == s[i + 4..i + 6];
    assert s[i..][6..6 + |f.data|] == s[i + 6..i + 6 + |f.data|] && s[i..][|one|..] == s[i + |one|..];
  }

  /** No field read is called XXXX. */
  lemma {:induction false} NeverLarge(s: seq<byte>, i: nat, big: Option<nat>)
    ensures Fields(s, i, big).Some? ==> NoLarge(Fields(s, i, big).value)
    decreases |s| - i
  {
    hide Fields, FromLE, Slice, Int32At, NoLarge, After;
    NoLargeAfter(Field(GRUP, []), None);
    FieldsFrom(s, i, big);
    if i + 6 <= |s| {
      var kind, size := s[i..i + 4], FromLE(s[i + 4..i + 6]);
      if kind == XXXX {
        if i + 10 <= |s| { NeverLarge(s, i + 6 + size, Some(Int32At(s, i + 6))); }
      } else {
        var size := if big.Some? then big.value else size;
        NeverLarge(s, i + 6 + size, None);
        NoLargeAfter(Field(kind, Slice(s, i + 6, i + 6 + size)), Fields(s, i + 6 + size, None));
      }
    }
  }

  lemma FieldsFrom(s: seq<byte>, i: nat, big: Option<nat>)
    ensures i + 6 > |s| ==> Fields(s, i, big) == Some([])
    ensures i + 6 <= |s| ==>
              var kind, size := s[i..i + 4], FromLE(s[i + 4..i + 6]);
              if kind == XXXX then
                Fields(s, i, big) ==
                  (if i + 10 > |s| then None else Fields(s, i + 6 + size, Some(Int32At(s, i + 6))))
              else
                var size := if big.Some? then big.value else size;
                Fields(s, i, big) == After([Field(kind, Slice(s, i + 6, i + 6 + size))], Fields(s, i + 6 + size, None))
  {
    hide FromLE, Slice, Int32At, After;
  }

  lemma NoLargeAfter(f: Field, rest: Option<seq<Field>>)
    ensures NoLarge([])
    ensures f.kind != XXXX && (rest.Some? ==> NoLarge(rest.value)) && After([f], rest).Some? ==>
              NoLarge(After([f], rest).value)
  {
  }

  /** Reading fields undoes writing them exactly if none is called XXXX. */
  lemma FieldsRoundTripIff(fields: seq<Field>)
    requires WriteFields(fields).Some?
    ensures Fields(WriteFields(fields).value, 0, None) == Some(fields) <==> NoLarge(fields)
  {
    if NoLarge(fields) {
      FieldsWritten(WriteFields(fields).value, 0, fields);
    }
    NeverLarge(WriteFields(fields).value, 0, None);
  }

  // ----- Fields of 64 KiB and more -----

  /** A field as a plugin may have it: by itself, or, for large data, behind an XXXX field with its size; its own size
      is then any number. */
  function FieldAs(f: Field, large: Option<nat>): Option<seq<byte>> {
    match large
    case None => WriteField(f)
    case Some(any) =>
      if |f.data| < U32 && any < U16 then
        Some(XXXX + ToLE(2, 4) + ToLE(4, |f.data|) + f.kind + ToLE(2, any) + f.data)
      else None
  }

  function FieldsAs(fields: seq<Field>, large: seq<Option<nat>>): Option<seq<byte>>
    requires |fields| == |large|
  {
    if fields == [] then Some([]) else Join(FieldAs(fields[0], large[0]), FieldsAs(fields[1..], large[1..]))
  }

  lemma LargeParts(s: seq<byte>, i: nat, f: Field, any: nat, rest: seq<byte>)
    requires i <= |s| && FieldAs(f, Some(any)).Some? && s[i..] == FieldAs(f, Some(any)).value + rest
    ensures i + 16 + |f.data| <= |s| && s[i..i + 4] == XXXX && s[i + 4..i + 6] == ToLE(2, 4)
    ensures s[i + 6..i + 10] == ToLE(4, |f.data|) && s[i + 10..i + 14] == f.kind
    ensures s[i + 16..i + 16 + |f.data|] == f.data && s[i + 16 + |f.data|..] == rest
  {
    hide ToLE;
    var one := FieldAs(f, Some(any)).value;
    var t := s[i..];
    assert one[..4] == XXXX && one[4..6] == ToLE(2, 4) && one[6..10] == ToLE(4, |f.data|) && one[10..14] == f.kind;
    assert one[16..] == f.data && t[..|one|] == one && t[|one|..] == rest;
    assert t[..4] == one[..4] && t[4..6] == one[4..6] && t[6..10] == one[6..10] && t[10..14] == one[10..14];
    assert t[16..16 + |f.data|] == one[16..];
    assert t[4..6] == s[i + 4..i + 6] && t[6..10] == s[i + 6..i + 10] && t[10..14] == s[i + 10..i + 14];
    assert t[16..16 + |f.data|] == s[i + 16..i + 16 + |f.data|] && t[|one|..] == s[i + |one|..];
  }

  lemma LargeField(s: seq<byte>, i: nat, f: Field, any: nat, rest: seq<byte>)
    requires i <= |s| && FieldAs(f, Some(any)).Some? && s[i..] == FieldAs(f, Some(any)).value + rest && f.kind != XXXX
    ensures |s| == i + 16 + |f.data| + |rest| && s[i + 16 + |f.data|..] == rest
    ensures Fields(s, i, None) == After([f], Fields(s, i + 16 + |f.data|, None))
  {
    hide ToLE, FromLE, Fields, After;
    LargeParts(s, i, f, any, rest);
    Pow256Values();
    FromToLE(2, 4);
    FourBytes(|f.data|);
    FieldsFrom(s, i, None);
    FieldsFrom(s, i + 10, Some(|f.data|));
    assert Slice(s, i + 16, i + 16 + |f.data|) == f.data;
  }

  lemma SmallField(s: seq<byte>, i: nat, f: Field, rest: seq<byte>)
    requires i <= |s| && WriteField(f).Some? && s[i..] == WriteField(f).value + rest && f.kind != XXXX
    ensures |s| == i + 6 + |f.data| + |rest| && s[i + 6 + |f.data|..] == rest
    ensures Fields(s, i, None) == After([f], Fields(s, i + 6 + |f.data|, None))
  {
    hide ToLE, FromLE, Fields, After;
    OneField(s, i, f, rest);
    FieldLength(f);
    FieldsFrom(s, i, None);
  }

  /** Whichever fields are written as large ones, reading gives them all back. */
  lemma {:induction false} LargeFieldsRead(s: seq<byte>, i: nat, fields: seq<Field>, large: seq<Option<nat>>)
    requires |fields| == |large| && NoLarge(fields) && FieldsAs(fields, large).Some?
    requires i <= |s| && s[i..] == FieldsAs(fields, large).value
    ensures Fields(s, i, None) == Some(fields)
    decreases |fields|
  {
    hide FieldAs, Fields, WriteField;
    if fields == [] {
      NoFields(s, i);
    } else {
      var f, rest := fields[0], FieldsAs(fields[1..], large[1..]).value;
      assert f in fields;
      var next := i + |f.data| + if large[0].Some? then 16 else 6;
      if large[0].Some? {
        LargeField(s, i, f, large[0].value, rest);
      } else {
        SmallIs(f);
        SmallField(s, i, f, rest);
      }
      LargeFieldsRead(s, next, fields[1..], large[1..]);
      assert [f] + fields[1..] == fields;
    }
  }

  lemma SmallIs(f: Field)
    ensures FieldAs(f, None) == WriteField(f)
  {
  }

  // ----- Headers -----

  ghost predicate At(data: seq<byte>, start: nat, s: seq<byte>) {
    start + |s| <= |data| && data[start..start + |s|] == s
  }

  lemma Parts(data: seq<byte>, start: nat, a: seq<byte>, b: seq<byte>)
    requires At(data, start, a + b)
    ensures At(data, start, a) && At(data, start + |a|, b)
  {
    var s := data[start..start + |a + b|];
    assert s[..|a|] == a && s[|a|..] == b;
  }

  /** A header's kind and its three numbers, read where it was written. */
  lemma HeaderRead(data: seq<byte>, start: nat, kind: Code, size: nat, first: seq<byte>, second: nat, h: seq<byte>)
    requires At(data, start, h) && |h| == HEADER && size < U32 && |first| == 4 && second < U32
    requires h[..4] == kind && h[4..8] == ToLE(4, size) && h[8..12] == first && h[12..16] == ToLE(4, second)
    ensures start + HEADER <= |data| && data[start..start + 4] == kind && Int32At(data, start + 4) == size
    ensures Int32At(data, start + 8) == FromLE(first) && Int32At(data, start + 12) == second
  {
    FourBytes(size);
    FourBytes(second);
    hide FromLE, ToLE;
    HeaderSlices(data, start, h);
  }

  lemma FourBytes(v: nat)
    requires v < U32
    ensures FromLE(ToLE(4, v)) == v
  {
    Pow256Values();
    FromToLE(4, v);
  }

  lemma RecordHeaderRead(data: seq<byte>, start: nat, kind: Code, size: nat, flags: nat, form: nat)
    requires At(data, start, RecordHeader(kind, size, flags, form)) && size < U32 && flags < U32 && form < U32
    ensures start + HEADER <= |data| && data[start..start + 4] == kind && Int32At(data, start + 4) == size
    ensures Int32At(data, start + 8) == flags && Int32At(data, start + 12) == form
  {
    FourBytes(flags);
    hide FromLE, ToLE;
    HeaderRead(data, start, kind, size, ToLE(4, flags), form, RecordHeader(kind, size, flags, form));
  }

  lemma GroupHeaderRead(data: seq<byte>, start: nat, size: nat, mark: Code, groupType: nat)
    requires At(data, start, GroupHeader(size, mark, groupType)) && size < U32 && groupType < U32
    ensures start + HEADER <= |data| && data[start..start + 4] == GRUP && Int32At(data, start + 4) == size
    ensures Int32At(data, start + 8) == FromLE(mark) && Int32At(data, start + 12) == groupType
  {
    hide FromLE, ToLE;
    HeaderRead(data, start, GRUP, size, mark, groupType, GroupHeader(size, mark, groupType));
  }

  lemma HeaderSlices(data: seq<byte>, start: nat, h: seq<byte>)
    requires At(data, start, h) && |h| == HEADER
    ensures data[start..start + 4] == h[..4] && data[start + 4..start + 8] == h[4..8]
    ensures data[start + 8..start + 12] == h[8..12] && data[start + 12..start + 16] == h[12..16]
  {
    var d := data[start..start + HEADER];
    assert d[..4] == data[start..start + 4] && d[4..8] == data[start + 4..start + 8];
    assert d[8..12] == data[start + 8..start + 12] && d[12..16] == data[start + 12..start + 16];
  }

  /** What nothing reads of a header: a record's version is 44, and the rest is 0. */
  lemma HeadersEnd(t: Tree)
    requires Write(t).Some?
    ensures |Write(t).value| >= HEADER
    ensures Write(t).value[16..24] == if t.Record? then [0, 0, 0, 0, 44, 0, 0, 0] else [0, 0, 0, 0, 0, 0, 0, 0]
  {
    hide WriteFields, WriteAll;
    SmallNumbers();
    match t
    case Record(kind, form, fields, flags) =>
      var body := WriteFields(fields).value;
      var h := RecordHeader(kind, |body|, flags, form);
      assert Write(t).value[16..24] == h[16..24];
      assert h[16..20] == ToLE(4, 0) && h[20..22] == ToLE(2, 44) && h[22..24] == ToLE(2, 0);
      assert h[16..24] == h[16..20] + h[20..22] + h[22..24];
    case Group(mark, groupType, children) =>
      var body := WriteAll(children).value;
      var h := GroupHeader(|body| + HEADER, mark, Unsigned(groupType));
      assert Write(t).value[16..24] == h[16..24];
      assert h[16..18] == ToLE(2, 0) && h[18..20] == ToLE(2, 0) && h[20..24] == ToLE(4, 0);
      assert h[16..24] == h[16..18] + h[18..20] + h[20..24];
  }

  lemma SmallNumbers()
    ensures ToLE(2, 0) == [0, 0] && ToLE(2, 44) == [44, 0] && ToLE(4, 0) == [0, 0, 0, 0]
  {
    assert ToLE(3, 0) == [0] + ToLE(2, 0);
    assert ToLE(4, 0) == [0] + ToLE(3, 0);
  }

  // ----- Trees -----

  /** Reading the record's body gives its fields: none is called XXXX, or, of a record marked compressed, its bytes from
      the fifth on decompress to its fields. */
  predicate BodyReadsBack(fields: seq<Field>, flags: nat, inflate: Inflate) {
    if Marked(flags) then
      var raw := WriteFields(fields);
      && raw.Some?
      && var body := inflate(if |raw.value| >= 4 then raw.value[4..] else []);
         body.Some? && Fields(body.value, 0, None) == Some(fields)
    else NoLarge(fields)
  }

  /** The bit of the flags that marks a compressed record, the one of value 0x40000, is set. */
  predicate Marked(flags: nat) {
    flags % 0x80000 >= 0x40000
  }

  lemma MarkedIff(flags: nat)
    ensures Marked(flags) <==> IsCompressed(flags)
  {
    var high, low := flags / 0x80000, flags % 0x80000;
    assert flags == 2 * high * COMPRESSED + low;
    assert flags / COMPRESSED == 2 * high + low / COMPRESSED;
  }

  /** No record can be taken for a group, and each body reads back. */
  predicate Readable(t: Tree, inflate: Inflate)
    decreases t, 0
  {
    match t
    case Record(kind, form, fields, flags) => kind != GRUP && BodyReadsBack(fields, flags, inflate)
    case Group(mark, groupType, children) => AllReadable(children, inflate)
  }

  predicate AllReadable(trees: seq<Tree>, inflate: Inflate)
    decreases trees
  {
    trees == [] || (Readable(trees[0], inflate) && AllReadable(trees[1..], inflate))
  }

  /** No record is called GRUP. */
  predicate NoGroupNames(leaves: seq<Leaf>) {
    forall leaf :: leaf in leaves ==> leaf.kind != GRUP
  }

  lemma FromTheFifth(raw: seq<byte>)
    ensures Slice(raw, 4, |raw|) == if |raw| >= 4 then raw[4..] else []
  {
  }

  lemma BodyReadsBackIff(fields: seq<Field>, flags: nat, inflate: Inflate)
    requires WriteFields(fields).Some?
    ensures BodyReadsBack(fields, flags, inflate) <==>
        BodyFields(WriteFields(fields).value, flags, inflate) == Some(fields)
  {
    hide Fields, WriteFields, Slice, IsCompressed, Marked, FromLE;
    MarkedIff(flags);
    FromTheFifth(WriteFields(fields).value);
    if !IsCompressed(flags) { FieldsRoundTripIff(fields); }
  }

  /** What reading from a written record on comes to. */
  lemma ParseRecord(data: seq<byte>, start: nat, t: Tree, cell: nat, end: nat, inflate: Inflate)
    requires t.Record? && Write(t).Some? && t.kind != GRUP
    requires At(data, start, Write(t).value) && start + |Write(t).value| <= end
    ensures var fields := BodyFields(WriteFields(t.fields).value, t.flags, inflate);
            Parse(data, start, end, cell, inflate) ==
              (if fields.None? then Reading([], Failed)
               else Prepend([Leaf(t.kind, t.form, t.flags, cell, fields.value)],
                            Parse(data, start + |Write(t).value|, end, cell, inflate)))
  {
    hide FromLE, ToLE, RecordHeader, Prepend, WriteFields, BodyFields, Int32At;
    var body := WriteFields(t.fields).value;
    Parts(data, start, RecordHeader(t.kind, |body|, t.flags, t.form), body);
    RecordHeaderRead(data, start, t.kind, |body|, t.flags, t.form);
    assert Slice(data, start + HEADER, start + HEADER + |body|) == body;
  }

  /** What reading from a written group on comes to. */
  lemma ParseGroup(data: seq<byte>, start: nat, t: Tree, cell: nat, end: nat, inflate: Inflate)
    requires t.Group? && Write(t).Some? && At(data, start, Write(t).value) && start + |Write(t).value| <= end
    ensures var inside := CellInside(t.groupType, FromLE(t.mark), cell);
            var inner := Parse(data, start + HEADER, start + HEADER + |WriteAll(t.children).value|, inside, inflate);
            Parse(data, start, end, cell, inflate) ==
              (if inner.stop != Done then inner
               else Prepend(inner.leaves, Parse(data, start + |Write(t).value|, end, cell, inflate)))
    ensures At(data, start + HEADER, WriteAll(t.children).value)
  {
    hide FromLE, ToLE, GroupHeader, Prepend, WriteAll, Int32At;
    var body := WriteAll(t.children).value;
    Parts(data, start, GroupHeader(|body| + HEADER, t.mark, Unsigned(t.groupType)), body);
    GroupHeaderRead(data, start, |body| + HEADER, t.mark, Unsigned(t.groupType));
  }

  lemma ParseNothing(data: seq<byte>, start: nat, cell: nat, inflate: Inflate)
    ensures Parse(data, start, start, cell, inflate) == Reading([], Done)
  {
  }

  /** Reading a whole file up to its end is reading what was written. */
  lemma {:induction false} ParseWritten(data: seq<byte>, start: nat, trees: seq<Tree>, around: seq<Around>, cell: nat,
                                        end: nat, inflate: Inflate)
    requires WriteAll(trees).Some? && AllReadable(trees, inflate)
    requires At(data, start, WriteAll(trees).value) && start + |WriteAll(trees).value| <= end
    ensures var at := CellOf(around, cell);
            Parse(data, start, end, at, inflate)
            == Prepend(AllLeaves(trees, around, cell), Parse(data, start + |WriteAll(trees).value|, end, at, inflate))
    decreases trees
  {
    hide FromLE, ToLE, Write, Leaves, Readable, Prepend, Parse, CellOf;
    var at := CellOf(around, cell);
    if trees == [] {
      PrependNothing(Parse(data, start, end, at, inflate));
    } else {
      var one, rest := Write(trees[0]).value, WriteAll(trees[1..]).value;
      Parts(data, start, one, rest);
      ParseTree(data, start, trees[0], around, cell, end, inflate);
      ParseWritten(data, start + |one|, trees[1..], around, cell, end, inflate);
      PrependTwice(Leaves(trees[0], around, cell), AllLeaves(trees[1..], around, cell),
                   Parse(data, start + |one| + |rest|, end, at, inflate));
    }
  }

  /** A tree's own records are read, and then what follows it. */
  lemma {:induction false} ParseTree(data: seq<byte>, start: nat, t: Tree, around: seq<Around>, cell: nat, end: nat,
                                     inflate: Inflate)
    requires Write(t).Some? && Readable(t, inflate)
    requires At(data, start, Write(t).value) && start + |Write(t).value| <= end
    ensures var at := CellOf(around, cell);
            Parse(data, start, end, at, inflate)
            == Prepend(Leaves(t, around, cell), Parse(data, start + |Write(t).value|, end, at, inflate))
    decreases t, 0
  {
    hide FromLE, ToLE, RecordHeader, GroupHeader, Parse, Prepend, WriteFields, Fields, BodyFields, BodyReadsBack;
    hide CellOf, CellInside;
    match t
    case Record(kind, form, fields, flags) =>
      BodyReadsBackIff(fields, flags, inflate);
      ParseRecord(data, start, t, CellOf(around, cell), end, inflate);
    case Group(mark, groupType, children) =>
      var until := start + HEADER + |WriteAll(children).value|;
      var inside := around + [Around(mark, groupType)];
      CellWithin(around, mark, groupType, cell);
      ParseGroup(data, start, t, CellOf(around, cell), end, inflate);
      ParseWritten(data, start + HEADER, children, inside, cell, until, inflate);
      ParseNothing(data, until, CellOf(inside, cell), inflate);
      PrependStop(AllLeaves(children, inside, cell), Done);
  }

  // ----- Exactly when -----

  /** No record read is called GRUP. */
  lemma {:induction false} NoGroupNamesRead(data: seq<byte>, start: nat, end: nat, cell: nat, inflate: Inflate)
    ensures NoGroupNames(Parse(data, start, end, cell, inflate).leaves)
    decreases |data| - start
  {
    hide FromLE, Slice, Int32At, BodyFields, NoGroupNames, Prepend, CellInside;
    NamesPrepended([], Reading([], Done));
    if start < end && start + 16 <= |data| {
      var kind, size := data[start..start + 4], Int32At(data, start + 4);
      var first, second := Int32At(data, start + 8), Int32At(data, start + 12);
      if kind == GRUP {
        var inside := CellInside(second, first, cell);
        NoGroupNamesRead(data, start + HEADER, start + size, inside, inflate);
        if size > 0 {
          NoGroupNamesRead(data, start + size, end, cell, inflate);
          NamesPrepended(Parse(data, start + HEADER, start + size, inside, inflate).leaves,
                         Parse(data, start + size, end, cell, inflate));
        }
      } else {
        var fields := BodyFields(Slice(data, start + HEADER, start + HEADER + size), first, inflate);
        NoGroupNamesRead(data, start + size + HEADER, end, cell, inflate);
        if fields.Some? {
          NamesPrepended([Leaf(kind, second, first, cell, fields.value)],
                         Parse(data, start + size + HEADER, end, cell, inflate));
        }
      }
    }
  }

  lemma NamesPrepended(leaves: seq<Leaf>, r: Reading)
    ensures NoGroupNames([])
    ensures |leaves| == 1 && leaves[0].kind != GRUP ==> NoGroupNames(leaves)
    ensures NoGroupNames(leaves) && NoGroupNames(r.leaves) ==> NoGroupNames(Prepend(leaves, r).leaves)
  {
  }

  /** A reading that goes on after a written tree read as many records from it, and the right ones only if it is
      readable. */
  ghost predicate ReadFrom(r: Reading, mine: seq<Leaf>, rest: Reading, right: seq<Leaf>, readable: bool) {
    r == Prepend(mine, rest) && |mine| == |right| && (mine == right ==> readable)
  }

  lemma {:induction false} TreeReadBack(data: seq<byte>, start: nat, t: Tree, around: seq<Around>, cell: nat, end: nat,
                                        inflate: Inflate)
    returns (mine: seq<Leaf>)
    requires Write(t).Some? && NoGroupNames(Leaves(t, around, cell))
    requires At(data, start, Write(t).value) && start + |Write(t).value| <= end
    requires Parse(data, start, end, CellOf(around, cell), inflate).stop == Done
    ensures ReadFrom(Parse(data, start, end, CellOf(around, cell), inflate), mine,
                     Parse(data, start + |Write(t).value|, end, CellOf(around, cell), inflate),
                     Leaves(t, around, cell), Readable(t, inflate))
    decreases t, 0
  {
    hide FromLE, ToLE, RecordHeader, GroupHeader, Parse, WriteFields, Fields, BodyFields, BodyReadsBack;
    hide CellOf, CellInside;
    var at := CellOf(around, cell);
    match t
    case Record(kind, form, fields, flags) =>
      assert kind != GRUP by { assert Leaf(kind, form, flags, at, fields) in Leaves(t, around, cell); }
      BodyReadsBackIff(fields, flags, inflate);
      ParseRecord(data, start, t, at, end, inflate);
      mine := [Leaf(kind, form, flags, at, BodyFields(WriteFields(fields).value, flags, inflate).value)];
    case Group(mark, groupType, children) =>
      var until := start + HEADER + |WriteAll(children).value|;
      var inside := around + [Around(mark, groupType)];
      CellWithin(around, mark, groupType, cell);
      ParseGroup(data, start, t, at, end, inflate);
      mine := AllReadBack(data, start + HEADER, children, inside, cell, until, inflate);
      ParseNothing(data, until, CellOf(inside, cell), inflate);
      PrependStop(mine, Done);
  }

  lemma {:induction false} AllReadBack(data: seq<byte>, start: nat, trees: seq<Tree>, around: seq<Around>, cell: nat,
                                       end: nat, inflate: Inflate)
    returns (mine: seq<Leaf>)
    requires WriteAll(trees).Some? && NoGroupNames(AllLeaves(trees, around, cell))
    requires At(data, start, WriteAll(trees).value) && start + |WriteAll(trees).value| <= end
    requires Parse(data, start, end, CellOf(around, cell), inflate).stop == Done
    ensures ReadFrom(Parse(data, start, end, CellOf(around, cell), inflate), mine,
                     Parse(data, start + |WriteAll(trees).value|, end, CellOf(around, cell), inflate),
                     AllLeaves(trees, around, cell), AllReadable(trees, inflate))
    decreases trees
  {
    hide FromLE, ToLE, Write, Leaves, Readable, Parse, CellOf;
    var at := CellOf(around, cell);
    if trees == [] {
      mine := [];
      PrependNothing(Parse(data, start, end, at, inflate));
    } else {
      var one, rest := Write(trees[0]).value, WriteAll(trees[1..]).value;
      Parts(data, start, one, rest);
      var first := TreeReadBack(data, start, trees[0], around, cell, end, inflate);
      var others := AllReadBack(data, start + |one|, trees[1..], around, cell, end, inflate);
      mine := first + others;
      PrependTwice(first, others, Parse(data, start + |one| + |rest|, end, at, inflate));
      SplitEqual(first, others, Leaves(trees[0], around, cell), AllLeaves(trees[1..], around, cell));
    }
  }

  lemma SplitEqual(a: seq<Leaf>, b: seq<Leaf>, c: seq<Leaf>, d: seq<Leaf>)
    requires |a| == |c|
    ensures a + b == c + d ==> a == c && b == d
  {
    assert (a + b)[..|a|] == a && (a + b)[|a|..] == b;
    assert (c + d)[..|c|] == c && (c + d)[|c|..] == d;
  }

  lemma ReadableReadBack(trees: seq<Tree>, inflate: Inflate)
    requires WriteAll(trees).Some? && AllReadable(trees, inflate)
    ensures var data := WriteAll(trees).value;
            Parse(data, 0, |data|, 0, inflate) == Reading(AllLeaves(trees, [], 0), Done)
  {
    hide Parse, WriteAll, AllReadable, AllLeaves;
    var data := WriteAll(trees).value;
    AtStart(data);
    ParseNothing(data, |data|, 0, inflate);
    ParseWritten(data, 0, trees, [], 0, |data|, inflate);
    PrependStop(AllLeaves(trees, [], 0), Done);
  }

  lemma AtStart(data: seq<byte>)
    ensures At(data, 0, data)
  {
  }

  lemma OnlyReadableReadBack(trees: seq<Tree>, inflate: Inflate)
    requires WriteAll(trees).Some?
    requires var data := WriteAll(trees).value;
             Parse(data, 0, |data|, 0, inflate) == Reading(AllLeaves(trees, [], 0), Done)
    ensures AllReadable(trees, inflate)
  {
    hide Parse, WriteAll, AllReadable, AllLeaves, NoGroupNames, At;
    var data := WriteAll(trees).value;
    AtStart(data);
    NoGroupNamesRead(data, 0, |data|, 0, inflate);
    var mine := AllReadBack(data, 0, trees, [], 0, |data|, inflate);
    ParseNothing(data, |data|, 0, inflate);
    PrependStop(mine, Done);
  }

  /** Reading what was written gives back every record, with its kind, form, flags, fields and cell, and nothing more,
      exactly if no record is called GRUP and each body reads back: no field is called XXXX, or, of a record marked
      compressed, its bytes from the fifth on decompress to its fields. */
  lemma RoundTripIff(trees: seq<Tree>, inflate: Inflate)
    requires WriteAll(trees).Some?
    ensures var data := WriteAll(trees).value;
            Parse(data, 0, |data|, 0, inflate) == Reading(AllLeaves(trees, [], 0), Done)
            <==> AllReadable(trees, inflate)
  {
    hide Parse, WriteAll, AllReadable, AllLeaves;
    var data := WriteAll(trees).value;
    if AllReadable(trees, inflate) { ReadableReadBack(trees, inflate); }
    if Parse(data, 0, |data|, 0, inflate) == Reading(AllLeaves(trees, [], 0), Done) {
      OnlyReadableReadBack(trees, inflate);
    }
  }
}
