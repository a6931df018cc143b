/** The decoder as the client runs it, over a stream that its reads advance (Code/client/AddressLibrary.h): proved to
    compute AddressLibrary.Load. */
module AddressLibraryReader {
  import opened Basics
  import opened Bytes
  import opened AddressLibrary

  class Stream {
    const bytes: seq<byte>
    var pos: nat

    ghost predicate Valid()
      reads this
    {
      pos <= |bytes|
    }

    ghost function Rest(): seq<byte>
      reads this
      requires Valid()
    {
      bytes[pos..]
    }

    constructor (bytes: seq<byte>)
      ensures Valid() && Rest() == bytes
    {
      this.bytes, pos := bytes, 0;
    }

    /** n bytes as they are. */
    method ReadBytes(n: nat) returns (s: Option<seq<byte>>)
      requires Valid()
      modifies this`pos
      ensures Valid()
      ensures s.Some? <==> n <= |old(Rest())|
      ensures s.Some? ==> s.value == old(Rest())[..n] && Rest() == old(Rest())[n..]
    {
      if |bytes| - pos < n { return None; }
      s := Some(bytes[pos..pos + n]);
      pos := pos + n;
    }

    /** An unsigned integer of n bytes. */
    method ReadInt(n: nat) returns (v: Option<nat>)
      requires Valid()
      modifies this`pos
      ensures Valid()
      ensures v.Some? <==> TakeInt(n, old(Rest())).Some?
      ensures v.Some? ==> TakeInt(n, old(Rest())) == Some((v.value, Rest()))
    {
      hide FromLE;
      var s := ReadBytes(n);
      if s.None? { return None; }
      NoDigits(s.value, n);
      var i: nat, value: nat, unit: nat := 0, 0, 1;
      while i < n
        invariant 0 <= i <= n
        modifies {}
        invariant FromLE(s.value) == value + unit * FromLE(s.value[i..])
      {
        NextDigit(s.value, i, unit);
        value := value + unit * s.value[i];
        unit := unit * 256;
        i := i + 1;
      }
      NoDigits(s.value, n);
      return Some(value);
    }
  }

  lemma NextDigit(s: seq<byte>, i: nat, unit: nat)
    requires i < |s|
    ensures unit * FromLE(s[i..]) == unit * s[i] + (unit * 256) * FromLE(s[i + 1..])
  {
    assert s[i..][1..] == s[i + 1..];
    Distribute(unit, s[i], FromLE(s[i + 1..]));
  }

  lemma NoDigits(s: seq<byte>, n: nat)
    requires n == |s|
    ensures FromLE(s[n..]) == 0 && s[0..] == s
  {
  }

  lemma Distribute(unit: nat, digit: nat, rest: nat)
    ensures unit * (digit + 256 * rest) == unit * digit + (unit * 256) * rest
  {
  }

  method ReadInt32(file: Stream) returns (v: Option<int>)
    requires file.Valid()
    modifies file`pos
    ensures file.Valid()
    ensures v.Some? <==> TakeInt32(old(file.Rest())).Some?
    ensures v.Some? ==> TakeInt32(old(file.Rest())) == Some((v.value, file.Rest())) && IsInt32(v.value)
  {
    Pow256Values();
    ReadBelow(4, file.Rest());
    var u := file.ReadInt(4);
    if u.None? { return None; }
    var value: int := u.value;
    return Some(if value < 0x8000_0000 then value else value - 0x1_0000_0000);
  }

  /** One value of a record: absolute, or relative to the previous one within 64 bits. */
  method ReadDelta(file: Stream, kind: nat, previous: nat) returns (v: Option<nat>)
    requires file.Valid() && previous < U64
    modifies file`pos
    ensures file.Valid()
    ensures v.Some? <==> Delta(kind, previous, old(file.Rest())).Some?
    ensures v.Some? ==> Delta(kind, previous, old(file.Rest())) == Some((v.value, file.Rest())) && v.value < U64
  {
    Pow256Values();
    var difference: nat := 0;
    if kind == 0 {
      ReadBelow(8, file.Rest());
      v := file.ReadInt(8);
      return;
    } else if kind == 1 {
      difference := 1;
    } else if kind == 2 || kind == 3 {
      var read := file.ReadInt(1);
      if read.None? { return None; }
      difference := read.value;
    } else if kind == 4 || kind == 5 {
      var read := file.ReadInt(2);
      if read.None? { return None; }
      difference := read.value;
    } else if kind == 6 {
      ReadBelow(2, file.Rest());
      v := file.ReadInt(2);
      return;
    } else if kind == 7 {
      ReadBelow(4, file.Rest());
      v := file.ReadInt(4);
      return;
    } else {
      return None;
    }
    if kind == 3 || kind == 5 {
      if difference > previous { return None; }
      return Some(previous - difference);
    } else {
      if difference > U64 - 1 - previous { return None; }
      return Some(previous + difference);
    }
  }

  lemma ReadBelow(n: nat, s: seq<byte>)
    ensures TakeInt(n, s).Some? ==> TakeInt(n, s).value.0 < Pow256(n)
  {
    if n <= |s| { ToFromLE(s[..n]); }
  }

  method ReadRecord(file: Stream, previous: Record) returns (r: Option<Record>)
    requires file.Valid() && previous.id < U64 && previous.offset < U64
    modifies file`pos
    ensures file.Valid()
    ensures r.Some? <==> DecodeRecord(previous, old(file.Rest())).Some?
    ensures r.Some? ==> DecodeRecord(previous, old(file.Rest())) == Some((r.value, file.Rest()))
    ensures r.Some? ==> r.value.id < U64 && r.value.offset < U64
  {
    ghost var s := file.Rest();
    var kind := file.ReadBytes(1);
    if kind.None? { return None; }
    var k := kind.value[0];
    assert k == s[0] && file.Rest() == s[1..];
    var id := ReadDelta(file, k % 16, previous.id);
    if id.None? { return None; }
    var scaled := k / 128 == 1;
    var offset := ReadDelta(file, (k / 16) % 8, if scaled then previous.offset / ADDRESS_SIZE else previous.offset);
    if offset.None? { return None; }
    if !scaled { return Some(Record(id.value, offset.value)); }
    if offset.value > (U64 - 1) / ADDRESS_SIZE { return None; }
    return Some(Record(id.value, offset.value * ADDRESS_SIZE));
  }

  method ReadDenseRecord(file: Stream, index: nat) returns (r: Option<Record>)
    requires file.Valid()
    modifies file`pos
    ensures file.Valid()
    ensures r.Some? <==> DenseRecord(index, old(file.Rest())).Some?
    ensures r.Some? ==> DenseRecord(index, old(file.Rest())) == Some((r.value, file.Rest())) && r.value.offset < U64
  {
    Pow256Values();
    ReadBelow(4, file.Rest());
    var offset := file.ReadInt(4);
    if offset.None? { return None; }
    return Some(Record(index, offset.value));
  }

  /** The record loop. */
  method ReadRecords(file: Stream, dense: bool, count: nat) returns (offsets: Option<map<nat, nat>>)
    requires file.Valid() && count < U64
    modifies file`pos
    ensures file.Valid()
    ensures offsets == DecodeFrom(dense, 0, count, Record(0, 0), map[], old(file.Rest()))
  {
    var parsed: map<nat, nat> := map[];
    var previous := Record(0, 0);
    var index := 0;
    while index < count
      invariant 0 <= index <= count
      invariant file.Valid() && previous.id < U64 && previous.offset < U64
      invariant DecodeFrom(dense, index, count, previous, parsed, file.Rest())
             == DecodeFrom(dense, 0, count, Record(0, 0), map[], old(file.Rest()))
    {
      var r;
      if dense {
        r := ReadDenseRecord(file, index);
      } else {
        r := ReadRecord(file, previous);
      }
      if r.None? { return None; }
      if r.value.offset != 0 {
        if r.value.id in parsed { return None; }
        parsed := parsed[r.value.id := r.value.offset];
      }
      previous := r.value;
      index := index + 1;
    }
    return Some(parsed);
  }

  method ReadInt32s(file: Stream, n: nat) returns (vs: Option<seq<int>>)
    requires file.Valid()
    modifies file`pos
    ensures file.Valid()
    ensures vs.Some? <==> TakeInt32s(n, old(file.Rest())).Some?
    ensures vs.Some? ==> TakeInt32s(n, old(file.Rest())) == Some((vs.value, file.Rest()))
    ensures vs.Some? ==> forall i :: 0 <= i < |vs.value| ==> IsInt32(vs.value[i])
    decreases n
  {
    if n == 0 { return Some([]); }
    var first := ReadInt32(file);
    if first.None? { return None; }
    var others := ReadInt32s(file, n - 1);
    if others.None? { return None; }
    return Some([first.value] + others.value);
  }

  method ReadName(file: Stream, dense: bool) returns (name: Option<seq<byte>>)
    requires file.Valid()
    modifies file`pos
    ensures file.Valid()
    ensures name.Some? <==> TakeName(dense, old(file.Rest())).Some?
    ensures name.Some? ==> TakeName(dense, old(file.Rest())) == Some((name.value, file.Rest()))
  {
    if dense {
      var field := file.ReadBytes(64);
      if field.None? || field.value[63] != 0 { return None; }
      return Some(CString(field.value));
    }
    var length := ReadInt32(file);
    if length.None? || length.value <= 0 || length.value > 256 { return None; }
    name := file.ReadBytes(length.value);
  }

  method ReadSizes(file: Stream, dense: bool) returns (count: Option<int>)
    requires file.Valid()
    modifies file`pos
    ensures file.Valid()
    ensures count.Some? <==> TakeSizes(dense, old(file.Rest())).Some?
    ensures count.Some? ==>
        TakeSizes(dense, old(file.Rest())) == Some((count.value, file.Rest())) && 0 < count.value < U64
  {
    var sizes := ReadInt32s(file, if dense then 3 else 2);
    if sizes.None? { return None; }
    var last := sizes.value[|sizes.value| - 1];
    if sizes.value[0] != ADDRESS_SIZE || (dense && sizes.value[1] != 0) || last <= 0 { return None; }
    return Some(last);
  }

  /** The whole file. */
  method LoadFile(file: Stream, version: seq<int>) returns (data: Option<Data>)
    requires file.Valid()
    modifies file`pos
    ensures data == Load(old(file.Rest()), version)
  {
    var format := ReadInt32(file);
    if format.None? || (format.value != 2 && format.value != 5) { return None; }
    var fileVersion := ReadInt32s(file, 4);
    if fileVersion.None? || fileVersion.value != version { return None; }
    var dense := format.value == 5;
    var name := ReadName(file, dense);
    if name.None? { return None; }
    var count := ReadSizes(file, dense);
    if count.None? || name.value != MODULE_NAME { return None; }
    if |file.bytes| - file.pos < count.value * (if dense then 4 else 1) { return None; }
    var offsets := ReadRecords(file, dense, count.value);
    if offsets.None? || offsets.value == map[] { return None; }
    return Some(Data(name.value, offsets.value));
  }
}
