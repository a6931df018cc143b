/** The Address Library's two file formats: what the decoder accepts and what it makes of it
    (Code/client/AddressLibrary.h). Values are unsigned 64-bit, the stream's bytes a sequence. */
module AddressLibrary {
  import opened Basics
  import opened Bytes

  const U64: nat := 0x1_0000_0000_0000_0000

  /** "SkyrimSE.exe" */
  const MODULE_NAME: seq<byte> := [83, 107, 121, 114, 105, 109, 83, 69, 46, 101, 120, 101]

  const ADDRESS_SIZE := 8

  /** A record: an id and the offset it stands for (0: none). */
  datatype Record = Record(id: nat, offset: nat)

  datatype Data = Data(moduleName: seq<byte>, offsets: map<nat, nat>)

  // ----- Decoding -----

  /** Applies a relative kind's difference, refusing what leaves the 64-bit range. */
  function Apply(kind: nat, previous: nat, difference: nat): (r: Option<nat>) {
    if kind == 3 || kind == 5 then
      if difference > previous then None else Some(previous - difference)
    else
      if difference > U64 - 1 - previous then None else Some(previous + difference)
  }

  function AppliedTo(kind: nat, previous: nat, read: Option<(nat, seq<byte>)>): (r: Option<(nat, seq<byte>)>) {
    match read
    case None => None
    case Some((difference, rest)) =>
      match Apply(kind, previous, difference)
      case None => None
      case Some(v) => Some((v, rest))
  }

  /** One value against the previous one. */
  function Delta(kind: nat, previous: nat, s: seq<byte>): (r: Option<(nat, seq<byte>)>) {
    match kind
    case 0 => TakeInt(8, s)
    case 1 => AppliedTo(kind, previous, Some((1, s)))
    case 2 => AppliedTo(kind, previous, TakeInt(1, s))
    case 3 => AppliedTo(kind, previous, TakeInt(1, s))
    case 4 => AppliedTo(kind, previous, TakeInt(2, s))
    case 5 => AppliedTo(kind, previous, TakeInt(2, s))
    case 6 => TakeInt(2, s)
    case 7 => TakeInt(4, s)
    case _ => None
  }

  /** The offset half of a record: against the previous offset, both over eight when scaled. */
  function OffsetDelta(kind: nat, scaled: bool, previous: nat, s: seq<byte>): (r: Option<(nat, seq<byte>)>) {
    match Delta(kind, if scaled then previous / ADDRESS_SIZE else previous, s)
    case None => None
    case Some((v, rest)) =>
      if !scaled then Some((v, rest))
      else if v > (U64 - 1) / ADDRESS_SIZE then None
      else Some((v * ADDRESS_SIZE, rest))
  }

  /** A v2 record after the previous one. */
  function DecodeRecord(previous: Record, s: seq<byte>): (r: Option<(Record, seq<byte>)>) {
    if s == [] then None
    else
      var kind := s[0];
      match Delta(kind % 16, previous.id, s[1..])
      case None => None
      case Some((id, s1)) =>
        match OffsetDelta((kind / 16) % 8, kind / 128 == 1, previous.offset, s1)
        case None => None
        case Some((offset, rest)) => Some((Record(id, offset), rest))
  }

  /** A v5 record: the index is the id. */
  function DenseRecord(index: nat, s: seq<byte>): (r: Option<(Record, seq<byte>)>) {
    match TakeInt(4, s)
    case None => None
    case Some((offset, rest)) => Some((Record(index, offset), rest))
  }

  function Inserted(offsets: map<nat, nat>, r: Record): (m: Option<map<nat, nat>>) {
    if r.offset == 0 then Some(offsets)
    else if r.id in offsets then None
    else Some(offsets[r.id := r.offset])
  }

  /** The record loop from some index on. */
  function DecodeFrom(dense: bool, index: nat, count: nat, previous: Record, offsets: map<nat, nat>, s: seq<byte>)
    : (r: Option<map<nat, nat>>)
    requires index <= count
    decreases count - index
  {
    if index == count then Some(offsets)
    else
      match if dense then DenseRecord(index, s) else DecodeRecord(previous, s)
      case None => None
      case Some((r, rest)) =>
        match Inserted(offsets, r)
        case None => None
        case Some(m) => DecodeFrom(dense, index + 1, count, r, m, rest)
  }

  /** A little-endian int32. */
  function Signed(v: nat): int {
    if v < 0x8000_0000 then v else v - 0x1_0000_0000
  }

  function TakeInt32(s: seq<byte>): (r: Option<(int, seq<byte>)>) {
    match TakeInt(4, s)
    case None => None
    case Some((v, rest)) => Some((Signed(v), rest))
  }

  /** n int32s. */
  function TakeInt32s(n: nat, s: seq<byte>): (r: Option<(seq<int>, seq<byte>)>)
    ensures r.Some? ==> |r.value.0| == n
  {
    if n == 0 then Some(([], s))
    else
      match TakeInt32(s)
      case None => None
      case Some((v, s1)) =>
        match TakeInt32s(n - 1, s1)
        case None => None
        case Some((vs, rest)) => Some(([v] + vs, rest))
  }

  /** A C string: the bytes before the first zero. */
  function CString(s: seq<byte>): (r: seq<byte>) {
    if s == [] || s[0] == 0 then [] else [s[0]] + CString(s[1..])
  }

  /** The rest of the header: pointer size, v5's data format, and the count, each an int32. */
  function TakeSizes(dense: bool, s: seq<byte>): (r: Option<(int, seq<byte>)>) {
    match TakeInt32s(if dense then 3 else 2, s)
    case None => None
    case Some((vs, rest)) =>
      var count := vs[|vs| - 1];
      if vs[0] != ADDRESS_SIZE || (dense && vs[1] != 0) || count <= 0 then None else Some((count, rest))
  }

  /** The module's name. */
  function TakeName(dense: bool, s: seq<byte>): (r: Option<(seq<byte>, seq<byte>)>) {
    if dense then
      if |s| < 64 || s[63] != 0 then None else Some((CString(s[..64]), s[64..]))
    else
      match TakeInt32(s)
      case None => None
      case Some((length, s1)) =>
        if length <= 0 || length > 256 || |s1| < length then None else Some((s1[..length], s1[length..]))
  }

  /** The whole file: its records when it is for this version, None when it is refused. */
  function Load(s: seq<byte>, version: seq<int>): (r: Option<Data>) {
    match TakeInt32(s)
    case None => None
    case Some((format, s1)) =>
      if format != 2 && format != 5 then None
      else
        match TakeInt32s(4, s1)
        case None => None
        case Some((fileVersion, s2)) =>
          if fileVersion != version then None
          else
            match TakeName(format == 5, s2)
            case None => None
            case Some((name, s3)) =>
              match TakeSizes(format == 5, s3)
              case None => None
              case Some((count, s4)) =>
                if name != MODULE_NAME || |s4| < count * (if format == 5 then 4 else 1) then None
                else
                  match DecodeFrom(format == 5, 0, count, Record(0, 0), map[], s4)
                  case None => None
                  case Some(offsets) => if offsets == map[] then None else Some(Data(name, offsets))
  }

  // ----- Encoding -----

  /** A record's kinds: one for the id, one for the offset, and whether the offset is over eight. */
  datatype Choice = Choice(idKind: nat, offsetKind: nat, scaled: bool)

  /** Whether a kind can say v after previous. */
  predicate CanSay(kind: nat, previous: nat, v: nat) {
    match kind
    case 0 => v < U64
    case 1 => v == previous + 1
    case 2 => previous <= v < previous + 0x100
    case 3 => v <= previous < v + 0x100
    case 4 => previous <= v < previous + 0x1_0000
    case 5 => v <= previous < v + 0x1_0000
    case 6 => v < 0x1_0000
    case 7 => v < 0x1_0000_0000
    case _ => false
  }

  function Say(kind: nat, previous: nat, v: nat): (s: seq<byte>)
    requires CanSay(kind, previous, v)
  {
    match kind
    case 0 => ToLE(8, v)
    case 1 => []
    case 2 => ToLE(1, v - previous)
    case 3 => ToLE(1, previous - v)
    case 4 => ToLE(2, v - previous)
    case 5 => ToLE(2, previous - v)
    case 6 => ToLE(2, v)
    case 7 => ToLE(4, v)
    case _ => []
  }

  /** The offset half of a legal record. */
  predicate LegalOffset(kind: nat, scaled: bool, previous: nat, v: nat) {
    && v < U64
    && if scaled then v % ADDRESS_SIZE == 0 && CanSay(kind, previous / ADDRESS_SIZE, v / ADDRESS_SIZE)
       else CanSay(kind, previous, v)
  }

  function SayOffset(kind: nat, scaled: bool, previous: nat, v: nat): (s: seq<byte>)
    requires LegalOffset(kind, scaled, previous, v)
  {
    if scaled then Say(kind, previous / ADDRESS_SIZE, v / ADDRESS_SIZE) else Say(kind, previous, v)
  }

  predicate Legal(previous: Record, r: Record, c: Choice) {
    r.id < U64 && CanSay(c.idKind, previous.id, r.id) && LegalOffset(c.offsetKind, c.scaled, previous.offset, r.offset)
  }

  function KindByte(c: Choice): (b: byte)
    requires c.idKind < 8 && c.offsetKind < 8
  {
    c.idKind + 16 * c.offsetKind + if c.scaled then 128 else 0
  }

  function EncodeRecord(previous: Record, r: Record, c: Choice): (s: seq<byte>)
    requires Legal(previous, r, c)
  {
    [KindByte(c)] + Say(c.idKind, previous.id, r.id) + SayOffset(c.offsetKind, c.scaled, previous.offset, r.offset)
  }

  predicate LegalAll(previous: Record, rs: seq<Record>, cs: seq<Choice>)
    decreases |rs|
  {
    |rs| == |cs| && (rs != [] ==> Legal(previous, rs[0], cs[0]) && LegalAll(rs[0], rs[1..], cs[1..]))
  }

  function EncodeAll(previous: Record, rs: seq<Record>, cs: seq<Choice>): (s: seq<byte>)
    requires LegalAll(previous, rs, cs)
    decreases |rs|
  {
    if rs == [] then [] else EncodeRecord(previous, rs[0], cs[0]) + EncodeAll(rs[0], rs[1..], cs[1..])
  }

  function Unsigned(v: int): nat
    requires IsInt32(v)
  {
    if v >= 0 then v else v + 0x1_0000_0000
  }

  predicate IsInt32(v: int) {
    -0x8000_0000 <= v < 0x8000_0000
  }

  function Int32s(vs: seq<int>): (s: seq<byte>)
    requires forall i :: 0 <= i < |vs| ==> IsInt32(vs[i])
  {
    if vs == [] then [] else ToLE(4, Unsigned(vs[0])) + Int32s(vs[1..])
  }

  predicate IsVersion(version: seq<int>) {
    |version| == 4 && forall i :: 0 <= i < |version| ==> IsInt32(version[i])
  }

  function HeaderV2(version: seq<int>, count: nat): (s: seq<byte>)
    requires IsVersion(version) && 0 < count < 0x8000_0000
  {
    Int32s([2]) + Int32s(version) + Int32s([|MODULE_NAME|]) + MODULE_NAME + Int32s([ADDRESS_SIZE, count])
  }

  /** v5's 64-byte name: the module's, a zero, anything, and a zero at the end. */
  predicate IsDenseName(name: seq<byte>) {
    |name| == 64 && name[..12] == MODULE_NAME && name[12] == 0 && name[63] == 0
  }

  function HeaderV5(version: seq<int>, name: seq<byte>, count: nat): (s: seq<byte>)
    requires IsVersion(version) && IsDenseName(name) && 0 < count < 0x8000_0000
  {
    Int32s([5]) + Int32s(version) + name + Int32s([ADDRESS_SIZE, 0, count])
  }

  function EncodeDense(offsets: seq<nat>): (s: seq<byte>) {
    if offsets == [] then [] else ToLE(4, offsets[0]) + EncodeDense(offsets[1..])
  }

  // ----- What a record sequence means -----

  /** No id stands for two offsets. */
  ghost predicate DistinctIds(rs: seq<Record>) {
    forall i, j :: 0 <= i < j < |rs| && rs[i].offset != 0 && rs[j].offset != 0 ==> rs[i].id != rs[j].id
  }

  ghost predicate Means(rs: seq<Record>, offsets: map<nat, nat>) {
    && (forall r :: r in rs && r.offset != 0 ==> r.id in offsets && offsets[r.id] == r.offset)
    && (forall id :: id in offsets ==> Record(id, offsets[id]) in rs && offsets[id] != 0)
  }

  /** What a v5 file's offsets mean: the index is the id, zero stands for none. */
  ghost predicate MeansDense(all: seq<nat>, offsets: map<nat, nat>) {
    forall id: nat :: (id in offsets <==> id < |all| && all[id] != 0) && (id in offsets ==> offsets[id] == all[id])
  }

  ghost predicate SomeOffset(rs: seq<Record>) {
    exists r :: r in rs && r.offset != 0
  }
}
