/** The decoder and the encodings agree: every legal encoding decodes to what its records mean, and every file the
    decoder accepts is a legal encoding of what it returns. */
module AddressLibraryProofs {
  import opened Basics
  import opened Bytes
  import opened AddressLibrary

  // ----- One value -----

  lemma DeltaSaid(kind: nat, previous: nat, v: nat, rest: seq<byte>)
    requires CanSay(kind, previous, v) && v < U64
    ensures Delta(kind, previous, Say(kind, previous, v) + rest) == Some((v, rest))
  {
    Pow256Values();
    match kind
    case 0 => TakeWritten(8, v, rest);
    case 1 => assert [] + rest == rest;
    case 2 => TakeWritten(1, v - previous, rest);
    case 3 => TakeWritten(1, previous - v, rest);
    case 4 => TakeWritten(2, v - previous, rest);
    case 5 => TakeWritten(2, previous - v, rest);
    case 6 => TakeWritten(2, v, rest);
    case 7 => TakeWritten(4, v, rest);
  }

  lemma DeltaIsSaid(kind: nat, previous: nat, s: seq<byte>)
    requires previous < U64 && Delta(kind, previous, s).Some?
    ensures var (v, rest) := Delta(kind, previous, s).value;
            v < U64 && CanSay(kind, previous, v) && s == Say(kind, previous, v) + rest
  {
    Pow256Values();
    match kind
    case 0 => TakenIsWritten(8, s);
    case 1 => assert [] + s == s;
    case 2 => TakenIsWritten(1, s);
    case 3 => TakenIsWritten(1, s);
    case 4 => TakenIsWritten(2, s);
    case 5 => TakenIsWritten(2, s);
    case 6 => TakenIsWritten(2, s);
    case 7 => TakenIsWritten(4, s);
  }

  // ----- One record -----

  lemma OffsetSaid(kind: nat, scaled: bool, previous: nat, v: nat, rest: seq<byte>)
    requires LegalOffset(kind, scaled, previous, v)
    ensures OffsetDelta(kind, scaled, previous, SayOffset(kind, scaled, previous, v) + rest) == Some((v, rest))
  {
    if scaled {
      DeltaSaid(kind, previous / ADDRESS_SIZE, v / ADDRESS_SIZE, rest);
    } else {
      DeltaSaid(kind, previous, v, rest);
    }
  }

  lemma OffsetIsSaid(kind: nat, scaled: bool, previous: nat, s: seq<byte>)
    requires previous < U64 && OffsetDelta(kind, scaled, previous, s).Some?
    ensures var (v, rest) := OffsetDelta(kind, scaled, previous, s).value;
            LegalOffset(kind, scaled, previous, v) && s == SayOffset(kind, scaled, previous, v) + rest
  {
    DeltaIsSaid(kind, if scaled then previous / ADDRESS_SIZE else previous, s);
  }

  lemma KindByteRead(c: Choice)
    requires c.idKind < 8 && c.offsetKind < 8
    ensures KindByte(c) % 16 == c.idKind && (KindByte(c) / 16) % 8 == c.offsetKind &&
        (KindByte(c) / 128 == 1 <==> c.scaled)
  {
  }

  lemma KindByteWritten(b: byte)
    requires b % 16 < 8
    ensures KindByte(Choice(b % 16, (b / 16) % 8, b / 128 == 1)) == b
  {
  }

  lemma ThreeParts(first: byte, a: seq<byte>, b: seq<byte>, rest: seq<byte>)
    ensures var s := ([first] + a + b) + rest; s[0] == first && s[1..] == a + (b + rest)
  {
  }

  lemma FourParts(s: seq<byte>, a: seq<byte>, b: seq<byte>, rest: seq<byte>)
    requires s != [] && s[1..] == a + (b + rest)
    ensures s == ([s[0]] + a + b) + rest
  {
  }

  lemma RecordSaid(previous: Record, r: Record, c: Choice, rest: seq<byte>)
    requires Legal(previous, r, c)
    ensures DecodeRecord(previous, EncodeRecord(previous, r, c) + rest) == Some((r, rest))
  {
    var id := Say(c.idKind, previous.id, r.id);
    var offset := SayOffset(c.offsetKind, c.scaled, previous.offset, r.offset);
    ThreeParts(KindByte(c), id, offset, rest);
    KindByteRead(c);
    DeltaSaid(c.idKind, previous.id, r.id, offset + rest);
    OffsetSaid(c.offsetKind, c.scaled, previous.offset, r.offset, rest);
  }

  lemma RecordIsSaid(previous: Record, s: seq<byte>) returns (c: Choice)
    requires previous.id < U64 && previous.offset < U64 && DecodeRecord(previous, s).Some?
    ensures var (r, rest) := DecodeRecord(previous, s).value;
            Legal(previous, r, c) && s == EncodeRecord(previous, r, c) + rest
  {
    c := Choice(s[0] % 16, (s[0] / 16) % 8, s[0] / 128 == 1);
    DeltaIsSaid(c.idKind, previous.id, s[1..]);
    var (id, s1) := Delta(c.idKind, previous.id, s[1..]).value;
    OffsetIsSaid(c.offsetKind, c.scaled, previous.offset, s1);
    var (v, rest) := OffsetDelta(c.offsetKind, c.scaled, previous.offset, s1).value;
    KindByteWritten(s[0]);
    FourParts(s, Say(c.idKind, previous.id, id), SayOffset(c.offsetKind, c.scaled, previous.offset, v), rest);
  }

  // ----- All records -----

  /** Inserting a record into what the records before it mean. */
  lemma MeansNext(seen: seq<Record>, offsets: map<nat, nat>, r: Record)
    requires Means(seen, offsets) && DistinctIds(seen)
    ensures Inserted(offsets, r).Some? <==> DistinctIds(seen + [r])
    ensures Inserted(offsets, r).Some? ==> Means(seen + [r], Inserted(offsets, r).value)
  {
    var next := seen + [r];
    assert forall o :: o in next <==> o in seen || o == r;
    if r.offset != 0 && r.id in offsets {
      var k :| 0 <= k < |seen| && seen[k] == Record(r.id, offsets[r.id]);
      assert next[k].id == next[|seen|].id;
    } else {
      forall i, j | 0 <= i < j < |next| && next[i].offset != 0 && next[j].offset != 0 ensures next[i].id != next[j].id {
        if j == |seen| { assert next[i] in seen; }
      }
    }
  }

  /** The v2 record loop over a legal encoding, from the k-th record on, succeeds exactly when no id repeats, with what
      the records mean. */
  lemma {:induction false} DecodeEncoded(all: seq<Record>, k: nat, previous: Record, offsets: map<nat, nat>,
                                         cs: seq<Choice>, tail: seq<byte>)
    requires k <= |all| && LegalAll(previous, all[k..], cs)
    requires Means(all[..k], offsets) && DistinctIds(all[..k])
    ensures var got := DecodeFrom(false, k, |all|, previous, offsets, EncodeAll(previous, all[k..], cs) + tail);
            && (got.Some? <==> DistinctIds(all))
            && (got.Some? ==> Means(all, got.value))
    decreases |all| - k
  {
    if k == |all| {
      assert all[..k] == all;
    } else {
      EncodedNext(|all|, k, previous, offsets, all[k..], cs, tail);
      assert all[k..][1..] == all[k + 1..] && all[..k] + [all[k]] == all[..k + 1];
      MeansNext(all[..k], offsets, all[k]);
      PrefixDistinct(all, k + 1);
      if Inserted(offsets, all[k]).Some? {
        DecodeEncoded(all, k + 1, all[k], Inserted(offsets, all[k]).value, cs[1..], tail);
      }
    }
  }

  lemma PrefixDistinct(all: seq<Record>, k: nat)
    requires k <= |all|
    ensures DistinctIds(all) ==> DistinctIds(all[..k])
  {
  }

  /** One record off a legal encoding. */
  lemma EncodedNext(count: nat, index: nat, previous: Record, offsets: map<nat, nat>, rs: seq<Record>, cs: seq<Choice>,
                    tail: seq<byte>)
    requires LegalAll(previous, rs, cs) && rs != [] && index < count
    ensures DecodeFrom(false, index, count, previous, offsets, EncodeAll(previous, rs, cs) + tail)
            == match Inserted(offsets, rs[0])
               case None => None
               case Some(m) => DecodeFrom(false, index + 1, count, rs[0], m, EncodeAll(rs[0], rs[1..], cs[1..]) + tail)
  {
    EncodedStep(previous, rs, cs, tail);
  }

  lemma EncodedStep(previous: Record, rs: seq<Record>, cs: seq<Choice>, tail: seq<byte>)
    requires LegalAll(previous, rs, cs) && rs != []
    ensures DecodeRecord(previous, EncodeAll(previous, rs, cs) + tail)
         == Some((rs[0], EncodeAll(rs[0], rs[1..], cs[1..]) + tail))
  {
    var rest := EncodeAll(rs[0], rs[1..], cs[1..]);
    ConcatAssociates(EncodeRecord(previous, rs[0], cs[0]), rest, tail);
    RecordSaid(previous, rs[0], cs[0], rest + tail);
  }

  lemma EncodedCons(previous: Record, r: Record, c: Choice, rs: seq<Record>, cs: seq<Choice>, tail: seq<byte>,
                    s: seq<byte>, rest: seq<byte>)
    requires Legal(previous, r, c) && LegalAll(r, rs, cs)
    requires s == EncodeRecord(previous, r, c) + rest && rest == EncodeAll(r, rs, cs) + tail
    ensures LegalAll(previous, [r] + rs, [c] + cs) && s == EncodeAll(previous, [r] + rs, [c] + cs) + tail
  {
    assert ([r] + rs)[1..] == rs && ([c] + cs)[1..] == cs;
  }

  lemma DecodedStep(index: nat, count: nat, previous: Record, offsets: map<nat, nat>, s: seq<byte>)
      returns (r: Record, c: Choice, rest: seq<byte>, next: map<nat, nat>)
    requires index < count && previous.id < U64 && previous.offset < U64
    requires DecodeFrom(false, index, count, previous, offsets, s).Some?
    ensures Legal(previous, r, c) && s == EncodeRecord(previous, r, c) + rest && Inserted(offsets, r) == Some(next)
    ensures DecodeFrom(false, index + 1, count, r, next, rest) == DecodeFrom(false, index, count, previous, offsets, s)
  {
    var decoded := DecodeRecord(previous, s).value;
    r, rest := decoded.0, decoded.1;
    c := RecordIsSaid(previous, s);
    next := Inserted(offsets, r).value;
  }

  lemma AppendedCons<T>(a: seq<T>, x: T, b: seq<T>)
    ensures a + ([x] + b) == (a + [x]) + b
  {
  }

  /** Whatever the v2 record loop accepts is a legal encoding, with some choice of kinds, of records that mean what it
      returns. */
  lemma {:induction false} DecodedIsEncoded(index: nat, count: nat, seen: seq<Record>, previous: Record,
                                            offsets: map<nat, nat>, s: seq<byte>)
      returns (rs: seq<Record>, cs: seq<Choice>, tail: seq<byte>)
    requires index == |seen| <= count && previous.id < U64 && previous.offset < U64
    requires Means(seen, offsets) && DistinctIds(seen)
    requires DecodeFrom(false, index, count, previous, offsets, s).Some?
    ensures LegalAll(previous, rs, cs) && |rs| == count - index && s == EncodeAll(previous, rs, cs) + tail
    ensures DistinctIds(seen + rs) && Means(seen + rs, DecodeFrom(false, index, count, previous, offsets, s).value)
    decreases count - index
  {
    if index == count {
      rs, cs, tail := [], [], s;
      assert seen + rs == seen;
      assert s == [] + s;
    } else {
      var r, c, rest, next := DecodedStep(index, count, previous, offsets, s);
      MeansNext(seen, offsets, r);
      rs, cs, tail := DecodedIsEncoded(index + 1, count, seen + [r], r, next, rest);
      EncodedCons(previous, r, c, rs, cs, tail, s, rest);
      AppendedCons(seen, r, rs);
      rs, cs := [r] + rs, [c] + cs;
    }
  }

  // ----- The v5 records -----

  ghost predicate Offsets32(all: seq<nat>) {
    forall i :: 0 <= i < |all| ==> all[i] < 0x1_0000_0000
  }

  lemma MeansDenseNext(all: seq<nat>, offsets: map<nat, nat>, v: nat)
    requires MeansDense(all, offsets)
    ensures Inserted(offsets, Record(|all|, v)).Some?
    ensures MeansDense(all + [v], Inserted(offsets, Record(|all|, v)).value)
  {
    forall id: nat
        ensures (id in offsets <==> id < |all| && all[id] != 0) && (id in offsets ==> offsets[id] == all[id]) {
    }
    var m := Inserted(offsets, Record(|all|, v)).value;
    forall id: nat
        ensures (id in m <==> id < |all + [v]| && (all + [v])[id] != 0) && (id in m ==> m[id] == (all + [v])[id]) {
      assert (id in offsets <==> id < |all| && all[id] != 0) && (id in offsets ==> offsets[id] == all[id]);
    }
  }

  lemma DenseStep(index: nat, all: seq<nat>, tail: seq<byte>)
    requires Offsets32(all) && all != []
    ensures DenseRecord(index, EncodeDense(all) + tail) == Some((Record(index, all[0]), EncodeDense(all[1..]) + tail))
  {
    var first, rest := ToLE(4, all[0]), EncodeDense(all[1..]);
    assert all[0] < Pow256(4) by { Pow256Values(); }
    TakeWritten(4, all[0], rest + tail);
    ConcatAssociates(first, rest, tail);
  }

  lemma ConcatAssociates<T>(a: seq<T>, b: seq<T>, c: seq<T>)
    ensures (a + b) + c == a + (b + c)
  {
  }

  lemma AppendedTail<T>(a: seq<T>, b: seq<T>)
    requires b != []
    ensures (a + [b[0]]) + b[1..] == a + b
  {
  }

  /** The v5 record loop over encoded offsets gives what they mean. */
  lemma {:induction false} DecodeDense(seen: seq<nat>, all: seq<nat>, previous: Record, offsets: map<nat, nat>,
                                           tail: seq<byte>)
    requires Offsets32(all) && MeansDense(seen, offsets)
    ensures var got := DecodeFrom(true, |seen|, |seen| + |all|, previous, offsets, EncodeDense(all) + tail);
            got.Some? && MeansDense(seen + all, got.value)
    decreases |all|
  {
    if all == [] {
      assert seen + all == seen;
    } else {
      var r := Record(|seen|, all[0]);
      DenseStep(|seen|, all, tail);
      MeansDenseNext(seen, offsets, all[0]);
      DecodeDense(seen + [all[0]], all[1..], r, Inserted(offsets, r).value, tail);
      AppendedTail(seen, all);
    }
  }

  lemma {:induction false} DecodedIsDense(count: nat, seen: seq<nat>, previous: Record, offsets: map<nat, nat>,
                                              s: seq<byte>)
      returns (all: seq<nat>, tail: seq<byte>)
    requires |seen| <= count && MeansDense(seen, offsets)
    requires DecodeFrom(true, |seen|, count, previous, offsets, s).Some?
    ensures Offsets32(all) && |all| == count - |seen| && s == EncodeDense(all) + tail
    ensures MeansDense(seen + all, DecodeFrom(true, |seen|, count, previous, offsets, s).value)
    decreases count - |seen|
  {
    if |seen| == count {
      all, tail := [], s;
      assert seen + all == seen;
      assert s == [] + s;
    } else {
      Pow256Values();
      TakenIsWritten(4, s);
      var (v, rest) := TakeInt(4, s).value;
      MeansDenseNext(seen, offsets, v);
      var r := Record(|seen|, v);
      all, tail := DecodedIsDense(count, seen + [v], r, Inserted(offsets, r).value, rest);
      AppendedCons(seen, v, all);
      assert ([v] + all)[1..] == all;
      assert s == EncodeDense([v] + all) + tail;
      all := [v] + all;
    }
  }

  // ----- The headers -----

  lemma SignedUnsigned(v: int)
    requires IsInt32(v)
    ensures Unsigned(v) < 0x1_0000_0000 && Signed(Unsigned(v)) == v
  {
  }

  lemma {:induction false} Int32sRead(vs: seq<int>, rest: seq<byte>)
    requires forall i :: 0 <= i < |vs| ==> IsInt32(vs[i])
    ensures TakeInt32s(|vs|, Int32s(vs) + rest) == Some((vs, rest))
  {
    if vs == [] {
      assert Int32s(vs) + rest == rest;
    } else {
      var first, others := ToLE(4, Unsigned(vs[0])), Int32s(vs[1..]);
      SignedUnsigned(vs[0]);
      assert Unsigned(vs[0]) < Pow256(4) by { Pow256Values(); }
      TakeWritten(4, Unsigned(vs[0]), others + rest);
      ConcatAssociates(first, others, rest);
      Int32sRead(vs[1..], rest);
      assert [vs[0]] + vs[1..] == vs;
    }
  }

  lemma {:induction false} Int32sWritten(n: nat, s: seq<byte>)
    requires TakeInt32s(n, s).Some?
    ensures var (vs, rest) := TakeInt32s(n, s).value;
            (forall i :: 0 <= i < |vs| ==> IsInt32(vs[i])) && s == Int32s(vs) + rest
  {
    if n == 0 {
      assert s == [] + s;
    } else {
      Pow256Values();
      TakenIsWritten(4, s);
      var (u, s1) := TakeInt(4, s).value;
      Int32sWritten(n - 1, s1);
      var (vs', rest) := TakeInt32s(n - 1, s1).value;
      var vs := [Signed(u)] + vs';
      assert Unsigned(vs[0]) == u && vs[1..] == vs';
      assert s == ToLE(4, u) + (Int32s(vs') + rest);
    }
  }

  lemma OneInt32(v: int, rest: seq<byte>)
    requires IsInt32(v)
    ensures TakeInt32(Int32s([v]) + rest) == Some((v, rest))
  {
    Pow256Values();
    SignedUnsigned(v);
    TakeWritten(4, Unsigned(v), rest);
    assert Int32s([v]) == ToLE(4, Unsigned(v)) + Int32s([]);
    assert Int32s([v]) + rest == ToLE(4, Unsigned(v)) + rest;
  }

  lemma OneInt32Written(s: seq<byte>)
    requires TakeInt32(s).Some?
    ensures var (v, rest) := TakeInt32(s).value; IsInt32(v) && s == Int32s([v]) + rest
  {
    Pow256Values();
    TakenIsWritten(4, s);
    var (u, rest) := TakeInt(4, s).value;
    assert Int32s([Signed(u)]) == ToLE(4, u) + [];
  }

  /** The fixed first half of a header. */
  lemma VersionRead(format: int, version: seq<int>, rest: seq<byte>)
    requires (format == 2 || format == 5) && IsVersion(version)
    ensures var s := Int32s([format]) + (Int32s(version) + rest);
            TakeInt32(s) == Some((format, Int32s(version) + rest)) &&
                TakeInt32s(4, Int32s(version) + rest) == Some((version, rest))
  {
    OneInt32(format, Int32s(version) + rest);
    Int32sRead(version, rest);
  }

  /** What the second half of a header comes to. */
  lemma LoadRest(dense: bool, version: seq<int>, name: seq<byte>, nameBytes: seq<byte>, sizes: seq<int>, s4: seq<byte>)
    requires IsVersion(version)
    requires |sizes| == if dense then 3 else 2
    requires sizes == if dense then [ADDRESS_SIZE, 0, sizes[|sizes| - 1]] else [ADDRESS_SIZE, sizes[|sizes| - 1]]
    requires 0 < sizes[|sizes| - 1] < 0x8000_0000
    requires TakeName(dense, nameBytes + (Int32s(sizes) + s4)) == Some((name, Int32s(sizes) + s4))
    ensures var s := Int32s([if dense then 5 else 2]) + (Int32s(version) + (nameBytes + (Int32s(sizes) + s4)));
            var count := sizes[|sizes| - 1];
            Load(s, version) ==
              if name != MODULE_NAME || |s4| < count * (if dense then 4 else 1) then None
              else match DecodeFrom(dense, 0, count, Record(0, 0), map[], s4)
                   case None => None
                   case Some(offsets) => if offsets == map[] then None else Some(Data(name, offsets))
  {
    VersionRead(if dense then 5 else 2, version, nameBytes + (Int32s(sizes) + s4));
    Int32sRead(sizes, s4);
  }

  lemma {:induction false} EncodedLength(previous: Record, rs: seq<Record>, cs: seq<Choice>)
    requires LegalAll(previous, rs, cs)
    ensures |EncodeAll(previous, rs, cs)| >= |rs|
    decreases |rs|
  {
    if rs != [] {
      EncodedLength(rs[0], rs[1..], cs[1..]);
    }
  }

  lemma {:induction false} DenseLength(all: seq<nat>)
    ensures |EncodeDense(all)| == 4 * |all|
  {
    if all != [] {
      DenseLength(all[1..]);
    }
  }

  lemma MeansNothing(rs: seq<Record>, offsets: map<nat, nat>)
    requires Means(rs, offsets)
    ensures offsets == map[] <==> !SomeOffset(rs)
  {
    if SomeOffset(rs) {
      var r :| r in rs && r.offset != 0;
      assert r.id in offsets;
    }
    if offsets != map[] {
      var id :| id in offsets;
      assert Record(id, offsets[id]) in rs;
    }
  }

  // ----- Whole files -----

  /** Every legal v2 encoding, whatever follows it, loads exactly when no id repeats and some offset is not zero, and
      then loads as what its records mean. */
  lemma LoadEncodedV2(version: seq<int>, rs: seq<Record>, cs: seq<Choice>, tail: seq<byte>)
    requires IsVersion(version) && LegalAll(Record(0, 0), rs, cs) && 0 < |rs| < 0x8000_0000
    ensures var got := Load(HeaderV2(version, |rs|) + EncodeAll(Record(0, 0), rs, cs) + tail, version);
            && (got.Some? <==> DistinctIds(rs) && SomeOffset(rs))
            && (got.Some? ==> got.value.moduleName == MODULE_NAME && Means(rs, got.value.offsets))
  {
    var s4 := EncodeAll(Record(0, 0), rs, cs) + tail;
    var nameBytes := Int32s([|MODULE_NAME|]) + MODULE_NAME;
    var sizes := [ADDRESS_SIZE, |rs|];
    HeaderV2Parts(version, |rs|, s4);
    ConcatAssociates(HeaderV2(version, |rs|), EncodeAll(Record(0, 0), rs, cs), tail);
    NameRead(Int32s(sizes) + s4);
    LoadRest(false, version, MODULE_NAME, nameBytes, sizes, s4);
    EncodedLength(Record(0, 0), rs, cs);
    assert rs[0..] == rs && rs[..0] == [];
    DecodeEncoded(rs, 0, Record(0, 0), map[], cs, tail);
    var decoded := DecodeFrom(false, 0, |rs|, Record(0, 0), map[], s4);
    if decoded.Some? { MeansNothing(rs, decoded.value); }
  }

  lemma HeaderV2Parts(version: seq<int>, count: nat, s4: seq<byte>)
    requires IsVersion(version) && 0 < count < 0x8000_0000
    ensures HeaderV2(version, count) + s4
         == Int32s([2]) +
             (Int32s(version) + ((Int32s([|MODULE_NAME|]) + MODULE_NAME) + (Int32s([ADDRESS_SIZE, count]) + s4)))
  {
  }

  lemma NameRead(rest: seq<byte>)
    ensures TakeName(false, (Int32s([|MODULE_NAME|]) + MODULE_NAME) + rest) == Some((MODULE_NAME, rest))
  {
    OneInt32(|MODULE_NAME|, MODULE_NAME + rest);
    assert (Int32s([|MODULE_NAME|]) + MODULE_NAME) + rest == Int32s([|MODULE_NAME|]) + (MODULE_NAME + rest);
    assert (MODULE_NAME + rest)[..12] == MODULE_NAME && (MODULE_NAME + rest)[12..] == rest;
  }

  /** Encoded v5 offsets load exactly when one is not zero, the index being the id. */
  lemma LoadEncodedV5(version: seq<int>, name: seq<byte>, all: seq<nat>, tail: seq<byte>)
    requires IsVersion(version) && IsDenseName(name) && Offsets32(all) && 0 < |all| < 0x8000_0000
    ensures var got := Load(HeaderV5(version, name, |all|) + EncodeDense(all) + tail, version);
            && (got.Some? <==> exists i :: 0 <= i < |all| && all[i] != 0)
            && (got.Some? ==> got.value.moduleName == MODULE_NAME && MeansDense(all, got.value.offsets))
  {
    hide Load, DecodeFrom, EncodeDense, HeaderV5, MeansDense, Offsets32;
    var s4 := EncodeDense(all) + tail;
    ConcatAssociates(HeaderV5(version, name, |all|), EncodeDense(all), tail);
    LoadV5(version, name, |all|, s4);
    DenseLength(all);
    DecodeDense([], all, Record(0, 0), map[], tail);
    assert [] + all == all;
    DenseNothing(all, DecodeFrom(true, 0, |all|, Record(0, 0), map[], s4).value);
  }

  lemma LoadV5(version: seq<int>, name: seq<byte>, count: nat, s4: seq<byte>)
    requires IsVersion(version) && IsDenseName(name) && 0 < count < 0x8000_0000
    ensures Load(HeaderV5(version, name, count) + s4, version) ==
              if |s4| < count * 4 then None
              else match DecodeFrom(true, 0, count, Record(0, 0), map[], s4)
                   case None => None
                   case Some(offsets) => if offsets == map[] then None else Some(Data(MODULE_NAME, offsets))
  {
    var sizes := [ADDRESS_SIZE, 0, count];
    HeaderV5Parts(version, name, count, s4);
    DenseNameRead(name, Int32s(sizes) + s4);
    LoadRest(true, version, MODULE_NAME, name, sizes, s4);
  }

  lemma DenseNothing(all: seq<nat>, offsets: map<nat, nat>)
    requires MeansDense(all, offsets)
    ensures offsets != map[] <==> exists i :: 0 <= i < |all| && all[i] != 0
  {
    if i: nat :| i < |all| && all[i] != 0 {
      assert i in offsets;
    }
    if offsets != map[] {
      var id :| id in offsets;
      assert id < |all| && all[id] != 0;
    }
  }

  lemma HeaderV5Parts(version: seq<int>, name: seq<byte>, count: nat, s4: seq<byte>)
    requires IsVersion(version) && IsDenseName(name) && 0 < count < 0x8000_0000
    ensures HeaderV5(version, name, count) + s4
         == Int32s([5]) + (Int32s(version) + (name + (Int32s([ADDRESS_SIZE, 0, count]) + s4)))
  {
  }

  lemma DenseNameRead(name: seq<byte>, rest: seq<byte>)
    requires IsDenseName(name)
    ensures TakeName(true, name + rest) == Some((MODULE_NAME, rest))
  {
    CStringIs(name, 12);
    assert (name + rest)[..64] == name && (name + rest)[64..] == rest;
  }

  lemma {:induction false} CStringIs(s: seq<byte>, n: nat)
    requires n < |s| && s[n] == 0 && forall i :: 0 <= i < n ==> s[i] != 0
    ensures CString(s) == s[..n]
  {
    if n > 0 {
      CStringIs(s[1..], n - 1);
      assert s[..n] == [s[0]] + s[1..][..n - 1];
    }
  }

  lemma {:induction false} CStringEnds(s: seq<byte>)
    ensures |CString(s)| <= |s| && CString(s) == s[..|CString(s)|]
    ensures |CString(s)| < |s| ==> s[|CString(s)|] == 0
  {
    if s != [] && s[0] != 0 {
      CStringEnds(s[1..]);
    }
  }

  lemma NameWritten(dense: bool, s: seq<byte>) returns (nameBytes: seq<byte>)
    requires TakeName(dense, s).Some? && TakeName(dense, s).value.0 == MODULE_NAME
    ensures if dense then IsDenseName(nameBytes) else nameBytes == Int32s([|MODULE_NAME|]) + MODULE_NAME
    ensures s == nameBytes + TakeName(dense, s).value.1
  {
    if dense {
      nameBytes := s[..64];
      CStringEnds(nameBytes);
    } else {
      OneInt32Written(s);
      var (length, named) := TakeInt32(s).value;
      nameBytes := Int32s([|MODULE_NAME|]) + MODULE_NAME;
      assert named == MODULE_NAME + TakeName(dense, s).value.1;
    }
  }

  lemma SizesWritten(dense: bool, s: seq<byte>)
    requires TakeSizes(dense, s).Some?
    ensures var (count, rest) := TakeSizes(dense, s).value;
            0 < count < 0x8000_0000 &&
                s == Int32s(if dense then [ADDRESS_SIZE, 0, count] else [ADDRESS_SIZE, count]) + rest
  {
    Int32sWritten(if dense then 3 else 2, s);
    var (sizes, rest) := TakeInt32s(if dense then 3 else 2, s).value;
    assert sizes == if dense then [ADDRESS_SIZE, 0, sizes[2]] else [ADDRESS_SIZE, sizes[1]];
  }

  /** What a loaded file looked like up to its records. */
  lemma LoadedHeader(s: seq<byte>, version: seq<int>)
    returns (dense: bool, nameBytes: seq<byte>, count: nat, s4: seq<byte>)
    requires Load(s, version).Some?
    ensures IsVersion(version) && 0 < count < 0x8000_0000
    ensures if dense then IsDenseName(nameBytes) else nameBytes == Int32s([|MODULE_NAME|]) + MODULE_NAME
    ensures s == Int32s([if dense then 5 else 2]) + (Int32s(version) + (nameBytes +
                 (Int32s(if dense then [ADDRESS_SIZE, 0, count] else [ADDRESS_SIZE, count]) + s4)))
    ensures DecodeFrom(dense, 0, count, Record(0, 0), map[], s4) == Some(Load(s, version).value.offsets)
  {
    OneInt32Written(s);
    var (format, s1) := TakeInt32(s).value;
    Int32sWritten(4, s1);
    var (_, s2) := TakeInt32s(4, s1).value;
    dense := format == 5;
    var (_, s3) := TakeName(dense, s2).value;
    nameBytes := NameWritten(dense, s2);
    SizesWritten(dense, s3);
    var sizes := TakeSizes(dense, s3).value;
    count, s4 := sizes.0, sizes.1;
  }

  /** A file as it was written: a v2 header and records with some choice of kinds, or a v5 header and offsets. */
  datatype Written = V2(rs: seq<Record>, cs: seq<Choice>, tail: seq<byte>)
                   | V5(name: seq<byte>, all: seq<nat>, tail: seq<byte>)

  ghost predicate IsWritten(s: seq<byte>, version: seq<int>, file: Written) {
    IsVersion(version) &&
    match file
    case V2(rs, cs, tail) =>
      && LegalAll(Record(0, 0), rs, cs) && 0 < |rs| < 0x8000_0000
      && s == HeaderV2(version, |rs|) + EncodeAll(Record(0, 0), rs, cs) + tail
    case V5(name, all, tail) =>
      && IsDenseName(name) && Offsets32(all) && 0 < |all| < 0x8000_0000
      && s == HeaderV5(version, name, |all|) + EncodeDense(all) + tail
  }

  /** What it says: no id twice, and the map of the ids to their offsets, the zeros left out. */
  ghost predicate Says(file: Written, offsets: map<nat, nat>) {
    match file
    case V2(rs, _, _) => DistinctIds(rs) && Means(rs, offsets)
    case V5(_, all, _) => MeansDense(all, offsets)
  }

  lemma LoadedV2(version: seq<int>, count: nat, s4: seq<byte>) returns (file: Written)
    requires IsVersion(version) && 0 < count < 0x8000_0000
    requires DecodeFrom(false, 0, count, Record(0, 0), map[], s4).Some?
    ensures IsWritten(HeaderV2(version, count) + s4, version, file)
    ensures Says(file, DecodeFrom(false, 0, count, Record(0, 0), map[], s4).value)
  {
    var rs, cs, tail := DecodedIsEncoded(0, count, [], Record(0, 0), map[], s4);
    assert [] + rs == rs;
    ConcatAssociates(HeaderV2(version, count), EncodeAll(Record(0, 0), rs, cs), tail);
    file := V2(rs, cs, tail);
  }

  lemma LoadedV5(version: seq<int>, name: seq<byte>, count: nat, s4: seq<byte>) returns (file: Written)
    requires IsVersion(version) && IsDenseName(name) && 0 < count < 0x8000_0000
    requires DecodeFrom(true, 0, count, Record(0, 0), map[], s4).Some?
    ensures IsWritten(HeaderV5(version, name, count) + s4, version, file)
    ensures Says(file, DecodeFrom(true, 0, count, Record(0, 0), map[], s4).value)
  {
    var all, tail := DecodedIsDense(count, [], Record(0, 0), map[], s4);
    assert [] + all == all;
    ConcatAssociates(HeaderV5(version, name, count), EncodeDense(all), tail);
    file := V5(name, all, tail);
  }

  /** Every file the decoder accepts was written so, and says what the decoder returns. */
  lemma LoadedIsWritten(s: seq<byte>, version: seq<int>) returns (file: Written)
    requires Load(s, version).Some?
    ensures IsWritten(s, version, file) && Says(file, Load(s, version).value.offsets)
  {
    var dense, nameBytes, count, s4 := LoadedHeader(s, version);
    if dense {
      HeaderV5Parts(version, nameBytes, count, s4);
      file := LoadedV5(version, nameBytes, count, s4);
    } else {
      HeaderV2Parts(version, count, s4);
      file := LoadedV2(version, count, s4);
    }
  }
}
