/** The reader of a plugin file step by step (scripts/build_start_room.py): when it ends, and when it never does. */
module PluginRecordsSteps {
  import opened Basics
  import opened Bytes
  import opened PluginRecords
  import opened PluginRecordsProofs

  /** The variables of one call of `records`. */
  datatype Frame = Frame(start: nat, end: nat, cell: nat)

  /** The calls under way, the innermost first, and what was given so far; or how it all ended. */
  datatype Config = Running(calls: seq<Frame>, leaves: seq<Leaf>) | Ended(reading: Reading)

  function Header(data: seq<byte>, f: Frame): (r: Option<(seq<byte>, nat, nat, nat)>) {
    if f.start + 16 > |data| then None
    else Some((data[f.start..f.start + 4], Int32At(data, f.start + 4), Int32At(data, f.start + 8),
               Int32At(data, f.start + 12)))
  }

  /** One turn of the innermost loop: it returns to the call outside, reads a record, or enters a group. (A group's call
      goes on behind the group when the call inside has returned, which is all that comes in between.) */
  function Turn(data: seq<byte>, inflate: Inflate, c: Config): Config {
    match c
    case Ended(_) => c
    case Running(calls, leaves) =>
      if calls == [] then Ended(Reading(leaves, Done))
      else
        var f, outer := calls[0], calls[1..];
        if f.start >= f.end then Running(outer, leaves)
        else
          match Header(data, f)
          case None => Ended(Reading(leaves, Failed))
          case Some((kind, size, first, second)) =>
            if kind == GRUP then
              Running([Frame(f.start + HEADER, f.start + size, CellInside(second, first, f.cell)),
                       f.(start := f.start + size)] + outer, leaves)
            else
              match BodyFields(Slice(data, f.start + HEADER, f.start + HEADER + size), first, inflate)
              case None => Ended(Reading(leaves, Failed))
              case Some(fields) =>
                Running([f.(start := f.start + size + HEADER)] + outer,
                        leaves + [Leaf(kind, second, first, f.cell, fields)])
  }

  function Turns(data: seq<byte>, inflate: Inflate, c: Config, n: nat): Config
    decreases n
  {
    if n == 0 then c else Turns(data, inflate, Turn(data, inflate, c), n - 1)
  }

  /** The innermost loop is at a group of size 0. */
  predicate AtEmptyGroup(data: seq<byte>, c: Config) {
    c.Running? && c.calls != [] && c.calls[0].start < c.calls[0].end
    && match Header(data, c.calls[0])
       case None => false
       case Some((kind, size, _, _)) => kind == GRUP && size == 0
  }

  // ----- At a group of size 0 -----

  /** The turn that enters the group and the one that returns from it change nothing. */
  lemma EmptyGroupCycles(data: seq<byte>, inflate: Inflate, c: Config)
    requires AtEmptyGroup(data, c)
    ensures c.Running? && Turn(data, inflate, c).Running? && Turn(data, inflate, c).leaves == c.leaves
    ensures Turn(data, inflate, Turn(data, inflate, c)) == c
  {
    hide Int32At;
    var inside := Turn(data, inflate, c);
    assert inside.calls[1..] == c.calls;
  }

  lemma {:induction false} StaysAtEmptyGroup(data: seq<byte>, inflate: Inflate, c: Config, n: nat)
    requires AtEmptyGroup(data, c)
    ensures Turns(data, inflate, c, n).Running? && Turns(data, inflate, c, n).leaves == c.leaves
  {
    hide AtEmptyGroup, Turn;
    EmptyGroupCycles(data, inflate, c);
    if n >= 2 {
      StaysAtEmptyGroup(data, inflate, c, n - 2);
      assert Turns(data, inflate, c, n) == Turns(data, inflate, Turn(data, inflate, c), n - 1);
    } else if n == 1 {
      assert Turns(data, inflate, c, 1) == Turns(data, inflate, Turn(data, inflate, c), 0);
    }
  }

  // ----- The reading, turn by turn -----

  lemma {:induction false} TurnsAdd(data: seq<byte>, inflate: Inflate, c: Config, m: nat, n: nat)
    ensures Turns(data, inflate, c, m + n) == Turns(data, inflate, Turns(data, inflate, c, m), n)
    decreases m
  {
    hide Turn;
    if m > 0 { TurnsAdd(data, inflate, Turn(data, inflate, c), m - 1, n); }
  }

  lemma {:induction false} EndedStays(data: seq<byte>, inflate: Inflate, r: Reading, n: nat)
    ensures Turns(data, inflate, Ended(r), n) == Ended(r)
  {
    if n > 0 { EndedStays(data, inflate, r, n - 1); }
  }

  /** What the calls outside are left with when the innermost one reads r. */
  predicate Comes(data: seq<byte>, c: Config, outer: seq<Frame>, leaves: seq<Leaf>, r: Reading) {
    match r.stop
    case Done => c == Running(outer, leaves + r.leaves)
    case Failed => c == Ended(Reading(leaves + r.leaves, Failed))
    case Hangs => AtEmptyGroup(data, c) && c.leaves == leaves + r.leaves
  }

  lemma OneTurn(data: seq<byte>, inflate: Inflate, c: Config, n: nat)
    ensures Turns(data, inflate, c, 1 + n) == Turns(data, inflate, Turn(data, inflate, c), n)
    ensures Turns(data, inflate, c, 0) == c
  {
    hide Turn;
  }

  lemma TurnEnds(data: seq<byte>, inflate: Inflate, f: Frame, outer: seq<Frame>, leaves: seq<Leaf>)
    requires f.start >= f.end || Header(data, f).None?
    ensures Comes(data, Turn(data, inflate, Running([f] + outer, leaves)), outer, leaves,
                  Parse(data, f.start, f.end, f.cell, inflate))
  {
    assert ([f] + outer)[1..] == outer && leaves + [] == leaves;
  }

  /** The call that reads a group, and the one behind it. */
  function Inside(f: Frame, size: nat, first: nat, second: nat): Frame {
    Frame(f.start + HEADER, f.start + size, CellInside(second, first, f.cell))
  }

  function Read(data: seq<byte>, f: Frame, inflate: Inflate): Reading {
    Parse(data, f.start, f.end, f.cell, inflate)
  }

  lemma TurnEnters(data: seq<byte>, inflate: Inflate, f: Frame, outer: seq<Frame>, leaves: seq<Leaf>,
                   size: nat, first: nat, second: nat)
    requires f.start < f.end && Header(data, f) == Some((GRUP, size, first, second))
    ensures Turn(data, inflate, Running([f] + outer, leaves))
         == Running([Inside(f, size, first, second)] + ([f.(start := f.start + size)] + outer), leaves)
    ensures var inner := Read(data, Inside(f, size, first, second), inflate);
            Read(data, f, inflate) ==
              (if inner.stop != Done then inner
               else if size == 0 then Reading(inner.leaves, Hangs)
               else Prepend(inner.leaves, Read(data, f.(start := f.start + size), inflate)))
  {
    hide Int32At, Prepend;
    var inside, next := Inside(f, size, first, second), f.(start := f.start + size);
    assert ([f] + outer)[1..] == outer && [inside, next] + outer == [inside] + ([next] + outer);
  }

  lemma TurnReads(data: seq<byte>, inflate: Inflate, f: Frame, outer: seq<Frame>, leaves: seq<Leaf>)
    requires f.start < f.end && Header(data, f).Some? && Header(data, f).value.0 != GRUP
    ensures var (kind, size, first, second) := Header(data, f).value;
            var fields := BodyFields(Slice(data, f.start + HEADER, f.start + HEADER + size), first, inflate);
            var next := f.(start := f.start + size + HEADER);
            if fields.None? then
              && Turn(data, inflate, Running([f] + outer, leaves)) == Ended(Reading(leaves, Failed))
              && Read(data, f, inflate) == Reading([], Failed)
            else
              var leaf := Leaf(kind, second, first, f.cell, fields.value);
              && Turn(data, inflate, Running([f] + outer, leaves)) == Running([next] + outer, leaves + [leaf])
              && Read(data, f, inflate) == Prepend([leaf], Read(data, next, inflate))
  {
    hide Int32At, BodyFields, Slice, Prepend;
    assert ([f] + outer)[1..] == outer;
  }

  lemma FailedComes(data: seq<byte>, outer: seq<Frame>, leaves: seq<Leaf>)
    ensures Comes(data, Ended(Reading(leaves, Failed)), outer, leaves, Reading([], Failed))
  {
    assert leaves + [] == leaves;
  }

  /** So many turns later the innermost call has returned, failed, or is at a group of size 0, as its reading says. */
  lemma {:induction false} TurnsRead(data: seq<byte>, inflate: Inflate, f: Frame, outer: seq<Frame>, leaves: seq<Leaf>)
    returns (n: nat)
    ensures Comes(data, Turns(data, inflate, Running([f] + outer, leaves), n), outer, leaves, Read(data, f, inflate))
    decreases |data| - f.start, 1
  {
    hide Turn, Turns, Parse, Comes, Prepend, BodyFields, Slice;
    var c := Running([f] + outer, leaves);
    var c1 := Turn(data, inflate, c);
    OneTurn(data, inflate, c, 0);
    OneTurn(data, inflate, c1, 0);
    if f.start >= f.end || Header(data, f).None? {
      TurnEnds(data, inflate, f, outer, leaves);
      n := 1;
    } else if Header(data, f).value.0 == GRUP {
      n := TurnsReadGroup(data, inflate, f, outer, leaves);
    } else {
      TurnReads(data, inflate, f, outer, leaves);
      FailedComes(data, outer, leaves);
      var (kind, size, first, second) := Header(data, f).value;
      var fields := BodyFields(Slice(data, f.start + HEADER, f.start + HEADER + size), first, inflate);
      n := 1;
      if fields.Some? {
        var next, leaf := f.(start := f.start + size + HEADER), Leaf(kind, second, first, f.cell, fields.value);
        var m := TurnsRead(data, inflate, next, outer, leaves + [leaf]);
        n := 1 + m;
        OneTurn(data, inflate, c, m);
        ComesAfter(data, Turns(data, inflate, c1, m), outer, leaves, [leaf], Read(data, next, inflate));
      }
    }
  }

  lemma {:induction false} TurnsReadGroup(data: seq<byte>, inflate: Inflate, f: Frame, outer: seq<Frame>,
                                             leaves: seq<Leaf>)
    returns (n: nat)
    requires f.start < f.end && Header(data, f).Some? && Header(data, f).value.0 == GRUP
    ensures Comes(data, Turns(data, inflate, Running([f] + outer, leaves), n), outer, leaves, Read(data, f, inflate))
    decreases |data| - f.start, 0
  {
    hide Turn, Turns, Parse, Comes, Prepend, Read, AtEmptyGroup;
    var (_, size, first, second) := Header(data, f).value;
    var c, inside, next := Running([f] + outer, leaves), Inside(f, size, first, second), f.(start := f.start + size);
    var c1 := Turn(data, inflate, c);
    TurnEnters(data, inflate, f, outer, leaves, size, first, second);
    var inner := Read(data, inside, inflate);
    var m := TurnsRead(data, inflate, inside, [next] + outer, leaves);
    n := 1 + m;
    OneTurn(data, inflate, c, m);
    if inner.stop == Done && size > 0 {
      var k := TurnsRead(data, inflate, next, outer, leaves + inner.leaves);
      n := 1 + (m + k);
      OneTurn(data, inflate, c, m + k);
      TurnsAdd(data, inflate, c1, m, k);
      ComesDone(data, Turns(data, inflate, c1, m), [next] + outer, leaves, inner);
      ComesAfter(data, Turns(data, inflate, c, n), outer, leaves, inner.leaves, Read(data, next, inflate));
    } else if inner.stop == Done {
      ComesToEmpty(data, Turns(data, inflate, c1, m), f, outer, leaves, inner);
    } else {
      ComesSame(data, Turns(data, inflate, c1, m), [next] + outer, outer, leaves, inner);
    }
  }

  lemma ComesDone(data: seq<byte>, c: Config, outer: seq<Frame>, leaves: seq<Leaf>, r: Reading)
    requires Comes(data, c, outer, leaves, r) && r.stop == Done
    ensures c == Running(outer, leaves + r.leaves)
  {
  }

  lemma ComesSame(data: seq<byte>, c: Config, within: seq<Frame>, outer: seq<Frame>, leaves: seq<Leaf>, r: Reading)
    requires Comes(data, c, within, leaves, r) && r.stop != Done
    ensures Comes(data, c, outer, leaves, r)
  {
  }

  lemma ComesToEmpty(data: seq<byte>, c: Config, f: Frame, outer: seq<Frame>, leaves: seq<Leaf>, inner: Reading)
    requires f.start < f.end && Header(data, f).Some? && Header(data, f).value.0 == GRUP && Header(data, f).value.1 == 0
    requires Comes(data, c, [f] + outer, leaves, inner) && inner.stop == Done
    ensures Comes(data, c, outer, leaves, Reading(inner.leaves, Hangs))
  {
    hide Int32At;
  }

  lemma ComesAfter(data: seq<byte>, c: Config, outer: seq<Frame>, leaves: seq<Leaf>, more: seq<Leaf>, r: Reading)
    requires Comes(data, c, outer, leaves + more, r)
    ensures Comes(data, c, outer, leaves, Prepend(more, r))
  {
    assert (leaves + more) + r.leaves == leaves + (more + r.leaves);
  }

  // ----- Exactly when -----

  function Begun(start: nat, end: nat, cell: nat): Config {
    Running([Frame(start, end, cell)], [])
  }

  lemma ReadingComes(data: seq<byte>, start: nat, end: nat, cell: nat, inflate: Inflate) returns (n: nat)
    ensures var r := Parse(data, start, end, cell, inflate);
            var c := Turns(data, inflate, Begun(start, end, cell), n);
            if r.stop == Hangs then AtEmptyGroup(data, c) && c.leaves == r.leaves else c == Ended(r)
  {
    hide Parse, AtEmptyGroup, Turns, Turn;
    var f := Frame(start, end, cell);
    var r := Parse(data, start, end, cell, inflate);
    n := TurnsRead(data, inflate, f, [], []);
    assert [f] + [] == [f] && [] + r.leaves == r.leaves;
    if r.stop == Done {
      TurnsAdd(data, inflate, Begun(start, end, cell), n, 1);
      NoCalls(data, inflate, r.leaves);
      n := n + 1;
    }
  }

  lemma NoCalls(data: seq<byte>, inflate: Inflate, leaves: seq<Leaf>)
    ensures Turns(data, inflate, Running([], leaves), 1) == Ended(Reading(leaves, Done))
  {
    assert Turns(data, inflate, Running([], leaves), 1)
        == Turns(data, inflate, Turn(data, inflate, Running([], leaves)), 0);
  }

  /** A configuration that is reached: it is at a group of size 0, or has ended, for good. */
  lemma OneOrTheOther(data: seq<byte>, inflate: Inflate, c: Config, m: nat, n: nat)
    requires AtEmptyGroup(data, Turns(data, inflate, c, m))
    ensures Turns(data, inflate, c, n).Running?
  {
    hide AtEmptyGroup;
    var at := Turns(data, inflate, c, m);
    StaysAtEmptyGroup(data, inflate, at, n);
    TurnsAdd(data, inflate, c, m, n);
    TurnsAdd(data, inflate, c, n, m);
    var later := Turns(data, inflate, c, n);
    if later.Ended? { EndedStays(data, inflate, later.reading, m); }
  }

  /** A reading hangs exactly if it never ends, and exactly if it comes to a group of size 0; else it ends, with what it
      says. */
  lemma HangsIff(data: seq<byte>, start: nat, end: nat, cell: nat, inflate: Inflate)
    ensures var r := Parse(data, start, end, cell, inflate);
            && (r.stop == Hangs <==> forall n :: Turns(data, inflate, Begun(start, end, cell), n).Running?)
            && (r.stop == Hangs <==> exists n :: AtEmptyGroup(data, Turns(data, inflate, Begun(start, end, cell), n)))
            && (r.stop != Hangs <==> exists n :: Turns(data, inflate, Begun(start, end, cell), n) == Ended(r))
  {
    hide Parse, AtEmptyGroup, Turns, Begun;
    var r, c := Parse(data, start, end, cell, inflate), Begun(start, end, cell);
    var m := ReadingComes(data, start, end, cell, inflate);
    forall n | AtEmptyGroup(data, Turns(data, inflate, c, n)) ensures forall k :: Turns(data, inflate, c, k).Running? {
      forall k ensures Turns(data, inflate, c, k).Running? { OneOrTheOther(data, inflate, c, n, k); }
    }
  }

  /** At this place the bytes say GRUP and 0. */
  predicate SaysEmptyGroup(data: seq<byte>, at: nat) {
    at + 16 <= |data| && data[at..at + 4] == GRUP && Int32At(data, at + 4) == 0
  }

  /** A file in which no group's header says 0 is read to an end. */
  lemma {:induction false} HangsInBytes(data: seq<byte>, start: nat, end: nat, cell: nat, inflate: Inflate)
    ensures Parse(data, start, end, cell, inflate).stop == Hangs ==>
              exists at :: start <= at && SaysEmptyGroup(data, at)
    decreases |data| - start
  {
    hide Int32At, BodyFields, Slice;
    if start < end && start + 16 <= |data| {
      var kind, size := data[start..start + 4], Int32At(data, start + 4);
      var first, second := Int32At(data, start + 8), Int32At(data, start + 12);
      if kind == GRUP {
        assert size == 0 ==> SaysEmptyGroup(data, start);
        HangsInBytes(data, start + HEADER, start + size, CellInside(second, first, cell), inflate);
        if size > 0 { HangsInBytes(data, start + size, end, cell, inflate); }
      } else {
        HangsInBytes(data, start + size + HEADER, end, cell, inflate);
      }
    }
  }

  /** A written record called GRUP that has no fields is such a group: what was written before it is read, and no more,
      ever. */
  lemma GroupNamedRecordHangs(before: seq<Tree>, form: nat, flags: nat, after: seq<byte>, inflate: Inflate)
    requires WriteAll(before).Some? && AllReadable(before, inflate) && Write(Record(GRUP, form, [], flags)).Some?
    ensures var data := WriteAll(before).value + Write(Record(GRUP, form, [], flags)).value + after;
            Parse(data, 0, |data|, 0, inflate) == Reading(AllLeaves(before, [], 0), Hangs)
  {
    hide WriteAll, AllLeaves, AllReadable, Parse, RecordHeader;
    var start, record := WriteAll(before).value, Write(Record(GRUP, form, [], flags)).value;
    var data := start + record + after;
    assert At(data, 0, start);
    assert At(data, |start|, record) by { assert data[|start|..|start| + |record|] == record; }
    ParseWritten(data, 0, before, [], 0, |data|, inflate);
    EmptyRecordHangs(data, |start|, |data|, form, flags, inflate);
    PrependStop(AllLeaves(before, [], 0), Hangs);
  }

  lemma EmptyRecordHangs(data: seq<byte>, start: nat, end: nat, form: nat, flags: nat, inflate: Inflate)
    requires form < U32 && flags < U32 && start < end
    requires At(data, start, RecordHeader(GRUP, 0, flags, form) + [])
    ensures Parse(data, start, end, 0, inflate) == Reading([], Hangs)
  {
    hide Int32At, RecordHeader;
    assert RecordHeader(GRUP, 0, flags, form) + [] == RecordHeader(GRUP, 0, flags, form);
    RecordHeaderRead(data, start, GRUP, 0, flags, form);
  }
}
