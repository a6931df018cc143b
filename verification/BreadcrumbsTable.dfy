/** The channel table as the client keeps it, an array changed in place under a spin lock
    (Code/client/Breadcrumbs.cpp). */
module BreadcrumbsTable {
  import opened Basics
  import opened Breadcrumbs

  /** One critical section of some call. */
  datatype Section = FirstOf(what: nat, key: Key, thread: nat, now: nat) | SecondOf(slot: nat, entry: Entry)

  ghost predicate Shape(cs: seq<Channel>) {
    |cs| == CHANNELS && forall c :: c in cs ==> |c.recent| == PER_CHANNEL
  }

  /** The channels after a section; a second section of no slot is none. */
  ghost function AfterSection(cs: seq<Channel>, section: Section): (r: seq<Channel>)
    requires Shape(cs)
    ensures Shape(r)
  {
    match section
    case FirstOf(what, key, thread, now) =>
      var (r, _) := AddFirst(cs, what, key, thread, now);
      assert forall c :: c in r ==> c in cs || |c.recent| == PER_CHANNEL;
      r
    case SecondOf(slot, entry) =>
      if slot >= CHANNELS then cs
      else
        assert cs[slot] in cs;
        AddSecond(cs, slot, entry)
  }

  ghost function AfterSections(cs: seq<Channel>, sections: seq<Section>): (r: seq<Channel>)
    requires Shape(cs)
    ensures Shape(r)
    decreases |sections|
  {
    if sections == [] then cs else AfterSections(AfterSection(cs, sections[0]), sections[1..])
  }

  lemma {:induction false} SectionsAppend(cs: seq<Channel>, a: seq<Section>, one: Section)
    requires Shape(cs)
    ensures AfterSections(cs, a + [one]) == AfterSection(AfterSections(cs, a), one)
    decreases |a|
  {
    hide AfterSection;
    if a == [] {
      assert a + [one] == [one];
    } else {
      assert (a + [one])[1..] == a[1..] + [one];
      SectionsAppend(AfterSection(cs, a[0]), a[1..], one);
    }
  }

  lemma OnePart(cs: seq<Channel>, first: Section)
    requires Shape(cs)
    ensures AfterSections(cs, [first] + [] + []) == AfterSection(cs, first)
  {
    hide AfterSection;
    assert [first] + [] + [] == [first];
  }

  lemma ThreeParts(cs: seq<Channel>, first: Section, others: seq<Section>, last: Section)
    requires Shape(cs)
    ensures AfterSections(cs, [first] + others + [last]) ==
        AfterSection(AfterSections(AfterSection(cs, first), others), last)
  {
    hide AfterSection;
    SectionsAppend(cs, [first] + others, last);
    assert ([first] + others)[1..] == others;
  }

  class Table {
    const channels: array<Channel>

    ghost predicate Valid()
      reads this, channels
    {
      channels.Length == CHANNELS && forall c :: c in channels[..] ==> |c.recent| == PER_CHANNEL
    }

    constructor ()
      ensures Valid() && fresh(channels) && channels[..] == Start().channels
    {
      channels := new Channel[CHANNELS](_ => NO_CHANNEL);
    }

    /** One channel rewritten. */
    method Put(at: nat, c: Channel)
      requires Valid() && at < CHANNELS && |c.recent| == PER_CHANNEL
      modifies channels
      ensures Valid() && channels[..] == old(channels[..])[at := c]
    {
      ghost var before := channels[..];
      channels[at] := c;
      assert channels[..] == before[at := c];
      forall d | d in channels[..] ensures |d.recent| == PER_CHANNEL {
        if d != c { assert d in before; }
      }
    }

    lemma ProbeNext(what: nat, k: nat)
      ensures ProbeSlot(what, k + 1) == (ProbeSlot(what, k) + 1) % CHANNELS
    {
    }

    /** Open addressing on the name's address: its channel, made on first use. */
    method ChannelFor(what: nat) returns (slot: Option<nat>)
      requires Valid()
      modifies channels
      ensures Valid()
      ensures (channels[..], slot) == ChannelOf(old(channels[..]), what)
    {
      ghost var before := channels[..];
      var at := (what / 8) % CHANNELS;
      var probe := 0;
      while probe < CHANNELS
        invariant 0 <= probe <= CHANNELS
        invariant at == ProbeSlot(what, probe)
        invariant Valid() && channels[..] == before
        invariant FindFrom(before, what, probe) == FindFrom(before, what, 0)
      {
        if channels[at].what == what || channels[at].what == 0 {
          assert channels[at] in channels[..];
          Put(at, channels[at].(what := what));
          return Some(at);
        }
        ProbeNext(what, probe);
        at := (at + 1) % CHANNELS;
        probe := probe + 1;
      }
      return None;
    }

    /** The first critical section of a call. */
    method FirstSection(what: nat, key: Key, thread: nat, now: nat) returns (first: First)
      requires Valid()
      modifies channels
      ensures Valid()
      ensures (channels[..], first) == AddFirst(old(channels[..]), what, key, thread, now)
    {
      ghost var before := channels[..];
      var slot := ChannelFor(what);
      if slot.None? { return Full; }
      var at := slot.value;
      assert channels[at] in channels[..];
      var c := channels[at].(total := channels[at].total + 1, lastMs := now);
      assert c == before[at].(what := what, total := before[at].total + 1, lastMs := now);
      var i := 0;
      ghost var named := channels[..];
      while i < |c.recent|
        invariant 0 <= i <= |c.recent|
        invariant Valid() && channels[..] == named
        invariant RepeatIn(c.recent, key, i) == RepeatIn(c.recent, key, 0)
      {
        var e := c.recent[i];
        if e.count > 0 && e.key == key {
          Put(at, c.(recent := c.recent[i := e.(count := e.count + 1, lastMs := now, threadId := thread)]));
          assert channels[..] == before[at := channels[at]];
          return Repeated;
        }
        i := i + 1;
      }
      var describe := key.target != 0 && (now - c.describedMs) % U64 >= DESCRIBE_EVERY_MS;
      if describe {
        c := c.(describedMs := now);
      }
      Put(at, c);
      assert channels[..] == before[at := channels[at]];
      return New(at, Entry(key, describe, thread, 1, now, now));
    }

    /** The second. */
    method SecondSection(slot: nat, entry: Entry)
      requires Valid() && slot < CHANNELS
      modifies channels
      ensures Valid() && channels[..] == AddSecond(old(channels[..]), slot, entry)
    {
      var c := channels[slot];
      assert c in channels[..];
      Put(slot, c.(recent := c.recent[c.next % PER_CHANNEL := entry], next := c.next + 1));
    }

    /** Other threads' sections while this one describes its object outside the lock. */
    method Others() returns (ghost sections: seq<Section>)
      requires Valid()
      modifies channels
      ensures Valid() && channels[..] == AfterSections(old(channels[..]), sections)
    {
      sections := [];
    }

    /** A whole call. `others`: the sections of other calls between its own two. */
    method Add(what: nat, key: Key, thread: nat, now: nat) returns (first: First, ghost others: seq<Section>)
      requires Valid()
      modifies channels
      ensures Valid()
      ensures first == AddFirst(old(channels[..]), what, key, thread, now).1
      ensures channels[..] == AfterSections(old(channels[..]),
                                            [FirstOf(what, key, thread, now)] + others
                                            + if first.New? then [SecondOf(first.slot, first.entry)] else [])
      ensures !first.New? ==> others == []
    {
      ghost var before := channels[..];
      first := FirstSection(what, key, thread, now);
      ghost var begun := channels[..];
      others := [];
      if first.New? {
        others := Others();
        SecondSection(first.slot, first.entry);
        ThreeParts(before, FirstOf(what, key, thread, now), others, SecondOf(first.slot, first.entry));
      } else {
        OnePart(before, FirstOf(what, key, thread, now));
      }
    }

    /** The names in use and their totals, up to so many. */
    method Totals(capacity: nat) returns (r: seq<(nat, nat)>)
      requires Valid()
      ensures r == InUse(channels[..])[..if capacity < |InUse(channels[..])| then capacity else |InUse(channels[..])|]
    {
      hide InUse;
      r := [];
      var i := 0;
      ghost var all := InUse(channels[..]);
      ghost var skipped: seq<(nat, nat)> := [];
      assert channels[0..] == channels[..];
      NoneInUse();
      while i < channels.Length
        invariant 0 <= i <= channels.Length
        invariant |r| <= capacity && (skipped != [] ==> |r| == capacity)
        invariant all == r + (skipped + InUse(channels[i..]))
      {
        InUseStep(channels[..], i);
        assert channels[i..] == channels[..][i..] && channels[i + 1..] == channels[..][i + 1..];
        NothingAdded(InUse(channels[i + 1..]));
        if channels[i].what != 0 {
          var item := (channels[i].what, channels[i].total);
          Regroup(r, skipped, item, InUse(channels[i + 1..]));
          if |r| < capacity {
            r := r + [item];
          } else {
            skipped := skipped + [item];
          }
        }
        i := i + 1;
      }
      assert channels[channels.Length..] == [];
      Cut(r, skipped, all);
    }

    lemma NoneInUse()
      ensures InUse([]) == []
    {
    }

    lemma NothingAdded<T>(s: seq<T>)
      ensures [] + s == s
    {
    }

    lemma Cut<T>(r: seq<T>, skipped: seq<T>, all: seq<T>)
      requires all == r + (skipped + [])
      ensures all[..|r|] == r && (skipped == [] ==> all == r)
    {
    }

    lemma InUseStep(cs: seq<Channel>, i: nat)
      requires i < |cs|
      ensures InUse(cs[i..]) == (if cs[i].what != 0 then [(cs[i].what, cs[i].total)] else []) + InUse(cs[i + 1..])
    {
      assert cs[i..][0] == cs[i] && cs[i..][1..] == cs[i + 1..];
    }

    lemma Regroup<T>(a: seq<T>, b: seq<T>, x: T, rest: seq<T>)
      ensures a + (b + ([x] + rest)) == a + ((b + [x]) + rest)
      ensures b == [] ==> a + (b + ([x] + rest)) == (a + [x]) + ([] + rest)
    {
      assert b + ([x] + rest) == (b + [x]) + rest;
    }
  }
}
