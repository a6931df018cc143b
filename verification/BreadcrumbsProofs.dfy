/** The table refines a map from names to channels, and in every interleaving of calls each channel counts its own. */
module BreadcrumbsProofs {
  import opened Basics
  import opened Breadcrumbs

  // ----- The table -----

  /** The slot is reached by the name's k-th probe, and every probe before finds another name. */
  ghost predicate ReachedAt(cs: seq<Channel>, what: nat, slot: nat, k: nat)
    requires |cs| == CHANNELS
  {
    k < CHANNELS && ProbeSlot(what, k) == slot &&
    forall j :: 0 <= j < k ==> cs[ProbeSlot(what, j)].what != 0 && cs[ProbeSlot(what, j)].what != what
  }

  ghost predicate Reached(cs: seq<Channel>, slot: nat)
    requires |cs| == CHANNELS && slot < CHANNELS
  {
    exists k :: 0 <= k < CHANNELS && ReachedAt(cs, cs[slot].what, slot, k)
  }

  /** Each name has at most one channel, and its search gets there. */
  ghost predicate TableOk(cs: seq<Channel>) {
    && |cs| == CHANNELS
    && (forall i, j :: 0 <= i < j < CHANNELS && cs[i].what != 0 ==> cs[i].what != cs[j].what)
    && (forall i {:trigger Reached(cs, i)} :: 0 <= i < CHANNELS && cs[i].what != 0 ==> Reached(cs, i))
  }

  /** The search stops at the first probe that finds the name or an empty slot. */
  lemma {:induction false} FindStops(cs: seq<Channel>, what: nat, from: nat, k: nat)
    requires |cs| == CHANNELS && from <= k < CHANNELS
    requires forall j :: from <= j < k ==> cs[ProbeSlot(what, j)].what != 0 && cs[ProbeSlot(what, j)].what != what
    requires cs[ProbeSlot(what, k)].what == what || cs[ProbeSlot(what, k)].what == 0
    ensures FindFrom(cs, what, from) == Some(ProbeSlot(what, k))
    decreases k - from
  {
    if from < k {
      FindStops(cs, what, from + 1, k);
    }
  }

  lemma {:induction false} FoundAt(cs: seq<Channel>, what: nat, from: nat) returns (k: nat)
    requires |cs| == CHANNELS && from <= CHANNELS && FindFrom(cs, what, from).Some?
    ensures from <= k < CHANNELS && FindFrom(cs, what, from) == Some(ProbeSlot(what, k))
    ensures cs[ProbeSlot(what, k)].what == what || cs[ProbeSlot(what, k)].what == 0
    ensures forall j :: from <= j < k ==> cs[ProbeSlot(what, j)].what != 0 && cs[ProbeSlot(what, j)].what != what
    decreases CHANNELS - from
  {
    if cs[ProbeSlot(what, from)].what == what || cs[ProbeSlot(what, from)].what == 0 {
      k := from;
    } else {
      k := FoundAt(cs, what, from + 1);
    }
  }

  /** The probes visit every slot. */
  lemma ProbesEverySlot(what: nat, slot: nat) returns (k: nat)
    requires slot < CHANNELS
    ensures k < CHANNELS && ProbeSlot(what, k) == slot
  {
    k := (slot + CHANNELS - (what / 8) % CHANNELS) % CHANNELS;
  }

  lemma {:induction false} FindFails(cs: seq<Channel>, what: nat, from: nat)
    requires |cs| == CHANNELS && from <= CHANNELS && FindFrom(cs, what, from).None?
    ensures forall j :: from <= j < CHANNELS ==> cs[ProbeSlot(what, j)].what != 0 && cs[ProbeSlot(what, j)].what != what
    decreases CHANNELS - from
  {
    if from < CHANNELS {
      FindFails(cs, what, from + 1);
    }
  }

  /** The search is a map's lookup: a name's channel when it has one, an empty slot for a new name, and nothing only
      when every slot belongs to another name. */
  lemma FindIsLookup(cs: seq<Channel>, what: nat)
    requires TableOk(cs) && what != 0
    ensures forall i :: 0 <= i < CHANNELS && cs[i].what == what ==> FindFrom(cs, what, 0) == Some(i)
    ensures FindFrom(cs, what, 0).Some? && (forall i :: 0 <= i < CHANNELS ==> cs[i].what != what) ==>
              cs[FindFrom(cs, what, 0).value].what == 0
    ensures FindFrom(cs, what, 0).None? <==> forall i :: 0 <= i < CHANNELS ==> cs[i].what != 0 && cs[i].what != what
  {
    forall i | 0 <= i < CHANNELS && cs[i].what == what ensures FindFrom(cs, what, 0) == Some(i) {
      assert Reached(cs, i);
      var k :| 0 <= k < CHANNELS && ReachedAt(cs, what, i, k);
      FindStops(cs, what, 0, k);
    }
    if FindFrom(cs, what, 0).Some? {
      var k := FoundAt(cs, what, 0);
    } else {
      FindFails(cs, what, 0);
      forall i | 0 <= i < CHANNELS ensures cs[i].what != 0 && cs[i].what != what {
        var k := ProbesEverySlot(what, i);
      }
    }
  }

  /** Naming the found slot keeps the table: nobody else's search meets an empty slot it did not meet before. */
  lemma NamedKeepsTable(cs: seq<Channel>, what: nat, c: Channel)
    requires TableOk(cs) && what != 0 && FindFrom(cs, what, 0).Some? && c.what == what
    ensures TableOk(cs[FindFrom(cs, what, 0).value := c])
  {
    var slot := FindFrom(cs, what, 0).value;
    var cs' := cs[slot := c];
    FindIsLookup(cs, what);
    var k := FoundAt(cs, what, 0);
    forall i | 0 <= i < CHANNELS && cs'[i].what != 0 ensures Reached(cs', i) {
      if i == slot {
        assert ReachedAt(cs', what, slot, k);
      } else {
        assert Reached(cs, i);
        var m :| 0 <= m < CHANNELS && ReachedAt(cs, cs[i].what, i, m);
        assert ReachedAt(cs', cs'[i].what, i, m);
      }
    }
  }

  lemma SameNamesKeepTable(cs: seq<Channel>, cs': seq<Channel>)
    requires TableOk(cs) && |cs'| == CHANNELS && forall i :: 0 <= i < CHANNELS ==> cs'[i].what == cs[i].what
    ensures TableOk(cs')
  {
    forall i | 0 <= i < CHANNELS && cs'[i].what != 0 ensures Reached(cs', i) {
      assert Reached(cs, i);
      var m :| 0 <= m < CHANNELS && ReachedAt(cs, cs[i].what, i, m);
      assert ReachedAt(cs', cs'[i].what, i, m);
    }
  }

  // ----- Counting -----

  function Counted(e: Entry, only: Option<Key>): nat {
    if Of(only, e.key) then e.count else 0
  }

  lemma {:induction false} CountsUpdated(recent: seq<Entry>, i: nat, e: Entry, only: Option<Key>)
    requires i < |recent|
    ensures Counts(recent[i := e], only) + Counted(recent[i], only) == Counts(recent, only) + Counted(e, only)
  {
    if i > 0 {
      assert recent[i := e][1..] == recent[1..][i - 1 := e];
      CountsUpdated(recent[1..], i - 1, e, only);
    } else {
      assert recent[0 := e][1..] == recent[1..];
    }
  }

  lemma {:induction false} CountsZero(recent: seq<Entry>, only: Option<Key>)
    requires forall i :: 0 <= i < |recent| ==> recent[i].count == 0
    ensures Counts(recent, only) == 0
  {
    if recent != [] { CountsZero(recent[1..], only); }
  }

  lemma {:induction false} CountsAppended(entries: seq<Entry>, e: Entry, only: Option<Key>)
    ensures Counts(entries + [e], only) == Counts(entries, only) + Counted(e, only)
  {
    if entries == [] {
      assert [] + [e] == [e];
    } else {
      assert (entries + [e])[1..] == entries[1..] + [e];
      CountsAppended(entries[1..], e, only);
    }
  }

  function Waiting(p: Pending, slot: nat, only: Option<Key>): nat {
    if p.slot == slot && Of(only, p.entry.key) then 1 else 0
  }

  lemma {:induction false} PendingAppended(pending: seq<Pending>, p: Pending, slot: nat, only: Option<Key>)
    ensures PendingOn(pending + [p], slot, only) == PendingOn(pending, slot, only) + Waiting(p, slot, only)
  {
    if pending == [] {
      assert [] + [p] == [p];
    } else {
      assert (pending + [p])[1..] == pending[1..] + [p];
      PendingAppended(pending[1..], p, slot, only);
    }
  }

  lemma {:induction false} PendingRemoved(pending: seq<Pending>, i: nat, slot: nat, only: Option<Key>)
    requires i < |pending|
    ensures PendingOn(pending, slot, only)
         == PendingOn(pending[..i] + pending[i + 1..], slot, only) + Waiting(pending[i], slot, only)
  {
    if i == 0 {
      assert pending[..0] + pending[1..] == pending[1..];
    } else {
      assert (pending[..i] + pending[i + 1..])[1..] == pending[1..][..i - 1] + pending[1..][i..];
      PendingRemoved(pending[1..], i - 1, slot, only);
    }
  }

  lemma CallsAppended(history: seq<Call>, last: Call, what: nat, only: Option<Key>)
    ensures Calls(history + [last], what, only)
         == Calls(history, what, only) + if last.what == what && Of(only, last.key) then 1 else 0
  {
    assert (history + [last])[..|history|] == history;
  }

  lemma TimeAppended(history: seq<Call>, last: Call, what: nat, describing: bool)
    ensures LastTime(history + [last], what, describing)
         == if last.what == what && (describing ==> last.described) then last.now
            else LastTime(history, what, describing)
  {
    assert (history + [last])[..|history|] == history;
  }

  // ----- The invariant -----

  /** One slot's books, for a key or all of them: what its ring holds, what was overwritten there and the calls between
      their sections are the calls of its name. */
  ghost predicate BooksOk(w: World, slot: nat, only: Option<Key>)
    requires Shaped(w) && slot < CHANNELS
  {
    Counts(w.channels[slot].recent, only) + Counts(w.lost[slot], only) + PendingOn(w.pending, slot, only)
    == if w.channels[slot].what == 0 then 0 else Calls(w.history, w.channels[slot].what, only)
  }

  /** The ring turns: it has the newest entries made, each at its turn, and what was overwritten are the older ones. */
  ghost predicate RingTurns(c: Channel, made: seq<Key>, lost: seq<Entry>) {
    && |c.recent| == PER_CHANNEL && c.next == |made| == |lost|
    && (forall k :: 0 <= k < |made| && |made| <= k + PER_CHANNEL ==> c.recent[k % PER_CHANNEL].key == made[k])
    && (forall k :: |made| <= k < PER_CHANNEL ==> c.recent[k] == NO_ENTRY)
    && (forall k :: 0 <= k < |lost| && k < PER_CHANNEL ==> lost[k] == NO_ENTRY)
    && (forall k :: PER_CHANNEL <= k < |lost| ==> lost[k].key == made[k - PER_CHANNEL])
  }

  ghost predicate SlotOk(w: World, slot: nat)
    requires Shaped(w) && slot < CHANNELS
  {
    var c := w.channels[slot];
    && (forall only {:trigger BooksOk(w, slot, only)} :: BooksOk(w, slot, only))
    && RingTurns(c, w.made[slot], w.lost[slot])
    && (c.what == 0 ==> c == NO_CHANNEL)
    && (c.what != 0 ==>
          && c.total == Calls(w.history, c.what, None)
          && c.lastMs == LastTime(w.history, c.what, false) && c.describedMs == LastTime(w.history, c.what, true))
    && (forall i :: 0 <= i < PER_CHANNEL ==> c.recent[i].count > 0 || c.recent[i] == NO_ENTRY)
  }

  ghost predicate HasChannel(w: World, what: nat) {
    exists i :: 0 <= i < |w.channels| && w.channels[i].what == what
  }

  ghost predicate TableFull(w: World) {
    forall i :: 0 <= i < |w.channels| ==> w.channels[i].what != 0
  }

  ghost predicate Inv(w: World) {
    && Shaped(w)
    && TableOk(w.channels)
    && (forall slot {:trigger SlotOk(w, slot)} :: 0 <= slot < CHANNELS ==> SlotOk(w, slot))
    && (forall p :: p in w.pending ==> p.what != 0 && w.channels[p.slot].what == p.what && p.entry.count == 1)
    && (forall what {:trigger Calls(w.history, what, None)} ::
          what != 0 && Calls(w.history, what, None) > 0 && !HasChannel(w, what) ==> TableFull(w))
  }

  lemma StartInv()
    ensures Inv(Start())
  {
    var w := Start();
    forall slot | 0 <= slot < CHANNELS ensures SlotOk(w, slot) {
      assert w.channels[slot] == NO_CHANNEL;
      forall only ensures BooksOk(w, slot, only) { CountsZero(NO_CHANNEL.recent, only); }
    }
  }

  lemma FullKeepsInv(w: World, call: Call)
    requires Inv(w) && call.what != 0 && FindFrom(w.channels, call.what, 0).None?
    ensures Inv(w.(history := w.history + [call]))
  {
    var w' := w.(history := w.history + [call]);
    FindIsLookup(w.channels, call.what);
    forall slot | 0 <= slot < CHANNELS ensures SlotOk(w', slot) {
      assert SlotOk(w, slot);
      CallsAppended(w.history, call, w.channels[slot].what, None);
      TimeAppended(w.history, call, w.channels[slot].what, true);
      TimeAppended(w.history, call, w.channels[slot].what, false);
      forall only ensures BooksOk(w', slot, only) {
        assert BooksOk(w, slot, only);
        CallsAppended(w.history, call, w.channels[slot].what, only);
      }
    }
    assert TableFull(w');
  }

  /** One more count of the key in the slot's ring or between its sections. */
  ghost predicate OneMore(w: World, slot: nat, recent: seq<Entry>, pending: seq<Pending>, key: Key, only: Option<Key>)
    requires slot < |w.channels|
  {
    && Counts(recent, only) + PendingOn(pending, slot, only)
       == Counts(w.channels[slot].recent, only) + PendingOn(w.pending, slot, only) + (if Of(only, key) then 1 else 0)
    && forall s {:trigger PendingOn(pending, s, only)} :: 0 <= s < CHANNELS && s != slot ==>
         PendingOn(pending, s, only) == PendingOn(w.pending, s, only)
  }

  /** One more call in a name's slot. */
  ghost predicate CallCounted(w: World, call: Call, c: Channel, pending: seq<Pending>)
    requires Shaped(w) && FindFrom(w.channels, call.what, 0).Some?
  {
    var slot := FindFrom(w.channels, call.what, 0).value;
    && c.what == call.what && c.total == w.channels[slot].total + 1
    && c.lastMs == call.now && c.describedMs == (if call.described then call.now else w.channels[slot].describedMs)
    && RingTurns(c, w.made[slot], w.lost[slot])
    && (forall i :: 0 <= i < PER_CHANNEL ==> c.recent[i].count > 0 || c.recent[i] == NO_ENTRY)
    && (forall p :: p in pending ==>
          p in w.pending || (p.what == call.what && p.slot == slot && p.entry.count == 1))
    && forall only {:trigger OneMore(w, slot, c.recent, pending, call.key, only)} ::
         OneMore(w, slot, c.recent, pending, call.key, only)
  }

  lemma CountedBooks(w: World, call: Call, c: Channel, pending: seq<Pending>, s: nat)
    requires Inv(w) && call.what != 0 && FindFrom(w.channels, call.what, 0).Some? && CallCounted(w, call, c, pending)
    requires s < CHANNELS
    ensures var slot := FindFrom(w.channels, call.what, 0).value;
            var w' := w.(channels := w.channels[slot := c], pending := pending, history := w.history + [call]);
            Shaped(w') && SlotOk(w', s)
  {
    var slot := FindFrom(w.channels, call.what, 0).value;
    var w' := w.(channels := w.channels[slot := c], pending := pending, history := w.history + [call]);
    FindIsLookup(w.channels, call.what);
    forall d | d in w'.channels ensures |d.recent| == PER_CHANNEL {
      if d != c { assert d in w.channels; }
    }
    assert SlotOk(w, s);
    CallsAppended(w.history, call, w'.channels[s].what, None);
    TimeAppended(w.history, call, w'.channels[s].what, true);
    TimeAppended(w.history, call, w'.channels[s].what, false);
    var isNew := w.channels[slot].what == 0;
    if isNew { NeverCalled(w, call.what, None); }
    forall only ensures BooksOk(w', s, only) {
      assert BooksOk(w, s, only) && OneMore(w, slot, c.recent, pending, call.key, only);
      CallsAppended(w.history, call, w'.channels[s].what, only);
      if isNew { NeverCalled(w, call.what, only); }
    }
  }

  lemma CountedKeepsInv(w: World, call: Call, c: Channel, pending: seq<Pending>)
    requires Inv(w) && call.what != 0 && FindFrom(w.channels, call.what, 0).Some? && CallCounted(w, call, c, pending)
    ensures Inv(w.(channels := w.channels[FindFrom(w.channels, call.what, 0).value := c], pending := pending,
                   history := w.history + [call]))
  {
    var slot := FindFrom(w.channels, call.what, 0).value;
    var w' := w.(channels := w.channels[slot := c], pending := pending, history := w.history + [call]);
    FindIsLookup(w.channels, call.what);
    NamedKeepsTable(w.channels, call.what, c);
    forall s | 0 <= s < CHANNELS ensures Shaped(w') && SlotOk(w', s) { CountedBooks(w, call, c, pending, s); }
    CountedBooks(w, call, c, pending, 0);
    forall p | p in pending
        ensures p.slot < CHANNELS && p.what != 0 && w'.channels[p.slot].what == p.what && p.entry.count == 1 {
    }
    hide SlotOk, CallCounted, TableOk;
    forall other | other != 0 && Calls(w'.history, other, None) > 0 && !HasChannel(w', other) ensures TableFull(w') {
      CallsAppended(w.history, call, other, None);
      assert w'.channels[slot].what == call.what;
      forall i | 0 <= i < CHANNELS ensures w.channels[i].what != other {
        if i != slot { assert w'.channels[i] == w.channels[i]; }
      }
      assert TableFull(w);
    }
  }

  lemma {:induction false} CallsOfOne(history: seq<Call>, what: nat, only: Option<Key>)
    ensures Calls(history, what, only) <= Calls(history, what, None)
    ensures Calls(history, what, None) == 0 ==> LastTime(history, what, true) == 0
  {
    if history != [] { CallsOfOne(history[..|history| - 1], what, only); }
  }

  /** A name that would get an empty slot was never called: a call of it would have got that slot. */
  lemma NeverCalled(w: World, what: nat, only: Option<Key>)
    requires Inv(w) && what != 0 && FindFrom(w.channels, what, 0).Some?
    requires w.channels[FindFrom(w.channels, what, 0).value].what == 0
    ensures Calls(w.history, what, only) == 0 && LastTime(w.history, what, true) == 0
  {
    FindIsLookup(w.channels, what);
    var slot := FindFrom(w.channels, what, 0).value;
    assert !HasChannel(w, what) && w.channels[slot].what == 0;
    assert !TableFull(w);
    CallsOfOne(w.history, what, only);
  }

  lemma RepeatCounted(w: World, what: nat, key: Key, thread: nat, now: nat)
    requires Inv(w) && what != 0 && AddFirst(w.channels, what, key, thread, now).1.Repeated?
    ensures FindFrom(w.channels, what, 0).Some?
    ensures var slot := FindFrom(w.channels, what, 0).value;
            CallCounted(w, Call(what, key, now, false), AddFirst(w.channels, what, key, thread, now).0[slot], w.pending)
  {
    var slot := FindFrom(w.channels, what, 0).value;
    var recent := w.channels[slot].recent;
    assert SlotOk(w, slot);
    var c := AddFirst(w.channels, what, key, thread, now).0[slot];
    var i := RepeatIn(recent, key, 0).value;
    forall only ensures OneMore(w, slot, c.recent, w.pending, key, only) {
      CountsUpdated(recent, i, c.recent[i], only);
    }
  }

  lemma NewCounted(w: World, what: nat, key: Key, thread: nat, now: nat)
    requires Inv(w) && what != 0 && AddFirst(w.channels, what, key, thread, now).1.New?
    ensures FindFrom(w.channels, what, 0).Some?
    ensures var slot, (cs, first) := FindFrom(w.channels, what, 0).value, AddFirst(w.channels, what, key, thread, now);
            CallCounted(w, Call(what, key, now, first.entry.described), cs[slot],
                        w.pending + [Pending(what, first.slot, first.entry)])
  {
    var slot := FindFrom(w.channels, what, 0).value;
    assert SlotOk(w, slot);
    var (cs, first) := AddFirst(w.channels, what, key, thread, now);
    var p := Pending(what, first.slot, first.entry);
    forall only ensures OneMore(w, slot, cs[slot].recent, w.pending + [p], key, only) {
      forall s ensures PendingOn(w.pending + [p], s, only) == PendingOn(w.pending, s, only) + Waiting(p, s, only) {
        PendingAppended(w.pending, p, s, only);
      }
    }
  }

  lemma BeginKeepsInv(w: World, what: nat, key: Key, thread: nat, now: nat)
    requires Inv(w) && what != 0
    ensures Inv(Next(w, Begin(what, key, thread, now)))
  {
    var w' := Next(w, Begin(what, key, thread, now));
    var (cs, first) := AddFirst(w.channels, what, key, thread, now);
    hide Inv, CallCounted;
    match first
    case Full => FullKeepsInv(w, Call(what, key, now, false));
    case Repeated =>
      RepeatCounted(w, what, key, thread, now);
      CountedKeepsInv(w, Call(what, key, now, false), cs[FindFrom(w.channels, what, 0).value], w'.pending);
    case New(_, entry) =>
      NewCounted(w, what, key, thread, now);
      CountedKeepsInv(w, Call(what, key, now, entry.described), cs[FindFrom(w.channels, what, 0).value], w'.pending);
  }

  /** A new entry written: the ring goes on turning. */
  lemma RingGoesOn(c: Channel, made: seq<Key>, lost: seq<Entry>, e: Entry)
    requires RingTurns(c, made, lost)
    ensures RingTurns(c.(recent := c.recent[c.next % PER_CHANNEL := e], next := c.next + 1), made + [e.key],
                      lost + [c.recent[c.next % PER_CHANNEL]])
  {
    forall k: nat | k < c.next && c.next < k + PER_CHANNEL ensures k % PER_CHANNEL != c.next % PER_CHANNEL {
      OtherPlace(k, c.next);
    }
    if c.next >= PER_CHANNEL { SamePlace(c.next); }
  }

  lemma OtherPlace(k: nat, n: nat)
    requires k < n < k + PER_CHANNEL
    ensures k % PER_CHANNEL != n % PER_CHANNEL
  {
  }

  lemma SamePlace(n: nat)
    requires n >= PER_CHANNEL
    ensures (n - PER_CHANNEL) % PER_CHANNEL == n % PER_CHANNEL
  {
  }

  lemma FinishBooks(w: World, index: nat, slot: nat)
    requires Inv(w) && index < |w.pending| && slot < CHANNELS
    ensures var w' := Next(w, Finish(index)); Shaped(w') && SlotOk(w', slot)
  {
    var p := w.pending[index];
    var w' := Next(w, Finish(index));
    var c := w.channels[p.slot];
    var i := c.next % PER_CHANNEL;
    assert p in w.pending;
    forall d | d in w'.channels ensures |d.recent| == PER_CHANNEL {
      if d != w'.channels[p.slot] { assert d in w.channels; }
    }
    assert SlotOk(w, slot);
    if slot == p.slot { RingGoesOn(c, w.made[slot], w.lost[slot], p.entry); }
    forall only ensures BooksOk(w', slot, only) {
      assert BooksOk(w, slot, only);
      PendingRemoved(w.pending, index, slot, only);
      if slot == p.slot {
        CountsUpdated(c.recent, i, p.entry, only);
        CountsAppended(w.lost[slot], c.recent[i], only);
      }
    }
  }

  lemma FinishKeepsInv(w: World, index: nat)
    requires Inv(w) && index < |w.pending|
    ensures Inv(Next(w, Finish(index)))
  {
    var w' := Next(w, Finish(index));
    assert w.pending[index] in w.pending;
    SameNamesKeepTable(w.channels, w'.channels);
    forall slot | 0 <= slot < CHANNELS ensures Shaped(w') && SlotOk(w', slot) { FinishBooks(w, index, slot); }
    FinishBooks(w, index, 0);
    hide SlotOk, TableOk, Reached;
    forall what | what != 0 && Calls(w'.history, what, None) > 0 && !HasChannel(w', what) ensures TableFull(w') {
      forall j | 0 <= j < CHANNELS
          ensures w.channels[j].what != what { assert w'.channels[j].what == w.channels[j].what; }
      assert TableFull(w);
    }
  }

  lemma {:induction false} RunInv(ws: seq<World>, steps: seq<Step>, i: nat)
    requires Run(ws, steps) && i < |ws|
    ensures Inv(ws[i])
  {
    hide Inv, Next;
    if i == 0 {
      StartInv();
    } else {
      RunInv(ws, steps, i - 1);
      match steps[i - 1]
      case Begin(what, key, thread, now) => BeginKeepsInv(ws[i - 1], what, key, thread, now);
      case Finish(index) => FinishKeepsInv(ws[i - 1], index);
    }
  }

  // ----- What every interleaving keeps -----

  /** In every interleaving, for each channel and each key (or, with `only` None, for all keys): the counts of the
      ring's entries, the counts overwritten there and the calls between their sections are exactly the calls begun
      with the channel's name and that key; and a channel's total is the number of calls of its name. */
  lemma TotalsAccountForCalls(ws: seq<World>, steps: seq<Step>, i: nat, slot: nat, only: Option<Key>)
    requires Run(ws, steps) && i < |ws| && slot < CHANNELS
    ensures Shaped(ws[i])
    ensures var c := ws[i].channels[slot];
            c.what != 0 ==>
              && Counts(c.recent, only) + Counts(ws[i].lost[slot], only) + PendingOn(ws[i].pending, slot, only)
                 == Calls(ws[i].history, c.what, only)
              && c.total == Calls(ws[i].history, c.what, None)
    ensures ws[i].channels[slot].what == 0 ==> ws[i].channels[slot] == NO_CHANNEL
  {
    RunInv(ws, steps, i);
    assert SlotOk(ws[i], slot) && BooksOk(ws[i], slot, only);
  }

  /** In every interleaving a ring holds the entries written last, as many as it has places, each at its turn; an entry
      is overwritten only by the one written a whole turn later. */
  lemma OldestOverwritten(ws: seq<World>, steps: seq<Step>, i: nat, slot: nat)
    requires Run(ws, steps) && i < |ws| && slot < CHANNELS
    ensures Shaped(ws[i]) && RingTurns(ws[i].channels[slot], ws[i].made[slot], ws[i].lost[slot])
  {
    RunInv(ws, steps, i);
    assert SlotOk(ws[i], slot);
  }

  /** In every interleaving, a call whose name gets a channel either counts up the first entry of its key in the ring,
      as of now and its thread, or, with no such entry, is to write a new one; that describes its object if there is
      one and 50 ms have passed, on a 64-bit clock, since a call of the name last described one. */
  lemma CountsUpOrIsNew(ws: seq<World>, steps: seq<Step>, i: nat, slot: nat)
    requires Run(ws, steps) && i < |steps| && steps[i].Begin? && Shaped(ws[i + 1])
    requires slot < CHANNELS && ws[i + 1].channels[slot].what == steps[i].what
    ensures Shaped(ws[i])
    ensures var step, ring, c := steps[i], ws[i].channels[slot].recent, ws[i + 1].channels[slot];
            && c.total == ws[i].channels[slot].total + 1 && c.lastMs == step.now
            && c.next == ws[i].channels[slot].next
            && (forall k :: 0 <= k < PER_CHANNEL && IsFirst(ring, step.key, k) ==>
                  && c.recent == ring[k := ring[k].(count := ring[k].count + 1, lastMs := step.now,
                                                    threadId := step.thread)]
                  && ws[i + 1].pending == ws[i].pending)
            && ((forall k :: 0 <= k < PER_CHANNEL ==> !Holds(ring[k], step.key)) ==>
                  var described := step.key.target != 0
                      && (step.now - LastTime(ws[i].history, step.what, true)) % U64 >= DESCRIBE_EVERY_MS;
                  && c.recent == ring
                  && ws[i + 1].pending == ws[i].pending + [Pending(step.what, slot,
                       Entry(step.key, described, step.thread, 1, step.now, step.now))])
  {
    hide Inv, FindFrom, RepeatIn, RingTurns, BooksOk, LastTime, TableOk;
    var step, w := steps[i], ws[i];
    RunInv(ws, steps, i);
    BeginFinds(w, step.what, step.key, step.thread, step.now, slot);
    FindRepeat(w.channels[slot].recent, step.key, 0);
  }

  /** The slot a call has named is the one its search found; it was described last when its name was. */
  lemma BeginFinds(w: World, what: nat, key: Key, thread: nat, now: nat, slot: nat)
    requires Inv(w) && what != 0 && slot < CHANNELS
    requires AddFirst(w.channels, what, key, thread, now).0[slot].what == what
    ensures FindFrom(w.channels, what, 0) == Some(slot)
    ensures w.channels[slot].describedMs == LastTime(w.history, what, true)
  {
    FindIsLookup(w.channels, what);
    assert SlotOk(w, slot);
    hide AddFirst;
    FirstNames(w.channels, what, key, thread, now, slot);
    if w.channels[slot].what == 0 { NeverCalled(w, what, None); }
  }

  lemma FirstNames(cs: seq<Channel>, what: nat, key: Key, thread: nat, now: nat, slot: nat)
    requires |cs| == CHANNELS && (forall c :: c in cs ==> |c.recent| == PER_CHANNEL) && slot < CHANNELS
    ensures AddFirst(cs, what, key, thread, now).0[slot].what == what ==>
              cs[slot].what == what || FindFrom(cs, what, 0) == Some(slot)
  {
    hide FindFrom, RepeatIn;
  }

  ghost predicate Holds(e: Entry, key: Key) {
    e.count > 0 && e.key == key
  }

  ghost predicate IsFirst(ring: seq<Entry>, key: Key, k: nat)
    requires k < |ring|
  {
    Holds(ring[k], key) && forall j :: 0 <= j < k ==> !Holds(ring[j], key)
  }

  lemma {:induction false} FindRepeat(ring: seq<Entry>, key: Key, from: nat)
    requires from <= |ring|
    ensures match RepeatIn(ring, key, from)
            case None => forall k :: from <= k < |ring| ==> !Holds(ring[k], key)
            case Some(i) => Holds(ring[i], key) && forall k :: from <= k < i ==> !Holds(ring[k], key)
    decreases |ring| - from
  {
    if from < |ring| { FindRepeat(ring, key, from + 1); }
  }

  /** A name has at most one channel; a name that was called has none only if all 512 slots are other names'. */
  lemma NamesToChannels(ws: seq<World>, steps: seq<Step>, i: nat, what: nat)
    requires Run(ws, steps) && i < |ws| && what != 0
    ensures forall a, b :: 0 <= a < b < |ws[i].channels| && ws[i].channels[a].what == what ==>
        ws[i].channels[b].what != what
    ensures |ws[i].channels| == CHANNELS
    ensures Calls(ws[i].history, what, None) > 0 && !HasChannel(ws[i], what) ==>
              FindFrom(ws[i].channels, what, 0).None?
    ensures forall a :: 0 <= a < CHANNELS && ws[i].channels[a].what == what ==>
        FindFrom(ws[i].channels, what, 0) == Some(a)
  {
    RunInv(ws, steps, i);
    FindIsLookup(ws[i].channels, what);
    assert Calls(ws[i].history, what, None) > 0 && !HasChannel(ws[i], what) ==> TableFull(ws[i]);
  }

  lemma {:induction false} InUseIs(cs: seq<Channel>, x: (nat, nat))
    ensures x in InUse(cs) <==> exists c :: c in cs && c.what != 0 && x == (c.what, c.total)
  {
    if cs != [] {
      InUseIs(cs[1..], x);
      assert forall c :: c in cs <==> c == cs[0] || c in cs[1..];
    }
  }

  /** In every interleaving the totals told are those of the names with a channel, each the number of calls of it begun
      so far. */
  lemma TotalsAreCalls(ws: seq<World>, steps: seq<Step>, i: nat, x: (nat, nat))
    requires Run(ws, steps) && i < |ws|
    ensures x in InUse(ws[i].channels)
       <==> x.0 != 0 && HasChannel(ws[i], x.0) && x.1 == Calls(ws[i].history, x.0, None)
  {
    RunInv(ws, steps, i);
    var w := ws[i];
    InUseIs(w.channels, x);
    hide Calls, InUse, RingTurns, BooksOk, TableOk;
    if x in InUse(w.channels) {
      var c :| c in w.channels && c.what != 0 && x == (c.what, c.total);
      var slot :| 0 <= slot < CHANNELS && w.channels[slot] == c;
      assert SlotOk(w, slot);
    }
    if x.0 != 0 && HasChannel(w, x.0) && x.1 == Calls(w.history, x.0, None) {
      var slot :| 0 <= slot < |w.channels| && w.channels[slot].what == x.0;
      assert SlotOk(w, slot) && w.channels[slot] in w.channels;
    }
  }

  /** A call touches no other name's channel, in either section. */
  lemma OnlyItsOwnRing(ws: seq<World>, steps: seq<Step>, i: nat, slot: nat)
    requires Run(ws, steps) && i < |steps| && slot < CHANNELS && Shaped(ws[i]) && Shaped(ws[i + 1])
    requires ws[i + 1].channels[slot] != ws[i].channels[slot]
    ensures match steps[i]
            case Begin(what, _, _, _) =>
              ws[i + 1].channels[slot].what == what &&
                  (ws[i].channels[slot].what == what || ws[i].channels[slot] == NO_CHANNEL)
            case Finish(index) =>
              index < |ws[i].pending| &&
                  ws[i].channels[slot].what == ws[i].pending[index].what == ws[i + 1].channels[slot].what
  {
    RunInv(ws, steps, i);
    assert SlotOk(ws[i], slot);
    match steps[i]
    case Begin(what, _, _, _) => FindIsLookup(ws[i].channels, what);
    case Finish(index) => assert ws[i].pending[index] in ws[i].pending;
  }
}
