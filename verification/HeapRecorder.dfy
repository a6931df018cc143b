/** The heap's events as they are recorded, in a ring and for watched addresses, and read back
    (Code/client/HeapHistory.cpp). */
module HeapRecorder {
  import opened Basics
  import opened HeapHistory

  const MAX_WATCHED := 4096

  lemma NoMultipleBetween(length: nat, d: int)
    ensures length * d <= 0 || length * d >= length
  {
    if d >= 1 {
      assert length * d == length + length * (d - 1);
    }
  }

  /** Two positions less than a ring's length apart are in different slots. */
  lemma OtherSlot(k: nat, n: nat, length: nat)
    requires k < n < k + length
    ensures k % length != n % length
  {
    var p, q := k / length, n / length;
    assert k == length * p + k % length && n == length * q + n % length;
    NoMultipleBetween(length, q - p);
    assert length * (q - p) == length * q - length * p;
  }

  /** The k-th newest allocation covering the address, none between it and the next one. */
  ghost predicate NewestAt(h: seq<Event>, address: nat, end: nat, lives: seq<nat>, k: nat)
    requires k < |lives| && end <= |h|
  {
    && lives[k] < After(end, lives, k) <= end
    && Covers(h[lives[k]], address)
    && NoneCovers(h, address, lives[k] + 1, After(end, lives, k))
  }

  function After(end: nat, lives: seq<nat>, k: nat): nat
    requires k < |lives|
  {
    if k == 0 then end else lives[k - 1]
  }

  ghost predicate Newest(h: seq<Event>, address: nat, end: nat, lives: seq<nat>)
    requires end <= |h|
  {
    forall k: nat {:trigger NewestAt(h, address, end, lives, k)} :: k < |lives| ==> NewestAt(h, address, end, lives, k)
  }

  function Oldest(end: nat, lives: seq<nat>): nat {
    if lives == [] then end else lives[|lives| - 1]
  }

  lemma NoneYet(h: seq<Event>, address: nat, end: nat)
    requires end <= |h|
    ensures Newest(h, address, end, [])
  {
  }

  lemma OneMore(h: seq<Event>, address: nat, end: nat, lives: seq<nat>, i: nat)
    requires end <= |h| && Newest(h, address, end, lives) && i < end && i < Oldest(end, lives)
    requires Covers(h[i], address) && NoneCovers(h, address, i + 1, Oldest(end, lives))
    ensures Newest(h, address, end, lives + [i])
  {
    forall k: nat | k < |lives| + 1 ensures NewestAt(h, address, end, lives + [i], k) {
      if k < |lives| {
        assert NewestAt(h, address, end, lives, k);
        assert After(end, lives + [i], k) == After(end, lives, k);
      } else {
        assert After(end, lives + [i], k) == Oldest(end, lives);
        if k > 0 { assert NewestAt(h, address, end, lives, k - 1); }
      }
    }
  }

  /** A life's free, the life the k-th newest. */
  ghost predicate FreeFound(h: seq<Event>, end: nat, newest: seq<nat>, k: nat, life: Life)
    requires end <= |h| && k < |newest|
  {
    && life.allocation == newest[k] && newest[k] < After(end, newest, k) <= end
    && IsFirstFree(h, h[newest[k]].block, newest[k] + 1, After(end, newest, k), life.freed)
  }

  /** The lives of the newest covering allocations, turned round, are the story. */
  lemma IsLives(h: seq<Event>, address: nat, first: nat, end: nat, newest: seq<nat>, lives: seq<Life>)
    requires first <= end <= |h| && Newest(h, address, end, newest) && 1 <= |newest| <= MAX_LIVES && |lives| == |newest|
    requires first <= Oldest(end, newest)
    requires |newest| < MAX_LIVES ==> NoneCovers(h, address, first, Oldest(end, newest))
    requires forall k: nat {:trigger lives[k]} :: k < |lives| ==> FreeFound(h, end, newest, |newest| - 1 - k, lives[k])
    ensures IsStory(h, address, first, end, Lives(lives))
  {
    forall k: nat | k < |lives| ensures LifeOk(h, address, first, end, lives, k) {
      var j := |newest| - 1 - k;
      assert NewestAt(h, address, end, newest, j) && FreeFound(h, end, newest, j, lives[k]);
      if j > 0 { assert lives[k + 1].allocation == newest[j - 1]; }
      AtLeastOldest(h, address, end, newest, j);
    }
    assert LifeOk(h, address, first, end, lives, 0);
  }

  lemma {:induction false} AtLeastOldest(h: seq<Event>, address: nat, end: nat, newest: seq<nat>, j: nat)
    requires end <= |h| && Newest(h, address, end, newest) && j < |newest|
    ensures newest[j] >= Oldest(end, newest)
    decreases |newest| - j
  {
    if j + 1 < |newest| {
      AtLeastOldest(h, address, end, newest, j + 1);
      assert NewestAt(h, address, end, newest, j + 1);
    }
  }

  lemma {:induction false} SlotOfPrefix(watch: nat, h: seq<Event>, e: Event, n: nat)
    requires n <= |h|
    ensures Slot(watch, h + [e], n) == Slot(watch, h, n)
  {
    if n > 0 { SlotOfPrefix(watch, h, e, n - 1); }
  }

  lemma {:induction false} EntriesOfPrefix(watches: seq<nat>, h: seq<Event>, e: Event, n: nat, m: nat)
    requires n < |h| && m <= |watches|
    ensures EntriesOf(watches, h + [e], n, m) == EntriesOf(watches, h, n, m)
  {
    if m > 0 {
      EntriesOfPrefix(watches, h, e, n, m - 1);
      SlotOfPrefix(watches[m - 1], h, e, n);
    }
  }

  lemma {:induction false} EntriesPrefix(watches: seq<nat>, h: seq<Event>, e: Event, n: nat)
    requires n <= |h|
    ensures Entries(watches, h + [e], n) == Entries(watches, h, n)
  {
    hide EntriesOf;
    if n > 0 {
      EntriesPrefix(watches, h, e, n - 1);
      EntriesOfPrefix(watches, h, e, n - 1, |watches|);
    }
  }

  lemma SlotNext(watch: nat, h: seq<Event>, n: nat)
    requires n < |h|
    ensures Slot(watch, h, n + 1) == SlotAfter(watch, Slot(watch, h, n), h[n])
  {
  }

  lemma EntriesOfNext(watches: seq<nat>, h: seq<Event>, n: nat, m: nat, before: seq<Entry>)
    requires n < |h| && m < |watches|
    ensures var more := if Concerns(watches[m], Slot(watches[m], h, n), h[n]) then [Entry(m, h[n])] else [];
            before + EntriesOf(watches, h, n, m + 1) == before + EntriesOf(watches, h, n, m) + more
  {
  }

  lemma NoEntriesYet(watches: seq<nat>, h: seq<Event>, n: nat)
    requires n < |h|
    ensures Entries(watches, h, n) + EntriesOf(watches, h, n, 0) == Entries(watches, h, n)
    ensures Entries(watches, h, n + 1) == Entries(watches, h, n) + EntriesOf(watches, h, n, |watches|)
  {
  }

  class Recorder {
    /** The ring; of length 0 with the history off. */
    const events: array<Event>
    var next: nat
    const watches: seq<nat>
    /** The block holding each watched address now, 0 for none. */
    const watchBlocks: array<nat>
    const watched: array<Entry>
    var watchedNext: nat

    /** Every event. */
    ghost var history: seq<Event>

    ghost predicate RingOk()
      reads this, events
    {
      events.Length > 0 ==>
        && next == |history|
        && forall i :: 0 <= i < next && next - events.Length <= i ==> events[i % events.Length] == history[i]
    }

    ghost predicate Kept(entries: seq<Entry>)
      reads this, watched
    {
      && watched.Length == MAX_WATCHED && watchedNext == |entries|
      && forall k :: 0 <= k < |entries| && k < MAX_WATCHED ==> watched[k] == entries[k]
    }

    ghost predicate Valid()
      reads this, events, watchBlocks, watched
    {
      && RingOk()
      && watchBlocks.Length == |watches|
      && (forall w :: 0 <= w < |watches| ==> watchBlocks[w] == Slot(watches[w], history, |history|))
      && Kept(Entries(watches, history, |history|))
    }

    constructor (capacity: nat, watches: seq<nat>)
      ensures Valid() && fresh(events) && fresh(watchBlocks) && fresh(watched)
      ensures events.Length == capacity && this.watches == watches && history == []
    {
      events := new Event[capacity](_ => Event(0, 0));
      this.watches := watches;
      watchBlocks := new nat[|watches|](_ => 0);
      watched := new Entry[MAX_WATCHED](_ => Entry(0, Event(0, 0)));
      next, watchedNext, history := 0, 0, [];
    }

    /** One event, into the ring and the history of each watched address it concerns. */
    method Add(block: nat, size: nat)
      requires Valid()
      modifies this, events, watchBlocks, watched
      ensures Valid() && history == old(history) + [Event(block, size)]
    {
      hide Slot, Entries, EntriesOf;
      var e := Event(block, size);
      ghost var n := |history|;
      history := history + [e];
      if events.Length > 0 {
        forall k: nat | k < n && n + 1 - events.Length <= k ensures k % events.Length != n % events.Length {
          OtherSlot(k, n, events.Length);
        }
        events[next % events.Length] := e;
        next := next + 1;
      }
      forall w | 0 <= w < |watches| ensures Slot(watches[w], history, n) == Slot(watches[w], old(history), n) {
        SlotOfPrefix(watches[w], old(history), e, n);
      }
      EntriesPrefix(watches, old(history), e, n);
      WatchEvent(block, size);
    }

    /** The watched addresses' part of `Add`. */
    method WatchEvent(block: nat, size: nat)
      requires RingOk() && |history| > 0 && history[|history| - 1] == Event(block, size)
      requires watchBlocks.Length == |watches|
      requires forall w :: 0 <= w < |watches| ==> watchBlocks[w] == Slot(watches[w], history, |history| - 1)
      requires Kept(Entries(watches, history, |history| - 1))
      modifies this`watchedNext, watchBlocks, watched
      ensures Valid()
    {
      hide Slot, Entries, EntriesOf;
      var e := Event(block, size);
      ghost var n := |history| - 1;
      ghost var before := Entries(watches, history, n);
      NoEntriesYet(watches, history, n);
      for watch := 0 to |watches|
        invariant RingOk()
        invariant forall w :: 0 <= w < watch ==> watchBlocks[w] == Slot(watches[w], history, n + 1)
        invariant forall w :: watch <= w < |watches| ==> watchBlocks[w] == Slot(watches[w], history, n)
        invariant Kept(before + EntriesOf(watches, history, n, watch))
      {
        SlotNext(watches[watch], history, n);
        EntriesOfNext(watches, history, n, watch, before);
        var isAllocated := size != 0 && watches[watch] >= block && watches[watch] - block < size;
        var isFreed := size == 0 && watchBlocks[watch] == block;
        if isAllocated || isFreed {
          watchBlocks[watch] := if isAllocated then block else 0;
          if watchedNext < MAX_WATCHED {
            watched[watchedNext] := Entry(watch, e);
          }
          watchedNext := watchedNext + 1;
        }
      }
    }

    /** The newest allocations in the window that held the address, up to three, newest first. */
    method NewestLives(address: nat, first: nat, end: nat) returns (lives: seq<nat>)
      requires Valid() && events.Length > 0 && first <= end <= next && next - events.Length <= first
      ensures |lives| <= MAX_LIVES && Newest(history, address, end, lives) && first <= Oldest(end, lives)
      ensures |lives| < MAX_LIVES ==> NoneCovers(history, address, first, Oldest(end, lives))
    {
      hide Newest;
      NoneYet(history, address, end);
      lives := [];
      var i := end;
      while i > first && |lives| < MAX_LIVES
        invariant first <= i <= end && |lives| <= MAX_LIVES
        invariant Newest(history, address, end, lives) && i <= Oldest(end, lives)
        invariant NoneCovers(history, address, i, Oldest(end, lives))
      {
        i := i - 1;
        var event := events[i % events.Length];
        if event.size != 0 && address >= event.block && address - event.block < event.size {
          OneMore(history, address, end, lives, i);
          lives := lives + [i];
        }
      }
    }

    /** The first free of the block from `from` on, before `until`. */
    method FreeOf(block: nat, from: nat, until: nat) returns (freed: Option<nat>)
      requires Valid() && events.Length > 0 && from <= until <= next && next - events.Length <= from
      ensures IsFirstFree(history, block, from, until, freed)
    {
      var i := from;
      while i < until
        invariant from <= i <= until
        invariant IsFirstFree(history, block, from, i, None)
      {
        var event := events[i % events.Length];
        if event.size == 0 && event.block == block { return Some(i); }
        i := i + 1;
      }
      return None;
    }

    /** The last free of a block starting at the address. */
    method LastFree(address: nat, first: nat, end: nat) returns (story: Story)
      requires Valid() && events.Length > 0 && first <= end <= next && next - events.Length <= first
      requires NoneCovers(history, address, first, end)
      ensures IsStory(history, address, first, end, story)
    {
      var i := end;
      while i > first
        invariant first <= i <= end
        invariant IsFirstFree(history, address, i, end, None)
      {
        i := i - 1;
        var event := events[i % events.Length];
        if event.size == 0 && event.block == address { return BeforeWindow(i); }
      }
      return Nothing;
    }

    /** The recorded life of the memory at an address. */
    method LogStory(address: nat, first: nat, end: nat) returns (story: Story)
      requires Valid() && events.Length > 0 && first <= end <= next && next - events.Length <= first
      ensures IsStory(history, address, first, end, story)
    {
      hide IsStory, Newest;
      var newest := NewestLives(address, first, end);
      if newest == [] {
        story := LastFree(address, first, end);
        return;
      }
      var lives: seq<Life> := [];
      var life := |newest|;
      while life > 0
        invariant 0 <= life <= |newest| && |lives| == |newest| - life
        invariant forall k: nat {:trigger lives[k]} :: k < |lives| ==>
            FreeFound(history, end, newest, |newest| - 1 - k, lives[k])
      {
        life := life - 1;
        InStretch(history, address, first, end, newest, life);
        var allocation := events[newest[life] % events.Length];
        var until := if life != 0 then newest[life - 1] else end;
        var freed := FreeOf(allocation.block, newest[life] + 1, until);
        lives := lives + [Life(newest[life], freed)];
      }
      IsLives(history, address, first, end, newest, lives);
      return Lives(lives);
    }

    lemma InStretch(h: seq<Event>, address: nat, first: nat, end: nat, newest: seq<nat>, k: nat)
      requires end <= |h| && Newest(h, address, end, newest) && k < |newest| && first <= Oldest(end, newest)
      ensures first <= newest[k] < After(end, newest, k) <= end
    {
      AtLeastOldest(h, address, end, newest, k);
      assert NewestAt(h, address, end, newest, k);
    }

    method OnAllocate(block: nat, size: nat)
      requires Valid()
      modifies this, events, watchBlocks, watched
      ensures Valid() && history == old(history) + [Recorded(Allocate(block, size))]
    {
      if events.Length > 0 || |watches| > 0 {
        Add(block, (if size != 0 then size else 1) % SIZE_SPAN);
      } else {
        Unwatched();
        history := history + [Recorded(Allocate(block, size))];
        Unwatched();
      }
    }

    method OnFree(block: nat)
      requires Valid()
      modifies this, events, watchBlocks, watched
      ensures Valid() && history == old(history) + [Recorded(Free(block))]
    {
      if events.Length > 0 || |watches| > 0 {
        Add(block, 0);
      } else {
        Unwatched();
        history := history + [Recorded(Free(block))];
        Unwatched();
      }
    }

    lemma Unwatched()
      requires |watches| == 0
      ensures Entries(watches, history, |history|) == []
    {
      NoEntries(watches, history, |history|);
    }
  }

  lemma {:induction false} NoEntries(watches: seq<nat>, h: seq<Event>, n: nat)
    requires |watches| == 0 && n <= |h|
    ensures Entries(watches, h, n) == []
  {
    if n > 0 { NoEntries(watches, h, n - 1); }
  }
}
