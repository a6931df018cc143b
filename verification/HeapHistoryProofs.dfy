/** On any history of a disciplined allocator, what the recorder says is so. */
module HeapHistoryProofs {
  import opened Basics
  import opened HeapHistory

  // ----- Live blocks -----

  /** One block of the heap after n calls: allocated by the call it says, and not freed since. */
  ghost predicate BlockOk(start: map<nat, Block>, calls: seq<Call>, n: nat, b: nat)
    requires n <= |calls| && b in LiveAt(start, calls, n)
  {
    var block := LiveAt(start, calls, n)[b];
    && b > 0 && block.size > 0 && BEFORE_HOOKS <= block.born < n
    && (block.born >= 0 ==> calls[block.born].Allocate? && calls[block.born].block == b
                            && block.size == Extent(calls[block.born].size))
    && forall i {:trigger calls[i]} :: 0 <= i < n && block.born < i ==> calls[i].block != b
  }

  ghost predicate HeapOk(start: map<nat, Block>, calls: seq<Call>, n: nat)
    requires n <= |calls|
  {
    && Disjoint(LiveAt(start, calls, n))
    && forall b {:trigger BlockOk(start, calls, n, b)} :: b in LiveAt(start, calls, n) ==> BlockOk(start, calls, n, b)
  }

  /** Blocks of one byte and more that do not overlap are not the same. */
  lemma AllocatesNew(live: map<nat, Block>, block: nat, size: nat)
    requires Legal(live, Allocate(block, size))
    requires forall b {:trigger b in live} :: b in live ==> live[b].size > 0
    ensures block !in live
  {
  }

  lemma BlockStep(start: map<nat, Block>, calls: seq<Call>, n: nat, b: nat)
    requires 0 < n <= |calls| && b in LiveAt(start, calls, n)
    requires HeapOk(start, calls, n - 1) && Legal(LiveAt(start, calls, n - 1), calls[n - 1])
    ensures BlockOk(start, calls, n, b)
  {
    var live := LiveAt(start, calls, n - 1);
    if calls[n - 1].block != b {
      assert b in live && BlockOk(start, calls, n - 1, b);
    }
  }

  lemma {:induction false} HeapIsOk(start: map<nat, Block>, calls: seq<Call>, n: nat)
    requires Disciplined(start, calls) && n <= |calls|
    ensures HeapOk(start, calls, n)
  {
    if n == 0 {
      assert LiveAt(start, calls, 0) == start;
    } else {
      HeapIsOk(start, calls, n - 1);
      forall b | b in LiveAt(start, calls, n) ensures BlockOk(start, calls, n, b) {
        BlockStep(start, calls, n, b);
      }
      var live := LiveAt(start, calls, n - 1);
      assert Legal(live, calls[n - 1]);
    }
  }

  /** An allocated block stays live until its first free. */
  lemma {:induction false} StaysLive(start: map<nat, Block>, calls: seq<Call>, i: nat, n: nat)
    requires Disciplined(start, calls) && i < n <= |calls| && calls[i].Allocate?
    requires forall k {:trigger calls[k]} :: i < k < n ==> calls[k] != Free(calls[i].block)
    ensures calls[i].block in LiveAt(start, calls, n)
    ensures LiveAt(start, calls, n)[calls[i].block] == Block(Extent(calls[i].size), i)
    decreases n
  {
    if i + 1 < n {
      StaysLive(start, calls, i, n - 1);
      HeapIsOk(start, calls, n - 1);
      var live := LiveAt(start, calls, n - 1);
      assert Legal(live, calls[n - 1]);
      if calls[n - 1].Allocate? {
        forall b | b in live ensures live[b].size > 0 { assert BlockOk(start, calls, n - 1, b); }
        AllocatesNew(live, calls[n - 1].block, calls[n - 1].size);
      }
    }
  }

  /** A block live now and not freed or allocated for a while was live all that while. */
  lemma {:induction false} WasLive(start: map<nat, Block>, calls: seq<Call>, b: nat, m: nat, n: nat)
    requires Disciplined(start, calls) && m <= n <= |calls| && b in LiveAt(start, calls, n)
    requires LiveAt(start, calls, n)[b].born < m
    ensures b in LiveAt(start, calls, m) && LiveAt(start, calls, m)[b] == LiveAt(start, calls, n)[b]
    decreases n
  {
    if m < n {
      HeapIsOk(start, calls, n);
      assert BlockOk(start, calls, n, b);
      assert calls[n - 1].block != b;
      WasLive(start, calls, b, m, n - 1);
    }
  }

  // ----- Events -----

  /** What a call's event covers. */
  lemma CoversIs(call: Call, address: nat)
    ensures Covers(Recorded(call), address)
       <==> call.Allocate? && call.block <= address < call.block + Told(Extent(call.size))
    ensures call.Allocate? ==> Told(Extent(call.size)) <= Extent(call.size)
  {
  }

  lemma FreesIs(call: Call, block: nat)
    ensures Frees(Recorded(call), block)
       <==> call.block == block && (call.Free? || Told(Extent(call.size)) == 0)
  {
  }

  /** What is told of a block is never more than it is, and all of it exactly if its size is below 4 GiB. */
  lemma ToldIs(size: nat)
    ensures Told(size) <= size && (Told(size) == size <==> size < SIZE_SPAN)
  {
  }

  /** An event tells an allocation's extent exactly if its size is below 4 GiB. */
  lemma TellsExtentIff(block: nat, size: nat)
    ensures size < SIZE_SPAN
       <==> forall address: nat :: Covers(Recorded(Allocate(block, size)), address) <==>
           block <= address < block + Extent(size)
  {
    if size < SIZE_SPAN {
      forall address: nat
        ensures Covers(Recorded(Allocate(block, size)), address) <==> block <= address < block + Extent(size)
      {
        CoversIs(Allocate(block, size), address);
      }
    } else {
      assert !Covers(Recorded(Allocate(block, size)), block + size - 1);
    }
  }

  /** A live block of 4 GiB is told as a freed one. */
  lemma LargeBlockToldAsFreed()
    ensures Disciplined(map[], [Allocate(0x20000, SIZE_SPAN)])
    ensures 0x20000 in LiveAt(map[], [Allocate(0x20000, SIZE_SPAN)], 1)
    ensures IsStory(Record([Allocate(0x20000, SIZE_SPAN)]), 0x20000, 0, 1, BeforeWindow(0))
  {
    var calls := [Allocate(0x20000, SIZE_SPAN)];
    assert LiveAt(map[], calls, 0) == map[];
    assert LiveAt(map[], calls, 1) == map[0x20000 := Block(SIZE_SPAN, 0)];
  }

  // ----- Stories -----

  /** The covering block of an earlier life is freed before the next covering allocation. */
  lemma FreedBefore(start: map<nat, Block>, calls: seq<Call>, address: nat, i: nat, j: nat)
    requires Disciplined(start, calls) && i < j < |calls|
    requires Covers(Recorded(calls[i]), address) && Covers(Recorded(calls[j]), address)
    ensures exists k :: i < k < j && calls[k] == Free(calls[i].block)
  {
    CoversIs(calls[i], address);
    CoversIs(calls[j], address);
    assert Legal(LiveAt(start, calls, j), calls[j]);
    if forall k {:trigger calls[k]} :: i < k < j ==> calls[k] != Free(calls[i].block) {
      StaysLive(start, calls, i, j);
      assert false;
    }
  }

  /** No call allocates at a live block, whatever size it is recorded with. */
  lemma NotAllocatedLive(start: map<nat, Block>, calls: seq<Call>, n: nat)
    requires Disciplined(start, calls) && n < |calls| && calls[n].block in LiveAt(start, calls, n)
    ensures calls[n].Free?
  {
    var live := LiveAt(start, calls, n);
    HeapIsOk(start, calls, n);
    assert Legal(live, calls[n]);
    if calls[n].Allocate? {
      forall b | b in live ensures live[b].size > 0 { assert BlockOk(start, calls, n, b); }
      AllocatesNew(live, calls[n].block, calls[n].size);
    }
  }

  /** The first free event of an allocated block is a free, and ends that life. */
  lemma FirstFreeEndsLife(start: map<nat, Block>, calls: seq<Call>, i: nat, until: nat, freed: Option<nat>)
    requires Disciplined(start, calls) && i < until <= |calls| && calls[i].Allocate?
    requires IsFirstFree(Record(calls), calls[i].block, i + 1, until, freed)
    ensures freed.Some? ==> EndsLife(start, calls, i, freed.value)
    ensures freed.None? ==> calls[i].block in LiveAt(start, calls, until)
                            && LiveAt(start, calls, until)[calls[i].block] == Block(Extent(calls[i].size), i)
    ensures freed.None? ==> forall k {:trigger calls[k]} :: i < k < until ==> calls[k] != Free(calls[i].block)
  {
    var h := Record(calls);
    var end := if freed.Some? then freed.value else until;
    forall k {:trigger calls[k]} | i < k < end ensures calls[k] != Free(calls[i].block) {
      FreesIs(calls[k], calls[i].block);
      assert !Frees(h[k], calls[i].block);
    }
    StaysLive(start, calls, i, end);
    if freed.Some? {
      FreesIs(calls[freed.value], calls[i].block);
      NotAllocatedLive(start, calls, freed.value);
    }
  }

  /** Each reported free ends the life it is reported with, and every life but the newest has one. */
  lemma FreesAreTheirOwn(start: map<nat, Block>, calls: seq<Call>, address: nat, first: nat, lives: seq<Life>, k: nat)
    requires Disciplined(start, calls) && first <= |calls|
    requires IsStory(Record(calls), address, first, |calls|, Lives(lives)) && k < |lives|
    ensures lives[k].freed.Some? ==> EndsLife(start, calls, lives[k].allocation, lives[k].freed.value)
    ensures k + 1 < |lives| ==> lives[k].freed.Some?
  {
    var h := Record(calls);
    assert LifeOk(h, address, first, |calls|, lives, k);
    var i := lives[k].allocation;
    CoversIs(calls[i], address);
    FirstFreeEndsLife(start, calls, i, Until(lives, k, |calls|), lives[k].freed);
    if k + 1 < |lives| {
      assert LifeOk(h, address, first, |calls|, lives, k + 1);
      FreedBefore(start, calls, address, i, lives[k + 1].allocation);
    }
  }

  /** The newest covering allocation of the window, if its block is not freed, is live and told to hold the address. */
  lemma StillAllocatedIsLive(start: map<nat, Block>, calls: seq<Call>, address: nat, first: nat, story: Story)
    returns (b: nat)
    requires Disciplined(start, calls) && first <= |calls|
    requires IsStory(Record(calls), address, first, |calls|, story) && SaysStillAllocated(story)
    ensures TellsHold(LiveAt(start, calls, |calls|), b, address) && LiveAt(start, calls, |calls|)[b].born >= first
  {
    var k := |story.lives| - 1;
    assert LifeOk(Record(calls), address, first, |calls|, story.lives, k);
    var i := story.lives[k].allocation;
    CoversIs(calls[i], address);
    FirstFreeEndsLife(start, calls, i, |calls|, None);
    b := calls[i].block;
  }

  /** A live block of the window told to hold the address is the newest covering allocation, not freed. */
  lemma LiveIsStillAllocated(start: map<nat, Block>, calls: seq<Call>, address: nat, first: nat, story: Story, b: nat)
    requires Disciplined(start, calls) && first <= |calls|
    requires IsStory(Record(calls), address, first, |calls|, story)
    requires TellsHold(LiveAt(start, calls, |calls|), b, address) && LiveAt(start, calls, |calls|)[b].born >= first
    ensures SaysStillAllocated(story)
  {
    var h := Record(calls);
    HeapIsOk(start, calls, |calls|);
    assert BlockOk(start, calls, |calls|, b);
    var i := LiveAt(start, calls, |calls|)[b].born;
    CoversIs(calls[i], address);
    assert Covers(h[i], address);
    var lives := story.lives;
    var k := |lives| - 1;
    assert LifeOk(h, address, first, |calls|, lives, k);
    var newest := lives[k].allocation;
    assert i <= newest;
    if i < newest {
      FreedBefore(start, calls, address, i, newest);
      assert false;
    }
    if lives[k].freed.Some? {
      FirstFreeEndsLife(start, calls, i, |calls|, lives[k].freed);
      assert false;
    }
  }

  /** Two blocks of a disciplined heap hold no address together. */
  lemma OneHolds(start: map<nat, Block>, calls: seq<Call>, b: nat, c: nat, address: nat)
    requires Disciplined(start, calls)
    requires Holds(LiveAt(start, calls, |calls|), b, address) && Holds(LiveAt(start, calls, |calls|), c, address)
    ensures b == c
  {
    HeapIsOk(start, calls, |calls|);
  }

  /** A story of a disciplined allocator, whatever the sizes: it says "still allocated" exactly if a live block of the
      window is told to hold the address, and then one does hold it; that is the whole truth where the blocks of the
      window are below 4 GiB. Each free it reports ends the very life it is reported with, and every older life has
      its free. A block it tells as allocated before the window and freed at f was just that exactly if nothing in the
      window allocates there a size recorded as 0. */
  lemma StoryIsTrue(start: map<nat, Block>, calls: seq<Call>, address: nat, first: nat, story: Story)
    requires Disciplined(start, calls) && first <= |calls|
    requires IsStory(Record(calls), address, first, |calls|, story)
    ensures var live := LiveAt(start, calls, |calls|);
      && (SaysStillAllocated(story) <==> exists b :: TellsHold(live, b, address) && live[b].born >= first)
      && (SaysStillAllocated(story) ==> HeldSince(live, address, first))
      && ((SaysStillAllocated(story) <==> HeldSince(live, address, first))
          <==> forall b :: Holds(live, b, address) && live[b].born >= first ==> TellsHold(live, b, address))
    ensures story.Lives? ==> forall k :: 0 <= k < |story.lives| ==>
              && (story.lives[k].freed.Some? ==>
                  EndsLife(start, calls, story.lives[k].allocation, story.lives[k].freed.value))
              && (story.lives[k].freed.None? ==> k == |story.lives| - 1)
    ensures story.BeforeWindow? ==>
              (FreesOlder(start, calls, address, first, story.freed) <==> NoneToldEmpty(calls, address, first))
  {
    var live := LiveAt(start, calls, |calls|);
    if SaysStillAllocated(story) {
      var b := StillAllocatedIsLive(start, calls, address, first, story);
      ToldIs(live[b].size);
      assert Holds(live, b, address);
      forall c | Holds(live, c, address) ensures c == b { OneHolds(start, calls, b, c, address); }
    }
    forall b | TellsHold(live, b, address) && live[b].born >= first ensures SaysStillAllocated(story) {
      LiveIsStillAllocated(start, calls, address, first, story, b);
    }
    if story.Lives? {
      forall k: nat | k < |story.lives|
        ensures story.lives[k].freed.Some? ==>
            EndsLife(start, calls, story.lives[k].allocation, story.lives[k].freed.value)
        ensures story.lives[k].freed.None? ==> k == |story.lives| - 1
      {
        FreesAreTheirOwn(start, calls, address, first, story.lives, k);
      }
    }
    if story.BeforeWindow? { BeforeIsBeforeIff(start, calls, address, first, story.freed); }
  }

  /** The stories of all addresses are right about "still allocated" exactly if every live block of the window is
      below 4 GiB: of a larger one the last byte is never told as allocated. */
  lemma StillAllocatedRightIff(start: map<nat, Block>, calls: seq<Call>, first: nat, stories: nat -> Story)
    requires Disciplined(start, calls) && first <= |calls|
    requires forall address :: IsStory(Record(calls), address, first, |calls|, stories(address))
    ensures (forall address ::
               SaysStillAllocated(stories(address)) <==> HeldSince(LiveAt(start, calls, |calls|), address, first))
       <==> SmallSince(LiveAt(start, calls, |calls|), first)
  {
    var live := LiveAt(start, calls, |calls|);
    if SmallSince(live, first) {
      forall address ensures SaysStillAllocated(stories(address)) <==> HeldSince(live, address, first) {
        StoryIsTrue(start, calls, address, first, stories(address));
        forall b: nat | Holds(live, b, address) && live[b].born >= first ensures TellsHold(live, b, address) {
          ToldIs(live[b].size);
        }
      }
    } else {
      var b :| b in live && live[b].born >= first && live[b].size >= SIZE_SPAN;
      StillAllocatedBlockIff(start, calls, first, stories, b);
      var last := b + live[b].size - 1;
      assert Holds(live, b, last);
      assert !SaysStillAllocated(stories(last));
    }
  }

  /** A live block of the window is told as allocated at all its addresses exactly if it is below 4 GiB; at its last
      one only then. */
  lemma StillAllocatedBlockIff(
    start: map<nat, Block>, calls: seq<Call>, first: nat, stories: nat -> Story, b: nat
  )
    requires Disciplined(start, calls) && first <= |calls|
    requires forall address :: IsStory(Record(calls), address, first, |calls|, stories(address))
    requires b in LiveAt(start, calls, |calls|) && LiveAt(start, calls, |calls|)[b].born >= first
    ensures var size := LiveAt(start, calls, |calls|)[b].size;
      && size > 0
      && ((forall address :: b <= address < b + size ==> SaysStillAllocated(stories(address))) <==> size < SIZE_SPAN)
      && (SaysStillAllocated(stories(b + size - 1)) <==> size < SIZE_SPAN)
  {
    var live := LiveAt(start, calls, |calls|);
    HeapIsOk(start, calls, |calls|);
    assert BlockOk(start, calls, |calls|, b);
    var last := b + live[b].size - 1;
    ToldIs(live[b].size);
    forall address: nat | b <= address <= last
      ensures SaysStillAllocated(stories(address)) <==> address < b + Told(live[b].size)
    {
      StoryIsTrue(start, calls, address, first, stories(address));
      assert Holds(live, b, address);
      forall c | TellsHold(live, c, address) ensures c == b {
        ToldIs(live[c].size);
        OneHolds(start, calls, b, c, address);
      }
      assert TellsHold(live, b, address) <==> address < b + Told(live[b].size);
    }
    assert SaysStillAllocated(stories(last)) <==> live[b].size < SIZE_SPAN;
  }

  /** The call at f frees a block at the address that was allocated before the window. */
  ghost predicate FreesOlder(start: map<nat, Block>, calls: seq<Call>, address: nat, first: nat, f: nat) {
    && f < |calls| && calls[f] == Free(address)
    && address in LiveAt(start, calls, f) && LiveAt(start, calls, f)[address].born < first
  }

  /** No call of the window allocates at the address a size recorded as 0. */
  predicate NoneToldEmpty(calls: seq<Call>, address: nat, first: nat) {
    forall i :: first <= i < |calls| && calls[i].Allocate? && calls[i].block == address ==>
      Told(Extent(calls[i].size)) != 0
  }

  lemma BeforeIsBeforeIff(start: map<nat, Block>, calls: seq<Call>, address: nat, first: nat, f: nat)
    requires Disciplined(start, calls) && first <= |calls|
    requires IsStory(Record(calls), address, first, |calls|, BeforeWindow(f))
    ensures FreesOlder(start, calls, address, first, f) <==> NoneToldEmpty(calls, address, first)
  {
    var h := Record(calls);
    HeapIsOk(start, calls, f);
    FreesIs(calls[f], address);
    assert Legal(LiveAt(start, calls, f), calls[f]);
    if NoneToldEmpty(calls, address, first) {
      assert BlockOk(start, calls, f, address);
      forall i | first <= i < f ensures !(calls[i].Allocate? && calls[i].block == address) {
        CoversIs(calls[i], address);
        assert !Covers(h[i], address);
      }
    }
    if FreesOlder(start, calls, address, first, f) {
      assert BlockOk(start, calls, f, address);
      forall i | first <= i < |calls| && calls[i].Allocate? && calls[i].block == address
        ensures Told(Extent(calls[i].size)) != 0
      {
        FreesIs(calls[i], address);
        assert Frees(h[i], address) ==> i <= f;
      }
    }
  }

  // ----- Watched addresses -----

  /** The block in a watched address's slot: the live one allocated since the hooks that is told to hold it, if any. */
  ghost predicate SlotOk(live: map<nat, Block>, watch: nat, slot: nat) {
    && (slot != 0 ==> TellsHold(live, slot, watch) && live[slot].born >= 0)
    && forall b {:trigger TellsHold(live, b, watch)} :: TellsHold(live, b, watch) && live[b].born >= 0 ==> b == slot
  }

  /** The slot has the block allocated since the hooks that holds the address, or 0. */
  ghost predicate SlotRight(live: map<nat, Block>, watch: nat, slot: nat) {
    && (slot != 0 ==> Holds(live, slot, watch) && live[slot].born >= 0)
    && forall b {:trigger Holds(live, b, watch)} :: Holds(live, b, watch) && live[b].born >= 0 ==> b == slot
  }

  lemma SlotStep(start: map<nat, Block>, calls: seq<Call>, watch: nat, n: nat, slot: nat)
    requires Disciplined(start, calls) && n < |calls|
    requires SlotOk(LiveAt(start, calls, n), watch, slot)
    ensures SlotOk(LiveAt(start, calls, n + 1), watch, SlotAfter(watch, slot, Recorded(calls[n])))
  {
    var live, call := LiveAt(start, calls, n), calls[n];
    assert Legal(live, call);
    HeapIsOk(start, calls, n);
    CoversIs(call, watch);
    FreesIs(call, slot);
    if call.block in live { NotAllocatedLive(start, calls, n); }
    var after := LiveAt(start, calls, n + 1);
    assert after == Applied(live, call, n);
    if slot != 0 { assert BlockOk(start, calls, n, slot); }
    forall b | TellsHold(after, b, watch) && after[b].born >= 0
      ensures b == SlotAfter(watch, slot, Recorded(call))
    {
      if b != call.block { assert TellsHold(live, b, watch); }
    }
  }

  /** Over any history each watched slot has exactly the live block allocated since the hooks that is told to hold its
      address, or 0 if there is none. */
  lemma {:induction false} SlotIsLiveBlock(start: map<nat, Block>, calls: seq<Call>, watch: nat, n: nat)
    requires Disciplined(start, calls) && n <= |calls|
    ensures SlotOk(LiveAt(start, calls, n), watch, Slot(watch, Record(calls), n))
  {
    if n > 0 {
      SlotIsLiveBlock(start, calls, watch, n - 1);
      SlotStep(start, calls, watch, n - 1, Slot(watch, Record(calls), n - 1));
    }
  }

  /** The slots of all addresses are right exactly if every live block allocated since the hooks is below 4 GiB. */
  lemma SlotsRightIff(start: map<nat, Block>, calls: seq<Call>, n: nat)
    requires Disciplined(start, calls) && n <= |calls|
    ensures (forall watch: nat :: SlotRight(LiveAt(start, calls, n), watch, Slot(watch, Record(calls), n)))
       <==> SmallSince(LiveAt(start, calls, n), 0)
  {
    var live := LiveAt(start, calls, n);
    HeapIsOk(start, calls, n);
    if SmallSince(live, 0) {
      forall watch: nat ensures SlotRight(live, watch, Slot(watch, Record(calls), n)) {
        SlotIsLiveBlock(start, calls, watch, n);
        forall b | b in live && live[b].born >= 0 ensures Told(live[b].size) == live[b].size { ToldIs(live[b].size); }
        assert forall b :: b in live && live[b].born >= 0 ==> (Holds(live, b, watch) <==> TellsHold(live, b, watch));
      }
    } else {
      var b :| b in live && live[b].born >= 0 && live[b].size >= SIZE_SPAN;
      assert BlockOk(start, calls, n, b);
      var last := b + live[b].size - 1;
      SlotIsLiveBlock(start, calls, last, n);
      assert Holds(live, b, last) && !TellsHold(live, b, last);
      assert !SlotRight(live, last, Slot(last, Record(calls), n));
    }
  }

  /** The events kept for a watched address are exactly the allocations told to hold it and the frees of the blocks
      told to hold it. */
  lemma ConcernsIff(start: map<nat, Block>, calls: seq<Call>, watch: nat, n: nat)
    requires Disciplined(start, calls) && n < |calls|
    ensures Concerns(watch, Slot(watch, Record(calls), n), Record(calls)[n])
       <==> if calls[n].Allocate? then calls[n].block <= watch < calls[n].block + Told(Extent(calls[n].size))
            else TellsHold(LiveAt(start, calls, n), calls[n].block, watch)
                 && LiveAt(start, calls, n)[calls[n].block].born >= 0
  {
    var slot := Slot(watch, Record(calls), n);
    SlotIsLiveBlock(start, calls, watch, n);
    CoversIs(calls[n], watch);
    FreesIs(calls[n], slot);
    assert Legal(LiveAt(start, calls, n), calls[n]);
    HeapIsOk(start, calls, n);
    if calls[n].block in LiveAt(start, calls, n) {
      NotAllocatedLive(start, calls, n);
      assert BlockOk(start, calls, n, calls[n].block);
    }
  }

  /** The call allocates a block told to hold the address, or frees a live one, allocated since the hooks, told to. */
  ghost predicate Touches(start: map<nat, Block>, calls: seq<Call>, n: nat, watch: nat)
    requires n < |calls|
  {
    match calls[n]
    case Allocate(block, size) => block <= watch < block + Told(Extent(size))
    case Free(block) => TellsHold(LiveAt(start, calls, n), block, watch) && LiveAt(start, calls, n)[block].born >= 0
  }

  /** What a call adds to the watched addresses' history: its event, for each of them that it touches, in their
      order. */
  lemma KeptInOrder(start: map<nat, Block>, calls: seq<Call>, watches: seq<nat>, n: nat)
    requires Disciplined(start, calls) && n < |calls|
    ensures var before, after := Entries(watches, Record(calls), n), Entries(watches, Record(calls), n + 1);
            && before <= after
            && (forall k {:trigger after[k]} :: |before| <= k < |after| ==>
                  after[k].event == Recorded(calls[n]) && after[k].watch < |watches|
                  && Touches(start, calls, n, watches[after[k].watch]))
            && (forall j, k {:trigger after[j], after[k]} :: |before| <= j < k < |after| ==>
                  after[j].watch < after[k].watch)
            && forall m {:trigger watches[m]} :: 0 <= m < |watches| && Touches(start, calls, n, watches[m]) ==>
                 exists k :: |before| <= k < |after| && after[k].watch == m
  {
    hide Slot, Concerns, Touches, EntriesOf;
    var h := Record(calls);
    var before, added := Entries(watches, h, n), EntriesOf(watches, h, n, |watches|);
    var after := before + added;
    assert Entries(watches, h, n + 1) == after;
    EntriesOfAre(watches, h, n, |watches|);
    forall k {:trigger after[k]} | |before| <= k < |after|
      ensures after[k] == added[k - |before|] && after[k].watch < |watches|
      ensures Touches(start, calls, n, watches[after[k].watch])
    {
      EntryTouches(start, calls, watches, n, k - |before|);
    }
    forall m {:trigger watches[m]} | 0 <= m < |watches| && Touches(start, calls, n, watches[m])
      ensures exists k :: |before| <= k < |after| && after[k].watch == m
    {
      TouchesIff(start, calls, watches[m], n);
      var i :| 0 <= i < |added| && added[i].watch == m;
      assert after[|before| + i] == added[i];
    }
  }

  lemma EntryTouches(start: map<nat, Block>, calls: seq<Call>, watches: seq<nat>, n: nat, i: nat)
    requires Disciplined(start, calls) && n < |calls| && i < |EntriesOf(watches, Record(calls), n, |watches|)|
    ensures var e := EntriesOf(watches, Record(calls), n, |watches|)[i];
            e.watch < |watches| && Touches(start, calls, n, watches[e.watch])
  {
    hide Slot, Concerns, Touches, EntriesOf, Disciplined;
    var h := Record(calls);
    var added := EntriesOf(watches, h, n, |watches|);
    EntriesOfAre(watches, h, n, |watches|);
    var e := added[i];
    TouchesIff(start, calls, watches[e.watch], n);
  }

  lemma TouchesIff(start: map<nat, Block>, calls: seq<Call>, watch: nat, n: nat)
    requires Disciplined(start, calls) && n < |calls|
    ensures Concerns(watch, Slot(watch, Record(calls), n), Record(calls)[n]) <==> Touches(start, calls, n, watch)
  {
    hide Concerns, Slot, Disciplined;
    ConcernsIff(start, calls, watch, n);
  }

  /** One entry of this event for each of the first m watched addresses it concerns, in their order. */
  ghost predicate EntriesAre(watches: seq<nat>, h: seq<Event>, n: nat, m: nat, added: seq<Entry>)
    requires n < |h| && m <= |watches|
  {
    && (forall i {:trigger added[i]} :: 0 <= i < |added| ==>
          added[i].event == h[n] && added[i].watch < m
          && Concerns(watches[added[i].watch], Slot(watches[added[i].watch], h, n), h[n]))
    && (forall i, j {:trigger added[i], added[j]} :: 0 <= i < j < |added| ==> added[i].watch < added[j].watch)
    && forall k {:trigger watches[k]} :: 0 <= k < m && Concerns(watches[k], Slot(watches[k], h, n), h[n]) ==>
         exists i :: 0 <= i < |added| && added[i].watch == k
  }

  lemma OneMoreEntry(watches: seq<nat>, h: seq<Event>, n: nat, m: nat, some: seq<Entry>)
    requires n < |h| && m < |watches| && EntriesAre(watches, h, n, m, some)
    requires Concerns(watches[m], Slot(watches[m], h, n), h[n])
    ensures EntriesAre(watches, h, n, m + 1, some + [Entry(m, h[n])])
  {
    hide Slot, Concerns;
    var added := some + [Entry(m, h[n])];
    assert forall i {:trigger some[i]} :: 0 <= i < |some| ==> added[i] == some[i];
    forall k {:trigger watches[k]} | 0 <= k < m + 1 && Concerns(watches[k], Slot(watches[k], h, n), h[n])
      ensures exists i :: 0 <= i < |added| && added[i].watch == k
    {
      if k < m {
        var i :| 0 <= i < |some| && some[i].watch == k;
        assert added[i].watch == k;
      } else {
        assert added[|some|].watch == k;
      }
    }
  }

  lemma NoMoreEntry(watches: seq<nat>, h: seq<Event>, n: nat, m: nat, some: seq<Entry>)
    requires n < |h| && m < |watches| && EntriesAre(watches, h, n, m, some)
    requires !Concerns(watches[m], Slot(watches[m], h, n), h[n])
    ensures EntriesAre(watches, h, n, m + 1, some)
  {
    hide Slot, Concerns;
  }

  lemma {:induction false} EntriesOfAre(watches: seq<nat>, h: seq<Event>, n: nat, m: nat)
    requires n < |h| && m <= |watches|
    ensures EntriesAre(watches, h, n, m, EntriesOf(watches, h, n, m))
  {
    if m > 0 {
      hide Slot, Concerns, EntriesAre;
      EntriesOfAre(watches, h, n, m - 1);
      var some := EntriesOf(watches, h, n, m - 1);
      assert some + [] == some;
      if Concerns(watches[m - 1], Slot(watches[m - 1], h, n), h[n]) {
        OneMoreEntry(watches, h, n, m - 1, some);
      } else {
        NoMoreEntry(watches, h, n, m - 1, some);
      }
    }
  }
}
