/** What the client records of the engine's heap: its events, the story of an address read back from them, and the
    discipline of the allocator they come from (Code/client/HeapHistory.cpp). */
module HeapHistory {
  import opened Basics

  /** An event's size has 32 bits. */
  const SIZE_SPAN := 0x1_0000_0000
  const MAX_LIVES := 3

  /** What the hooks see of the allocator. */
  datatype Call = Allocate(block: nat, size: nat) | Free(block: nat)

  /** A recorded event; a free has size 0. */
  datatype Event = Event(block: nat, size: nat)

  function Recorded(call: Call): Event {
    match call
    case Allocate(block, size) => Event(block, (if size != 0 then size else 1) % SIZE_SPAN)
    case Free(block) => Event(block, 0)
  }

  function Record(calls: seq<Call>): (h: seq<Event>)
    ensures |h| == |calls| && forall i :: 0 <= i < |h| ==> h[i] == Recorded(calls[i])
  {
    seq(|calls|, i requires 0 <= i < |calls| => Recorded(calls[i]))
  }

  predicate Covers(e: Event, address: nat) {
    e.size > 0 && e.block <= address && address - e.block < e.size
  }

  predicate Frees(e: Event, block: nat) {
    e.size == 0 && e.block == block
  }

  // ----- The story of an address -----

  /** An allocation's event and the free reported with it. */
  datatype Life = Life(allocation: nat, freed: Option<nat>)

  /** Nothing, a free of a block allocated before the window, or lives, oldest first. */
  datatype Story = Nothing | BeforeWindow(freed: nat) | Lives(lives: seq<Life>)

  predicate SaysStillAllocated(story: Story) {
    story.Lives? && |story.lives| > 0 && story.lives[|story.lives| - 1].freed.None?
  }

  /** The first free of `block` from `from` on, before `until`. */
  predicate IsFirstFree(h: seq<Event>, block: nat, from: nat, until: nat, freed: Option<nat>)
    requires from <= until <= |h|
  {
    match freed
    case None => forall i {:trigger Frees(h[i], block)} :: from <= i < until ==> !Frees(h[i], block)
    case Some(f) =>
      && from <= f < until && Frees(h[f], block)
      && forall i {:trigger Frees(h[i], block)} :: from <= i < f ==> !Frees(h[i], block)
  }

  predicate InWindow(h: seq<Event>, address: nat, first: nat, end: nat, lives: seq<Life>, k: nat)
    requires k < |lives| && end <= |h|
  {
    && first <= lives[k].allocation < end
    && Covers(h[lives[k].allocation], address)
  }

  /** The end of the stretch a life's free is looked for in: the next life, or the window's end. */
  function Until(lives: seq<Life>, k: nat, end: nat): nat
    requires k < |lives|
  {
    if k + 1 < |lives| then lives[k + 1].allocation else end
  }

  /** Life k is an event of the window covering the address, next to the life after it, with the first free
      between them. */
  predicate LifeOk(h: seq<Event>, address: nat, first: nat, end: nat, lives: seq<Life>, k: nat)
    requires k < |lives| && end <= |h|
  {
    && InWindow(h, address, first, end, lives, k)
    && lives[k].allocation < Until(lives, k, end) <= end
    && (forall i {:trigger Covers(h[i], address)} :: lives[k].allocation < i < Until(lives, k, end) ==>
        !Covers(h[i], address))
    && IsFirstFree(h, h[lives[k].allocation].block, lives[k].allocation + 1, Until(lives, k, end), lives[k].freed)
  }

  ghost predicate IsStory(h: seq<Event>, address: nat, first: nat, end: nat, story: Story)
    requires first <= end <= |h|
  {
    match story
    case Lives(lives) =>
      && 1 <= |lives| <= MAX_LIVES
      && (forall k: nat {:trigger LifeOk(h, address, first, end, lives, k)} :: k < |lives| ==>
          LifeOk(h, address, first, end, lives, k))
      && (|lives| < MAX_LIVES ==> NoneCovers(h, address, first, lives[0].allocation))
    case BeforeWindow(f) =>
      && NoneCovers(h, address, first, end)
      && first <= f < end && Frees(h[f], address)
      && forall i {:trigger Frees(h[i], address)} :: f < i < end ==> !Frees(h[i], address)
    case Nothing =>
      && NoneCovers(h, address, first, end)
      && forall i {:trigger Frees(h[i], address)} :: first <= i < end ==> !Frees(h[i], address)
  }

  predicate NoneCovers(h: seq<Event>, address: nat, from: nat, until: nat) {
    forall i {:trigger Covers(h[i], address)} :: from <= i < until && i < |h| ==> !Covers(h[i], address)
  }

  // ----- Watched addresses -----

  /** The slot of a watched address after one more event. */
  function SlotAfter(watch: nat, slot: nat, e: Event): nat {
    if Concerns(watch, slot, e) then (if Covers(e, watch) then e.block else 0) else slot
  }

  /** The event allocates a block covering the address, or frees the one that holds it. */
  predicate Concerns(watch: nat, slot: nat, e: Event) {
    Covers(e, watch) || Frees(e, slot)
  }

  function Slot(watch: nat, h: seq<Event>, n: nat): nat
    requires n <= |h|
  {
    if n == 0 then 0 else SlotAfter(watch, Slot(watch, h, n - 1), h[n - 1])
  }

  /** An event kept for a watched address. */
  datatype Entry = Entry(watch: nat, event: Event)

  /** What one event adds to the watched addresses' history, for the first m of them. */
  function EntriesOf(watches: seq<nat>, h: seq<Event>, n: nat, m: nat): seq<Entry>
    requires n < |h| && m <= |watches|
  {
    if m == 0 then []
    else EntriesOf(watches, h, n, m - 1)
         + if Concerns(watches[m - 1], Slot(watches[m - 1], h, n), h[n]) then [Entry(m - 1, h[n])] else []
  }

  function Entries(watches: seq<nat>, h: seq<Event>, n: nat): seq<Entry>
    requires n <= |h|
  {
    if n == 0 then [] else Entries(watches, h, n - 1) + EntriesOf(watches, h, n - 1, |watches|)
  }

  // ----- The allocator -----

  const BEFORE_HOOKS := -1

  /** A live block: its bytes, and the call that allocated it. */
  datatype Block = Block(size: nat, born: int)

  function Extent(size: nat): nat {
    if size == 0 then 1 else size
  }

  /** What an event's size keeps of a block's. */
  function Told(size: nat): nat {
    size % SIZE_SPAN
  }

  /** Every block allocated by call `first` or later, and live, is below 4 GiB. */
  predicate SmallSince(live: map<nat, Block>, first: int) {
    forall b {:trigger live[b]} | b in live :: live[b].born >= first ==> live[b].size < SIZE_SPAN
  }

  predicate Apart(b: nat, size: nat, c: nat, other: nat) {
    b + size <= c || c + other <= b
  }

  predicate Holds(live: map<nat, Block>, b: nat, address: nat) {
    b in live && b <= address < b + live[b].size
  }

  /** New blocks overlap no live one; only live ones are freed. */
  ghost predicate Legal(live: map<nat, Block>, call: Call) {
    match call
    case Allocate(block, size) =>
      block > 0 && forall c {:trigger c in live} :: c in live ==> Apart(block, Extent(size), c, live[c].size)
    case Free(block) => block in live
  }

  function Applied(live: map<nat, Block>, call: Call, at: nat): map<nat, Block> {
    match call
    case Allocate(block, size) => live[block := Block(Extent(size), at)]
    case Free(block) => live - {block}
  }

  /** The live blocks after the first n calls. */
  function LiveAt(start: map<nat, Block>, calls: seq<Call>, n: nat): map<nat, Block>
    requires n <= |calls|
  {
    if n == 0 then start else Applied(LiveAt(start, calls, n - 1), calls[n - 1], n - 1)
  }

  ghost predicate Disjoint(live: map<nat, Block>) {
    forall b, c {:trigger b in live, c in live} :: b in live && c in live && b != c ==>
        Apart(b, live[b].size, c, live[c].size)
  }

  /** Blocks from before the hooks. */
  ghost predicate Before(start: map<nat, Block>) {
    Disjoint(start) && forall b {:trigger b in start} :: b in start ==>
        b > 0 && start[b].size > 0 && start[b].born == BEFORE_HOOKS
  }

  ghost predicate Disciplined(start: map<nat, Block>, calls: seq<Call>) {
    && Before(start)
    && forall i {:trigger LiveAt(start, calls, i)} :: 0 <= i < |calls| ==> Legal(LiveAt(start, calls, i), calls[i])
  }

  /** A block allocated by call `first` or later holds the address. */
  ghost predicate HeldSince(live: map<nat, Block>, address: nat, first: int) {
    exists b :: Holds(live, b, address) && live[b].born >= first
  }

  /** The address lies in what the block's event told of it. */
  predicate TellsHold(live: map<nat, Block>, b: nat, address: nat) {
    b in live && b <= address < b + Told(live[b].size)
  }

  /** The free at f ends the life that began with call i. */
  ghost predicate EndsLife(start: map<nat, Block>, calls: seq<Call>, i: nat, f: nat) {
    && i < f < |calls| && calls[i].Allocate? && calls[f] == Free(calls[i].block)
    && calls[i].block in LiveAt(start, calls, f) && LiveAt(start, calls, f)[calls[i].block].born == i
  }
}
