/** Each hook's recent calls: a table of channels found by open addressing, each with a ring of entries
    (Code/client/Breadcrumbs.cpp). What one call does in each of its two critical sections, on values. */
module Breadcrumbs {
  import opened Basics

  const PER_CHANNEL: nat := 24
  const CHANNELS: nat := 512
  const DESCRIBE_EVERY_MS := 50
  const U64 := 0x1_0000_0000_0000_0000

  /** What makes a call a repeat: the object it ran on (0: none), the form and the detail. */
  datatype Key = Key(target: nat, formId: nat, detail: nat)

  datatype Entry = Entry(key: Key, described: bool, threadId: nat, count: nat, firstMs: nat, lastMs: nat)

  /** `what`: the name's address, 0 for a slot not in use. */
  datatype Channel = Channel(what: nat, total: nat, lastMs: nat, describedMs: nat, next: nat, recent: seq<Entry>)

  const NO_ENTRY := Entry(Key(0, 0, 0), false, 0, 0, 0, 0)

  /** A zeroed ring. */
  function NoEntries(n: nat): (s: seq<Entry>)
    ensures |s| == n && forall i :: 0 <= i < n ==> s[i] == NO_ENTRY
  {
    seq(n, _ => NO_ENTRY)
  }

  const NO_CHANNEL := Channel(0, 0, 0, 0, 0, NoEntries(PER_CHANNEL))

  // ----- The table -----

  /** The k-th slot a name's search looks at. */
  function ProbeSlot(what: nat, k: nat): (slot: nat)
    ensures slot < CHANNELS
  {
    (what / 8 + k) % CHANNELS
  }

  /** The slot of a name, or else the empty one it would take, from the k-th probe on. */
  function FindFrom(cs: seq<Channel>, what: nat, k: nat): (slot: Option<nat>)
    requires |cs| == CHANNELS && k <= CHANNELS
    ensures slot.Some? ==> slot.value < CHANNELS
    decreases CHANNELS - k
  {
    if k == CHANNELS then None
    else if cs[ProbeSlot(what, k)].what == what || cs[ProbeSlot(what, k)].what == 0 then Some(ProbeSlot(what, k))
    else FindFrom(cs, what, k + 1)
  }

  /** The channel of a name, made on first use. */
  function ChannelOf(cs: seq<Channel>, what: nat): (r: (seq<Channel>, Option<nat>))
    requires |cs| == CHANNELS
    ensures |r.0| == CHANNELS
  {
    match FindFrom(cs, what, 0)
    case None => (cs, None)
    case Some(slot) => (cs[slot := cs[slot].(what := what)], Some(slot))
  }

  // ----- One call -----

  function RepeatIn(recent: seq<Entry>, key: Key, i: nat): (found: Option<nat>)
    requires i <= |recent|
    ensures found.Some? ==> i <= found.value < |recent| && recent[found.value].count > 0
    ensures found.Some? ==> recent[found.value].key == key
    decreases |recent| - i
  {
    if i == |recent| then None
    else if recent[i].count > 0 && recent[i].key == key then Some(i)
    else RepeatIn(recent, key, i + 1)
  }

  /** What the first section came to: the table is full, a repeat counted up, or a new entry to write later. */
  datatype First = Full | Repeated | New(slot: nat, entry: Entry)

  /** The first critical section of a call. */
  function AddFirst(cs: seq<Channel>, what: nat, key: Key, thread: nat, now: nat): (r: (seq<Channel>, First))
    requires |cs| == CHANNELS && forall c :: c in cs ==> |c.recent| == PER_CHANNEL
    ensures |r.0| == CHANNELS
  {
    match FindFrom(cs, what, 0)
    case None => (cs, Full)
    case Some(slot) =>
      var c := cs[slot].(what := what, total := cs[slot].total + 1, lastMs := now);
      match RepeatIn(c.recent, key, 0)
      case Some(i) =>
        var e := c.recent[i];
        (cs[slot := c.(recent := c.recent[i := e.(count := e.count + 1, lastMs := now, threadId := thread)])], Repeated)
      case None =>
        var describe := key.target != 0 && (now - c.describedMs) % U64 >= DESCRIBE_EVERY_MS;
        (cs[slot := if describe then c.(describedMs := now) else c],
         New(slot, Entry(key, describe, thread, 1, now, now)))
  }

  /** The second: the new entry over the oldest of its ring. */
  function AddSecond(cs: seq<Channel>, slot: nat, entry: Entry): (r: seq<Channel>)
    requires slot < |cs| && |cs[slot].recent| == PER_CHANNEL
    ensures |r| == |cs|
  {
    var c := cs[slot];
    cs[slot := c.(recent := c.recent[c.next % PER_CHANNEL := entry], next := c.next + 1)]
  }

  /** The names in use and their totals, in slot order. */
  function InUse(cs: seq<Channel>): (r: seq<(nat, nat)>)
    ensures |r| <= |cs|
  {
    if cs == [] then []
    else (if cs[0].what != 0 then [(cs[0].what, cs[0].total)] else []) + InUse(cs[1..])
  }

  // ----- Any number of calls, interleaved -----

  /** A call between its two sections. */
  datatype Pending = Pending(what: nat, slot: nat, entry: Entry)

  /** A call begun: its name, what it ran on, when, and whether it describes its object. */
  datatype Call = Call(what: nat, key: Key, now: nat, described: bool)

  /** Records only: `made`, the keys of the new entries written into each ring so far, `lost`, what they were written
      over, and `history`, the calls begun. */
  datatype World = World(channels: seq<Channel>, pending: seq<Pending>, made: seq<seq<Key>>, lost: seq<seq<Entry>>,
                         history: seq<Call>)

  datatype Step = Begin(what: nat, key: Key, thread: nat, now: nat) | Finish(index: nat)

  function Start(): World {
    World(seq(CHANNELS, _ => NO_CHANNEL), [], seq(CHANNELS, _ => []), seq(CHANNELS, _ => []), [])
  }

  ghost predicate Shaped(w: World) {
    && |w.channels| == CHANNELS && |w.made| == CHANNELS && |w.lost| == CHANNELS
    && (forall c :: c in w.channels ==> |c.recent| == PER_CHANNEL)
    && (forall p :: p in w.pending ==> p.slot < CHANNELS)
  }

  /** A name is a string literal's address, never null. */
  ghost predicate Enabled(w: World, step: Step) {
    match step
    case Begin(what, _, _, _) => what != 0
    case Finish(index) => index < |w.pending|
  }

  ghost function Next(w: World, step: Step): World
    requires Shaped(w) && Enabled(w, step)
  {
    match step
    case Begin(what, key, thread, now) =>
      var (cs, first) := AddFirst(w.channels, what, key, thread, now);
      World(cs, if first.New? then w.pending + [Pending(what, first.slot, first.entry)] else w.pending, w.made, w.lost,
            w.history + [Call(what, key, now, first.New? && first.entry.described)])
    case Finish(index) =>
      var p := w.pending[index];
      assert p in w.pending;
      var c := w.channels[p.slot];
      World(AddSecond(w.channels, p.slot, p.entry), w.pending[..index] + w.pending[index + 1..],
            w.made[p.slot := w.made[p.slot] + [p.entry.key]],
            w.lost[p.slot := w.lost[p.slot] + [c.recent[c.next % PER_CHANNEL]]], w.history)
  }

  ghost predicate Run(ws: seq<World>, steps: seq<Step>) {
    && |ws| == |steps| + 1 && ws[0] == Start()
    && forall i :: 0 <= i < |steps| ==> Shaped(ws[i]) && Enabled(ws[i], steps[i]) && ws[i + 1] == Next(ws[i], steps[i])
  }

  // ----- What is counted: of one key, or of all -----

  predicate Of(only: Option<Key>, key: Key) {
    only.None? || only.value == key
  }

  function Counts(entries: seq<Entry>, only: Option<Key>): nat {
    if entries == [] then 0
    else (if Of(only, entries[0].key) then entries[0].count else 0) + Counts(entries[1..], only)
  }

  function PendingOn(pending: seq<Pending>, slot: nat, only: Option<Key>): nat {
    if pending == [] then 0
    else (if pending[0].slot == slot && Of(only, pending[0].entry.key) then 1 else 0)
         + PendingOn(pending[1..], slot, only)
  }

  function Calls(history: seq<Call>, what: nat, only: Option<Key>): nat {
    if history == [] then 0
    else
      var last := history[|history| - 1];
      Calls(history[..|history| - 1], what, only) + if last.what == what && Of(only, last.key) then 1 else 0
  }

  /** When the last call of a name was, or the last that described its object; 0 before the first. */
  function LastTime(history: seq<Call>, what: nat, describing: bool): nat {
    if history == [] then 0
    else
      var last := history[|history| - 1];
      if last.what == what && (describing ==> last.described) then last.now
      else LastTime(history[..|history| - 1], what, describing)
  }
}
