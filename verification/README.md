# A verified model of the Skyrim co-op mod's engine-free core

The mod lets several Skyrim games play together, and its test harness runs two of them against each other. Most of the
code drives the engine, the network or processes. The parts modelled here hold their own state and arithmetic, and what
they promise is proved for every input, every run of their steps and every interleaving:

- **The duo lock** (`DuoProtocol.dfy`, `DuoQueueFacts.dfy`, `DuoWorld.dfy`, `DuoInvariant.dfy`, `DuoSteps.dfy`,
  `DuoTheorems.dfy`, `DuoJoins.dfy`, `DuoOperations.dfy`, `DuoFifo.dfy`, `DuoHandOver.dfy`, `DuoLocks.dfy`): processes of several checkouts share two
  test games through one hold with joins, a FIFO queue whose places lapse, takeover of dead holders and hand-over to a
  keeper. Each critical section is a function on the shared state; the `Duo` and `DuoLock` objects are proved to do
  exactly that; processes that start, die, wait and hand over, and keepers that adopt, say "ready", are killed, die
  later than that or come too late, are a transition system, and the theorems are about all its runs.
- **The Address Library's files** (`Bytes.dfy`, `AddressLibrary.dfy`, `AddressLibraryProofs.dfy`,
  `AddressLibraryReader.dfy`): the delta records of format 2 and the dense offsets of format 5.
- **Crash diagnostics**: the per-name channels of recent calls (`Breadcrumbs.dfy`, `BreadcrumbsProofs.dfy`,
  `BreadcrumbsTable.dfy`); the heap's events and what is read back from them (`HeapHistory.dfy`,
  `HeapHistoryProofs.dfy`, `HeapRecorder.dfy`); the quarantine of freed blocks (`HeapQuarantine.dfy`) and the hook that
  uses both (`HeapHooks.dfy`).
- **The synchronized clock** (`SynchronizedClock.dfy`) and **the calendar** (`DateTime.dfy`, `DateTimeProofs.dfy`).
- **Player colors** (`PlayerColors.dfy`, `PlayerColorsProofs.dfy`): a search without a bound whose end is a fact of
  number theory.
- **The party panel** (`PartyActivity.dfy`, `PartyActivityProofs.dfy`), **conversation records compared**
  (`Dialogue.dfy`), **frame histograms** (`FrameHistogram.dfy`, `FrameHistogramProofs.dfy`), **plugin files**
  (`PluginRecords.dfy`, `PluginRecordsProofs.dfy`, `PluginRecordsSteps.dfy`) and **the recipe book** (`RecipeBook.dfy`,
  `RecipeBookProofs.dfy`, `RecipeIds.dfy`). `Fnv1a.dfy` is the hash behind names' colors and recipes' ids.

Code that changes fields or arrays in place is a class or a loop here too, proved against functions on values; the
theorems are lemmas about those functions. `Basics.dfy` has the few shared definitions.

Where a promise does not hold of all inputs, the model keeps the code's behaviour and says exactly when it does:
`DuoHandOver.RecordedIffNoLateFailure` (a `park` that returns False though its keeper has adopted the hold, or then
does), `HeapHistoryProofs.StillAllocatedRightIff` and `SlotsRightIff` (a live block of 4 GiB or more),
`HeapHistoryProofs.StoryIsTrue` (an allocation recorded with size 0), `SynchronizedClock.MonotoneIff` (a correction below
minus one second), `PlayerColorsProofs.TakesNewNameIff` (2^21 + 9 names),
`PluginRecordsProofs.RoundTripIff` (records called GRUP, fields called XXXX) and `PluginRecordsSteps.HangsIff` (a reader
that never ends).

## Model

| member | source | states |
|---|---|---|
| DuoTheorems.OneHolder | scripts/coop_harness/duo_lock.py:267-307 | In every run at most one live process that is not a keeper, and whose hold no keeper has adopted, says that it holds the duo; and the recorded hold has its id and its live token. |
| DuoHandOver.RecordedIffNotHandedOver | scripts/coop_harness/duo_lock.py:416-426 | In every run, of every live process that is not a keeper and says that it holds the duo, the recorded hold is its own if and only if no keeper has adopted it. |
| DuoHandOver.RecordedIffNoLateFailure | scripts/coop_harness/duo_lock.py:399-415 | The same of those not inside `park`: if and only if no `park` of that hold returned False (by its timeout, or because the keeper ended before "ready") although the keeper it had started adopted the hold, before that or in the moment the killed keeper still had. |
| DuoHandOver.TwoHoldersOneLate | scripts/coop_harness/duo_lock.py:399-415 | Exclusion over all runs: of two processes that are not keepers, not inside `park` and say that they hold the duo, one's `park` failed late. |
| DuoHandOver.LateFailureOpens | scripts/coop_harness/duo_lock.py:408-412 | After any late failure the recorded hold is not that process's own and, if it still has its id, its token is dead or that of the keeper it has killed; once neither that nor any of its joins lives, whoever looks first in line takes the duo, and then two say that they hold it. |
| DuoHandOver.LateFailureBreaksExclusion | scripts/coop_harness/duo_lock.py:408-412 | Three runs that end with two such holders: the wait for "ready" ends too soon, the keeper dies between adopting and saying it, and the keeper adopts after it was killed and before it is dead. |
| DuoHandOver.ParkedRun | scripts/coop_harness/duo_lock.py:399-436 | A run in which a process takes the duo and parks it, its keeper adopts it and says "ready", and the process lets go. |
| DuoTheorems.TakesOnlyDead | scripts/coop_harness/duo_lock.py:231-236 | A new hold starts only in a look of `acquire`, when the recorded holder and every recorded join are dead and no process rightly holds the duo. |
| DuoHandOver.TakesFromNobody | scripts/coop_harness/duo_lock.py:231-236 | When a hold starts, any process that still says, outside `park`, that it holds the duo is one whose `park` failed late. |
| DuoTheorems.HoldSteady | scripts/coop_harness/duo_lock.py:358-390 | A rightful hold stays recorded, whatever all others do, until its own process leaves, releases, dies or its keeper adopts it. |
| DuoTheorems.BoundedBypass | scripts/coop_harness/duo_lock.py:281-310 | While a queue place is kept its number never grows, and the holds started meanwhile are at most the places that were ahead and are gone. |
| DuoTheorems.TakesIff | scripts/coop_harness/duo_lock.py:279-310 | In every run a look starts a hold if and only if the recorded holder and its joins are dead, its process is first in line, and the games of another checkout's dead hold stopped; then the hold is its own. |
| DuoJoins.JoinsIff | scripts/coop_harness/duo_lock.py:284-291 | In every run a look joins if and only if a hold is recorded, its holder or one of its joins lives, and it is of the looker's checkout; the hold stays but for its last use and its joins, which are those that live and then the new one; the looker's place is gone. |
| DuoJoins.JoinsAreOfTheCheckout | scripts/coop_harness/duo_lock.py:284-291 | In every run the process that made a recorded join's id, if it lives, has the recorded hold's worktree. |
| DuoOperations.TakeRecords | scripts/coop_harness/duo_lock.py:300-307 | What taking records: a hold with the looker's id, name, worktree, token and no joins, used now; the end of the old hold logged as taken over from another checkout or taken back; the looker's place gone and every other that has not lapsed kept. |
| DuoOperations.LookWaits | scripts/coop_harness/duo_lock.py:281-283 | A look that takes and joins nothing keeps exactly the places of processes that live and polled within five minutes, its own as polled now, or else gets the last place; the hold stays. |
| DuoOperations.LookTells | scripts/coop_harness/duo_lock.py:308-316 | The number told of a look that waits is its place's, counted from 1; a look fails exactly if only the games of another checkout's dead hold, which would not stop, keep it from taking. |
| DuoOperations.PollRenews | scripts/coop_harness/duo_lock.py:331-340 | A poll keeps exactly the places that have not lapsed, its own as polled now, and logs those that lapsed with living processes. |
| DuoOperations.PollTells | scripts/coop_harness/duo_lock.py:331-340 | A poll's number is its place's, counted from 1; none exactly if it has lapsed or is gone. |
| DuoOperations.DropsTheOne | scripts/coop_harness/duo_lock.py:342-351 | Dropping by hand takes out and logs the only place that has not lapsed with that id or name. |
| DuoOperations.DropsNothing | scripts/coop_harness/duo_lock.py:342-351 | With none or several of them it takes out nothing. |
| DuoOperations.TouchIs | scripts/coop_harness/duo_lock.py:353-356 | Renews the last use of the recorded hold exactly if it is of the process's own checkout. |
| DuoOperations.LeaveIs | scripts/coop_harness/duo_lock.py:358-365 | Takes out the process's own place and join and no others that live and have not lapsed. |
| DuoOperations.ReleaseIs | scripts/coop_harness/duo_lock.py:367-375 | Ends and logs the recorded hold exactly if its id is the process's own; else it stays. |
| DuoOperations.CheckoutReleasedIff | scripts/coop_harness/duo_lock.py:377-390 | Ends and logs the recorded hold exactly if it is of that checkout and is a keeper's, or dead with its joins. |
| DuoOperations.AdoptIs | scripts/coop_harness/duo_lock.py:416-426 | Puts the recorded hold under the keeper's token, marked and used now, exactly if it is the one the keeper was started for. |
| DuoTheorems.OnlyTheHeadTakes | scripts/coop_harness/duo_lock.py:292-307 | In every run, while anyone waits, whoever takes the duo had the first place: joining is the only way past the queue. |
| DuoFifo.QueueIsFifo | scripts/coop_harness/duo_lock.py:238-244 | Two places kept over any stretch of any run are in the same order at its end as at its start, whatever is polled, dropped, joined or taken meanwhile. |
| DuoFifo.TakenInTurn | scripts/coop_harness/duo_lock.py:292-307 | Of two that have waited since some moment, whoever takes the duo while the other waits was ahead at that moment. |
| DuoTheorems.HoldsAccounted | scripts/coop_harness/duo_lock.py:254-256 | In every run the holds started are, in order, those logged as ended and then the recorded one; no id was used twice, and an id is in one place only among hold, joins and queue. |
| DuoTheorems.EndedStaysEnded | scripts/coop_harness/duo_lock.py:367-390 | A hold that has ended is never recorded again. |
| DuoTheorems.LateReleaseClearsNothing | scripts/coop_harness/duo_lock.py:367-375 | A displaced keeper or process that releases a hold already ended starts, ends and clears nothing. |
| DuoSteps.NextKeepsInv | scripts/coop_harness/duo_lock.py:267-459 | Every step of every process and keeper (looks, adoption, "ready" said and read, `park` failing at any time before it is read, what a killed keeper still does, releases), death and the passing of time keep the invariant behind these. |
| DuoLocks.Duo.Prune | scripts/coop_harness/duo_lock.py:238-247 | The loop over the queue keeps exactly the live places polled in time, logs the lapsed live ones, and drops dead joins. |
| DuoLocks.DuoLock.Look | scripts/coop_harness/duo_lock.py:279-316 | One pass of `acquire`'s loop: joins its checkout's live hold, else takes a dead or free duo when first, else queues, with the state, the object's fields and the outcome exactly those of the protocol's function. |
| DuoLocks.DuoLock.Acquire | scripts/coop_harness/duo_lock.py:267-329 | Whatever others do between looks, it returns holding the recorded hold, joined to it and of its checkout, or with nothing but (if asked) its place; called again while it has the duo it only touches it. |
| DuoLocks.DuoLock.PollPlace | scripts/coop_harness/duo_lock.py:331-340 | Renews the process's own place and gives its number; nothing if it has none. |
| DuoLocks.DuoLock.DropQueued | scripts/coop_harness/duo_lock.py:342-351 | Returns every place with that id or name, and drops and logs one only if it is the single match. |
| DuoLocks.DuoLock.Touch | scripts/coop_harness/duo_lock.py:353-356 | Renews the last use of its own checkout's hold only. |
| DuoLocks.DuoLock.Leave | scripts/coop_harness/duo_lock.py:358-365 | Gives up its place and its join, never a hold, and its token. |
| DuoLocks.DuoLock.Release | scripts/coop_harness/duo_lock.py:367-375 | Clears and logs the hold only if the recorded id is its own; else as leaving; and frees its token. |
| DuoLocks.DuoLock.ReleaseCheckout | scripts/coop_harness/duo_lock.py:377-390 | Frees its checkout's hold exactly if it is dead or a keeper's, and signals the process of a keeper that lives. |
| DuoLocks.DuoLock.Adopt | scripts/coop_harness/duo_lock.py:416-426 | Takes the hold over under a new token exactly if that hold is still the recorded one; else keeps no token. |
| DuoLocks.DuoLock.Park | scripts/coop_harness/duo_lock.py:399-415 | Whatever others and the keeper do meanwhile, it lets go of everything exactly if "ready" is read, and else keeps its role, id and token. |
| DuoLocks.DuoLock.Keep | scripts/coop_harness/duo_lock.py:428-459 | Without the hold it ends with nothing; else it goes on through every check that does not end it and ends at the first that does (the hold gone, idle games, two checks in a row without games or joins) or when stopped, by the release of that hold. |
| AddressLibraryProofs.LoadEncodedV2 | Code/client/AddressLibrary.h:65-132 | For all records and every legal choice of delta kinds and scaling, the encoded file loads exactly if no id with an offset repeats and some offset is not zero, and then as the map of ids to non-zero offsets. |
| AddressLibraryProofs.LoadEncodedV5 | Code/client/AddressLibrary.h:102-128 | Dense offsets load, each under its index, exactly if one is not zero. |
| AddressLibraryProofs.LoadedIsWritten | Code/client/AddressLibrary.h:65-132 | Conversely every file that loads is such an encoding, of records that say what was loaded. |
| AddressLibraryProofs.DecodeEncoded | Code/client/AddressLibrary.h:101-128 | The record loop from any point on; records with offset 0 stay out of the map and are still the base of the next deltas. |
| AddressLibraryProofs.DecodedIsEncoded | Code/client/AddressLibrary.h:101-128 | Whatever the record loop accepts is a legal encoding of records that mean what it returns. |
| AddressLibraryReader.ReadDelta | Code/client/AddressLibrary.h:23-62 | Reads one value off the stream, absolute or relative, refusing what leaves 64 bits or the stream. |
| AddressLibraryReader.ReadRecords | Code/client/AddressLibrary.h:101-128 | The loop over the stream returns what the decoding function returns. |
| AddressLibraryReader.LoadFile | Code/client/AddressLibrary.h:65-132 | The whole reader, with each of its refusals, returns what the loading function returns. |
| BreadcrumbsProofs.TotalsAccountForCalls | Code/client/Breadcrumbs.cpp:78-116 | In every interleaving of calls' two critical sections, for each channel and each object, form and detail: the counts of the ring's entries with it, the counts of it overwritten there and the calls with it between their sections are the calls begun with that name and it; the same of all together; and a channel's total is the number of calls of its name. |
| BreadcrumbsProofs.CountsUpOrIsNew | Code/client/Breadcrumbs.cpp:90-111 | In every interleaving a call counts up the first entry of its object, form and detail in its name's ring, as of now and its thread, or with no such entry is to write a new one, which describes its object if there is one and 50 ms have passed on a 64-bit clock since the name's last description. |
| BreadcrumbsProofs.OldestOverwritten | Code/client/Breadcrumbs.cpp:112-115 | In every interleaving a ring holds the entries written last, each at its turn, and each overwritten one was written a whole turn before. |
| BreadcrumbsProofs.TotalsAreCalls | Code/client/Breadcrumbs.cpp:131-144 | The totals told are exactly those of the names with a channel, each the number of its calls. |
| BreadcrumbsProofs.OnlyItsOwnRing | Code/client/Breadcrumbs.cpp:78-116 | Neither section of a call changes another name's channel. |
| BreadcrumbsProofs.NamesToChannels | Code/client/Breadcrumbs.cpp:48-63 | In every run a name has at most one channel, found by its probes; a called name has none only if all 512 are other names'. |
| BreadcrumbsProofs.FindIsLookup | Code/client/Breadcrumbs.cpp:48-63 | Probing a table without gaps is a map's lookup, and fails exactly if every slot is another name's. |
| BreadcrumbsProofs.NamedKeepsTable | Code/client/Breadcrumbs.cpp:56-60 | Giving a new name the slot found keeps every name reachable without an empty slot on the way. |
| BreadcrumbsTable.Table.ChannelFor | Code/client/Breadcrumbs.cpp:48-63 | The probing loop over the array finds or claims the slot the lookup function gives. |
| BreadcrumbsTable.Table.FirstSection | Code/client/Breadcrumbs.cpp:82-108 | The first critical section, in place: counts the call and a repeat in its entry. |
| BreadcrumbsTable.Table.SecondSection | Code/client/Breadcrumbs.cpp:112-115 | The second: the new entry replaces the ring's oldest. |
| BreadcrumbsTable.Table.Add | Code/client/Breadcrumbs.cpp:78-116 | A whole call: the channels go through its first section, then any sections of other calls, then, if its entry is new, its second. |
| BreadcrumbsTable.Table.Totals | Code/client/Breadcrumbs.cpp:131-144 | The names in use with their totals, in the table's order, up to the capacity. |
| HeapHistoryProofs.StoryIsTrue | Code/client/HeapHistory.cpp:168-216 | For any history of a disciplined allocator: "still allocated" is said exactly if a live block allocated in the window has the address within its size modulo 4 GiB, and then that block holds it; so the verdict is right if and only if no live block of the window holds the address beyond that. Each free reported ends the very life it is reported with; every older life has one. A free told of a block from before the window was one if and only if nothing in the window allocates at that address a size recorded as 0. |
| HeapHistoryProofs.StillAllocatedRightIff | Code/client/HeapHistory.cpp:168-216 | The "still allocated" verdicts of all addresses are right if and only if every live block allocated in the window is below 4 GiB. |
| HeapHistoryProofs.StillAllocatedBlockIff | Code/client/HeapHistory.cpp:168-216 | A live block allocated in the window is told as allocated at each of its addresses if and only if it is below 4 GiB, and at its last one only then. |
| HeapHistoryProofs.FreedBefore | Code/client/HeapHistory.cpp:203-211 | Between two allocations whose events cover one address the first one's block is freed, whatever the sizes. |
| HeapHistoryProofs.TellsExtentIff | Code/client/HeapHistory.cpp:295-298 | An allocation's event covers exactly the block's bytes if and only if its size is below 4 GiB. |
| HeapHistoryProofs.LargeBlockToldAsFreed | Code/client/HeapHistory.cpp:295-298 | A live block of 4 GiB is told as freed. |
| HeapHistoryProofs.SlotIsLiveBlock | Code/client/HeapHistory.cpp:119-126 | After any history a watched address's slot is exactly the live block, allocated since the hooks, that has the address within its size modulo 4 GiB, or 0. |
| HeapHistoryProofs.SlotsRightIff | Code/client/HeapHistory.cpp:119-126 | The slots of all addresses are the live blocks allocated since the hooks that hold them, or 0, if and only if each such block is below 4 GiB. |
| HeapHistoryProofs.ConcernsIff | Code/client/HeapHistory.cpp:122-125 | The events kept for a watched address are exactly the allocations of blocks that have it within their size modulo 4 GiB, and the frees of live ones allocated since the hooks that have. |
| HeapHistoryProofs.KeptInOrder | Code/client/HeapHistory.cpp:119-134 | A call adds its event to the watched addresses' history once for each of them it concerns, in their order, and for no others. |
| HeapRecorder.Recorder.Add | Code/client/HeapHistory.cpp:109-136 | Keeps the ring the newest events, each watched slot and the first 4096 watched events those of the whole history. |
| HeapRecorder.Recorder.WatchEvent | Code/client/HeapHistory.cpp:119-135 | The loop over the watched addresses. |
| HeapRecorder.Recorder.LogStory | Code/client/HeapHistory.cpp:168-216 | Reading the ring backwards gives the story: the newest three covering allocations or all there are, each with the first free of its block before the next; or else the last free of a block starting there. |
| HeapRecorder.Recorder.OnAllocate | Code/client/HeapHistory.cpp:295-298 | Records the allocation's event, a size of 0 as 1. |
| HeapRecorder.Recorder.OnFree | Code/client/HeapHistory.cpp:308-312 | Records the free's event. |
| HeapQuarantine.QuarantineIsAQueue | Code/client/HeapHistory.cpp:314-389 | In every run the bytes held are within the limit, the blocks taken are, in order and each once, those let go of and then those held, none of them live or held twice, and the known sizes are of exactly the live blocks allocated since the hooks. |
| HeapQuarantine.SizesAreAsked | Code/client/HeapHistory.cpp:299-305 | In every run the size noted of a block is the size it was asked for, modulo 4 GiB, and only live blocks allocated since the hooks have one. |
| HeapQuarantine.FreedIsTaken | Code/client/HeapHistory.cpp:314-334 | In every run a freed block becomes the newest one held, with that size, exactly if it was allocated since the hooks. |
| HeapHooks.HookFree | Code/client/Games/Memory.cpp:67-84 | A free records its event; a guarded block is not freed by the engine; else it really frees what the quarantine lets go of, and, without a block or the hooks off, just that block. |
| HeapQuarantine.Quarantine.HoldOrFree | Code/client/Games/Memory.cpp:74-83 | Really freed are, oldest first, the shortest start of the held blocks that brings the rest within the limit, or the block itself if its size is not known. |
| HeapQuarantine.Quarantine.Take | Code/client/HeapHistory.cpp:314-334 | Holds the block exactly if its size is known, and adds that size to the bytes held. |
| HeapQuarantine.Quarantine.TakeEvicted | Code/client/HeapHistory.cpp:378-389 | Gives the oldest block held exactly if the sum of the sizes held is over the limit. |
| HeapQuarantine.Quarantine.OnAllocate | Code/client/HeapHistory.cpp:299-305 | Notes the size in the block's stripe and no other's. |
| SynchronizedClock.NeverBack | Code/network/SynchronizedClock.cpp:27-51 | Over any run of syncs and updates without a reset, with every correction at least minus one second, the tick never goes back. |
| SynchronizedClock.MonotoneIff | Code/network/SynchronizedClock.cpp:68-83 | A reachable synchronized clock never goes back at any later updates if and only if its correction is at least minus one second. |
| SynchronizedClock.GoesBackRun | Code/network/SynchronizedClock.cpp:27-51 | A run of two syncs and two updates without a reset after which the tick has gone from 30000 back to 11001: corrections below minus one second are reached. |
| SynchronizedClock.OneSecondLater | Code/network/SynchronizedClock.cpp:68-83 | From one second after a sync on, an update gives the host's tick, half the ping rounded down and the milliseconds since, exactly. |
| SynchronizedClock.MovesOverASecond | Code/network/SynchronizedClock.cpp:68-83 | In the first second after a sync of a synchronized clock an update gives the tick before, the time since, and that part of the correction (host's tick and half the ping, less the tick before) that has passed of the second, to within a millisecond and the nanosecond of the rounding. |
| SynchronizedClock.SyncSets | Code/network/SynchronizedClock.cpp:27-50 | The first sync sets the tick to the host's and half the ping; later ones leave it. |
| SynchronizedClock.SyncCountsIff | Code/network/SynchronizedClock.cpp:29-30 | A sync counts if and only if its tick is not 0 and later than every one heard since the last reset; else the clock stays as it is. |
| SynchronizedClock.StaysSynchronized | Code/network/SynchronizedClock.cpp:22-25 | Once not zero the tick stays at least 1 until a reset, whatever the corrections. |
| SynchronizedClock.SyncedClock.Synchronize | Code/network/SynchronizedClock.cpp:27-51 | Ignores a tick not after the last one; else rebases the clock and records the sync in the ring if it was synchronized. |
| SynchronizedClock.SyncedClock.Syncs | Code/network/SynchronizedClock.cpp:53-60 | The last eight syncs since the reset, oldest first. |
| SynchronizedClock.SyncedClock.Update | Code/network/SynchronizedClock.cpp:68-83 | Moves the tick to the moment now and changes nothing else. |
| SynchronizedClock.SyncedClock.Reset | Code/network/SynchronizedClock.cpp:62-66 | A new clock with no syncs. |
| PlayerColorsProofs.SearchIsShort | Code/ui_models/UiModels.cpp:31-39 | With n names known, n below 2^21, the search tries at most n + 1 offsets. |
| PlayerColorsProofs.SearchEndsIff | Code/ui_models/UiModels.cpp:31-39 | The search ends if and only if some light color is unused. |
| PlayerColorsProofs.OffsetsDiffer | Code/ui_models/UiModels.cpp:33-36 | The odd multiplier makes offsets below 2^21 differ on the low 21 bits. |
| PlayerColorsProofs.TakesNewNameIff | Code/ui_models/UiModels.cpp:12-40 | After any calls a new name gets a color if and only if fewer than 2^21 + 9 names are known: three palette colors are light ones. |
| PlayerColorsProofs.RegistryFills | Code/ui_models/UiModels.cpp:12-40 | Calls reach a registry with 2^21 + 9 names, and a call for any further name does not return. |
| PlayerColorsProofs.NamesHaveOwnColors | Code/ui_models/UiModels.cpp:29-30 | Over any calls different names have different colors. |
| PlayerColorsProofs.ColorsStay | Code/ui_models/UiModels.cpp:29-30 | A name's color never changes, whatever calls follow. |
| PlayerColorsProofs.PaletteFirst | Code/ui_models/UiModels.cpp:16-20 | The first twelve names get the palette in its order. |
| PlayerColorsProofs.GeneratedSays | Code/ui_models/UiModels.cpp:35-36 | A generated color is # and six hexadecimal digits that say 0x808080 and the low 21 bits, seven to a byte. |
| PlayerColorsProofs.HashIsFnv | Code/ui_models/UiModels.cpp:22-24 | A name's search starts at the FNV-1a hash of its bytes. |
| Fnv1a.FnvValues | Code/ui_models/UiModels.cpp:22-24 | That hash has the published values for the texts "", "a" and "ab". |
| Fnv1a.OneByteApart | Code/ui_models/UiModels.cpp:22-24 | Two texts that differ in one byte only have different hashes. |
| PlayerColors.Registry.ForName | Code/ui_models/UiModels.cpp:12-40 | Returns and keeps the color the choice function gives, for as long as there is one. |
| PartyActivityProofs.OrderDoesNotMatter | Code/ui_models/PartyActivity.cpp:18-42 | Two runs fed the same names and health at the same times, in any order and with any level, color and host, have equal opacity at every step. |
| PartyActivityProofs.NewsIsShown | Code/ui_models/PartyActivity.cpp:43-57 | After any join, departure or significant health change, the first HUD-visible update with no disconnection before it shows opacity 1. |
| PartyActivityProofs.NewsIff | Code/ui_models/PartyActivity.cpp:18-42 | For a roster of distinct names an update is news exactly if somebody joined, left, or has a health a thousandth or more, or to or from none or unknown, away from what was last noted of him. |
| PartyActivityProofs.NotedIs | Code/ui_models/PartyActivity.cpp:21-36 | What is noted after an update: the health now of whoever is new or changed so far, else what was noted before; nothing while disconnected. |
| PartyActivityProofs.HiddenIsClear | Code/ui_models/PartyActivity.cpp:10-57 | Disconnected or with the HUD hidden the opacity is 0. |
| PartyActivityProofs.ReconnectedShows | Code/ui_models/PartyActivity.cpp:10-16 | After a disconnection the first visible update shows a party in full, and nothing without one. |
| PartyActivityProofs.NotShownTwice | Code/ui_models/PartyActivity.cpp:46-52 | A notification that had run its time before the HUD was hidden is not shown again. |
| PartyActivityProofs.CutShortIsShownAgain | Code/ui_models/PartyActivity.cpp:46-52 | A notification a hidden HUD cuts short is shown in full when the HUD is back. |
| PartyActivityProofs.FadesFrom | Code/ui_models/PartyActivity.cpp:53-68 | With the HUD visible and no more news, opacity at each update is the fade of the time since the news was shown. |
| PartyActivityProofs.FadeIs | Code/ui_models/PartyActivity.cpp:63-66 | The fade is 1 exactly up to eight seconds and 0 exactly from 8.4 on. |
| PartyActivityProofs.FadesEvenly | Code/ui_models/PartyActivity.cpp:63-66 | In between the opacity falls by a 400th each millisecond. |
| PartyActivityProofs.QuietStaysHidden | Code/ui_models/PartyActivity.cpp:46-62 | A quiet party stays hidden until there is news. |
| PartyActivityProofs.NoDriftUnnoticed | Code/ui_models/PartyActivity.cpp:31-35 | However many updates pass without news, no member's health is then a thousandth or more, or to or from none or unknown, away from before the first of them. |
| PartyActivity.Activity.Sample | Code/ui_models/PartyActivity.cpp:18-36 | The loop over the roster keeps each member's last significant sample and tells whether anyone joined or changed. |
| PartyActivity.Activity.Update | Code/ui_models/PartyActivity.cpp:8-69 | Leaves all five fields as the update function says, through its loops and early returns. |
| Dialogue.Differences | scripts/coop_harness/comparisons.py:415-441 | For any two records: one report for each longest stretch longer than the grace in which both menus are on one speaker, the field is visible and the values differ, at the stretch's first moment with its first values; and no others; in the order in which, from time to time, the differences get over the grace, and then of the fields. Told of the entries' own fields too: every report's values differ and are those of its first moment, all through its stretch both menus are open on one speaker not below 0, its field differs, and options and cursor are shown in both; every such stretch over the grace is reported; and equal records have no report. |
| Dialogue.OnlyOneList | scripts/coop_harness/comparisons.py:415-441 | Only one list of reports is so. |
| Dialogue.CompleteIsReal | scripts/coop_harness/comparisons.py:428-440 | The two ways of telling the reports agree: what is said of the comparison follows for every complete list. |
| Dialogue.Interval | scripts/coop_harness/comparisons.py:428-440 | The loop over the fields brings what is found of each field from one time to the next. |
| Dialogue.FieldStep | scripts/coop_harness/comparisons.py:430-440 | One field's step does so, and leaves the other fields' findings. |
| Dialogue.StateAt | scripts/coop_harness/comparisons.py:420-426 | The loop over a record's entries stops at the first later one. |
| Dialogue.StateIsLatest | scripts/coop_harness/comparisons.py:420-426 | In a record sorted by time that is the last entry not later than the moment. |
| Dialogue.StateBefore | scripts/coop_harness/comparisons.py:420-426 | Before the first entry there is no menu. |
| PluginRecordsProofs.RoundTripIff | scripts/build_start_room.py:22-49 | Reading what was written gives back every record in order, with its kind, form, flags, fields and the label of its innermost group of type 6, and ends, if and only if no record is called GRUP and, of each, no field is called XXXX or (marked compressed) its bytes from the fifth on decompress to its fields. |
| PluginRecordsProofs.ParseWritten | scripts/build_start_room.py:22-36 | The same from any place in any file, in any cell: what was written is read, and then what follows it. |
| PluginRecordsProofs.FieldsRoundTripIff | scripts/build_start_room.py:39-45 | Splitting a record's body undoes joining its fields if and only if none is called XXXX. |
| PluginRecordsProofs.LargeFieldsRead | scripts/re/dialogue_conditions.py:29-43 | Fields written with their size in an XXXX field before them, whichever they are and whatever their own size says, are all read back. |
| PluginRecordsProofs.InnermostMark | scripts/build_start_room.py:28 | The cell of a record among those expected is the label of the innermost group of type 6 around it. |
| PluginRecordsProofs.NoMark | scripts/build_start_room.py:28 | And without one the cell the reading starts in. |
| PluginRecordsProofs.HeadersEnd | scripts/build_start_room.py:43-49 | The bytes of a written header that nothing reads. |
| PluginRecordsSteps.HangsIff | scripts/build_start_room.py:22-36 | For any bytes the reader, turn by turn, never ends if and only if it comes to a group of size 0; and else ends with exactly what the parsing function gives. |
| PluginRecordsSteps.EmptyGroupCycles | scripts/build_start_room.py:24-31 | At a group of size 0 two turns bring the reader back to the same calls, places and records given. |
| PluginRecordsSteps.HangsInBytes | scripts/build_start_room.py:24-31 | If it never ends, the bytes say GRUP and size 0 somewhere: a file without those is read to an end. |
| PluginRecordsSteps.GroupNamedRecordHangs | scripts/build_start_room.py:43-45 | After any readable records, a record written under the name GRUP without fields hangs the reader, whatever follows. |
| PluginRecords.Records | scripts/build_start_room.py:22-36 | The loop with its recursion reads what the parsing function reads, compressed records too, and stops where and why it does. |
| PluginRecords.ReadFields | scripts/re/dialogue_conditions.py:29-43 | The loop over a record's body gives what the splitting function gives. |
| DateTimeProofs.UpdateAdvances | Code/common/DateTime.cpp:16-48 | An update raises the time in days by exactly the seconds passed times the scale times 0.00027777778, over 24, the days since the game began by as much, and keeps the scale. |
| DateTimeProofs.UpdateTwice | Code/common/DateTime.cpp:16-33 | Updating by a and then by b is updating by a + b. |
| DateTimeProofs.UpdateInRange | Code/common/DateTime.cpp:16-33 | Month in 0 to 11, day within its month, time of day below 24. |
| DateTimeProofs.MonthLengths | Code/common/DateTime.cpp:9-14 | The months have their days, with no leap day. |
| DateTimeProofs.OrderIsTimeInDays | Code/common/DateTime.cpp:40-48 | The time in days orders dates in their ranges as year, month, day and time do. |
| DateTime.Calendar.Update | Code/common/DateTime.cpp:16-33 | The carry loop ends, with the date the update function gives. |
| DateTime.Calendar.GetTimeInDays | Code/common/DateTime.cpp:40-48 | The loop over the months sums the year, the months before, the day and the time. |
| FrameHistogramProofs.ToldIsRight | scripts/coop_harness/profiling.py:457-480 | Whatever was counted before, a window's percentiles are those of its sorted frame times by nearest rank, to within half a bucket below 30 s; its maximum is the top of the longest frame's bucket; nothing is told of no frames. |
| FrameHistogramProofs.PickIsRank | scripts/coop_harness/profiling.py:470-476 | The bucket picked for any fraction is that of the frame at its nearest rank. |
| FrameHistogramProofs.InBucket | Code/vanilla_harness/VanillaHarness.cpp:324-325 | A frame is counted in the bucket whose range, as read back, holds it; the last one is for 30 s and more. |
| FrameHistogramProofs.TopIsNear | scripts/coop_harness/profiling.py:477-480 | The maximum told is above the longest frame by a bucket's width at most, below 30 s. |
| FrameHistogramProofs.StallsAre | Code/vanilla_harness/VanillaHarness.cpp:322 | The stalls counted are the frames longer than 100 ms. |
| FrameHistogram.FrameCounter.CountFrame | Code/vanilla_harness/VanillaHarness.cpp:315-328 | Keeps the frames, stalls, longest frame and histogram those of every frame so far. |
| FrameHistogram.HistogramPercentiles | scripts/coop_harness/profiling.py:457-480 | The loops over the counts tell what the percentile functions tell, for any two histograms. |
| RecipeBookProofs.SameIff | Code/encoding/Structs/Recipe.cpp:27-49 | Two recipes are the same exactly if both are poisons or neither and their effects, with the costs taken off, are the same in any order; and then they have one id. |
| RecipeIds.IdIsFnv | Code/encoding/Structs/Recipe.cpp:34-51 | A recipe's id has no plugin's number, and is the FNV-1a hash of the poison flag and then of its effects in order of plugin, form, magnitude, area and duration, each number as four little-endian bytes. |
| RecipeIds.PoisonIsAnother | Code/tests/client/recipe_tests.cpp:35-40 | A poison and a potion of the same effects have different ids. |
| RecipeBookProofs.ToldInOrder | Code/client/RecipeBook.cpp:7-64 | In any run of learning and telling a game was told exactly the recipes learned from its first count on, in order, none skipped, repeated or sharing an id. |
| RecipeBookProofs.AllTold | Code/client/RecipeBook.cpp:56-64 | Right after a telling, everything learned from there on was told. |
| RecipeBookProofs.FindsFirstLearned | Code/client/RecipeBook.cpp:7-29 | A book finds under an id the first recipe learned by it, and nothing under any other. |
| RecipeBookProofs.FormsAreLatest | Code/client/RecipeBook.cpp:7-22 | A book has for each id the form it was last learned with, if with any. |
| RecipeBookProofs.RecipesOfIsRight | Code/client/RecipeBook.cpp:66-75 | An inventory's recipes are, without repeats, exactly the known ones its recipe ids name. |
| RecipeBookProofs.InventoryIsRight | Code/client/RecipeBook.cpp:66-75 | An inventory's recipes are exactly the known ones that an item or a coating in it names. |
| RecipeBookProofs.InventoryInOrder | Code/client/RecipeBook.cpp:66-75 | Those its first entries name come first. |
| RecipeBook.Recipes.Learn | Code/client/RecipeBook.cpp:7-22 | Appends a recipe whose id is new, and notes its form. |
| RecipeBook.Recipes.FormFor | Code/client/RecipeBook.cpp:31-54 | The form it had while that is still this potion, else a new one, noted; 0 for an unknown id or a potion not made. |
| RecipeBook.Recipes.Unsent | Code/client/RecipeBook.cpp:56-64 | Everything past the count, and the new count. |
| RecipeBook.Recipes.Of | Code/client/RecipeBook.cpp:66-75 | The nested loops list what the listing function lists. |

## Left out

- DuoTheorems.OneHolder: says nothing of keepers and of joined processes: a keeper's hold can be freed by its checkout's
  `stop`, and a release does not wait for the joins. Of a process whose hold a keeper has adopted `DuoHandOver` speaks.
- DuoHandOver.RecordedIffNoLateFailure: the 30 seconds of the wait for "ready" are not counted; `park` may fail at any
  moment before "ready" is read, even when it has been said. A killed keeper acts on for any time before it dies, where
  the source's `kill` leaves it a moment.
- DuoLocks.DuoLock.Acquire: the wait between looks is any behaviour of others for a bounded number of looks; the messages,
  `wait_any` and the seconds are not modelled. `DuoBusy` is the result without a role.
- DuoLocks.DuoLock.ReleaseCheckout: only names the process it signals; what the signal does is that keeper's own next step
  in a run, its death or its release, which then finds its hold gone (`LateReleaseClearsNothing`).
- The lock's files: `duo.json` that cannot be read, the rendering of `DUO.md`, `status`, process ids, `holds_duo` and the
  text of log lines; a log line is its kind and id. The stop command is a boolean; a flock is membership in a set of live
  tokens; new tokens and ids are fresh.
- DuoLocks.DuoLock.Keep: is stopped after some number of checks; that no stop ever comes is not modelled. Whether stopping
  idle games succeeded changes only the text of its log line.
- AddressLibraryReader.LoadFile: the stream's seek errors, and `open`-side failures; the data is left unset on refusal.
- Breadcrumbs: what `Describe` reads of an object and `Dump`; counters and ring positions do not wrap at 32 bits.
- HeapHistoryProofs.StoryIsTrue: takes events one after another; torn reads of the ring by a crashing thread, and the
  thread, time and call stack of an event, are not modelled. Addresses are unbounded naturals.
- HeapQuarantine.QuarantineIsAQueue: which stripe a size is kept in is only a matter of locks; the poison written
  into a block and the engine's own reallocation are not modelled.
- HeapHooks.HookFree: the page guard is the answer whether it had the block.
- SynchronizedClock.NeverBack: in exact arithmetic; the source multiplies the correction by a `double`. 64-bit overflow of
  times is not modelled.
- PlayerColors.Registry.ForName: requires that the search ends, which `SearchEndsIff` and `TakesNewNameIff` settle: the
  source's loop would not end otherwise.
- PartyActivityProofs.OrderDoesNotMatter: for rosters of distinct names; with a repeated name the first one counts, as in
  the source's search. Health and opacity are exact reals.
- DateTime.Calendar.Update: exact reals for the source's floats; day and year do not wrap at 32 bits; a scale or a time
  below zero, which the source cannot convert, is excluded.
- PluginRecords.Records: decompression is any function from bytes to bytes or an error; a failed `struct` or `zlib` call is
  the result `Failed`; Python's limit on nested calls, and the choice of scenery in `build`, are not modelled.
- FrameHistogramProofs.ToldIsRight: frame times are whole nanoseconds and fractions exact; a game started anew between
  two counts is only in `HistogramPercentiles`.
- RecipeBook.Recipes.FormFor: what a form is now and how one is made are functions given to it; the lock around each step,
  and the wire format of a recipe, are not modelled.
- Engine hooks, networking, the UI workbench, launchers, the test server, scenarios and harness commands: plumbing without
  invariants of their own.
- `TaskQueue`, form ids, the reverse map of versions and the bump allocator: easy members beside the above.
