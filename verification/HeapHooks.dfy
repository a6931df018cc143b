/** The engine's free, hooked: the event, the guard, the quarantine (Code/client/Games/Memory.cpp). */
module HeapHooks {
  import opened HeapHistory
  import opened HeapRecorder
  import opened HeapQuarantine

  /** Returns the blocks the engine really frees, in order. `started`: whether any of the history, the watches, the
      quarantine and the guard is on; `guarded`: whether the guard had the block and freed it itself. */
  method HookFree(recorder: Recorder, quarantine: Quarantine, started: bool, guarded: bool, block: nat, aligned: bool)
    returns (freed: seq<(nat, bool)>)
    requires recorder.Valid() && quarantine.Valid()
    requires quarantine.stripes as object !in {recorder, recorder.events, recorder.watchBlocks, recorder.watched}
    modifies recorder, recorder.events, recorder.watchBlocks, recorder.watched, quarantine, quarantine.stripes
    ensures recorder.Valid() && quarantine.Valid()
    ensures recorder.history == old(recorder.history) + if block != 0 && started then [Recorded(Free(block))] else []
    ensures block == 0 || !started ==> freed == [(block, aligned)] && quarantine.Value() == old(quarantine.Value())
    ensures block != 0 && started && guarded ==> freed == [] && quarantine.Value() == old(quarantine.Value())
    ensures block != 0 && started && !guarded && !(quarantine.limit > 0 && block in old(quarantine.sizes)) ==>
              freed == [(block, aligned)] && quarantine.Value() == old(quarantine.Value())
    ensures block != 0 && started && !guarded && quarantine.limit > 0 && block in old(quarantine.sizes) ==>
              var taken := TakenIn(old(quarantine.Value()), block, aligned);
              && |freed| <= |taken.held| && ShortestEviction(quarantine.limit, taken.held, |freed|)
              && quarantine.Value() == taken.(held := taken.held[|freed|..])
              && forall k :: 0 <= k < |freed| ==> freed[k] == (taken.held[k].block, taken.held[k].aligned)
  {
    hide Slot, Entries, EntriesOf, StripeOf, Total, ShortestEviction;
    if block != 0 && started {
      recorder.OnFree(block);
      assert quarantine.Valid();
      if guarded { return []; }
      freed := quarantine.HoldOrFree(block, aligned);
      assert recorder.Valid();
    } else {
      freed := [(block, aligned)];
    }
  }
}
