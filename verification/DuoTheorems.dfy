/** What every run of the lock's steps keeps: one ordinary holder, a fair queue, holds accounted for. */
module DuoTheorems {
  import opened Basics
  import opened DuoProtocol
  import opened DuoQueueFacts
  import opened DuoWorld
  import opened DuoInvariant
  import opened DuoSteps

  lemma {:induction false} RunInv(ws: seq<World>, steps: seq<Step>, i: nat)
    requires Run(ws, steps) && i < |ws|
    ensures Inv(ws[i])
  {
    if i == 0 {
      assert Ended([]) == [];
    } else {
      RunInv(ws, steps, i - 1);
      NextKeepsInv(ws[i - 1], steps[i - 1]);
    }
  }

  // ----- Exclusion -----

  /** In every run at most one live process that is not a keeper holds the duo, and the recorded hold is its own. */
  lemma OneHolder(ws: seq<World>, steps: seq<Step>, i: nat, p: nat, q: nat)
    requires Run(ws, steps) && i < |ws| && Ordinary(ws[i], p) && Ordinary(ws[i], q)
    ensures p == q
    ensures HoldIs(ws[i].state, ws[i].procs[p].client)
    ensures ws[i].state.holder.value.token in ws[i].live
  {
    RunInv(ws, steps, i);
    OrdinaryUnique(ws[i], p, q);
    assert ProcOk(ws[i], p);
  }

  /** A new hold starts only in a look of acquire, when neither the recorded holder nor any recorded join is alive and
      no ordinary process holds the duo; the process that looked holds it then. */
  lemma TakesOnlyDead(ws: seq<World>, steps: seq<Step>, i: nat)
    requires Run(ws, steps) && i < |steps| && ws[i + 1].started != ws[i].started
    ensures steps[i].LookFor? && Ordinary(ws[i + 1], steps[i].pid)
    ensures ws[i].state.holder.Some? ==>
              && ws[i].state.holder.value.token !in ws[i].live
              && forall j :: j in ws[i].state.holder.value.joined ==> j.token !in ws[i].live
    ensures forall o :: !Ordinary(ws[i], o)
  {
    var w, step := ws[i], steps[i];
    RunInv(ws, steps, i);
    assert ws[i + 1] == Next(w, step);
    assert step.LookFor?;
    TakenOnlyFree(w, step.pid, step.what, step.stops);
    assert ProcOk(w, step.pid);
    if w.state.holder.Some? {
      FilterMembers((j: Join) => j.token in w.live, w.state.holder.value.joined);
    }
  }

  /** k is a keeper started for the hold of p. */
  predicate Adopting(k: Proc, p: Proc) {
    k.adopts.Some? && p.client.id == Some(k.adopts.value.0)
  }

  /** The steps that end a process's own hold: leaving, releasing, dying, or its keeper adopting it. */
  ghost predicate EndsOwnHold(w: World, step: Step, p: nat)
    requires p in w.procs
  {
    match step
    case Leave(pid) => pid == p
    case Release(pid, _) => pid == p
    case Die(pid) => pid == p
    case Adopt(keeper, _) => keeper in w.procs && Adopting(w.procs[keeper], w.procs[p])
    case _ => false
  }

  lemma HoldSteadyStep(w: World, step: Step, p: nat)
    requires Inv(w) && Enabled(w, step) && Ordinary(w, p) && !EndsOwnHold(w, step, p)
    ensures Ordinary(Next(w, step), p) && Next(w, step).procs[p].client == w.procs[p].client
  {
    assert ProcOk(w, p);
    match step
    case Adopt(keeper, token) =>
      assert ProcOk(w, keeper);
    case _ =>
  }

  lemma HoldSteadyNext(ws: seq<World>, steps: seq<Step>, j: nat, p: nat)
    requires Run(ws, steps) && j < |steps| && Ordinary(ws[j], p) && !EndsOwnHold(ws[j], steps[j], p)
    ensures Ordinary(ws[j + 1], p) && ws[j + 1].procs[p].client == ws[j].procs[p].client
  {
    RunInv(ws, steps, j);
    HoldSteadyStep(ws[j], steps[j], p);
  }

  /** Nobody else's steps end an ordinary hold: it lasts, recorded, until its own process ends it. */
  lemma {:induction false} HoldSteady(ws: seq<World>, steps: seq<Step>, i: nat, j: nat, p: nat)
    requires Run(ws, steps) && i <= j < |ws| && Ordinary(ws[i], p)
    requires forall k :: i <= k < j && Ordinary(ws[k], p) ==> !EndsOwnHold(ws[k], steps[k], p)
    ensures Ordinary(ws[j], p) && ws[j].procs[p].client == ws[i].procs[p].client
    ensures HoldIs(ws[j].state, ws[i].procs[p].client)
    decreases j - i
  {
    hide Next, Enabled, Ordinary, HoldIs, INITIAL;
    if i < j {
      HoldSteady(ws, steps, i, j - 1, p);
      HoldSteadyNext(ws, steps, j - 1, p);
    }
    OneHolder(ws, steps, j, p, p);
  }

  // ----- The queue -----

  /** The id has a queue place that has not lapsed: its process lives and it was polled in the last five minutes. */
  ghost predicate Waits(w: World, id: nat) {
    InQueue(KeptPlaces(w.state.queue, w.live, w.now), id)
  }

  /** The number of places ahead of it. */
  ghost function Place(w: World, id: nat): nat
    requires Waits(w, id)
  {
    FilterQueue((e: Entry) => KeepsPlace(e, w.live, w.now), w.state.queue);
    InQueueByPlace(w.state.queue, id);
    PlaceOf(w.state.queue, id).value
  }

  lemma PrunedPlace(s: State, live: set<nat>, now: int, id: nat)
    requires UniquePlaces(s.queue) && InQueue(Prune(s, live, now).queue, id)
    ensures InQueue(s.queue, id) && PlaceOf(Prune(s, live, now).queue, id).Some?
    ensures PlaceOf(Prune(s, live, now).queue, id).value <= PlaceOf(s.queue, id).value
    ensures UniquePlaces(Prune(s, live, now).queue)
  {
    var p := (e: Entry) => KeepsPlace(e, live, now);
    FilterQueue(p, s.queue);
    InQueueByPlace(s.queue, id);
    InQueueByPlace(Prune(s, live, now).queue, id);
    FilterPlace(p, s.queue, id);
  }

  lemma WithoutKeepsPlace(q: seq<Entry>, gone: nat, id: nat)
    requires UniquePlaces(q) && InQueue(WithoutPlace(q, gone), id)
    ensures id != gone && InQueue(q, id)
    ensures PlaceOf(q, id).Some? && PlaceOf(WithoutPlace(q, gone), id).Some?
    ensures PlaceOf(WithoutPlace(q, gone), id).value <= PlaceOf(q, id).value
    ensures PlaceOf(q, gone) == Some(0) ==> PlaceOf(WithoutPlace(q, gone), id).value < PlaceOf(q, id).value
  {
    WithoutPlaceIds(q, gone);
    InQueueByPlace(q, id);
    InQueueByPlace(WithoutPlace(q, gone), id);
    FilterPlace((e: Entry) => e.id != gone, q, id);
  }

  /** A step that only prunes and renews. */
  lemma RenewedPlace(w: World, t: State, me: nat, id: nat)
    requires Inv(w) && Waits(w, id) && InQueue(t.queue, id)
    requires t.queue ==
        Renewed(Prune(w.state, w.live, w.now).queue, PlaceOf(Prune(w.state, w.live, w.now).queue, me), w.now)
    ensures PlaceOf(t.queue, id).Some? && PlaceOf(t.queue, id).value <= Place(w, id)
  {
    var q := Prune(w.state, w.live, w.now).queue;
    PrunedPlace(w.state, w.live, w.now, id);
    RenewedPlaces(q, PlaceOf(q, me), w.now, id);
  }

  /** A look that joins or takes: the process's own place goes, from the front if it takes. */
  lemma GotPlace(w: World, me: nat, t: State, takes: bool, id: nat)
    requires Inv(w) && Waits(w, id) && InQueue(t.queue, id)
    requires var q := Prune(w.state, w.live, w.now).queue;
             && t.queue == WithoutPlace(Renewed(q, PlaceOf(q, me), w.now), me)
             && (takes ==>
                 PlaceOf(q, me) == Some(0) || (PlaceOf(q, me).None? && Renewed(q, PlaceOf(q, me), w.now) == []))
    ensures PlaceOf(t.queue, id).Some? && PlaceOf(t.queue, id).value + (if takes then 1 else 0) <= Place(w, id)
  {
    var q := Prune(w.state, w.live, w.now).queue;
    PrunedPlace(w.state, w.live, w.now, id);
    RenewedPlaces(q, PlaceOf(q, me), w.now, id);
    RenewedPlaces(q, PlaceOf(q, me), w.now, me);
    WithoutKeepsPlace(Renewed(q, PlaceOf(q, me), w.now), me, id);
  }

  /** A look that queues: the process's own place comes last. */
  lemma QueuedPlace(w: World, me: nat, t: State, id: nat)
    requires Inv(w) && Waits(w, id)
    requires var q := Prune(w.state, w.live, w.now).queue;
             t.queue == Renewed(q, PlaceOf(q, me), w.now) ||
             (|t.queue| > 0 && t.queue == Renewed(q, PlaceOf(q, me), w.now) + [t.queue[|t.queue| - 1]])
    ensures PlaceOf(t.queue, id).Some? && PlaceOf(t.queue, id).value <= Place(w, id)
  {
    var q := Prune(w.state, w.live, w.now).queue;
    PrunedPlace(w.state, w.live, w.now, id);
    RenewedPlaces(q, PlaceOf(q, me), w.now, id);
    if t.queue != Renewed(q, PlaceOf(q, me), w.now) {
      AppendedPlace(Renewed(q, PlaceOf(q, me), w.now), t.queue[|t.queue| - 1], id);
    }
  }

  /** One look of acquire. */
  lemma LookPlace(w: World, pid: nat, what: string, stops: bool, id: nat)
    requires Inv(w) && Enabled(w, LookFor(pid, what, stops)) && Waits(w, id)
    requires InQueue(Next(w, LookFor(pid, what, stops)).state.queue, id)
    ensures var w' := Next(w, LookFor(pid, what, stops));
            && PlaceOf(w'.state.queue, id).Some?
            && PlaceOf(w'.state.queue, id).value + |w'.started| - |w.started| <= Place(w, id)
            && |w.started| <= |w'.started|
  {
    var p := w.procs[pid];
    var (t, client, look) := AcquireLook(w.state, w.live, w.now, p.client, p.owner, what, stops);
    match look
    case Got(role) => GotPlace(w, p.client.id.value, t, role == Holder, id);
    case _ => QueuedPlace(w, p.client.id.value, t, id);
  }

  /** A step that only prunes, renews or drops places. */
  lemma StatePlace(w: World, step: Step, id: nat)
    requires Inv(w) && Enabled(w, step) && Waits(w, id) && InQueue(Next(w, step).state.queue, id)
    requires step.Poll? || step.DropByHand? || step.Touch? || step.Leave?
    ensures PlaceOf(Next(w, step).state.queue, id).Some?
    ensures PlaceOf(Next(w, step).state.queue, id).value <= Place(w, id)
  {
    match step
    case Poll(pid) => RenewedPlace(w, Next(w, step).state, w.procs[pid].client.id.value, id);
    case DropByHand(byId, byName) => DroppedPlace(w, byId, byName, id);
    case Touch(_) => PrunedPlace(w.state, w.live, w.now, id);
    case Leave(pid) => LeftPlace(w, w.procs[pid].client, id);
  }

  /** A step that ends or hands over a hold. */
  lemma EndingPlace(w: World, step: Step, id: nat)
    requires Inv(w) && Enabled(w, step) && Waits(w, id) && InQueue(Next(w, step).state.queue, id)
    requires step.ReleaseCheckout? || step.Adopt?
    ensures PlaceOf(Next(w, step).state.queue, id).Some?
    ensures PlaceOf(Next(w, step).state.queue, id).value <= Place(w, id)
  {
    if step.Adopt? {
      PrunedPlace(w.state, w.live + {step.token}, w.now, id);
    } else {
      PrunedPlace(w.state, w.live, w.now, id);
    }
  }

  lemma ReleasedPlace(w: World, pid: nat, summary: string, id: nat)
    requires Inv(w) && Enabled(w, Release(pid, summary)) && Waits(w, id)
    requires InQueue(Next(w, Release(pid, summary)).state.queue, id)
    ensures PlaceOf(Next(w, Release(pid, summary)).state.queue, id).Some?
    ensures PlaceOf(Next(w, Release(pid, summary)).state.queue, id).value <= Place(w, id)
  {
    if w.procs[pid].client.role == Holder {
      PrunedPlace(w.state, w.live, w.now, id);
    } else {
      LeftPlace(w, w.procs[pid].client, id);
    }
  }

  lemma WaitsIsQueued(w: World, id: nat)
    requires Waits(w, id)
    ensures InQueue(w.state.queue, id) && PlaceOf(w.state.queue, id) == Some(Place(w, id))
  {
    FilterQueue((e: Entry) => KeepsPlace(e, w.live, w.now), w.state.queue);
    InQueueByPlace(w.state.queue, id);
  }

  /** A waiting place never moves back, and moves up whenever a hold starts. */
  lemma PlaceStep(w: World, step: Step, id: nat)
    requires Inv(w) && Enabled(w, step) && Waits(w, id) && Waits(Next(w, step), id)
    ensures var w' := Next(w, step);
            && Place(w', id) + |w'.started| <= Place(w, id) + |w.started|
            && |w.started| <= |w'.started|
  {
    hide Inv, PlaceOf;
    WaitsIsQueued(w, id);
    WaitsIsQueued(Next(w, step), id);
    match step
    case LookFor(pid, what, stops) => LookPlace(w, pid, what, stops, id);
    case Tick(_) =>
    case Spawn(_, _) =>
    case Begin(_, _, _) =>
    case Park(_, _) =>
    case SayReady(_) =>
    case Parked(_) =>
    case ParkFailed(_) =>
    case LetGo(_) =>
    case Die(_) =>
    case Poll(_) => StatePlace(w, step, id);
    case DropByHand(_, _) => StatePlace(w, step, id);
    case Touch(_) => StatePlace(w, step, id);
    case Leave(_) => StatePlace(w, step, id);
    case Release(pid, summary) => ReleasedPlace(w, pid, summary, id);
    case _ => EndingPlace(w, step, id);
  }

  lemma DroppedPlace(w: World, byId: Option<nat>, byName: string, id: nat)
    requires Inv(w) && Waits(w, id)
    requires InQueue(DroppedByHand(w.state, w.live, w.now, byId, byName).queue, id)
    ensures var q := DroppedByHand(w.state, w.live, w.now, byId, byName).queue;
            PlaceOf(q, id).Some? && PlaceOf(q, id).value <= Place(w, id)
  {
    var s := Prune(w.state, w.live, w.now);
    var matches := Matches(s.queue, byId, byName);
    PrunedPlace(w.state, w.live, w.now, id);
    if |matches| == 1 {
      FilterMembers((e: Entry) => Some(e.id) == byId || e.owner.name == byName, s.queue);
      assert matches[0] in matches;
      RemovedIsFiltered(s.queue, matches[0]);
      WithoutKeepsPlace(s.queue, matches[0].id, id);
    }
  }

  lemma LeftPlace(w: World, me: Client, id: nat)
    requires Inv(w) && Waits(w, id)
    requires InQueue(Left(w.state, w.live, w.now, me).queue, id)
    ensures PlaceOf(Left(w.state, w.live, w.now, me).queue, id).Some?
    ensures PlaceOf(Left(w.state, w.live, w.now, me).queue, id).value <= Place(w, id)
  {
    InQueueByPlace(w.state.queue, id);
    if (me.role == Queued || me.role == Joined) && me.id.Some? {
      PrunedPlace(w.state, w.live, w.now, id);
      WithoutKeepsPlace(Prune(w.state, w.live, w.now).queue, me.id.value, id);
    }
  }

  /** Bounded bypass: while a place is kept, its number never increases, and the holds started meanwhile (by others: it
      still waits) are at most the places that were ahead of it and no longer are. */
  lemma {:induction false} BoundedBypass(ws: seq<World>, steps: seq<Step>, i: nat, j: nat, id: nat)
    requires Run(ws, steps) && i <= j < |ws|
    requires forall k :: i <= k <= j ==> Waits(ws[k], id)
    ensures Place(ws[j], id) <= Place(ws[i], id)
    ensures |ws[i].started| <= |ws[j].started|
    ensures |ws[j].started| - |ws[i].started| <= Place(ws[i], id) - Place(ws[j], id)
    decreases j - i
  {
    hide Inv, Next, Enabled, Place, Waits, INITIAL;
    if i < j {
      BoundedBypass(ws, steps, i, j - 1, id);
      RunInv(ws, steps, j - 1);
      assert ws[j] == Next(ws[j - 1], steps[j - 1]);
      assert Waits(ws[j - 1], id) && Waits(ws[j], id);
      PlaceStep(ws[j - 1], steps[j - 1], id);
    }
  }

  /** Neither the recorded holder nor any recorded join lives. */
  ghost predicate HoldDead(w: World) {
    w.state.holder.Some? ==>
      && w.state.holder.value.token !in w.live
      && forall j :: j in w.state.holder.value.joined ==> j.token !in w.live
  }

  /** The process has the first place that has not lapsed, or would get it. */
  ghost predicate IsFirst(w: World, pid: nat)
    requires pid in w.procs && w.procs[pid].client.id.Some?
  {
    var q := KeptPlaces(w.state.queue, w.live, w.now);
    var place := PlaceOf(q, w.procs[pid].client.id.value);
    place == Some(0) || (place.None? && q == [])
  }

  /** The recorded hold is another checkout's, whose games must be stopped first. */
  ghost predicate Elsewhere(w: World, pid: nat)
    requires pid in w.procs
  {
    w.state.holder.Some? && w.state.holder.value.owner.worktree != w.procs[pid].owner.worktree
  }

  lemma DeadIff(w: World)
    ensures HoldDead(w) <==>
        var s := Prune(w.state, w.live, w.now); s.holder.None? || !HoldAlive(s.holder.value, w.live)
  {
    if w.state.holder.Some? {
      FilterMembers((j: Join) => j.token in w.live, w.state.holder.value.joined);
    }
  }

  /** The look that comes when the hold is dead and the process first in line takes the duo, unless a stale holder's
      games would not stop; and no other look takes it. */
  lemma TakesIff(ws: seq<World>, steps: seq<Step>, i: nat)
    requires Run(ws, steps) && i < |steps| && steps[i].LookFor?
    ensures steps[i].pid in ws[i].procs && ws[i].procs[steps[i].pid].client.id.Some?
    ensures ws[i + 1].started != ws[i].started
       <==> HoldDead(ws[i]) && IsFirst(ws[i], steps[i].pid) && (Elsewhere(ws[i], steps[i].pid) ==> steps[i].stops)
    ensures ws[i + 1].started != ws[i].started ==>
              && ws[i + 1].started == ws[i].started + [ws[i].procs[steps[i].pid].client.id.value]
              && Ordinary(ws[i + 1], steps[i].pid)
              && ws[i + 1].procs == ws[i].procs[steps[i].pid := ws[i + 1].procs[steps[i].pid]]
  {
    RunInv(ws, steps, i);
    var w, pid := ws[i], steps[i].pid;
    assert ws[i + 1] == Next(w, steps[i]);
    assert ProcOk(w, pid);
    DeadIff(w);
    hide Inv, HoldDead, PlaceOf, Prune;
  }

  /** While someone waits, whoever takes the duo had the first place itself: only joining passes the queue. */
  lemma OnlyTheHeadTakes(ws: seq<World>, steps: seq<Step>, i: nat, id: nat)
    requires Run(ws, steps) && i < |steps| && ws[i + 1].started != ws[i].started && Waits(ws[i], id)
    ensures steps[i].LookFor? && ws[i].procs[steps[i].pid].client.id.Some?
    ensures PlaceOf(KeptPlaces(ws[i].state.queue, ws[i].live, ws[i].now), ws[i].procs[steps[i].pid].client.id.value)
         == Some(0)
  {
    TakesOnlyDead(ws, steps, i);
    TakesIff(ws, steps, i);
    InQueueByPlace(KeptPlaces(ws[i].state.queue, ws[i].live, ws[i].now), id);
  }

  // ----- The holds -----

  /** The holds started are the ended ones, in order, and then the recorded one; and no id was ever used twice. */
  lemma HoldsAccounted(ws: seq<World>, steps: seq<Step>, i: nat)
    requires Run(ws, steps) && i < |ws|
    ensures ws[i].started == Ended(ws[i].state.log) + Current(ws[i].state)
    ensures |ws[i].started| == |Ended(ws[i].state.log)| + if ws[i].state.holder.Some? then 1 else 0
    ensures NoRepeats(ws[i].started)
    ensures UniqueState(ws[i].state)
  {
    RunInv(ws, steps, i);
  }

  lemma LookEndedGrows(w: World, pid: nat, what: string, stops: bool)
    requires Enabled(w, LookFor(pid, what, stops))
    ensures Ended(w.state.log) <= Ended(Next(w, LookFor(pid, what, stops)).state.log)
  {
    var s := Prune(w.state, w.live, w.now);
    var t := Next(w, LookFor(pid, what, stops)).state;
    PruneShrinks(w.state, w.live, w.now);
    if t.log != s.log { EndedAppend(s.log, t.log[|s.log|]); }
  }

  lemma EndedGrows(w: World, step: Step)
    requires Inv(w) && Enabled(w, step)
    ensures Ended(w.state.log) <= Ended(Next(w, step).state.log)
  {
    var s := Prune(w.state, w.live, w.now);
    match step
    case LookFor(pid, what, stops) => LookEndedGrows(w, pid, what, stops);
    case Poll(pid) => PruneShrinks(w.state, w.live, w.now);
    case Touch(pid) => PruneShrinks(w.state, w.live, w.now);
    case DropByHand(byId, byName) => DropShrinks(w.state, w.live, w.now, byId, byName);
    case Leave(pid) => LeaveShrinks(w.state, w.live, w.now, w.procs[pid].client);
    case Release(pid, summary) =>
      LeaveShrinks(w.state, w.live, w.now, w.procs[pid].client);
      PruneShrinks(w.state, w.live, w.now);
      if s.holder.Some? { EndedAppend(s.log, HoldEnded(s.holder.value.id, Released(summary))); }
    case ReleaseCheckout(_, summary) =>
      PruneShrinks(w.state, w.live, w.now);
      if s.holder.Some? { EndedAppend(s.log, HoldEnded(s.holder.value.id, CheckoutFreed(summary))); }
    case Adopt(keeper, token) => PruneShrinks(w.state, w.live + {token}, w.now);
    case _ =>
  }

  /** An ended hold never comes back: its id is never recorded as the hold again. */
  lemma EndedStaysEnded(ws: seq<World>, steps: seq<Step>, i: nat, j: nat, id: nat)
    requires Run(ws, steps) && i <= j < |ws| && id in Ended(ws[i].state.log)
    ensures id in Ended(ws[j].state.log) && !IsHoldId(ws[j].state, id)
  {
    EndedPrefix(ws, steps, i, j);
    assert Accounted(ws[j]) by { RunInv(ws, steps, j); }
    EndedIsNotCurrent(ws[j], id);
  }

  lemma {:induction false} EndedPrefix(ws: seq<World>, steps: seq<Step>, i: nat, j: nat)
    requires Run(ws, steps) && i <= j < |ws|
    ensures Ended(ws[i].state.log) <= Ended(ws[j].state.log)
    decreases j - i
  {
    hide Inv, Next, Enabled, Ended, INITIAL;
    if i < j {
      EndedPrefix(ws, steps, i, j - 1);
      RunInv(ws, steps, j - 1);
      EndedGrows(ws[j - 1], steps[j - 1]);
    }
  }

  lemma EndedIsNotCurrent(w: World, id: nat)
    requires Accounted(w) && id in Ended(w.state.log)
    ensures !IsHoldId(w.state, id)
  {
    var k :| 0 <= k < |Ended(w.state.log)| && Ended(w.state.log)[k] == id;
    assert w.started[k] == id;
    assert w.state.holder.Some? ==> w.started[|w.started| - 1] == w.state.holder.value.id;
  }

  /** A keeper or process whose hold has already ended clears nothing when it releases: the recorded hold, started
      since by someone else, stays (only its dead joins are pruned). */
  lemma LateReleaseClearsNothing(ws: seq<World>, steps: seq<Step>, i: nat, j: nat, pid: nat, summary: string)
    requires Run(ws, steps) && i <= j < |ws|
    requires Enabled(ws[j], Release(pid, summary)) && ws[j].procs[pid].client.id.Some?
    requires ws[j].procs[pid].client.id.value in Ended(ws[i].state.log)
    ensures var next := Next(ws[j], Release(pid, summary));
            && next.started == ws[j].started
            && Ended(next.state.log) == Ended(ws[j].state.log)
            && Current(next.state) == Current(ws[j].state)
  {
    var w := ws[j];
    EndedStaysEnded(ws, steps, i, j, w.procs[pid].client.id.value);
    RunInv(ws, steps, j);
    PruneShrinks(w.state, w.live, w.now);
    LeaveShrinks(w.state, w.live, w.now, w.procs[pid].client);
  }
}
