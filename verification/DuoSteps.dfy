/** Every step of the lock's transition system keeps the invariant. */
module DuoSteps {
  import opened Basics
  import opened DuoProtocol
  import opened DuoQueueFacts
  import opened DuoWorld
  import opened DuoInvariant

  // ----- Steps that change no hold -----

  lemma SpawnKeepsInv(w: World, pid: nat, owner: Owner)
    requires Inv(w) && Enabled(w, Spawn(pid, owner))
    ensures Inv(Next(w, Spawn(pid, owner)))
  {
    var w' := Next(w, Spawn(pid, owner));
    forall p | p in w'.procs ensures ProcOk(w', p) {
      if p != pid { assert ProcOk(w, p); }
    }
  }

  lemma BeginKeepsInv(w: World, pid: nat, token: nat, id: nat)
    requires Inv(w) && Enabled(w, Begin(pid, token, id))
    ensures Inv(Next(w, Begin(pid, token, id)))
  {
    var w' := Next(w, Begin(pid, token, id));
    assert !Recorded(w.state, id);
    forall p | p in w'.procs ensures ProcOk(w', p) {
      assert ProcOk(w, p);
    }
  }

  lemma StateStepKeepsInv(w: World, step: Step)
    requires Inv(w) && Enabled(w, step)
    requires step.Poll? || step.DropByHand? || step.Touch?
    ensures Inv(Next(w, step))
  {
    match step
    case Poll(pid) =>
      PollShrinks(w.state, w.live, w.now, w.procs[pid].client.id.value);
      ShrinkKeepsInv(w, Next(w, step).state);
    case DropByHand(byId, byName) =>
      DropShrinks(w.state, w.live, w.now, byId, byName);
      ShrinkKeepsInv(w, Next(w, step).state);
    case Touch(pid) =>
      PruneShrinks(w.state, w.live, w.now);
      ShrinkKeepsInv(w, Next(w, step).state);
  }

  /** Entering LettingGo leaves fewer processes acting. */
  lemma LettingGoKeepsInv(w: World, pid: nat)
    requires Inv(w) && pid in w.procs
    ensures Inv(WithProc(w, pid, w.procs[pid].(phase := LettingGo)))
  {
    var w' := WithProc(w, pid, w.procs[pid].(phase := LettingGo));
    forall p | p in w'.procs ensures ProcOk(w', p) {
      assert ProcOk(w, p);
    }
  }

  lemma LetGoKeepsInv(w: World, pid: nat)
    requires Inv(w) && Enabled(w, LetGo(pid))
    ensures Inv(Next(w, LetGo(pid)))
  {
    var w' := Next(w, LetGo(pid));
    forall p | p in w'.procs ensures ProcOk(w', p) {
      assert ProcOk(w, p) && ProcOk(w, pid);
    }
  }

  lemma GoneKeepsInv(w: World, pid: nat)
    requires Inv(w) && pid in w.procs
    ensures Inv(Gone(w, pid))
  {
    var w' := Gone(w, pid);
    forall p | p in w'.procs ensures ProcOk(w', p) {
      assert ProcOk(w, p) && ProcOk(w, pid);
    }
  }

  lemma LeaveKeepsInv(w: World, pid: nat)
    requires Inv(w) && Enabled(w, Leave(pid))
    ensures Inv(Next(w, Leave(pid)))
  {
    LettingGoKeepsInv(w, pid);
    var w1 := WithProc(w, pid, w.procs[pid].(phase := LettingGo));
    LeaveShrinks(w.state, w.live, w.now, w.procs[pid].client);
    ShrinkKeepsInv(w1, Left(w.state, w.live, w.now, w.procs[pid].client));
  }

  lemma ParkKeepsInv(w: World, pid: nat, keeper: nat)
    requires Inv(w) && Enabled(w, Park(pid, keeper))
    ensures Inv(Next(w, Park(pid, keeper)))
  {
    var w' := Next(w, Park(pid, keeper));
    assert ProcOk(w, pid) && keeper != pid;
    forall p | p in w'.procs ensures ProcOk(w', p) {
      if p != keeper { assert ProcOk(w, p); }
    }
  }

  /** A process whose `park` failed is as it was before it, but for a keeper it has killed. */
  lemma ParkFailedKeepsInv(w: World, pid: nat)
    requires Inv(w) && Enabled(w, ParkFailed(pid))
    ensures Inv(Next(w, ParkFailed(pid)))
  {
    var w' := Next(w, ParkFailed(pid));
    forall p | p in w'.procs ensures ProcOk(w', p) {
      assert ProcOk(w, p) && ProcOk(w, pid);
    }
  }

  /** Two processes that are not keepers have different ids. */
  lemma OwnIds(w: World, p: nat, q: nat)
    requires Inv(w) && Acts(w, p) && Acts(w, q) && IdOf(w, p) == IdOf(w, q)
    requires w.procs[p].adopts.None? && w.procs[q].adopts.None?
    ensures p == q
  {
    assert ProcOk(w, p) && ProcOk(w, q);
  }

  // ----- Steps that end or hand over a hold -----

  /** Clearing the recorded hold when no ordinary process holds it. */
  lemma ClearKeepsInv(w: World, t: State, end: End)
    requires Inv(w) && Shrinks(w.state, t) && t.holder.Some?
    requires forall p :: !Ordinary(w, p)
    ensures Inv(w.(state := State(None, t.queue, t.log + [HoldEnded(t.holder.value.id, end)])))
  {
    var t' := State(None, t.queue, t.log + [HoldEnded(t.holder.value.id, end)]);
    var w1, w' := w.(state := t), w.(state := t');
    ShrinkKeepsInv(w, t);
    EndedAppend(t.log, HoldEnded(t.holder.value.id, end));
    forall p | p in w'.procs ensures ProcOk(w', p) {
      assert ProcOk(w1, p) && !Ordinary(w, p);
    }
    forall id | Recorded(t', id) ensures id in w.ids { assert Recorded(t, id); }
    assert Ended(t'.log) + Current(t') == Ended(t.log) + Current(t);
  }

  lemma OrdinaryUnique(w: World, p: nat, q: nat)
    requires Inv(w) && Ordinary(w, p) && Ordinary(w, q)
    ensures p == q
  {
    assert ProcOk(w, p) && ProcOk(w, q);
    OwnIds(w, p, q);
  }

  /** Of the hold that a process takes for its own, no other is the rightful holder. */
  lemma NoOtherHolds(w: World, pid: nat, p: nat)
    requires Inv(w) && Acts(w, pid) && IsHoldId(w.state, IdOf(w, pid)) && Ordinary(w, p)
    ensures p == pid
  {
    assert ProcOk(w, p) && ProcOk(w, pid);
  }

  lemma ReleaseKeepsInv(w: World, pid: nat, summary: string)
    requires Inv(w) && Enabled(w, Release(pid, summary))
    ensures Inv(Next(w, Release(pid, summary)))
  {
    var me := w.procs[pid].client;
    var w1 := WithProc(w, pid, w.procs[pid].(phase := LettingGo));
    LettingGoKeepsInv(w, pid);
    var t := AfterRelease(w.state, w.live, w.now, me, summary);
    if me.role != Holder {
      LeaveShrinks(w.state, w.live, w.now, me);
      ShrinkKeepsInv(w1, t);
    } else {
      var s := Prune(w.state, w.live, w.now);
      PruneShrinks(w.state, w.live, w.now);
      if s.holder.Some? && Some(s.holder.value.id) == me.id {
        forall p ensures !Ordinary(w1, p) {
          if Ordinary(w, p) { NoOtherHolds(w, pid, p); }
          assert Ordinary(w1, p) ==> p != pid && Ordinary(w, p);
        }
        ClearKeepsInv(w1, s, Released(summary));
      } else {
        ShrinkKeepsInv(w1, s);
      }
    }
  }

  lemma OrdinaryKeepsHoldAlive(w: World, p: nat, live: set<nat>, now: int)
    requires Inv(w) && Ordinary(w, p) && w.live <= live
    ensures var s := Prune(w.state, live, now);
            s.holder.Some? && !s.holder.value.keeper && HoldAlive(s.holder.value, live)
  {
    assert ProcOk(w, p);
  }

  lemma ReleaseCheckoutKeepsInv(w: World, owner: Owner, summary: string)
    requires Inv(w) && Enabled(w, ReleaseCheckout(owner, summary))
    ensures Inv(Next(w, ReleaseCheckout(owner, summary)))
  {
    var s := Prune(w.state, w.live, w.now);
    PruneShrinks(w.state, w.live, w.now);
    if CheckoutReleased(w.state, w.live, w.now, owner, summary).1 {
      forall p ensures !Ordinary(w, p) {
        if Ordinary(w, p) { OrdinaryKeepsHoldAlive(w, p, w.live, w.now); assert false; }
      }
      ClearKeepsInv(w, s, CheckoutFreed(summary));
    } else {
      ShrinkKeepsInv(w, s);
    }
  }

  /** After the adoption no process holds the duo rightly: the one that did is the keeper's parent. */
  lemma AdoptedHolds(w: World, keeper: nat, token: nat, p: nat)
    requires Inv(w) && Enabled(w, Adopt(keeper, token))
    requires IsHoldId(w.state, w.procs[keeper].adopts.value.0)
    ensures !Ordinary(Next(w, Adopt(keeper, token)), p)
  {
    if p in w.procs && Ordinary(w, p) { assert ProcOk(w, p); }
  }

  lemma AdoptedFrom(w: World, keeper: nat, token: nat)
    requires Inv(w) && Enabled(w, Adopt(keeper, token))
    requires IsHoldId(w.state, w.procs[keeper].adopts.value.0)
    ensures Shrinks(w.state, Prune(w.state, w.live + {token}, w.now)) && UniqueState(w.state)
    ensures ProcOk(w, keeper) && w.procs[keeper].adopts.value.0 in w.started
  {
    PruneShrinks(w.state, w.live + {token}, w.now);
    assert w.started[|w.started| - 1] == w.procs[keeper].adopts.value.0;
  }

  lemma AdoptedProc(w: World, keeper: nat, token: nat, p: nat)
    requires Inv(w) && Enabled(w, Adopt(keeper, token)) && p in w.procs
    requires IsHoldId(w.state, w.procs[keeper].adopts.value.0)
    ensures var w' := Next(w, Adopt(keeper, token)); p in w'.procs && ProcOk(w', p)
  {
    hide Inv, Prune, Ended, InQueue, InJoins;
    var s := Prune(w.state, w.live + {token}, w.now);
    var w' := Next(w, Adopt(keeper, token));
    AdoptedFrom(w, keeper, token);
    InvParts(w, p);
    assert Joins(w'.state) == Joins(s) && w'.state.queue == s.queue;
    AdoptedHolds(w, keeper, token, p);
  }

  /** The keeper takes over the recorded hold; its parent is still waiting for "ready". */
  lemma AdoptKeepsInv(w: World, keeper: nat, token: nat)
    requires Inv(w) && Enabled(w, Adopt(keeper, token))
    ensures Inv(Next(w, Adopt(keeper, token)))
  {
    var w' := Next(w, Adopt(keeper, token));
    var s := Prune(w.state, w.live + {token}, w.now);
    PruneShrinks(w.state, w.live + {token}, w.now);
    ShrinkKeepsInv(w, s);
    if IsHoldId(w.state, w.procs[keeper].adopts.value.0) {
      forall p | p in w'.procs ensures ProcOk(w', p) { AdoptedProc(w, keeper, token, p); }
      assert Joins(w'.state) == Joins(s);
      assert forall id :: Recorded(w'.state, id) <==> Recorded(s, id);
      assert w.started[|w.started| - 1] == w.procs[keeper].adopts.value.0;
    } else {
      UsedTokenKeepsInv(w.(state := s), keeper, token);
      GoneKeepsInv(w.(state := s, tokens := w.tokens[token := keeper]), keeper);
    }
  }

  lemma UsedTokenKeepsInv(w: World, pid: nat, token: nat)
    requires Inv(w) && token !in w.tokens
    ensures Inv(w.(tokens := w.tokens[token := pid]))
  {
    var w' := w.(tokens := w.tokens[token := pid]);
    forall p | p in w'.procs ensures ProcOk(w', p) { assert ProcOk(w, p); }
  }

  lemma SayReadyKeepsInv(w: World, keeper: nat)
    requires Inv(w) && Enabled(w, SayReady(keeper))
    ensures Inv(Next(w, SayReady(keeper)))
  {
    var w' := Next(w, SayReady(keeper));
    assert ProcOk(w, keeper);
    forall p | p in w'.procs ensures ProcOk(w', p) {
      assert ProcOk(w, p);
    }
  }

  // ----- A look of acquire -----

  /** The state of a look before its outcome: pruned, the place renewed. */
  lemma RenewShrinks(w: World, id: nat)
    ensures var s := Prune(w.state, w.live, w.now);
            Shrinks(w.state, s.(queue := Renewed(s.queue, PlaceOf(s.queue, id), w.now)))
  {
    PollShrinks(w.state, w.live, w.now, id);
  }

  lemma AppendJoin(joins: seq<Join>, j: Join)
    requires UniqueJoins(joins) && !InJoins(joins, j.id)
    ensures UniqueJoins(joins + [j])
    ensures forall id :: InJoins(joins + [j], id) <==> InJoins(joins, id) || id == j.id
  {
    assert forall o :: o in joins + [j] <==> o in joins || o == j;
    assert forall k :: 0 <= k < |joins| ==> joins[k] in joins;
  }

  lemma AppendPlace(q: seq<Entry>, e: Entry)
    requires UniquePlaces(q) && !InQueue(q, e.id)
    ensures UniquePlaces(q + [e])
    ensures forall id :: InQueue(q + [e], id) <==> InQueue(q, id) || id == e.id
  {
    assert forall o :: o in q + [e] <==> o in q || o == e;
    assert forall k :: 0 <= k < |q| ==> q[k] in q;
  }

  /** A process changes its own role; the others' records are theirs. */
  lemma LookKeepsProcs(w: World, pid: nat, t: State, role: Role, started: seq<nat>)
    requires Inv(w) && pid in w.procs && Acts(w, pid) && w.procs[pid].adopts.None? && !w.procs[pid].phase.Parking?
    requires forall p :: p in w.procs && p != pid && Acts(w, p) ==>
               && (InQueue(t.queue, IdOf(w, p)) ==> InQueue(w.state.queue, IdOf(w, p)))
               && (InJoins(Joins(t), IdOf(w, p)) ==> InJoins(Joins(w.state), IdOf(w, p)))
               && (IsHoldId(t, IdOf(w, p)) ==> IsHoldId(w.state, IdOf(w, p)))
    requires forall id :: id in started ==> id in w.started || id == IdOf(w, pid)
    requires forall p :: p != pid && Ordinary(w, p) ==> HoldIs(t, w.procs[p].client)
    requires role != Queued ==> !InQueue(t.queue, IdOf(w, pid))
    requires role != Joined ==> !InJoins(Joins(t), IdOf(w, pid))
    requires role != Holder ==> IdOf(w, pid) !in started && !IsHoldId(t, IdOf(w, pid))
    requires role == Holder ==> HoldIs(t, w.procs[pid].client)
    ensures var w' := WithProc(w, pid, w.procs[pid].(client := w.procs[pid].client.(role := role)))
                      .(state := t, started := started);
            forall p :: p in w'.procs ==> ProcOk(w', p)
  {
    var w' := WithProc(w, pid, w.procs[pid].(client := w.procs[pid].client.(role := role)))
              .(state := t, started := started);
    forall p | p in w'.procs ensures ProcOk(w', p) {
      assert ProcOk(w, p) && ProcOk(w, pid);
    }
  }

  /** What LookKeepsProcs asks of the other processes, from how the look changed the recorded ids. */
  lemma LookOthers(w: World, pid: nat, t: State)
    requires Inv(w) && Acts(w, pid) && w.procs[pid].adopts.None? && w.procs[pid].client.role != Holder
    requires forall id :: InQueue(t.queue, id) ==> InQueue(w.state.queue, id) || id == IdOf(w, pid)
    requires forall id :: InJoins(Joins(t), id) ==> InJoins(Joins(w.state), id) || id == IdOf(w, pid)
    requires forall id :: IsHoldId(t, id) ==> IsHoldId(w.state, id) || id == IdOf(w, pid)
    ensures forall p :: p in w.procs && p != pid && Acts(w, p) ==>
              && (InQueue(t.queue, IdOf(w, p)) ==> InQueue(w.state.queue, IdOf(w, p)))
              && (InJoins(Joins(t), IdOf(w, p)) ==> InJoins(Joins(w.state), IdOf(w, p)))
              && (IsHoldId(t, IdOf(w, p)) ==> IsHoldId(w.state, IdOf(w, p)))
  {
    forall p | p in w.procs && p != pid && Acts(w, p) ensures IdOf(w, p) != IdOf(w, pid) {
      assert ProcOk(w, p) && ProcOk(w, pid);
    }
  }

  /** The recorded state t after a look of the process with this id that takes nothing: nothing is new in it but the id,
      in the queue or among the joins, and the hold is the same. */
  ghost predicate LooksOnly(s: State, t: State, id: nat) {
    && (forall o :: InQueue(t.queue, o) ==> InQueue(s.queue, o) || o == id)
    && (forall o :: InJoins(Joins(t), o) ==> InJoins(Joins(s), o) || o == id)
    && UniqueState(t)
    && !IsHoldId(t, id)
    && (s.holder.Some? <==> t.holder.Some?)
    && (s.holder.Some? ==>
          && t.holder.value.id == s.holder.value.id
          && t.holder.value.token == s.holder.value.token
          && t.holder.value.keeper == s.holder.value.keeper)
    && Ended(t.log) == Ended(s.log)
  }

  lemma ShrunkLooks(s0: State, s: State, id: nat)
    requires Shrinks(s0, s) && UniqueState(s0) && !IsHoldId(s0, id)
    ensures LooksOnly(s0, s, id)
  {
    hide Ended;
  }

  lemma PlacedLooks(s0: State, s: State, e: Entry)
    requires Shrinks(s0, s) && UniqueState(s0)
    requires !IsHoldId(s0, e.id) && !InJoins(Joins(s0), e.id) && !InQueue(s.queue, e.id)
    ensures LooksOnly(s0, s.(queue := s.queue + [e]), e.id)
  {
    AppendPlace(s.queue, e);
    hide Ended, InQueue, InJoins, UniquePlaces, UniqueJoins;
  }

  lemma JoinedLooks(s0: State, s: State, j: Join, t: State)
    requires Shrinks(s0, s) && UniqueState(s0) && s.holder.Some? && t.holder.Some?
    requires !IsHoldId(s0, j.id) && !InJoins(Joins(s0), j.id)
    requires exists used :: t.holder == Some(s.holder.value.(joined := s.holder.value.joined + [j], lastUsed := used))
    requires t.queue == WithoutPlace(s.queue, j.id) && t.log == s.log
    ensures LooksOnly(s0, t, j.id) && !InQueue(t.queue, j.id)
  {
    AppendJoin(s.holder.value.joined, j);
    WithoutPlaceIds(s.queue, j.id);
    hide Ended, InQueue, InJoins, UniquePlaces, UniqueJoins, WithoutPlace;
  }

  /** What joining does to the recorded state. */
  lemma JoinedState(w: World, pid: nat, what: string, stops: bool)
    requires Inv(w) && Enabled(w, LookFor(pid, what, stops))
    requires AcquireLook(w.state, w.live, w.now, w.procs[pid].client, w.procs[pid].owner, what, stops).2 == Got(Joined)
    ensures var t := AcquireLook(w.state, w.live, w.now, w.procs[pid].client, w.procs[pid].owner, what, stops).0;
            LooksOnly(w.state, t, w.procs[pid].client.id.value) && !InQueue(t.queue, w.procs[pid].client.id.value)
  {
    hide Inv, Prune, Shrinks, LooksOnly, InQueue, InJoins, UniqueState, WithoutPlace, PlaceOf, HoldAlive;
    var p := w.procs[pid];
    var id := p.client.id.value;
    InvParts(w, pid);
    RenewShrinks(w, id);
    var s := Prune(w.state, w.live, w.now);
    JoinedLooks(w.state, s.(queue := Renewed(s.queue, PlaceOf(s.queue, id), w.now)),
                Join(id, what, p.client.token.value),
                AcquireLook(w.state, w.live, w.now, p.client, p.owner, what, stops).0);
  }

  lemma InvParts(w: World, pid: nat)
    requires Inv(w) && pid in w.procs
    ensures ProcOk(w, pid) && UniqueState(w.state)
  {
  }

  lemma LookedKeepsInv(w: World, pid: nat, t: State, role: Role)
    requires Inv(w) && Acts(w, pid) && w.procs[pid].adopts.None? && w.procs[pid].phase == Free
    requires role == Queued || role == Joined
    requires w.procs[pid].client.role != Holder && LooksOnly(w.state, t, IdOf(w, pid))
    requires role == Joined ==> !InQueue(t.queue, IdOf(w, pid))
    requires role == Queued ==> !InJoins(Joins(t), IdOf(w, pid))
    ensures Inv(WithProc(w, pid, w.procs[pid].(client := w.procs[pid].client.(role := role))).(state := t))
  {
    var id := IdOf(w, pid);
    assert ProcOk(w, pid);
    LookOthers(w, pid, t);
    forall o | o != pid && Ordinary(w, o) ensures HoldIs(t, w.procs[o].client) { assert ProcOk(w, o); }
    LookKeepsProcs(w, pid, t, role, w.started);
    forall o | Recorded(t, o) ensures o in w.ids {
      if o != id { assert Recorded(w.state, o); }
    }
  }

  lemma JoinKeepsInv(w: World, pid: nat, what: string, stops: bool)
    requires Inv(w) && Enabled(w, LookFor(pid, what, stops))
    requires AcquireLook(w.state, w.live, w.now, w.procs[pid].client, w.procs[pid].owner, what, stops).2 == Got(Joined)
    ensures Inv(Next(w, LookFor(pid, what, stops)))
  {
    var p := w.procs[pid];
    var t := AcquireLook(w.state, w.live, w.now, p.client, p.owner, what, stops).0;
    assert p.adopts.None? by { assert ProcOk(w, pid); }
    JoinedState(w, pid, what, stops);
    LookedKeepsInv(w, pid, t, Joined);
    hide Inv, LooksOnly;
    assert Next(w, LookFor(pid, what, stops)) == WithProc(w, pid, p.(client := p.client.(role := Joined))).(state := t);
  }

  /** The duo is only taken when no ordinary process holds it. */
  lemma TakenOnlyFree(w: World, pid: nat, what: string, stops: bool)
    requires Inv(w) && Enabled(w, LookFor(pid, what, stops))
    requires AcquireLook(w.state, w.live, w.now, w.procs[pid].client, w.procs[pid].owner, what, stops).2 == Got(Holder)
    ensures forall o :: !Ordinary(w, o)
  {
    forall o ensures !Ordinary(w, o) {
      if Ordinary(w, o) { OrdinaryKeepsHoldAlive(w, o, w.live, w.now); assert false; }
    }
  }

  /** What taking the duo does to the recorded state. */
  lemma TakenState(w: World, pid: nat, what: string, stops: bool)
    requires Inv(w) && Enabled(w, LookFor(pid, what, stops))
    requires AcquireLook(w.state, w.live, w.now, w.procs[pid].client, w.procs[pid].owner, what, stops).2 == Got(Holder)
    ensures var t := AcquireLook(w.state, w.live, w.now, w.procs[pid].client, w.procs[pid].owner, what, stops).0;
            var id := w.procs[pid].client.id.value;
            && HoldIs(t, w.procs[pid].client) && Joins(t) == [] && Current(t) == [id]
            && UniquePlaces(t.queue) && !InQueue(t.queue, id)
            && (forall o :: InQueue(t.queue, o) ==> InQueue(w.state.queue, o))
            && Ended(t.log) == w.started
  {
    var p := w.procs[pid];
    var id := p.client.id.value;
    var s := Prune(w.state, w.live, w.now);
    PruneShrinks(w.state, w.live, w.now);
    RenewShrinks(w, id);
    WithoutPlaceIds(Renewed(s.queue, PlaceOf(s.queue, id), w.now), id);
    var t := AcquireLook(w.state, w.live, w.now, p.client, p.owner, what, stops).0;
    if s.holder.Some? { EndedAppend(s.log, t.log[|s.log|]); }
    assert Ended(t.log) == Ended(s.log) + Current(s);
  }

  lemma TakeKeepsInv(w: World, pid: nat, what: string, stops: bool)
    requires Inv(w) && Enabled(w, LookFor(pid, what, stops))
    requires AcquireLook(w.state, w.live, w.now, w.procs[pid].client, w.procs[pid].owner, what, stops).2 == Got(Holder)
    ensures Inv(Next(w, LookFor(pid, what, stops)))
  {
    var p := w.procs[pid];
    var id := p.client.id.value;
    assert ProcOk(w, pid) && p.adopts.None?;
    var t := AcquireLook(w.state, w.live, w.now, p.client, p.owner, what, stops).0;
    TakenOnlyFree(w, pid, what, stops);
    TakenState(w, pid, what, stops);
    TakenBy(w, pid, t);
    assert Next(w, LookFor(pid, what, stops))
        == WithProc(w, pid, p.(client := p.client.(role := Holder))).(state := t, started := w.started + [id]);
  }

  lemma TakenBy(w: World, pid: nat, t: State)
    requires Inv(w) && Acts(w, pid) && w.procs[pid].adopts.None? && w.procs[pid].phase == Free
    requires w.procs[pid].client.role != Holder
    requires forall o :: !Ordinary(w, o)
    requires HoldIs(t, w.procs[pid].client) && Joins(t) == [] && Current(t) == [IdOf(w, pid)]
    requires UniquePlaces(t.queue) && !InQueue(t.queue, IdOf(w, pid))
    requires forall o :: InQueue(t.queue, o) ==> InQueue(w.state.queue, o)
    requires Ended(t.log) == w.started
    ensures Inv(WithProc(w, pid, w.procs[pid].(client := w.procs[pid].client.(role := Holder)))
                .(state := t, started := w.started + [IdOf(w, pid)]))
  {
    var id := IdOf(w, pid);
    assert ProcOk(w, pid);
    LookOthers(w, pid, t);
    LookKeepsProcs(w, pid, t, Holder, w.started + [id]);
    forall o | Recorded(t, o) ensures o in w.ids {
      if o != id { assert Recorded(w.state, o); }
    }
  }

  /** What queueing, or keeping a place, does to the recorded state. */
  lemma QueuedState(w: World, pid: nat, what: string, stops: bool)
    requires Inv(w) && Enabled(w, LookFor(pid, what, stops))
    requires !AcquireLook(w.state, w.live, w.now, w.procs[pid].client, w.procs[pid].owner, what, stops).2.Got?
    ensures var t := AcquireLook(w.state, w.live, w.now, w.procs[pid].client, w.procs[pid].owner, what, stops).0;
            LooksOnly(w.state, t, w.procs[pid].client.id.value) && !InJoins(Joins(t), w.procs[pid].client.id.value)
  {
    hide Inv, Prune, LooksOnly, InQueue, InJoins, UniqueState, UniquePlaces, UniqueJoins, PlaceOf, HoldAlive, Ended;
    var p := w.procs[pid];
    var id := p.client.id.value;
    InvParts(w, pid);
    RenewShrinks(w, id);
    var s := Prune(w.state, w.live, w.now);
    var place := PlaceOf(s.queue, id);
    var s1 := s.(queue := Renewed(s.queue, place, w.now));
    if place.None? {
      InQueueByPlace(s.queue, id);
      PlacedLooks(w.state, s1, Entry(id, p.owner, w.now, w.now, what, p.client.token.value));
    } else {
      ShrunkLooks(w.state, s1, id);
    }
  }

  lemma QueueKeepsInv(w: World, pid: nat, what: string, stops: bool)
    requires Inv(w) && Enabled(w, LookFor(pid, what, stops))
    requires !AcquireLook(w.state, w.live, w.now, w.procs[pid].client, w.procs[pid].owner, what, stops).2.Got?
    ensures Inv(Next(w, LookFor(pid, what, stops)))
  {
    var p := w.procs[pid];
    var t := AcquireLook(w.state, w.live, w.now, p.client, p.owner, what, stops).0;
    assert p.adopts.None? by { assert ProcOk(w, pid); }
    QueuedState(w, pid, what, stops);
    LookedKeepsInv(w, pid, t, Queued);
    hide Inv, LooksOnly;
    assert Next(w, LookFor(pid, what, stops)) == WithProc(w, pid, p.(client := p.client.(role := Queued))).(state := t);
  }

  lemma LookKeepsInv(w: World, pid: nat, what: string, stops: bool)
    requires Inv(w) && Enabled(w, LookFor(pid, what, stops))
    ensures Inv(Next(w, LookFor(pid, what, stops)))
  {
    match AcquireLook(w.state, w.live, w.now, w.procs[pid].client, w.procs[pid].owner, what, stops).2
    case Got(Joined) => JoinKeepsInv(w, pid, what, stops);
    case Got(_) => TakeKeepsInv(w, pid, what, stops);
    case _ => QueueKeepsInv(w, pid, what, stops);
  }

  // ----- Every step -----

  lemma NextKeepsInv(w: World, step: Step)
    requires Inv(w) && Enabled(w, step)
    ensures Inv(Next(w, step))
  {
    match step
    case Tick(elapsed) =>
      var w' := Next(w, step);
      forall p | p in w'.procs ensures ProcOk(w', p) { assert ProcOk(w, p); }
    case Spawn(pid, owner) => SpawnKeepsInv(w, pid, owner);
    case Begin(pid, token, id) => BeginKeepsInv(w, pid, token, id);
    case LookFor(pid, what, stops) => LookKeepsInv(w, pid, what, stops);
    case Leave(pid) => LeaveKeepsInv(w, pid);
    case Release(pid, summary) => ReleaseKeepsInv(w, pid, summary);
    case ReleaseCheckout(owner, summary) => ReleaseCheckoutKeepsInv(w, owner, summary);
    case Park(pid, keeper) => ParkKeepsInv(w, pid, keeper);
    case Adopt(keeper, token) => AdoptKeepsInv(w, keeper, token);
    case SayReady(keeper) => SayReadyKeepsInv(w, keeper);
    case Parked(pid) => LettingGoKeepsInv(w, pid);
    case ParkFailed(pid) => ParkFailedKeepsInv(w, pid);
    case LetGo(pid) => LetGoKeepsInv(w, pid);
    case Die(pid) => GoneKeepsInv(w, pid);
    case _ => StateStepKeepsInv(w, step);
  }
}
