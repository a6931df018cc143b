/** Who joins a hold: processes of its own checkout, while it lives, and no others. */
module DuoJoins {
  import opened Basics
  import opened DuoProtocol
  import opened DuoQueueFacts
  import opened DuoWorld
  import opened DuoInvariant
  import opened DuoTheorems

  /** A look joins the recorded hold if and only if there is one, its holder or one of its joins lives, and it is of the
      same checkout. The hold stays what it is, used now, with the joins that live and the new one, last. */
  lemma JoinsIff(ws: seq<World>, steps: seq<Step>, i: nat)
    requires Run(ws, steps) && i < |steps| && steps[i].LookFor?
    ensures steps[i].pid in ws[i].procs && steps[i].pid in ws[i + 1].procs
    ensures ws[i + 1].procs[steps[i].pid].client.role == Joined
       <==> ws[i].state.holder.Some? && !HoldDead(ws[i]) && !Elsewhere(ws[i], steps[i].pid)
    ensures ws[i + 1].procs[steps[i].pid].client.role == Joined ==> JoinedTo(ws[i], steps[i], ws[i + 1])
  {
    RunInv(ws, steps, i);
    var w, pid := ws[i], steps[i].pid;
    DeadIff(w);
    if ws[i + 1].procs[pid].client.role == Joined { JoinedMembers(w, pid, steps[i].what, steps[i].stops); }
    hide Inv, HoldDead, PlaceOf, Prune, JoinedTo;
  }

  /** What joining leaves recorded. */
  ghost predicate JoinedTo(w: World, step: Step, w': World)
    requires step.LookFor? && step.pid in w.procs
  {
    var me := w.procs[step.pid].client;
    && me.id.Some? && me.token.Some? && w.state.holder.Some? && w'.state.holder.Some?
    && var hold, joins := w'.state.holder.value, Joins(w'.state);
       && hold == w.state.holder.value.(joined := joins, lastUsed := w.now)
       && |joins| > 0 && joins[|joins| - 1] == Join(me.id.value, step.what, me.token.value)
       && (forall k :: 0 <= k < |joins| - 1 ==> joins[k] in Joins(w.state) && joins[k].token in w.live)
       && (forall j :: j in Joins(w.state) && j.token in w.live ==> j in joins)
       && !InQueue(w'.state.queue, me.id.value) && w'.started == w.started
  }

  lemma JoinedValue(w: World, pid: nat, what: string, stops: bool)
    requires Enabled(w, LookFor(pid, what, stops))
    requires Next(w, LookFor(pid, what, stops)).procs[pid].client.role == Joined
    ensures var me, w' := w.procs[pid].client, Next(w, LookFor(pid, what, stops));
            var q := Prune(w.state, w.live, w.now).queue;
            && w.state.holder.Some? && w'.started == w.started
            && w'.state.queue == WithoutPlace(Renewed(q, PlaceOf(q, me.id.value), w.now), me.id.value)
            && w'.state.holder == Some(w.state.holder.value.(
                 joined := LiveJoins(Joins(w.state), w.live) + [Join(me.id.value, what, me.token.value)],
                 lastUsed := w.now))
  {
    hide LiveJoins, WithoutPlace, KeptPlaces, LapseLines, PlaceOf, Renewed, HoldAlive;
  }

  lemma JoinedMembers(w: World, pid: nat, what: string, stops: bool)
    requires Enabled(w, LookFor(pid, what, stops))
    requires Next(w, LookFor(pid, what, stops)).procs[pid].client.role == Joined
    ensures JoinedTo(w, LookFor(pid, what, stops), Next(w, LookFor(pid, what, stops)))
  {
    hide Prune, PlaceOf, LiveJoins, WithoutPlace, Renewed, Next, InQueue;
    JoinedValue(w, pid, what, stops);
    var me, q := w.procs[pid].client, Prune(w.state, w.live, w.now).queue;
    var kept := LiveJoins(Joins(w.state), w.live);
    KeptJoins(Joins(w.state), w.live);
    WithoutPlaceIds(Renewed(q, PlaceOf(q, me.id.value), w.now), me.id.value);
    var joins := kept + [Join(me.id.value, what, me.token.value)];
    assert Joins(Next(w, LookFor(pid, what, stops)).state) == joins;
    assert forall k :: 0 <= k < |kept| ==> joins[k] == kept[k] && kept[k] in kept;
  }

  lemma KeptJoins(joins: seq<Join>, live: set<nat>)
    ensures forall j :: j in LiveJoins(joins, live) <==> j in joins && j.token in live
  {
    FilterMembers((j: Join) => j.token in live, joins);
  }

  // ----- In every run -----

  /** The process behind a recorded join is of the hold's checkout. */
  ghost predicate OfCheckout(w: World, h: Hold, j: Join) {
    && j.id in w.ids
    && (w.ids[j.id] in w.procs ==> w.procs[w.ids[j.id]].owner.worktree == h.owner.worktree)
  }

  ghost predicate JoinsOk(w: World) {
    && (w.state.holder.Some? ==>
          forall j {:trigger OfCheckout(w, w.state.holder.value, j)} :: j in w.state.holder.value.joined ==>
            OfCheckout(w, w.state.holder.value, j))
    && (forall id :: id in w.ids ==> w.ids[id] in w.pids)
  }

  /** A recorded join was recorded with the same hold before, or is that of the process that looked. */
  ghost predicate ComesFrom(w: World, step: Step, h: Hold, j: Join)
    requires Enabled(w, step)
  {
    || (w.state.holder.Some? && j in w.state.holder.value.joined && h.owner == w.state.holder.value.owner)
    || (step.LookFor? && Some(j.id) == w.procs[step.pid].client.id
        && h.owner.worktree == w.procs[step.pid].owner.worktree)
  }

  lemma LiveJoinsIn(joins: seq<Join>, live: set<nat>, id: nat)
    ensures forall j :: j in LiveJoins(joins, live) ==> j in joins
    ensures forall j :: j in WithoutJoin(LiveJoins(joins, live), id) ==> j in joins
  {
    FilterMembers((j: Join) => j.token in live, joins);
    FilterMembers((j: Join) => j.id != id, LiveJoins(joins, live));
  }

  lemma LookedJoins(w: World, pid: nat, what: string, stops: bool)
    requires Enabled(w, LookFor(pid, what, stops)) && Next(w, LookFor(pid, what, stops)).state.holder.Some?
    ensures var step := LookFor(pid, what, stops);
            var h := Next(w, step).state.holder.value;
            forall j :: j in h.joined ==> ComesFrom(w, step, h, j)
  {
    LiveJoinsIn(Joins(w.state), w.live, 0);
    hide LiveJoins, WithoutPlace, KeptPlaces, LapseLines, PlaceOf, Renewed, HoldAlive;
  }

  lemma OtherJoins(w: World, step: Step)
    requires Enabled(w, step) && !step.LookFor? && Next(w, step).state.holder.Some?
    ensures var h := Next(w, step).state.holder.value; forall j :: j in h.joined ==> ComesFrom(w, step, h, j)
  {
    hide LiveJoins, WithoutJoin, WithoutPlace, KeptPlaces, LapseLines, PlaceOf, Renewed, HoldAlive, Matches, Removed;
    LiveJoinsIn(Joins(w.state), w.live, 0);
    if step.Adopt? { LiveJoinsIn(Joins(w.state), w.live + {step.token}, 0); }
    if (step.Leave? || step.Release?) && w.procs[step.pid].client.id.Some? {
      LiveJoinsIn(Joins(w.state), w.live, w.procs[step.pid].client.id.value);
    }
  }

  /** A process keeps its checkout; and no process is new under a known number. */
  lemma ProcsStay(w: World, step: Step)
    requires Enabled(w, step)
    ensures w.pids <= Next(w, step).pids
    ensures forall p :: p in Next(w, step).procs && p in w.pids ==>
              p in w.procs && Next(w, step).procs[p].owner == w.procs[p].owner
    ensures forall id :: id in w.ids && (step.Begin? ==> step.id != id) ==>
              id in Next(w, step).ids && Next(w, step).ids[id] == w.ids[id]
    ensures forall id :: id in Next(w, step).ids ==> id in w.ids || Next(w, step).ids[id] in w.procs
  {
    hide AcquireLook, PolledPlace, DroppedByHand, Touched, Left, AfterRelease, CheckoutReleased, Adopted;
  }

  lemma NextKeepsJoins(w: World, step: Step)
    requires Inv(w) && Enabled(w, step) && JoinsOk(w)
    ensures JoinsOk(Next(w, step))
  {
    hide Next, OfCheckout;
    var w' := Next(w, step);
    ProcsStay(w, step);
    assert forall p :: p in w.procs ==> p in w.pids by {
      forall p | p in w.procs ensures p in w.pids { assert ProcOk(w, p); }
    }
    if step.LookFor? { assert ProcOk(w, step.pid); }
    if w'.state.holder.Some? {
      var h := w'.state.holder.value;
      JoinsComeFrom(w, step);
      forall j | j in h.joined ensures OfCheckout(w', h, j) {
        assert ComesFrom(w, step, h, j);
        JoinKept(w, step, h, j);
      }
    }
  }

  lemma JoinKept(w: World, step: Step, h: Hold, j: Join)
    requires Inv(w) && Enabled(w, step) && JoinsOk(w) && ComesFrom(w, step, h, j)
    requires forall p :: p in w.procs ==> p in w.pids
    ensures OfCheckout(Next(w, step), h, j)
  {
    if step.LookFor? { assert ProcOk(w, step.pid); }
    hide Inv, Next;
    ProcsStay(w, step);
    if w.state.holder.Some? && j in w.state.holder.value.joined && h.owner == w.state.holder.value.owner {
      assert OfCheckout(w, w.state.holder.value, j);
    }
  }

  lemma JoinsComeFrom(w: World, step: Step)
    requires Enabled(w, step) && Next(w, step).state.holder.Some?
    ensures var h := Next(w, step).state.holder.value; forall j :: j in h.joined ==> ComesFrom(w, step, h, j)
  {
    if step.LookFor? { LookedJoins(w, step.pid, step.what, step.stops); } else { OtherJoins(w, step); }
  }

  lemma {:induction false} RunJoins(ws: seq<World>, steps: seq<Step>, i: nat)
    requires Run(ws, steps) && i < |ws|
    ensures JoinsOk(ws[i])
  {
    hide Inv, Next, Enabled, OfCheckout;
    if i > 0 {
      RunJoins(ws, steps, i - 1);
      RunInv(ws, steps, i - 1);
      NextKeepsJoins(ws[i - 1], steps[i - 1]);
    }
  }

  /** In every run, each recorded join is of the hold's checkout: if the process that made its id lives, whatever its
      role is now, it has the worktree of the recorded hold. */
  lemma JoinsAreOfTheCheckout(ws: seq<World>, steps: seq<Step>, i: nat, j: Join)
    requires Run(ws, steps) && i < |ws| && j in Joins(ws[i].state)
    ensures ws[i].state.holder.Some? && j.id in ws[i].ids
    ensures ws[i].ids[j.id] in ws[i].procs ==>
              ws[i].procs[ws[i].ids[j.id]].owner.worktree == ws[i].state.holder.value.owner.worktree
  {
    RunJoins(ws, steps, i);
    assert OfCheckout(ws[i], ws[i].state.holder.value, j);
  }
}
