/** `park`: which holds are handed over, and exactly when a process is left with a hold that is not its own. */
module DuoHandOver {
  import opened Basics
  import opened DuoProtocol
  import opened DuoWorld
  import opened DuoInvariant
  import opened DuoTheorems

  // ----- Exactly when a process's hold is the recorded one -----

  /** A keeper adopts this hold. */
  ghost predicate Adopts(w: World, step: Step, id: nat) {
    step.Adopt? && step.keeper in w.procs && IsHoldId(w.state, id)
    && w.procs[step.keeper].adopts.Some? && w.procs[step.keeper].adopts.value.0 == id
  }

  /** `park` of this hold, with this keeper, returns False. */
  ghost predicate Fails(w: World, step: Step, p: nat, id: nat, keeper: nat) {
    step == ParkFailed(p) && p in w.procs && w.procs[p].client.id == Some(id) && w.procs[p].phase == Parking(keeper)
  }

  /** A `park` of p has failed although the keeper it had started has adopted the hold, before it failed or in the
      moment that the keeper, killed then, still had. */
  ghost predicate FailedLate(ws: seq<World>, steps: seq<Step>, i: nat, p: nat, id: nat)
    requires Run(ws, steps) && i < |ws|
  {
    exists a, b :: 0 <= a < i && 0 <= b < i && Adopts(ws[a], steps[a], id)
        && Fails(ws[b], steps[b], p, id, steps[a].keeper)
  }

  lemma HandedStep(w: World, step: Step, id: nat)
    requires Enabled(w, step)
    ensures id in Next(w, step).handed <==> id in w.handed || Adopts(w, step, id)
  {
  }

  lemma {:induction false} HandedIff(ws: seq<World>, steps: seq<Step>, i: nat, id: nat)
    requires Run(ws, steps) && i < |ws|
    ensures id in ws[i].handed <==> exists a :: 0 <= a < i && Adopts(ws[a], steps[a], id)
  {
    hide Next, Enabled, Adopts, INITIAL;
    if i == 0 {
      assert ws[0].handed == {} by { assert ws[0] == INITIAL; InitialHanded(); }
    } else {
      HandedIff(ws, steps, i - 1, id);
      HandedStep(ws[i - 1], steps[i - 1], id);
    }
  }

  lemma InitialHanded()
    ensures INITIAL.handed == {} && INITIAL.killed == {}
  {
  }

  /** In every run a process's hold is the recorded one exactly if no keeper has adopted it. */
  lemma RecordedIffNotHandedOver(ws: seq<World>, steps: seq<Step>, i: nat, p: nat)
    requires Run(ws, steps) && i < |ws| && Holds(ws[i], p)
    ensures HoldIs(ws[i].state, ws[i].procs[p].client)
       <==> !exists a :: 0 <= a < i && Adopts(ws[a], steps[a], IdOf(ws[i], p))
  {
    RunInv(ws, steps, i);
    assert ProcOk(ws[i], p);
    HandedIff(ws, steps, i, IdOf(ws[i], p));
  }

  lemma KilledStep(w: World, step: Step, kill: Kill)
    requires Enabled(w, step) && kill.hold.Some?
    ensures kill in Next(w, step).killed
       <==> kill in w.killed || Fails(w, step, kill.parent, kill.hold.value, kill.keeper)
  {
  }

  lemma {:induction false} KilledFailed(ws: seq<World>, steps: seq<Step>, i: nat, p: nat, id: nat, keeper: nat)
    requires Run(ws, steps) && i < |ws| && Kill(keeper, Some(id), p) in ws[i].killed
    ensures exists b :: 0 <= b < i && Fails(ws[b], steps[b], p, id, keeper)
  {
    hide Next, Enabled, Fails, INITIAL;
    if i == 0 {
      InitialHanded();
      assert false;
    } else {
      KilledStep(ws[i - 1], steps[i - 1], Kill(keeper, Some(id), p));
      if Kill(keeper, Some(id), p) in ws[i - 1].killed { KilledFailed(ws, steps, i - 1, p, id, keeper); }
    }
  }

  /** A look changes no process but the one that looks, and only its role. */
  lemma LookedStep(w: World, pid: nat, what: string, stops: bool)
    requires Inv(w) && Enabled(w, LookFor(pid, what, stops))
    ensures var w' := Next(w, LookFor(pid, what, stops));
            w'.ids == w.ids && w'.killed == w.killed
            && w'.procs == w.procs[pid := w.procs[pid].(client := w'.procs[pid].client)]
            && w'.procs[pid].client.id == w.procs[pid].client.id
  {
    hide Inv, Prune, PlaceOf, HoldAlive;
  }

  /** A process that is no keeper and acts under an id used before has acted under it before; it leaves `park` with it
      only by killing its keeper. */
  lemma ActedStep(w: World, step: Step, p: nat, keeper: nat)
    requires Inv(w) && Enabled(w, step)
    requires Acts(Next(w, step), p) && Next(w, step).procs[p].adopts.None? && IdOf(Next(w, step), p) in w.ids
    ensures Acts(w, p) && w.procs[p].adopts.None? && IdOf(w, p) == IdOf(Next(w, step), p)
    ensures w.ids.Keys <= Next(w, step).ids.Keys
    ensures Waited(w, p, keeper) ==> Waited(Next(w, step), p, keeper)
  {
    hide PolledPlace, DroppedByHand, Touched, Left, AfterRelease, CheckoutReleased, Adopted, AcquireLook, Inv;
    if step.LookFor? {
      LookedStep(w, step.pid, step.what, step.stops);
    }
  }

  /** It waits for this keeper's "ready", or has killed it. */
  ghost predicate Waited(w: World, p: nat, keeper: nat) {
    Acts(w, p) && (w.procs[p].phase == Parking(keeper) || Kill(keeper, Some(IdOf(w, p)), p) in w.killed)
  }

  lemma {:induction false} ActedBefore(ws: seq<World>, steps: seq<Step>, a: nat, i: nat, p: nat, keeper: nat)
    requires Run(ws, steps) && a <= i < |ws|
    requires Acts(ws[i], p) && ws[i].procs[p].adopts.None? && IdOf(ws[i], p) in ws[a].ids
    ensures Acts(ws[a], p) && ws[a].procs[p].adopts.None? && IdOf(ws[a], p) == IdOf(ws[i], p)
    ensures ws[a].ids.Keys <= ws[i].ids.Keys
    ensures Waited(ws[a], p, keeper) ==> Waited(ws[i], p, keeper)
    decreases i
  {
    hide Inv, Next, Enabled, INITIAL, Acts, IdOf, Waited;
    if a < i {
      RunInv(ws, steps, i - 1);
      IdsGrow(ws, steps, a, i - 1);
      ActedStep(ws[i - 1], steps[i - 1], p, keeper);
      ActedBefore(ws, steps, a, i - 1, p, keeper);
    }
  }

  lemma {:induction false} IdsGrow(ws: seq<World>, steps: seq<Step>, a: nat, i: nat)
    requires Run(ws, steps) && a <= i < |ws|
    ensures ws[a].ids.Keys <= ws[i].ids.Keys
    decreases i
  {
    if a < i { IdsGrow(ws, steps, a, i - 1); }
  }

  /** A keeper that adopts a hold was started by the process that has it, which waits for it or has killed it. */
  lemma AdoptsFromParent(w: World, step: Step, p: nat)
    requires Inv(w) && Enabled(w, step) && Acts(w, p) && w.procs[p].adopts.None? && Adopts(w, step, IdOf(w, p))
    ensures Waited(w, p, step.keeper)
  {
    assert ProcOk(w, p) && ProcOk(w, step.keeper);
  }

  /** A process between calls whose hold was handed over has had a `park` fail late. */
  lemma HandedOverLate(ws: seq<World>, steps: seq<Step>, i: nat, p: nat)
    requires Run(ws, steps) && i < |ws|
    requires Holds(ws[i], p) && !Ordinary(ws[i], p) && ws[i].procs[p].phase == Free
    ensures FailedLate(ws, steps, i, p, IdOf(ws[i], p))
  {
    hide Inv, Next, Enabled, Fails, INITIAL;
    var id := IdOf(ws[i], p);
    HandedIff(ws, steps, i, id);
    var a :| 0 <= a < i && Adopts(ws[a], steps[a], id);
    RunInv(ws, steps, a);
    IdKnown(ws[a], id);
    ActedBefore(ws, steps, a, i, p, steps[a].keeper);
    AdoptsFromParent(ws[a], steps[a], p);
    KilledFailed(ws, steps, i, p, id, steps[a].keeper);
  }

  lemma IdKnown(w: World, id: nat)
    requires Inv(w) && IsHoldId(w.state, id)
    ensures id in w.ids
  {
    assert Recorded(w.state, id);
  }

  /** In every run, of every process that is between calls and says it holds the duo: the recorded hold is its own if
      and only if no `park` of it failed whose keeper has adopted the hold. */
  lemma RecordedIffNoLateFailure(ws: seq<World>, steps: seq<Step>, i: nat, p: nat)
    requires Run(ws, steps) && i < |ws| && Holds(ws[i], p) && ws[i].procs[p].phase == Free
    ensures HoldIs(ws[i].state, ws[i].procs[p].client) <==> !FailedLate(ws, steps, i, p, IdOf(ws[i], p))
  {
    RunInv(ws, steps, i);
    assert ProcOk(ws[i], p);
    HandedIff(ws, steps, i, IdOf(ws[i], p));
    if !Ordinary(ws[i], p) { HandedOverLate(ws, steps, i, p); }
  }

  /** Exclusion, for every process between calls: of two that say they hold the duo, one's `park` failed late. */
  lemma TwoHoldersOneLate(ws: seq<World>, steps: seq<Step>, i: nat, p: nat, q: nat)
    requires Run(ws, steps) && i < |ws| && p != q
    requires Holds(ws[i], p) && ws[i].procs[p].phase == Free && Holds(ws[i], q) && ws[i].procs[q].phase == Free
    ensures FailedLate(ws, steps, i, p, IdOf(ws[i], p)) || FailedLate(ws, steps, i, q, IdOf(ws[i], q))
  {
    if Ordinary(ws[i], p) && Ordinary(ws[i], q) {
      OneHolder(ws, steps, i, p, q);
    } else if Ordinary(ws[i], p) {
      HandedOverLate(ws, steps, i, q);
    } else {
      HandedOverLate(ws, steps, i, p);
    }
  }

  // ----- Whose token is live -----

  /** A live token is that of the process that made it, which lives; the recorded hold's, once a keeper's, is that of a
      keeper started for this hold. */
  ghost predicate TokensOwned(w: World) {
    LiveOwned(w) && (w.state.holder.Some? ==> HoldOwned(w, w.state.holder.value))
  }

  ghost predicate HoldOwned(w: World, h: Hold) {
    && h.token in w.tokens
    && (h.keeper && w.tokens[h.token] in w.procs ==>
          w.procs[w.tokens[h.token]].adopts.Some? && w.procs[w.tokens[h.token]].adopts.value.0 == h.id)
  }

  ghost predicate SameHold(h: Hold, g: Hold) {
    g.id == h.id && g.token == h.token && g.keeper == h.keeper
  }

  /** A look keeps the recorded hold or makes it the looker's own. */
  lemma LookedHold(s: State, live: set<nat>, now: int, me: Client, owner: Owner, what: string, stops: bool)
    requires me.token.Some? && me.id.Some?
    ensures var h := AcquireLook(s, live, now, me, owner, what, stops).0.holder;
            h.Some? ==> ((s.holder.Some? && SameHold(s.holder.value, h.value))
                         || (h.value.token == me.token.value && !h.value.keeper))
  {
  }

  /** Every step but a look or an adoption keeps the recorded hold or ends it. */
  lemma HoldAfter(w: World, step: Step)
    requires Enabled(w, step) && !step.LookFor? && !step.Adopt? && Next(w, step).state.holder.Some?
    ensures w.state.holder.Some? && SameHold(w.state.holder.value, Next(w, step).state.holder.value)
  {
  }

  lemma AdoptedHold(w: World, keeper: nat, token: nat)
    requires Inv(w) && TokensOwned(w) && Enabled(w, Adopt(keeper, token)) && w.state.holder.Some?
    ensures var w' := Next(w, Adopt(keeper, token)); w'.state.holder.Some? && HoldOwned(w', w'.state.holder.value)
  {
    assert ProcOk(w, keeper);
    hide Inv;
  }

  lemma NextKeepsHoldOwned(w: World, step: Step)
    requires Inv(w) && TokensOwned(w) && Enabled(w, step) && Next(w, step).state.holder.Some?
    ensures HoldOwned(Next(w, step), Next(w, step).state.holder.value)
  {
    match step
    case LookFor(pid, what, stops) =>
      var p := w.procs[pid];
      assert ProcOk(w, pid);
      LookedHold(w.state, w.live, w.now, p.client, p.owner, what, stops);
      hide Inv, AcquireLook;
    case Adopt(keeper, token) => AdoptedHold(w, keeper, token);
    case _ => SameHoldOwned(w, step);
  }

  lemma SameHoldOwned(w: World, step: Step)
    requires Inv(w) && TokensOwned(w) && Enabled(w, step) && !step.LookFor? && !step.Adopt?
    requires Next(w, step).state.holder.Some?
    ensures HoldOwned(Next(w, step), Next(w, step).state.holder.value)
  {
    HoldAfter(w, step);
    hide Inv, PolledPlace, DroppedByHand, Touched, Left, AfterRelease, CheckoutReleased;
  }

  /** A live token is that of the process that made it, and every token's process is known. */
  ghost predicate LiveOwned(w: World) {
    && (forall t :: t in w.tokens ==> w.tokens[t] in w.pids)
    && (forall t :: t in w.live ==>
        t in w.tokens && w.tokens[t] in w.procs && w.procs[w.tokens[t]].client.token == Some(t))
  }

  lemma ProcsShaped(w: World)
    requires Inv(w)
    ensures forall p {:trigger ProcShape(w, p)} :: p in w.procs ==> ProcShape(w, p)
  {
    forall p | p in w.procs ensures ProcShape(w, p) { assert ProcOk(w, p); }
  }

  lemma GoneKeepsLiveOwned(w: World, pid: nat)
    requires LiveOwned(w) && pid in w.procs
    ensures LiveOwned(Gone(w, pid))
  {
  }

  lemma AdoptKeepsLiveOwned(w: World, keeper: nat, token: nat)
    requires Inv(w) && LiveOwned(w) && Enabled(w, Adopt(keeper, token))
    ensures LiveOwned(Next(w, Adopt(keeper, token)))
  {
    assert ProcShape(w, keeper) by { ProcsShaped(w); }
    hide Inv, Adopted;
    GoneKeepsLiveOwned(w.(tokens := w.tokens[token := keeper]), keeper);
  }

  /** The steps that leave every process's token alone. */
  predicate KeepsTokens(step: Step) {
    !step.Begin? && !step.Adopt? && !step.LetGo? && !step.Die? && !step.Spawn? && !step.Park?
  }

  lemma TokensKept(w: World, step: Step)
    requires LiveOwned(w) && Enabled(w, step) && KeepsTokens(step)
    ensures LiveOwned(Next(w, step))
  {
    hide PolledPlace, DroppedByHand, Touched, Left, AfterRelease, CheckoutReleased, LiveOwned, Prune;
    var w' := Next(w, step);
    assert w'.live == w.live && w'.tokens == w.tokens && w'.pids == w.pids && w'.procs.Keys == w.procs.Keys;
    assert forall p :: p in w.procs ==> w'.procs[p].client.token == w.procs[p].client.token;
    LiveStays(w, w');
  }

  lemma LiveStays(w: World, w': World)
    requires LiveOwned(w)
    requires w'.live == w.live && w'.tokens == w.tokens && w'.pids == w.pids && w'.procs.Keys == w.procs.Keys
    requires forall p :: p in w.procs ==> w'.procs[p].client.token == w.procs[p].client.token
    ensures LiveOwned(w')
  {
  }

  lemma NextKeepsLiveOwned(w: World, step: Step)
    requires Inv(w) && LiveOwned(w) && Enabled(w, step)
    ensures LiveOwned(Next(w, step))
  {
    if KeepsTokens(step) {
      TokensKept(w, step);
    } else {
      ProcsShaped(w);
      hide Inv;
      match step
      case Spawn(_, _) =>
      case LetGo(_) =>
      case Die(pid) => GoneKeepsLiveOwned(w, pid);
      case Begin(pid, _, _) => assert ProcShape(w, pid);
      case Park(pid, _) => assert ProcShape(w, pid);
      case Adopt(keeper, token) => AdoptKeepsLiveOwned(w, keeper, token);
    }
  }

  lemma NextKeepsTokens(w: World, step: Step)
    requires Inv(w) && TokensOwned(w) && Enabled(w, step)
    ensures TokensOwned(Next(w, step))
  {
    hide Inv, Next, HoldOwned, LiveOwned, Enabled;
    if Next(w, step).state.holder.Some? { NextKeepsHoldOwned(w, step); }
    NextKeepsLiveOwned(w, step);
  }

  lemma {:induction false} RunTokens(ws: seq<World>, steps: seq<Step>, i: nat)
    requires Run(ws, steps) && i < |ws|
    ensures TokensOwned(ws[i])
  {
    hide Next, Enabled, Inv;
    if i > 0 {
      RunTokens(ws, steps, i - 1);
      RunInv(ws, steps, i - 1);
      NextKeepsTokens(ws[i - 1], steps[i - 1]);
    }
  }

  /** If a hold handed over, whose old process is out of `park` again, has a live token, then it is that of a keeper
      which that process has killed. */
  lemma LateHoldIsDying(w: World, p: nat)
    requires Inv(w) && TokensOwned(w) && Holds(w, p) && !Ordinary(w, p) && w.procs[p].phase == Free
    requires IsHoldId(w.state, IdOf(w, p)) && w.state.holder.value.token in w.live
    ensures KilledHolder(w, p)
  {
    var keeper := w.tokens[w.state.holder.value.token];
    assert ProcOk(w, p) && ProcOk(w, keeper);
  }

  /** The recorded hold's token is that of a keeper which p has killed and which has not died yet. */
  ghost predicate KilledHolder(w: World, p: nat) {
    && w.state.holder.Some? && w.state.holder.value.token in w.tokens
    && var keeper := w.tokens[w.state.holder.value.token];
       keeper in w.procs && w.procs[keeper].client.token == Some(w.state.holder.value.token)
       && Kill(keeper, Some(w.state.holder.value.id), p) in w.killed
  }

  /** When someone takes the duo, whoever still says, between calls, that he holds it has failed late. */
  lemma TakesFromNobody(ws: seq<World>, steps: seq<Step>, i: nat, o: nat)
    requires Run(ws, steps) && i < |steps| && ws[i + 1].started != ws[i].started
    requires Holds(ws[i], o) && ws[i].procs[o].phase == Free
    ensures FailedLate(ws, steps, i, o, IdOf(ws[i], o))
  {
    TakesOnlyDead(ws, steps, i);
    HandedOverLate(ws, steps, i, o);
  }

  // ----- What follows a late failure -----

  /** After a late failure the hold is open: recorded or not, it is no longer its process's; if it is recorded still,
      its token is dead or that of the keeper killed; and once that is dead and so are its joins, whoever is first in
      line takes the duo at its next look (unless stopping the games fails), while the process whose `park` failed
      still says that it holds it. */
  lemma LateFailureOpens(ws: seq<World>, steps: seq<Step>, i: nat, p: nat)
    requires Run(ws, steps) && i < |steps| && Holds(ws[i], p) && ws[i].procs[p].phase == Free
    requires FailedLate(ws, steps, i, p, IdOf(ws[i], p))
    ensures !HoldIs(ws[i].state, ws[i].procs[p].client)
    ensures IsHoldId(ws[i].state, IdOf(ws[i], p)) ==>
              ws[i].state.holder.value.token !in ws[i].live || KilledHolder(ws[i], p)
    ensures (steps[i].LookFor? && HoldDead(ws[i])
             && IsFirst(ws[i], steps[i].pid) && (Elsewhere(ws[i], steps[i].pid) ==> steps[i].stops)) ==>
              p != steps[i].pid && Holds(ws[i + 1], p) && Ordinary(ws[i + 1], steps[i].pid)
  {
    RunInv(ws, steps, i);
    RunTokens(ws, steps, i);
    RecordedIffNoLateFailure(ws, steps, i, p);
    assert ProcOk(ws[i], p);
    if IsHoldId(ws[i].state, IdOf(ws[i], p)) && ws[i].state.holder.value.token in ws[i].live {
      LateHoldIsDying(ws[i], p);
    }
    if steps[i].LookFor? {
      TakesIff(ws, steps, i);
    }
  }

  // ----- The runs in which it happens -----

  const HOST := Owner("host", "a")
  const OTHER := Owner("other", "b")

  const HOLD := Hold(20, HOST, 0, "play", 10, [], false, 0)
  const KEPT := HOLD.(token := 11, keeper := true)
  const TAKEN_BY_OTHER := Hold(22, OTHER, 0, "play", 12, [], false, 0)
  const HOLDING := Proc(HOST, Client(Holder, Some(10), Some(20)), Free, None)
  const WAITING_KEEPER := Proc(HOST, NOBODY, Free, Some((20, 1)))
  const KEEPING := WAITING_KEEPER.(client := Client(Holder, Some(11), Some(20)))
  const STARTING := Proc(OTHER, Client(Unset, Some(12), Some(22)), Free, None)

  const SPAWNED := World(State(None, [], []), {}, 0, map[1 := Proc(HOST, NOBODY, Free, None)], {}, {}, [], {},
                         {1}, map[], map[])
  const BEGUN := SPAWNED.(live := {10}, procs := map[1 := HOLDING.(client := Client(Unset, Some(10), Some(20)))],
                          ids := map[20 := 1], tokens := map[10 := 1])
  const TAKEN := BEGUN.(state := State(Some(HOLD), [], []), procs := map[1 := HOLDING], started := [20])
  const PARKING := TAKEN.(procs := map[1 := HOLDING.(phase := Parking(2)), 2 := WAITING_KEEPER], pids := {1, 2})
  const ADOPTED := PARKING.(state := State(Some(KEPT), [], []), live := {10, 11},
                            procs := map[1 := HOLDING.(phase := Parking(2)), 2 := KEEPING],
                            handed := {20}, tokens := map[10 := 1, 11 := 2])
  const SAID := ADOPTED.(said := {2})
  const READ := SAID.(procs := map[1 := HOLDING.(phase := LettingGo), 2 := KEEPING])
  const KEEPER_ALONE := READ.(live := {11}, procs := map[1 := HOLDING.(client := NOBODY), 2 := KEEPING])
  const KEEPER_DEAD := ADOPTED.(live := {10}, procs := map[1 := HOLDING.(phase := Parking(2))])
  const KILL := Kill(2, Some(20), 1)
  const KILLED_EARLY := PARKING.(procs := map[1 := HOLDING, 2 := WAITING_KEEPER], killed := {KILL})
  const DYING := ADOPTED.(procs := map[1 := HOLDING, 2 := KEEPING], killed := {KILL})
  const LATE := KEEPER_DEAD.(procs := map[1 := HOLDING], killed := {KILL})
  const COME := LATE.(procs := map[1 := HOLDING, 3 := Proc(OTHER, NOBODY, Free, None)], pids := {1, 2, 3})
  const LOOKING := COME.(live := {10, 12}, procs := map[1 := HOLDING, 3 := STARTING], ids := map[20 := 1, 22 := 3],
                         tokens := map[10 := 1, 11 := 2, 12 := 3])
  const BOTH := LOOKING.(state := State(Some(TAKEN_BY_OTHER), [], [HoldEnded(20, TakenOver("other"))]),
                         procs := map[1 := HOLDING, 3 := STARTING.(client := Client(Holder, Some(12), Some(22)))],
                         started := [20, 22])

  ghost predicate Goes(w: World, step: Step, w': World) {
    Enabled(w, step) && Next(w, step) == w'
  }

  lemma TakenReached()
    ensures Goes(INITIAL, Spawn(1, HOST), SPAWNED)
    ensures Goes(SPAWNED, Begin(1, 10, 20), BEGUN)
    ensures Goes(BEGUN, LookFor(1, "play", true), TAKEN)
  {
  }

  lemma ParkingReached()
    ensures Goes(TAKEN, Park(1, 2), PARKING)
  {
    assert Next(TAKEN, Park(1, 2)).procs == PARKING.procs;
  }

  lemma KeptByKeeper()
    ensures Adopted(State(Some(HOLD), [], []), {10} + {11}, 0, 20, 11) == (State(Some(KEPT), [], []), true)
  {
    assert Prune(State(Some(HOLD), [], []), {10} + {11}, 0) == State(Some(HOLD), [], []);
  }

  lemma AdoptedReached()
    ensures Goes(PARKING, Adopt(2, 11), ADOPTED)
  {
    hide AcquireLook, Adopted, CheckoutReleased, AfterRelease, DroppedByHand, Left, PolledPlace, Touched;
    KeptByKeeper();
    assert Next(PARKING, Adopt(2, 11)).procs == ADOPTED.procs;
  }

  lemma SaidReached()
    ensures Goes(ADOPTED, SayReady(2), SAID)
  {
  }

  lemma ReadReached()
    ensures Goes(SAID, Parked(1), READ)
  {
    hide AcquireLook, Adopted, CheckoutReleased, AfterRelease, DroppedByHand, Left, PolledPlace, Touched;
    assert Next(SAID, Parked(1)).procs == READ.procs;
  }

  lemma AloneReached()
    ensures Goes(READ, LetGo(1), KEEPER_ALONE)
  {
    hide AcquireLook, Adopted, CheckoutReleased, AfterRelease, DroppedByHand, Left, PolledPlace, Touched;
    assert READ.procs[1] == HOLDING.(phase := LettingGo) && READ.live == {10, 11};
    assert Next(READ, LetGo(1)).procs == KEEPER_ALONE.procs;
    assert Next(READ, LetGo(1)).live == KEEPER_ALONE.live;
  }

  lemma KilledEarlyReached()
    ensures Goes(PARKING, ParkFailed(1), KILLED_EARLY)
  {
    hide AcquireLook, Adopted, CheckoutReleased, AfterRelease, DroppedByHand, Left, PolledPlace, Touched;
    assert Next(PARKING, ParkFailed(1)).procs == KILLED_EARLY.procs;
  }

  lemma DyingReached()
    ensures Goes(KILLED_EARLY, Adopt(2, 11), DYING)
  {
    hide AcquireLook, Adopted, CheckoutReleased, AfterRelease, DroppedByHand, Left, PolledPlace, Touched;
    KeptByKeeper();
    assert KILLED_EARLY.state == State(Some(HOLD), [], []) && KILLED_EARLY.live == {10};
    assert Next(KILLED_EARLY, Adopt(2, 11)).procs == DYING.procs;
  }

  lemma TimedOutReached()
    ensures Goes(ADOPTED, ParkFailed(1), DYING)
  {
    hide AcquireLook, Adopted, CheckoutReleased, AfterRelease, DroppedByHand, Left, PolledPlace, Touched;
    assert Next(ADOPTED, ParkFailed(1)).procs == DYING.procs;
  }

  lemma LateReached()
    ensures Goes(DYING, Die(2), LATE)
  {
    hide AcquireLook, Adopted, CheckoutReleased, AfterRelease, DroppedByHand, Left, PolledPlace, Touched;
    assert Next(DYING, Die(2)).procs == LATE.procs;
    assert Next(DYING, Die(2)).live == LATE.live;
  }

  lemma DeadReached()
    ensures Goes(ADOPTED, Die(2), KEEPER_DEAD)
  {
    hide AcquireLook, Adopted, CheckoutReleased, AfterRelease, DroppedByHand, Left, PolledPlace, Touched;
    assert Next(ADOPTED, Die(2)).procs == KEEPER_DEAD.procs;
    assert Next(ADOPTED, Die(2)).live == KEEPER_DEAD.live;
  }

  lemma LateDeadReached()
    ensures Goes(KEEPER_DEAD, ParkFailed(1), LATE)
  {
    hide AcquireLook, Adopted, CheckoutReleased, AfterRelease, DroppedByHand, Left, PolledPlace, Touched;
    assert Next(KEEPER_DEAD, ParkFailed(1)).procs == LATE.procs;
  }

  lemma ComeReached()
    ensures Goes(LATE, Spawn(3, OTHER), COME)
  {
    assert Next(LATE, Spawn(3, OTHER)).procs == COME.procs;
  }

  lemma LookingReached()
    ensures Goes(COME, Begin(3, 12, 22), LOOKING)
  {
    assert Next(COME, Begin(3, 12, 22)).procs == LOOKING.procs;
    assert Next(COME, Begin(3, 12, 22)).live == LOOKING.live;
  }

  lemma BothReached()
    ensures Goes(LOOKING, LookFor(3, "play", true), BOTH)
  {
    DeadIff(LOOKING);
    assert Next(LOOKING, LookFor(3, "play", true)).state == BOTH.state;
    assert Next(LOOKING, LookFor(3, "play", true)).procs == BOTH.procs;
  }

  const START := [Spawn(1, HOST), Begin(1, 10, 20), LookFor(1, "play", true), Park(1, 2)]
  const THEN := [Spawn(3, OTHER), Begin(3, 12, 22), LookFor(3, "play", true)]

  /** A process takes the duo and parks it; its keeper adopts it and says so, and the process lets go: a run. */
  lemma ParkedRun()
    ensures Run([INITIAL, SPAWNED, BEGUN, TAKEN, PARKING, ADOPTED, SAID, READ, KEEPER_ALONE],
                START + [Adopt(2, 11), SayReady(2), Parked(1), LetGo(1)])
  {
    hide Next, Enabled;
    TakenReached();
    ParkingReached();
    AdoptedReached();
    SaidReached();
    ReadReached();
    AloneReached();
  }

  lemma TimeoutRun()
    ensures Run([INITIAL, SPAWNED, BEGUN, TAKEN, PARKING, ADOPTED, DYING, LATE, COME, LOOKING, BOTH],
                START + [Adopt(2, 11), ParkFailed(1), Die(2)] + THEN)
  {
    hide Next, Enabled;
    TakenReached();
    ParkingReached();
    AdoptedReached();
    TimedOutReached();
    LateReached();
    ComeReached();
    LookingReached();
    BothReached();
  }

  lemma DeadKeeperRun()
    ensures Run([INITIAL, SPAWNED, BEGUN, TAKEN, PARKING, ADOPTED, KEEPER_DEAD, LATE, COME, LOOKING, BOTH],
                START + [Adopt(2, 11), Die(2), ParkFailed(1)] + THEN)
  {
    hide Next, Enabled;
    TakenReached();
    ParkingReached();
    AdoptedReached();
    DeadReached();
    LateDeadReached();
    ComeReached();
    LookingReached();
    BothReached();
  }

  lemma KilledEarlyRun()
    ensures Run([INITIAL, SPAWNED, BEGUN, TAKEN, PARKING, KILLED_EARLY, DYING, LATE, COME, LOOKING, BOTH],
                START + [ParkFailed(1), Adopt(2, 11), Die(2)] + THEN)
  {
    hide Next, Enabled;
    TakenReached();
    ParkingReached();
    KilledEarlyReached();
    DyingReached();
    LateReached();
    ComeReached();
    LookingReached();
    BothReached();
  }

  /** Three runs after which two processes say that they hold the duo and neither is a keeper or inside a call: the wait
      for "ready" ends although the keeper has adopted; the keeper ends between adopting and saying so; or the keeper
      adopts after `park` has returned False, in the moment it still has. */
  lemma LateFailureBreaksExclusion()
    ensures Run([INITIAL, SPAWNED, BEGUN, TAKEN, PARKING, ADOPTED, DYING, LATE, COME, LOOKING, BOTH],
                START + [Adopt(2, 11), ParkFailed(1), Die(2)] + THEN)
    ensures Run([INITIAL, SPAWNED, BEGUN, TAKEN, PARKING, ADOPTED, KEEPER_DEAD, LATE, COME, LOOKING, BOTH],
                START + [Adopt(2, 11), Die(2), ParkFailed(1)] + THEN)
    ensures Run([INITIAL, SPAWNED, BEGUN, TAKEN, PARKING, KILLED_EARLY, DYING, LATE, COME, LOOKING, BOTH],
                START + [ParkFailed(1), Adopt(2, 11), Die(2)] + THEN)
    ensures Holds(BOTH, 1) && Holds(BOTH, 3) && BOTH.procs[1].phase == Free && BOTH.procs[3].phase == Free
  {
    hide Run;
    TimeoutRun();
    DeadKeeperRun();
    KilledEarlyRun();
  }
}
