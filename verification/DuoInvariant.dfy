/** The invariant of the lock's transition system and its preservation by every step. */
module DuoInvariant {
  import opened Basics
  import opened DuoProtocol
  import opened DuoQueueFacts
  import opened DuoWorld

  /** A process whose id still means something: it has one and is not just dropping it. */
  ghost predicate Acts(w: World, pid: nat) {
    pid in w.procs && w.procs[pid].client.id.Some? && w.procs[pid].phase != LettingGo
  }

  ghost function IdOf(w: World, pid: nat): nat
    requires Acts(w, pid)
  {
    w.procs[pid].client.id.value
  }

  /** A live process, not a keeper, whose object says that it holds the duo. */
  ghost predicate Holds(w: World, pid: nat) {
    Acts(w, pid) && w.procs[pid].client.role == Holder && w.procs[pid].adopts.None?
  }

  /** One that does so rightly: no keeper has adopted its hold. */
  ghost predicate Ordinary(w: World, pid: nat) {
    Holds(w, pid) && IdOf(w, pid) !in w.handed
  }

  /** A process on its own. */
  ghost predicate ProcShape(w: World, pid: nat)
    requires pid in w.procs
  {
    var p := w.procs[pid];
    && pid in w.pids
    && (p.client.token.Some? <==> p.client.id.Some?)
    && (p.client.role != Unset ==> p.client.id.Some?)
    && (p.client.token.Some? ==> p.client.token.value in w.live && IsMaker(w.tokens, p.client.token.value, pid))
    && (p.client.id.Some? && p.adopts.None? ==> IsMaker(w.ids, p.client.id.value, pid))
    && (p.phase.Parking? ==> p.client.role == Holder && p.adopts.None? && p.phase.keeper in w.pids)
    && (p.phase.Parking? && p.phase.keeper in w.said ==> p.client.id.value in w.handed)
    && (p.phase.Parking? && p.phase.keeper in w.procs ==>
        w.procs[p.phase.keeper].adopts == Some((p.client.id.value, pid)))
    && (p.adopts.Some? ==> KeeperShape(w, pid, p.adopts.value.0, p.adopts.value.1))
  }

  ghost predicate IsMaker(makers: map<nat, nat>, made: nat, pid: nat) {
    made in makers && makers[made] == pid
  }

  /** A keeper and the process that started it for a hold: while that one has the hold, it waits for "ready" or has
      killed the keeper. */
  ghost predicate KeeperShape(w: World, keeper: nat, hold: nat, parent: nat)
    requires keeper in w.procs
  {
    var k := w.procs[keeper].client;
    && IsMaker(w.ids, hold, parent) && parent != keeper
    && (k.id.Some? ==> k.role == Holder && k.id.value == hold && hold in w.handed)
    && (Acts(w, parent) && IdOf(w, parent) == hold ==>
        w.procs[parent].phase == Parking(keeper) || Kill(keeper, Some(hold), parent) in w.killed)
  }

  ghost function Joins(s: State): seq<Join> {
    if s.holder.Some? then s.holder.value.joined else []
  }

  ghost predicate IsHoldId(s: State, id: nat) {
    s.holder.Some? && s.holder.value.id == id
  }

  /** Whether an id is recorded anywhere in duo.json. */
  ghost predicate Recorded(s: State, id: nat) {
    IsHoldId(s, id) || InJoins(Joins(s), id) || InQueue(s.queue, id)
  }

  /** An id appears at most once across the hold, its joins and the queue. */
  ghost predicate UniqueState(s: State) {
    && UniquePlaces(s.queue)
    && UniqueJoins(Joins(s))
    && (forall id :: InJoins(Joins(s), id) ==> !InQueue(s.queue, id))
    && (s.holder.Some? ==> !InJoins(Joins(s), s.holder.value.id) && !InQueue(s.queue, s.holder.value.id))
  }

  ghost predicate RoleFits(w: World, pid: nat)
    requires Acts(w, pid)
  {
    var role, id := w.procs[pid].client.role, IdOf(w, pid);
    && (role != Queued ==> !InQueue(w.state.queue, id))
    && (role != Joined ==> !InJoins(Joins(w.state), id))
    && (role != Holder ==> id !in w.started && !IsHoldId(w.state, id))
  }

  /** The recorded hold is the ordinary holder's own. */
  ghost predicate HoldIs(s: State, c: Client) {
    s.holder.Some? && Some(s.holder.value.id) == c.id && Some(s.holder.value.token) == c.token && !s.holder.value.keeper
  }

  ghost predicate ProcOk(w: World, pid: nat)
    requires pid in w.procs
  {
    && ProcShape(w, pid)
    && (Acts(w, pid) ==> RoleFits(w, pid))
    && (Ordinary(w, pid) ==> HoldIs(w.state, w.procs[pid].client))
  }

  ghost function Current(s: State): seq<nat> {
    if s.holder.Some? then [s.holder.value.id] else []
  }

  ghost predicate NoRepeats(ids: seq<nat>) {
    forall i, j :: 0 <= i < j < |ids| ==> ids[i] != ids[j]
  }

  /** The holds started, in order, are the ended ones and then the recorded one; none repeats. */
  ghost predicate Accounted(w: World) {
    w.started == Ended(w.state.log) + Current(w.state) && NoRepeats(w.started)
  }

  ghost predicate IdsKnown(w: World) {
    && (forall id :: id in w.started ==> id in w.ids)
    && (forall id :: Recorded(w.state, id) ==> id in w.ids)
    && w.said <= w.pids
  }

  /** The holds handed over were started; the recorded one is a keeper's exactly if it was handed over. */
  ghost predicate Handed(w: World) {
    && (forall id :: id in w.handed ==> id in w.started)
    && (w.state.holder.Some? ==> (w.state.holder.value.keeper <==> w.state.holder.value.id in w.handed))
  }

  ghost predicate Inv(w: World) {
    && w.live <= w.tokens.Keys
    && (forall p {:trigger ProcOk(w, p)} :: p in w.procs ==> ProcOk(w, p))
    && UniqueState(w.state)
    && Accounted(w)
    && IdsKnown(w)
    && Handed(w)
  }

  // ----- Operations that only lose queue places and joins -----

  /** t records no id that s did not, keeps the hold, and ends none. */
  ghost predicate Shrinks(s: State, t: State) {
    && (s.holder.Some? <==> t.holder.Some?)
    && (s.holder.Some? ==>
          && t.holder.value.id == s.holder.value.id
          && t.holder.value.token == s.holder.value.token
          && t.holder.value.keeper == s.holder.value.keeper
          && t.holder.value.owner == s.holder.value.owner)
    && (forall id :: InQueue(t.queue, id) ==> InQueue(s.queue, id))
    && (forall id :: InJoins(Joins(t), id) ==> InJoins(Joins(s), id))
    && (UniqueState(s) ==> UniquePlaces(t.queue) && UniqueJoins(Joins(t)))
    && Ended(t.log) == Ended(s.log)
  }

  lemma FilterJoins(p: Join -> bool, joins: seq<Join>)
    ensures forall id :: InJoins(Filter(p, joins), id) ==> InJoins(joins, id)
    ensures UniqueJoins(joins) ==> UniqueJoins(Filter(p, joins))
  {
    FilterMembers(p, joins);
    if UniqueJoins(joins) { FilterUniqueJoins(p, joins); }
  }

  lemma FilterQueue(p: Entry -> bool, q: seq<Entry>)
    ensures forall id :: InQueue(Filter(p, q), id) ==> InQueue(q, id)
    ensures UniquePlaces(q) ==> UniquePlaces(Filter(p, q))
  {
    FilterMembers(p, q);
    if UniquePlaces(q) { FilterUniquePlaces(p, q); }
  }

  lemma PruneShrinks(s: State, live: set<nat>, now: int)
    ensures Shrinks(s, Prune(s, live, now))
  {
    FilterQueue((e: Entry) => KeepsPlace(e, live, now), s.queue);
    EndedIgnoresLapses(s.log, s.queue, live, now);
    if s.holder.Some? {
      FilterJoins((j: Join) => j.token in live, s.holder.value.joined);
    }
  }

  lemma PollShrinks(s0: State, live: set<nat>, now: int, id: nat)
    ensures Shrinks(s0, PolledPlace(s0, live, now, id).0)
  {
    var s := Prune(s0, live, now);
    PruneShrinks(s0, live, now);
    forall other ensures InQueue(Renewed(s.queue, PlaceOf(s.queue, id), now), other) <==> InQueue(s.queue, other) {
      RenewedPlaces(s.queue, PlaceOf(s.queue, id), now, other);
    }
    RenewedPlaces(s.queue, PlaceOf(s.queue, id), now, id);
  }

  lemma {:induction false} RemovedMembers(q: seq<Entry>, e: Entry)
    ensures forall o :: o in Removed(q, e) ==> o in q
    ensures UniquePlaces(q) ==> UniquePlaces(Removed(q, e))
  {
    if q != [] && q[0] != e {
      RemovedMembers(q[1..], e);
      if UniquePlaces(q) {
        var rest := Removed(q[1..], e);
        forall k | 0 <= k < |rest| ensures rest[k].id != q[0].id {
          assert rest[k] in q[1..];
        }
      }
    }
  }

  lemma DropShrinks(s0: State, live: set<nat>, now: int, byId: Option<nat>, byName: string)
    ensures Shrinks(s0, DroppedByHand(s0, live, now, byId, byName))
  {
    var s := Prune(s0, live, now);
    PruneShrinks(s0, live, now);
    var matches := Matches(s.queue, byId, byName);
    if |matches| == 1 {
      RemovedMembers(s.queue, matches[0]);
      EndedAppend(s.log, PlaceDropped(matches[0].id));
    }
  }

  lemma WithoutPlaceIds(q: seq<Entry>, id: nat)
    ensures !InQueue(WithoutPlace(q, id), id)
    ensures forall other :: InQueue(WithoutPlace(q, id), other) ==> InQueue(q, other)
    ensures UniquePlaces(q) ==> UniquePlaces(WithoutPlace(q, id))
  {
    var p := (e: Entry) => e.id != id;
    FilterQueue(p, q);
    FilterMembers(p, q);
    assert forall e :: e in WithoutPlace(q, id) ==> p(e);
  }

  lemma WithoutJoinIds(joins: seq<Join>, id: nat)
    ensures !InJoins(WithoutJoin(joins, id), id)
    ensures forall other :: InJoins(WithoutJoin(joins, id), other) ==> InJoins(joins, other)
    ensures UniqueJoins(joins) ==> UniqueJoins(WithoutJoin(joins, id))
  {
    var p := (j: Join) => j.id != id;
    FilterJoins(p, joins);
    FilterMembers(p, joins);
    assert forall j :: j in WithoutJoin(joins, id) ==> p(j);
  }

  lemma LeaveShrinks(s0: State, live: set<nat>, now: int, me: Client)
    ensures Shrinks(s0, Left(s0, live, now, me))
    ensures (me.role == Queued || me.role == Joined) && me.id.Some? ==>
              !InQueue(Left(s0, live, now, me).queue, me.id.value) &&
                  !InJoins(Joins(Left(s0, live, now, me)), me.id.value)
  {
    if (me.role == Queued || me.role == Joined) && me.id.Some? {
      var s := Prune(s0, live, now);
      PruneShrinks(s0, live, now);
      WithoutPlaceIds(s.queue, me.id.value);
      WithoutJoinIds(Joins(s), me.id.value);
      hide Prune, WithoutPlace, WithoutJoin, InQueue, InJoins, UniquePlaces, UniqueJoins;
    }
  }

  lemma ShrinkKeepsInv(w: World, t: State)
    requires Inv(w) && Shrinks(w.state, t)
    ensures Inv(w.(state := t))
  {
    var w' := w.(state := t);
    forall p | p in w'.procs ensures ProcOk(w', p) {
      assert ProcOk(w, p);
    }
    forall id | Recorded(t, id) ensures id in w.ids {
      assert Recorded(w.state, id);
    }
  }
}
