/** The lock's queue is first in, first out: kept places never change their order, and the duo is taken in it. */
module DuoFifo {
  import opened Basics
  import opened DuoProtocol
  import opened DuoQueueFacts
  import opened DuoWorld
  import opened DuoInvariant
  import opened DuoTheorems

  /** a's place comes before b's. */
  ghost predicate Ahead(q: seq<Entry>, a: nat, b: nat) {
    PlaceOf(q, a).Some? && PlaceOf(q, b).Some? && PlaceOf(q, a).value < PlaceOf(q, b).value
  }

  ghost predicate BothIn(q: seq<Entry>, a: nat, b: nat) {
    InQueue(q, a) && InQueue(q, b)
  }

  lemma {:induction false} FilterOrder(p: Entry -> bool, q: seq<Entry>, a: nat, b: nat)
    requires UniquePlaces(q) && BothIn(Filter(p, q), a, b) && a != b
    ensures BothIn(q, a, b) && (Ahead(Filter(p, q), a, b) <==> Ahead(q, a, b))
  {
    FilterQueue(p, q);
    InQueueByPlace(q, a);
    InQueueByPlace(q, b);
    InQueueByPlace(Filter(p, q), a);
    InQueueByPlace(Filter(p, q), b);
    assert q != [];
    var rest := Filter(p, q[1..]);
    if p(q[0]) {
      assert Filter(p, q) == [q[0]] + rest && Filter(p, q)[1..] == rest;
    } else {
      assert Filter(p, q) == rest;
      FilterQueue(p, q[1..]);
      assert q[0].id != a && q[0].id != b by { FirstGone(q, a); FirstGone(q, b); }
    }
    if q[0].id != a && q[0].id != b {
      BothInRest(Filter(p, q), rest, q[0], a, b);
      FilterOrder(p, q[1..], a, b);
    }
  }

  /** An id found behind the first place is not the first one's. */
  lemma FirstGone(q: seq<Entry>, id: nat)
    requires UniquePlaces(q) && q != []
    ensures InQueue(q[1..], id) ==> q[0].id != id
  {
    if InQueue(q[1..], id) {
      var e :| e in q[1..] && e.id == id;
      var k :| 0 <= k < |q[1..]| && q[1..][k] == e;
      assert q[k + 1] == e;
    }
  }

  lemma BothInRest(filtered: seq<Entry>, rest: seq<Entry>, first: Entry, a: nat, b: nat)
    requires BothIn(filtered, a, b) && (filtered == rest || filtered == [first] + rest)
    requires first.id != a && first.id != b
    ensures BothIn(rest, a, b)
  {
  }

  lemma PrunedOrder(s: State, live: set<nat>, now: int, a: nat, b: nat)
    requires UniquePlaces(s.queue) && BothIn(Prune(s, live, now).queue, a, b) && a != b
    ensures BothIn(s.queue, a, b) && UniquePlaces(Prune(s, live, now).queue)
    ensures Ahead(Prune(s, live, now).queue, a, b) <==> Ahead(s.queue, a, b)
  {
    FilterOrder((e: Entry) => KeepsPlace(e, live, now), s.queue, a, b);
    FilterQueue((e: Entry) => KeepsPlace(e, live, now), s.queue);
  }

  lemma WithoutOrder(q: seq<Entry>, gone: nat, a: nat, b: nat)
    requires UniquePlaces(q) && BothIn(WithoutPlace(q, gone), a, b) && a != b
    ensures BothIn(q, a, b) && (Ahead(WithoutPlace(q, gone), a, b) <==> Ahead(q, a, b))
  {
    FilterOrder((e: Entry) => e.id != gone, q, a, b);
  }

  lemma RenewedOrder(q: seq<Entry>, place: Option<nat>, now: int, a: nat, b: nat)
    requires place.Some? ==> place.value < |q|
    ensures UniquePlaces(q) ==> UniquePlaces(Renewed(q, place, now))
    ensures Ahead(Renewed(q, place, now), a, b) <==> Ahead(q, a, b)
    ensures BothIn(Renewed(q, place, now), a, b) <==> BothIn(q, a, b)
  {
    RenewedPlaces(q, place, now, a);
    RenewedPlaces(q, place, now, b);
  }

  lemma AppendedOrder(q: seq<Entry>, e: Entry, a: nat, b: nat)
    requires BothIn(q, a, b)
    ensures Ahead(q + [e], a, b) <==> Ahead(q, a, b)
  {
    InQueueByPlace(q, a);
    InQueueByPlace(q, b);
    AppendedPlace(q, e, a);
    AppendedPlace(q, e, b);
  }

  /** Two that wait are both in the pruned queue, whatever token is new. */
  lemma WaitingPruned(w: World, a: nat, b: nat)
    requires Inv(w) && Waits(w, a) && Waits(w, b) && a != b
    ensures BothIn(Prune(w.state, w.live, w.now).queue, a, b) && UniquePlaces(Prune(w.state, w.live, w.now).queue)
    ensures Ahead(Prune(w.state, w.live, w.now).queue, a, b) <==> Ahead(w.state.queue, a, b)
  {
    PrunedOrder(w.state, w.live, w.now, a, b);
  }

  lemma LookOrder(w: World, pid: nat, what: string, stops: bool, a: nat, b: nat)
    requires Inv(w) && Enabled(w, LookFor(pid, what, stops)) && Waits(w, a) && Waits(w, b) && a != b
    requires BothIn(Next(w, LookFor(pid, what, stops)).state.queue, a, b)
    ensures Ahead(Next(w, LookFor(pid, what, stops)).state.queue, a, b) <==> Ahead(w.state.queue, a, b)
  {
    hide Inv, Waits, Prune, PlaceOf, Ahead, BothIn, UniquePlaces, WithoutPlace, Renewed, HoldAlive;
    var p := w.procs[pid];
    var me := p.client.id.value;
    var q := Prune(w.state, w.live, w.now).queue;
    var renewed := Renewed(q, PlaceOf(q, me), w.now);
    WaitingPruned(w, a, b);
    RenewedOrder(q, PlaceOf(q, me), w.now, a, b);
    var t := Next(w, LookFor(pid, what, stops)).state.queue;
    if t == WithoutPlace(renewed, me) {
      WithoutOrder(renewed, me, a, b);
    } else if t != renewed {
      AppendedOrder(renewed, Entry(me, p.owner, w.now, w.now, what, p.client.token.value), a, b);
    }
  }

  lemma LeaveOrder(w: World, me: Client, a: nat, b: nat)
    requires Inv(w) && Waits(w, a) && Waits(w, b) && a != b && BothIn(Left(w.state, w.live, w.now, me).queue, a, b)
    ensures Ahead(Left(w.state, w.live, w.now, me).queue, a, b) <==> Ahead(w.state.queue, a, b)
  {
    hide Inv, Waits, Prune, Ahead, BothIn, UniquePlaces, WithoutPlace;
    WaitingPruned(w, a, b);
    if (me.role == Queued || me.role == Joined) && me.id.Some? {
      WithoutOrder(Prune(w.state, w.live, w.now).queue, me.id.value, a, b);
    }
  }

  lemma DropOrder(w: World, byId: Option<nat>, byName: string, a: nat, b: nat)
    requires Inv(w) && Waits(w, a) && Waits(w, b) && a != b
    requires BothIn(DroppedByHand(w.state, w.live, w.now, byId, byName).queue, a, b)
    ensures Ahead(DroppedByHand(w.state, w.live, w.now, byId, byName).queue, a, b) <==> Ahead(w.state.queue, a, b)
  {
    hide Inv, Waits, Prune, Ahead, BothIn, UniquePlaces, WithoutPlace, PlaceOf;
    WaitingPruned(w, a, b);
    var s := Prune(w.state, w.live, w.now);
    var matches := Matches(s.queue, byId, byName);
    if |matches| == 1 {
      FilterMembers((e: Entry) => Some(e.id) == byId || e.owner.name == byName, s.queue);
      assert matches[0] in matches;
      RemovedIsWithout(s.queue, matches[0]);
      WithoutOrder(s.queue, matches[0].id, a, b);
    }
  }

  lemma RemovedIsWithout(q: seq<Entry>, e: Entry)
    requires UniquePlaces(q) && e in q
    ensures Removed(q, e) == WithoutPlace(q, e.id)
  {
    RemovedIsFiltered(q, e);
  }

  lemma PollOrder(w: World, pid: nat, a: nat, b: nat)
    requires Inv(w) && Enabled(w, Poll(pid)) && Waits(w, a) && Waits(w, b) && a != b
    ensures Ahead(Next(w, Poll(pid)).state.queue, a, b) <==> Ahead(w.state.queue, a, b)
  {
    hide Inv, Waits, Prune, Ahead, BothIn, UniquePlaces;
    WaitingPruned(w, a, b);
    var q := Prune(w.state, w.live, w.now).queue;
    RenewedOrder(q, PlaceOf(q, w.procs[pid].client.id.value), w.now, a, b);
  }

  lemma OrderStep(w: World, step: Step, a: nat, b: nat)
    requires Inv(w) && Enabled(w, step) && a != b
    requires Waits(w, a) && Waits(w, b) && BothIn(Next(w, step).state.queue, a, b)
    ensures Ahead(Next(w, step).state.queue, a, b) <==> Ahead(w.state.queue, a, b)
  {
    hide PlaceOf, Ahead, BothIn, UniquePlaces;
    match step
    case LookFor(pid, what, stops) => LookOrder(w, pid, what, stops, a, b);
    case Poll(pid) => PollOrder(w, pid, a, b);
    case DropByHand(byId, byName) => DropOrder(w, byId, byName, a, b);
    case Touch(_) => WaitingPruned(w, a, b);
    case Leave(pid) => LeaveOrder(w, w.procs[pid].client, a, b);
    case Release(pid, _) =>
      if w.procs[pid].client.role == Holder {
        WaitingPruned(w, a, b);
      } else {
        LeaveOrder(w, w.procs[pid].client, a, b);
      }
    case ReleaseCheckout(_, _) => WaitingPruned(w, a, b);
    case Adopt(_, token) => PrunedOrder(w.state, w.live + {token}, w.now, a, b);
    case _ =>
  }

  /** First in, first out: two places kept over any stretch of a run are in the same order at its end. */
  lemma {:induction false} QueueIsFifo(ws: seq<World>, steps: seq<Step>, i: nat, j: nat, a: nat, b: nat)
    requires Run(ws, steps) && i <= j < |ws| && a != b
    requires forall k :: i <= k <= j ==> Waits(ws[k], a) && Waits(ws[k], b)
    ensures Ahead(ws[j].state.queue, a, b) <==> Ahead(ws[i].state.queue, a, b)
    decreases j - i
  {
    hide Inv, Next, Enabled, Ahead, Waits, INITIAL;
    if i < j {
      QueueIsFifo(ws, steps, i, j - 1, a, b);
      RunInv(ws, steps, j - 1);
      assert ws[j] == Next(ws[j - 1], steps[j - 1]);
      WaitsIsQueued(ws[j], a);
      WaitsIsQueued(ws[j], b);
      OrderStep(ws[j - 1], steps[j - 1], a, b);
    }
  }

  /** Of two that have waited since some moment, only the one ahead then takes the duo while the other waits. */
  lemma TakenInTurn(ws: seq<World>, steps: seq<Step>, i: nat, j: nat, a: nat, b: nat)
    requires Run(ws, steps) && i <= j < |steps| && a != b
    requires forall k :: i <= k <= j ==> Waits(ws[k], a) && Waits(ws[k], b)
    requires ws[j + 1].started == ws[j].started + [a]
    ensures Ahead(ws[i].state.queue, a, b)
  {
    RunInv(ws, steps, j);
    TakesOnlyDead(ws, steps, j);
    TakesIff(ws, steps, j);
    QueueIsFifo(ws, steps, i, j, a, b);
    var kept := KeptPlaces(ws[j].state.queue, ws[j].live, ws[j].now);
    assert (ws[j].started + [a])[|ws[j].started|] == a;
    InQueueByPlace(kept, a);
    InQueueByPlace(kept, b);
    WaitingPruned(ws[j], a, b);
  }
}
