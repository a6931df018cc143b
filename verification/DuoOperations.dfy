/** What each of the lock's operations leaves recorded, told of the recorded holds, joins and places themselves: in
    any run, which places lapse and which are renewed, what a look, a release, an adoption or a drop writes. */
module DuoOperations {
  import opened Basics
  import opened DuoProtocol
  import opened DuoQueueFacts
  import opened DuoWorld
  import opened DuoInvariant
  import opened DuoTheorems

  /** A place that has not lapsed: its process lives and polled within five minutes. */
  ghost predicate Kept(w: World, live: set<nat>, e: Entry) {
    e in w.state.queue && e.token in live && w.now - e.polled <= QUEUE_STALE
  }

  /** The hold stays, without the joins whose processes are dead. */
  ghost predicate HoldStays(w: World, live: set<nat>, holder: Option<Hold>) {
    && (holder.Some? <==> w.state.holder.Some?)
    && (holder.Some? ==> StaysAs(w, live, holder, w.state.holder.value))
  }

  /** The same with other fields changed: it is this hold, but for its joins. */
  ghost predicate StaysAs(w: World, live: set<nat>, holder: Option<Hold>, h: Hold) {
    && holder.Some? && holder.value == h.(joined := holder.value.joined)
    && (forall j :: j in holder.value.joined <==> j in Joins(w.state) && j.token in live)
  }

  /** The log goes on with a line for each place that lapsed while its process lives, and then these. */
  ghost predicate LogGoesOn(w: World, live: set<nat>, log: seq<LogLine>, more: seq<LogLine>) {
    var before := w.state.log;
    && |log| >= |before| + |more| && log[..|before|] == before && log[|log| - |more|..] == more
    && forall line :: line in log[|before|..|log| - |more|] <==> LapsedLine(w, live, line)
  }

  ghost predicate LapsedLine(w: World, live: set<nat>, line: LogLine) {
    exists e :: e in w.state.queue && e.token in live && w.now - e.polled > QUEUE_STALE && line == PlaceLapsed(e.id)
  }

  // ----- Pruning -----

  lemma {:induction false} LinesAre(q: seq<Entry>, live: set<nat>, now: int, line: LogLine)
    ensures line in LapseLines(q, live, now)
       <==> exists e :: e in q && e.token in live && now - e.polled > QUEUE_STALE && line == PlaceLapsed(e.id)
  {
    if q != [] {
      LinesAre(q[1..], live, now, line);
      assert forall e :: e in q <==> e == q[0] || e in q[1..];
    }
  }

  lemma PruneIs(w: World, live: set<nat>)
    ensures var t := Prune(w.state, live, w.now);
            && HoldStays(w, live, t.holder) && LogGoesOn(w, live, t.log, [])
            && forall e :: e in t.queue <==> Kept(w, live, e)
  {
    var t := Prune(w.state, live, w.now);
    FilterMembers((e: Entry) => KeepsPlace(e, live, w.now), w.state.queue);
    FilterMembers((j: Join) => j.token in live, Joins(w.state));
    var lines := LapseLines(w.state.queue, live, w.now);
    assert t.log[|w.state.log|..] == lines;
    forall line ensures line in lines <==> LapsedLine(w, live, line) {
      LinesAre(w.state.queue, live, w.now, line);
    }
    hide KeptPlaces, LapseLines, LiveJoins;
  }

  lemma OneMoreLine(w: World, live: set<nat>, log: seq<LogLine>, line: LogLine)
    requires LogGoesOn(w, live, log, [])
    ensures LogGoesOn(w, live, log + [line], [line])
  {
    hide LapsedLine;
    var more := log + [line];
    assert more[|w.state.log|..|more| - 1] == log[|w.state.log|..];
    assert log[|w.state.log|..|log| - 0] == log[|w.state.log|..];
  }

  lemma RenewedIs(q: seq<Entry>, id: nat, now: int)
    requires UniquePlaces(q)
    ensures forall e :: e in Renewed(q, PlaceOf(q, id), now)
                   <==> exists o :: o in q && e == if o.id == id then o.(polled := now) else o
  {
    var place := PlaceOf(q, id);
    var r := Renewed(q, place, now);
    forall k | 0 <= k < |q| ensures r[k] == if q[k].id == id then q[k].(polled := now) else q[k] { }
    forall e | e in r ensures exists o :: o in q && e == if o.id == id then o.(polled := now) else o {
      var k :| 0 <= k < |r| && r[k] == e;
      assert q[k] in q;
    }
    forall o | o in q ensures (if o.id == id then o.(polled := now) else o) in r {
      var k :| 0 <= k < |q| && q[k] == o;
      assert r[k] in r;
    }
  }

  lemma PrunedUnique(w: World, live: set<nat>)
    requires Inv(w)
    ensures UniquePlaces(Prune(w.state, live, w.now).queue)
  {
    FilterUniquePlaces((e: Entry) => KeepsPlace(e, live, w.now), w.state.queue);
  }

  // ----- The queue -----

  /** A place as it is after its process polled. */
  function AfterPoll(e: Entry, id: nat, now: int): Entry {
    if e.id == id then e.(polled := now) else e
  }

  /** A poll keeps exactly the places that have not lapsed, as they are, its own as polled now; it logs the ones that
      lapsed with living processes. */
  lemma PollRenews(ws: seq<World>, steps: seq<Step>, i: nat)
    requires Run(ws, steps) && i < |steps| && steps[i].Poll?
    ensures steps[i].pid in ws[i].procs && ws[i].procs[steps[i].pid].client.id.Some?
    ensures var w, t, id := ws[i], ws[i + 1].state, ws[i].procs[steps[i].pid].client.id.value;
            && HoldStays(w, w.live, t.holder) && LogGoesOn(w, w.live, t.log, [])
            && forall e :: e in t.queue <==> exists o :: Kept(w, w.live, o) && e == AfterPoll(o, id, w.now)
  {
    RunInv(ws, steps, i);
    var w := ws[i];
    PruneIs(w, w.live);
    PrunedUnique(w, w.live);
    RenewedIs(Prune(w.state, w.live, w.now).queue, w.procs[steps[i].pid].client.id.value, w.now);
    hide Inv, Prune, PlaceOf, Renewed, Kept, HoldStays, LogGoesOn, UniquePlaces;
  }

  /** A poll tells the process's number in the queue, counted from 1; none if its place has lapsed. */
  lemma PollTells(w: World, id: nat)
    ensures var (t, number) := PolledPlace(w.state, w.live, w.now, id);
            && (number.Some? <==> exists e :: Kept(w, w.live, e) && e.id == id)
            && (number.Some? ==> 1 <= number.value <= |t.queue| && t.queue[number.value - 1].id == id)
  {
    PruneIs(w, w.live);
    var q := Prune(w.state, w.live, w.now).queue;
    InQueueByPlace(q, id);
    hide Prune, PlaceOf, HoldStays, LogGoesOn, Kept;
  }

  /** Dropping by hand takes out the one place that has not lapsed with this id or name, and logs it. */
  lemma DropsTheOne(ws: seq<World>, steps: seq<Step>, i: nat, e: Entry)
    requires Run(ws, steps) && i < |steps| && steps[i].DropByHand?
    requires OnlyNamed(ws[i], steps[i].byId, steps[i].byName, e)
    ensures HoldStays(ws[i], ws[i].live, ws[i + 1].state.holder)
    ensures LogGoesOn(ws[i], ws[i].live, ws[i + 1].state.log, [PlaceDropped(e.id)])
    ensures forall o :: o in ws[i + 1].state.queue <==> Kept(ws[i], ws[i].live, o) && o != e
  {
    hide Inv, Prune, Matches, Removed, HoldStays, LogGoesOn, Kept, UniquePlaces;
    RunInv(ws, steps, i);
    var w := ws[i];
    PruneIs(w, w.live);
    PrunedUnique(w, w.live);
    var s := Prune(w.state, w.live, w.now);
    MatchCount(w, steps[i].byId, steps[i].byName, s.queue);
    OneMoreLine(w, w.live, s.log, PlaceDropped(e.id));
    RemovedIs(s.queue, e);
  }

  /** With no such place, or several, it takes out nothing. */
  lemma DropsNothing(ws: seq<World>, steps: seq<Step>, i: nat)
    requires Run(ws, steps) && i < |steps| && steps[i].DropByHand?
    requires forall e :: !OnlyNamed(ws[i], steps[i].byId, steps[i].byName, e)
    ensures HoldStays(ws[i], ws[i].live, ws[i + 1].state.holder)
    ensures LogGoesOn(ws[i], ws[i].live, ws[i + 1].state.log, [])
    ensures forall o :: o in ws[i + 1].state.queue <==> Kept(ws[i], ws[i].live, o)
  {
    hide Inv, Prune, Matches, Removed, HoldStays, LogGoesOn, Kept, UniquePlaces;
    RunInv(ws, steps, i);
    var w := ws[i];
    PruneIs(w, w.live);
    PrunedUnique(w, w.live);
    MatchCount(w, steps[i].byId, steps[i].byName, Prune(w.state, w.live, w.now).queue);
  }

  ghost predicate OnlyNamed(w: World, byId: Option<nat>, byName: string, e: Entry) {
    Named(w, byId, byName, e) && forall o :: Named(w, byId, byName, o) ==> o == e
  }

  ghost predicate Named(w: World, byId: Option<nat>, byName: string, e: Entry) {
    Kept(w, w.live, e) && (Some(e.id) == byId || e.owner.name == byName)
  }

  lemma MatchCount(w: World, byId: Option<nat>, byName: string, q: seq<Entry>)
    requires UniquePlaces(q) && forall e :: e in q <==> Kept(w, w.live, e)
    ensures var m := Matches(q, byId, byName);
            && (|m| == 1 ==> OnlyNamed(w, byId, byName, m[0]))
            && forall e :: OnlyNamed(w, byId, byName, e) ==> |m| == 1 && m[0] == e && e in q
  {
    FilterUniquePlaces((e: Entry) => Some(e.id) == byId || e.owner.name == byName, q);
    FilterMembers((e: Entry) => Some(e.id) == byId || e.owner.name == byName, q);
    var m := Matches(q, byId, byName);
    assert forall e :: e in m <==> Named(w, byId, byName, e);
    hide Kept, Matches, Named;
    if |m| > 0 { assert m[0] in m; }
    if |m| > 1 { assert m[1] in m && m[0] != m[1]; }
  }

  lemma RemovedIs(q: seq<Entry>, e: Entry)
    requires UniquePlaces(q) && e in q
    ensures forall o :: o in Removed(q, e) <==> o in q && o != e
  {
    RemovedIsFiltered(q, e);
    FilterMembers((o: Entry) => o.id != e.id, q);
    forall o | o in q && o.id == e.id ensures o == e {
      var j :| 0 <= j < |q| && q[j] == o;
      var k :| 0 <= k < |q| && q[k] == e;
    }
  }

  // ----- A look -----

  /** A look that takes and joins nothing keeps exactly the places that have not lapsed, its own as polled now; if it
      has none it gets the last one; and the hold stays. */
  lemma LookWaits(ws: seq<World>, steps: seq<Step>, i: nat)
    requires Run(ws, steps) && i < |steps| && steps[i].LookFor?
    requires ws[i + 1].started == ws[i].started
    requires steps[i].pid in ws[i + 1].procs && ws[i + 1].procs[steps[i].pid].client.role != Joined
    ensures steps[i].pid in ws[i].procs && ws[i + 1].procs[steps[i].pid].client.role == Queued
    ensures ws[i].procs[steps[i].pid].client.id.Some? && ws[i].procs[steps[i].pid].client.token.Some?
    ensures HoldStays(ws[i], ws[i].live, ws[i + 1].state.holder)
    ensures LogGoesOn(ws[i], ws[i].live, ws[i + 1].state.log, [])
    ensures Waiting(ws[i], ws[i].procs[steps[i].pid], steps[i].what, ws[i + 1].state.queue)
  {
    hide Prune, PlaceOf, Renewed, WithoutPlace, HoldStays, LogGoesOn, Kept, HoldAlive, UniquePlaces, Waiting;
    RunInv(ws, steps, i);
    PruneIs(ws[i], ws[i].live);
    WaitingValue(ws[i], steps[i].pid, steps[i].what, steps[i].stops);
    WaitingPlaces(ws[i], steps[i].pid, steps[i].what);
  }

  /** The queue of a look that waits. */
  function Queue(w: World, p: Proc, what: string): seq<Entry>
    requires p.client.id.Some? && p.client.token.Some?
  {
    var id := p.client.id.value;
    var q := Prune(w.state, w.live, w.now).queue;
    var own := Entry(id, p.owner, w.now, w.now, what, p.client.token.value);
    Renewed(q, PlaceOf(q, id), w.now) + if PlaceOf(q, id).None? then [own] else []
  }

  lemma WaitingValue(w: World, pid: nat, what: string, stops: bool)
    requires Enabled(w, LookFor(pid, what, stops))
    requires Next(w, LookFor(pid, what, stops)).procs[pid].client.role != Joined
    requires Next(w, LookFor(pid, what, stops)).started == w.started
    ensures var w', s := Next(w, LookFor(pid, what, stops)), Prune(w.state, w.live, w.now);
            && w'.procs[pid].client.role == Queued
            && w'.state == State(s.holder, Queue(w, w.procs[pid], what), s.log)
  {
    hide Prune, PlaceOf, Renewed, WithoutPlace, HoldAlive;
  }

  lemma WaitingPlaces(w: World, pid: nat, what: string)
    requires Inv(w) && pid in w.procs && w.procs[pid].client.id.Some? && w.procs[pid].client.token.Some?
    ensures Waiting(w, w.procs[pid], what, Queue(w, w.procs[pid], what))
  {
    var q, id := Prune(w.state, w.live, w.now).queue, w.procs[pid].client.id.value;
    PrunedUnique(w, w.live);
    hide Inv, Prune, Renewed, WithoutPlace, HoldStays, LogGoesOn, Kept, UniquePlaces;
    PruneIs(w, w.live);
    RenewedIs(q, id, w.now);
    assert PlaceOf(q, id).None? <==> forall o :: Kept(w, w.live, o) ==> o.id != id;
  }

  ghost predicate Waiting(w: World, p: Proc, what: string, q: seq<Entry>)
    requires p.client.id.Some? && p.client.token.Some?
  {
    var id := p.client.id.value;
    var own := Entry(id, p.owner, w.now, w.now, what, p.client.token.value);
    var queues := forall o :: Kept(w, w.live, o) ==> o.id != id;
    && (queues ==> |q| > 0 && q[|q| - 1] == own)
    && forall e :: e in q <==>
         (exists o :: Kept(w, w.live, o) && e == AfterPoll(o, id, w.now)) || (queues && e == own)
  }

  /** Taking the duo records a new hold of the looker's, without joins, in place of the old one, whose end is logged:
      taken over from another checkout, or taken back. The looker's place goes; no other that has not lapsed does. */
  lemma TakeRecords(ws: seq<World>, steps: seq<Step>, i: nat)
    requires Run(ws, steps) && i < |steps| && ws[i + 1].started != ws[i].started
    ensures steps[i].LookFor? && steps[i].pid in ws[i].procs
    ensures ws[i].procs[steps[i].pid].client.id.Some? && ws[i].procs[steps[i].pid].client.token.Some?
    ensures var w, t, p := ws[i], ws[i + 1].state, ws[i].procs[steps[i].pid];
            var id := p.client.id.value;
            && t.holder == Some(Hold(id, p.owner, w.now, steps[i].what, p.client.token.value, [], false, w.now))
            && (forall e :: e in t.queue <==> Kept(w, w.live, e) && e.id != id)
            && LogGoesOn(w, w.live, t.log,
                         if w.state.holder.None? then []
                         else [HoldEnded(w.state.holder.value.id,
                                         if Elsewhere(w, steps[i].pid) then TakenOver(p.owner.name) else TakenBack)])
  {
    hide Inv, Prune, WithoutPlace, Renewed, PlaceOf, HoldAlive, Kept, LogGoesOn, UniquePlaces;
    TakesOnlyDead(ws, steps, i);
    RunInv(ws, steps, i);
    var w, pid := ws[i], steps[i].pid;
    PruneIs(w, w.live);
    PrunedUnique(w, w.live);
    var s := Prune(w.state, w.live, w.now);
    TakenValue(w, pid, steps[i].what, steps[i].stops);
    RenewedIs(s.queue, w.procs[pid].client.id.value, w.now);
    WithoutIs(Renewed(s.queue, PlaceOf(s.queue, w.procs[pid].client.id.value), w.now), w.procs[pid].client.id.value);
    if w.state.holder.Some? {
      OneMoreLine(w, w.live, s.log, ws[i + 1].state.log[|ws[i + 1].state.log| - 1]);
    }
  }

  lemma TakenValue(w: World, pid: nat, what: string, stops: bool)
    requires Enabled(w, LookFor(pid, what, stops)) && Next(w, LookFor(pid, what, stops)).started != w.started
    ensures var p, s := w.procs[pid], Prune(w.state, w.live, w.now);
            var id := p.client.id.value;
            Next(w, LookFor(pid, what, stops)).state ==
              State(Some(Hold(id, p.owner, w.now, what, p.client.token.value, [], false, w.now)),
                    WithoutPlace(Renewed(s.queue, PlaceOf(s.queue, id), w.now), id),
                    if w.state.holder.None? then s.log
                    else s.log + [HoldEnded(w.state.holder.value.id,
                                            if Elsewhere(w, pid) then TakenOver(p.owner.name) else TakenBack)])
  {
    hide WithoutPlace, Renewed, PlaceOf, HoldAlive, KeptPlaces, LapseLines, LiveJoins;
  }

  lemma WithoutIs(q: seq<Entry>, id: nat)
    ensures forall e :: e in WithoutPlace(q, id) <==> e in q && e.id != id
  {
    FilterMembers((e: Entry) => e.id != id, q);
  }

  /** A look that waits tells the process's number in the queue, counted from 1; and stopping the games fails a look
      exactly if all else would let it take over another checkout's hold. */
  lemma LookTells(w: World, pid: nat, what: string, stops: bool)
    requires Inv(w) && Enabled(w, LookFor(pid, what, stops))
    ensures var p := w.procs[pid];
            var (t, _, look) := AcquireLook(w.state, w.live, w.now, p.client, p.owner, what, stops);
            && (look.Waiting? ==> 1 <= look.number <= |t.queue| && t.queue[look.number - 1].id == p.client.id.value)
            && (look.StopFailed? <==> HoldDead(w) && IsFirst(w, pid) && Elsewhere(w, pid) && !stops)
  {
    hide Inv, HoldAlive, HoldDead, PlaceOf, WithoutPlace, KeptPlaces, LapseLines, LiveJoins;
    DeadIff(w);
  }

  /** An id waits exactly while its place has not lapsed. */
  lemma WaitsIff(w: World, id: nat)
    ensures Waits(w, id) <==> exists e :: Kept(w, w.live, e) && e.id == id
  {
    FilterMembers((e: Entry) => KeepsPlace(e, w.live, w.now), w.state.queue);
  }

  // ----- A hold used, left, released, adopted -----

  /** A use renews the last use of its own checkout's hold, and of no other's. */
  lemma TouchIs(ws: seq<World>, steps: seq<Step>, i: nat)
    requires Run(ws, steps) && i < |steps| && steps[i].Touch?
    ensures steps[i].pid in ws[i].procs
    ensures var w, t := ws[i], ws[i + 1].state;
            && LogGoesOn(w, w.live, t.log, []) && (forall e :: e in t.queue <==> Kept(w, w.live, e))
            && if w.state.holder.Some? && !Elsewhere(w, steps[i].pid)
               then StaysAs(w, w.live, t.holder, w.state.holder.value.(lastUsed := w.now))
               else HoldStays(w, w.live, t.holder)
  {
    PruneIs(ws[i], ws[i].live);
    hide Prune, LogGoesOn, Kept;
  }

  /** Leaving gives up the process's own place and its own join, and nothing else. */
  lemma LeaveIs(ws: seq<World>, steps: seq<Step>, i: nat)
    requires Run(ws, steps) && i < |steps| && (steps[i].Leave? || steps[i].Release?)
    requires steps[i].pid in ws[i].procs ==> ws[i].procs[steps[i].pid].client.role != Holder
    ensures steps[i].pid in ws[i].procs
    ensures var w, t, me := ws[i], ws[i + 1].state, ws[i].procs[steps[i].pid].client;
            if me.role == Unset then t == w.state
            else
              && me.id.Some? && LogGoesOn(w, w.live, t.log, [])
              && (forall e :: e in t.queue <==> Kept(w, w.live, e) && e.id != me.id.value)
              && (t.holder.Some? <==> w.state.holder.Some?)
              && (t.holder.Some? ==> t.holder.value == w.state.holder.value.(joined := t.holder.value.joined))
              && (forall j :: j in Joins(t) <==> j in Joins(w.state) && j.token in w.live && j.id != me.id.value)
  {
    RunInv(ws, steps, i);
    var w, pid := ws[i], steps[i].pid;
    assert ProcOk(w, pid);
    PruneIs(w, w.live);
    var s := Prune(w.state, w.live, w.now);
    if w.procs[pid].client.id.Some? {
      WithoutIs(s.queue, w.procs[pid].client.id.value);
      FilterMembers((j: Join) => j.id != w.procs[pid].client.id.value, Joins(s));
    }
    hide Inv, Prune, LogGoesOn, Kept, WithoutPlace;
  }

  /** A release ends the recorded hold, and logs it, if and only if it has the process's own id. */
  lemma ReleaseIs(ws: seq<World>, steps: seq<Step>, i: nat)
    requires Run(ws, steps) && i < |steps| && steps[i].Release?
    requires steps[i].pid in ws[i].procs && ws[i].procs[steps[i].pid].client.role == Holder
    ensures ws[i].procs[steps[i].pid].client.id.Some?
    ensures var w, t, id := ws[i], ws[i + 1].state, ws[i].procs[steps[i].pid].client.id.value;
            && (forall e :: e in t.queue <==> Kept(w, w.live, e))
            && if IsHoldId(w.state, id)
               then t.holder.None? && LogGoesOn(w, w.live, t.log, [HoldEnded(id, Released(steps[i].summary))])
               else HoldStays(w, w.live, t.holder) && LogGoesOn(w, w.live, t.log, [])
  {
    RunInv(ws, steps, i);
    var w, pid := ws[i], steps[i].pid;
    assert ProcOk(w, pid);
    PruneIs(w, w.live);
    OneMoreLine(w, w.live, Prune(w.state, w.live, w.now).log,
                HoldEnded(w.procs[pid].client.id.value, Released(steps[i].summary)));
    hide Inv, Prune, LogGoesOn, Kept;
  }

  /** Releasing a checkout ends the recorded hold, and logs it, if and only if it is of that checkout and either dead,
      it and its joins, or a keeper's. */
  lemma CheckoutReleasedIff(ws: seq<World>, steps: seq<Step>, i: nat)
    requires Run(ws, steps) && i < |steps| && steps[i].ReleaseCheckout?
    ensures var w, t := ws[i], ws[i + 1].state;
            && (forall e :: e in t.queue <==> Kept(w, w.live, e))
            && if w.state.holder.Some? && w.state.holder.value.owner.worktree == steps[i].owner.worktree
                  && (HoldDead(w) || w.state.holder.value.keeper)
               then t.holder.None? && LogGoesOn(w, w.live, t.log,
                                                [HoldEnded(w.state.holder.value.id, CheckoutFreed(steps[i].summary))])
               else HoldStays(w, w.live, t.holder) && LogGoesOn(w, w.live, t.log, [])
  {
    var w := ws[i];
    DeadIff(w);
    PruneIs(w, w.live);
    if w.state.holder.Some? {
      OneMoreLine(w, w.live, Prune(w.state, w.live, w.now).log,
                  HoldEnded(w.state.holder.value.id, CheckoutFreed(steps[i].summary)));
    }
    hide Prune, LogGoesOn, Kept, HoldAlive, HoldDead;
  }

  /** A keeper takes the recorded hold over, under its own token and as used now, if and only if it is the one it was
      started for. */
  lemma AdoptIs(ws: seq<World>, steps: seq<Step>, i: nat)
    requires Run(ws, steps) && i < |steps| && steps[i].Adopt?
    ensures steps[i].keeper in ws[i].procs && ws[i].procs[steps[i].keeper].adopts.Some?
    ensures var w, t, live := ws[i], ws[i + 1].state, ws[i].live + {steps[i].token};
            && LogGoesOn(w, live, t.log, []) && (forall e :: e in t.queue <==> Kept(w, live, e))
            && if IsHoldId(w.state, w.procs[steps[i].keeper].adopts.value.0)
               then StaysAs(w, live, t.holder,
                            w.state.holder.value.(token := steps[i].token, keeper := true, lastUsed := w.now))
               else HoldStays(w, live, t.holder)
  {
    PruneIs(ws[i], ws[i].live + {steps[i].token});
    hide Prune, LogGoesOn, Kept;
  }
}
