/** The protocol state of the shared duo's lock and what one look at it does, as functions on values
    (scripts/coop_harness/duo_lock.py). Each function is one critical section under the `duo.lock` mutex.
    Times are in milliseconds; `live` is the set of tokens whose flock is held. */
module DuoProtocol {
  import opened Basics

  /** COOP_DUO_QUEUE_STALE_MINUTES, its default of five minutes. */
  const QUEUE_STALE := 300_000

  datatype Owner = Owner(name: string, worktree: string)

  datatype Entry = Entry(id: nat, owner: Owner, since: int, polled: int, what: string, token: nat)

  datatype Join = Join(id: nat, what: string, token: nat)

  datatype Hold = Hold(id: nat, owner: Owner, since: int, what: string, token: nat, joined: seq<Join>, keeper: bool,
                       lastUsed: int)

  /** Why a hold ended: the four places that log one. */
  datatype End = TakenOver(taker: string) | TakenBack | Released(summary: string) | CheckoutFreed(summary: string)

  datatype LogLine = HoldEnded(id: nat, end: End) | PlaceLapsed(id: nat) | PlaceDropped(id: nat)

  /** duo.json, with every log line ever written to DUO.md. */
  datatype State = State(holder: Option<Hold>, queue: seq<Entry>, log: seq<LogLine>)

  datatype Role = Unset | Queued | Joined | Holder

  /** The fields of a DuoLock object. */
  datatype Client = Client(role: Role, token: Option<nat>, id: Option<nat>)

  /** What one look of `acquire` comes to. */
  datatype Look = Got(role: Role) | Waiting(number: nat) | StopFailed

  const NOBODY := Client(Unset, None, None)

  // ----- Pruning -----

  predicate KeepsPlace(e: Entry, live: set<nat>, now: int) {
    e.token in live && now - e.polled <= QUEUE_STALE
  }

  function KeptPlaces(q: seq<Entry>, live: set<nat>, now: int): seq<Entry> {
    Filter((e: Entry) => KeepsPlace(e, live, now), q)
  }

  /** A log line for each place whose process lives but has not polled for too long. */
  function LapseLines(q: seq<Entry>, live: set<nat>, now: int): (r: seq<LogLine>) {
    if q == [] then []
    else (if q[0].token in live && !KeepsPlace(q[0], live, now) then [PlaceLapsed(q[0].id)] else [])
         + LapseLines(q[1..], live, now)
  }

  function LiveJoins(joins: seq<Join>, live: set<nat>): seq<Join> {
    Filter((j: Join) => j.token in live, joins)
  }

  function Prune(s: State, live: set<nat>, now: int): State {
    State(if s.holder.Some? then Some(s.holder.value.(joined := LiveJoins(s.holder.value.joined, live))) else None,
          KeptPlaces(s.queue, live, now),
          s.log + LapseLines(s.queue, live, now))
  }

  // ----- The queue and the hold -----

  function PlaceOf(q: seq<Entry>, id: nat): (place: Option<nat>)
    ensures place.Some? ==> place.value < |q| && q[place.value].id == id
    ensures place.Some? ==> forall i :: 0 <= i < place.value ==> q[i].id != id
    ensures place.None? ==> forall i :: 0 <= i < |q| ==> q[i].id != id
  {
    if q == [] then None
    else if q[0].id == id then Some(0)
    else match PlaceOf(q[1..], id)
         case None => None
         case Some(i) => Some(i + 1)
  }

  function WithoutPlace(q: seq<Entry>, id: nat): seq<Entry> {
    Filter((e: Entry) => e.id != id, q)
  }

  function WithoutJoin(joins: seq<Join>, id: nat): seq<Join> {
    Filter((j: Join) => j.id != id, joins)
  }

  predicate HoldAlive(h: Hold, live: set<nat>) {
    h.token in live || exists j :: j in h.joined && j.token in live
  }

  /** Renews a place, if there is one. */
  function Renewed(q: seq<Entry>, place: Option<nat>, now: int): (r: seq<Entry>)
    requires place.Some? ==> place.value < |q|
  {
    if place.Some? then q[place.value := q[place.value].(polled := now)] else q
  }

  // ----- The operations -----

  /** One look of `acquire` by a process with a token: it joins its checkout's hold, takes the duo, or queues.
      `stops`: whether a stale holder's games would stop. */
  function AcquireLook(s0: State, live: set<nat>, now: int, me: Client, owner: Owner, what: string, stops: bool)
    : (r: (State, Client, Look))
    requires me.token.Some? && me.id.Some?
  {
    var s := Prune(s0, live, now);
    var id, token := me.id.value, me.token.value;
    var place := PlaceOf(s.queue, id);
    var queue := Renewed(s.queue, place, now);
    var held := s.holder.Some? && HoldAlive(s.holder.value, live);
    if held && s.holder.value.owner.worktree == owner.worktree then
      var joined := s.holder.value.joined + [Join(id, what, token)];
      (State(Some(s.holder.value.(joined := joined, lastUsed := now)), WithoutPlace(queue, id), s.log),
       me.(role := Joined), Got(Joined))
    else
      var first := !held && (place == Some(0) || (place.None? && queue == []));
      var foreign := s.holder.Some? && s.holder.value.owner.worktree != owner.worktree;
      if first && !(foreign && !stops) then
        var log := if s.holder.None? then s.log
                   else s.log + [HoldEnded(s.holder.value.id, if foreign then TakenOver(owner.name) else TakenBack)];
        (State(Some(Hold(id, owner, now, what, token, [], false, now)), WithoutPlace(queue, id), log),
         me.(role := Holder), Got(Holder))
      else
        var waiting := if place.None? then queue + [Entry(id, owner, now, now, what, token)] else queue;
        var number := if place.None? then |queue| + 1 else place.value + 1;
        (s.(queue := waiting), me.(role := Queued), if first then StopFailed else Waiting(number))
  }

  function PolledPlace(s0: State, live: set<nat>, now: int, id: nat): (r: (State, Option<nat>)) {
    var s := Prune(s0, live, now);
    var place := PlaceOf(s.queue, id);
    (s.(queue := Renewed(s.queue, place, now)), if place.Some? then Some(place.value + 1) else None)
  }

  function Matches(q: seq<Entry>, byId: Option<nat>, byName: string): seq<Entry> {
    Filter((e: Entry) => Some(e.id) == byId || e.owner.name == byName, q)
  }

  /** Python's list.remove: the queue without the first place equal to e. */
  function Removed(q: seq<Entry>, e: Entry): seq<Entry> {
    if q == [] then [] else if q[0] == e then q[1..] else [q[0]] + Removed(q[1..], e)
  }

  /** `drop_queued`: the argument is an id or a name; only a single match is dropped. */
  function DroppedByHand(s0: State, live: set<nat>, now: int, byId: Option<nat>, byName: string): (r: State) {
    var s := Prune(s0, live, now);
    var matches := Matches(s.queue, byId, byName);
    if |matches| == 1 then
      State(s.holder, Removed(s.queue, matches[0]), s.log + [PlaceDropped(matches[0].id)])
    else s
  }

  function Touched(s0: State, live: set<nat>, now: int, owner: Owner): (r: State) {
    var s := Prune(s0, live, now);
    if s.holder.Some? && s.holder.value.owner.worktree == owner.worktree then
      s.(holder := Some(s.holder.value.(lastUsed := now)))
    else s
  }

  function Left(s0: State, live: set<nat>, now: int, me: Client): (r: State) {
    if (me.role == Queued || me.role == Joined) && me.id.Some? then
      var s := Prune(s0, live, now);
      State(if s.holder.Some? then Some(s.holder.value.(joined := WithoutJoin(s.holder.value.joined, me.id.value)))
            else None,
            WithoutPlace(s.queue, me.id.value), s.log)
    else s0
  }

  function AfterRelease(s0: State, live: set<nat>, now: int, me: Client, summary: string): (r: State) {
    if me.role != Holder then Left(s0, live, now, me)
    else
      var s := Prune(s0, live, now);
      if s.holder.Some? && Some(s.holder.value.id) == me.id then
        State(None, s.queue, s.log + [HoldEnded(s.holder.value.id, Released(summary))])
      else s
  }

  function CheckoutReleased(s0: State, live: set<nat>, now: int, owner: Owner, summary: string): (r: (State, bool)) {
    var s := Prune(s0, live, now);
    if s.holder.None? || s.holder.value.owner.worktree != owner.worktree
       || (HoldAlive(s.holder.value, live) && !s.holder.value.keeper) then (s, false)
    else (State(None, s.queue, s.log + [HoldEnded(s.holder.value.id, CheckoutFreed(summary))]), true)
  }

  /** The keeper's side of `park`, with its own new token (already live). */
  function Adopted(s0: State, live: set<nat>, now: int, hold: nat, token: nat): (r: (State, bool)) {
    var s := Prune(s0, live, now);
    if s.holder.None? || s.holder.value.id != hold then (s, false)
    else (s.(holder := Some(s.holder.value.(token := token, keeper := true, lastUsed := now))), true)
  }

  /** The ids of the ended holds, in the order they ended. */
  function Ended(log: seq<LogLine>): seq<nat> {
    if log == [] then []
    else Ended(log[..|log| - 1]) + (match log[|log| - 1] case HoldEnded(id, _) => [id] case _ => [])
  }
}
