/** The DuoLock objects themselves (scripts/coop_harness/duo_lock.py): methods that change the shared state and their
    own fields, each proved to do what DuoProtocol says. */
module DuoLocks {
  import opened Basics
  import opened DuoProtocol
  import opened DuoQueueFacts
  import opened DuoInvariant
  import opened DuoWorld

  /** duo.json, the tokens whose flock is held, and the clock: what every DuoLock object shares. */
  class Duo {
    var holder: Option<Hold>
    var queue: seq<Entry>
    var log: seq<LogLine>
    var live: set<nat>
    var now: int

    constructor ()
      ensures Value() == State(None, [], []) && live == {} && now == 0
    {
      holder, queue, log, live, now := None, [], [], {}, 0;
    }

    ghost function Value(): State
      reads this
    {
      State(holder, queue, log)
    }

    /** The start of every critical section: dead and lapsed places go, and dead joins. */
    method Prune()
      modifies this`holder, this`queue, this`log
      ensures Value() == DuoProtocol.Prune(old(Value()), live, now)
    {
      var kept, lines := [], [];
      var i := 0;
      assert queue[0..] == queue;
      while i < |queue|
        modifies {}
        invariant 0 <= i <= |queue|
        invariant kept + KeptPlaces(queue[i..], live, now) == KeptPlaces(queue, live, now)
        invariant lines + LapseLines(queue[i..], live, now) == LapseLines(queue, live, now)
      {
        PruneStep(kept, lines, queue, i, live, now);
        var lives := queue[i].token in live;
        if lives && now - queue[i].polled <= QUEUE_STALE {
          kept := kept + [queue[i]];
        } else if lives {
          lines := lines + [PlaceLapsed(queue[i].id)];
        }
        i := i + 1;
      }
      assert queue[i..] == [];
      queue, log := kept, log + lines;
      if holder.Some? {
        holder := Some(holder.value.(joined := LiveJoins(holder.value.joined, live)));
      }
    }
  }

  lemma PruneStep(kept: seq<Entry>, lines: seq<LogLine>, q: seq<Entry>, i: nat, live: set<nat>, now: int)
    requires i < |q|
    ensures kept + KeptPlaces(q[i..], live, now)
         == (if KeepsPlace(q[i], live, now) then kept + [q[i]] else kept) + KeptPlaces(q[i + 1..], live, now)
    ensures lines + LapseLines(q[i..], live, now)
         == (if q[i].token in live && !KeepsPlace(q[i], live, now) then lines + [PlaceLapsed(q[i].id)] else lines)
            + LapseLines(q[i + 1..], live, now)
  {
    assert q[i..] != [] && q[i..][0] == q[i] && q[i..][1..] == q[i + 1..];
    var p := (e: Entry) => KeepsPlace(e, live, now);
    assert Filter(p, q[i..]) == (if p(q[i]) then [q[i]] else []) + Filter(p, q[i + 1..]);
  }

  /** A look that ends waiting leaves the process in the queue. */
  lemma LookQueues(s0: State, live: set<nat>, now: int, me: Client, owner: Owner, what: string, stops: bool)
    requires me.token.Some? && me.id.Some?
    requires AcquireLook(s0, live, now, me, owner, what, stops).2.Waiting?
    ensures InQueue(AcquireLook(s0, live, now, me, owner, what, stops).0.queue, me.id.value)
  {
    var q := Prune(s0, live, now).queue;
    var place := PlaceOf(q, me.id.value);
    var t := AcquireLook(s0, live, now, me, owner, what, stops).0.queue;
    RenewedPlaces(q, place, now, me.id.value);
    InQueueByPlace(q, me.id.value);
    if place.None? { assert t[|t| - 1] in t; }
  }

  /** The stop path of a holder's checkout: whether its games stopped. */
  method StopGames() returns (stopped: bool) {
    stopped := *;
  }

  /** Between two looks at the state: other processes come, act and go, and time passes. A process's own flock stays. */
  method Others(duo: Duo, mine: nat)
    modifies duo
    ensures mine in old(duo.live) ==> mine in duo.live
  {
  }

  /** Starting a keeper and waiting for "ready", while all others act, the keeper too: whether "ready" was read. */
  method StartKeeper(duo: Duo, hold: nat, mine: nat) returns (ready: bool)
    modifies duo
    ensures mine in old(duo.live) ==> mine in duo.live
  {
    ready := *;
  }

  /** The keeper's look at whether its checkout's games run. */
  method GamesRunning() returns (running: bool) {
    running := *;
  }

  // ----- The keeper -----

  /** What one of the keeper's checks finds: the hold still its own, a live join, games running, and how long ago the
      hold was used. */
  datatype Check = Check(own: bool, joined: bool, games: bool, idle: int)

  function CheckOf(s: State, hold: nat, games: bool, now: int): Check {
    var own := s.holder.Some? && s.holder.value.id == hold;
    Check(own, own && s.holder.value.joined != [], games, if own then now - s.holder.value.lastUsed else 0)
  }

  lemma CheckFinds(s: State, live: set<nat>, now: int, hold: nat, games: bool)
    ensures CheckOf(Prune(s, live, now), hold, games, now)
         == var own := s.holder.Some? && s.holder.value.id == hold;
            Check(own, own && LiveJoins(s.holder.value.joined, live) != [], games,
                  if own then now - s.holder.value.lastUsed else 0)
  {
  }

  /** How many checks, up to the last, found neither a join nor games. */
  function Quiet(seen: seq<Check>): nat {
    if seen == [] || seen[|seen| - 1].joined || seen[|seen| - 1].games then 0 else 1 + Quiet(seen[..|seen| - 1])
  }

  /** Its games have been unused for too long. */
  predicate Idles(seen: seq<Check>, idleLimit: int) {
    seen != [] && var c := seen[|seen| - 1]; c.own && !c.joined && c.games && c.idle > idleLimit
  }

  /** Its games have ended: two checks in a row found none, and no join. */
  predicate GamesEnded(seen: seq<Check>) {
    seen != [] && seen[|seen| - 1].own && Quiet(seen) >= 2
  }

  /** The keeper ends after these checks, without being stopped. */
  predicate KeeperEnds(seen: seq<Check>, idleLimit: int) {
    (seen != [] && !seen[|seen| - 1].own) || Idles(seen, idleLimit) || GamesEnded(seen)
  }

  function KeeperSummary(seen: seq<Check>, idleLimit: int): string {
    if Idles(seen, idleLimit) then "Idle"
    else if GamesEnded(seen) then "Its games ended; keeper freed it"
    else "Stopped; keeper freed it"
  }

  lemma NextCheck(seen: seq<Check>, c: Check)
    ensures Quiet(seen + [c]) == if c.joined || c.games then 0 else 1 + Quiet(seen)
    ensures forall k :: 0 <= k < |seen| ==> (seen + [c])[..k] == seen[..k]
    ensures (seen + [c])[..|seen|] == seen && (seen + [c])[|seen|] == c
  {
  }

  /** Whether the keeper must end after one more check. */
  lemma EndsAfter(seen: seq<Check>, c: Check, idleLimit: int)
    ensures Idles(seen + [c], idleLimit) <==> c.own && !c.joined && c.games && c.idle > idleLimit
    ensures GamesEnded(seen + [c]) <==> c.own && Quiet(seen + [c]) >= 2
    ensures KeeperEnds(seen + [c], idleLimit) <==> !c.own || Idles(seen + [c], idleLimit) || GamesEnded(seen + [c])
    ensures KeeperSummary(seen + [c], idleLimit)
         == if Idles(seen + [c], idleLimit) then "Idle"
            else if GamesEnded(seen + [c]) then "Its games ended; keeper freed it"
            else "Stopped; keeper freed it"
  {
    hide Quiet;
  }

  lemma NoChecks(idleLimit: int)
    ensures Quiet([]) == 0 && !KeeperEnds([], idleLimit) && KeeperSummary([], idleLimit) == "Stopped; keeper freed it"
  {
  }

  lemma NotBefore(seen: seq<Check>, c: Check, idleLimit: int)
    requires !KeeperEnds(seen, idleLimit) && forall k :: 0 <= k < |seen| ==> !KeeperEnds(seen[..k], idleLimit)
    ensures forall k :: 0 <= k < |seen + [c]| ==> !KeeperEnds((seen + [c])[..k], idleLimit)
  {
    hide KeeperEnds;
    NextCheck(seen, c);
    forall k | 0 <= k < |seen + [c]| ensures !KeeperEnds((seen + [c])[..k], idleLimit) {
      if k < |seen| { assert (seen + [c])[..k] == seen[..k]; }
    }
  }

  class DuoLock {
    const duo: Duo
    const owner: Owner
    var token: Option<nat>
    var role: Role
    var id: Option<nat>

    constructor (duo: Duo, owner: Owner)
      ensures this.duo == duo && this.owner == owner && Me() == NOBODY
    {
      this.duo, this.owner := duo, owner;
      token, role, id := None, Unset, None;
    }

    ghost function Me(): Client
      reads this
    {
      Client(role, token, id)
    }

    /** One look of `acquire`, with a token. */
    method Look(what: string) returns (look: Look, ghost stops: bool)
      requires token.Some? && id.Some?
      modifies this`role, duo`holder, duo`queue, duo`log
      ensures (duo.Value(), Me(), look) ==
          AcquireLook(old(duo.Value()), duo.live, duo.now, old(Me()), owner, what, stops)
    {
      stops := true;
      duo.Prune();
      var place := PlaceOf(duo.queue, id.value);
      if place.Some? {
        duo.queue := duo.queue[place.value := duo.queue[place.value].(polled := duo.now)];
      }
      var held := duo.holder.Some? && HoldAlive(duo.holder.value, duo.live);
      if held && duo.holder.value.owner.worktree == owner.worktree {
        duo.queue := WithoutPlace(duo.queue, id.value);
        duo.holder := Some(duo.holder.value.(joined := duo.holder.value.joined + [Join(id.value, what, token.value)],
                                             lastUsed := duo.now));
        role := Joined;
        return Got(Joined), stops;
      }
      var failure := false;
      if !held && (place == Some(0) || (place.None? && duo.queue == [])) {
        if duo.holder.Some? && duo.holder.value.owner.worktree != owner.worktree {
          var stopped := StopGames();
          stops := stopped;
          if stopped {
            duo.log := duo.log + [HoldEnded(duo.holder.value.id, TakenOver(owner.name))];
          } else {
            failure := true;
          }
        } else if duo.holder.Some? {
          duo.log := duo.log + [HoldEnded(duo.holder.value.id, TakenBack)];
        }
        if !failure {
          duo.queue := WithoutPlace(duo.queue, id.value);
          duo.holder := Some(Hold(id.value, owner, duo.now, what, token.value, [], false, duo.now));
          role := Holder;
          return Got(Holder), stops;
        }
      }
      var number;
      if place.None? {
        duo.queue := duo.queue + [Entry(id.value, owner, duo.now, duo.now, what, token.value)];
        number := |duo.queue|;
      } else {
        number := place.value + 1;
      }
      role := Queued;
      look := if failure then StopFailed else Waiting(number);
    }

    /** Waits for the duo, for so many looks; one that has it already only touches it. `newToken` and `newId`: what
        Token() and uuid4() give, when they are needed. */
    method Acquire(what: string, looks: nat, keepPlace: bool, newToken: nat, newId: nat) returns (got: Option<Role>)
      requires token.Some? <==> id.Some?
      modifies this, duo
      ensures got.Some? ==> got.value == role && (role == Holder || role == Joined)
      ensures old(role) == Holder || old(role) == Joined ==>
                got == Some(old(role)) && Me() == old(Me()) && duo.live == old(duo.live) && duo.now == old(duo.now)
                && duo.Value() == Touched(old(duo.Value()), duo.live, duo.now, owner)
      ensures old(role) != Holder && old(role) != Joined ==>
                && (got == Some(Holder) ==> HoldIs(duo.Value(), Me()))
                && (got == Some(Joined) ==>
                      token.Some? && id.Some? && duo.holder.Some?
                      && duo.holder.value.owner.worktree == owner.worktree
                      && Join(id.value, what, token.value) in duo.holder.value.joined)
                && (got.None? ==>
                    Me() == NOBODY || (keepPlace && role == Queued && id.Some? && InQueue(duo.queue, id.value)))
    {
      if role == Holder || role == Joined {
        Touch();
        return Some(role);
      }
      if token.None? {
        token, id := Some(newToken), Some(newId);
        duo.live := duo.live + {newToken};
      }
      var left := looks;
      while true
        invariant token.Some? && id.Some? && (role == Unset || role == Queued)
        decreases left
      {
        ghost var before, live, now, me := duo.Value(), duo.live, duo.now, Me();
        var look, stops := Look(what);
        match look {
          case Got(r) => return Some(r);
          case StopFailed =>
            Leave();
            return None;
          case Waiting(_) =>
            if left == 0 {
              if keepPlace {
                LookQueues(before, live, now, me, owner, what, stops);
              } else {
                Leave();
              }
              return None;
            }
        }
        Others(duo, token.value);
        left := left - 1;
      }
    }

    /** Its number in the queue, None if it has none. */
    method PollPlace() returns (number: Option<nat>)
      requires role == Queued ==> id.Some?
      modifies duo`holder, duo`queue, duo`log
      ensures role != Queued ==> number.None? && duo.Value() == old(duo.Value())
      ensures role == Queued ==>
                (duo.Value(), number) == PolledPlace(old(duo.Value()), duo.live, duo.now, id.value)
    {
      if role != Queued { return None; }
      duo.Prune();
      var place := PlaceOf(duo.queue, id.value);
      if place.None? { return None; }
      duo.queue := duo.queue[place.value := duo.queue[place.value].(polled := duo.now)];
      return Some(place.value + 1);
    }

    method DropQueued(byId: Option<nat>, byName: string) returns (matches: seq<Entry>)
      modifies duo`holder, duo`queue, duo`log
      ensures matches == Matches(DuoProtocol.Prune(old(duo.Value()), duo.live, duo.now).queue, byId, byName)
      ensures duo.Value() == DroppedByHand(old(duo.Value()), duo.live, duo.now, byId, byName)
    {
      duo.Prune();
      matches := Matches(duo.queue, byId, byName);
      if |matches| == 1 {
        duo.queue := Removed(duo.queue, matches[0]);
        duo.log := duo.log + [PlaceDropped(matches[0].id)];
      }
    }

    method Touch()
      modifies duo`holder, duo`queue, duo`log
      ensures duo.Value() == Touched(old(duo.Value()), duo.live, duo.now, owner)
    {
      duo.Prune();
      if duo.holder.Some? && duo.holder.value.owner.worktree == owner.worktree {
        duo.holder := Some(duo.holder.value.(lastUsed := duo.now));
      }
    }

    method Leave()
      modifies this, duo
      ensures duo.Value() == Left(old(duo.Value()), old(duo.live), old(duo.now), old(Me()))
      ensures Me() == NOBODY && duo.now == old(duo.now) && duo.live == old(duo.live) - TokenOf(old(Me()))
    {
      if (role == Queued || role == Joined) && id.Some? {
        duo.Prune();
        duo.queue := WithoutPlace(duo.queue, id.value);
        if duo.holder.Some? {
          duo.holder := Some(duo.holder.value.(joined := WithoutJoin(duo.holder.value.joined, id.value)));
        }
      }
      Drop();
    }

    method Release(summary: string)
      modifies this, duo
      ensures duo.Value() == AfterRelease(old(duo.Value()), old(duo.live), old(duo.now), old(Me()), summary)
      ensures Me() == NOBODY && duo.now == old(duo.now) && duo.live == old(duo.live) - TokenOf(old(Me()))
    {
      if role != Holder {
        Leave();
        return;
      }
      duo.Prune();
      if duo.holder.Some? && Some(duo.holder.value.id) == id {
        duo.log := duo.log + [HoldEnded(duo.holder.value.id, Released(summary))];
        duo.holder := None;
      }
      Drop();
    }

    /** True when it freed a keeper's hold or a stale one. `signalled`: the token whose process it then tells to end. */
    method ReleaseCheckout(summary: string) returns (freed: bool, signalled: Option<nat>)
      modifies duo`holder, duo`queue, duo`log
      ensures (duo.Value(), freed) == CheckoutReleased(old(duo.Value()), duo.live, duo.now, owner, summary)
      ensures var holder := DuoProtocol.Prune(old(duo.Value()), duo.live, duo.now).holder;
              signalled ==
                if freed && holder.value.keeper && holder.value.token in duo.live then Some(holder.value.token)
                else None
    {
      duo.Prune();
      if duo.holder.None? || duo.holder.value.owner.worktree != owner.worktree
         || (HoldAlive(duo.holder.value, duo.live) && !duo.holder.value.keeper) {
        return false, None;
      }
      var freedHold := duo.holder.value;
      duo.log := duo.log + [HoldEnded(freedHold.id, CheckoutFreed(summary))];
      duo.holder := None;
      return true, if freedHold.keeper && freedHold.token in duo.live then Some(freedHold.token) else None;
    }

    /** The keeper's side of `park`. */
    method Adopt(hold: nat, newToken: nat) returns (took: bool)
      requires newToken !in duo.live && Me() == NOBODY
      modifies this, duo
      ensures (duo.Value(), took) == Adopted(old(duo.Value()), old(duo.live) + {newToken}, old(duo.now), hold, newToken)
      ensures took ==> Me() == Client(Holder, Some(newToken), Some(hold)) && duo.live == old(duo.live) + {newToken}
      ensures !took ==> Me() == NOBODY && duo.live == old(duo.live)
      ensures duo.now == old(duo.now)
    {
      duo.live := duo.live + {newToken};
      duo.Prune();
      if duo.holder.None? || duo.holder.value.id != hold {
        duo.live := duo.live - {newToken};
        return false;
      }
      duo.holder := Some(duo.holder.value.(token := newToken, keeper := true, lastUsed := duo.now));
      token, id, role := Some(newToken), Some(hold), Holder;
      return true;
    }

    /** Hands the hold to a keeper: exactly if "ready" is read it lets go of everything. */
    method Park() returns (parked: bool)
      requires role == Holder ==> token.Some? && id.Some?
      modifies this, duo
      ensures parked ==> old(role) == Holder && Me() == NOBODY && duo.live !! TokenOf(old(Me()))
      ensures !parked ==> Me() == old(Me())
      ensures !parked && role == Holder && token.value in old(duo.live) ==> token.value in duo.live
      ensures old(role) != Holder ==>
          duo.Value() == old(duo.Value()) && duo.live == old(duo.live) && duo.now == old(duo.now)
    {
      if role != Holder { return false; }
      var ready := StartKeeper(duo, id.value, token.value);
      if !ready { return false; }
      Drop();
      return true;
    }

    /** The keeper's life: it adopts the hold, then checks until it is stopped (after so many checks) or ends by itself,
        at the first check after which it must, and then releases. `seen`, `before`, `live` and `now`: what its checks
        found and what its release found. */
    method Keep(hold: nat, newToken: nat, checks: nat, idleLimit: int)
      returns (kept: bool, ghost seen: seq<Check>, ghost before: State, ghost live: set<nat>, ghost now: int)
      requires newToken !in duo.live && Me() == NOBODY
      modifies this, duo
      ensures kept == Adopted(old(duo.Value()), old(duo.live) + {newToken}, old(duo.now), hold, newToken).1
      ensures Me() == NOBODY
      ensures !kept ==> duo.live == old(duo.live)
      ensures !kept ==>
          duo.Value() == Adopted(old(duo.Value()), old(duo.live) + {newToken}, old(duo.now), hold, newToken).0
      ensures kept ==>
                && (forall k :: 0 <= k < |seen| ==> !KeeperEnds(seen[..k], idleLimit))
                && (|seen| == checks || KeeperEnds(seen, idleLimit))
                && duo.Value() == AfterRelease(before, live, now, Client(Holder, Some(newToken), Some(hold)),
                                               KeeperSummary(seen, idleLimit))
                && duo.live == live - {newToken} && duo.now == now
    {
      hide DuoProtocol.Prune, Quiet, KeeperEnds, KeeperSummary, Idles, GamesEnded, Adopted, AfterRelease, LiveJoins;
      kept := Adopt(hold, newToken);
      seen, before, live, now := [], duo.Value(), duo.live, duo.now;
      if !kept { return; }
      NoChecks(idleLimit);
      var quiet: nat := 0;
      var summary := "Stopped; keeper freed it";
      var left := checks;
      while left > 0
        invariant Me() == Client(Holder, Some(newToken), Some(hold))
        invariant left >= 0 && left + |seen| == checks && quiet == Quiet(seen) && !KeeperEnds(seen, idleLimit)
        invariant summary == KeeperSummary(seen, idleLimit)
        invariant forall k :: 0 <= k < |seen| ==> !KeeperEnds(seen[..k], idleLimit)
        decreases left
      {
        Others(duo, newToken);
        left := left - 1;
        var own := duo.holder.Some? && duo.holder.value.id == hold;
        var joined := own && LiveJoins(duo.holder.value.joined, duo.live) != [];
        var idle := if own then duo.now - duo.holder.value.lastUsed else 0;
        var games := false;
        if own && !joined {
          games := GamesRunning();
        }
        quiet := if joined || games then 0 else quiet + 1;
        ghost var c := CheckOf(DuoProtocol.Prune(duo.Value(), duo.live, duo.now), hold, games, duo.now);
        CheckFinds(duo.Value(), duo.live, duo.now, hold, games);
        NextCheck(seen, c);
        EndsAfter(seen, c, idleLimit);
        NotBefore(seen, c, idleLimit);
        seen := seen + [c];
        if !own {
          break;
        }
        if games && idle > idleLimit {
          summary := "Idle";
          break;
        }
        if quiet >= 2 {
          summary := "Its games ended; keeper freed it";
          break;
        }
      }
      Others(duo, newToken);
      before, live, now := duo.Value(), duo.live, duo.now;
      Release(summary);
    }

    method Drop()
      modifies this`token, this`role, this`id, duo`live
      ensures Me() == NOBODY && duo.now == old(duo.now) && duo.live == old(duo.live) - TokenOf(old(Me()))
    {
      if token.Some? {
        duo.live := duo.live - {token.value};
      }
      token, role, id := None, Unset, None;
    }
  }
}
