/** Every process that uses the shared duo's lock, as one transition system: the critical sections of
    scripts/coop_harness/duo_lock.py interleave with new processes, deaths and the passing of time. */
module DuoWorld {
  import opened Basics
  import opened DuoProtocol

  /** Where a process is in a call that hands its hold, place or join over.
      Parking: inside `park`, its keeper started, waiting for "ready". LettingGo: its critical section is over (or it
      has read "ready"), and all that is left of the call is `_drop`. */
  datatype Phase = Free | Parking(keeper: nat) | LettingGo

  /** A process with one DuoLock object. `adopts`: for a keeper process, the hold it was started for and by whom. */
  datatype Proc = Proc(owner: Owner, client: Client, phase: Phase, adopts: Option<(nat, nat)>)

  /** A keeper killed by the process that had started it for its hold, whose `park` failed. */
  datatype Kill = Kill(keeper: nat, hold: Option<nat>, parent: nat)

  /** `said`: the keepers that have written "ready" into their pipe, where it can be read after their death.
      `killed`: the kills, which nobody waits for: a keeper dies some time later, and acts on until then.
      `started` and `handed` are records for the claims: the ids of the holds started so far, oldest first, and of those
      a keeper has adopted. The used pids, ids and tokens (with the process that made them) make the new ones fresh
      (a uuid, a kernel pid not yet waited for). */
  datatype World = World(state: State, live: set<nat>, now: int, procs: map<nat, Proc>, said: set<nat>,
                         killed: set<Kill>, started: seq<nat>, handed: set<nat>, pids: set<nat>, ids: map<nat, nat>,
                         tokens: map<nat, nat>)

  datatype Step =
    | Tick(elapsed: nat)
    | Spawn(pid: nat, owner: Owner)
    | Begin(pid: nat, token: nat, id: nat)               // acquire's own token and id
    | LookFor(pid: nat, what: string, stops: bool)       // one look of acquire
    | Poll(pid: nat)
    | DropByHand(byId: Option<nat>, byName: string)
    | Touch(pid: nat)
    | Leave(pid: nat)
    | Release(pid: nat, summary: string)
    | ReleaseCheckout(owner: Owner, summary: string)
    | Park(pid: nat, keeper: nat)
    | Adopt(keeper: nat, token: nat)
    | SayReady(keeper: nat)
    | Parked(pid: nat)                                   // "ready" read
    | ParkFailed(pid: nat)                               // the timeout, or the pipe's end
    | LetGo(pid: nat)                                    // _drop
    | Die(pid: nat)

  /** May act: alive and between calls. */
  predicate Ready(w: World, pid: nat) {
    pid in w.procs && w.procs[pid].phase == Free
  }

  predicate Enabled(w: World, step: Step) {
    match step
    case Tick(_) => true
    case Spawn(pid, _) => pid !in w.pids
    case Begin(pid, token, id) =>
      Ready(w, pid) && w.procs[pid].client == NOBODY && w.procs[pid].adopts.None? && token !in w.tokens && id !in w.ids
    case LookFor(pid, _, _) =>
      Ready(w, pid) && w.procs[pid].client.id.Some? && w.procs[pid].client.token.Some?
      && (w.procs[pid].client.role == Unset || w.procs[pid].client.role == Queued)
    case Poll(pid) => Ready(w, pid) && w.procs[pid].client.role == Queued && w.procs[pid].client.id.Some?
    case DropByHand(_, _) => true
    case Touch(pid) => Ready(w, pid)
    case Leave(pid) => Ready(w, pid) && w.procs[pid].adopts.None?
    case Release(pid, _) => Ready(w, pid) && (w.procs[pid].adopts.Some? ==> pid in w.said)
    case ReleaseCheckout(_, _) => true
    case Park(pid, keeper) =>
      Ready(w, pid) && w.procs[pid].client.role == Holder && w.procs[pid].client.id.Some?
      && w.procs[pid].adopts.None? && keeper !in w.pids
    case Adopt(keeper, token) =>
      Ready(w, keeper) && w.procs[keeper].adopts.Some? && w.procs[keeper].client == NOBODY && token !in w.tokens
    case SayReady(keeper) =>
      Ready(w, keeper) && w.procs[keeper].adopts.Some? && w.procs[keeper].client.role == Holder && keeper !in w.said
    case Parked(pid) => pid in w.procs && w.procs[pid].phase.Parking? && w.procs[pid].phase.keeper in w.said
    case ParkFailed(pid) => pid in w.procs && w.procs[pid].phase.Parking?
    case LetGo(pid) => pid in w.procs && w.procs[pid].phase == LettingGo
    case Die(pid) => pid in w.procs
  }

  function WithProc(w: World, pid: nat, proc: Proc): World {
    w.(procs := w.procs[pid := proc])
  }

  /** The process is gone and with it its flock. */
  function Gone(w: World, pid: nat): World
    requires pid in w.procs
  {
    w.(procs := w.procs - {pid}, live := w.live - TokenOf(w.procs[pid].client))
  }

  function TokenOf(c: Client): set<nat> {
    if c.token.Some? then {c.token.value} else {}
  }

  function Next(w: World, step: Step): World
    requires Enabled(w, step)
  {
    match step
    case Tick(elapsed) => w.(now := w.now + elapsed)
    case Spawn(pid, owner) =>
      WithProc(w, pid, Proc(owner, NOBODY, Free, None)).(pids := w.pids + {pid})
    case Begin(pid, token, id) =>
      WithProc(w, pid, w.procs[pid].(client := Client(Unset, Some(token), Some(id))))
      .(live := w.live + {token}, ids := w.ids[id := pid], tokens := w.tokens[token := pid])
    case LookFor(pid, what, stops) =>
      var p := w.procs[pid];
      var (state, client, look) := AcquireLook(w.state, w.live, w.now, p.client, p.owner, what, stops);
      WithProc(w, pid, p.(client := client))
      .(state := state, started := if look == Got(Holder) then w.started + [p.client.id.value] else w.started)
    case Poll(pid) => w.(state := PolledPlace(w.state, w.live, w.now, w.procs[pid].client.id.value).0)
    case DropByHand(byId, byName) => w.(state := DroppedByHand(w.state, w.live, w.now, byId, byName))
    case Touch(pid) => w.(state := Touched(w.state, w.live, w.now, w.procs[pid].owner))
    case Leave(pid) =>
      WithProc(w, pid, w.procs[pid].(phase := LettingGo)).(state := Left(w.state, w.live, w.now, w.procs[pid].client))
    case Release(pid, summary) =>
      WithProc(w, pid, w.procs[pid].(phase := LettingGo))
      .(state := AfterRelease(w.state, w.live, w.now, w.procs[pid].client, summary))
    case ReleaseCheckout(owner, summary) =>
      w.(state := CheckoutReleased(w.state, w.live, w.now, owner, summary).0)
    case Park(pid, keeper) =>
      var p := w.procs[pid];
      WithProc(WithProc(w, pid, p.(phase := Parking(keeper))), keeper,
               Proc(p.owner, NOBODY, Free, Some((p.client.id.value, pid)))).(pids := w.pids + {keeper})
    case Adopt(keeper, token) =>
      var k := w.procs[keeper];
      var hold := k.adopts.value.0;
      var (state, took) := Adopted(w.state, w.live + {token}, w.now, hold, token);
      var w1 := w.(state := state, tokens := w.tokens[token := keeper]);
      if took then
        WithProc(w1, keeper, k.(client := Client(Holder, Some(token), Some(hold))))
        .(live := w.live + {token}, handed := w.handed + {hold})
      else Gone(w1, keeper)                            // `keep` returns and its process ends
    case SayReady(keeper) => w.(said := w.said + {keeper})
    case Parked(pid) => WithProc(w, pid, w.procs[pid].(phase := LettingGo))
    case ParkFailed(pid) =>
      var p := w.procs[pid];
      WithProc(w, pid, p.(phase := Free)).(killed := w.killed + {Kill(p.phase.keeper, p.client.id, pid)})
    case LetGo(pid) =>
      WithProc(w, pid, w.procs[pid].(client := NOBODY, phase := Free)).(live := w.live - TokenOf(w.procs[pid].client))
    case Die(pid) => Gone(w, pid)
  }

  const INITIAL := World(State(None, [], []), {}, 0, map[], {}, {}, [], {}, {}, map[], map[])

  ghost predicate Run(ws: seq<World>, steps: seq<Step>) {
    && |ws| == |steps| + 1
    && ws[0] == INITIAL
    && forall i :: 0 <= i < |steps| ==> Enabled(ws[i], steps[i]) && ws[i + 1] == Next(ws[i], steps[i])
  }
}
