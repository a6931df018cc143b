/** The clock a game keeps in step with the host's (Code/network/SynchronizedClock.cpp), in exact arithmetic: times in
    nanoseconds, ticks in milliseconds, the time now an argument. */
module SynchronizedClock {

  const NS_PER_MS := 1_000_000
  const NS_PER_SECOND := 1_000_000_000
  const KEPT_SYNCS := 8

  /** Division of a duration's count, towards zero. */
  function TruncDiv(a: int, b: int): int
    requires b > 0
  {
    if a >= 0 then a / b else -((-a) / b)
  }

  /** One entry of what `Syncs` returns: the host's tick, the round trip time and how far the clock was off, all in
      milliseconds. Only syncs accepted by a clock already synchronized make one. */
  datatype Sync = Sync(serverTick: int, ping: nat, correctionMs: int)

  /** The clock's fields but its ring of syncs: `previous` and `delta` in nanoseconds. */
  datatype Clock = Clock(lastServerTick: nat, tick: int, previous: int, delta: int, syncedAt: int)

  function NewClock(now: int): Clock {
    Clock(0, 0, 0, 0, now)
  }

  predicate Accepts(c: Clock, serverTick: nat) {
    serverTick > c.lastServerTick
  }

  /** The host's time as a sync estimates it, in milliseconds. */
  function Estimate(serverTick: nat, ping: nat): int {
    serverTick + ping / 2
  }

  function Synchronized(c: Clock, serverTick: nat, ping: nat, now: int): (r: Clock) {
    if !Accepts(c, serverTick) then c
    else if c.tick != 0 then
      Clock(serverTick, c.tick, c.tick * NS_PER_MS, (Estimate(serverTick, ping) - c.tick) * NS_PER_MS, now)
    else
      Clock(serverTick, Estimate(serverTick, ping), Estimate(serverTick, ping) * NS_PER_MS, 0, now)
  }

  /** The correction so far: all of it from one second on, in proportion before. */
  function Correction(delta: int, elapsed: int): int {
    TruncDiv(delta * (if elapsed < NS_PER_SECOND then elapsed else NS_PER_SECOND), NS_PER_SECOND)
  }

  function TickAt(c: Clock, now: int): int {
    TruncDiv(c.previous + (now - c.syncedAt) + Correction(c.delta, now - c.syncedAt), NS_PER_MS)
  }

  function Updated(c: Clock, now: int): (r: Clock) {
    if c.tick == 0 then c else c.(tick := TickAt(c, now))
  }

  // ----- The object -----

  class SyncedClock {
    const syncs: array<Sync>
    var syncCount: nat
    var lastServerTick: nat
    var simulatedTick: int
    var previousSimulatedTick: int
    var tickDelta: int
    var lastSynchronizationTime: int

    /** Every sync recorded since the last reset, oldest first. */
    ghost var history: seq<Sync>

    ghost predicate Valid()
      reads this, syncs
    {
      && syncs.Length == KEPT_SYNCS && |history| == syncCount
      && forall k :: 0 <= k < syncCount && syncCount - KEPT_SYNCS <= k ==> syncs[k % KEPT_SYNCS] == history[k]
    }

    ghost function Value(): Clock
      reads this
    {
      Clock(lastServerTick, simulatedTick, previousSimulatedTick, tickDelta, lastSynchronizationTime)
    }

    constructor (now: int)
      ensures Valid() && fresh(syncs) && Value() == NewClock(now) && history == []
    {
      syncs := new Sync[KEPT_SYNCS](_ => Sync(0, 0, 0));
      syncCount, history := 0, [];
      lastServerTick, simulatedTick, previousSimulatedTick, tickDelta, lastSynchronizationTime := 0, 0, 0, 0, now;
    }

    method Synchronize(serverTick: nat, ping: nat, now: int)
      requires Valid()
      modifies this, syncs
      ensures Valid()
      ensures Value() == Synchronized(old(Value()), serverTick, ping, now)
      ensures history == if Accepts(old(Value()), serverTick) && old(simulatedTick) != 0
                         then old(history) + [Sync(serverTick, ping, serverTick + ping / 2 - old(simulatedTick))]
                         else old(history)
    {
      if serverTick <= lastServerTick { return; }
      lastServerTick := serverTick;
      var tripTime := ping / 2;
      lastSynchronizationTime := now;
      if simulatedTick != 0 {
        previousSimulatedTick := simulatedTick * NS_PER_MS;
        var estimatedServerTime := lastServerTick * NS_PER_MS + tripTime * NS_PER_MS;
        tickDelta := estimatedServerTime - previousSimulatedTick;
        var correctionMs := TruncDiv(tickDelta, NS_PER_MS);
        WholeMs(serverTick + tripTime - simulatedTick);
        var sync := Sync(serverTick, ping, correctionMs);
        RingSlots(syncCount);
        syncs[syncCount % KEPT_SYNCS] := sync;
        syncCount := syncCount + 1;
        history := history + [sync];
      } else {
        previousSimulatedTick := lastServerTick * NS_PER_MS + tripTime * NS_PER_MS;
        WholeMs(serverTick + tripTime);
        simulatedTick := TruncDiv(previousSimulatedTick, NS_PER_MS);
        tickDelta := 0;
      }
    }

    /** The last few syncs, oldest first. */
    method Syncs() returns (r: seq<Sync>)
      requires Valid()
      ensures r == if |history| <= KEPT_SYNCS then history else history[|history| - KEPT_SYNCS..]
    {
      var kept := if syncCount < KEPT_SYNCS then syncCount else KEPT_SYNCS;
      var first := syncCount - kept;
      r := [];
      var i := first;
      while i < syncCount
        invariant first <= i <= syncCount
        invariant r == history[first..i]
      {
        r := r + [syncs[i % KEPT_SYNCS]];
        i := i + 1;
      }
    }

    method Reset(now: int)
      requires Valid()
      modifies this
      ensures Valid() && Value() == NewClock(now) && history == []
    {
      syncCount, history := 0, [];
      lastServerTick, simulatedTick, previousSimulatedTick, tickDelta, lastSynchronizationTime := 0, 0, 0, 0, now;
    }

    method Update(now: int)
      modifies this`simulatedTick
      ensures Value() == Updated(old(Value()), now)
    {
      var delta := now - lastSynchronizationTime;
      if simulatedTick == 0 { return; }
      var serverTickEstimate := previousSimulatedTick + delta;
      var diff := TruncDiv(tickDelta * (if delta < NS_PER_SECOND then delta else NS_PER_SECOND), NS_PER_SECOND);
      simulatedTick := TruncDiv(serverTickEstimate + diff, NS_PER_MS);
    }
  }

  lemma WholeMs(ms: int)
    ensures TruncDiv(ms * NS_PER_MS, NS_PER_MS) == ms
  {
  }

  lemma OtherSlot(k: nat, n: nat)
    requires k < n < k + KEPT_SYNCS
    ensures k % KEPT_SYNCS != n % KEPT_SYNCS
  {
  }

  /** The seven syncs before the newest are in other slots. */
  lemma RingSlots(n: nat)
    ensures forall k :: 0 <= k < n && n + 1 - KEPT_SYNCS <= k ==> k % KEPT_SYNCS != n % KEPT_SYNCS
  {
    forall k: nat | k < n && n + 1 - KEPT_SYNCS <= k ensures k % KEPT_SYNCS != n % KEPT_SYNCS {
      OtherSlot(k, n);
    }
  }

  // ----- Any run of syncs, updates and resets on a clock that does not go back -----

  datatype Event = TakeSync(serverTick: nat, ping: nat) | DoUpdate | DoReset

  /** The clock, the time, and when its tick was last computed. */
  datatype World = World(clock: Clock, now: int, tickedAt: int)

  function Next(w: World, event: Event, now: int): World {
    match event
    case TakeSync(serverTick, ping) =>
      World(Synchronized(w.clock, serverTick, ping, now), now, if Accepts(w.clock, serverTick) then now else w.tickedAt)
    case DoUpdate => World(Updated(w.clock, now), now, now)
    case DoReset => World(NewClock(now), now, now)
  }

  ghost predicate Run(ws: seq<World>, events: seq<Event>) {
    && |ws| == |events| + 1
    && ws[0].clock == NewClock(ws[0].now) && ws[0].tickedAt == ws[0].now
    && forall i :: 0 <= i < |events| ==>
        ws[i].now <= ws[i + 1].now && ws[i + 1] == Next(ws[i], events[i], ws[i + 1].now)
  }

  /** A synchronized clock: its base and its target are at least a millisecond, and its tick is that of an earlier
      moment. */
  ghost predicate Inv(w: World) {
    && w.clock.syncedAt <= w.tickedAt <= w.now
    && (w.clock.tick != 0 ==>
          && w.clock.previous >= NS_PER_MS && w.clock.previous + w.clock.delta >= NS_PER_MS
          && w.clock.delta % NS_PER_MS == 0
          && w.clock.tick == TickAt(w.clock, w.tickedAt))
  }

  lemma ScaledBelow(d: nat, m: nat)
    requires m <= NS_PER_SECOND
    ensures d * m / NS_PER_SECOND <= d
  {
    assert d * m <= d * NS_PER_SECOND;
  }

  /** A corrected clock is never below the lower of its base and its target. */
  lemma TickPositive(c: Clock, now: int)
    requires now >= c.syncedAt && c.previous >= NS_PER_MS && c.previous + c.delta >= NS_PER_MS
    ensures TickAt(c, now) >= 1
  {
    var elapsed := now - c.syncedAt;
    var m := if elapsed < NS_PER_SECOND then elapsed else NS_PER_SECOND;
    if c.delta >= 0 {
      assert c.delta * m >= 0;
    } else {
      ScaledBelow(-c.delta, m);
      assert (-c.delta) * m == -(c.delta * m);
    }
    assert c.previous + elapsed + Correction(c.delta, elapsed) >= NS_PER_MS;
  }

  lemma TickAtSync(c: Clock)
    requires c.previous >= 0
    ensures TickAt(c, c.syncedAt) == c.previous / NS_PER_MS
  {
  }

  lemma NextKeepsInv(w: World, event: Event, now: int)
    requires Inv(w) && w.now <= now
    ensures Inv(Next(w, event, now))
    ensures w.clock.tick != 0 && !event.DoReset? ==> Next(w, event, now).clock.tick != 0
  {
    hide TickAt;
    if w.clock.tick != 0 { TickPositive(w.clock, w.tickedAt); }
    match event
    case TakeSync(serverTick, ping) =>
      if Accepts(w.clock, serverTick) { SyncIsOk(w.clock, serverTick, ping, now); }
    case DoUpdate =>
      if w.clock.tick != 0 {
        TickPositive(w.clock, now);
        TickOfSync(w.clock, TickAt(w.clock, now), now);
      }
    case DoReset =>
  }

  lemma TickOfSync(c: Clock, tick: int, now: int)
    ensures TickAt(c.(tick := tick), now) == TickAt(c, now)
  {
  }

  lemma SyncIsOk(c: Clock, serverTick: nat, ping: nat, now: int)
    requires Accepts(c, serverTick) && c.tick >= 0
    ensures var s := Synchronized(c, serverTick, ping, now);
            && s.previous >= NS_PER_MS && s.previous + s.delta >= NS_PER_MS && s.delta % NS_PER_MS == 0
            && s.tick != 0 && s.syncedAt == now && s.tick == TickAt(s, now)
  {
    var s := Synchronized(c, serverTick, ping, now);
    TickAtSync(s);
    WholeMs(s.tick);
  }

  lemma {:induction false} RunInv(ws: seq<World>, events: seq<Event>, i: nat)
    requires Run(ws, events) && i < |ws|
    ensures Inv(ws[i])
  {
    if i > 0 {
      RunInv(ws, events, i - 1);
      NextKeepsInv(ws[i - 1], events[i - 1], ws[i].now);
    }
  }

  /** Once synchronized, a clock stays so until it is reset, whatever the corrections; its tick is never negative. */
  lemma {:induction false} StaysSynchronized(ws: seq<World>, events: seq<Event>, i: nat, j: nat)
    requires Run(ws, events) && i <= j < |ws| && ws[i].clock.tick != 0
    requires forall k :: i <= k < j ==> !events[k].DoReset?
    ensures ws[j].clock.tick >= 1
    decreases j - i
  {
    RunInv(ws, events, j);
    if i < j {
      StaysSynchronized(ws, events, i, j - 1);
      RunInv(ws, events, j - 1);
      NextKeepsInv(ws[j - 1], events[j - 1], ws[j].now);
    }
    TickPositive(ws[j].clock, ws[j].tickedAt);
  }

  // ----- When the tick can go back -----

  lemma MsMonotone(a: int, b: int)
    requires a <= b
    ensures TruncDiv(a, NS_PER_MS) <= TruncDiv(b, NS_PER_MS)
  {
  }

  lemma SecondsMonotone(a: int, b: int)
    requires a <= b
    ensures TruncDiv(a, NS_PER_SECOND) <= TruncDiv(b, NS_PER_SECOND)
  {
  }

  lemma SecondsApart(a: nat, b: nat, growth: nat)
    requires b <= a + NS_PER_SECOND * growth
    ensures b / NS_PER_SECOND <= a / NS_PER_SECOND + growth
  {
  }

  /** A proportion of a correction of up to a second grows no faster than time. */
  lemma ScaledGrowth(d: nat, m: nat, n: nat)
    requires m <= n && d <= NS_PER_SECOND
    ensures d * n / NS_PER_SECOND <= d * m / NS_PER_SECOND + (n - m)
  {
    assert d * n == d * m + d * (n - m);
    assert d * (n - m) <= NS_PER_SECOND * (n - m);
    SecondsApart(d * m, d * n, n - m);
  }

  lemma CorrectionGrowth(delta: int, m: nat, n: nat)
    requires m <= n && delta >= -NS_PER_SECOND
    ensures TruncDiv(delta * m, NS_PER_SECOND) <= TruncDiv(delta * n, NS_PER_SECOND) + (n - m)
  {
    if delta >= 0 {
      assert delta * m <= delta * n;
      SecondsMonotone(delta * m, delta * n);
    } else {
      ScaledGrowth(-delta, m, n);
      Negated(delta, m);
      Negated(delta, n);
    }
  }

  lemma Negated(delta: int, m: nat)
    requires delta <= 0
    ensures TruncDiv(delta * m, NS_PER_SECOND) == -((-delta) * m / NS_PER_SECOND)
  {
    assert (-delta) * m == -(delta * m);
    assert delta * m <= 0;
  }

  /** Between two updates after a sync the tick does not go back, if the correction is at least minus one second. */
  lemma TickMonotone(c: Clock, u: int, v: int)
    requires c.syncedAt <= u <= v && c.delta >= -NS_PER_SECOND
    ensures TickAt(c, u) <= TickAt(c, v)
  {
    hide TruncDiv;
    var d, e := u - c.syncedAt, v - c.syncedAt;
    CorrectionGrowth(c.delta, if d < NS_PER_SECOND then d else NS_PER_SECOND,
                     if e < NS_PER_SECOND then e else NS_PER_SECOND);
    MsMonotone(c.previous + d + Correction(c.delta, d), c.previous + e + Correction(c.delta, e));
  }

  lemma MsApart(a: int, b: int)
    requires a <= b - NS_PER_MS && b >= NS_PER_MS
    ensures TruncDiv(a, NS_PER_MS) < TruncDiv(b, NS_PER_MS)
  {
  }

  lemma WholeMsBelow(delta: int)
    requires delta % NS_PER_MS == 0 && delta < -NS_PER_SECOND
    ensures delta <= -NS_PER_SECOND - NS_PER_MS
  {
    assert delta == NS_PER_MS * (delta / NS_PER_MS);
  }

  /** A reachable synchronized clock never goes back exactly if its correction is at least minus one second: with a
      lower one it has gone back one second after the sync. */
  lemma MonotoneIff(ws: seq<World>, events: seq<Event>, i: nat)
    requires Run(ws, events) && i < |ws| && ws[i].clock.tick != 0
    ensures ws[i].clock.delta >= -NS_PER_SECOND <==>
              forall u, v :: ws[i].clock.syncedAt <= u <= v ==> TickAt(ws[i].clock, u) <= TickAt(ws[i].clock, v)
  {
    RunInv(ws, events, i);
    var c := ws[i].clock;
    if c.delta >= -NS_PER_SECOND {
      forall u, v | c.syncedAt <= u <= v ensures TickAt(c, u) <= TickAt(c, v) { TickMonotone(c, u, v); }
    } else {
      GoesBack(c);
    }
  }

  /** Clocks that go back are reached: the host's tick 10000, twenty seconds without a sync, then its tick 10001, is a
      correction of about minus twenty seconds, and the update a second later is nineteen seconds back. */
  lemma GoesBackRun() returns (ws: seq<World>, events: seq<Event>)
    ensures Run(ws, events) && |events| == 4 && forall k :: 0 <= k < 4 ==> !events[k].DoReset?
    ensures ws[3].clock.tick != 0 && ws[3].clock.delta < -NS_PER_SECOND
    ensures ws[3].clock.tick == 30_000 && ws[4].clock.tick == 11_001
  {
    events := [TakeSync(10_000, 0), DoUpdate, TakeSync(10_001, 0), DoUpdate];
    var later := 20 * NS_PER_SECOND;
    var w0 := World(NewClock(0), 0, 0);
    var w1 := Next(w0, events[0], 0);
    var w2 := Next(w1, events[1], later);
    var w3 := Next(w2, events[2], later);
    var w4 := Next(w3, events[3], later + NS_PER_SECOND);
    ws := [w0, w1, w2, w3, w4];
  }

  lemma GoesBack(c: Clock)
    requires c.previous >= NS_PER_MS && c.delta % NS_PER_MS == 0 && c.delta < -NS_PER_SECOND
    ensures TickAt(c, c.syncedAt + NS_PER_SECOND) < TickAt(c, c.syncedAt)
  {
    WholeMsBelow(c.delta);
    WholeSecond(c.delta);
    MsApart(c.previous + NS_PER_SECOND + c.delta, c.previous);
  }

  lemma WholeSecond(delta: int)
    ensures TruncDiv(delta * NS_PER_SECOND, NS_PER_SECOND) == delta
  {
  }

  /** Over any run without a reset in which every correction is at least minus one second, the tick never goes back. */
  lemma {:induction false} NeverBack(ws: seq<World>, events: seq<Event>, i: nat, j: nat)
    requires Run(ws, events) && i <= j < |ws|
    requires forall k :: i <= k < j ==> !events[k].DoReset?
    requires forall k :: i <= k <= j ==> ws[k].clock.delta >= -NS_PER_SECOND
    ensures ws[i].clock.tick <= ws[j].clock.tick
    decreases j - i
  {
    if i < j {
      NeverBack(ws, events, i, j - 1);
      RunInv(ws, events, j - 1);
      NeverBackStep(ws[j - 1], events[j - 1], ws[j].now);
    }
  }

  lemma NeverBackStep(w: World, event: Event, now: int)
    requires Inv(w) && w.now <= now && !event.DoReset? && w.clock.delta >= -NS_PER_SECOND
    ensures w.clock.tick <= Next(w, event, now).clock.tick
  {
    if event.DoUpdate? && w.clock.tick != 0 {
      TickMonotone(w.clock, w.tickedAt, now);
    }
  }

  // ----- One second after a sync -----

  /** One second or more after a sync was accepted, with no other one accepted since, an update gives exactly the host's
      time then, half the ping and the time since. */
  lemma {:induction false} OneSecondLater(ws: seq<World>, events: seq<Event>, i: nat, j: nat)
    requires Run(ws, events) && i < j < |events|
    requires events[i].TakeSync? && Accepts(ws[i].clock, events[i].serverTick) && events[j].DoUpdate?
    requires forall k :: i < k < j ==>
        events[k].DoUpdate? || (events[k].TakeSync? && !Accepts(ws[k].clock, events[k].serverTick))
    requires ws[j + 1].now - ws[i + 1].now >= NS_PER_SECOND
    ensures ws[j + 1].clock.tick
         == events[i].serverTick + events[i].ping / 2 + (ws[j + 1].now - ws[i + 1].now) / NS_PER_MS
  {
    SameSync(ws, events, i, j);
    RunInv(ws, events, j);
    RunInv(ws, events, i);
    StaysSynchronized(ws, events, i + 1, j);
    var c := ws[j].clock;
    var elapsed := ws[j + 1].now - c.syncedAt;
    WholeSecond(c.delta);
    assert c.previous + c.delta == Estimate(events[i].serverTick, events[i].ping) * NS_PER_MS;
    SplitMs(Estimate(events[i].serverTick, events[i].ping), elapsed);
  }

  lemma SplitMs(ms: nat, elapsed: nat)
    ensures TruncDiv(ms * NS_PER_MS + elapsed, NS_PER_MS) == ms + elapsed / NS_PER_MS
  {
  }

  /** Between two accepted syncs only the tick changes. */
  lemma {:induction false} SameSync(ws: seq<World>, events: seq<Event>, i: nat, j: nat)
    requires Run(ws, events) && i < j < |ws|
    requires forall k :: i < k < j ==>
        events[k].DoUpdate? || (events[k].TakeSync? && !Accepts(ws[k].clock, events[k].serverTick))
    ensures ws[j].clock == ws[i + 1].clock.(tick := ws[j].clock.tick)
    decreases j - i
  {
    if i + 1 < j {
      SameSync(ws, events, i, j - 1);
      assert ws[j] == Next(ws[j - 1], events[j - 1], ws[j].now);
    }
  }

  /** The first accepted sync sets the tick to the host's and half the ping; later ones leave it where it is. */
  lemma SyncSets(ws: seq<World>, events: seq<Event>, i: nat)
    requires Run(ws, events) && i < |events| && events[i].TakeSync?
    ensures ws[i].clock.tick == 0 && events[i].serverTick > 0 ==>
              ws[i + 1].clock.tick == events[i].serverTick + events[i].ping / 2
    ensures ws[i].clock.tick != 0 || events[i].serverTick == 0 ==> ws[i + 1].clock.tick == ws[i].clock.tick
  {
    RunLast(ws, events, i);
  }

  /** Before a clock is synchronized it has accepted no tick. */
  lemma {:induction false} RunLast(ws: seq<World>, events: seq<Event>, i: nat)
    requires Run(ws, events) && i < |ws|
    ensures ws[i].clock.tick == 0 ==> ws[i].clock.lastServerTick == 0
  {
    if i > 0 {
      RunLast(ws, events, i - 1);
      RunInv(ws, events, i - 1);
      RunInv(ws, events, i);
      hide TickAt;
      if ws[i - 1].clock.tick != 0 && !events[i - 1].DoReset? {
        NextKeepsInv(ws[i - 1], events[i - 1], ws[i].now);
      }
    }
  }

  /** A host's tick heard before i and not forgotten by a reset since. */
  ghost predicate Heard(events: seq<Event>, i: nat, k: int)
    requires i <= |events|
  {
    0 <= k < i && events[k].TakeSync? && forall m :: k < m < i ==> !events[m].DoReset?
  }

  lemma {:induction false} LastIsHighest(ws: seq<World>, events: seq<Event>, i: nat)
    requires Run(ws, events) && i < |ws|
    ensures forall k {:trigger Heard(events, i, k)} :: Heard(events, i, k) ==>
              events[k].serverTick <= ws[i].clock.lastServerTick
    ensures var last := ws[i].clock.lastServerTick;
            last == 0 || exists k :: Heard(events, i, k) && events[k].serverTick == last
  {
    hide Updated, TickAt;
    if i > 0 {
      LastIsHighest(ws, events, i - 1);
      UpdateKeepsLast(ws[i - 1].clock, ws[i].now);
      forall k | Heard(events, i, k) ensures events[k].serverTick <= ws[i].clock.lastServerTick {
        assert k == i - 1 || Heard(events, i - 1, k);
      }
      if events[i - 1].TakeSync? && Accepts(ws[i - 1].clock, events[i - 1].serverTick) {
        assert Heard(events, i, i - 1);
      } else if ws[i].clock.lastServerTick != 0 {
        assert !events[i - 1].DoReset?;
        var k :| Heard(events, i - 1, k) && events[k].serverTick == ws[i].clock.lastServerTick;
        assert Heard(events, i, k);
      }
    }
  }

  lemma UpdateKeepsLast(c: Clock, now: int)
    ensures Updated(c, now).lastServerTick == c.lastServerTick
  {
    hide TickAt;
  }

  /** A sync counts if and only if its tick is not 0 and later than every one heard since the last reset; else the clock
      stays as it is. */
  lemma SyncCountsIff(ws: seq<World>, events: seq<Event>, i: nat)
    requires Run(ws, events) && i < |events| && events[i].TakeSync?
    ensures Accepts(ws[i].clock, events[i].serverTick)
       <==> events[i].serverTick > 0 && forall k :: Heard(events, i, k) ==> events[k].serverTick < events[i].serverTick
    ensures !Accepts(ws[i].clock, events[i].serverTick) ==> ws[i + 1].clock == ws[i].clock
  {
    LastIsHighest(ws, events, i);
  }

  lemma TruncNear(a: int, b: int)
    requires b > 0
    ensures -b < TruncDiv(a, b) * b - a < b
  {
    if a < 0 { assert (-a) / b * b == -(TruncDiv(a, b) * b); }
  }

  /** In the first second after a sync of a synchronized clock, with no other one accepted, an update's tick is what it
      was at the sync, the time since, and so much of the correction as has passed of the second, to within little more
      than a millisecond. */
  lemma MovesOverASecond(ws: seq<World>, events: seq<Event>, i: nat, j: nat)
    requires Run(ws, events) && i < j < |events|
    requires events[i].TakeSync? && Accepts(ws[i].clock, events[i].serverTick) && events[j].DoUpdate?
    requires ws[i].clock.tick != 0 && ws[j + 1].now - ws[i + 1].now <= NS_PER_SECOND
    requires forall k :: i < k < j ==>
        events[k].DoUpdate? || (events[k].TakeSync? && !Accepts(ws[k].clock, events[k].serverTick))
    ensures var elapsed := ws[j + 1].now - ws[i + 1].now;
            var correctionMs := events[i].serverTick + events[i].ping / 2 - ws[i].clock.tick;
            var exact := (ws[i].clock.tick * NS_PER_MS + elapsed) * NS_PER_SECOND + correctionMs * NS_PER_MS * elapsed;
            var told := ws[j + 1].clock.tick * NS_PER_MS * NS_PER_SECOND;
            -(NS_PER_MS + 1) * NS_PER_SECOND < told - exact < (NS_PER_MS + 1) * NS_PER_SECOND
  {
    SameSync(ws, events, i, j);
    RunInv(ws, events, j);
    RunInv(ws, events, i);
    StaysSynchronized(ws, events, i + 1, j);
    var c := ws[j].clock;
    var elapsed := ws[j + 1].now - c.syncedAt;
    NearExact(c, elapsed);
  }

  lemma NearExact(c: Clock, elapsed: int)
    requires 0 <= elapsed <= NS_PER_SECOND
    ensures var exact := (c.previous + elapsed) * NS_PER_SECOND + c.delta * elapsed;
            var told := TickAt(c, c.syncedAt + elapsed) * NS_PER_MS * NS_PER_SECOND;
            -(NS_PER_MS + 1) * NS_PER_SECOND < told - exact < (NS_PER_MS + 1) * NS_PER_SECOND
  {
    hide TruncDiv;
    var part := Correction(c.delta, elapsed);
    TruncNear(c.delta * elapsed, NS_PER_SECOND);
    TruncNear(c.previous + elapsed + part, NS_PER_MS);
  }
}
