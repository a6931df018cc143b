/** What the party panel promises over any run of updates. */
module PartyActivityProofs {
  import opened Basics
  import opened PartyActivity

  datatype Input = Input(members: seq<Member>, connected: bool, hud: bool, now: int)

  /** The panel after the first n updates. */
  function At(inputs: seq<Input>, n: nat): Panel
    requires n <= |inputs|
  {
    if n == 0 then NEW_PANEL
    else
      var u := inputs[n - 1];
      Updated(At(inputs, n - 1), u.members, u.connected, u.hud, u.now)
  }

  /** The update at i is a join, a departure or a significant change of health. */
  predicate NewsAt(inputs: seq<Input>, i: nat)
    requires i < |inputs|
  {
    Changed(At(inputs, i).previous, inputs[i].members)
  }

  /** Two samples of health that make no news: both known or neither, both none or neither, less than a thousandth
      apart. */
  predicate Close(was: real, current: real) {
    (was < 0.0 <==> current < 0.0) && (was == 0.0 <==> current == 0.0) && -0.001 < current - was < 0.001
  }

  lemma SignificantIff(was: real, current: real)
    ensures Significant(was, current) <==> !Close(was, current)
  {
  }

  // ----- Only names and health matter, in whatever order -----

  ghost predicate Distinct(members: seq<Member>) {
    forall i, j {:trigger members[i], members[j]} :: 0 <= i < j < |members| ==> members[i].name != members[j].name
  }

  /** A member but for the level, the color and the host's mark. */
  function Vitals(members: seq<Member>): (r: seq<(string, real)>)
    ensures |r| == |members| && forall i :: 0 <= i < |r| ==> r[i] == (members[i].name, members[i].health)
  {
    seq(|members|, i requires 0 <= i < |members| => (members[i].name, members[i].health))
  }

  /** The same people with the same health, in any order. */
  ghost predicate SameParty(a: seq<Member>, b: seq<Member>) {
    Distinct(a) && Distinct(b) && multiset(Vitals(a)) == multiset(Vitals(b))
  }

  function Health(members: seq<Member>, name: string): Option<real> {
    match Find(members, name)
    case None => None
    case Some(m) => Some(m.health)
  }

  ghost predicate SameHealth(a: seq<Member>, b: seq<Member>) {
    forall name :: Health(a, name) == Health(b, name)
  }

  lemma {:induction false} FoundIsIn(members: seq<Member>, name: string)
    ensures match Find(members, name)
            case None => forall m :: m in members ==> m.name != name
            case Some(m) => m in members && m.name == name
  {
    if members != [] {
      FoundIsIn(members[1..], name);
      assert forall m :: m in members ==> m == members[0] || m in members[1..];
    }
  }

  /** Of several of one name the first counts. */
  lemma {:induction false} FirstCounts(members: seq<Member>, i: nat)
    requires i < |members| && forall j :: 0 <= j < i ==> members[j].name != members[i].name
    ensures Find(members, members[i].name) == Some(members[i])
    decreases i
  {
    if i > 0 { FirstCounts(members[1..], i - 1); }
  }

  /** With distinct names a member is found by its name. */
  lemma FoundByName(members: seq<Member>, m: Member)
    requires Distinct(members) && m in members
    ensures Find(members, m.name) == Some(m)
  {
    FoundIsIn(members, m.name);
    var i :| 0 <= i < |members| && members[i] == m;
    var j :| 0 <= j < |members| && members[j] == Find(members, m.name).value;
    assert i == j;
  }

  /** A member's vitals are among those of the same party. */
  lemma AlsoIn(a: seq<Member>, b: seq<Member>, m: Member)
    requires SameParty(a, b) && m in a
    ensures Health(b, m.name) == Some(m.health)
  {
    var i :| 0 <= i < |a| && a[i] == m;
    assert Vitals(a)[i] in multiset(Vitals(a));
    assert (m.name, m.health) in multiset(Vitals(b));
    assert (m.name, m.health) in Vitals(b);
    var j :| 0 <= j < |b| && Vitals(b)[j] == (m.name, m.health);
    FoundByName(b, b[j]);
  }

  lemma SamePartySameHealth(a: seq<Member>, b: seq<Member>)
    requires SameParty(a, b)
    ensures SameHealth(a, b)
  {
    forall name ensures Health(a, name) == Health(b, name) {
      FoundIsIn(a, name);
      FoundIsIn(b, name);
      if Find(a, name).Some? {
        AlsoIn(a, b, Find(a, name).value);
      } else if Find(b, name).Some? {
        AlsoIn(b, a, Find(b, name).value);
      }
    }
  }

  /** News of a name, told from health alone. */
  predicate NewsOf(was: Option<real>, health: real) {
    was.None? || Significant(was.value, health)
  }

  lemma NewsIsOf(previous: seq<Member>, m: Member)
    ensures News(previous, m) <==> NewsOf(Health(previous, m.name), m.health)
    ensures Kept(previous, m).health == if NewsOf(Health(previous, m.name), m.health) then m.health
                                        else Health(previous, m.name).value
  {
  }

  lemma {:induction false} KeptFound(previous: seq<Member>, members: seq<Member>, name: string)
    ensures Find(KeptAll(previous, members), name)
         == match Find(members, name) case None => None case Some(m) => Some(Kept(previous, m))
  {
    if members != [] {
      KeptFound(previous, members[1..], name);
      assert KeptAll(previous, members)[1..] == KeptAll(previous, members[1..]);
    }
  }

  lemma KeptSame(pa: seq<Member>, pb: seq<Member>, a: seq<Member>, b: seq<Member>)
    requires SameHealth(pa, pb) && SameHealth(a, b)
    ensures SameHealth(KeptAll(pa, a), KeptAll(pb, b))
  {
    forall name ensures Health(KeptAll(pa, a), name) == Health(KeptAll(pb, b), name) {
      KeptFound(pa, a, name);
      KeptFound(pb, b, name);
      FoundIsIn(a, name);
      FoundIsIn(b, name);
      assert Health(a, name) == Health(b, name) && Health(pa, name) == Health(pb, name);
      if Find(a, name).Some? {
        NewsIsOf(pa, Find(a, name).value);
        NewsIsOf(pb, Find(b, name).value);
      }
    }
  }

  lemma ChangedAlso(pa: seq<Member>, pb: seq<Member>, a: seq<Member>, b: seq<Member>)
    requires SameHealth(pa, pb) && SameHealth(a, b) && Distinct(a) && Changed(pa, a)
    ensures Changed(pb, b)
  {
    if m :| m in a && News(pa, m) {
      FoundByName(a, m);
      assert Health(b, m.name) == Health(a, m.name) && Health(pa, m.name) == Health(pb, m.name);
      FoundIsIn(b, m.name);
      var other := Find(b, m.name).value;
      NewsIsOf(pa, m);
      NewsIsOf(pb, other);
    } else {
      var p :| p in pa && Find(a, p.name).None?;
      FoundIsIn(pa, p.name);
      assert Health(pa, p.name) == Health(pb, p.name) && Health(a, p.name) == Health(b, p.name);
      FoundIsIn(pb, p.name);
      var q := Find(pb, p.name).value;
      assert q in pb && Find(b, q.name).None?;
    }
  }

  /** Two runs fed the same people at the same times. */
  ghost predicate SameInputs(a: seq<Input>, b: seq<Input>) {
    && |a| == |b|
    && forall i {:trigger a[i]} {:trigger b[i]} :: 0 <= i < |a| ==>
         a[i].connected == b[i].connected && a[i].hud == b[i].hud && a[i].now == b[i].now &&
             SameParty(a[i].members, b[i].members)
  }

  /** Two runs of the panel fed the same people, in any order and whatever their levels, colors and host, are at every
      step as opaque, with the same samples of health. */
  lemma {:induction false} OrderDoesNotMatter(a: seq<Input>, b: seq<Input>, n: nat)
    requires SameInputs(a, b) && n <= |a|
    ensures At(a, n).opacity == At(b, n).opacity
    ensures SameHealth(At(a, n).previous, At(b, n).previous)
    ensures At(a, n).(previous := []) == At(b, n).(previous := [])
  {
    if n > 0 {
      OrderDoesNotMatter(a, b, n - 1);
      var u, v := a[n - 1], b[n - 1];
      var pa, pb := At(a, n - 1).previous, At(b, n - 1).previous;
      SamePartySameHealth(u.members, v.members);
      KeptSame(pa, pb, u.members, v.members);
      if Changed(pa, u.members) { ChangedAlso(pa, pb, u.members, v.members); }
      if Changed(pb, v.members) { ChangedAlso(pb, pa, v.members, u.members); }
    }
  }

  // ----- What is news -----

  /** Somebody is there now and was not, or was and is not, or has another health than was last noted of him. */
  ghost predicate Differs(previous: seq<Member>, members: seq<Member>, name: string) {
    match (Health(previous, name), Health(members, name))
    case (None, None) => false
    case (Some(was), Some(current)) => !Close(was, current)
    case _ => true
  }

  /** An update is news exactly if a member has joined, left, or changed in health since it was last noted. */
  lemma NewsIff(inputs: seq<Input>, i: nat)
    requires i < |inputs| && Distinct(inputs[i].members)
    ensures NewsAt(inputs, i) <==> exists name :: Differs(At(inputs, i).previous, inputs[i].members, name)
  {
    var previous, members := At(inputs, i).previous, inputs[i].members;
    if name :| Differs(previous, members, name) { DiffersIsNews(previous, members, name); }
    if NewsAt(inputs, i) { var name := NewsDiffers(previous, members); }
  }

  lemma DiffersIsNews(previous: seq<Member>, members: seq<Member>, name: string)
    requires Differs(previous, members, name)
    ensures Changed(previous, members)
  {
    hide Significant, Close;
    FoundIsIn(previous, name);
    FoundIsIn(members, name);
    if Find(members, name).Some? {
      var m := Find(members, name).value;
      if Find(previous, name).Some? { SignificantIff(Find(previous, name).value.health, m.health); }
      assert m in members && News(previous, m);
    } else {
      assert Find(previous, name).value in previous;
    }
  }

  lemma NewsDiffers(previous: seq<Member>, members: seq<Member>) returns (name: string)
    requires Distinct(members) && Changed(previous, members)
    ensures Differs(previous, members, name)
  {
    hide Significant, Close, Distinct;
    if m :| m in members && News(previous, m) {
      name := m.name;
      FoundByName(members, m);
      if Find(previous, name).Some? { SignificantIff(Find(previous, name).value.health, m.health); }
    } else {
      var p :| p in previous && Find(members, p.name).None?;
      name := p.name;
      FoundIsIn(previous, name);
    }
  }

  /** What is noted after an update: of whoever is there, the health now if he is new or it is news, else what was noted
      before; nothing while disconnected. */
  lemma NotedIs(inputs: seq<Input>, i: nat, name: string)
    requires i < |inputs|
    ensures var was, current := Health(At(inputs, i).previous, name), Health(inputs[i].members, name);
            Health(At(inputs, i + 1).previous, name)
            == if !inputs[i].connected || current.None? then None
               else if was.Some? && Close(was.value, current.value) then was
               else current
  {
    var previous, members := At(inputs, i).previous, inputs[i].members;
    FoundIsIn(members, name);
    KeptFound(previous, members, name);
    if Find(members, name).Some? {
      NewsIsOf(previous, Find(members, name).value);
      if Find(previous, name).Some? {
        SignificantIff(Find(previous, name).value.health, Find(members, name).value.health);
      }
    }
  }

  // ----- Activity is shown -----

  /** What is pending stays so while the HUD is hidden. */
  lemma {:induction false} StaysPending(inputs: seq<Input>, i: nat, j: nat)
    requires i <= j <= |inputs| && At(inputs, i).pending
    requires forall k {:trigger inputs[k]} :: i <= k < j ==> inputs[k].connected && !inputs[k].hud
    ensures At(inputs, j).pending
    decreases j
  {
    if i < j { StaysPending(inputs, i, j - 1); }
  }

  lemma PendingShows(p: Panel, members: seq<Member>, now: int)
    requires p.pending || Changed(p.previous, members)
    ensures var q := Updated(p, members, true, true, now);
            q.opacity == 1.0 && q.active && q.lastActivity == now
  {
    assert Fade(0) == 1.0;
  }

  /** After any join, departure or significant change of health, the first update that finds the HUD visible, with no
      disconnection before it, shows the panel in full. */
  lemma NewsIsShown(inputs: seq<Input>, i: nat, j: nat)
    requires i <= j < |inputs| && NewsAt(inputs, i) && inputs[j].hud
    requires forall k {:trigger inputs[k]} :: i <= k <= j ==> inputs[k].connected
    requires forall k {:trigger inputs[k]} :: i <= k < j ==> !inputs[k].hud
    ensures At(inputs, j + 1).opacity == 1.0
  {
    if i < j { StaysPending(inputs, i + 1, j); }
    PendingShows(At(inputs, j), inputs[j].members, inputs[j].now);
  }

  /** A notification cut short by a hidden HUD is shown in full when the HUD comes back. */
  lemma CutShortIsShownAgain(inputs: seq<Input>, i: nat, j: nat)
    requires i < j < |inputs| && inputs[j].hud
    requires At(inputs, i).active && inputs[i].now < At(inputs, i).lastActivity + SHOW + FADE
    requires forall k {:trigger inputs[k]} :: i <= k <= j ==> inputs[k].connected
    requires forall k {:trigger inputs[k]} :: i <= k < j ==> !inputs[k].hud
    ensures At(inputs, j + 1).opacity == 1.0
  {
    StaysPending(inputs, i + 1, j);
    PendingShows(At(inputs, j), inputs[j].members, inputs[j].now);
  }

  lemma FadedStays(a: int, b: int)
    requires a <= b && Fade(a) == 0.0
    ensures Fade(b) == 0.0
  {
    assert (a - SHOW) as real / FADE as real <= (b - SHOW) as real / FADE as real;
  }

  /** From the moment news is shown, while the HUD is visible and there is no more news, the opacity is a function of
      the time since: full for eight seconds and gone 400 ms later. */
  lemma {:induction false} FadesFrom(inputs: seq<Input>, i: nat, j: nat)
    requires i <= j < |inputs| && (At(inputs, i).pending || NewsAt(inputs, i))
    requires forall k {:trigger inputs[k]} :: i <= k <= j ==> inputs[k].connected && inputs[k].hud
    requires forall k: nat {:trigger NewsAt(inputs, k)} :: i < k <= j ==> !NewsAt(inputs, k)
    requires forall k, l {:trigger inputs[k], inputs[l]} :: i <= k <= l <= j ==> inputs[k].now <= inputs[l].now
    ensures var p := At(inputs, j + 1);
            p.opacity == Fade(inputs[j].now - inputs[i].now) && !p.pending && p.lastActivity == inputs[i].now
            && (p.active <==> p.opacity != 0.0)
    decreases j
  {
    if i == j {
      PendingShows(At(inputs, j), inputs[j].members, inputs[j].now);
      assert Fade(0) == 1.0;
    } else {
      FadesFrom(inputs, i, j - 1);
      assert !NewsAt(inputs, j);
      if !At(inputs, j).active {
        FadedStays(inputs[j - 1].now - inputs[i].now, inputs[j].now - inputs[i].now);
      }
    }
  }

  /** The fade: full up to eight seconds, gone from 8.4 on, and strictly between in between. */
  lemma FadeIs(since: int)
    ensures Fade(since) == 1.0 <==> since <= SHOW
    ensures Fade(since) == 0.0 <==> since >= SHOW + FADE
  {
    var over := (since - SHOW) as real;
    assert over / FADE as real * FADE as real == over;
  }

  /** With no news, activity or notification under way, the panel stays hidden. */
  lemma {:induction false} QuietStaysHidden(inputs: seq<Input>, i: nat, j: nat)
    requires i <= j <= |inputs| && !At(inputs, i).active && !At(inputs, i).pending && At(inputs, i).opacity == 0.0
    requires forall k: nat {:trigger NewsAt(inputs, k)} :: i <= k < j ==> !NewsAt(inputs, k) || !inputs[k].connected
    ensures !At(inputs, j).active && !At(inputs, j).pending && At(inputs, j).opacity == 0.0
    decreases j
  {
    if i < j {
      QuietStaysHidden(inputs, i, j - 1);
      assert !NewsAt(inputs, j - 1) || !inputs[j - 1].connected;
    }
  }

  /** Disconnected, or with the HUD hidden, the panel is not seen. */
  lemma HiddenIsClear(inputs: seq<Input>, i: nat)
    requires i < |inputs| && (!inputs[i].connected || !inputs[i].hud)
    ensures At(inputs, i + 1).opacity == 0.0
  {
  }

  lemma {:induction false} DisconnectedForgets(inputs: seq<Input>, i: nat, j: nat)
    requires i < j <= |inputs|
    requires forall k {:trigger inputs[k]} :: i <= k < j ==> !inputs[k].connected
    ensures At(inputs, j).(lastActivity := 0) == NEW_PANEL
    decreases j
  {
    if i + 1 < j { DisconnectedForgets(inputs, i, j - 1); }
  }

  /** After a disconnection everybody is new: the first connected update with a party, the HUD visible, shows the panel
      in full; without one it shows nothing. */
  lemma ReconnectedShows(inputs: seq<Input>, i: nat, j: nat)
    requires i < j < |inputs| && inputs[j].connected && inputs[j].hud
    requires forall k {:trigger inputs[k]} :: i <= k < j ==> !inputs[k].connected
    ensures At(inputs, j + 1).opacity == if inputs[j].members != [] then 1.0 else 0.0
  {
    DisconnectedForgets(inputs, i, j);
    if inputs[j].members != [] {
      var m := inputs[j].members[0];
      assert News([], m) && m in inputs[j].members;
      PendingShows(At(inputs, j), inputs[j].members, inputs[j].now);
    }
  }

  /** A notification that had run its time before the HUD was hidden is not shown again. */
  lemma {:induction false} NotShownTwice(inputs: seq<Input>, i: nat, j: nat)
    requires i <= j < |inputs| && !At(inputs, i).pending
    requires inputs[i].now >= At(inputs, i).lastActivity + SHOW + FADE
    requires forall k {:trigger inputs[k]} :: i <= k <= j ==> inputs[k].connected
    requires forall k: nat {:trigger NewsAt(inputs, k)} :: i <= k <= j ==> !NewsAt(inputs, k)
    requires forall k, l {:trigger inputs[k], inputs[l]} :: i <= k <= l <= j ==> inputs[k].now <= inputs[l].now
    ensures var p := At(inputs, j + 1);
            p.opacity == 0.0 && !p.pending && p.lastActivity == At(inputs, i).lastActivity
    decreases j
  {
    assert !NewsAt(inputs, j);
    if i < j { NotShownTwice(inputs, i, j - 1); }
    FadeIs(inputs[j].now - At(inputs, i).lastActivity);
  }

  /** In between it fades evenly, a 400th each millisecond. */
  lemma FadesEvenly(since: int)
    requires SHOW <= since < SHOW + FADE
    ensures Fade(since) - Fade(since + 1) == 1.0 / 400.0
  {
    var over := (since - SHOW) as real;
    assert over / FADE as real * FADE as real == over;
    assert (over + 1.0) / FADE as real == over / FADE as real + 1.0 / 400.0;
  }

  // ----- Small changes add up -----

  lemma KeptQuiet(previous: seq<Member>, members: seq<Member>)
    requires !Changed(previous, members)
    ensures SameHealth(previous, KeptAll(previous, members))
  {
    assert forall p :: p in previous ==> Find(members, p.name).Some?;
    forall name ensures Health(previous, name) == Health(KeptAll(previous, members), name) {
      KeptFound(previous, members, name);
      FoundIsIn(members, name);
      FoundIsIn(previous, name);
      if Find(members, name).Some? {
        var m := Find(members, name).value;
        assert !News(previous, m);
      }
    }
  }

  /** However many updates pass without news, each member's health is then not significantly changed from before the
      first of them: no drift, however slow, goes unnoticed once it adds up. */
  lemma {:induction false} NoDriftUnnoticed(inputs: seq<Input>, i: nat, j: nat, name: string)
    requires i < j <= |inputs|
    requires forall k {:trigger inputs[k]} :: i <= k < j ==> inputs[k].connected
    requires forall k: nat {:trigger NewsAt(inputs, k)} :: i <= k < j ==> !NewsAt(inputs, k)
    ensures SameHealth(At(inputs, i).previous, At(inputs, j).previous)
    ensures var was, current := Health(At(inputs, i).previous, name), Health(inputs[j - 1].members, name);
            if current.None? then was.None? else was.Some? && Close(was.value, current.value)
    decreases j
  {
    hide Significant, Close, Changed, Health;
    var before, members := At(inputs, j - 1).previous, inputs[j - 1].members;
    assert !NewsAt(inputs, j - 1);
    if i + 1 < j {
      NoDriftUnnoticed(inputs, i, j - 1, name);
    }
    KeptQuiet(before, members);
    assert Health(At(inputs, i).previous, name) == Health(before, name);
    QuietIsClose(before, members, name);
  }

  lemma QuietIsClose(before: seq<Member>, members: seq<Member>, name: string)
    requires !Changed(before, members)
    ensures var was, current := Health(before, name), Health(members, name);
            if current.None? then was.None? else was.Some? && Close(was.value, current.value)
  {
    hide Significant, Close;
    FoundIsIn(members, name);
    FoundIsIn(before, name);
    assert forall p :: p in before ==> Find(members, p.name).Some?;
    if Find(members, name).Some? {
      assert !News(before, Find(members, name).value);
      SignificantIff(Find(before, name).value.health, Find(members, name).value.health);
    }
  }
}
