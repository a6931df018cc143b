/** When the party panel shows (Code/ui_models/PartyActivity.cpp), in exact arithmetic: times in milliseconds, health
    and opacity real. */
module PartyActivity {
  import opened Basics

  const SHOW := 8000
  const FADE := 400

  datatype Member = Member(name: string, host: bool, level: int, health: real, color: string)

  /** A change of health that shows the panel: to or from none, or unknown, or of a thousandth. */
  predicate Significant(before: real, after: real) {
    || (before < 0.0) != (after < 0.0) || (before == 0.0) != (after == 0.0)
    || (if before >= after then before - after else after - before) >= 0.001
  }

  /** The first member of that name. */
  function Find(members: seq<Member>, name: string): Option<Member> {
    if members == [] then None
    else if members[0].name == name then Some(members[0])
    else Find(members[1..], name)
  }

  /** Joined, or with a significant change of health. */
  predicate News(previous: seq<Member>, m: Member) {
    match Find(previous, m.name)
    case None => true
    case Some(was) => Significant(was.health, m.health)
  }

  /** The sample kept of a member: the last significant one. */
  function Kept(previous: seq<Member>, m: Member): Member {
    if News(previous, m) then m else m.(health := Find(previous, m.name).value.health)
  }

  function KeptAll(previous: seq<Member>, members: seq<Member>): (r: seq<Member>)
    ensures |r| == |members| && forall i :: 0 <= i < |r| ==> r[i] == Kept(previous, members[i])
  {
    seq(|members|, i requires 0 <= i < |members| => Kept(previous, members[i]))
  }

  predicate Changed(previous: seq<Member>, members: seq<Member>) {
    || (exists m :: m in members && News(previous, m))
    || (exists p :: p in previous && Find(members, p.name).None?)
  }

  datatype Panel = Panel(previous: seq<Member>, lastActivity: int, opacity: real, active: bool, pending: bool)

  const NEW_PANEL := Panel([], 0, 0.0, false, false)

  function Clamp(x: real): real {
    if x < 0.0 then 0.0 else if x > 1.0 then 1.0 else x
  }

  /** The panel's opacity so long after the activity. */
  function Fade(since: int): real {
    Clamp(1.0 - (since - SHOW) as real / FADE as real)
  }

  /** What one update makes of the panel, a change aside. */
  function Shown(lastActivity: int, active: bool, pending: bool, previous: seq<Member>, hud: bool, now: int): Panel {
    if !hud then
      Panel(previous, lastActivity, 0.0, active, pending || (active && now < lastActivity + SHOW + FADE))
    else
      var last := if pending then now else lastActivity;
      if !active && !pending then Panel(previous, last, 0.0, false, false)
      else Panel(previous, last, Fade(now - last), Fade(now - last) != 0.0, false)
  }

  function Updated(p: Panel, members: seq<Member>, connected: bool, hud: bool, now: int): Panel {
    if !connected then Panel([], p.lastActivity, 0.0, false, false)
    else
      Shown(p.lastActivity, p.active, p.pending || Changed(p.previous, members), KeptAll(p.previous, members), hud, now)
  }

  // ----- The object -----

  class Activity {
    var previous: seq<Member>
    var lastActivity: int
    var opacity: real
    var active: bool
    var pending: bool

    ghost function Value(): Panel
      reads this
    {
      Panel(previous, lastActivity, opacity, active, pending)
    }

    constructor ()
      ensures Value() == NEW_PANEL
    {
      previous, lastActivity, opacity, active, pending := [], 0, 0.0, false, false;
    }

    method FindIn(members: seq<Member>, name: string) returns (found: Option<Member>)
      ensures found == Find(members, name)
    {
      for i := 0 to |members|
        invariant Find(members[i..], name) == Find(members, name)
      {
        if members[i].name == name { return Some(members[i]); }
        assert members[i..][1..] == members[i + 1..];
      }
      return None;
    }

    /** The part of `Update` that goes through the members now. */
    method Sample(members: seq<Member>) returns (next: seq<Member>, changed: bool)
      ensures next == KeptAll(previous, members) && (changed <==> exists m :: m in members && News(previous, m))
    {
      next, changed := members, false;
      for i := 0 to |members|
        invariant |next| == |members|
        invariant forall j :: 0 <= j < i ==> next[j] == Kept(previous, members[j])
        invariant forall j :: i <= j < |members| ==> next[j] == members[j]
        invariant changed <==> exists j :: 0 <= j < i && News(previous, members[j])
      {
        var was := FindIn(previous, next[i].name);
        if was.None? {
          changed := true;
          continue;
        }
        var before, after := was.value.health, next[i].health;
        var stateChanged := (before < 0.0) != (after < 0.0) || (before == 0.0) != (after == 0.0);
        if stateChanged || (if before >= after then before - after else after - before) >= 0.001 {
          changed := true;
        } else {
          next := next[i := next[i].(health := before)];
        }
      }
    }

    method Update(members: seq<Member>, connected: bool, hud: bool, now: int)
      modifies this
      ensures Value() == Updated(old(Value()), members, connected, hud, now)
    {
      if !connected {
        previous, opacity, active, pending := [], 0.0, false, false;
        return;
      }
      var next, changed := Sample(members);
      ghost var joined := changed;
      for i := 0 to |previous|
        modifies {}
        invariant changed <==> joined || exists j :: 0 <= j < i && Find(members, previous[j].name).None?
      {
        var still := FindIn(next, previous[i].name);
        SameNames(next, members, previous[i].name);
        if still.None? { changed := true; }
      }
      assert changed <==> Changed(previous, members);
      previous := next;
      assert previous == KeptAll(old(previous), members);
      if changed { pending := true; }
      if !hud {
        pending := pending || (active && now < lastActivity + SHOW + FADE);
        opacity := 0.0;
        return;
      }
      if pending {
        lastActivity, active, pending := now, true, false;
      }
      if !active {
        opacity := 0.0;
        return;
      }
      var fadeElapsed := now - lastActivity - SHOW;
      opacity := Clamp(1.0 - fadeElapsed as real / FADE as real);
      if opacity == 0.0 { active := false; }
    }
  }

  lemma {:induction false} SameNames(a: seq<Member>, b: seq<Member>, name: string)
    requires |a| == |b| && forall i :: 0 <= i < |a| ==> a[i].name == b[i].name
    ensures Find(a, name).None? <==> Find(b, name).None?
  {
    if a != [] { SameNames(a[1..], b[1..], name); }
  }
}
