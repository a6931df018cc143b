/** Facts about the lock's queue: what pruning, leaving and renewing do to the ids in it and to a place's number. */
module DuoQueueFacts {
  import opened Basics
  import opened DuoProtocol

  ghost predicate UniquePlaces(q: seq<Entry>) {
    forall i, j :: 0 <= i < j < |q| ==> q[i].id != q[j].id
  }

  ghost predicate UniqueJoins(joins: seq<Join>) {
    forall i, j :: 0 <= i < j < |joins| ==> joins[i].id != joins[j].id
  }

  ghost predicate InQueue(q: seq<Entry>, id: nat) {
    exists e :: e in q && e.id == id
  }

  ghost predicate InJoins(joins: seq<Join>, id: nat) {
    exists j :: j in joins && j.id == id
  }

  lemma InQueueByPlace(q: seq<Entry>, id: nat)
    ensures InQueue(q, id) <==> PlaceOf(q, id).Some?
  {
    if PlaceOf(q, id).Some? {
      assert q[PlaceOf(q, id).value] in q;
    }
  }

  lemma {:induction false} FilterUniquePlaces(p: Entry -> bool, q: seq<Entry>)
    requires UniquePlaces(q)
    ensures UniquePlaces(Filter(p, q))
  {
    if q != [] {
      FilterUniquePlaces(p, q[1..]);
      FilterMembers(p, q[1..]);
      var rest := Filter(p, q[1..]);
      forall k | 0 <= k < |rest| ensures rest[k].id != q[0].id {
        assert rest[k] in q[1..];
      }
    }
  }

  lemma {:induction false} FilterUniqueJoins(p: Join -> bool, joins: seq<Join>)
    requires UniqueJoins(joins)
    ensures UniqueJoins(Filter(p, joins))
  {
    if joins != [] {
      FilterUniqueJoins(p, joins[1..]);
      FilterMembers(p, joins[1..]);
      var rest := Filter(p, joins[1..]);
      forall k | 0 <= k < |rest| ensures rest[k].id != joins[0].id {
        assert rest[k] in joins[1..];
      }
    }
  }

  /** Filtering the queue never moves a surviving place back, and moves it up when the first one goes. */
  lemma {:induction false} FilterPlace(p: Entry -> bool, q: seq<Entry>, id: nat)
    requires UniquePlaces(q)
    requires PlaceOf(Filter(p, q), id).Some?
    ensures PlaceOf(q, id).Some?
    ensures PlaceOf(Filter(p, q), id).value <= PlaceOf(q, id).value
    ensures !p(q[0]) ==> PlaceOf(Filter(p, q), id).value < PlaceOf(q, id).value
  {
    var rest := Filter(p, q[1..]);
    FilterMembers(p, q);
    var kept := Filter(p, q)[PlaceOf(Filter(p, q), id).value];
    assert kept in q && p(kept);
    if q[0].id == id {
      var k :| 0 <= k < |q| && q[k] == kept;
      assert k == 0;
      assert Filter(p, q)[0] == q[0];
    } else {
      if p(q[0]) {
        assert Filter(p, q)[1..] == rest;
      } else {
        assert Filter(p, q) == rest;
      }
      FilterPlace(p, q[1..], id);
    }
  }

  lemma RenewedPlaces(q: seq<Entry>, place: Option<nat>, now: int, id: nat)
    requires place.Some? ==> place.value < |q|
    ensures UniquePlaces(q) ==> UniquePlaces(Renewed(q, place, now))
    ensures PlaceOf(Renewed(q, place, now), id) == PlaceOf(q, id)
    ensures InQueue(Renewed(q, place, now), id) <==> InQueue(q, id)
  {
    var r := Renewed(q, place, now);
    assert forall k :: 0 <= k < |q| ==> r[k].id == q[k].id;
    SameIdsSamePlace(q, r, id);
    InQueueByPlace(q, id);
    InQueueByPlace(r, id);
  }

  lemma SameIdsSamePlace(q: seq<Entry>, r: seq<Entry>, id: nat)
    requires |q| == |r|
    requires forall k :: 0 <= k < |q| ==> r[k].id == q[k].id
    ensures PlaceOf(r, id) == PlaceOf(q, id)
  {
  }

  lemma AppendedPlace(q: seq<Entry>, e: Entry, id: nat)
    requires PlaceOf(q, id).Some?
    ensures PlaceOf(q + [e], id) == PlaceOf(q, id)
  {
    assert forall k :: 0 <= k < |q| ==> (q + [e])[k] == q[k];
  }

  /** While ids are unique, dropping by hand is filtering one place out. */
  lemma {:induction false} RemovedIsFiltered(q: seq<Entry>, e: Entry)
    requires UniquePlaces(q) && e in q
    ensures Removed(q, e) == Filter((o: Entry) => o.id != e.id, q)
  {
    var p := (o: Entry) => o.id != e.id;
    if q[0] == e {
      forall o | o in q[1..] ensures p(o) {
        var k :| 0 <= k < |q[1..]| && q[1..][k] == o;
        assert q[k + 1] == o;
      }
      FilterAll(p, q[1..]);
    } else {
      assert e in q[1..];
      RemovedIsFiltered(q[1..], e);
      var k :| 0 <= k < |q[1..]| && q[1..][k] == e;
      assert q[k + 1] == e && q[0].id != e.id;
    }
  }

  lemma EndedAppend(log: seq<LogLine>, line: LogLine)
    ensures Ended(log + [line]) == Ended(log) + (match line case HoldEnded(id, _) => [id] case _ => [])
  {
    assert (log + [line])[..|log|] == log;
  }

  lemma {:induction false} EndedIgnoresLapses(log: seq<LogLine>, q: seq<Entry>, live: set<nat>, now: int)
    ensures Ended(log + LapseLines(q, live, now)) == Ended(log)
    decreases |q|
  {
    if q == [] {
      assert log + [] == log;
    } else {
      var rest := LapseLines(q[1..], live, now);
      if q[0].token in live && !KeepsPlace(q[0], live, now) {
        var line := PlaceLapsed(q[0].id);
        EndedAppend(log, line);
        assert log + ([line] + rest) == (log + [line]) + rest;
        EndedIgnoresLapses(log + [line], q[1..], live, now);
      } else {
        assert LapseLines(q, live, now) == rest;
        EndedIgnoresLapses(log, q[1..], live, now);
      }
    }
  }
}
