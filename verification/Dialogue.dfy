/** Where two games' conversation records disagree for longer than a grace (dialogue_differences,
    scripts/coop_harness/comparisons.py). Times in whole microseconds, as recorded. */
module Dialogue {
  import opened Basics

  datatype Field = Shown | Options | Cursor

  const FIELDS := [Shown, Options, Cursor]

  datatype Value = Flag(flag: bool) | Texts(texts: seq<string>) | Number(number: int)

  /** A record's entry; what it does not have is None. */
  datatype Entry = Entry(t: int, menu: bool, speaker: Option<int>, shown: Option<bool>, options: Option<seq<string>>,
                         cursor: Option<int>)

  /** Before the first entry: no menu. */
  const NO_MENU := Entry(0, false, None, None, None, None)

  function Get(e: Entry, field: Field): Option<Value> {
    match field
    case Shown => if e.shown.Some? then Some(Flag(e.shown.value)) else None
    case Options => if e.options.Some? then Some(Texts(e.options.value)) else None
    case Cursor => if e.cursor.Some? then Some(Number(e.cursor.value)) else None
  }

  /** The entries, read in order up to the first one later than `at`. */
  function StateFrom(current: Entry, entries: seq<Entry>, at: int): Entry
    decreases |entries|
  {
    if entries == [] || entries[0].t > at then current else StateFrom(entries[0], entries[1..], at)
  }

  function State(entries: seq<Entry>, at: int): Entry {
    StateFrom(NO_MENU, entries, at)
  }

  /** Both menus are on the same speaker. */
  predicate Together(h: Entry, g: Entry) {
    h.menu && g.menu && h.speaker.Some? && h.speaker.value >= 0 && h.speaker == g.speaker
  }

  /** A list matters while it is shown. */
  predicate Seen(h: Entry, g: Entry, field: Field) {
    field.Shown? || (h.shown == Some(true) && g.shown == Some(true))
  }

  predicate Differ(h: Entry, g: Entry, field: Field) {
    Together(h, g) && Seen(h, g, field) && Get(h, field) != Get(g, field)
  }

  // ----- What is to be reported, moment by moment -----

  /** Two records, the first of the times looked at, and how long a difference may last. */
  datatype Games = Games(host: seq<Entry>, guest: seq<Entry>, start: int, grace: int)

  predicate DifferAt(g: Games, field: Field, t: int) {
    Differ(State(g.host, t), State(g.guest, t), field)
  }

  predicate AllDiffer(g: Games, field: Field, from: int, until: int) {
    forall t {:trigger DifferAt(g, field, t)} :: from <= t < until ==> DifferAt(g, field, t)
  }

  /** A longest stretch, up to `end`, in which the field differs. */
  predicate Stretch(g: Games, field: Field, from: int, until: int, end: int) {
    && g.start <= from < until <= end && AllDiffer(g, field, from, until)
    && (from == g.start || !DifferAt(g, field, from - 1))
    && (until == end || !DifferAt(g, field, until))
  }

  /** A longest stretch that starts at `from` is longer than the grace. */
  ghost predicate LongFrom(g: Games, field: Field, from: int, end: int) {
    exists until :: Stretch(g, field, from, until, end) && until - from > g.grace
  }

  datatype Report = Report(after: int, field: Field, host: Option<Value>, guest: Option<Value>)

  /** The report of a stretch: its first moment and the first values. */
  predicate Tells(g: Games, r: Report, from: int) {
    && r.after == from - g.start
    && r.host == Get(State(g.host, from), r.field) && r.guest == Get(State(g.guest, from), r.field)
  }

  /** The reports are those of the stretches longer than the grace, one each. */
  ghost predicate Complete(g: Games, found: seq<Report>, end: int) {
    && (forall k: nat {:trigger found[k]} :: k < |found| ==>
          LongFrom(g, found[k].field, g.start + found[k].after, end) && Tells(g, found[k], g.start + found[k].after))
    && (forall field, from {:trigger LongFrom(g, field, from, end)} ::
          LongFrom(g, field, from, end) ==> Reported(found, field, from - g.start))
    && forall j: nat, k: nat {:trigger found[j], found[k]} :: j < k < |found| ==>
         found[j].field != found[k].field || found[j].after != found[k].after
  }

  ghost predicate Reported(found: seq<Report>, field: Field, after: int) {
    exists k: nat :: k < |found| && found[k].field == field && found[k].after == after
  }

  /** The first moment at which a reported difference is over the grace. */
  function Passes(g: Games, r: Report): int {
    g.start + r.after + Least(g)
  }

  /** The shortest length over the grace. */
  function Least(g: Games): int {
    if g.grace < 0 then 1 else g.grace + 1
  }

  /** How many of the times come before the moment: which of the times looked at is the first not before it. */
  function Due(times: seq<int>, moment: int): (i: nat)
    ensures i <= |times| && (forall k :: 0 <= k < i ==> times[k] < moment) && (i < |times| ==> moment <= times[i])
  {
    if times == [] || moment <= times[0] then 0 else 1 + Due(times[1..], moment)
  }

  function Rank(field: Field): nat {
    match field
    case Shown => 0
    case Options => 1
    case Cursor => 2
  }

  predicate Earlier(times: seq<int>, g: Games, a: Report, b: Report) {
    || Due(times, Passes(g, a)) < Due(times, Passes(g, b))
    || (Due(times, Passes(g, a)) == Due(times, Passes(g, b)) && Rank(a.field) < Rank(b.field))
  }

  /** The reports are in the order in which, looking from time to time, each difference is first seen to be over the
      grace, and at one time in the order of the fields. */
  ghost predicate Ordered(times: seq<int>, g: Games, found: seq<Report>) {
    forall j: nat, k: nat {:trigger found[j], found[k]} :: j < k < |found| ==> Earlier(times, g, found[j], found[k])
  }

  // ----- The same, told of the entries' own fields -----

  /** Both menus are open on one speaker, and the entries' own values of the field differ; options and cursor only while
      both games show the list. */
  predicate OwnDiffer(h: Entry, p: Entry, field: Field) {
    && h.menu && p.menu && h.speaker.Some? && p.speaker.Some? && h.speaker.value == p.speaker.value >= 0
    && match field
       case Shown => h.shown != p.shown
       case Options => h.shown == p.shown == Some(true) && h.options != p.options
       case Cursor => h.shown == p.shown == Some(true) && h.cursor != p.cursor
  }

  ghost predicate OwnDifferOver(g: Games, field: Field, from: int, until: int) {
    forall t {:trigger State(g.host, t)} {:trigger State(g.guest, t)} :: from <= t < until ==>
      OwnDiffer(State(g.host, t), State(g.guest, t), field)
  }

  /** A report's value is the entry's own, or none where it has none. */
  predicate OwnValue(v: Option<Value>, e: Entry, field: Field) {
    match field
    case Shown => v == if e.shown.None? then None else Some(Flag(e.shown.value))
    case Options => v == if e.options.None? then None else Some(Texts(e.options.value))
    case Cursor => v == if e.cursor.None? then None else Some(Number(e.cursor.value))
  }

  /** Each report is of a difference of the entries' own fields that lasts longer than the grace from its moment on,
      with the values of that moment, which differ. */
  ghost predicate AllReal(g: Games, found: seq<Report>, end: int) {
    forall k: nat {:trigger found[k]} :: k < |found| ==>
      var from := g.start + found[k].after;
      && (exists until ::
            from <= until <= end && until - from > g.grace && OwnDifferOver(g, found[k].field, from, until))
      && OwnValue(found[k].host, State(g.host, from), found[k].field)
      && OwnValue(found[k].guest, State(g.guest, from), found[k].field)
      && found[k].host != found[k].guest
  }

  /** Every difference of the entries' own fields that lasts longer than the grace is reported, from its moment or an
      earlier one since which it has gone on. */
  ghost predicate NoneMissed(g: Games, found: seq<Report>, end: int) {
    forall field, from, until {:trigger OwnDifferOver(g, field, from, until)} ::
      g.start <= from < until <= end && until - from > g.grace && OwnDifferOver(g, field, from, until) ==>
        exists k: nat :: k < |found| && found[k].field == field && g.start + found[k].after <= from
                         && OwnDifferOver(g, field, g.start + found[k].after, until)
  }

  // ----- Times -----

  ghost predicate Increasing(times: seq<int>) {
    forall i, j :: 0 <= i < j < |times| ==> times[i] < times[j]
  }

  /** A time put in its place, once. */
  function WithTime(times: seq<int>, t: int): (r: seq<int>)
    requires Increasing(times)
    ensures Increasing(r) && forall x :: x in r <==> x == t || x in times
  {
    if times == [] then [t]
    else if t < times[0] then [t] + times
    else if t == times[0] then times
    else
      assert forall x :: x in times[1..] ==> x > times[0];
      var rest := WithTime(times[1..], t);
      assert forall i :: 0 <= i < |rest| ==> rest[i] in rest;
      [times[0]] + rest
  }

  /** The times of the entries and the end: sorted, each once. */
  function Times(entries: seq<Entry>, end: int): (r: seq<int>)
    ensures Increasing(r) && end in r && forall e :: e in entries ==> e.t in r
    ensures forall x :: x in r ==> x == end || exists e :: e in entries && e.t == x
  {
    if entries == [] then [end]
    else
      assert forall e :: e in entries ==> e == entries[0] || e in entries[1..];
      WithTime(Times(entries[1..], end), entries[0].t)
  }

  // ----- The sweep -----

  method StateAt(entries: seq<Entry>, at: int) returns (current: Entry)
    ensures current == State(entries, at)
  {
    current := NO_MENU;
    for i := 0 to |entries|
      invariant StateFrom(current, entries[i..], at) == State(entries, at)
    {
      if entries[i].t > at { return; }
      assert entries[i..][1..] == entries[i + 1..];
      current := entries[i];
    }
  }

  /** A difference that goes on: its first moment, the values then, and whether it is reported. */
  datatype Since = Since(at: int, host: Option<Value>, guest: Option<Value>, reported: bool)

  /** One field between two times, between which both games' states are h and p. */
  method FieldStep(g: Games, found0: seq<Report>, since0: map<Field, Since>, field: Field, h: Entry, p: Entry,
                   at: int, until: int)
    returns (found: seq<Report>, since: map<Field, Since>)
    requires FieldOk(g, found0, since0, field, at) && at < until && h == State(g.host, at) && p == State(g.guest, at)
    requires forall t {:trigger DifferAt(g, field, t)} :: at <= t < until ==>
        DifferAt(g, field, t) == Differ(h, p, field)
    ensures FieldOk(g, found, since, field, until)
    ensures forall other, now {:trigger FieldOk(g, found, since, other, now)} ::
              other != field && FieldOk(g, found0, since0, other, now) ==> FieldOk(g, found, since, other, now)
    ensures found == found0 || (exists r: Report ::
              found == found0 + [r] && r.field == field && at < Passes(g, r) <= until)
  {
    hide FieldOk, Differ, State, DifferAt, Get;
    found, since := found0, since0;
    if !Differ(h, p, field) {
      since := since - {field};
      QuietStep(g, found, since0, field, at, until);
    } else {
      var start := if field in since then since[field] else Since(at, Get(h, field), Get(p, field), false);
      if until - start.at > g.grace && !start.reported {
        GetsReported(g, found, since, field, at, until);
        start := start.(reported := true);
        found := found + [Report(start.at - g.start, field, start.host, start.guest)];
      } else {
        GoesOn(g, found, since, field, at, until);
      }
      since := since[field := start];
    }
    OthersKept(g, found0, since0, found, since, field);
  }

  /** Every field between two times. */
  method Interval(g: Games, found0: seq<Report>, since0: map<Field, Since>, h: Entry, p: Entry, at: int, until: int)
    returns (found: seq<Report>, since: map<Field, Since>)
    requires at < until && h == State(g.host, at) && p == State(g.guest, at)
    requires forall field {:trigger FieldOk(g, found0, since0, field, at)} :: FieldOk(g, found0, since0, field, at)
    requires forall field, t {:trigger DifferAt(g, field, t)} :: at <= t < until ==>
        DifferAt(g, field, t) == Differ(h, p, field)
    ensures forall field {:trigger FieldOk(g, found, since, field, until)} :: FieldOk(g, found, since, field, until)
    ensures Adds(g, found0, found, at, until, |FIELDS|)
  {
    hide FieldOk, Differ, State, DifferAt, Get, Adds;
    found, since := found0, since0;
    NothingAdded(g, found, at, until);
    for k := 0 to |FIELDS|
      invariant Adds(g, found0, found, at, until, k)
      invariant forall j {:trigger FIELDS[j]} :: 0 <= j < k ==> FieldOk(g, found, since, FIELDS[j], until)
      invariant forall j {:trigger FIELDS[j]} :: k <= j < |FIELDS| ==> FieldOk(g, found, since, FIELDS[j], at)
    {
      ghost var found1 := found;
      found, since := FieldStep(g, found, since, FIELDS[k], h, p, at, until);
      AddsField(g, found0, found1, found, at, until, k);
    }
    AllFields(g, found, since, until);
  }

  method Differences(host: seq<Entry>, guest: seq<Entry>, end: int, grace: int) returns (found: seq<Report>)
    ensures var times := Times(host + guest, end);
            var g := Games(host, guest, times[0], grace);
            && Complete(g, found, times[|times| - 1]) && Ordered(times, g, found)
            && AllReal(g, found, times[|times| - 1]) && NoneMissed(g, found, times[|times| - 1])
    ensures forall k :: 0 <= k < |found| ==> found[k].host != found[k].guest
    ensures host == guest ==> found == []
  {
    var times := Times(host + guest, end);
    var g := Games(host, guest, times[0], grace);
    hide FieldOk, Complete, Times, Differ, State, DifferAt, Get, Adds, Ordered, AllPassed, AllReal, NoneMissed;
    found := [];
    var since: map<Field, Since> := map[];
    NothingYet(g);
    NoneYet(times, g);
    for i := 0 to |times| - 1
      invariant forall field {:trigger FieldOk(g, found, since, field, times[i])} ::
          FieldOk(g, found, since, field, times[i])
      invariant Ordered(times, g, found) && AllPassed(g, found, times[i])
    {
      ghost var found0 := found;
      var at, until := times[i], times[i + 1];
      var h := StateAt(host, at);
      var p := StateAt(guest, at);
      SameBetween(host, guest, end, i);
      SameDifference(g, at, until);
      found, since := Interval(g, found, since, h, p, at, until);
      OrderedNext(times, i, g, found0, found);
    }
    EndComplete(g, found, since, times[|times| - 1]);
    CompleteIsReal(g, found, times[|times| - 1]);
  }

  // ----- The order -----

  ghost predicate AllPassed(g: Games, found: seq<Report>, now: int) {
    forall k: nat {:trigger found[k]} :: k < |found| ==> Passes(g, found[k]) <= now
  }

  /** What the first so many fields add between two times: reports of differences that pass the grace then, in the
      order of the fields. */
  ghost predicate Adds(g: Games, found0: seq<Report>, found: seq<Report>, at: int, until: int, fields: nat) {
    && |found0| <= |found| && found[..|found0|] == found0
    && (forall k: nat {:trigger found[k]} :: |found0| <= k < |found| ==>
          at < Passes(g, found[k]) <= until && Rank(found[k].field) < fields)
    && forall j: nat, k: nat {:trigger found[j], found[k]} :: |found0| <= j < k < |found| ==>
         Rank(found[j].field) < Rank(found[k].field)
  }

  lemma NothingAdded(g: Games, found: seq<Report>, at: int, until: int)
    ensures Adds(g, found, found, at, until, 0)
  {
  }

  lemma AddsField(g: Games, found0: seq<Report>, found1: seq<Report>, found: seq<Report>, at: int, until: int, k: nat)
    requires k < |FIELDS| && Adds(g, found0, found1, at, until, k)
    requires found == found1 || (exists r: Report ::
               found == found1 + [r] && r.field == FIELDS[k] && at < Passes(g, r) <= until)
    ensures Adds(g, found0, found, at, until, k + 1)
  {
    hide Passes;
    assert Rank(FIELDS[k]) == k;
    assert forall j: nat {:trigger found[j]} :: j < |found1| ==> found[j] == found1[j];
    if found != found1 { assert found[..|found0|] == found1[..|found0|]; }
  }

  lemma DueIs(times: seq<int>, i: nat, moment: int)
    requires Increasing(times) && i + 1 < |times| && times[i] < moment <= times[i + 1]
    ensures Due(times, moment) == i + 1
  {
  }

  lemma DueBefore(times: seq<int>, i: nat, moment: int)
    requires Increasing(times) && i < |times| && moment <= times[i]
    ensures Due(times, moment) <= i
  {
  }

  lemma OrderedNext(times: seq<int>, i: nat, g: Games, found0: seq<Report>, found: seq<Report>)
    requires Increasing(times) && i + 1 < |times|
    requires Ordered(times, g, found0) && AllPassed(g, found0, times[i])
    requires Adds(g, found0, found, times[i], times[i + 1], |FIELDS|)
    ensures Ordered(times, g, found) && AllPassed(g, found, times[i + 1])
  {
    hide Increasing, Due, Passes;
    assert times[i] < times[i + 1] by { Later(times, i); }
    assert forall k: nat {:trigger found[k]} :: k < |found0| ==> found[k] == found0[k];
    forall j: nat, k: nat {:trigger found[j], found[k]} | j < k < |found|
        ensures Earlier(times, g, found[j], found[k]) {
      if k >= |found0| {
        DueIs(times, i, Passes(g, found[k]));
        if j >= |found0| {
          DueIs(times, i, Passes(g, found[j]));
        } else {
          DueBefore(times, i, Passes(g, found[j]));
        }
      }
    }
  }

  lemma Later(times: seq<int>, i: nat)
    requires Increasing(times) && i + 1 < |times|
    ensures times[i] < times[i + 1]
  {
  }

  lemma NoneYet(times: seq<int>, g: Games)
    requires times != []
    ensures Ordered(times, g, []) && AllPassed(g, [], times[0])
  {
  }

  lemma AllFields(g: Games, found: seq<Report>, since: map<Field, Since>, now: int)
    requires forall j {:trigger FIELDS[j]} :: 0 <= j < |FIELDS| ==> FieldOk(g, found, since, FIELDS[j], now)
    ensures forall field {:trigger FieldOk(g, found, since, field, now)} :: FieldOk(g, found, since, field, now)
  {
    hide FieldOk;
    forall field: Field ensures FieldOk(g, found, since, field, now) {
      match field
      case Shown => assert FIELDS[0] == Shown;
      case Options => assert FIELDS[1] == Options;
      case Cursor => assert FIELDS[2] == Cursor;
    }
  }

  // ----- Why it is right -----

  /** A run of differing moments longer than the grace starts at `from`, and is over the grace by `now`. */
  predicate Lasting(g: Games, field: Field, from: int, now: int) {
    && g.start <= from && (from == g.start || !DifferAt(g, field, from - 1))
    && from + Least(g) <= now && AllDiffer(g, field, from, from + Least(g))
  }

  ghost predicate ReportOk(g: Games, r: Report, now: int) {
    Lasting(g, r.field, g.start + r.after, now) && Tells(g, r, g.start + r.after)
  }

  ghost predicate SinceOk(g: Games, s: Since, field: Field, now: int) {
    && g.start <= s.at < now && AllDiffer(g, field, s.at, now)
    && (s.at == g.start || !DifferAt(g, field, s.at - 1))
    && s.host == Get(State(g.host, s.at), field) && s.guest == Get(State(g.guest, s.at), field)
    && (s.reported <==> now - s.at > g.grace)
  }

  ghost predicate SinceFieldOk(g: Games, since: map<Field, Since>, field: Field, now: int) {
    && (field in since ==> SinceOk(g, since[field], field, now))
    && (field !in since ==> now == g.start || !DifferAt(g, field, now - 1))
  }

  ghost predicate ReportsOk(g: Games, found: seq<Report>, field: Field, now: int) {
    forall k: nat {:trigger found[k]} :: k < |found| && found[k].field == field ==> ReportOk(g, found[k], now)
  }

  ghost predicate AllReported(g: Games, found: seq<Report>, field: Field, now: int) {
    forall from {:trigger Lasting(g, field, from, now)} :: Lasting(g, field, from, now) ==>
        Reported(found, field, from - g.start)
  }

  ghost predicate OneEach(found: seq<Report>, field: Field) {
    forall j: nat, k: nat {:trigger found[j], found[k]} ::
      j < k < |found| && found[j].field == found[k].field == field ==>
      found[j].after != found[k].after
  }

  /** What has been found of one field by `now`. */
  ghost predicate FieldOk(g: Games, found: seq<Report>, since: map<Field, Since>, field: Field, now: int) {
    && g.start <= now && SinceFieldOk(g, since, field, now)
    && ReportsOk(g, found, field, now) && AllReported(g, found, field, now) && OneEach(found, field)
  }

  /** The first moment of a run seen at two moments of it is the same. */
  lemma SameRun(g: Games, field: Field, a: int, b: int, moment: int)
    requires g.start <= a <= moment && g.start <= b <= moment
    requires AllDiffer(g, field, a, moment) && AllDiffer(g, field, b, moment)
    requires a == g.start || !DifferAt(g, field, a - 1)
    requires b == g.start || !DifferAt(g, field, b - 1)
    requires a < moment && b < moment
    ensures a == b
  {
    assert a < b ==> DifferAt(g, field, b - 1);
    assert b < a ==> DifferAt(g, field, a - 1);
  }

  lemma QuietStep(g: Games, found: seq<Report>, since: map<Field, Since>, field: Field, at: int, until: int)
    requires FieldOk(g, found, since, field, at) && at < until
    requires forall t {:trigger DifferAt(g, field, t)} :: at <= t < until ==> !DifferAt(g, field, t)
    ensures FieldOk(g, found, since - {field}, field, until)
  {
    assert !DifferAt(g, field, until - 1);
    forall from | Lasting(g, field, from, until) ensures Reported(found, field, from - g.start) {
      var t := if from > at then from else at;
      assert from <= t < from + Least(g) ==> DifferAt(g, field, t);
      assert Lasting(g, field, from, at);
    }
  }

  /** The difference under way at a step: one that goes on, or a new one. */
  function First(g: Games, since: map<Field, Since>, field: Field, at: int): Since {
    if field in since then since[field]
    else Since(at, Get(State(g.host, at), field), Get(State(g.guest, at), field), false)
  }

  lemma FirstStarts(g: Games, found: seq<Report>, since: map<Field, Since>, field: Field, at: int, until: int)
    requires FieldOk(g, found, since, field, at) && at < until && AllDiffer(g, field, at, until)
    ensures var first := First(g, since, field, at);
            SinceOk(g, first.(reported := until - first.at > g.grace), field, until)
            && first.at <= at && (first.reported <==> first.at < at && at - first.at > g.grace)
  {
    var first := First(g, since, field, at);
    forall t {:trigger DifferAt(g, field, t)} | first.at <= t < until ensures DifferAt(g, field, t) {
      assert t < at ==> DifferAt(g, field, t);
    }
  }

  /** A run over the grace at the step's end that was not at its start is the one under way. */
  lemma NewRun(g: Games, found: seq<Report>, since: map<Field, Since>, field: Field, at: int, until: int, from: int)
    requires FieldOk(g, found, since, field, at) && at < until && AllDiffer(g, field, at, until)
    requires Lasting(g, field, from, until) && from + Least(g) > at
    ensures from == First(g, since, field, at).at
  {
    FirstStarts(g, found, since, field, at, until);
    var moment := if from > at then from + 1 else at + 1;
    var first := First(g, since, field, at).at;
    assert AllDiffer(g, field, from, moment) by {
      forall t {:trigger DifferAt(g, field, t)} | from <= t < moment ensures DifferAt(g, field, t) {
        assert t >= at ==> DifferAt(g, field, t);
      }
    }
    assert AllDiffer(g, field, first, moment);
    SameRun(g, field, from, first, moment);
  }

  lemma ReportsKept(g: Games, found: seq<Report>, since: map<Field, Since>, field: Field, at: int, until: int, k: nat)
    requires FieldOk(g, found, since, field, at) && at < until && AllDiffer(g, field, at, until)
    requires k < |found| && found[k].field == field
    ensures ReportOk(g, found[k], until)
    ensures !First(g, since, field, at).reported ==> g.start + found[k].after != First(g, since, field, at).at
  {
    assert ReportOk(g, found[k], at);
    FirstStarts(g, found, since, field, at, until);
  }

  lemma StillReported(found: seq<Report>, more: seq<Report>, field: Field, after: int)
    requires Reported(found, field, after) && |found| <= |more| && more[..|found|] == found
    ensures Reported(more, field, after)
  {
    var k: nat :| k < |found| && found[k].field == field && found[k].after == after;
    assert more[k] == found[k];
  }

  /** A step in which the field differs and nothing is to be reported. */
  lemma GoesOn(g: Games, found: seq<Report>, since: map<Field, Since>, field: Field, at: int, until: int)
    requires FieldOk(g, found, since, field, at) && at < until && AllDiffer(g, field, at, until)
    requires var first := First(g, since, field, at); until - first.at > g.grace ==> first.reported
    ensures FieldOk(g, found, since[field := First(g, since, field, at)], field, until)
  {
    var first := First(g, since, field, at);
    FirstStarts(g, found, since, field, at, until);
    forall k: nat {:trigger found[k]} | k < |found| && found[k].field == field ensures ReportOk(g, found[k], until) {
      ReportsKept(g, found, since, field, at, until, k);
    }
    forall from | Lasting(g, field, from, until) ensures Reported(found, field, from - g.start) {
      if from + Least(g) > at { NewRun(g, found, since, field, at, until, from); }
      assert Lasting(g, field, from, at);
    }
  }

  /** A step in which a difference gets over the grace. */
  lemma GetsReported(g: Games, found: seq<Report>, since: map<Field, Since>, field: Field, at: int, until: int)
    requires FieldOk(g, found, since, field, at) && at < until && AllDiffer(g, field, at, until)
    requires var first := First(g, since, field, at); until - first.at > g.grace && !first.reported
    ensures var first := First(g, since, field, at);
            FieldOk(g, found + [Report(first.at - g.start, field, first.host, first.guest)],
                    since[field := first.(reported := true)], field, until)
            && at < first.at + Least(g) <= until
  {
    FirstStarts(g, found, since, field, at, until);
    NewReport(g, found, since, field, at, until);
    NewReported(g, found, since, field, at, until);
  }

  lemma NewReported(g: Games, found: seq<Report>, since: map<Field, Since>, field: Field, at: int, until: int)
    requires FieldOk(g, found, since, field, at) && at < until && AllDiffer(g, field, at, until)
    ensures var first := First(g, since, field, at);
            AllReported(g, found + [Report(first.at - g.start, field, first.host, first.guest)], field, until)
  {
    hide Lasting, SinceOk, First, State, DifferAt, ReportsOk, OneEach;
    var first := First(g, since, field, at);
    var more := found + [Report(first.at - g.start, field, first.host, first.guest)];
    assert more[|found|].after == first.at - g.start && more[..|found|] == found;
    assert Reported(more, field, first.at - g.start);
    forall from | Lasting(g, field, from, until) ensures Reported(more, field, from - g.start) {
      if from + Least(g) > at {
        NewRun(g, found, since, field, at, until, from);
      } else {
        LastingThen(g, field, from, at, until);
        StillReported(found, more, field, from - g.start);
      }
    }
  }

  lemma LastingThen(g: Games, field: Field, from: int, at: int, until: int)
    requires Lasting(g, field, from, until) && from + Least(g) <= at
    ensures Lasting(g, field, from, at)
  {
  }

  lemma NewReport(g: Games, found: seq<Report>, since: map<Field, Since>, field: Field, at: int, until: int)
    requires FieldOk(g, found, since, field, at) && at < until && AllDiffer(g, field, at, until)
    requires var first := First(g, since, field, at); until - first.at > g.grace && !first.reported
    ensures var first := First(g, since, field, at);
            var more := found + [Report(first.at - g.start, field, first.host, first.guest)];
            ReportsOk(g, more, field, until) && OneEach(more, field)
  {
    var first := First(g, since, field, at);
    var more := found + [Report(first.at - g.start, field, first.host, first.guest)];
    FirstStarts(g, found, since, field, at, until);
    assert Lasting(g, field, first.at, until);
    hide Lasting;
    assert ReportOk(g, more[|found|], until);
    forall k: nat {:trigger more[k]} | k < |found| && more[k].field == field
      ensures ReportOk(g, more[k], until) && more[k].after != first.at - g.start
    {
      ReportsKept(g, found, since, field, at, until, k);
      assert more[k] == found[k];
    }
    assert forall k: nat {:trigger more[k]} :: k < |found| ==> more[k] == found[k];
  }

  lemma NothingYet(g: Games)
    ensures forall field {:trigger FieldOk(g, [], map[], field, g.start)} :: FieldOk(g, [], map[], field, g.start)
  {
  }

  lemma SameDifference(g: Games, at: int, until: int)
    requires forall t {:trigger State(g.host, t)} {:trigger State(g.guest, t)} :: at <= t < until ==>
               State(g.host, t) == State(g.host, at) && State(g.guest, t) == State(g.guest, at)
    ensures forall field, t {:trigger DifferAt(g, field, t)} :: at <= t < until ==>
              DifferAt(g, field, t) == Differ(State(g.host, at), State(g.guest, at), field)
  {
    forall field, t {:trigger DifferAt(g, field, t)} | at <= t < until
      ensures DifferAt(g, field, t) == Differ(State(g.host, at), State(g.guest, at), field)
    {
      assert State(g.host, t) == State(g.host, at);
    }
  }

  lemma OthersKept(g: Games, found0: seq<Report>, since0: map<Field, Since>, found: seq<Report>,
                   since: map<Field, Since>,
                   field: Field)
    requires forall other :: other != field ==> (other in since0 <==> other in since)
    requires forall other :: other != field && other in since ==> since[other] == since0[other]
    requires found == found0 ||
        (|found| == |found0| + 1 && found[..|found0|] == found0 && found[|found0|].field == field)
    ensures forall other, now {:trigger FieldOk(g, found, since, other, now)} ::
              other != field && FieldOk(g, found0, since0, other, now) ==> FieldOk(g, found, since, other, now)
  {
    forall other, now | other != field
      ensures FieldOk(g, found0, since0, other, now) ==> FieldOk(g, found, since, other, now)
    {
      OtherFields(g, found0, since0, found, since, other, field, now);
    }
  }

  lemma OtherFields(g: Games, found0: seq<Report>, since0: map<Field, Since>, found: seq<Report>,
                   since: map<Field, Since>,
                    other: Field, field: Field, now: int)
    requires other != field
    requires other in since0 <==> other in since
    requires other in since ==> since[other] == since0[other]
    requires found == found0 ||
        (|found| == |found0| + 1 && found[..|found0|] == found0 && found[|found0|].field == field)
    ensures FieldOk(g, found0, since0, other, now) ==> FieldOk(g, found, since, other, now)
  {
    hide Lasting, SinceOk, State, DifferAt, ReportOk;
    if FieldOk(g, found0, since0, other, now) {
      assert forall k: nat {:trigger found[k]} :: k < |found0| ==> found[k] == found0[k];
      forall from | Lasting(g, other, from, now) ensures Reported(found, other, from - g.start) {
        StillReported(found0, found, other, from - g.start);
      }
    }
  }

  // ----- Between two times nothing changes -----

  lemma {:induction false} SameState(current: Entry, entries: seq<Entry>, at: int, t: int)
    requires forall e {:trigger e in entries} :: e in entries ==> (e.t <= at <==> e.t <= t)
    ensures StateFrom(current, entries, at) == StateFrom(current, entries, t)
    decreases |entries|
  {
    if entries != [] {
      assert entries[0] in entries;
      forall e | e in entries[1..] ensures e.t <= at <==> e.t <= t { assert e in entries; }
      SameState(entries[0], entries[1..], at, t);
    }
  }

  lemma SameBetween(host: seq<Entry>, guest: seq<Entry>, end: int, i: nat)
    requires i + 1 < |Times(host + guest, end)|
    ensures var times := Times(host + guest, end);
            forall t {:trigger State(host, t)} {:trigger State(guest, t)} :: times[i] <= t < times[i + 1] ==>
              State(host, t) == State(host, times[i]) && State(guest, t) == State(guest, times[i])
  {
    var times := Times(host + guest, end);
    forall t | times[i] <= t < times[i + 1]
      ensures State(host, t) == State(host, times[i]) && State(guest, t) == State(guest, times[i])
    {
      hide StateFrom, Times;
      forall e | e in host || e in guest ensures e.t <= times[i] <==> e.t <= t {
        assert e in host + guest;
        NoneBetween(times, i, e.t, t);
      }
      SameState(NO_MENU, host, times[i], t);
      SameState(NO_MENU, guest, times[i], t);
    }
  }

  lemma NoneBetween(times: seq<int>, i: nat, x: int, t: int)
    requires Increasing(times) && i + 1 < |times| && x in times && times[i] <= t < times[i + 1]
    ensures x <= times[i] <==> x <= t
  {
    var k :| 0 <= k < |times| && times[k] == x;
  }

  // ----- Runs longer than the grace and longest stretches -----

  lemma {:induction false} StretchFrom(g: Games, field: Field, from: int, known: int, end: int) returns (until: int)
    requires g.start <= from < known <= end && AllDiffer(g, field, from, known)
    requires from == g.start || !DifferAt(g, field, from - 1)
    ensures known <= until && Stretch(g, field, from, until, end)
    decreases end - known
  {
    if known == end || !DifferAt(g, field, known) {
      until := known;
    } else {
      until := StretchFrom(g, field, from, known + 1, end);
    }
  }

  lemma EndComplete(g: Games, found: seq<Report>, since: map<Field, Since>, end: int)
    requires forall field {:trigger FieldOk(g, found, since, field, end)} :: FieldOk(g, found, since, field, end)
    ensures Complete(g, found, end)
  {
    forall k: nat {:trigger found[k]} | k < |found|
      ensures LongFrom(g, found[k].field, g.start + found[k].after, end) && Tells(g, found[k], g.start + found[k].after)
    {
      assert FieldOk(g, found, since, found[k].field, end);
      var from := g.start + found[k].after;
      var until := StretchFrom(g, found[k].field, from, from + Least(g), end);
    }
    forall field, from {:trigger LongFrom(g, field, from, end)} | LongFrom(g, field, from, end)
      ensures Reported(found, field, from - g.start)
    {
      assert FieldOk(g, found, since, field, end);
      assert Lasting(g, field, from, end);
    }
    forall j: nat, k: nat {:trigger found[j], found[k]} | j < k < |found|
      ensures found[j].field != found[k].field || found[j].after != found[k].after
    {
      assert FieldOk(g, found, since, found[j].field, end);
    }
  }

  lemma DifferIff(h: Entry, p: Entry, field: Field)
    ensures Differ(h, p, field) <==> OwnDiffer(h, p, field)
    ensures OwnValue(Get(h, field), h, field) && OwnValue(Get(p, field), p, field)
  {
  }

  lemma OverIff(g: Games, field: Field, from: int, until: int)
    ensures AllDiffer(g, field, from, until) <==> OwnDifferOver(g, field, from, until)
  {
    hide State, Differ, OwnDiffer;
    forall t ensures DifferAt(g, field, t) <==> OwnDiffer(State(g.host, t), State(g.guest, t), field) {
      DifferIff(State(g.host, t), State(g.guest, t), field);
    }
  }

  lemma {:induction false} StretchBack(g: Games, field: Field, from: int, until: int) returns (first: int)
    requires g.start <= from < until && AllDiffer(g, field, from, until)
    ensures g.start <= first <= from && AllDiffer(g, field, first, until)
    ensures first == g.start || !DifferAt(g, field, first - 1)
    decreases from - g.start
  {
    if from == g.start || !DifferAt(g, field, from - 1) {
      first := from;
    } else {
      first := StretchBack(g, field, from - 1, until);
    }
  }

  lemma ReportIsReal(g: Games, r: Report, end: int)
    requires LongFrom(g, r.field, g.start + r.after, end) && Tells(g, r, g.start + r.after)
    ensures AllReal(g, [r], end)
  {
    hide State, Differ, OwnDifferOver;
    var from := g.start + r.after;
    var until :| Stretch(g, r.field, from, until, end) && until - from > g.grace;
    OverIff(g, r.field, from, until);
    assert DifferAt(g, r.field, from);
    DifferIff(State(g.host, from), State(g.guest, from), r.field);
  }

  lemma LastingIsReported(g: Games, found: seq<Report>, end: int, field: Field, from: int, until: int)
    requires Complete(g, found, end)
    requires g.start <= from < until <= end && until - from > g.grace && OwnDifferOver(g, field, from, until)
    ensures exists k: nat :: k < |found| && found[k].field == field && g.start + found[k].after <= from
                             && OwnDifferOver(g, field, g.start + found[k].after, until)
  {
    hide State, DifferAt, OwnDifferOver, Tells;
    OverIff(g, field, from, until);
    var first := StretchBack(g, field, from, until);
    OverIff(g, field, first, until);
    var last := StretchFrom(g, field, first, until, end);
    assert LongFrom(g, field, first, end);
    assert Reported(found, field, first - g.start);
    var k: nat :| k < |found| && found[k].field == field && found[k].after == first - g.start;
  }

  /** A complete list is one of the entries' own differences; two equal records have none. */
  lemma CompleteIsReal(g: Games, found: seq<Report>, end: int)
    requires Complete(g, found, end)
    ensures AllReal(g, found, end) && NoneMissed(g, found, end)
    ensures forall k :: 0 <= k < |found| ==> found[k].host != found[k].guest
    ensures g.host == g.guest ==> found == []
  {
    hide State, LongFrom, OwnDifferOver, OwnValue, Tells, Complete;
    ReportsAreReal(g, found, end);
    if g.host == g.guest { SameRecords(g, found, end); }
    forall field, from, until {:trigger OwnDifferOver(g, field, from, until)}
      | g.start <= from < until <= end && until - from > g.grace && OwnDifferOver(g, field, from, until)
      ensures exists k: nat :: k < |found| && found[k].field == field && g.start + found[k].after <= from
                               && OwnDifferOver(g, field, g.start + found[k].after, until)
    {
      LastingIsReported(g, found, end, field, from, until);
    }
  }

  lemma ReportsAreReal(g: Games, found: seq<Report>, end: int)
    requires Complete(g, found, end)
    ensures AllReal(g, found, end)
  {
    hide State, LongFrom, OwnDifferOver, OwnValue, Tells;
    forall k: nat {:trigger found[k]} | k < |found| ensures AllReal(g, [found[k]], end) {
      ReportIsReal(g, found[k], end);
    }
    assert forall k: nat {:trigger found[k]} :: k < |found| ==> [found[k]][0] == found[k];
  }

  lemma SameRecords(g: Games, found: seq<Report>, end: int)
    requires AllReal(g, found, end) && g.host == g.guest
    ensures found == []
  {
    hide State, OwnDifferOver, OwnValue;
    if found != [] {
      var from := g.start + found[0].after;
      EntriesTell(State(g.host, from), State(g.guest, from), found[0].host, found[0].guest, found[0].field);
      assert false;
    }
  }

  lemma EntriesTell(h: Entry, p: Entry, a: Option<Value>, b: Option<Value>, field: Field)
    requires OwnValue(a, h, field) && OwnValue(b, p, field) && a != b
    ensures h != p
  {
  }

  /** One list only is complete and in order. */
  lemma OnlyOneList(times: seq<int>, g: Games, a: seq<Report>, b: seq<Report>, end: int)
    requires Complete(g, a, end) && Complete(g, b, end) && Ordered(times, g, a) && Ordered(times, g, b)
    ensures a == b
  {
    SameReports(g, a, b, end);
    SameReports(g, b, a, end);
    SameOrder(times, g, a, b);
  }

  ghost predicate Within(a: seq<Report>, b: seq<Report>) {
    forall k: nat {:trigger a[k]} :: k < |a| ==> a[k] in b
  }

  lemma SameReports(g: Games, a: seq<Report>, b: seq<Report>, end: int)
    requires Complete(g, a, end) && Complete(g, b, end)
    ensures Within(a, b)
  {
    hide LongFrom, State, Get;
    forall k: nat {:trigger a[k]} | k < |a| ensures a[k] in b {
      assert LongFrom(g, a[k].field, g.start + a[k].after, end) && Tells(g, a[k], g.start + a[k].after);
      assert Reported(b, a[k].field, a[k].after);
      var i: nat :| i < |b| && b[i].field == a[k].field && b[i].after == a[k].after;
      assert Tells(g, b[i], g.start + b[i].after);
      assert b[i] == a[k];
    }
  }

  lemma {:induction false} SameOrder(times: seq<int>, g: Games, a: seq<Report>, b: seq<Report>)
    requires Ordered(times, g, a) && Ordered(times, g, b) && Within(a, b) && Within(b, a)
    ensures a == b
    decreases |a|
  {
    hide Due, Passes, Earlier, Ordered, Within;
    NoneWithin(a, b);
    if a != [] {
      SameFirst(times, g, a, b);
      RestOrdered(times, g, a);
      RestOrdered(times, g, b);
      RestWithin(times, g, a, b);
      RestWithin(times, g, b, a);
      SameOrder(times, g, a[1..], b[1..]);
      assert a == [a[0]] + a[1..] && b == [b[0]] + b[1..];
    }
  }

  lemma NoneWithin(a: seq<Report>, b: seq<Report>)
    requires Within(a, b) && Within(b, a)
    ensures a == [] <==> b == []
  {
    if a != [] { assert a[0] in b; }
    if b != [] { assert b[0] in a; }
  }

  lemma SameFirst(times: seq<int>, g: Games, a: seq<Report>, b: seq<Report>)
    requires Ordered(times, g, a) && Ordered(times, g, b) && Within(a, b) && Within(b, a) && a != [] && b != []
    ensures a[0] == b[0]
  {
    hide Due, Passes;
    assert a[0] in b && b[0] in a;
    var j :| 0 <= j < |b| && b[j] == a[0];
    var k :| 0 <= k < |a| && a[k] == b[0];
    assert j > 0 ==> Earlier(times, g, b[0], b[j]);
    assert k > 0 ==> Earlier(times, g, a[0], a[k]);
  }

  lemma RestWithin(times: seq<int>, g: Games, a: seq<Report>, b: seq<Report>)
    requires Ordered(times, g, a) && Within(a, b) && a != [] && b != [] && a[0] == b[0]
    ensures Within(a[1..], b[1..])
  {
    hide Due, Passes;
    forall k: nat {:trigger a[1..][k]} | k < |a[1..]| ensures a[1..][k] in b[1..] {
      assert a[1..][k] == a[k + 1] && Earlier(times, g, a[0], a[k + 1]);
      assert a[k + 1] in b;
      var j :| 0 <= j < |b| && b[j] == a[k + 1];
      assert b[1..][j - 1] == b[j];
    }
  }

  lemma RestOrdered(times: seq<int>, g: Games, a: seq<Report>)
    requires Ordered(times, g, a) && a != []
    ensures Ordered(times, g, a[1..])
  {
    hide Due, Passes;
    var rest := a[1..];
    forall j: nat, k: nat {:trigger rest[j], rest[k]} | j < k < |rest| ensures Earlier(times, g, rest[j], rest[k]) {
      assert Earlier(times, g, a[j + 1], a[k + 1]);
    }
  }

  /** Before the first entry there is no menu. */
  lemma StateBefore(entries: seq<Entry>, at: int)
    requires entries == [] || at < entries[0].t
    ensures !State(entries, at).menu
  {
  }

  /** In a record sorted by time the state is the last entry not later than the moment. */
  lemma {:induction false} StateIsLatest(current: Entry, entries: seq<Entry>, at: int, k: nat)
    requires forall i, j :: 0 <= i < j < |entries| ==> entries[i].t <= entries[j].t
    requires k < |entries| && entries[k].t <= at && (k + 1 == |entries| || entries[k + 1].t > at)
    ensures StateFrom(current, entries, at) == entries[k]
    decreases k
  {
    if k > 0 {
      StateIsLatest(entries[0], entries[1..], at, k - 1);
    }
  }
}
