/** Time in whole minutes, and the grouping of calendar events by day. */
module Grouping {

  function DateOf(t: int): int { t / 1440 }

  function TimeOf(t: int): (m: int)
    ensures 0 <= m < 1440
  {
    t - 1440 * DateOf(t)
  }

  function At(date: int, minute: int): int { 1440 * date + minute }

  datatype Event = Event(start: int, end: int)

  datatype Group = Group(date: int, events: seq<Event>)

  // ----- what the insertions compute -----

  function InsertByStart(events: seq<Event>, ev: Event): seq<Event> {
    if events == [] || ev.start < events[0].start then [ev] + events
    else [events[0]] + InsertByStart(events[1..], ev)
  }

  function InsertByDate(days: seq<Group>, ev: Event): seq<Group> {
    var date := DateOf(ev.start);
    if days == [] || date < days[0].date then [Group(date, [ev])] + days
    else if days[0].date == date then [Group(date, InsertByStart(days[0].events, ev))] + days[1..]
    else [days[0]] + InsertByDate(days[1..], ev)
  }

  function GroupByDate(events: seq<Event>): seq<Group> {
    if events == [] then [] else InsertByDate(GroupByDate(events[..|events| - 1]), events[|events| - 1])
  }

  lemma {:induction false} Regroup<T>(a: seq<T>, b: seq<T>, c: seq<T>)
    ensures a + (b + c) == (a + b) + c
  {
  }

  lemma {:induction false} Advance<T>(s: seq<T>, i: nat, rest: seq<T>)
    requires i < |s|
    ensures s[..i] + ([s[i]] + rest) == s[..i + 1] + rest
    ensures s[i..][0] == s[i] && s[i..][1..] == s[i + 1..]
  {
  }

  lemma {:induction false} Replace<T>(s: seq<T>, i: nat, x: T)
    requires i < |s|
    ensures s[i := x] == s[..i] + ([x] + s[i + 1..])
  {
  }

  // ----- the loops -----

  /** The table of days under construction. */
  class DayTable {
    var days: seq<Group>

    constructor ()
      ensures days == []
    {
      days := [];
    }

    /** Inserts into the day at `day`, after all events that do not start later. */
    method InsertEventByStart(day: nat, ev: Event)
      requires day < |days|
      modifies this
      ensures days == old(days)[day := Group(old(days)[day].date, InsertByStart(old(days)[day].events, ev))]
    {
      var events := days[day].events;
      var i := 0;
      while i < |events| && events[i].start <= ev.start
        invariant 0 <= i <= |events| && days == old(days)
        invariant InsertByStart(events, ev) == events[..i] + InsertByStart(events[i..], ev)
      {
        Advance(events, i, InsertByStart(events[i + 1..], ev));
        i := i + 1;
      }
      assert InsertByStart(events[i..], ev) == [ev] + events[i..];
      Regroup(events[..i], [ev], events[i..]);
      days := days[day := Group(days[day].date, events[..i] + [ev] + events[i..])];
    }

    method InsertEventByDate(ev: Event)
      modifies this
      ensures days == InsertByDate(old(days), ev)
    {
      var date := DateOf(ev.start);
      var i := 0;
      while i < |days| && days[i].date < date
        invariant 0 <= i <= |days| && days == old(days)
        invariant InsertByDate(days, ev) == days[..i] + InsertByDate(days[i..], ev)
      {
        Advance(days, i, InsertByDate(days[i + 1..], ev));
        i := i + 1;
      }
      var later := days[i..];
      if i < |days| && days[i].date == date {
        Advance(days, i, []);
        Replace(days, i, Group(date, InsertByStart(days[i].events, ev)));
        InsertEventByStart(i, ev);
      } else {
        assert InsertByDate(later, ev) == [Group(date, [ev])] + later;
        Regroup(days[..i], [Group(date, [ev])], later);
        days := days[..i] + [Group(date, [ev])] + later;
      }
    }
  }

  method GroupEventsByDate(events: seq<Event>) returns (days: seq<Group>)
    ensures days == GroupByDate(events)
  {
    var table := new DayTable();
    for i := 0 to |events|
      invariant table.days == GroupByDate(events[..i])
    {
      assert events[..i + 1][..i] == events[..i];
      table.InsertEventByDate(events[i]);
    }
    assert events[..|events|] == events;
    days := table.days;
  }

  // ----- what grouping means -----

  predicate SortedByStart(events: seq<Event>) {
    forall i, j | 0 <= i < j < |events| :: events[i].start <= events[j].start
  }

  predicate GroupOk(g: Group) {
    && |g.events| > 0
    && SortedByStart(g.events)
    && forall ev | ev in g.events :: DateOf(ev.start) == g.date
  }

  /** Day keys increase strictly; each day has events, all of that date, in order. */
  predicate Grouped(days: seq<Group>) {
    && (forall i | 0 <= i < |days| :: GroupOk(days[i]))
    && (forall i, j | 0 <= i < j < |days| :: days[i].date < days[j].date)
  }

  function Flatten(days: seq<Group>): seq<Event> {
    if days == [] then [] else days[0].events + Flatten(days[1..])
  }

  /** The events that start at `t`, in the order in which they are listed. */
  function StartingAt(events: seq<Event>, t: int): seq<Event> {
    if events == [] then []
    else (if events[0].start == t then [events[0]] else []) + StartingAt(events[1..], t)
  }

  lemma {:induction false} StartingAtAppend(a: seq<Event>, b: seq<Event>, t: int)
    ensures StartingAt(a + b, t) == StartingAt(a, t) + StartingAt(b, t)
  {
    if a == [] {
      assert a + b == b;
    } else {
      assert (a + b)[1..] == a[1..] + b;
      StartingAtAppend(a[1..], b, t);
      var head := if a[0].start == t then [a[0]] else [];
      assert StartingAt(a + b, t) == head + StartingAt(a[1..] + b, t);
      Regroup(head, StartingAt(a[1..], t), StartingAt(b, t));
    }
  }

  lemma {:induction false} StartingAtAbsent(a: seq<Event>, t: int)
    requires forall ev | ev in a :: ev.start != t
    ensures StartingAt(a, t) == []
  {
    if a != [] {
      assert a[0] in a;
      StartingAtAbsent(a[1..], t);
    }
  }

  lemma {:induction false} StartingAtMember(a: seq<Event>, ev: Event)
    ensures ev in a <==> ev in StartingAt(a, ev.start)
  {
    if a != [] {
      assert a == [a[0]] + a[1..];
      StartingAtMember(a[1..], ev);
    }
  }

  lemma {:induction false} InsertByStartSorts(events: seq<Event>, ev: Event, t: int)
    requires SortedByStart(events)
    ensures SortedByStart(InsertByStart(events, ev))
    ensures forall x :: x in InsertByStart(events, ev) <==> x in events || x == ev
    ensures StartingAt(InsertByStart(events, ev), t) == StartingAt(events + [ev], t)
  {
    hide StartingAt;
    if events == [] {
      assert InsertByStart(events, ev) == events + [ev];
    } else if ev.start < events[0].start {
      StartingAtAppend([ev], events, t);
      StartingAtAppend(events, [ev], t);
      if ev.start == t { StartingAtAbsent(events, t); } else { StartingAtAbsent([ev], t); }
    } else {
      var first, rest := events[0], events[1..];
      InsertByStartSorts(rest, ev, t);
      assert events == [first] + rest;
      Regroup([first], rest, [ev]);
      StartingAtAppend([first], InsertByStart(rest, ev), t);
      StartingAtAppend([first], rest + [ev], t);
      SortedCons(first, InsertByStart(rest, ev));
    }
  }

  lemma {:induction false} SortedCons(first: Event, rest: seq<Event>)
    requires SortedByStart(rest) && forall x | x in rest :: first.start <= x.start
    ensures SortedByStart([first] + rest)
  {
    forall i, j | 0 <= i < j < |[first] + rest| ensures ([first] + rest)[i].start <= ([first] + rest)[j].start {
      assert ([first] + rest)[j] == rest[j - 1];
    }
  }

  lemma {:induction false} FlattenMember(days: seq<Group>, ev: Event)
    ensures ev in Flatten(days) <==> exists i | 0 <= i < |days| :: ev in days[i].events
  {
    if days != [] {
      FlattenMember(days[1..], ev);
      if i :| 0 <= i < |days| && ev in days[i].events {
        assert i == 0 || ev in days[1..][i - 1].events;
      }
    }
  }

  lemma {:induction false} LaterDaysStartLater(days: seq<Group>, t: int)
    requires Grouped(days) && forall i | 0 <= i < |days| :: DateOf(t) < days[i].date
    ensures StartingAt(Flatten(days), t) == []
  {
    forall ev | ev in Flatten(days) ensures ev.start != t {
      FlattenMember(days, ev);
    }
    StartingAtAbsent(Flatten(days), t);
  }

  lemma {:induction false} InsertKeepsDay(g: Group, ev: Event)
    requires GroupOk(g) && DateOf(ev.start) == g.date
    ensures GroupOk(Group(g.date, InsertByStart(g.events, ev)))
  {
    hide DateOf, SortedByStart, StartingAt;
    InsertByStartSorts(g.events, ev, 0);
    assert ev in InsertByStart(g.events, ev);
  }

  lemma {:induction false} NewDay(ev: Event)
    ensures GroupOk(Group(DateOf(ev.start), [ev]))
  {
  }

  /** Inserting one event keeps the table in order. */
  lemma {:induction false} InsertByDateGrouped(days: seq<Group>, ev: Event)
    requires Grouped(days)
    ensures Grouped(InsertByDate(days, ev))
    ensures InsertByDate(days, ev) != []
    ensures InsertByDate(days, ev)[0].date ==
              if days == [] || DateOf(ev.start) < days[0].date then DateOf(ev.start) else days[0].date
  {
    hide DateOf, GroupOk;
    var date := DateOf(ev.start);
    if days == [] || date < days[0].date {
      NewDay(ev);
      GroupedCons(Group(date, [ev]), days);
    } else {
      var rest := days[1..];
      if days[0].date == date {
        InsertKeepsDay(days[0], ev);
        GroupedCons(Group(date, InsertByStart(days[0].events, ev)), rest);
      } else {
        InsertByDateGrouped(rest, ev);
        GroupedCons(days[0], InsertByDate(rest, ev));
      }
    }
  }

  lemma {:induction false} GroupedCons(g: Group, rest: seq<Group>)
    requires GroupOk(g) && Grouped(rest) && (rest != [] ==> g.date < rest[0].date)
    ensures Grouped([g] + rest)
  {
    var r := [g] + rest;
    forall i, j | 0 <= i < j < |r| ensures r[i].date < r[j].date {
      assert r[j] == rest[j - 1];
    }
  }

  lemma {:induction false} StartingAtDays(g: Group, rest: seq<Group>, t: int)
    ensures StartingAt(Flatten([g] + rest), t) == StartingAt(g.events, t) + StartingAt(Flatten(rest), t)
  {
    assert ([g] + rest)[1..] == rest;
    StartingAtAppend(g.events, Flatten(rest), t);
  }

  /** It puts the event behind those that start at the same time. */
  lemma {:induction false} InsertByDateStable(days: seq<Group>, ev: Event, t: int)
    requires Grouped(days)
    ensures StartingAt(Flatten(InsertByDate(days, ev)), t) == StartingAt(Flatten(days), t) + StartingAt([ev], t)
  {
    hide StartingAt, Flatten;
    var date := DateOf(ev.start);
    if days == [] || date < days[0].date {
      StartingAtDays(Group(date, [ev]), days, t);
      if ev.start == t { LaterDaysStartLater(days, t); } else { StartingAtAbsent([ev], t); }
    } else {
      var first, rest := days[0], days[1..];
      assert days == [first] + rest;
      StartingAtDays(first, rest, t);
      if first.date == date {
        StartingAtDays(Group(date, InsertByStart(first.events, ev)), rest, t);
        InsertByStartSorts(first.events, ev, t);
        StartingAtAppend(first.events, [ev], t);
        if ev.start == t { LaterDaysStartLater(rest, t); } else { StartingAtAbsent([ev], t); }
      } else {
        StartingAtDays(first, InsertByDate(rest, ev), t);
        InsertByDateStable(rest, ev, t);
      }
    }
  }

  /** Grouping is a stable sort: the days are in order, and the events that start at one
      time keep the order in which they were given. */
  lemma {:induction false} GroupingIsStable(events: seq<Event>, t: int)
    ensures Grouped(GroupByDate(events))
    ensures StartingAt(Flatten(GroupByDate(events)), t) == StartingAt(events, t)
  {
    if events != [] {
      var n := |events| - 1;
      GroupingIsStable(events[..n], t);
      InsertByDateGrouped(GroupByDate(events[..n]), events[n]);
      InsertByDateStable(GroupByDate(events[..n]), events[n], t);
      assert events == events[..n] + [events[n]];
      StartingAtAppend(events[..n], [events[n]], t);
    }
  }

  lemma {:induction false} GroupingKeepsEvents(events: seq<Event>, ev: Event)
    ensures ev in Flatten(GroupByDate(events)) <==> ev in events
  {
    GroupingIsStable(events, ev.start);
    StartingAtMember(events, ev);
    StartingAtMember(Flatten(GroupByDate(events)), ev);
  }

  lemma {:induction false} FlattenSorted(days: seq<Group>)
    requires Grouped(days)
    ensures SortedByStart(Flatten(days))
  {
    if days != [] {
      FlattenSorted(days[1..]);
      forall x, y | x in days[0].events && y in Flatten(days[1..]) ensures x.start <= y.start {
        FlattenMember(days[1..], y);
      }
    }
  }

  lemma {:induction false} FirstIsFound(a: seq<Event>)
    ensures a != [] ==> StartingAt(a, a[0].start) != []
  {
  }

  /** A stable sort is determined by its input: nothing else is in order and keeps the order
      of the events that start together. */
  lemma {:induction false} StableSortUnique(a: seq<Event>, b: seq<Event>)
    requires SortedByStart(a) && SortedByStart(b)
    requires forall t :: StartingAt(a, t) == StartingAt(b, t)
    ensures a == b
  {
    if a == [] {
      FirstIsFound(b);
    } else {
      StartingAtMember(b, a[0]);
      StartingAtMember(a, a[0]);
      assert StartingAt(a, a[0].start) == StartingAt(b, a[0].start);
      assert a[0] in b;
      StartingAtMember(a, b[0]);
      StartingAtMember(b, b[0]);
      assert StartingAt(a, b[0].start) == StartingAt(b, b[0].start);
      assert b[0] in a;
      assert a[0].start == b[0].start;
      assert StartingAt(a, a[0].start)[0] == a[0];
      assert StartingAt(b, a[0].start)[0] == b[0];
      forall t ensures StartingAt(a[1..], t) == StartingAt(b[1..], t) {
        assert StartingAt(a, t) == StartingAt(b, t);
        var skip := if a[0].start == t then 1 else 0;
        assert StartingAt(a, t)[skip..] == StartingAt(a[1..], t);
        assert StartingAt(b, t)[skip..] == StartingAt(b[1..], t);
      }
      StableSortUnique(a[1..], b[1..]);
    }
  }
}
