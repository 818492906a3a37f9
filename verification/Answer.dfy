/** The whole answer of the finder, day by day: which days are in it, and with which slots. */
module Answer {
  import opened Grouping
  import opened Scheduler
  import opened SchedulerProofs
  import opened SchedulerLimits
  import opened EventLimits

  /** Day 2 is the first Saturday, and day 3 the Sunday after it. */
  predicate Workday(f: Finder, date: int) {
    f.includeWeekends || (date % 7 != 2 && date % 7 != 3)
  }

  lemma {:induction false} WorkdaysAre(f: Finder, date: int)
    ensures Permitted(f, date) <==> Workday(f, date)
  {
  }

  // ----- the answer, day by day -----

  /** The events of a day in the order of their starts, those with one start in the order given. */
  ghost predicate DayOf(day: seq<Event>, date: int, events: seq<Event>) {
    && SortedByStart(day)
    && forall t :: StartingAt(day, t) == if DateOf(t) == date then StartingAt(events, t) else []
  }

  predicate Busy(events: seq<Event>, date: int) {
    exists ev | ev in events :: DateOf(ev.start) == date
  }

  predicate BusyLater(events: seq<Event>, date: int) {
    exists ev | ev in events :: date < DateOf(ev.start)
  }

  /** Where a sweep that stands at `curr` stands on a day. */
  function Stand(f: Finder, curr: int, date: int): int {
    if date == DateOf(curr) then curr else At(date, f.min)
  }

  /** The sweep from `curr` has not ended behind any of the days with events before `date`. */
  predicate Reached(f: Finder, curr: int, events: seq<Event>, date: int) {
    && curr < f.end && DateOf(curr) <= date
    && forall ev | ev in events && DateOf(curr) <= DateOf(ev.start) < date :: At(DateOf(ev.start) + 1, f.min) < f.end
  }

  /** An entry of the answer: a reached workday, with the slots between its events; or whole, before
      a later day with events; or open, after all events and before the end. */
  ghost predicate InAnswer(f: Finder, curr: int, events: seq<Event>, e: Entry) {
    && Workday(f, e.date) && Reached(f, curr, events, e.date)
    && if Busy(events, e.date) then
         exists day :: DayOf(day, e.date, events) && e.slots == BusyDay(f, e.date, day, f.min)
       else if BusyLater(events, e.date) then
         (e.date == DateOf(curr) ==> TimeOf(curr) < f.max) && e.slots == [FreeSlot(f, e.date)]
       else
         Stand(f, curr, e.date) < f.end && OpenDay(f, Stand(f, curr, e.date)) == [e]
  }

  // ----- the days of the table -----

  lemma {:induction false} DayOfGroup(days: seq<Group>, g: Group, t: int)
    requires Grouped(days) && g in days
    ensures StartingAt(g.events, t) == if DateOf(t) == g.date then StartingAt(Flatten(days), t) else []
  {
    hide DateOf;
    GroupedRest(days);
    StartingAtAppend(days[0].events, Flatten(days[1..]), t);
    assert GroupOk(g) by { var i :| 0 <= i < |days| && days[i] == g; }
    if DateOf(t) != g.date {
      StartingAtAbsent(g.events, t);
    } else if g == days[0] {
      LaterDaysStartLater(days[1..], t);
    } else {
      DayOfGroup(days[1..], g, t);
      StartingAtAbsent(days[0].events, t);
    }
  }

  lemma {:induction false} DayIsUnique(a: seq<Event>, b: seq<Event>, date: int, events: seq<Event>)
    requires DayOf(a, date, events) && DayOf(b, date, events)
    ensures a == b
  {
    hide StartingAt;
    forall t ensures StartingAt(a, t) == StartingAt(b, t) {}
    StableSortUnique(a, b);
  }

  lemma {:induction false} GroupsAreDays(events: seq<Event>)
    ensures AreDays(GroupByDate(events), events)
  {
    hide StartingAt, DateOf, GroupByDate;
    var days := GroupByDate(events);
    GroupingIsStable(events, 0);
    forall g | g in days ensures DayOf(g.events, g.date, events) {
      assert GroupOk(g) by { var i :| 0 <= i < |days| && days[i] == g; }
      forall t ensures StartingAt(g.events, t) == if DateOf(t) == g.date then StartingAt(events, t) else [] {
        GroupingIsStable(events, t);
        DayOfGroup(days, g, t);
      }
    }
  }

  // ----- the sweep -----

  lemma {:induction false} OpenIs(f: Finder, curr: int)
    ensures Open(f, curr) <==> curr < f.end
  {
    hide DateOf, TimeOf;
    TimeIsAt(curr);
    TimeIsAt(f.end);
  }

  lemma {:induction false} OpenDayAlone(f: Finder, curr: int)
    ensures forall e :: e in OpenDay(f, curr) <==> OpenDay(f, curr) == [e]
    ensures forall e | e in OpenDay(f, curr) :: e.date == DateOf(curr) && Permitted(f, e.date)
  {
    hide Ceil, DateOf, TimeOf, Permitted;
  }

  lemma {:induction false} OpenDaysAre(f: Finder, curr: int, e: Entry)
    ensures e in OpenDays(f, curr) <==>
              && DateOf(curr) <= e.date && Stand(f, curr, e.date) < f.end
              && OpenDay(f, Stand(f, curr, e.date)) == [e]
    decreases DateOf(f.end) + 1 - DateOf(curr)
  {
    hide OpenDay, NextDay, DateOf, TimeOf;
    OpenIs(f, curr);
    TimeIsAt(curr);
    TimeIsAt(f.end);
    OpenDayAlone(f, curr);
    var next := NextDay(f, curr);
    if Open(f, curr) { OpenDaysAre(f, next, e); }
    if DateOf(curr) < e.date {
      assert Stand(f, next, e.date) == Stand(f, curr, e.date) == At(e.date, f.min);
      ClockFacts(e.date, f.min);
      OpenDayAlone(f, Stand(f, curr, e.date));
    }
  }

  /** From one day with events to the next one. */
  lemma {:induction false} ReachedOn(f: Finder, curr: int, events: seq<Event>, day: int, date: int)
    requires DateOf(curr) <= day < date && NoEventsIn(events, DateOf(curr), day) && Busy(events, day)
    ensures Reached(f, curr, events, date) <==> Reached(f, At(day + 1, f.min), events, date)
    ensures Stand(f, curr, date) == Stand(f, At(day + 1, f.min), date)
  {
    hide DateOf, TimeOf;
    ClockFacts(day + 1, f.min);
    TimeIsAt(curr);
  }

  lemma {:induction false} SweepStep(f: Finder, curr: int, days: seq<Group>, e: Entry)
    requires curr < f.end && days != [] && DateOf(curr) <= days[0].date && FinderOk(f)
    ensures e in Sweep(f, curr, days) <==>
              || FreeEntry(f, curr, days[0].date, e)
              || (Permitted(f, days[0].date)
                  && e == Entry(days[0].date, BusyDay(f, days[0].date, days[0].events, f.min)))
              || e in Sweep(f, At(days[0].date + 1, f.min), days[1..])
  {
    hide FreeDays, FreeEntry, BusyDay, Permitted, DateOf, TimeOf;
    var date := days[0].date;
    FreeDaysAre(f, curr, date);
    ClockFacts(date, f.min);
    assert NextDay(f, Reach(f, curr, date)) == At(date + 1, f.min);
  }

  /** Before the next day with events, at `day`. */
  lemma {:induction false} FreeEntryIs(f: Finder, curr: int, day: int, events: seq<Event>, e: Entry)
    requires curr < f.end && NoEventsIn(events, DateOf(curr), day) && Busy(events, day)
    requires DateOf(curr) <= e.date < day
    ensures FreeEntry(f, curr, day, e) <==> InAnswer(f, curr, events, e)
  {
    hide BusyDay, OpenDay, FreeSlot, Permitted, Workday, DayOf, DateOf, TimeOf;
    WorkdaysAre(f, e.date);
  }

  /** After it. */
  lemma {:induction false} LaterEntryIs(f: Finder, curr: int, day: int, events: seq<Event>, e: Entry)
    requires DateOf(curr) <= day < e.date && NoEventsIn(events, DateOf(curr), day) && Busy(events, day) && f.min < f.max
    ensures InAnswer(f, curr, events, e) <==> InAnswer(f, At(day + 1, f.min), events, e)
  {
    hide Reached, Stand, BusyDay, OpenDay, FreeSlot, Workday, DayOf, DateOf, TimeOf;
    ReachedOn(f, curr, events, day, e.date);
    ClockFacts(day + 1, f.min);
  }

  ghost predicate AreDays(days: seq<Group>, events: seq<Event>) {
    forall g | g in days :: DayOf(g.events, g.date, events)
  }

  lemma {:induction false} DaysRest(days: seq<Group>, events: seq<Event>)
    requires AreDays(days, events)
    ensures days != [] ==> DayOf(days[0].events, days[0].date, events) && AreDays(days[1..], events)
  {
    hide DayOf;
  }

  lemma {:induction false} PendingFacts(f: Finder, curr: int, days: seq<Group>, events: seq<Event>)
    requires Pending(f, curr, days, events)
    ensures FinderOk(f) && Grouped(days)
    ensures days == [] ==> forall ev | ev in events :: DateOf(ev.start) < DateOf(curr)
  {
    hide DateOf;
  }

  lemma {:induction false} SweepIs(f: Finder, curr: int, days: seq<Group>, events: seq<Event>, e: Entry)
    requires Pending(f, curr, days, events) && AreDays(days, events)
    ensures e in Sweep(f, curr, days) <==> InAnswer(f, curr, events, e)
    decreases |days|
  {
    hide Sweep, InAnswer, AreDays, Pending, NextDay, Reach, Permitted,
         DateOf, TimeOf, Grouped, IsDay, NoEventsIn, NotTooEarly;
    PendingFacts(f, curr, days, events);
    DaysRest(days, events);
    if f.end <= curr {
      NothingFrom(f, curr, days, events, e);
    } else if days == [] {
      LastDaysAre(f, curr, events, e);
    } else if days[0].date < DateOf(curr) {
      PendingSkip(f, curr, days, events);
      SweepIs(f, curr, days[1..], events, e);
    } else {
      PendingStep(f, curr, days, events);
      NextStand(f, Reach(f, curr, days[0].date));
      SweepIs(f, At(days[0].date + 1, f.min), days[1..], events, e);
      StepIs(f, curr, days, events, e);
    }
  }

  lemma {:induction false} StepIs(f: Finder, curr: int, days: seq<Group>, events: seq<Event>, e: Entry)
    requires FinderOk(f) && curr < f.end && Grouped(days) && days != [] && DateOf(curr) <= days[0].date
    requires NoEventsIn(events, DateOf(curr), days[0].date) && IsDay(days[0].date, days[0].events, events)
    requires DayOf(days[0].events, days[0].date, events)
    requires var next := At(days[0].date + 1, f.min); e in Sweep(f, next, days[1..]) <==> InAnswer(f, next, events, e)
    ensures e in Sweep(f, curr, days) <==> InAnswer(f, curr, events, e)
  {
    hide Sweep, InAnswer, DayOf, FreeEntry, Permitted, Workday, BusyDay, DateOf, TimeOf, NoEventsIn, Grouped, IsDay;
    var date := days[0].date;
    SweepStep(f, curr, days, e);
    GroupIsBusy(days, events);
    InAnswerLater(f, curr, events, e);
    InAnswerLater(f, At(date + 1, f.min), events, e);
    ClockFacts(date + 1, f.min);
    FreeEntryEarlier(f, curr, date, e);
    WorkdaysAre(f, e.date);
    if e.date < date {
      if DateOf(curr) <= e.date { FreeEntryIs(f, curr, date, events, e); }
    } else if e.date == date {
      BusyEntryIs(f, curr, days[0].events, events, e);
    } else {
      LaterEntryIs(f, curr, date, events, e);
    }
  }

  lemma {:induction false} NextStand(f: Finder, curr: int)
    ensures NextDay(f, curr) == At(DateOf(curr) + 1, f.min)
  {
    hide DateOf;
  }

  lemma {:induction false} GroupIsBusy(days: seq<Group>, events: seq<Event>)
    requires Grouped(days) && days != [] && IsDay(days[0].date, days[0].events, events)
    ensures Busy(events, days[0].date)
  {
    hide DateOf;
    GroupedRest(days);
    assert days[0].events[0] in events;
  }

  lemma {:induction false} InAnswerLater(f: Finder, curr: int, events: seq<Event>, e: Entry)
    ensures InAnswer(f, curr, events, e) ==> DateOf(curr) <= e.date
  {
    hide DateOf, Workday, BusyDay, OpenDay, DayOf;
  }

  lemma {:induction false} FreeEntryEarlier(f: Finder, curr: int, date: int, e: Entry)
    ensures FreeEntry(f, curr, date, e) ==> DateOf(curr) <= e.date < date
  {
    hide DateOf, Permitted;
  }

  lemma {:induction false} NothingFrom(f: Finder, curr: int, days: seq<Group>, events: seq<Event>, e: Entry)
    requires f.end <= curr
    ensures Sweep(f, curr, days) == [] && !InAnswer(f, curr, events, e)
  {
    hide DateOf, Workday, BusyDay, OpenDay, DayOf;
  }

  lemma {:induction false} LastDaysAre(f: Finder, curr: int, events: seq<Event>, e: Entry)
    requires curr < f.end && forall ev | ev in events :: DateOf(ev.start) < DateOf(curr)
    ensures e in Sweep(f, curr, []) <==> InAnswer(f, curr, events, e)
  {
    hide OpenDays, OpenDay, FreeSlot, BusyDay, Permitted, Workday, DateOf, TimeOf;
    OpenDaysAre(f, curr, e);
    OpenDayAlone(f, Stand(f, curr, e.date));
    WorkdaysAre(f, e.date);
  }

  lemma {:induction false} BusyEntryIs(f: Finder, curr: int, day: seq<Event>, events: seq<Event>, e: Entry)
    requires DayOf(day, e.date, events) && Busy(events, e.date)
    requires curr < f.end && DateOf(curr) <= e.date && NoEventsIn(events, DateOf(curr), e.date)
    ensures InAnswer(f, curr, events, e)
            <==> Workday(f, e.date) && e == Entry(e.date, BusyDay(f, e.date, day, f.min))
  {
    hide BusyDay, DayOf, Workday, DateOf, TimeOf;
    if d :| DayOf(d, e.date, events) && e.slots == BusyDay(f, e.date, d, f.min) {
      DayIsUnique(d, day, e.date, events);
    }
  }

  /** What the answer consists of.  The days that are not weekends are in it once each, up to the
      end of the search, or to the first day with events behind which the sweep has passed it. */
  lemma {:induction false} AnswerIs(f: Finder, events: seq<Event>, e: Entry)
    requires FinderOk(f) && NoneEarly(f, events)
    ensures e in Availability(f, events) <==> InAnswer(f, First(f), events, e)
  {
    hide First, Sweep, NoneEarly, DayOf, DateOf;
    FirstPending(f, events);
    GroupsAreDays(events);
    SweepIs(f, First(f), GroupByDate(events), events, e);
  }

  /** The entries are in the order of their days, one for each; with `AnswerIs` this leaves no other
      answer. */
  lemma {:induction false} AnswerInOrder(f: Finder, events: seq<Event>)
    requires FinderOk(f)
    ensures Increasing(Availability(f, events))
  {
    hide First, Sweep, DateOf;
    SweepInOrder(f, First(f), GroupByDate(events));
  }

  predicate From(entries: seq<Entry>, date: int) {
    forall e | e in entries :: date <= e.date
  }

  lemma {:induction false} InOrder(a: seq<Entry>, b: seq<Entry>, mid: int)
    requires Increasing(a) && Increasing(b) && (forall e | e in a :: e.date < mid) && From(b, mid)
    ensures Increasing(a + b)
  {
    forall i, j | 0 <= i < j < |a + b| ensures (a + b)[i].date < (a + b)[j].date {
      if i < |a| <= j { assert a[i] in a && b[j - |a|] in b; }
    }
  }

  lemma {:induction false} FreeDaysInOrder(f: Finder, curr: int, date: int)
    requires FinderOk(f)
    ensures Increasing(FreeDays(f, curr, date))
    decreases date - DateOf(curr)
  {
    hide FreeDay, NextDay, FreeEntry, DateOf, TimeOf;
    if DateOf(curr) < date {
      var next := NextDay(f, curr);
      FreeDaysInOrder(f, next, date);
      FreeDaysAre(f, next, date);
      forall e ensures FreeEntry(f, next, date, e) ==> DateOf(next) <= e.date { FreeEntryEarlier(f, next, date, e); }
      FreeDayAlone(f, curr);
      InOrder(FreeDay(f, curr), FreeDays(f, next, date), DateOf(next));
    }
  }

  lemma {:induction false} FreeDayAlone(f: Finder, curr: int)
    ensures |FreeDay(f, curr)| <= 1 && forall e | e in FreeDay(f, curr) :: e.date == DateOf(curr)
  {
    hide FreeStart, Permitted, DateOf, TimeOf;
  }

  lemma {:induction false} OpenDaysInOrder(f: Finder, curr: int)
    ensures Increasing(OpenDays(f, curr)) && From(OpenDays(f, curr), DateOf(curr))
    decreases DateOf(f.end) + 1 - DateOf(curr)
  {
    hide OpenDay, NextDay, DateOf;
    if Open(f, curr) {
      var next := NextDay(f, curr);
      OpenDaysInOrder(f, next);
      OpenDayShort(f, curr);
      InOrder(OpenDay(f, curr), OpenDays(f, next), DateOf(next));
    }
  }

  lemma {:induction false} OpenDayShort(f: Finder, curr: int)
    ensures |OpenDay(f, curr)| <= 1 && forall e | e in OpenDay(f, curr) :: e.date == DateOf(curr)
  {
    hide Ceil, DateOf, TimeOf, Permitted;
  }

  lemma {:induction false} ReachDate(f: Finder, curr: int, date: int)
    ensures DateOf(Reach(f, curr, date)) == Max(DateOf(curr), date)
  {
    hide DateOf, TimeOf;
    ClockFacts(date, f.min);
  }

  lemma {:induction false} FreeDaysWithin(f: Finder, curr: int, date: int)
    requires FinderOk(f)
    ensures forall e | e in FreeDays(f, curr, date) :: DateOf(curr) <= e.date < date && Permitted(f, e.date)
  {
    hide Permitted, FreeDays, DateOf, TimeOf;
    FreeDaysAre(f, curr, date);
  }

  lemma {:induction false} SweepInOrder(f: Finder, curr: int, days: seq<Group>)
    requires FinderOk(f)
    ensures Increasing(Sweep(f, curr, days)) && From(Sweep(f, curr, days), DateOf(curr))
    decreases |days|
  {
    hide FreeDays, OpenDays, BusyDay, NextDay, Reach, Permitted, DateOf, Increasing;
    if f.end <= curr {
      NoneInOrder();
    } else if days == [] {
      OpenDaysInOrder(f, curr);
    } else {
      var date, reached := days[0].date, Reach(f, curr, days[0].date);
      var next := NextDay(f, reached);
      var free := FreeDays(f, curr, date);
      var entry := Entry(DateOf(reached), BusyDay(f, DateOf(reached), days[0].events, f.min));
      ReachDate(f, curr, date);
      FreeDaysInOrder(f, curr, date);
      FreeDaysWithin(f, curr, date);
      SweepInOrder(f, next, days[1..]);
      SweepInOrder(f, reached, days[1..]);
      OneInOrder(entry);
      InOrder([entry], Sweep(f, next, days[1..]), DateOf(next));
      InOrder(free, [entry] + Sweep(f, next, days[1..]), DateOf(reached));
      InOrder(free, Sweep(f, next, days[1..]), DateOf(reached));
      InOrder(free, Sweep(f, reached, days[1..]), DateOf(reached));
    }
  }

  lemma {:induction false} NoneInOrder()
    ensures Increasing([])
  {
  }

  lemma {:induction false} OneInOrder(e: Entry)
    ensures Increasing([e])
  {
  }

  // ----- weekends -----

  /** Without weekends no Saturday and no Sunday is in the answer. */
  lemma {:induction false} NoWeekends(f: Finder, events: seq<Event>)
    requires FinderOk(f) && !f.includeWeekends
    requires forall ev | ev in events && DateOf(ev.start) % 7 != 2 && DateOf(ev.start) % 7 != 3 ::
               DateOf(First(f)) <= DateOf(ev.start)
    ensures forall e | e in Availability(f, events) :: e.date % 7 != 2 && e.date % 7 != 3
  {
    hide First, Availability, Permitted, DateOf, Reached, Busy, BusyLater, DayOf, OpenDay, BusyDay;
    forall ev | ev in events { WorkdaysAre(f, DateOf(ev.start)); }
    forall e | e in Availability(f, events) ensures e.date % 7 != 2 && e.date % 7 != 3 { AnswerIs(f, events, e); }
  }

  /** And no time that is free on another day is lost because of its day. */
  lemma {:induction false} WorkdaysCovered(f: Finder, events: seq<Event>, start: int, end: int)
    requires FinderOk(f) && EventsKnown(f, events) && f.start <= start < f.end && NotCut(f, start, end)
    requires f.includeWeekends || (DateOf(start) % 7 != 2 && DateOf(start) % 7 != 3)
    requires start % 30 == 0 && end % 30 == 0 && f.duration <= end - start
    requires At(DateOf(start), f.min) <= start && end <= At(DateOf(start), f.max)
    requires forall ev | ev in events :: end <= ev.start || ev.end <= start
    ensures CoveredBy(Availability(f, events), start, end)
  {
    hide Availability, CoveredBy, NotCut, NoneEarly, Permitted, DateOf, TimeOf;
    WorkdaysAre(f, DateOf(start));
    FinderComplete(f, events, start, end);
  }

  // ----- weekends and events before the first day -----

  /** Only where the sweep stands before the end can a weekend get into the answer. */
  lemma {:induction false} WeekendsStand(f: Finder, curr: int, days: seq<Group>)
    requires FinderOk(f)
    ensures forall e | e in Sweep(f, curr, days) :: Permitted(f, e.date) || Stand(f, curr, e.date) < f.end
    decreases |days|
  {
    hide FreeDays, OpenDays, BusyDay, NextDay, Reach, Permitted, DateOf, TimeOf;
    if curr < f.end {
      if days == [] {
        forall e | e in OpenDays(f, curr) ensures Permitted(f, e.date) {
          OpenDaysAre(f, curr, e);
          OpenDayAlone(f, Stand(f, curr, e.date));
        }
      } else {
        var date, reached := days[0].date, Reach(f, curr, days[0].date);
        var next := NextDay(f, reached);
        ReachDate(f, curr, date);
        ReachIs(f, curr, date);
        NextStand(f, reached);
        FreeDaysWithin(f, curr, date);
        WeekendsStand(f, next, days[1..]);
        WeekendsStand(f, reached, days[1..]);
        SweepInOrder(f, next, days[1..]);
        SweepInOrder(f, reached, days[1..]);
        ClockFacts(date, f.min);
      }
    }
  }

  lemma {:induction false} ReachIs(f: Finder, curr: int, date: int)
    ensures Reach(f, curr, date) == if DateOf(curr) < date then At(date, f.min) else curr
  {
    hide DateOf;
  }

  /** An event on each of the days from `from` on. */
  function Daily(from: int, n: nat): seq<Event> {
    if n == 0 then [] else Daily(from, n - 1) + [MinuteOf(from + n - 1, 600)]
  }

  function DailyGroups(from: int, n: nat): seq<Group> {
    if n == 0 then [] else DailyGroups(from, n - 1) + [Group(from + n - 1, [MinuteOf(from + n - 1, 600)])]
  }

  lemma {:induction false} DailyLater(from: int, n: nat)
    ensures forall x | x in Daily(from, n) :: from <= DateOf(x.start) && x.start < x.end
    ensures forall g | g in DailyGroups(from, n) :: g.date < from + n
  {
    hide DateOf;
    if n > 0 {
      DailyLater(from, n - 1);
      ClockFacts(from + n - 1, 600);
    }
  }

  lemma {:induction false} DailyFirst(from: int, n: nat)
    requires n > 0
    ensures DailyGroups(from, n) == [Group(from, [MinuteOf(from, 600)])] + DailyGroups(from + 1, n - 1)
  {
    if n > 1 { DailyFirst(from, n - 1); }
  }

  lemma {:induction false} DayAppended(days: seq<Group>, ev: Event)
    requires forall g | g in days :: g.date < DateOf(ev.start)
    ensures InsertByDate(days, ev) == days + [Group(DateOf(ev.start), [ev])]
  {
    hide DateOf;
    if days != [] {
      assert days[0] in days;
      DayAppended(days[1..], ev);
      assert days == [days[0]] + days[1..];
    }
  }

  lemma {:induction false} GroupsOfNone()
    ensures GroupByDate([]) == []
  {
  }

  lemma {:induction false} GroupsOfMore(events: seq<Event>, ev: Event)
    ensures GroupByDate(events + [ev]) == InsertByDate(GroupByDate(events), ev)
  {
    assert (events + [ev])[..|events|] == events;
  }

  lemma {:induction false} DailyStep(from: int, n: nat)
    ensures Daily(from, 0) == [] && DailyGroups(from, 0) == []
    ensures n > 0 ==>
              var date := from + n - 1;
              && Daily(from, n) == Daily(from, n - 1) + [MinuteOf(date, 600)]
              && DailyGroups(from, n) == DailyGroups(from, n - 1) + [Group(date, [MinuteOf(date, 600)])]
  {
  }

  lemma {:induction false} DailyGrouped(from: int, n: nat)
    ensures GroupByDate(Daily(from, n)) == DailyGroups(from, n)
  {
    hide DateOf, InsertByDate, GroupByDate, Daily, DailyGroups;
    DailyStep(from, n);
    if n == 0 {
      GroupsOfNone();
    } else {
      var ev, days := MinuteOf(from + n - 1, 600), DailyGroups(from, n - 1);
      DailyGrouped(from, n - 1);
      ClockFacts(from + n - 1, 600);
      assert forall g | g in days :: g.date < DateOf(ev.start) by { DailyLater(from, n - 1); }
      DayAppended(days, ev);
      GroupsOfMore(Daily(from, n - 1), ev);
    }
  }

  /** Each of these days takes the next one, up to the day after the last. */
  lemma {:induction false} DaysShifted(f: Finder, from: int, n: nat)
    requires n > 0 && At(from + n, f.min) < f.end && forall d | from <= d < from + n :: Permitted(f, d)
    ensures exists e | e in Sweep(f, At(from + 1, f.min), DailyGroups(from, n)) :: e.date == from + n
    decreases n
  {
    hide BusyDay, NextDay, Sweep, Permitted, DateOf, TimeOf;
    var curr, days := At(from + 1, f.min), DailyGroups(from, n);
    ClockFacts(from + 1, f.min);
    DailyFirst(from, n);
    EarlyGroup(f, curr, days);
    NextStand(f, curr);
    var entry := Entry(from + 1, BusyDay(f, from + 1, days[0].events, f.min));
    assert entry in Sweep(f, curr, days);
    if n > 1 {
      assert days[1..] == DailyGroups(from + 1, n - 1);
      DaysShifted(f, from + 1, n - 1);
      var e :| e in Sweep(f, At(from + 2, f.min), days[1..]) && e.date == from + n;
      assert e in Sweep(f, curr, days);
    }
  }

  lemma {:induction false} FirstWeekend(f: Finder, from: int, date: int) returns (first: int)
    requires from <= date && !Permitted(f, date)
    ensures from <= first <= date && !Permitted(f, first) && forall d | from <= d < first :: Permitted(f, d)
    decreases date - from
  {
    hide Permitted;
    first := from;
    if Permitted(f, from) { first := FirstWeekend(f, from + 1, date); }
  }

  lemma {:induction false} WeekendOffered(f: Finder, ev: Event, date: int)
    requires FinderOk(f) && Permitted(f, DateOf(ev.start)) && DateOf(ev.start) < DateOf(First(f)) <= date
    requires !Permitted(f, date) && Stand(f, First(f), date) < f.end
    ensures exists rest | EventsKnown(f, rest) ::
              exists e | e in Availability(f, rest + [ev]) :: !Permitted(f, e.date)
  {
    hide First, Sweep, BusyDay, NextDay, GroupByDate, Permitted, DateOf, TimeOf;
    var first := DateOf(First(f));
    var weekend := FirstWeekend(f, first, date);
    var n := weekend - first;
    var rest := Daily(first, n);
    TimeIsAt(First(f));
    DailyLater(first, n);
    var later := EarlyAnswer(f, rest, ev);
    NextStand(f, First(f));
    var taken := Entry(first, BusyDay(f, first, [ev], f.min));
    assert taken in Availability(f, rest + [ev]);
    if n > 0 {
      DailyGrouped(first, n);
      DaysShifted(f, first, n);
      var e :| e in Sweep(f, At(first + 1, f.min), DailyGroups(first, n)) && e.date == weekend;
      assert e in Availability(f, rest + [ev]);
    }
  }

  /** With an event of a workday before the first day, no answer has a weekend in it exactly when the
      search has none: the sweep stands on no Saturday or Sunday before the end. */
  lemma {:induction false} EarlyWeekendsExactly(f: Finder, ev: Event)
    requires FinderOk(f) && !f.includeWeekends && DateOf(ev.start) < DateOf(First(f))
    requires DateOf(ev.start) % 7 != 2 && DateOf(ev.start) % 7 != 3
    ensures (forall rest | EventsKnown(f, rest) ::
               forall e | e in Availability(f, rest + [ev]) :: e.date % 7 != 2 && e.date % 7 != 3)
            <==> forall date | DateOf(First(f)) <= date && (date % 7 == 2 || date % 7 == 3) ::
                   f.end <= Stand(f, First(f), date)
  {
    hide First, Sweep, Stand, GroupByDate, EventsKnown, DateOf, TimeOf;
    WorkdaysAre(f, DateOf(ev.start));
    if date :| DateOf(First(f)) <= date && (date % 7 == 2 || date % 7 == 3) && Stand(f, First(f), date) < f.end {
      WorkdaysAre(f, date);
      WeekendOffered(f, ev, date);
      var rest :| EventsKnown(f, rest) && exists e | e in Availability(f, rest + [ev]) :: !Permitted(f, e.date);
      var e :| e in Availability(f, rest + [ev]) && !Permitted(f, e.date);
      WorkdaysAre(f, e.date);
    } else {
      forall rest, e | EventsKnown(f, rest) && e in Availability(f, rest + [ev])
        ensures e.date % 7 != 2 && e.date % 7 != 3
      {
        WeekendsStand(f, First(f), GroupByDate(rest + [ev]));
        SweepInOrder(f, First(f), GroupByDate(rest + [ev]));
        WorkdaysAre(f, e.date);
      }
    }
  }

  /** For example, a search of a Saturday without weekends, and an event on the Friday before it. */
  lemma {:induction false} EarlyEventOffersWeekend(f: Finder, ev: Event)
    requires f == Finder(2880, 4320, 540, 1020, 30, false) && ev == Event(2040, 2100)
    ensures Availability(f, []) == []
    ensures exists e | e in Availability(f, [ev]) :: e.date == 2
  {
    FirstOnSaturday();
    hide First, Availability, Sweep, BusyDay, GroupByDate, DateOf, TimeOf;
    ClockFacts(1, 600);
    ClockFacts(2, 540);
    var later := EarlyAnswer(f, [], ev);
    assert [] + [ev] == [ev];
    assert Entry(2, BusyDay(f, 2, [ev], f.min)) in Availability(f, [ev]);
    if Availability(f, []) != [] {
      AnswerIs(f, [], Availability(f, [])[0]);
    }
  }

  lemma {:induction false} FirstOnSaturday()
    ensures First(Finder(2880, 4320, 540, 1020, 30, false)) == 3420
  {
    hide Ceil, DateOf, TimeOf;
    ClockFacts(2, 0);
    RoundedUp(3420);
    RoundingIsTight(3420, 3420);
  }
}
