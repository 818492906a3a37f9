/** Which events the finder can deal with: the exact conditions on the events under which the
    answer is sound, for all searches. */
module EventLimits {
  import opened Grouping
  import opened Scheduler
  import opened SchedulerProofs
  import opened SchedulerLimits

  predicate Sound(f: Finder, events: seq<Event>) {
    EntriesOk(f, Availability(f, events), events, DateOf(First(f)))
  }

  /** A search that is sound as far as its bounds go, and begins no later than the events. */
  predicate Searches(f: Finder, events: seq<Event>) {
    && FinderOk(f) && SoundBounds(f) && NotTooEarly(f, First(f))
    && forall ev | ev in events :: DateOf(First(f)) <= DateOf(ev.start)
  }

  predicate OfOneDay(ev: Event) {
    ev.start < ev.end && DateOf(ev.end) == DateOf(ev.start)
  }

  /** A search for whole days, weekends included. */
  function DaySearch(from: int, until: int): Finder {
    Finder(At(from, 0), At(until, 0), 0, 1410, 30, true)
  }

  lemma {:induction false} DaySearchIs(from: int, until: int)
    ensures var f := DaySearch(from, until);
            && FinderOk(f) && SoundBounds(f) && First(f) == At(from, 0) && DateOf(First(f)) == from
            && NotTooEarly(f, First(f)) && forall date :: Permitted(f, date)
  {
    hide Ceil, DateOf, TimeOf;
    ClockFacts(from, 0);
    AlignedAt(from, 0);
    RoundedUp(At(from, 0));
    RoundingIsTight(At(from, 0), At(from, 0));
  }

  lemma {:induction false} AlignedRounding(t: int)
    requires Aligned(t)
    ensures Ceil(t) == t && Floor(t) == t
  {
    hide Ceil, Floor, Aligned;
    RoundedUp(t);
    RoundedDown(t);
    RoundingIsTight(t, t);
  }

  lemma {:induction false} DayEventOk(f: Finder, ev: Event)
    requires OfOneDay(ev)
    ensures EventOk(f, ev)
  {
    hide DateOf, TimeOf, Permitted;
    TimeIsAt(ev.start);
    TimeIsAt(ev.end);
    forall d | DateOf(ev.start) <= d && At(d, 0) < ev.end ensures d == DateOf(ev.start) {}
  }

  // ----- one event -----

  /** An event that lasts into the next day is not seen there. */
  lemma {:induction false} NextDayOverlapped(date: int, ev: Event)
    requires DateOf(ev.start) == date && At(date + 1, 0) < ev.end
    ensures !Sound(DaySearch(date, date + 2), [ev])
  {
    hide BusyDay, OpenDay, OpenEnd, NextDay, NotTooEarly, SoundBounds, First, Permitted,
         Ceil, Floor, DateOf, TimeOf, GroupByDate, HalfHours, Aligned;
    var f := DaySearch(date, date + 2);
    var next := NextDay(f, At(date, 0));
    DaySearchIs(date, date + 2);
    ClockFacts(date, 0);
    ClockFacts(date + 1, 0);
    ClockFacts(date + 2, 0);
    TimeIsAt(ev.start);
    GroupOne(ev);
    BusyDayOffered(f, At(date, 0), date, [ev], []);
    assert [Group(date, [ev])] + [] == [Group(date, [ev])];
    StandingNext(f, At(date, 0));
    AlignedAt(date + 1, 0);
    StandingEarly(f, next);
    OpenDayIs(f, next);
    var s := Slot(next, At(date + 1, 1410));
    var e := OpenDays(f, next)[0];
    assert e == Entry(date + 1, [s]) && e in Availability(f, [ev]);
    assert s in e.slots && !Clear(s, ev);
  }

  /** One event is dealt with by every search exactly when it ends on the day on which it
      starts. */
  lemma {:induction false} OneEventExactly(ev: Event)
    requires ev.start < ev.end
    ensures (forall f | Searches(f, [ev]) :: Sound(f, [ev])) <==> DateOf(ev.end) == DateOf(ev.start)
  {
    hide FinderOk, SoundBounds, NotTooEarly, First, BusyDay, Availability, DateOf, TimeOf, Permitted;
    var date := DateOf(ev.start);
    if DateOf(ev.end) == date {
      forall f | Searches(f, [ev]) ensures Sound(f, [ev]) {
        OneEventOk(f, ev);
        FinderSound(f, [ev]);
      }
    } else {
      DaySearchIs(date, date + 2);
      TimeIsAt(ev.start);
      TimeIsAt(ev.end);
      assert Searches(DaySearch(date, date + 2), [ev]);
      if At(date + 1, 0) < ev.end {
        NextDayOverlapped(date, ev);
      } else {
        MidnightOverlapped(date, ev);
      }
    }
  }

  /** The slots of a day with one event that ends at midnight are wrong: the time of day of its end
      is taken to be on its own day. */
  lemma {:induction false} MidnightOverlapped(date: int, ev: Event)
    requires DateOf(ev.start) == date && ev.end == At(date + 1, 0)
    ensures !Sound(DaySearch(date, date + 2), [ev])
  {
    var f := DaySearch(date, date + 2);
    var slots := BusyDay(f, date, [ev], 0);
    hide NextDay, NotTooEarly, SoundBounds, First, Permitted, DateOf, TimeOf, GroupByDate, HalfHours, Inside, Aligned,
         SlotBefore, Ceil, Floor;
    DaySearchIs(date, date + 2);
    assert !EntryOk(f, Entry(date, slots), [ev]) by {
      var s := Slot(At(date, 0), At(date, 1410));
      ClockFacts(date + 1, 0);
      TimeIsAt(ev.start);
      AlignedAt(date, 0);
      AlignedAt(date, 1410);
      RoundedUp(At(date, 0));
      RoundedDown(At(date, 1410));
      RoundingIsTight(At(date, 0), At(date, 0));
      RoundingIsTight(At(date, 1410), At(date, 1410));
      SlotBeforeIs(f, date, ev, 0);
      assert [ev][1..] == [];
      assert TimeOf(ev.end) == 0;
      assert BusyDay(f, date, [], 0) == SlotAfter(f, date, 0) == [s];
      assert slots == SlotBefore(f, date, ev, 0) + [s];
      if 1410 <= TimeOf(ev.start) {
        assert SlotBefore(f, date, ev, 0) == [s];
        assert slots[0] == s && slots[1] == s;
        assert !Separated(slots);
      } else {
        assert s in slots && !Clear(s, ev);
      }
    }
    hide BusyDay, Separated, Clear, EntryOk;
    ClockFacts(date, 0);
    GroupOne(ev);
    BusyDayOffered(f, At(date, 0), date, [ev], []);
    assert [Group(date, [ev])] + [] == [Group(date, [ev])];
    assert Entry(date, slots) in Availability(f, [ev]);
  }

  /** For example, an event from 15:00 until midnight. */
  lemma {:induction false} MidnightEndOverlaps()
    ensures exists f :: Searches(f, [Event(900, 1440)]) && !Sound(f, [Event(900, 1440)])
  {
    OneEventExactly(Event(900, 1440));
  }

  // ----- late gaps -----

  /** A gap that begins after 23:30 is rounded up to midnight, and a slot is offered that ends
      before it begins. */
  lemma {:induction false} LateSlot(f: Finder, date: int, ev: Event, from: TimeOfDay)
    requires FinderOk(f) && DateOf(ev.start) == date && LateGap(ev, from)
    ensures var end := Floor(Min(TimeOf(ev.start), f.max));
            SlotBefore(f, date, ev, from) ==
              if f.duration <= end then [Slot(At(date + 1, 0), At(date, end))] else []
  {
    hide Ceil, Floor, DateOf, TimeOf, Aligned;
    var limit := Min(TimeOf(ev.start), f.max);
    TimeIsAt(ev.start);
    AlignedAt(date, 1410);
    AlignedAt(date, 1440);
    RoundedUp(At(date, from));
    RoundingIsTight(At(date, from), At(date, 1440));
    NextHalfHour(At(date, 1410), Ceil(At(date, from)));
    RoundingOfDay(date, limit);
    RoundedDown(limit);
    AlignedAt(0, 0);
    RoundingIsTight(limit, 0);
    ClockFacts(date + 1, 0);
    ClockFacts(date, Floor(limit));
  }

  lemma {:induction false} LateSlotOffered(f: Finder, date: int, events: seq<Event>, from: TimeOfDay)
    requires FinderOk(f) && f.duration <= f.max == 1410 && !GapFree(events, from)
    requires forall ev | ev in events :: DateOf(ev.start) == date
    ensures Slot(At(date + 1, 0), At(date, 1410)) in BusyDay(f, date, events, from)
  {
    hide FinderOk, SlotBefore, SlotAfter, Floor, DateOf, TimeOf;
    var ev := events[0];
    assert ev in events;
    if LateGap(ev, from) {
      LateSlot(f, date, ev, from);
      AlignedRounding(1410);
    } else {
      LateSlotOffered(f, date, events[1..], Max(TimeOf(ev.end), from));
    }
  }

  /** Every day with events is reached by a search for whole days. */
  lemma {:induction false} DayReached(f: Finder, curr: int, days: seq<Group>, events: seq<Event>, b: Event)
    returns (dayEvents: seq<Event>)
    requires Pending(f, curr, days, events) && b in Flatten(days) && forall date :: Permitted(f, date)
    requires f.end == At(DateOf(b.start) + 1, 0)
    ensures IsDay(DateOf(b.start), dayEvents, events)
    ensures Entry(DateOf(b.start), BusyDay(f, DateOf(b.start), dayEvents, f.min)) in Sweep(f, curr, days)
    decreases |days|
  {
    hide NextDay, FreeDays, BusyDay, NotTooEarly, Permitted, DateOf, TimeOf, HalfHours, Aligned;
    TimeIsAt(curr);
    GroupedRest(days);
    var date := days[0].date;
    if date < DateOf(curr) { PendingSkip(f, curr, days, events); }
    PendingStep(f, curr, days, events);
    if b in days[0].events {
      dayEvents := days[0].events;
    } else {
      dayEvents := DayReached(f, NextDay(f, Reach(f, curr, date)), days[1..], events, b);
    }
  }

  lemma {:induction false} EarliestDate(events: seq<Event>) returns (date: int)
    ensures forall ev | ev in events :: date <= DateOf(ev.start)
  {
    hide DateOf;
    if events == [] {
      date := 0;
    } else {
      date := EarliestDate(events[1..]);
      date := Min(date, DateOf(events[0].start));
      assert forall ev | ev in events :: ev == events[0] || ev in events[1..];
    }
  }

  lemma {:induction false} LateGapBreaks(events: seq<Event>, b: Event)
    requires (forall ev | ev in events :: OfOneDay(ev)) && b in events && AfterLateGap(events, b)
    ensures exists f :: Searches(f, events) && !Sound(f, events)
  {
    hide AfterLateGap, FinderOk, SoundBounds, NotTooEarly, First,
         BusyDay, GapFree, NoneEarly, DateOf, TimeOf, Permitted;
    var date := DateOf(b.start);
    var from := EarliestDate(events);
    var f := DaySearch(from, date + 1);
    DaySearchIs(from, date + 1);
    NoneAreEarly(f, events);
    FirstPending(f, events);
    GroupingKeepsEvents(events, b);
    var dayEvents := DayReached(f, First(f), GroupByDate(events), events, b);
    SameGaps(date, dayEvents, events, b);
    assert [] + dayEvents == dayEvents;
    assert Walked(date, [], dayEvents, 0);
    LateGapMet(date, [], dayEvents, 0, b);
    LateSlotOffered(f, date, dayEvents, 0);
    var e := Entry(date, BusyDay(f, date, dayEvents, f.min));
    EntryInverted(f, e, events, Slot(At(date + 1, 0), At(date, 1410)));
    SearchReaches(f, events);
    assert e in Availability(f, events);
  }

  lemma {:induction false} NoneAreEarly(f: Finder, events: seq<Event>)
    requires forall ev | ev in events :: DateOf(First(f)) <= DateOf(ev.start)
    ensures NoneEarly(f, events)
  {
  }

  lemma {:induction false} SearchReaches(f: Finder, events: seq<Event>)
    requires FinderOk(f) && SoundBounds(f) && NotTooEarly(f, First(f))
    requires forall ev | ev in events :: DateOf(First(f)) <= DateOf(ev.start)
    ensures Searches(f, events)
  {
  }

  lemma {:induction false} EntryInverted(f: Finder, e: Entry, events: seq<Event>, s: Slot)
    requires s in e.slots && s.end < s.start
    ensures !EntryOk(f, e, events)
  {
    assert !Inside(f, e.date, s);
  }

  /** Events that end on the day on which they start are dealt with by every search exactly when
      none of them starts after a late gap. */
  lemma {:induction false} LateGapsExactly(events: seq<Event>)
    requires forall ev | ev in events :: OfOneDay(ev)
    ensures (forall f | Searches(f, events) :: Sound(f, events))
            <==> forall ev | ev in events :: !AfterLateGap(events, ev)
  {
    hide AfterLateGap, OfOneDay, FinderOk, SoundBounds, NotTooEarly,
         First, Availability, EntriesOk, EventOk, DateOf, Permitted;
    if b :| b in events && AfterLateGap(events, b) {
      LateGapBreaks(events, b);
    } else {
      forall f | Searches(f, events) ensures Sound(f, events) {
        forall ev | ev in events ensures EventOk(f, ev) { DayEventOk(f, ev); }
        FinderSound(f, events);
      }
    }
  }

  /** For example, an event at 23:40 after one that ends at 23:35. */
  lemma {:induction false} LateGapInverted()
    ensures exists f :: Searches(f, [Event(600, 1415), Event(1420, 1430)])
                        && !Sound(f, [Event(600, 1415), Event(1420, 1430)])
  {
    hide DateOf, TimeOf;
    var a, b := Event(600, 1415), Event(1420, 1430);
    ClockFacts(0, 600);
    ClockFacts(0, 1415);
    ClockFacts(0, 1420);
    ClockFacts(0, 1430);
    assert a in [a, b] && b in [a, b];
    LateGapBreaks([a, b], b);
  }

  // ----- events before the first day -----

  /** The wanted length fits before the event, from `min` on, or after it, until `max`. */
  predicate LeavesTime(f: Finder, ev: Event) {
    || f.duration <= Floor(TimeOf(ev.start)) - Ceil(f.min)
    || f.duration <= f.max - Ceil(Max(TimeOf(ev.end), f.min))
  }

  /** What an early event makes of the first day: the slot before it is on the day of the event,
      and the slot after it on the first day. */
  lemma {:induction false} EarlyDay(f: Finder, date: int, ev: Event)
    requires FinderOk(f) && f.min <= 1410 && OfOneDay(ev) && DateOf(ev.start) < date
    ensures var from, early := Max(TimeOf(ev.end), f.min), DateOf(ev.start);
            BusyDay(f, date, [ev], f.min) ==
              (if f.duration <= Floor(TimeOf(ev.start)) - Ceil(f.min) && Ceil(f.min) < f.max then
                 [Slot(At(early, Ceil(f.min)), At(early, Floor(TimeOf(ev.start))))] else [])
              + (if f.duration <= f.max - Ceil(from) then [Slot(At(date, Ceil(from)), At(date, f.max))] else [])
  {
    hide Ceil, Floor, DateOf, TimeOf, Aligned;
    var from, early, m := Max(TimeOf(ev.end), f.min), DateOf(ev.start), TimeOf(ev.start);
    TimeIsAt(ev.start);
    AlignedAt(0, 1410);
    RoundingIsTight(f.min, 1410);
    RoundingOfDay(early, f.min);
    RoundingOfDay(early, m);
    RoundingOfDay(date, from);
    RoundedUp(from);
    RoundedUp(f.min);
    RoundedDown(m);
    AlignedAt(0, 0);
    RoundingIsTight(m, 0);
    ClockFacts(early, Ceil(f.min));
    ClockFacts(early, Floor(m));
    EarlyDayIs(f, date, ev);
  }

  lemma {:induction false} OpeningInside(f: Finder)
    requires FinderOk(f) && SoundBounds(f)
    ensures Ceil(f.min) < f.max && f.min <= 1410
  {
  }

  lemma {:induction false} EarlyDayIs(f: Finder, date: int, ev: Event)
    ensures BusyDay(f, date, [ev], f.min) ==
              SlotBefore(f, date, ev, f.min) + SlotAfter(f, date, Max(TimeOf(ev.end), f.min))
  {
    hide SlotBefore, SlotAfter, TimeOf;
    assert [ev][1..] == [];
    assert BusyDay(f, date, [], Max(TimeOf(ev.end), f.min)) == SlotAfter(f, date, Max(TimeOf(ev.end), f.min));
  }

  /** An early event of a permitted day takes the place of the events of the day where the sweep
      stands; the later days are looked at after that day. */
  lemma {:induction false} EarlyTakesDay(f: Finder, curr: int, days: seq<Group>, ev: Event) returns (later: seq<Group>)
    requires curr < f.end && Permitted(f, DateOf(ev.start)) && DateOf(ev.start) < DateOf(curr) && Grouped(days)
    requires forall g | g in days :: g.date != DateOf(ev.start) && (g.date < DateOf(ev.start) ==> !Permitted(f, g.date))
    ensures (forall g | g in days :: DateOf(ev.start) < g.date) ==> later == days
    ensures Grouped(later) && forall g | g in later :: DateOf(ev.start) < g.date
    ensures forall x :: x in Flatten(later) <==> x in Flatten(days) && DateOf(ev.start) < DateOf(x.start)
    ensures Sweep(f, curr, InsertByDate(days, ev)) ==
              [Entry(DateOf(curr), BusyDay(f, DateOf(curr), [ev], f.min))] + Sweep(f, NextDay(f, curr), later)
    decreases |days|
  {
    hide BusyDay, NextDay, Permitted, DateOf, TimeOf;
    var date := DateOf(ev.start);
    if days != [] { GroupedRest(days); }
    if days == [] || date < days[0].date {
      later := days;
      AllLater(days, date);
      assert ([Group(date, [ev])] + days)[1..] == days;
      assert FreeDays(f, curr, date) == [];
    } else {
      assert days[0] in days;
      later := EarlyTakesDay(f, curr, days[1..], ev);
      assert ([days[0]] + InsertByDate(days[1..], ev))[1..] == InsertByDate(days[1..], ev);
      assert FreeDays(f, curr, days[0].date) == [];
    }
  }

  lemma {:induction false} AllLater(days: seq<Group>, date: int)
    requires Grouped(days) && (days != [] ==> date < days[0].date)
    ensures forall g | g in days :: date < g.date
    ensures forall x | x in Flatten(days) :: date < DateOf(x.start)
  {
    hide DateOf;
    if days != [] { GroupedRest(days); }
  }

  lemma {:induction false} GroupOf(rest: seq<Event>, g: Group)
    requires g in GroupByDate(rest)
    ensures exists ev | ev in rest :: DateOf(ev.start) == g.date
  {
    hide DateOf, GroupByDate;
    var days := GroupByDate(rest);
    GroupingIsStable(rest, 0);
    var i :| 0 <= i < |days| && days[i] == g;
    var ev := g.events[0];
    assert GroupOk(days[i]) && ev in days[i].events;
    FlattenMember(days, ev);
    GroupingKeepsEvents(rest, ev);
  }

  lemma {:induction false} EarlyAnswer(f: Finder, rest: seq<Event>, ev: Event) returns (later: seq<Group>)
    requires First(f) < f.end && Permitted(f, DateOf(ev.start)) && DateOf(ev.start) < DateOf(First(f))
    requires NoneEarly(f, rest)
    ensures (forall x | x in rest :: DateOf(ev.start) < DateOf(x.start)) ==> later == GroupByDate(rest)
    ensures Grouped(later) && forall g | g in later :: DateOf(ev.start) < g.date
    ensures forall x :: x in Flatten(later) <==> x in rest && DateOf(ev.start) < DateOf(x.start)
    ensures Availability(f, rest + [ev]) ==
              [Entry(DateOf(First(f)), BusyDay(f, DateOf(First(f)), [ev], f.min))]
              + Sweep(f, NextDay(f, First(f)), later)
  {
    hide First, Sweep, BusyDay, NextDay, Permitted, DateOf;
    var days := GroupByDate(rest);
    assert (rest + [ev])[..|rest|] == rest;
    assert GroupByDate(rest + [ev]) == InsertByDate(days, ev);
    hide GroupByDate;
    GroupingIsStable(rest, 0);
    forall g | g in days
      ensures g.date < DateOf(First(f)) ==> !Permitted(f, g.date)
      ensures (forall x | x in rest :: DateOf(ev.start) < DateOf(x.start)) ==> DateOf(ev.start) < g.date
    {
      GroupOf(rest, g);
    }
    later := EarlyTakesDay(f, First(f), days, ev);
    forall x ensures x in Flatten(days) <==> x in rest { GroupingKeepsEvents(rest, x); }
  }

  /** What the theorem below assumes of the search. */
  predicate Begins(f: Finder) {
    && FinderOk(f) && SoundBounds(f) && NotTooEarly(f, First(f)) && First(f) < f.end
    && (f.duration <= 1410 - Ceil(f.min) || f.end <= NextDay(f, First(f)))
  }

  lemma {:induction false} UnpermittedIsHarmless(f: Finder, rest: seq<Event>, ev: Event)
    requires EventsOk(f, rest) && EventOk(f, ev) && !Permitted(f, DateOf(ev.start))
    ensures EventsOk(f, rest + [ev])
  {
    hide EventOk, First, DateOf, TimeOf, Permitted;
    var all := rest + [ev];
    forall x | x in all && Permitted(f, DateOf(x.start)) ensures !AfterLateGap(all, x) {
      assert forall c | SameDay(c, x) :: c in all <==> c in rest;
      assert !AfterLateGap(rest, x);
    }
  }

  /** A search of one day, with an early event that leaves no time: the answer is empty. */
  lemma {:induction false} EarlyFillsDay(f: Finder, rest: seq<Event>, ev: Event)
    requires Begins(f) && EventsOk(f, rest) && OfOneDay(ev) && DateOf(ev.start) < DateOf(First(f))
    requires Permitted(f, DateOf(ev.start)) && Permitted(f, DateOf(First(f)))
    requires f.end <= NextDay(f, First(f)) && !LeavesTime(f, ev)
    ensures Sound(f, rest + [ev])
  {
    hide First, BusyDay, NextDay, NotTooEarly, SoundBounds, EventsSane,
         DateOf, TimeOf, Permitted, Availability, HalfHours;
    var later := EarlyAnswer(f, rest, ev);
    OpeningInside(f);
    EarlyDay(f, DateOf(First(f)), ev);
    assert Sweep(f, NextDay(f, First(f)), later) == [];
    assert Availability(f, rest + [ev]) == [Entry(DateOf(First(f)), [])];
  }

  /** An early event whose first day is offered on a day that is not permitted, or that leaves
      time: a slot on the day of the event, or one over the first day's own events. */
  lemma {:induction false} EarlyBreaksFirstDay(f: Finder, ev: Event) returns (rest: seq<Event>)
    requires Begins(f) && OfOneDay(ev) && DateOf(ev.start) < DateOf(First(f)) && Permitted(f, DateOf(ev.start))
    requires !Permitted(f, DateOf(First(f))) || LeavesTime(f, ev)
    ensures EventsOk(f, rest) && !Sound(f, rest + [ev])
  {
    hide First, BusyDay, NextDay, NotTooEarly, SoundBounds, EventsOk,
         Sweep, DateOf, TimeOf, Permitted, Availability, Ceil, Floor;
    var date, m, from := DateOf(First(f)), TimeOf(ev.start), Max(TimeOf(ev.end), f.min);
    var r := MinuteOf(date, f.max - 1);
    MinuteOk(f, date, f.max - 1);
    rest := [r];
    assert NoneEarly(f, rest) by { MinuteNotEarly(f, r); }
    var later := EarlyAnswer(f, rest, ev);
    OpeningInside(f);
    EarlyDay(f, date, ev);
    RoundedDown(m);
    var e := Availability(f, rest + [ev])[0];
    assert e == Entry(date, BusyDay(f, date, [ev], f.min)) && e in Availability(f, rest + [ev]);
    assert r in rest + [ev];
    if Permitted(f, date) {
      if f.duration <= Floor(m) - Ceil(f.min) {
        var s := Slot(At(DateOf(ev.start), Ceil(f.min)), At(DateOf(ev.start), Floor(m)));
        assert s in e.slots && !Inside(f, date, s);
      } else {
        var s := Slot(At(date, Ceil(from)), At(date, f.max));
        assert s in e.slots && !Clear(s, r);
      }
    }
    assert !EntryOk(f, e, rest + [ev]);
  }

  lemma {:induction false} MinuteNotEarly(f: Finder, r: Event)
    requires EventsOk(f, [r])
    ensures NoneEarly(f, [r])
  {
  }

  /** In a search of several days, the events of the first day are then early themselves. */
  lemma {:induction false} EarlyBreaksSecondDay(f: Finder, ev: Event) returns (rest: seq<Event>)
    requires Begins(f) && OfOneDay(ev) && DateOf(ev.start) < DateOf(First(f)) && Permitted(f, DateOf(ev.start))
    requires Permitted(f, DateOf(First(f))) && NextDay(f, First(f)) < f.end
    ensures EventsOk(f, rest) && !Sound(f, rest + [ev])
  {
    hide First, BusyDay, NextDay, NotTooEarly, SoundBounds, EventsOk, Sweep,
         DateOf, TimeOf, Permitted, Availability, Ceil, Floor, InsertByDate;
    var date, next, r := DateOf(First(f)), NextDay(f, First(f)), MinuteOf(DateOf(First(f)), 1438);
    MinuteOk(f, date, 1438);
    rest := [r];
    assert NoneEarly(f, rest) by { MinuteNotEarly(f, r); }
    var later := EarlyAnswer(f, rest, ev);
    assert later == [Group(date, [r])];
    InsertFirst(r);
    NoGroups();
    var last := EarlyTakesDay(f, next, [], r);
    ClockFacts(date, 1439);
    OpeningInside(f);
    EarlyDay(f, date + 1, r);
    LastRounding();
    RoundedUp(f.min);
    var e, s := Entry(date + 1, BusyDay(f, date + 1, [r], f.min)), Slot(At(date, Ceil(f.min)), At(date, 1410));
    assert e in Sweep(f, next, later);
    assert e in Availability(f, rest + [ev]);
    assert s in e.slots && !Inside(f, date + 1, s);
    assert !EntryOk(f, e, rest + [ev]);
  }

  lemma {:induction false} LastRounding()
    ensures Floor(1438) == 1410
  {
  }

  lemma {:induction false} InsertFirst(r: Event)
    ensures InsertByDate([], r) == [Group(DateOf(r.start), [r])]
  {
  }

  lemma {:induction false} NoGroups()
    ensures Grouped([])
  {
  }

  /** An event that is dated before the first day leaves every answer sound exactly when its day
      is not permitted; or when the search ends with the first day, which is permitted, and the
      event leaves no time on it. */
  lemma {:induction false} EarlyEventsExactly(f: Finder, ev: Event)
    requires Begins(f) && EventOk(f, ev) && DateOf(ev.start) < DateOf(First(f))
    ensures (forall rest | EventsOk(f, rest) :: Sound(f, rest + [ev]))
            <==> || !Permitted(f, DateOf(ev.start))
                 || (Permitted(f, DateOf(First(f))) && f.end <= NextDay(f, First(f)) && !LeavesTime(f, ev))
  {
    hide FinderOk, First, NextDay, NotTooEarly, SoundBounds, EventsSane, NoneEarly,
         Availability, EntriesOk, LeavesTime, DateOf, Permitted;
    if !Permitted(f, DateOf(ev.start)) {
      forall rest | EventsOk(f, rest) ensures Sound(f, rest + [ev]) {
        UnpermittedIsHarmless(f, rest, ev);
        FinderSound(f, rest + [ev]);
      }
    } else if !Permitted(f, DateOf(First(f))) || LeavesTime(f, ev) {
      var rest := EarlyBreaksFirstDay(f, ev);
    } else if NextDay(f, First(f)) < f.end {
      var rest := EarlyBreaksSecondDay(f, ev);
    } else {
      forall rest | EventsOk(f, rest) ensures Sound(f, rest + [ev]) { EarlyFillsDay(f, rest, ev); }
    }
  }

  /** For example, a search of the second day, from 9:00, and an event at 10:00 on the first. */
  lemma {:induction false} EarlyEventBreaks()
    ensures var f, ev := Finder(1980, 2880, 540, 1020, 30, true), Event(600, 660);
            Begins(f) && EventOk(f, ev) && exists rest | EventsOk(f, rest) :: !Sound(f, rest + [ev])
  {
    hide DateOf, TimeOf, NextDay, EventsOk, Sound, EventOk;
    var f, ev := Finder(1980, 2880, 540, 1020, 30, true), Event(600, 660);
    ClockFacts(1, 540);
    ClockFacts(0, 600);
    ClockFacts(0, 660);
    AlignedAt(1, 540);
    RoundedUp(1980);
    RoundingIsTight(1980, 1980);
    DayEventOk(f, ev);
    EarlyEventsExactly(f, ev);
  }

  // ----- free time lost to an event before the first day -----

  /** The sweep goes on behind an early event: only events of the day before `curr` may still be to
      come, and then the day at `curr`, which they take, is not permitted. */
  predicate PendingBehind(f: Finder, curr: int, days: seq<Group>, events: seq<Event>) {
    && FinderOk(f) && Standing(f, curr) && Grouped(days)
    && (forall ev | ev in events && DateOf(curr) <= DateOf(ev.start) :: ev in Flatten(days))
    && (forall ev | ev in Flatten(days) && Permitted(f, DateOf(ev.start)) ::
          DateOf(curr) - (if Permitted(f, DateOf(curr)) then 0 else 1) <= DateOf(ev.start))
    && (forall ev | ev in Flatten(days) :: ev in events)
    && WholeDays(days, events)
  }

  lemma {:induction false} BehindSkip(f: Finder, curr: int, days: seq<Group>, events: seq<Event>)
    requires PendingBehind(f, curr, days, events) && days != [] && days[0].date < DateOf(curr)
    ensures PendingBehind(f, curr, days[1..], events)
  {
    hide WholeDays, Standing, DateOf, TimeOf, Permitted;
    GroupedRest(days);
    WholeDaysRest(days, events);
  }

  lemma {:induction false} BehindByOne(f: Finder, curr: int, days: seq<Group>, events: seq<Event>)
    requires PendingBehind(f, curr, days, events) && days != [] && days[0].date < DateOf(curr)
    requires Permitted(f, days[0].date)
    ensures !Permitted(f, DateOf(curr)) && days[0].date == DateOf(curr) - 1
  {
    hide WholeDays, Standing, DateOf, TimeOf, Permitted;
    GroupedRest(days);
    var x := days[0].events[0];
    assert x in Flatten(days) && DateOf(x.start) == days[0].date;
  }

  lemma {:induction false} BehindStep(f: Finder, curr: int, days: seq<Group>, events: seq<Event>)
    requires PendingBehind(f, curr, days, events) && days != [] && days[0].date == DateOf(curr) - 1
    requires !Permitted(f, DateOf(curr))
    ensures Pending(f, NextDay(f, curr), days[1..], events)
  {
    hide WholeDays, FinderOk, Flatten, Standing, NextDay, NotTooEarly, DateOf, TimeOf, Permitted;
    var next := NextDay(f, curr);
    GroupedRest(days);
    WholeDaysRest(days, events);
    StandingNext(f, curr);
    forall x | x in Flatten(days[1..]) ensures Permitted(f, DateOf(x.start)) ==> DateOf(next) <= DateOf(x.start) {
      assert DateOf(curr) <= DateOf(x.start);
    }
  }

  lemma {:induction false} BehindCaughtUp(f: Finder, curr: int, days: seq<Group>, events: seq<Event>)
    requires PendingBehind(f, curr, days, events) && (days != [] ==> DateOf(curr) <= days[0].date)
    ensures Pending(f, curr, days, events)
  {
    hide Standing, DateOf, TimeOf, Permitted;
    if days != [] { AllLater(days, DateOf(curr) - 1); }
  }

  /** A day with early events takes the place of the day where the sweep stands. */
  lemma {:induction false} EarlyGroup(f: Finder, curr: int, days: seq<Group>)
    requires curr < f.end && days != [] && days[0].date < DateOf(curr)
    ensures Sweep(f, curr, days) ==
              if Permitted(f, days[0].date) then
                [Entry(DateOf(curr), BusyDay(f, DateOf(curr), days[0].events, f.min))]
                + Sweep(f, NextDay(f, curr), days[1..])
              else Sweep(f, curr, days[1..])
  {
    hide BusyDay, NextDay, Permitted, DateOf, TimeOf;
    assert FreeDays(f, curr, days[0].date) == [];
  }

  /** One day later at the latest, the sweep has all events of the days to come before it. */
  lemma {:induction false} SweepRecovers(f: Finder, curr: int, days: seq<Group>, events: seq<Event>)
    returns (taken: seq<Entry>, next: int, rest: seq<Group>)
    requires PendingBehind(f, curr, days, events) && curr < f.end
    ensures Sweep(f, curr, days) == taken + Sweep(f, next, rest) && Pending(f, next, rest, events)
    ensures next == curr || (next == NextDay(f, curr) && !Permitted(f, DateOf(curr)))
    decreases |days|
  {
    hide Standing, NextDay, BusyDay, Sweep, Permitted, DateOf, TimeOf;
    if days == [] || DateOf(curr) <= days[0].date {
      BehindCaughtUp(f, curr, days, events);
      taken, next, rest := [], curr, days;
    } else {
      EarlyGroup(f, curr, days);
      if Permitted(f, days[0].date) {
        BehindByOne(f, curr, days, events);
        BehindStep(f, curr, days, events);
        taken := [Entry(DateOf(curr), BusyDay(f, DateOf(curr), days[0].events, f.min))];
        next, rest := NextDay(f, curr), days[1..];
      } else {
        BehindSkip(f, curr, days, events);
        taken, next, rest := SweepRecovers(f, curr, days[1..], events);
      }
    }
  }

  /** The first day loses nothing to the early event that takes it: nothing is wanted there, or
      the time of day of the event's end is no later than what could be wanted. */
  predicate FirstDayLeft(f: Finder, ev: Event) {
    var date, t := DateOf(First(f)), FirstWanted(f);
    || !Permitted(f, date) || f.end <= At(date, t) || Floor(f.max) - t < f.duration
    || Ceil(Max(TimeOf(ev.end), f.min)) <= t
  }

  /** The second day loses nothing to the events of the first day, which are then early too: there
      can be none on a permitted day, or nothing is wanted on the second day. */
  predicate SecondDayLeft(f: Finder) {
    var date := DateOf(First(f));
    || !Permitted(f, date) || !Permitted(f, date + 1)
    || f.end <= At(date + 1, Ceil(f.min)) || Floor(f.max) - Ceil(f.min) < f.duration
  }

  lemma {:induction false} EarlyDayCovers(f: Finder, ev: Event, start: int, end: int)
    requires FinderOk(f) && Wanted(f, [], start, end) && Ceil(Max(TimeOf(ev.end), f.min)) <= TimeOf(start)
    ensures CoveredBy([Entry(DateOf(start), BusyDay(f, DateOf(start), [ev], f.min))], start, end)
  {
    hide BusyDay, SlotBefore, SlotAfter, Ceil, Floor, DateOf, TimeOf, Permitted, Aligned;
    var date, from := DateOf(start), Max(TimeOf(ev.end), f.min);
    TimeIsAt(start);
    RoundedUp(from);
    SlotAfterComplete(f, date, from, start, end);
    EarlyDayIs(f, date, ev);
    var e := Entry(date, BusyDay(f, date, [ev], f.min));
    assert e in [e];
  }

  lemma {:induction false} BehindEarly(f: Finder, rest: seq<Event>, ev: Event, later: seq<Group>)
    requires FinderOk(f) && NoneEarly(f, rest) && DateOf(ev.start) < DateOf(First(f)) && Grouped(later)
    requires forall g | g in later :: DateOf(ev.start) < g.date
    requires forall x :: x in Flatten(later) <==> x in rest && DateOf(ev.start) < DateOf(x.start)
    requires !Permitted(f, DateOf(First(f))) || !Permitted(f, DateOf(First(f)) + 1)
    ensures PendingBehind(f, NextDay(f, First(f)), later, rest)
  {
    hide First, NextDay, Standing, DateOf, TimeOf, Permitted;
    StandingNext(f, First(f));
  }

  lemma {:induction false} EarlyKeepsTime(f: Finder, rest: seq<Event>, ev: Event, start: int, end: int)
    requires FinderOk(f) && NotCut(f, start, end) && EventsKnown(f, rest) && DateOf(ev.start) < DateOf(First(f))
    requires Permitted(f, DateOf(ev.start)) && FirstDayLeft(f, ev) && SecondDayLeft(f)
    requires Wanted(f, rest + [ev], start, end) && f.start <= start < f.end
    ensures CoveredBy(Availability(f, rest + [ev]), start, end)
  {
    hide First, Sweep, FreeStart, BusyDay, NextDay, BeforeOpenEnd, Standing, CoveredBy,
         Availability, Ceil, Floor, DateOf, TimeOf, Permitted, Aligned;
    var first, next := First(f), NextDay(f, First(f));
    var date := DateOf(first);
    TimeIsAt(start);
    TimeIsAt(first);
    assert Wanted(f, rest, start, end) && Wanted(f, [], start, end);
    FirstBefore(f, start);
    var later := EarlyAnswer(f, rest, ev);
    var entry, after := Entry(date, BusyDay(f, date, [ev], f.min)), Sweep(f, next, later);
    if DateOf(start) == date {
      WantedFits(f, start, end);
      assert FirstWanted(f) <= TimeOf(start) && At(date, FirstWanted(f)) <= start && Permitted(f, date);
      EarlyDayCovers(f, ev, start, end);
    } else {
      WantedFits(f, start, end);
      StandingNext(f, first);
      BehindEarly(f, rest, ev, later);
      var taken, caughtUp, days := SweepRecovers(f, next, later, rest);
      TimeIsAt(caughtUp);
      SweepComplete(f, caughtUp, days, rest, start, end);
      CoveredAppend(taken, Sweep(f, caughtUp, days), start, end);
    }
    CoveredAppend([entry], after, start, end);
  }

  /** Where the slots of a day are that an early event takes. */
  lemma {:induction false} EarlySlots(f: Finder, date: int, ev: Event)
    requires DateOf(ev.start) < date
    ensures var from := Max(TimeOf(ev.end), f.min);
            forall s | s in BusyDay(f, date, [ev], f.min) ::
              s.end < At(date, 0) || (from < f.max && s.start == At(date, Ceil(from)) && s.end == At(date, f.max))
  {
    hide BusyDay, Ceil, Floor, DateOf, TimeOf;
    EarlyDayIs(f, date, ev);
    TimeIsAt(ev.start);
    RoundedDown(Min(ev.start, At(date, f.max)));
    RoundingOfDay(date, Max(TimeOf(ev.end), f.min));
  }

  lemma {:induction false} LastDaysOnDays(f: Finder, curr: int)
    ensures OnDays(Sweep(f, curr, []), DateOf(curr))
  {
    hide OpenDays, DateOf;
    OpenDaysOnDays(f, curr);
  }

  lemma {:induction false} FirstDayLost(f: Finder, ev: Event)
    requires FinderOk(f) && OfOneDay(ev) && DateOf(ev.start) < DateOf(First(f)) && Permitted(f, DateOf(ev.start))
    requires !FirstDayLeft(f, ev)
    ensures EventsKnown(f, []) && !Complete(f, [] + [ev])
  {
    hide First, Sweep, BusyDay, NextDay, Availability, Complete, Ceil, Floor, DateOf, TimeOf, Permitted, Aligned;
    var first, date, t := First(f), DateOf(First(f)), FirstWanted(f);
    var start, end := At(date, t), At(date, Floor(f.max));
    TimeIsAt(first);
    TimeIsAt(ev.end);
    FirstAligned(f);
    AlignedTime(first);
    RoundedUp(f.min);
    StartBeforeFirst(f);
    FitsWanted(f, date, t);
    var later := EarlyAnswer(f, [], ev);
    assert GroupByDate([]) == [];
    LastDaysOnDays(f, NextDay(f, first));
    EarlySlots(f, date, ev);
    NotComplete(f, [] + [ev], start, end);
  }

  lemma {:induction false} SecondDayLost(f: Finder, ev: Event) returns (rest: seq<Event>)
    requires FinderOk(f) && OfOneDay(ev) && DateOf(ev.start) < DateOf(First(f)) && Permitted(f, DateOf(ev.start))
    requires !SecondDayLeft(f)
    ensures EventsKnown(f, rest) && !Complete(f, rest + [ev])
  {
    hide First, Sweep, BusyDay, NextDay, Availability, Complete, InsertByDate,
         Ceil, Floor, DateOf, TimeOf, Permitted, Aligned;
    var first, date, m := First(f), DateOf(First(f)), Min(f.max, 1438);
    var next, r := NextDay(f, first), MinuteOf(date, m);
    var start, end := At(date + 1, Ceil(f.min)), At(date + 1, Floor(f.max));
    TimeIsAt(first);
    TimeIsAt(ev.end);
    ClockFacts(date, m);
    ClockFacts(date, m + 1);
    RoundedUp(f.min);
    StartBeforeFirst(f);
    FitsWanted(f, date + 1, Ceil(f.min));
    rest := [r];
    assert NoneEarly(f, rest);
    var later := EarlyAnswer(f, rest, ev);
    GroupOne(r);
    assert later == [Group(date, [r])];
    InsertFirst(r);
    NoGroups();
    var last := EarlyTakesDay(f, next, [], r);
    LastDaysOnDays(f, NextDay(f, next));
    EarlySlots(f, date, ev);
    EarlySlots(f, date + 1, r);
    NotComplete(f, rest + [ev], start, end);
  }

  /** In a search that loses nothing on days without events, an event that is dated before the first
      day keeps every answer complete exactly when its day is not permitted, or neither the first
      day loses time to it nor the second day to the events of the first. */
  lemma {:induction false} EarlyTimeExactly(f: Finder, ev: Event)
    requires FinderOk(f) && CompleteSearch(f) && EventOk(f, ev) && DateOf(ev.start) < DateOf(First(f))
    ensures (forall rest | EventsKnown(f, rest) :: Complete(f, rest + [ev]))
            <==> !Permitted(f, DateOf(ev.start)) || (FirstDayLeft(f, ev) && SecondDayLeft(f))
  {
    hide FinderOk, CompleteSearch, FirstDayLeft, SecondDayLeft, First,
         CoveredBy, Availability, Wanted, DateOf, TimeOf, Permitted;
    if !Permitted(f, DateOf(ev.start)) {
      forall rest | EventsKnown(f, rest) ensures Complete(f, rest + [ev]) {
        assert EventsKnown(f, rest + [ev]);
        CompleteExactly(f);
      }
    } else if !FirstDayLeft(f, ev) {
      FirstDayLost(f, ev);
    } else if !SecondDayLeft(f) {
      var rest := SecondDayLost(f, ev);
    } else {
      forall rest, start, end
        | EventsKnown(f, rest) && Wanted(f, rest + [ev], start, end) && f.start <= start < f.end
        ensures CoveredBy(Availability(f, rest + [ev]), start, end)
      {
        SearchNotCut(f, rest + [ev], start, end);
        EarlyKeepsTime(f, rest, ev, start, end);
      }
    }
  }

  /** For example, a search of the second day, from 9:00 to 17:00, and an event from 9:00 to 17:00
      on the first: every answer stays sound, but the free second day is lost. */
  lemma {:induction false} EarlyEventLosesDay()
    ensures var f, ev := Finder(1980, 2880, 540, 1020, 30, true), Event(540, 1020);
            && (forall rest | EventsOk(f, rest) :: Sound(f, rest + [ev]))
            && !Complete(f, [] + [ev])
  {
    hide DateOf, TimeOf, NextDay, EventsOk, Sound, EventOk, Complete, Ceil, Floor, FreeStart, IsWeekend, Aligned;
    var f, ev := Finder(1980, 2880, 540, 1020, 30, true), Event(540, 1020);
    ClockFacts(1, 540);
    ClockFacts(0, 540);
    ClockFacts(0, 1020);
    AlignedAt(1, 540);
    AlignedAt(0, 1020);
    AlignedAt(0, 540);
    AlignedRounding(1980);
    AlignedRounding(1020);
    AlignedRounding(540);
    DayEventOk(f, ev);
    EarlyEventsExactly(f, ev);
    FirstDayLost(f, ev);
  }

  /** But an event on a Friday loses nothing in a search from Sunday to Monday without weekends. */
  lemma {:induction false} FridayLosesNothing()
    ensures var f, ev := Finder(At(3, 0), At(5, 0), 540, 1020, 30, false), Event(At(1, 600), At(1, 660));
            && DateOf(ev.start) < DateOf(First(f)) && Permitted(f, DateOf(ev.start))
            && forall rest | EventsKnown(f, rest) :: Complete(f, rest + [ev])
  {
    hide DateOf, TimeOf, EventOk, EventsKnown, Complete, OpeningSearched, CompleteSearch, Ceil, Floor, FreeStart;
    var f, ev := Finder(At(3, 0), At(5, 0), 540, 1020, 30, false), Event(At(1, 600), At(1, 660));
    ClockFacts(3, 0);
    ClockFacts(3, 540);
    ClockFacts(1, 600);
    ClockFacts(1, 660);
    AlignedRounding(At(3, 540));
    DayEventOk(f, ev);
    HalfHoursComplete(f);
    EarlyTimeExactly(f, ev);
  }
}
