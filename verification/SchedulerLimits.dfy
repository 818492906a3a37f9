/** Where the finder keeps less than it promises: for each promise, the exact condition on the
    search under which it holds for all events. */
module SchedulerLimits {
  import opened Grouping
  import opened Scheduler
  import opened SchedulerProofs

  /** Every slot has the wanted length. */
  predicate LongEnough(f: Finder, entries: seq<Entry>) {
    forall e | e in entries :: forall s | s in e.slots :: f.duration <= s.end - s.start
  }

  /** No slot begins before `t`. */
  predicate NotBefore(entries: seq<Entry>, t: int) {
    forall e | e in entries :: forall s | s in e.slots :: t <= s.start
  }

  /** No entry is dated before `from`, and no slot begins before the day of its entry. */
  predicate OnDays(entries: seq<Entry>, from: int) {
    forall e | e in entries :: from <= e.date && forall s | s in e.slots :: At(e.date, 0) <= s.start
  }

  // ----- what is offered, whatever the bounds are -----

  function FreeSlot(f: Finder, date: int): Slot {
    Slot(At(date, FreeStart(f)), At(date, f.max))
  }

  /** A day that is offered as a day without events. */
  predicate FreeEntry(f: Finder, curr: int, date: int, e: Entry) {
    && DateOf(curr) <= e.date < date
    && Permitted(f, e.date)
    && (e.date == DateOf(curr) ==> TimeOf(curr) < f.max)
    && e.slots == [FreeSlot(f, e.date)]
  }

  /** The days without events are offered as a whole, and exactly these. */
  lemma {:induction false} FreeDaysAre(f: Finder, curr: int, date: int)
    requires FinderOk(f)
    ensures forall e :: e in FreeDays(f, curr, date) <==> FreeEntry(f, curr, date, e)
    decreases date - DateOf(curr)
  {
    hide FreeStart, Permitted, NextDay, DateOf, TimeOf, HalfHours;
    if DateOf(curr) < date {
      var next := NextDay(f, curr);
      FreeDaysAre(f, next, date);
      forall e ensures e in FreeDays(f, curr, date) <==> FreeEntry(f, curr, date, e) {
        assert e in FreeDays(f, curr, date) <==> e in FreeDay(f, curr) || e in FreeDays(f, next, date);
        assert e in FreeDay(f, curr) <==> FreeEntry(f, curr, date, e) && e.date == DateOf(curr);
      }
    }
  }

  lemma {:induction false} BusyDayStarts(f: Finder, date: int, events: seq<Event>, from: TimeOfDay)
    requires forall ev | ev in events :: DateOf(ev.start) == date
    ensures forall s | s in BusyDay(f, date, events, from) :: At(date, from) <= Ceil(At(date, from)) <= s.start
  {
    hide Ceil, Floor, DateOf, TimeOf, Aligned;
    RoundedUp(At(date, from));
    if events != [] {
      var from' := Max(TimeOf(events[0].end), from);
      assert events[0] in events;
      BusyDayStarts(f, date, events[1..], from');
      RoundedUp(At(date, from'));
      RoundingIsTight(At(date, from), Ceil(At(date, from')));
    }
  }

  /** A day after the last day with events: a slot there is long enough and does not begin before
      the time where the sweep stands. */
  lemma {:induction false} OpenDayStarts(f: Finder, curr: int)
    ensures forall e | e in OpenDay(f, curr) :: e.date == DateOf(curr)
    ensures forall e, s | e in OpenDay(f, curr) && s in e.slots :: curr <= s.start && f.duration <= s.end - s.start
  {
    hide Ceil, DateOf, TimeOf, Permitted;
    RoundedUp(curr);
  }

  lemma {:induction false} OpenDaysOnDays(f: Finder, curr: int)
    ensures OnDays(OpenDays(f, curr), DateOf(curr))
    ensures LongEnough(f, OpenDays(f, curr))
    decreases DateOf(f.end) + 1 - DateOf(curr)
  {
    hide OpenDay, NextDay, DateOf, TimeOf;
    if Open(f, curr) {
      OpenDayStarts(f, curr);
      TimeIsAt(curr);
      OpenDaysOnDays(f, NextDay(f, curr));
    }
  }

  lemma {:induction false} SweepOnDays(f: Finder, curr: int, days: seq<Group>, events: seq<Event>)
    requires Pending(f, curr, days, events)
    ensures OnDays(Sweep(f, curr, days), DateOf(curr))
    decreases |days|
  {
    hide NextDay, FreeDays, OpenDays, BusyDay, FreeStart, NotTooEarly, Permitted, DateOf, TimeOf, HalfHours, Aligned;
    if curr < f.end {
      if days == [] {
        OpenDaysOnDays(f, curr);
      } else if days[0].date < DateOf(curr) {
        PendingSkip(f, curr, days, events);
        SweepOnDays(f, curr, days[1..], events);
      } else {
        var date := days[0].date;
        PendingStep(f, curr, days, events);
        FreeDaysAre(f, curr, date);
        FreeStartIs(f);
        BusyDayStarts(f, date, days[0].events, f.min);
        SweepOnDays(f, NextDay(f, Reach(f, curr, date)), days[1..], events);
      }
    }
  }

  // ----- searches with one event -----

  lemma {:induction false} GroupOne(ev: Event)
    ensures GroupByDate([ev]) == [Group(DateOf(ev.start), [ev])]
  {
    assert [ev][..0] == [];
    assert GroupByDate([]) == [];
  }

  /** An event of one day that is not early is one that the finder can deal with. */
  lemma {:induction false} OneEventOk(f: Finder, ev: Event)
    requires ev.start < ev.end && DateOf(ev.end) == DateOf(ev.start) && DateOf(First(f)) <= DateOf(ev.start)
    ensures EventsOk(f, [ev])
  {
    hide DateOf, TimeOf, First, Permitted;
    TimeIsAt(ev.start);
    TimeIsAt(ev.end);
    assert forall x | x in [ev] :: x == ev;
    forall d | DateOf(ev.start) <= d && At(d, 0) < ev.end ensures d == DateOf(ev.start) {}
  }

  /** A minute of a day. */
  function MinuteOf(date: int, m: int): Event {
    Event(At(date, m), At(date, m) + 1)
  }

  lemma {:induction false} MinuteOk(f: Finder, date: int, m: int)
    requires 0 <= m < 1439 && DateOf(First(f)) <= date
    ensures var ev := MinuteOf(date, m); DateOf(ev.start) == date && TimeOf(ev.start) == m && EventsOk(f, [ev])
    ensures GroupByDate([MinuteOf(date, m)]) == [Group(date, [MinuteOf(date, m)])]
  {
    hide DateOf, TimeOf, First, EventsOk, GroupByDate;
    ClockFacts(date, m);
    ClockFacts(date, m + 1);
    OneEventOk(f, MinuteOf(date, m));
    GroupOne(MinuteOf(date, m));
  }

  /** With an event at ten on a later day, a day is offered as a whole. */
  lemma {:induction false} FreeDayOffered(f: Finder, date: int, later: int)
    requires FinderOk(f) && First(f) < f.end && DateOf(First(f)) <= date < later && Permitted(f, date)
    requires date == DateOf(First(f)) ==> TimeOf(First(f)) < f.max
    ensures EventsOk(f, [MinuteOf(later, 600)])
    ensures Entry(date, [FreeSlot(f, date)]) in Availability(f, [MinuteOf(later, 600)])
  {
    hide FinderOk, First, FreeDays, BusyDay, NextDay, EventsOk, GroupByDate, DateOf, TimeOf, Permitted;
    MinuteOk(f, later, 600);
    FreeDaysAre(f, First(f), later);
    assert FreeEntry(f, First(f), later, Entry(date, [FreeSlot(f, date)]));
  }

  lemma {:induction false} NextPermitted(f: Finder, from: int) returns (date: int)
    ensures from < date && Permitted(f, date)
  {
    hide Permitted;
    PermittedSoon(f, from + 1);
    date := if Permitted(f, from + 1) then from + 1 else if Permitted(f, from + 2) then from + 2 else from + 3;
  }

  lemma {:induction false} PermittedSoon(f: Finder, date: int)
    ensures Permitted(f, date) || Permitted(f, date + 1) || Permitted(f, date + 2)
  {
  }

  lemma {:induction false} NothingSearched(f: Finder)
    requires f.end <= First(f)
    ensures forall events :: Availability(f, events) == []
  {
  }

  // ----- the wanted length -----

  lemma {:induction false} SweepLong(f: Finder, curr: int, days: seq<Group>, events: seq<Event>)
    requires Pending(f, curr, days, events) && EventsSane(f, events)
    requires f.min <= 1410 && forall date :: f.duration <= FreeSlot(f, date).end - FreeSlot(f, date).start
    ensures LongEnough(f, Sweep(f, curr, days))
    decreases |days|
  {
    hide NextDay, FreeDays, OpenDays, BusyDay, FreeStart, NotTooEarly, EventsSane,
         DayEvents, GapFree, Permitted, DateOf, TimeOf, HalfHours, Aligned;
    if curr < f.end {
      if days == [] {
        OpenDaysOnDays(f, curr);
      } else if days[0].date < DateOf(curr) {
        PendingSkip(f, curr, days, events);
        SweepLong(f, curr, days[1..], events);
      } else {
        var date := days[0].date;
        PendingStep(f, curr, days, events);
        FreeDaysAre(f, curr, date);
        SweepLong(f, NextDay(f, Reach(f, curr, date)), days[1..], events);
        if Permitted(f, date) {
          DayIsGapFree(f, date, days[0].events, events);
          BusyDaySound(f, date, days[0].events, f.min);
        }
      }
    }
  }

  /** The wanted length is kept for all events exactly when it fits into the slot of a day
      without events, or nothing is searched: such a day, before a day with events, is offered
      without a look at the duration. */
  lemma {:induction false} LengthKeptExactly(f: Finder)
    requires FinderOk(f)
    ensures (forall events | EventsOk(f, events) :: LongEnough(f, Availability(f, events)))
            <==> f.duration <= f.max - FreeStart(f) || f.end <= First(f)
  {
    hide EventsSane, First, FreeStart, Sweep, DateOf, Permitted;
    if f.end <= First(f) {
      NothingSearched(f);
    } else if f.duration <= f.max - FreeStart(f) {
      forall events | EventsOk(f, events) ensures LongEnough(f, Availability(f, events)) {
        FirstPending(f, events);
        FreeStartIs(f);
        SweepLong(f, First(f), GroupByDate(events), events);
      }
    } else {
      var date := NextPermitted(f, DateOf(First(f)));
      FreeDayOffered(f, date, date + 1);
      assert FreeSlot(f, date) in Entry(date, [FreeSlot(f, date)]).slots;
    }
  }

  // ----- the start of the search -----

  /** The longest slot that begins at the opening of a day with events: the event is over before
      `min`, or, if nothing is before `min`, it comes at the end of the day. */
  function LongestOpening(f: Finder): int {
    if f.min == 0 then Floor(f.max) else f.max - Ceil(f.min)
  }

  /** The first day offers nothing before the start: neither as a day without events, nor between
      its events, which are looked at from `min` on. */
  predicate StartHonest(f: Finder) {
    var first := First(f);
    var date := DateOf(first);
    || !Permitted(f, date)
    || (&& (f.max <= TimeOf(first) || f.start <= At(date, FreeStart(f)))
        && (LongestOpening(f) < f.duration || f.start <= At(date, Ceil(f.min))))
  }

  lemma {:induction false} StartBeforeFirst(f: Finder)
    ensures f.start <= First(f)
  {
    hide Ceil, DateOf;
    RoundedUp(Max(At(DateOf(f.start), f.min), f.start));
  }

  lemma {:induction false} LaterDays(entries: seq<Entry>, t: int, from: int)
    requires OnDays(entries, from) && DateOf(t) < from
    ensures NotBefore(entries, t)
  {
    hide DateOf, TimeOf;
    TimeIsAt(t);
  }

  lemma {:induction false} HonestOpenDays(f: Finder, curr: int)
    ensures NotBefore(OpenDays(f, curr), curr)
  {
    hide OpenDay, NextDay, DateOf, TimeOf;
    if Open(f, curr) {
      var next := NextDay(f, curr);
      OpenDayStarts(f, curr);
      OpenDaysOnDays(f, next);
      LaterDays(OpenDays(f, next), curr, DateOf(next));
    }
  }

  lemma {:induction false} HonestFreeDays(f: Finder, date: int)
    requires FinderOk(f) && StartHonest(f)
    ensures NotBefore(FreeDays(f, First(f), date), f.start)
  {
    hide First, FreeDays, FreeStart, DateOf, TimeOf, Permitted, HalfHours;
    FreeDaysAre(f, First(f), date);
    FreeStartIs(f);
    StartBeforeFirst(f);
    TimeIsAt(First(f));
  }

  lemma {:induction false} RoundingOfDay(date: int, m: int)
    ensures Ceil(At(date, m)) == At(date, Ceil(m)) && Floor(At(date, m)) == At(date, Floor(m))
  {
    hide Ceil, Floor;
    RoundedUp(m);
    RoundedDown(m);
    RoundedUp(At(date, m));
    RoundedDown(At(date, m));
    AlignedAt(date, Ceil(m));
    AlignedAt(date, Floor(m));
    SameHalfHour(Ceil(At(date, m)), At(date, Ceil(m)));
    SameHalfHour(Floor(At(date, m)), At(date, Floor(m)));
  }

  lemma {:induction false} SameHalfHour(t: int, u: int)
    requires Aligned(t) && Aligned(u) && t - 30 < u < t + 30
    ensures t == u
  {
    hide Aligned;
    if t < u { NextHalfHour(t, u); }
    if u < t { NextHalfHour(u, t); }
  }

  lemma {:induction false} OpeningsAre(f: Finder, date: int, events: seq<Event>)
    requires FinderOk(f) && f.min <= 1410 && DayEvents(date, events) && GapFree(events, f.min) && events != []
    ensures forall s | s in BusyDay(f, date, events, f.min) :: f.duration <= s.end - s.start <= LongestOpening(f)
  {
    hide SlotBefore, LateGap, Ceil, Floor, DateOf, TimeOf, Aligned;
    BusyDaySound(f, date, events, f.min);
    BusyDayStarts(f, date, events, f.min);
    RoundingOfDay(date, f.min);
    if f.min == 0 {
      var ev, limit := events[0], At(date, f.max);
      var from := Max(TimeOf(ev.end), 0);
      assert ev in events;
      TimeIsAt(ev.start);
      TimeIsAt(ev.end);
      DayEventsRest(date, events);
      SlotBeforeSound(f, date, ev, 0);
      SlotBeforeIs(f, date, ev, 0);
      RoundedDown(Min(ev.start, limit));
      RoundedUp(At(date, 0));
      RoundingIsTight(limit, Floor(Min(ev.start, limit)));
      RoundingOfDay(date, f.max);
      BusyDaySound(f, date, events[1..], from);
      BusyDayStarts(f, date, events[1..], from);
      RoundedUp(At(date, from));
      AlignedAt(date, 0);
      NextHalfHour(At(date, 0), Ceil(At(date, from)));
      RoundedDown(f.max);
    }
  }

  lemma {:induction false} HonestBusyDay(f: Finder, dayEvents: seq<Event>, events: seq<Event>)
    requires FinderOk(f) && StartHonest(f) && EventsSane(f, events) && Permitted(f, DateOf(First(f)))
    requires IsDay(DateOf(First(f)), dayEvents, events) && dayEvents != []
    ensures NotBefore([Entry(DateOf(First(f)), BusyDay(f, DateOf(First(f)), dayEvents, f.min))], f.start)
  {
    hide First, BusyDay, FreeStart, EventsSane, DayEvents, GapFree, Ceil, DateOf, TimeOf, Permitted, LongestOpening;
    var date := DateOf(First(f));
    BusyDayStarts(f, date, dayEvents, f.min);
    RoundingOfDay(date, f.min);
    if f.min <= 1410 {
      DayIsGapFree(f, date, dayEvents, events);
      OpeningsAre(f, date, dayEvents);
    } else {
      RoundedUp(f.min);
      AlignedAt(0, 1410);
      NextHalfHour(1410, Ceil(f.min));
      StartBeforeFirst(f);
      TimeIsAt(First(f));
    }
  }

  lemma {:induction false} HonestSweep(f: Finder, days: seq<Group>, events: seq<Event>)
    requires Pending(f, First(f), days, events) && EventsSane(f, events) && StartHonest(f)
    ensures NotBefore(Sweep(f, First(f), days), f.start)
    decreases |days|
  {
    hide First, NextDay, FreeDays, OpenDays, BusyDay, FreeStart, StartHonest, NotTooEarly,
         EventsSane, Permitted, Ceil, DateOf, TimeOf, HalfHours, Aligned;
    var first := First(f);
    StartBeforeFirst(f);
    if first < f.end {
      if days == [] {
        HonestOpenDays(f, first);
      } else if days[0].date < DateOf(first) {
        PendingSkip(f, first, days, events);
        HonestSweep(f, days[1..], events);
      } else {
        var date, reached := days[0].date, Reach(f, first, days[0].date);
        var next := NextDay(f, reached);
        var entry := Entry(date, BusyDay(f, date, days[0].events, f.min));
        PendingStep(f, first, days, events);
        HonestFreeDays(f, date);
        SweepOnDays(f, next, days[1..], events);
        LaterDays(Sweep(f, next, days[1..]), first, date + 1);
        if date == DateOf(first) {
          GroupedRest(days);
          if Permitted(f, date) { HonestBusyDay(f, days[0].events, events); }
        } else {
          BusyDayStarts(f, date, days[0].events, f.min);
          assert OnDays([entry], date);
          LaterDays([entry], first, date);
        }
      }
    }
  }

  /** With an event before `min`, or late in the evening if there is nothing before `min`, the
      longest slot is offered from `min` on. */
  function OpeningEvent(f: Finder, date: int): Event {
    MinuteOf(date, if f.min == 0 then 1438 else 0)
  }

  lemma {:induction false} OpeningOffered(f: Finder, date: int)
    requires FinderOk(f) && f.duration <= LongestOpening(f)
    ensures var s := Slot(At(date, Ceil(f.min)), At(date, Ceil(f.min) + LongestOpening(f)));
            s in BusyDay(f, date, [OpeningEvent(f, date)], f.min)
  {
    hide SlotBefore, Ceil, Floor, Aligned, DateOf, TimeOf;
    var ev := OpeningEvent(f, date);
    RoundingOfDay(date, f.min);
    assert [ev][1..] == [];
    if f.min == 0 {
      var limit := Min(ev.start, At(date, f.max));
      ClockFacts(date, 1438);
      SlotBeforeIs(f, date, ev, 0);
      RoundedUp(0);
      AlignedAt(0, 0);
      RoundingIsTight(0, 0);
      RoundedDown(At(date, f.max));
      AlignedAt(date, 1410);
      AlignedAt(date, 1440);
      LastHalfHour(At(date, 1410), Floor(At(date, f.max)));
      RoundedDown(limit);
      RoundingIsTight(limit, Floor(At(date, f.max)));
      RoundingIsTight(At(date, f.max), Floor(limit));
      RoundingOfDay(date, f.max);
    } else {
      ClockFacts(date, 1);
      assert BusyDay(f, date, [], f.min) == SlotAfter(f, date, f.min);
      RoundedUp(f.min);
    }
  }

  lemma {:induction false} LastHalfHour(t: int, u: int)
    requires Aligned(t) && Aligned(u) && u < t + 30
    ensures u <= t
  {
    hide Aligned;
    if t < u { NextHalfHour(t, u); }
  }

  lemma {:induction false} BusyDayOffered(f: Finder, curr: int, date: int, events: seq<Event>, later: seq<Group>)
    requires curr < f.end && DateOf(curr) == date && Permitted(f, date)
    ensures var entry, days := Entry(date, BusyDay(f, date, events, f.min)), [Group(date, events)] + later;
            Sweep(f, curr, days) == [entry] + Sweep(f, NextDay(f, curr), later)
  {
    hide BusyDay, NextDay, Permitted, DateOf, TimeOf;
    assert ([Group(date, events)] + later)[1..] == later;
  }

  lemma {:induction false} EarlySlotOffered(f: Finder)
    requires FinderOk(f) && First(f) < f.end && !StartHonest(f)
    ensures exists events | EventsOk(f, events) :: !NotBefore(Availability(f, events), f.start)
  {
    hide First, Sweep, BusyDay, FreeStart, EventsOk, GroupByDate, Ceil, DateOf, TimeOf, Permitted, LongestOpening;
    var date := DateOf(First(f));
    if TimeOf(First(f)) < f.max && At(date, FreeStart(f)) < f.start {
      FreeDayOffered(f, date, date + 1);
      assert FreeSlot(f, date) in Entry(date, [FreeSlot(f, date)]).slots;
    } else {
      var ev := OpeningEvent(f, date);
      var entry := Entry(date, BusyDay(f, date, [ev], f.min));
      MinuteOk(f, date, if f.min == 0 then 1438 else 0);
      OpeningOffered(f, date);
      BusyDayOffered(f, First(f), date, [ev], []);
      assert [Group(date, [ev])] + [] == [Group(date, [ev])];
      var s := Slot(At(date, Ceil(f.min)), At(date, Ceil(f.min) + LongestOpening(f)));
      assert entry in Availability(f, [ev]) && s in entry.slots;
    }
  }

  /** No slot begins before the start of the search, for all events, exactly when the first day
      can offer none that does, or nothing is searched. */
  lemma {:induction false} StartKeptExactly(f: Finder)
    requires FinderOk(f)
    ensures (forall events | EventsOk(f, events) :: NotBefore(Availability(f, events), f.start))
            <==> StartHonest(f) || f.end <= First(f)
  {
    hide FinderOk, EventsSane, StartHonest, First, Sweep;
    if f.end <= First(f) {
      NothingSearched(f);
    } else if StartHonest(f) {
      forall events | EventsOk(f, events) ensures NotBefore(Availability(f, events), f.start) {
        FirstPending(f, events);
        HonestSweep(f, GroupByDate(events), events);
      }
    } else {
      EarlySlotOffered(f);
    }
  }

  // ----- the end of the search -----

  /** No slot begins at `t` or later. */
  predicate AllBefore(entries: seq<Entry>, t: int) {
    forall e | e in entries :: forall s | s in e.slots :: s.start < t
  }

  /** A search that finds anything at all offers time after its end for some events: the end is
      looked at only where the sweep starts on the next day with events, so that day and the free
      days before it are offered wherever they are. */
  lemma {:induction false} EndKeptExactly(f: Finder)
    requires FinderOk(f)
    ensures (forall events | EventsOk(f, events) :: AllBefore(Availability(f, events), f.end)) <==> f.end <= First(f)
  {
    hide FinderOk, EventsSane, First, FreeStart, Sweep, DateOf, Permitted;
    if f.end <= First(f) {
      NothingSearched(f);
    } else {
      var date := NextPermitted(f, Max(DateOf(First(f)), DateOf(f.end)));
      FreeDayOffered(f, date, date + 1);
      TimeIsAt(f.end);
      FreeStartIs(f);
      assert FreeSlot(f, date) in Entry(date, [FreeSlot(f, date)]).slots;
    }
  }

  // ----- soundness -----

  /** The answer is sound for all events exactly when the slot of a day without events lies
      between the bounds and a start that is rounded up to midnight offers no slot there, or
      when nothing is searched. */
  lemma {:induction false} SoundExactly(f: Finder)
    requires FinderOk(f)
    ensures (forall events | EventsOk(f, events) :: EntriesOk(f, Availability(f, events), events, DateOf(First(f))))
            <==> (SoundBounds(f) && NotTooEarly(f, First(f))) || f.end <= First(f)
  {
    hide FinderOk, SoundBounds, NotTooEarly, EventsOk, EntryOk, First, Sweep, DateOf;
    if f.end <= First(f) {
      NothingSearched(f);
    } else if !SoundBounds(f) {
      FreeSlotOutside(f);
    } else if NotTooEarly(f, First(f)) {
      forall events | EventsOk(f, events) ensures EntriesOk(f, Availability(f, events), events, DateOf(First(f))) {
        FinderSound(f, events);
      }
    } else {
      NoEventsOk(f);
      MidnightSlot(f);
    }
  }

  lemma {:induction false} NoEventsOk(f: Finder)
    ensures EventsOk(f, [])
  {
  }

  lemma {:induction false} FreeSlotOutside(f: Finder)
    requires FinderOk(f) && First(f) < f.end && !SoundBounds(f)
    ensures exists events | EventsOk(f, events) :: !EntriesOk(f, Availability(f, events), events, DateOf(First(f)))
  {
    hide First, FreeStart, SoundBounds, Sweep, EventsOk, Permitted, DateOf, HalfHours, Aligned;
    var date := NextPermitted(f, DateOf(First(f)));
    FreeDayOffered(f, date, date + 1);
    FreeStartIs(f);
    assert FreeSlot(f, date) in Entry(date, [FreeSlot(f, date)]).slots && !Inside(f, date, FreeSlot(f, date));
    assert !EntryOk(f, Entry(date, [FreeSlot(f, date)]), [MinuteOf(date + 1, 600)]);
  }

  lemma {:induction false} MidnightSlot(f: Finder)
    requires FinderOk(f) && SoundBounds(f) && First(f) < f.end && !NotTooEarly(f, First(f))
    ensures !EntriesOk(f, Availability(f, []), [], DateOf(First(f)))
  {
    hide First, FreeStart, SoundBounds, OpenDay, DateOf, TimeOf, Permitted, NextDay, HalfHours, Aligned;
    var curr := First(f);
    FirstAligned(f);
    FreeStartIs(f);
    StandingEarly(f, curr);
    OpenDayIs(f, curr);
    TimeIsAt(curr);
    TimeIsAt(f.end);
    var s := Slot(curr, At(DateOf(curr), f.max));
    assert OpenDay(f, curr) == [Entry(DateOf(curr), [s])];
    var e := OpenDays(f, curr)[0];
    assert GroupByDate([]) == [];
    assert e in Availability(f, []) && s in e.slots && !Inside(f, e.date, s);
  }

  // ----- completeness -----

  /** Every wanted interval that starts in the searched time lies inside a slot. */
  ghost predicate Complete(f: Finder, events: seq<Event>) {
    forall start, end | Wanted(f, events, start, end) && f.start <= start < f.end ::
      CoveredBy(Availability(f, events), start, end)
  }

  /** What completeness asks of the events. */
  predicate EventsKnown(f: Finder, events: seq<Event>) {
    NoneEarly(f, events) && forall ev | ev in events :: ev.start < ev.end
  }

  /** A day after the first one opens in the searched time. */
  ghost predicate OpeningSearched(f: Finder) {
    exists date :: DateOf(First(f)) < date && Permitted(f, date) && At(date, Ceil(f.min)) < f.end
  }

  /** Where the first half hour of the first day is that can be wanted. */
  function FirstWanted(f: Finder): int {
    Max(TimeOf(First(f)), Ceil(f.min))
  }

  /** The first day loses nothing as a day without events. */
  predicate FirstDayKept(f: Finder) {
    var date, t := DateOf(First(f)), FirstWanted(f);
    !Permitted(f, date) || f.end <= At(date, t) || Floor(f.max) - t < f.duration || FreeStart(f) <= t
  }

  /** Nor does a later day, be it before a day with events or after the last one. */
  ghost predicate LaterDaysKept(f: Finder) {
    || !OpeningSearched(f)
    || Floor(f.max) - Ceil(f.min) < f.duration
    || (FreeStart(f) <= Ceil(f.min) && Floor(f.max) <= f.max - (Ceil(f.min) - f.min))
  }

  ghost predicate CompleteSearch(f: Finder) {
    FirstDayKept(f) && LaterDaysKept(f)
  }

  lemma {:induction false} WantedFits(f: Finder, start: int, end: int)
    requires FinderOk(f) && Wanted(f, [], start, end)
    ensures Ceil(f.min) <= TimeOf(start) && end <= At(DateOf(start), Floor(f.max))
    ensures f.duration <= Floor(f.max) - TimeOf(start)
  {
    hide Ceil, Floor, DateOf, TimeOf, Permitted, Aligned;
    var date := DateOf(start);
    TimeIsAt(start);
    RoundingOfDay(date, f.min);
    RoundingOfDay(date, f.max);
    RoundingIsTight(At(date, f.min), start);
    RoundingIsTight(At(date, f.max), end);
  }

  lemma {:induction false} SearchNotCut(f: Finder, events: seq<Event>, start: int, end: int)
    requires FinderOk(f) && CompleteSearch(f) && Wanted(f, events, start, end) && f.start <= start < f.end
    ensures NotCut(f, start, end)
  {
    hide First, FreeStart, Ceil, Floor, DateOf, TimeOf, Permitted, Aligned;
    var date := DateOf(start);
    TimeIsAt(start);
    TimeIsAt(First(f));
    WantedFits(f, start, end);
    FirstBefore(f, start);
    ClockFacts(date, f.min);
    RoundingOfDay(date, f.min);
  }

  lemma {:induction false} FitsWanted(f: Finder, date: int, t: int)
    requires FinderOk(f) && Permitted(f, date) && Aligned(t) && f.min <= t && f.duration <= Floor(f.max) - t
    ensures Wanted(f, [], At(date, t), At(date, Floor(f.max)))
    ensures DateOf(At(date, t)) == date
  {
    hide Floor, DateOf, TimeOf, Permitted, Aligned;
    RoundedDown(f.max);
    AlignedOnDay(date, t);
    AlignedOnDay(date, Floor(f.max));
    ClockFacts(date, t);
  }

  lemma {:induction false} NotComplete(f: Finder, events: seq<Event>, start: int, end: int)
    requires Wanted(f, events, start, end) && f.start <= start < f.end
    requires forall e, s | e in Availability(f, events) && s in e.slots :: !Covers(s, start, end)
    ensures !Complete(f, events)
  {
    hide Availability, Wanted, Covers;
  }

  /** What begins before the slot of a day without events is lost if the next day has events. */
  lemma {:induction false} OpeningMissed(f: Finder, start: int, end: int)
    requires FinderOk(f) && Wanted(f, [], start, end) && f.start <= start < f.end
    requires start < At(DateOf(start), FreeStart(f))
    ensures exists events | EventsKnown(f, events) :: !Complete(f, events)
  {
    hide First, FreeStart, FreeDays, BusyDay, NextDay, NotTooEarly, EventsSane,
         GroupByDate, Permitted, DateOf, TimeOf, Ceil, Aligned;
    var first, date := First(f), DateOf(start);
    var ev := MinuteOf(date + 1, 600);
    TimeIsAt(start);
    TimeIsAt(first);
    FirstBefore(f, start);
    MinuteOk(f, date + 1, 600);
    FirstPending(f, [ev]);
    PendingStep(f, first, [Group(date + 1, [ev])], [ev]);
    FreeDaysAre(f, first, date + 1);
    FreeStartIs(f);
    BusyDayStarts(f, date + 1, [ev], f.min);
    SweepOnDays(f, NextDay(f, Reach(f, first, date + 1)), [], [ev]);
    forall e, s | e in Availability(f, [ev]) && s in e.slots ensures !Covers(s, start, end) {
      assert e in FreeDays(f, first, date + 1) || (e.date >= date + 1 && At(e.date, 0) <= s.start);
    }
    assert Wanted(f, [ev], start, end);
    assert EventsKnown(f, [ev]) && !Complete(f, [ev]);
  }

  /** Slots of days without events end where the sweep from `curr` lets them end. */
  predicate EndsOf(f: Finder, curr: int, e: Entry) {
    && DateOf(curr) <= e.date
    && forall s | s in e.slots ::
         && s.end <= At(e.date, f.max)
         && s.end <= OpenEnd(f, if e.date == DateOf(curr) then curr else At(e.date, f.min))
  }

  lemma {:induction false} OpenDaysEnd(f: Finder, curr: int)
    requires FinderOk(f) && f.min <= 1410 && Standing(f, curr)
    ensures forall e | e in OpenDays(f, curr) :: EndsOf(f, curr, e)
    decreases DateOf(f.end) + 1 - DateOf(curr)
  {
    hide OpenDay, NextDay, Standing, Ceil, DateOf, TimeOf, Permitted, Aligned;
    if Open(f, curr) {
      var next := NextDay(f, curr);
      StandingNext(f, curr);
      StandingEarly(f, curr);
      RoundedUp(curr);
      OpenDayIs(f, curr);
      OpenDaysEnd(f, next);
      forall e | e in OpenDays(f, curr) ensures EndsOf(f, curr, e) {
        if e in OpenDays(f, next) { assert EndsOf(f, next, e); }
      }
    }
  }

  lemma {:induction false} EndsTooEarly(f: Finder, curr: int, e: Entry, s: Slot, start: int, end: int)
    requires FinderOk(f) && EndsOf(f, curr, e) && s in e.slots && At(e.date, 0) <= s.start
    requires DateOf(curr) < DateOf(start) && start < end && !BeforeOpenEnd(f, start, end)
    ensures !Covers(s, start, end)
  {
    hide OpenEnd, DateOf, TimeOf;
    TimeIsAt(start);
  }

  lemma {:induction false} AnswerWithoutEvents(f: Finder)
    requires First(f) < f.end
    ensures Availability(f, []) == OpenDays(f, First(f))
  {
    hide First, OpenDays;
    assert GroupByDate([]) == [];
  }

  /** What ends after the slot of a day after the last day with events is lost if there are no
      events. */
  lemma {:induction false} ClosingMissed(f: Finder, date: int)
    requires FinderOk(f) && f.duration <= Floor(f.max) - Ceil(f.min) && f.max < Floor(f.max) + Ceil(f.min) - f.min
    requires DateOf(First(f)) < date && Permitted(f, date) && At(date, Ceil(f.min)) < f.end
    ensures exists events | EventsKnown(f, events) :: !Complete(f, events)
  {
    hide First, OpenDays, BeforeOpenEnd, EndsOf, LongEnough, Availability, Complete,
         Covers, Permitted, Ceil, Floor, DateOf, TimeOf, Aligned;
    var start, end := At(date, Ceil(f.min)), At(date, Floor(f.max));
    RoundedUp(f.min);
    FitsWanted(f, date, Ceil(f.min));
    StartBeforeFirst(f);
    TimeIsAt(First(f));
    FirstBefore(f, start);
    WantedEarly(f, [], start, end);
    ClosesEarly(f, date);
    FirstAligned(f);
    OpenDaysEnd(f, First(f));
    OpenDaysOnDays(f, First(f));
    AnswerWithoutEvents(f);
    forall e, s | e in OpenDays(f, First(f)) && s in e.slots ensures !Covers(s, start, end) {
      EndsTooEarly(f, First(f), e, s, start, end);
    }
    NotComplete(f, [], start, end);
    assert EventsKnown(f, []);
  }

  lemma {:induction false} ClosesEarly(f: Finder, date: int)
    requires f.max < Floor(f.max) + Ceil(f.min) - f.min && DateOf(At(date, Ceil(f.min))) == date
    ensures !BeforeOpenEnd(f, At(date, Ceil(f.min)), At(date, Floor(f.max)))
  {
    hide Ceil, Floor, DateOf;
    RoundingOfDay(date, f.min);
    ClockFacts(date, f.min);
  }

  lemma {:induction false} SearchCut(f: Finder)
    requires FinderOk(f) && !CompleteSearch(f)
    ensures exists events | EventsKnown(f, events) :: !Complete(f, events)
  {
    hide First, FreeStart, Ceil, Floor, DateOf, TimeOf, Permitted, Aligned, Complete, EventsKnown;
    var end := Floor(f.max);
    var date, t := DateOf(First(f)), FirstWanted(f);
    StartBeforeFirst(f);
    TimeIsAt(First(f));
    FirstAligned(f);
    RoundedUp(f.min);
    if !FirstDayKept(f) {
      AlignedTime(First(f));
      FitsWanted(f, date, t);
      OpeningMissed(f, At(date, t), At(date, end));
    } else {
      date :| DateOf(First(f)) < date && Permitted(f, date) && At(date, Ceil(f.min)) < f.end;
      FitsWanted(f, date, Ceil(f.min));
      if Ceil(f.min) < FreeStart(f) {
        OpeningMissed(f, At(date, Ceil(f.min)), At(date, end));
      } else {
        ClosingMissed(f, date);
      }
    }
  }

  lemma {:induction false} AlignedTime(t: int)
    requires Aligned(t)
    ensures Aligned(TimeOf(t))
  {
    hide DateOf;
    TimesThirty(t / 30 - 48 * DateOf(t));
  }

  lemma {:induction false} TimesThirty(k: int)
    ensures Aligned(30 * k)
  {
  }

  /** The answer is complete for all events exactly when the first day and the later ones lose
      nothing as days without events. */
  lemma {:induction false} CompleteExactly(f: Finder)
    requires FinderOk(f)
    ensures (forall events | EventsKnown(f, events) :: Complete(f, events)) <==> CompleteSearch(f)
  {
    hide CompleteSearch, Availability, CoveredBy, NoneEarly, NotCut, DateOf, Permitted, Aligned;
    if CompleteSearch(f) {
      forall events, start, end
        | EventsKnown(f, events) && Wanted(f, events, start, end) && f.start <= start < f.end
        ensures CoveredBy(Availability(f, events), start, end)
      {
        SearchNotCut(f, events, start, end);
        FinderComplete(f, events, start, end);
      }
    } else {
      SearchCut(f);
    }
  }

  lemma {:induction false} HalfHoursAre(f: Finder)
    requires FinderOk(f) && HalfHours(f)
    ensures Ceil(f.min) == f.min && Floor(f.max) == f.max && Aligned(f.min)
    ensures if f.max % 60 <= f.min % 60 then FreeStart(f) <= f.min else FreeStart(f) == f.min + 30
  {
  }

  /** With bounds on half hours, that is so exactly when the slots of days without events do not
      begin after `min`, or the wanted length does not fit, or no opening of a permitted day is
      searched. */
  lemma {:induction false} HalfHoursComplete(f: Finder)
    requires FinderOk(f) && HalfHours(f)
    ensures CompleteSearch(f)
            <==> || f.max % 60 <= f.min % 60
                 || f.max - f.min < f.duration
                 || !exists date :: Permitted(f, date) && f.start <= At(date, f.min) < f.end
  {
    hide FinderOk, HalfHours, First, FreeStart, Ceil, Floor, DateOf, TimeOf, Permitted, Aligned;
    var first := DateOf(First(f));
    HalfHoursAre(f);
    StartBeforeFirst(f);
    FirstAligned(f);
    AlignedTime(First(f));
    TimeIsAt(First(f));
    if f.min < TimeOf(First(f)) { NextHalfHour(f.min, TimeOf(First(f))); }
    forall date | f.start <= At(date, f.min) ensures First(f) <= At(date, f.min) {
      ClockFacts(date, f.min);
      BoundsAligned(f, date);
      FirstBefore(f, At(date, f.min));
    }
  }
}
