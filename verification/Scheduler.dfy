/** The availability finder: a sweep over days and events with half-hour rounding. */
module Scheduler {
  import opened Grouping

  datatype Slot = Slot(start: int, end: int)

  /** One day of the result. */
  datatype Entry = Entry(date: int, slots: seq<Slot>)

  type TimeOfDay = m: int | 0 <= m < 1440

  datatype Finder = Finder(
    start: int, end: int, min: TimeOfDay, max: TimeOfDay, duration: int, includeWeekends: bool)

  function Max(a: int, b: int): int { if a < b then b else a }

  function Min(a: int, b: int): int { if a < b then a else b }

  /** Day 0 is a Thursday. */
  predicate IsWeekend(date: int) {
    (date + 3) % 7 >= 5
  }

  predicate Permitted(f: Finder, date: int) {
    f.includeWeekends || !IsWeekend(date)
  }

  /** Up to the next half hour. */
  function Ceil(t: int): int {
    var minute := t % 60;
    if minute % 30 == 0 then t else t + ((minute / 30 + 1) * 30 - minute)
  }

  /** Down to the last half hour. */
  function Floor(t: int): int {
    var minute := t % 60;
    if minute % 30 == 0 then t else t + (minute / 30 * 30 - minute)
  }

  predicate Aligned(t: int) { t % 30 == 0 }

  // ----- what the loops compute -----

  /** Where the sweep begins. */
  function First(f: Finder): int {
    Ceil(Max(At(DateOf(f.start), f.min), f.start))
  }

  /** The same day's time `min`, one day later. */
  function NextDay(f: Finder, curr: int): (next: int)
    ensures DateOf(next) == DateOf(curr) + 1 && TimeOf(next) == f.min
    ensures next == At(DateOf(curr) + 1, f.min)
    ensures curr < next
  {
    At(DateOf(curr + 1440), f.min)
  }

  /** When the slot of a day without events begins: at the hour of `min` and the minute of `max`. */
  function FreeStart(f: Finder): int {
    f.min / 60 * 60 + f.max % 60
  }

  /** A day before the next day with events. */
  function FreeDay(f: Finder, curr: int): seq<Entry> {
    var date := DateOf(curr);
    if TimeOf(curr) < f.max && Permitted(f, date) then
      [Entry(date, [Slot(At(date, FreeStart(f)), At(date, f.max))])]
    else []
  }

  /** The days before `date`. */
  function FreeDays(f: Finder, curr: int, date: int): seq<Entry>
    decreases date - DateOf(curr)
  {
    if date <= DateOf(curr) then [] else FreeDay(f, curr) + FreeDays(f, NextDay(f, curr), date)
  }

  /** Where the sweep stands after the days before `date`. */
  function Reach(f: Finder, curr: int, date: int): int {
    if DateOf(curr) < date then At(date, f.min) else curr
  }

  /** The slot before an event, when the day is busy until `from`. */
  function SlotBefore(f: Finder, date: int, ev: Event, from: TimeOfDay): seq<Slot> {
    if from < TimeOf(ev.start) then
      var s := Ceil(At(DateOf(ev.start), from));
      var e := Floor(Min(ev.start, At(date, f.max)));
      if TimeOf(e) - TimeOf(s) >= f.duration && TimeOf(s) < f.max then [Slot(s, e)] else []
    else []
  }

  /** The slot after the last event. */
  function SlotAfter(f: Finder, date: int, from: TimeOfDay): seq<Slot> {
    if from < f.max then
      var s := Ceil(At(date, from));
      var e := At(date, f.max);
      if e - s >= f.duration then [Slot(s, e)] else []
    else []
  }

  /** A day with events. */
  function BusyDay(f: Finder, date: int, events: seq<Event>, from: TimeOfDay): seq<Slot> {
    if events == [] then SlotAfter(f, date, from)
    else
      SlotBefore(f, date, events[0], from)
      + BusyDay(f, date, events[1..], Max(TimeOf(events[0].end), from))
  }

  /** A day after the last day with events. */
  function OpenDay(f: Finder, curr: int): seq<Entry> {
    if Permitted(f, DateOf(curr)) then
      var s := Ceil(curr);
      var e := curr + (f.max - TimeOf(s));
      if TimeOf(s) <= f.max && e - s >= f.duration then [Entry(DateOf(curr), [Slot(s, e)])] else []
    else []
  }

  /** The search has not ended. */
  predicate Open(f: Finder, curr: int) {
    DateOf(curr) < DateOf(f.end) || (DateOf(curr) == DateOf(f.end) && curr < f.end)
  }

  function OpenDays(f: Finder, curr: int): seq<Entry>
    decreases DateOf(f.end) + 1 - DateOf(curr)
  {
    if Open(f, curr) then
      OpenDay(f, curr) + OpenDays(f, NextDay(f, curr))
    else []
  }

  /** The sweep from `curr` on, with the days with events still to come. */
  function Sweep(f: Finder, curr: int, days: seq<Group>): seq<Entry>
    decreases |days|
  {
    if f.end <= curr then []
    else if days == [] then OpenDays(f, curr)
    else
      var date := days[0].date;
      var reached := Reach(f, curr, date);
      var rest :=
        if !Permitted(f, date) then
          Sweep(f, if DateOf(reached) == date then NextDay(f, reached) else reached, days[1..])
        else
          [Entry(DateOf(reached), BusyDay(f, DateOf(reached), days[0].events, f.min))]
          + Sweep(f, NextDay(f, reached), days[1..]);
      FreeDays(f, curr, date) + rest
  }

  function Availability(f: Finder, events: seq<Event>): seq<Entry> {
    Sweep(f, First(f), GroupByDate(events))
  }

  // ----- the loops -----

  lemma {:induction false} FreeDaysStep(f: Finder, entries: seq<Entry>, curr: int, date: int)
    requires DateOf(curr) < date
    ensures (entries + FreeDay(f, curr)) + FreeDays(f, NextDay(f, curr), date) == entries + FreeDays(f, curr, date)
    ensures Reach(f, NextDay(f, curr), date) == Reach(f, curr, date)
  {
    hide FreeDay, NextDay, DateOf, TimeOf;
    Regroup(entries, FreeDay(f, curr), FreeDays(f, NextDay(f, curr), date));
  }

  method FindFreeDays(f: Finder, start: int, date: int) returns (entries: seq<Entry>, curr: int)
    ensures entries == FreeDays(f, start, date)
    ensures curr == Reach(f, start, date)
  {
    hide FreeDays, FreeDay, IsWeekend, NextDay, DateOf, TimeOf, At;
    entries, curr := [], start;
    while DateOf(curr) < date
      invariant entries + FreeDays(f, curr, date) == FreeDays(f, start, date)
      invariant Reach(f, curr, date) == Reach(f, start, date)
      decreases date - DateOf(curr)
    {
      FreeDaysStep(f, entries, curr, date);
      FreeDayIs(f, curr);
      if TimeOf(curr) < f.max {
        var dayEnd := At(DateOf(curr), f.max);
        if f.includeWeekends || !IsWeekend(DateOf(curr)) {
          entries := entries + [Entry(DateOf(curr), [Slot(At(DateOf(curr), f.min / 60 * 60 + f.max % 60), dayEnd)])];
        }
      }
      curr := NextDay(f, curr);
    }
    FreeDaysDone(f, curr, date);
  }

  lemma {:induction false} FreeDayIs(f: Finder, curr: int)
    ensures var date := DateOf(curr);
            FreeDay(f, curr) ==
              if TimeOf(curr) < f.max && (f.includeWeekends || !IsWeekend(date)) then
                [Entry(date, [Slot(At(date, f.min / 60 * 60 + f.max % 60), At(date, f.max))])]
              else []
  {
    hide IsWeekend, DateOf, TimeOf, At;
  }

  lemma {:induction false} FreeDaysDone(f: Finder, curr: int, date: int)
    requires date <= DateOf(curr)
    ensures FreeDays(f, curr, date) == [] && Reach(f, curr, date) == curr
  {
    hide DateOf;
  }

  lemma {:induction false} BusyDayStep(f: Finder, date: int, slots: seq<Slot>, events: seq<Event>, i: nat,
      from: TimeOfDay)
    requires i < |events|
    ensures slots + BusyDay(f, date, events[i..], from) ==
              (slots + SlotBefore(f, date, events[i], from))
              + BusyDay(f, date, events[i + 1..], Max(TimeOf(events[i].end), from))
  {
    hide SlotBefore, SlotAfter, TimeOf;
    var rest := events[i + 1..];
    assert events[i..][0] == events[i] && events[i..][1..] == rest;
    Regroup(slots, SlotBefore(f, date, events[i], from), BusyDay(f, date, rest, Max(TimeOf(events[i].end), from)));
  }

  method FindBusyDay(f: Finder, date: int, events: seq<Event>) returns (slots: seq<Slot>)
    ensures slots == BusyDay(f, date, events, f.min)
  {
    hide BusyDay, Ceil, Floor, DateOf, TimeOf, At;
    slots := [];
    var from: TimeOfDay := f.min;
    assert events[0..] == events;
    for i := 0 to |events|
      invariant slots + BusyDay(f, date, events[i..], from) == BusyDay(f, date, events, f.min)
    {
      BusyDayStep(f, date, slots, events, i, from);
      var ev := events[i];
      if from < TimeOf(ev.start) {
        var s := Ceil(At(DateOf(ev.start), from));
        var e := Floor(Min(ev.start, At(date, f.max)));
        if TimeOf(e) - TimeOf(s) >= f.duration && TimeOf(s) < f.max {
          slots := slots + [Slot(s, e)];
        }
      }
      from := Max(TimeOf(ev.end), from);
    }
    BusyDayLast(f, date, events[|events|..], from);
    if from < f.max {
      var s := Ceil(At(date, from));
      var e := At(date, f.max);
      if e - s >= f.duration { slots := slots + [Slot(s, e)]; }
    }
  }

  lemma {:induction false} BusyDayLast(f: Finder, date: int, events: seq<Event>, from: TimeOfDay)
    requires events == []
    ensures BusyDay(f, date, events, from) == SlotAfter(f, date, from)
  {
  }

  lemma {:induction false} LaterDate(a: int, b: int)
    ensures DateOf(a) < DateOf(b) ==> a < b
  {
  }

  lemma {:induction false} OpenDaysStep(f: Finder, entries: seq<Entry>, curr: int)
    ensures Open(f, curr) ==>
              (entries + OpenDay(f, curr)) + OpenDays(f, NextDay(f, curr)) == entries + OpenDays(f, curr)
    ensures !Open(f, curr) ==> OpenDays(f, curr) == []
  {
    hide OpenDay, NextDay, DateOf;
    Regroup(entries, OpenDay(f, curr), OpenDays(f, NextDay(f, curr)));
  }

  method FindOpenDays(f: Finder, start: int) returns (entries: seq<Entry>, curr: int)
    ensures entries == OpenDays(f, start)
    ensures f.end <= curr
  {
    hide OpenDays, Ceil, IsWeekend, NextDay, DateOf, TimeOf, At;
    entries, curr := [], start;
    while DateOf(curr) < DateOf(f.end) || (DateOf(curr) == DateOf(f.end) && curr < f.end)
      invariant entries + OpenDays(f, curr) == OpenDays(f, start)
      decreases DateOf(f.end) + 1 - DateOf(curr)
    {
      OpenDaysStep(f, entries, curr);
      if !IsWeekend(DateOf(curr)) || f.includeWeekends {
        var s := Ceil(curr);
        var e := curr + (f.max - TimeOf(s));
        if TimeOf(s) <= f.max && e - s >= f.duration {
          entries := entries + [Entry(DateOf(curr), [Slot(s, e)])];
        }
      }
      curr := NextDay(f, curr);
    }
    OpenDaysStep(f, entries, curr);
    LaterDate(f.end, curr);
  }

  /** The finder. */
  method GetAvailability(f: Finder, events: seq<Event>) returns (avail: seq<Entry>)
    ensures avail == Availability(f, events)
  {
    hide Ceil, IsWeekend, NextDay, DateOf, TimeOf, At, FreeDays, OpenDays, BusyDay, GroupByDate;
    avail := [];
    var days := GroupEventsByDate(events);
    var next := 0;
    var curr := Ceil(Max(At(DateOf(f.start), f.min), f.start));
    while curr < f.end
      invariant 0 <= next <= |days|
      invariant avail + Sweep(f, curr, days[next..]) == Availability(f, events)
      decreases |days| - next, f.end - curr
    {
      if next < |days| {
        var day := days[next];
        assert days[next..][0] == day && days[next..][1..] == days[next + 1..];
        var free, reached := FindFreeDays(f, curr, day.date);
        ghost var before := avail;
        avail := avail + free;
        curr := reached;
        next := next + 1;
        if !f.includeWeekends && IsWeekend(day.date) {
          if DateOf(curr) == day.date { curr := NextDay(f, curr); }
          Regroup(before, free, Sweep(f, curr, days[next..]));
          continue;
        }
        var slots := FindBusyDay(f, DateOf(curr), day.events);
        avail := avail + [Entry(DateOf(curr), slots)];
        curr := NextDay(f, curr);
        Regroup(before, free, [Entry(DateOf(reached), slots)] + Sweep(f, curr, days[next..]));
        Regroup(before + free, [Entry(DateOf(reached), slots)], Sweep(f, curr, days[next..]));
      } else {
        var open, reached := FindOpenDays(f, curr);
        avail := avail + open;
        curr := reached;
      }
    }
  }
}
