/** The finder is sound and complete: the slots it offers are free, and every free interval
    that is long enough lies inside one of them. */
module SchedulerProofs {
  import opened Grouping
  import opened Scheduler

  // ----- what the finder relies on -----

  predicate FinderOk(f: Finder) {
    0 < f.duration && f.min < f.max
  }

  /** Bounds on half hours. */
  predicate HalfHours(f: Finder) {
    f.min % 30 == 0 && f.max % 30 == 0
  }

  /** The slot of a day without events begins at the hour of `min` and the minute of `max`.
      These are the bounds for which it is a slot between `min` and `max`. */
  predicate SoundBounds(f: Finder) {
    f.min / 60 < f.max / 60 && f.min % 60 <= f.max % 60
  }

  /** An event on a permitted day ends on that day; any other event touches no permitted day. */
  ghost predicate EventOk(f: Finder, ev: Event) {
    && ev.start < ev.end
    && if Permitted(f, DateOf(ev.start)) then DateOf(ev.end) == DateOf(ev.start)
       else forall d | DateOf(ev.start) <= d && At(d, 0) < ev.end :: !Permitted(f, d)
  }

  predicate SameDay(a: Event, b: Event) {
    DateOf(a.start) == DateOf(b.start)
  }

  /** `b` starts after a gap in the events of its day that begins after 23:30. */
  predicate AfterLateGap(events: seq<Event>, b: Event) {
    && (exists a | a in events :: SameDay(a, b) && 1410 < TimeOf(a.end) && a.end < b.start)
    && (forall c | c in events && SameDay(c, b) && c.start < b.start :: c.end < b.start)
  }

  /** The events on permitted days leave no late gap. */
  ghost predicate EventsSane(f: Finder, events: seq<Event>) {
    && (forall ev | ev in events :: EventOk(f, ev))
    && (forall ev | ev in events && Permitted(f, DateOf(ev.start)) :: !AfterLateGap(events, ev))
  }

  /** No event on a permitted day is dated before the first day of the search. */
  predicate NoneEarly(f: Finder, events: seq<Event>) {
    forall ev | ev in events && Permitted(f, DateOf(ev.start)) :: DateOf(First(f)) <= DateOf(ev.start)
  }

  ghost predicate EventsOk(f: Finder, events: seq<Event>) {
    EventsSane(f, events) && NoneEarly(f, events)
  }

  /** A sweep that stands at `curr`, before `min`, has no long enough slot to offer there.
      This can only be the first time of all: rounding up a start after 23:30 reaches
      midnight. */
  predicate NotTooEarly(f: Finder, curr: int) {
    f.min <= TimeOf(curr) || !Permitted(f, DateOf(curr)) || f.max - TimeOf(curr) < f.duration
  }

  ghost predicate WellPosed(f: Finder, events: seq<Event>) {
    FinderOk(f) && SoundBounds(f) && NotTooEarly(f, First(f)) && EventsOk(f, events)
  }

  // ----- what a good answer is -----

  predicate Clear(s: Slot, ev: Event) {
    s.end <= ev.start || ev.end <= s.start
  }

  predicate Inside(f: Finder, date: int, s: Slot) {
    && At(date, f.min) <= s.start < s.end <= At(date, f.max)
    && (HalfHours(f) ==> Aligned(s.start) && Aligned(s.end))
  }

  /** In order, with time in between. */
  predicate Separated(slots: seq<Slot>) {
    forall i, j | 0 <= i < j < |slots| :: slots[i].end < slots[j].start
  }

  predicate EntryOk(f: Finder, e: Entry, events: seq<Event>) {
    && Permitted(f, e.date)
    && (forall s | s in e.slots :: Inside(f, e.date, s) && forall ev | ev in events :: Clear(s, ev))
    && Separated(e.slots)
  }

  predicate Increasing(entries: seq<Entry>) {
    forall i, j | 0 <= i < j < |entries| :: entries[i].date < entries[j].date
  }

  /** Entries from day `from` on. */
  predicate EntriesOk(f: Finder, entries: seq<Entry>, events: seq<Event>, from: int) {
    && (forall e | e in entries :: EntryOk(f, e, events) && from <= e.date)
    && Increasing(entries)
  }

  predicate Covers(s: Slot, start: int, end: int) {
    s.start <= start && end <= s.end
  }

  predicate CoveredBy(entries: seq<Entry>, start: int, end: int) {
    exists e | e in entries :: exists s | s in e.slots :: Covers(s, start, end)
  }

  // ----- the clock -----

  lemma {:induction false} ClockFacts(date: int, m: int)
    requires 0 <= m < 1440
    ensures DateOf(At(date, m)) == date && TimeOf(At(date, m)) == m
  {
  }

  lemma {:induction false} TimeIsAt(t: int)
    ensures t == At(DateOf(t), TimeOf(t)) && 0 <= TimeOf(t) < 1440
  {
  }

  lemma {:induction false} DateBetween(date: int, t: int)
    ensures At(date, 0) <= t < At(date, 1440) ==> DateOf(t) == date
  {
  }

  lemma {:induction false} RoundedUp(t: int)
    ensures Aligned(Ceil(t)) && t <= Ceil(t) < t + 30
  {
  }

  lemma {:induction false} RoundedDown(t: int)
    ensures Aligned(Floor(t)) && Floor(t) <= t < Floor(t) + 30
  {
  }

  /** Nothing aligned lies between a time and its rounding. */
  lemma {:induction false} RoundingIsTight(t: int, u: int)
    requires Aligned(u)
    ensures t <= u ==> Ceil(t) <= u
    ensures u <= t ==> u <= Floor(t)
  {
    RoundedUp(t);
    RoundedDown(t);
  }

  lemma {:induction false} AlignedAt(date: int, m: int)
    requires m % 30 == 0
    ensures Aligned(At(date, m))
  {
  }

  lemma {:induction false} AlignedOnDay(date: int, m: int)
    requires Aligned(m)
    ensures Aligned(At(date, m))
  {
    AlignedAt(date, m);
  }

  lemma {:induction false} BoundsAligned(f: Finder, date: int)
    requires HalfHours(f)
    ensures Aligned(At(date, f.min)) && Aligned(At(date, f.max))
  {
    hide At, Aligned;
    AlignedAt(date, f.min);
    AlignedAt(date, f.max);
  }

  lemma {:induction false} NextHalfHour(t: int, u: int)
    requires Aligned(t) && Aligned(u) && t < u
    ensures t + 30 <= u
  {
  }

  /** The bounds are sound exactly when the slot of a day without events lies between them; and
      then `min` is before 23:00. */
  lemma {:induction false} FreeStartIs(f: Finder)
    requires FinderOk(f)
    ensures 0 <= FreeStart(f)
    ensures SoundBounds(f) <==> f.min <= FreeStart(f) < f.max
    ensures FreeStart(f) < f.max ==> f.min < 1380
  {
    assert f.min == 60 * (f.min / 60) + f.min % 60 && f.max == 60 * (f.max / 60) + f.max % 60;
  }

  lemma {:induction false} FreeStartAligned(f: Finder)
    requires HalfHours(f)
    ensures FreeStart(f) % 30 == 0
  {
  }

  /** A half-hour time of day stays on its day when rounded, unless it is after 23:30. */
  lemma {:induction false} RoundUpStays(date: int, m: int)
    requires 0 <= m <= 1410
    ensures DateOf(Ceil(At(date, m))) == date && Ceil(At(date, m)) <= At(date, 1410)
  {
    AlignedAt(date, 1410);
    RoundedUp(At(date, m));
    RoundingIsTight(At(date, m), At(date, 1410));
  }

  // ----- one day with events -----

  /** The two roundings stay on the day, so that times of day may be compared. */
  lemma {:induction false} SlotBeforeIs(f: Finder, date: int, ev: Event, from: TimeOfDay)
    requires FinderOk(f) && DateOf(ev.start) == date && f.min <= from <= 1410
    ensures var s, e := Ceil(At(date, from)), Floor(Min(ev.start, At(date, f.max)));
            SlotBefore(f, date, ev, from) ==
              if from < TimeOf(ev.start) && f.duration <= e - s && s < At(date, f.max) then [Slot(s, e)] else []
  {
    hide Ceil, Floor, DateOf, TimeOf, IsWeekend, HalfHours, Aligned;
    TimeIsAt(ev.start);
    if from < TimeOf(ev.start) {
      var start, limit := At(date, from), Min(ev.start, At(date, f.max));
      var s, e := Ceil(start), Floor(limit);
      RoundUpStays(date, from);
      RoundedDown(limit);
      AlignedAt(date, 0);
      RoundingIsTight(limit, At(date, 0));
      DateBetween(date, e);
      TimeIsAt(s);
      TimeIsAt(e);
    }
  }

  /** Busy until after 23:30, and an event after that: the gap is rounded up to midnight. */
  predicate LateGap(ev: Event, from: TimeOfDay) {
    1410 < from < TimeOf(ev.start)
  }

  lemma {:induction false} AtMostOneBefore(f: Finder, date: int, ev: Event, from: TimeOfDay)
    ensures |SlotBefore(f, date, ev, from)| <= 1
  {
    hide Ceil, Floor, DateOf, TimeOf;
  }

  lemma {:induction false} SlotBeforeSound(f: Finder, date: int, ev: Event, from: TimeOfDay)
    requires FinderOk(f) && DateOf(ev.start) == date && f.min <= from && !LateGap(ev, from)
    ensures forall s | s in SlotBefore(f, date, ev, from) ::
              Inside(f, date, s) && At(date, from) <= s.start && s.end <= ev.start && f.duration <= s.end - s.start
  {
    hide Ceil, Floor, DateOf, TimeOf, IsWeekend, HalfHours, Aligned;
    if from < TimeOf(ev.start) {
      SlotBeforeIs(f, date, ev, from);
      RoundedUp(At(date, from));
      RoundedDown(Min(ev.start, At(date, f.max)));
    }
  }

  lemma {:induction false} SlotAfterSound(f: Finder, date: int, from: TimeOfDay)
    requires FinderOk(f) && f.min <= from
    ensures |SlotAfter(f, date, from)| <= 1
    ensures forall s | s in SlotAfter(f, date, from) ::
              Inside(f, date, s) && At(date, from) <= s.start && f.duration <= s.end - s.start
  {
    hide Ceil, DateOf, TimeOf, IsWeekend, HalfHours, Aligned;
    RoundedUp(At(date, from));
    if HalfHours(f) { BoundsAligned(f, date); }
  }

  /** Events of one day, in the order of their starts. */
  predicate DayEvents(date: int, events: seq<Event>) {
    && SortedByStart(events)
    && forall ev | ev in events :: ev.start < ev.end && DateOf(ev.start) == date && DateOf(ev.end) == date
  }

  /** No event comes after a late gap, when the day is busy until `from`. */
  predicate GapFree(events: seq<Event>, from: TimeOfDay) {
    events == []
    || (!LateGap(events[0], from) && GapFree(events[1..], Max(TimeOf(events[0].end), from)))
  }

  lemma {:induction false} DayEventsRest(date: int, events: seq<Event>)
    requires DayEvents(date, events) && events != []
    ensures DayEvents(date, events[1..])
    ensures forall ev | ev in events[1..] :: events[0].start <= ev.start
    ensures forall ev | ev in events :: ev == events[0] || ev in events[1..]
  {
    hide DateOf, TimeOf, IsWeekend, HalfHours, Aligned;
    assert events == [events[0]] + events[1..];
  }

  /** The slots of a busy day lie between the bounds, after `from`, are long enough, overlap
      none of the day's events, and are separated. */
  lemma {:induction false} BusyDaySound(f: Finder, date: int, events: seq<Event>, from: TimeOfDay)
    requires FinderOk(f) && DayEvents(date, events) && GapFree(events, from) && f.min <= from
    ensures forall s | s in BusyDay(f, date, events, from) ::
              && Inside(f, date, s) && At(date, from) <= s.start && f.duration <= s.end - s.start
              && forall ev | ev in events :: Clear(s, ev)
    ensures Separated(BusyDay(f, date, events, from))
  {
    hide SlotBefore, SlotAfter, LateGap, Inside, DateOf, TimeOf, IsWeekend, HalfHours, Aligned;
    if events == [] {
      SlotAfterSound(f, date, from);
    } else {
      var ev := events[0];
      TimeIsAt(ev.end);
      var from' := Max(TimeOf(ev.end), from);
      var before, after := SlotBefore(f, date, ev, from), BusyDay(f, date, events[1..], from');
      DayEventsRest(date, events);
      AtMostOneBefore(f, date, ev, from);
      SlotBeforeSound(f, date, ev, from);
      BusyDaySound(f, date, events[1..], from');
      assert ev in events && ev.end <= At(date, from') && At(date, from) <= At(date, from');
      SeparatedAppend(before, after, ev);
    }
  }

  lemma {:induction false} SeparatedAppend(before: seq<Slot>, after: seq<Slot>, ev: Event)
    requires |before| <= 1 && Separated(after) && ev.start < ev.end
    requires forall s | s in before :: s.end <= ev.start
    requires forall s | s in after :: ev.end <= s.start
    ensures Separated(before + after)
  {
    hide DateOf, TimeOf, IsWeekend, HalfHours, Aligned;
    if |before| == 1 {
      assert before[0] in before;
      assert forall j | 0 <= j < |after| :: after[j] in after;
    }
  }

  // ----- late gaps -----

  /** The events of one day in order, split where a walk over them stands: `from` is the latest
      end of those before. */
  predicate Walked(date: int, done: seq<Event>, rest: seq<Event>, from: TimeOfDay) {
    && DayEvents(date, done + rest)
    && (forall ev | ev in done :: TimeOf(ev.end) <= from)
    && (1410 < from ==> exists ev | ev in done :: TimeOf(ev.end) == from)
  }

  lemma {:induction false} WalkOn(date: int, done: seq<Event>, rest: seq<Event>, from: TimeOfDay)
    requires Walked(date, done, rest, from) && rest != []
    ensures Walked(date, done + [rest[0]], rest[1..], Max(TimeOf(rest[0].end), from))
  {
    hide DateOf, TimeOf;
    assert done + rest == (done + [rest[0]]) + rest[1..];
    assert rest[0] in done + [rest[0]];
    if 1410 < from {
      var ev :| ev in done && TimeOf(ev.end) == from;
      assert ev in done + [rest[0]];
    }
  }

  /** A day without an event after a late gap is walked without one. */
  lemma {:induction false} NoLateGap(date: int, done: seq<Event>, rest: seq<Event>, from: TimeOfDay)
    requires Walked(date, done, rest, from)
    requires forall ev | ev in done + rest :: !AfterLateGap(done + rest, ev)
    ensures GapFree(rest, from)
    decreases |rest|
  {
    hide DateOf, TimeOf, AfterLateGap;
    if rest != [] {
      var b := rest[0];
      assert b in done + rest;
      WalkOn(date, done, rest, from);
      assert done + rest == (done + [b]) + rest[1..];
      NoLateGap(date, done + [b], rest[1..], Max(TimeOf(b.end), from));
      if LateGap(b, from) {
        LateGapSeen(date, done, rest, from);
      }
    }
  }

  lemma {:induction false} LateGapSeen(date: int, done: seq<Event>, rest: seq<Event>, from: TimeOfDay)
    requires Walked(date, done, rest, from) && rest != [] && LateGap(rest[0], from)
    ensures AfterLateGap(done + rest, rest[0])
  {
    hide DateOf, TimeOf;
    var b, all := rest[0], done + rest;
    assert b in all;
    TimeIsAt(b.start);
    var a :| a in done && TimeOf(a.end) == from;
    assert a in all;
    TimeIsAt(a.end);
    forall c | c in all && c.start < b.start ensures c.end < b.start {
      StartedBefore(date, done, rest, c);
      TimeIsAt(c.end);
    }
  }

  lemma {:induction false} StartedBefore(date: int, done: seq<Event>, rest: seq<Event>, c: Event)
    requires DayEvents(date, done + rest) && rest != [] && c in done + rest && c.start < rest[0].start
    ensures c in done
  {
    var all := done + rest;
    var i :| 0 <= i < |all| && all[i] == c;
    assert all[|done|] == rest[0];
    assert i < |done|;
    assert done[i] == c;
  }

  /** And a walk meets every late gap. */
  lemma {:induction false} LateGapMet(date: int, done: seq<Event>, rest: seq<Event>, from: TimeOfDay, b: Event)
    requires Walked(date, done, rest, from) && b in rest && AfterLateGap(done + rest, b)
    requires forall ev | ev in done :: ev.start < b.start
    ensures !GapFree(rest, from)
    decreases |rest|
  {
    hide DateOf, TimeOf;
    var h, all := rest[0], done + rest;
    assert all == (done + [h]) + rest[1..];
    if h.start < b.start {
      WalkOn(date, done, rest, from);
      assert b in rest[1..] by { assert rest == [h] + rest[1..]; }
      LateGapMet(date, done + [h], rest[1..], Max(TimeOf(h.end), from), b);
    } else {
      NotLater(date, done, rest, b);
      var a :| a in all && SameDay(a, b) && 1410 < TimeOf(a.end) && a.end < b.start;
      assert h in all && b in all;
      StartedBefore(date, done, rest, a);
      TimeIsAt(a.end);
      TimeIsAt(h.start);
      var last :| last in done && TimeOf(last.end) == from;
      assert last in all;
      TimeIsAt(last.end);
      assert SameDay(last, b);
    }
  }

  lemma {:induction false} NotLater(date: int, done: seq<Event>, rest: seq<Event>, b: Event)
    requires DayEvents(date, done + rest) && b in rest && b.start <= rest[0].start
    ensures rest[0].start == b.start
  {
    var all := done + rest;
    var i :| 0 <= i < |rest| && rest[i] == b;
    assert all[|done|] == rest[0] && all[|done| + i] == b;
  }

  // ----- the state of the sweep -----

  /** No event is dated from `from` until before `until`. */
  predicate NoEventsIn(events: seq<Event>, from: int, until: int) {
    forall ev | ev in events :: DateOf(ev.start) < from || until <= DateOf(ev.start)
  }

  /** The events of a day, in order. */
  ghost predicate IsDay(date: int, dayEvents: seq<Event>, events: seq<Event>) {
    && SortedByStart(dayEvents)
    && forall ev :: ev in dayEvents <==> ev in events && DateOf(ev.start) == date
  }

  /** A sweep stands at a half hour, the first time, or at `min`. */
  predicate Standing(f: Finder, curr: int) {
    Aligned(curr) || TimeOf(curr) == f.min
  }

  /** Each of the days has all events of its date. */
  predicate WholeDays(days: seq<Group>, events: seq<Event>) {
    forall ev | ev in events && ev !in Flatten(days) :: forall g | g in days :: DateOf(ev.start) != g.date
  }

  /** The sweep at `curr` has the events of the days from there on still to come, and besides
      these only events of earlier days that are not permitted. */
  predicate Pending(f: Finder, curr: int, days: seq<Group>, events: seq<Event>) {
    && FinderOk(f) && Standing(f, curr) && Grouped(days)
    && (forall ev | ev in events && DateOf(curr) <= DateOf(ev.start) :: ev in Flatten(days))
    && (forall ev | ev in Flatten(days) ::
          ev in events && (Permitted(f, DateOf(ev.start)) ==> DateOf(curr) <= DateOf(ev.start)))
    && WholeDays(days, events)
  }

  lemma {:induction false} StandingNext(f: Finder, curr: int)
    ensures Standing(f, NextDay(f, curr)) && NotTooEarly(f, NextDay(f, curr))
    ensures forall date | DateOf(curr) < date ::
              Standing(f, At(date, f.min)) && NotTooEarly(f, At(date, f.min)) && DateOf(At(date, f.min)) == date
  {
    hide DateOf, TimeOf, IsWeekend, Aligned;
    forall date | DateOf(curr) < date
      ensures Standing(f, At(date, f.min)) && NotTooEarly(f, At(date, f.min)) && DateOf(At(date, f.min)) == date
    {
      ClockFacts(date, f.min);
    }
  }

  lemma {:induction false} GroupedRest(days: seq<Group>)
    requires Grouped(days) && days != []
    ensures Grouped(days[1..]) && GroupOk(days[0])
    ensures forall ev | ev in Flatten(days[1..]) :: days[0].date < DateOf(ev.start)
    ensures forall ev :: ev in Flatten(days) <==> ev in days[0].events || ev in Flatten(days[1..])
    ensures forall g | g in days[1..] :: g in days
  {
    hide DateOf, TimeOf, IsWeekend, HalfHours, Aligned;
    forall ev | ev in Flatten(days[1..]) ensures days[0].date < DateOf(ev.start) {
      FlattenMember(days[1..], ev);
    }
  }

  lemma {:induction false} WholeDaysRest(days: seq<Group>, events: seq<Event>)
    requires Grouped(days) && days != [] && WholeDays(days, events)
    ensures WholeDays(days[1..], events)
  {
    hide DateOf;
    GroupedRest(days);
    forall ev | ev in events && ev !in Flatten(days[1..])
      ensures forall g | g in days[1..] :: DateOf(ev.start) != g.date
    {
      if ev in days[0].events { OtherDates(days, ev); }
    }
  }

  /** An early day is not permitted, and is skipped. */
  lemma {:induction false} PendingSkip(f: Finder, curr: int, days: seq<Group>, events: seq<Event>)
    requires Pending(f, curr, days, events) && days != [] && days[0].date < DateOf(curr)
    ensures !Permitted(f, days[0].date) && Pending(f, curr, days[1..], events)
    ensures curr < f.end ==> Sweep(f, curr, days) == Sweep(f, curr, days[1..])
  {
    hide WholeDays, NextDay, DateOf, TimeOf, IsWeekend, HalfHours, Aligned;
    GroupedRest(days);
    assert days[0].events[0] in Flatten(days);
    assert days[0] in days;
    WholeDaysRest(days, events);
  }

  lemma {:induction false} OtherDates(days: seq<Group>, ev: Event)
    requires Grouped(days) && days != [] && DateOf(ev.start) == days[0].date
    ensures forall g | g in days[1..] :: DateOf(ev.start) != g.date
  {
    hide DateOf;
    forall g | g in days[1..] ensures DateOf(ev.start) != g.date {
      var i :| 0 <= i < |days[1..]| && days[1..][i] == g;
      assert days[i + 1] == g;
    }
  }

  /** A day that is not early is the next one with events, and once it is done the rest is
      pending. */
  lemma {:induction false} PendingStep(f: Finder, curr: int, days: seq<Group>, events: seq<Event>)
    requires Pending(f, curr, days, events) && days != [] && DateOf(curr) <= days[0].date
    ensures var date, reached := days[0].date, Reach(f, curr, days[0].date);
            && DateOf(reached) == date
            && NoEventsIn(events, DateOf(curr), date)
            && IsDay(date, days[0].events, events)
            && Pending(f, NextDay(f, reached), days[1..], events)
            && NotTooEarly(f, NextDay(f, reached))
  {
    hide WholeDays, NextDay, NotTooEarly, DateOf, TimeOf, IsWeekend, HalfHours, Aligned;
    var date, reached := days[0].date, Reach(f, curr, days[0].date);
    GroupedRest(days);
    StandingNext(f, curr);
    StandingNext(f, reached);
    assert days[0] in days;
    WholeDaysRest(days, events);
  }

  lemma {:induction false} FirstPending(f: Finder, events: seq<Event>)
    requires FinderOk(f) && NoneEarly(f, events)
    ensures Pending(f, First(f), GroupByDate(events), events)
  {
    hide GroupByDate, Ceil, DateOf, TimeOf, IsWeekend, HalfHours, Aligned;
    RoundedUp(Max(At(DateOf(f.start), f.min), f.start));
    GroupingIsStable(events, 0);
    forall ev ensures ev in Flatten(GroupByDate(events)) <==> ev in events { GroupingKeepsEvents(events, ev); }
  }

  // ----- soundness of the sweep -----

  lemma {:induction false} OtherDaysClear(f: Finder, date: int, s: Slot, ev: Event)
    requires Inside(f, date, s) && Permitted(f, date) && EventOk(f, ev) && DateOf(ev.start) != date
    ensures Clear(s, ev)
  {
    hide DateOf, TimeOf, IsWeekend, HalfHours, Aligned;
    TimeIsAt(ev.start);
    TimeIsAt(ev.end);
  }

  lemma {:induction false} EmptyDayEntry(f: Finder, date: int, s: Slot, events: seq<Event>)
    requires Permitted(f, date) && Inside(f, date, s) && NoEventsIn(events, date, date + 1) && EventsSane(f, events)
    ensures EntryOk(f, Entry(date, [s]), events)
  {
    hide EventOk, DateOf, TimeOf, IsWeekend, HalfHours, Aligned;
    forall ev | ev in events ensures Clear(s, ev) { OtherDaysClear(f, date, s, ev); }
  }

  lemma {:induction false} EntriesAppend(f: Finder, a: seq<Entry>, b: seq<Entry>, events: seq<Event>, from: int,
      mid: int)
    requires EntriesOk(f, a, events, from) && EntriesOk(f, b, events, mid) && from <= mid
    requires forall e | e in a :: e.date < mid
    ensures EntriesOk(f, a + b, events, from)
  {
    hide EntryOk, DateOf, TimeOf, IsWeekend, HalfHours, Aligned;
    var r := a + b;
    forall i, j | 0 <= i < j < |r| ensures r[i].date < r[j].date {
      if i < |a| <= j { assert a[i] in a && b[j - |a|] in b; }
    }
  }

  lemma {:induction false} FreeDaySound(f: Finder, curr: int, events: seq<Event>)
    requires FinderOk(f) && SoundBounds(f) && EventsSane(f, events)
    requires NoEventsIn(events, DateOf(curr), DateOf(curr) + 1)
    ensures EntriesOk(f, FreeDay(f, curr), events, DateOf(curr))
    ensures forall e | e in FreeDay(f, curr) :: e.date == DateOf(curr)
  {
    hide FreeStart, SoundBounds, EventOk, EntryOk, DateOf, TimeOf, IsWeekend, HalfHours, Aligned;
    var date := DateOf(curr);
    FreeStartIs(f);
    if HalfHours(f) {
      FreeStartAligned(f);
      AlignedAt(date, FreeStart(f));
      BoundsAligned(f, date);
    }
    if FreeDay(f, curr) != [] { EmptyDayEntry(f, date, Slot(At(date, FreeStart(f)), At(date, f.max)), events); }
  }

  lemma {:induction false} FreeDaysSound(f: Finder, curr: int, date: int, events: seq<Event>)
    requires FinderOk(f) && SoundBounds(f) && EventsSane(f, events) && NoEventsIn(events, DateOf(curr), date)
    ensures EntriesOk(f, FreeDays(f, curr, date), events, DateOf(curr))
    ensures forall e | e in FreeDays(f, curr, date) :: e.date < date
    decreases date - DateOf(curr)
  {
    hide FreeDay, NextDay, SoundBounds, EventsSane, EntryOk, DateOf, TimeOf, IsWeekend, HalfHours, Aligned;
    if DateOf(curr) < date {
      var next := NextDay(f, curr);
      FreeDaySound(f, curr, events);
      FreeDaysSound(f, next, date, events);
      EntriesAppend(f, FreeDay(f, curr), FreeDays(f, next, date), events, DateOf(curr), DateOf(next));
    }
  }

  /** The end of the slot of a day after the last day with events, on which the sweep stands at
      `curr`: the time from the next half hour to `max` is counted from `curr`. */
  function OpenEnd(f: Finder, curr: int): int {
    At(DateOf(curr), f.max) - (Ceil(curr) - curr)
  }

  /** What is offered on such a day. */
  lemma {:induction false} OpenDayIs(f: Finder, curr: int)
    requires TimeOf(curr) <= 1410
    ensures var s := Slot(Ceil(curr), OpenEnd(f, curr));
            OpenDay(f, curr) ==
              if Permitted(f, DateOf(curr)) && s.start <= At(DateOf(curr), f.max) && f.duration <= s.end - s.start then
                [Entry(DateOf(curr), [s])]
              else []
  {
    hide Ceil, DateOf, TimeOf, Permitted;
    TimeIsAt(curr);
    RoundUpStays(DateOf(curr), TimeOf(curr));
    TimeIsAt(Ceil(curr));
  }

  lemma {:induction false} StandingEarly(f: Finder, curr: int)
    requires Standing(f, curr) && f.min <= 1410
    ensures TimeOf(curr) <= 1410
    ensures Aligned(curr) ==> Ceil(curr) == curr && OpenEnd(f, curr) == At(DateOf(curr), f.max)
  {
    hide Ceil, DateOf, TimeOf, Aligned;
    TimeIsAt(curr);
    AlignedAt(DateOf(curr), 1440);
    if Aligned(curr) {
      NextHalfHour(curr, At(DateOf(curr), 1440));
      RoundedUp(curr);
      RoundingIsTight(curr, curr);
    }
  }

  lemma {:induction false} OpenDaySound(f: Finder, curr: int, events: seq<Event>)
    requires FinderOk(f) && f.min <= 1410 && Standing(f, curr) && NotTooEarly(f, curr)
    requires EventsSane(f, events) && NoEventsIn(events, DateOf(curr), DateOf(curr) + 1)
    ensures EntriesOk(f, OpenDay(f, curr), events, DateOf(curr))
    ensures forall e | e in OpenDay(f, curr) :: e.date == DateOf(curr)
  {
    hide OpenDay, EventsSane, EntryOk, Ceil, OpenEnd, DateOf, TimeOf, Permitted, HalfHours, Aligned;
    var date := DateOf(curr);
    StandingEarly(f, curr);
    OpenDayIs(f, curr);
    if OpenDay(f, curr) != [] {
      OpenSlotInside(f, curr);
      EmptyDayEntry(f, date, Slot(Ceil(curr), OpenEnd(f, curr)), events);
    }
  }

  lemma {:induction false} OpenSlotInside(f: Finder, curr: int)
    requires FinderOk(f) && f.min <= 1410 && Standing(f, curr) && NotTooEarly(f, curr) && Permitted(f, DateOf(curr))
    requires f.duration <= OpenEnd(f, curr) - Ceil(curr)
    ensures Inside(f, DateOf(curr), Slot(Ceil(curr), OpenEnd(f, curr)))
  {
    hide Ceil, DateOf, TimeOf, Permitted, HalfHours, Aligned;
    var date := DateOf(curr);
    StandingEarly(f, curr);
    TimeIsAt(curr);
    RoundedUp(curr);
    if HalfHours(f) { BoundsAligned(f, date); }
  }

  lemma {:induction false} OpenDaysSound(f: Finder, curr: int, events: seq<Event>)
    requires FinderOk(f) && f.min <= 1410 && Standing(f, curr) && NotTooEarly(f, curr)
    requires EventsSane(f, events) && forall ev | ev in events :: DateOf(ev.start) < DateOf(curr)
    ensures EntriesOk(f, OpenDays(f, curr), events, DateOf(curr))
    decreases DateOf(f.end) + 1 - DateOf(curr)
  {
    hide OpenDay, NextDay, NotTooEarly, Standing, EventsSane, EntryOk, DateOf, TimeOf, IsWeekend, HalfHours, Aligned;
    if Open(f, curr) {
      var next := NextDay(f, curr);
      StandingNext(f, curr);
      OpenDaySound(f, curr, events);
      OpenDaysSound(f, next, events);
      EntriesAppend(f, OpenDay(f, curr), OpenDays(f, next), events, DateOf(curr), DateOf(next));
    }
  }

  lemma {:induction false} DayIsGapFree(f: Finder, date: int, dayEvents: seq<Event>, events: seq<Event>)
    requires f.min <= 1410 && Permitted(f, date) && EventsSane(f, events) && IsDay(date, dayEvents, events)
    ensures DayEvents(date, dayEvents) && GapFree(dayEvents, f.min)
  {
    hide DateOf, TimeOf, IsWeekend;
    assert [] + dayEvents == dayEvents;
    assert Walked(date, [], dayEvents, f.min);
    forall ev | ev in dayEvents ensures !AfterLateGap(dayEvents, ev) { SameGaps(date, dayEvents, events, ev); }
    NoLateGap(date, [], dayEvents, f.min);
  }

  lemma {:induction false} SameGaps(date: int, dayEvents: seq<Event>, events: seq<Event>, b: Event)
    requires IsDay(date, dayEvents, events) && b in dayEvents
    ensures AfterLateGap(dayEvents, b) <==> AfterLateGap(events, b)
  {
    hide DateOf, TimeOf;
  }

  lemma {:induction false} BusyEntrySound(f: Finder, date: int, dayEvents: seq<Event>, events: seq<Event>)
    requires FinderOk(f) && f.min <= 1410
    requires Permitted(f, date) && EventsSane(f, events) && IsDay(date, dayEvents, events)
    ensures EntryOk(f, Entry(date, BusyDay(f, date, dayEvents, f.min)), events)
  {
    hide BusyDay, Inside, EventOk, AfterLateGap, GapFree, DayEvents,
         Clear, Permitted, DateOf, TimeOf, HalfHours, Aligned;
    DayIsGapFree(f, date, dayEvents, events);
    BusyDaySound(f, date, dayEvents, f.min);
    forall s, ev | s in BusyDay(f, date, dayEvents, f.min) && ev in events ensures Clear(s, ev) {
      if DateOf(ev.start) != date { OtherDaysClear(f, date, s, ev); }
    }
  }

  lemma {:induction false} SweepSound(f: Finder, curr: int, days: seq<Group>, events: seq<Event>)
    requires Pending(f, curr, days, events) && SoundBounds(f) && NotTooEarly(f, curr) && EventsSane(f, events)
    ensures EntriesOk(f, Sweep(f, curr, days), events, DateOf(curr))
    decreases |days|
  {
    hide NextDay, NotTooEarly, EntryOk, FreeDays, OpenDays, BusyDay, SoundBounds,
         EventsSane, Permitted, DateOf, TimeOf, HalfHours, Aligned;
    if curr < f.end {
      FreeStartIs(f);
      if days == [] {
        OpenDaysSound(f, curr, events);
      } else if days[0].date < DateOf(curr) {
        PendingSkip(f, curr, days, events);
        SweepSound(f, curr, days[1..], events);
      } else {
        var date, reached := days[0].date, Reach(f, curr, days[0].date);
        var next := NextDay(f, reached);
        PendingStep(f, curr, days, events);
        FreeDaysSound(f, curr, date, events);
        SweepSound(f, next, days[1..], events);
        var rest := Sweep(f, next, days[1..]);
        if Permitted(f, date) {
          var entry := Entry(date, BusyDay(f, date, days[0].events, f.min));
          BusyEntrySound(f, date, days[0].events, events);
          EntriesAppend(f, [entry], rest, events, date, date + 1);
          EntriesAppend(f, FreeDays(f, curr, date), [entry] + rest, events, DateOf(curr), date);
        } else {
          EntriesAppend(f, FreeDays(f, curr, date), rest, events, DateOf(curr), date + 1);
        }
      }
    }
  }

  /** Soundness: the days of the answer increase strictly and are permitted; every slot lies
      between `min` and `max` of its day, on half hours if the bounds are; no slot overlaps any
      event; and the slots of a day are separated. */
  lemma {:induction false} FinderSound(f: Finder, events: seq<Event>)
    requires WellPosed(f, events)
    ensures EntriesOk(f, Availability(f, events), events, DateOf(First(f)))
  {
    hide FinderOk, SoundBounds, EventsSane, NotTooEarly, First, DateOf;
    FirstPending(f, events);
    SweepSound(f, First(f), GroupByDate(events), events);
  }

  // ----- completeness -----

  /** A half-hour-aligned interval of at least the wanted length, within the bounds of a
      permitted day, that overlaps no event. */
  predicate Wanted(f: Finder, events: seq<Event>, start: int, end: int) {
    var date := DateOf(start);
    && Aligned(start) && Aligned(end) && f.duration <= end - start
    && At(date, f.min) <= start && end <= At(date, f.max)
    && Permitted(f, date)
    && forall ev | ev in events :: Clear(Slot(start, end), ev)
  }

  lemma {:induction false} SlotAfterComplete(f: Finder, date: int, from: TimeOfDay, start: int, end: int)
    requires FinderOk(f) && Wanted(f, [], start, end) && DateOf(start) == date && At(date, from) <= start
    ensures exists s | s in SlotAfter(f, date, from) :: Covers(s, start, end)
  {
    hide Ceil, DateOf, TimeOf, IsWeekend, HalfHours, Aligned;
    RoundingIsTight(At(date, from), start);
    var s := Slot(Ceil(At(date, from)), At(date, f.max));
    assert s in SlotAfter(f, date, from) && Covers(s, start, end);
  }

  lemma {:induction false} SlotBeforeComplete(f: Finder, date: int, ev: Event, from: TimeOfDay, start: int, end: int)
    requires FinderOk(f) && DateOf(ev.start) == date && f.min <= from
    requires Wanted(f, [], start, end) && DateOf(start) == date && At(date, from) <= start && end <= ev.start
    ensures exists s | s in SlotBefore(f, date, ev, from) :: Covers(s, start, end)
  {
    hide SlotBefore, Ceil, Floor, DateOf, TimeOf, IsWeekend, Aligned;
    var limit := Min(ev.start, At(date, f.max));
    WantedEarly(f, [], start, end);
    TimeIsAt(start);
    SlotBeforeIs(f, date, ev, from);
    TimeIsAt(ev.start);
    RoundingIsTight(At(date, from), start);
    RoundingIsTight(limit, end);
    var s := Slot(Ceil(At(date, from)), Floor(limit));
    assert s in SlotBefore(f, date, ev, from) && Covers(s, start, end);
  }

  lemma {:induction false} BusyDayComplete(f: Finder, date: int, events: seq<Event>, from: TimeOfDay, start: int,
      end: int)
    requires FinderOk(f) && f.min <= from
    requires forall ev | ev in events :: ev.start < ev.end && DateOf(ev.start) == date
    requires Wanted(f, events, start, end) && DateOf(start) == date && At(date, from) <= start
    ensures exists s | s in BusyDay(f, date, events, from) :: Covers(s, start, end)
  {
    hide SlotBefore, SlotAfter, DateOf, TimeOf, IsWeekend, HalfHours, Aligned;
    if events == [] {
      SlotAfterComplete(f, date, from, start, end);
    } else {
      var ev := events[0];
      TimeIsAt(ev.start);
      TimeIsAt(ev.end);
      TimeIsAt(start);
      var from' := Max(TimeOf(ev.end), from);
      assert ev in events;
      if end <= ev.start {
        SlotBeforeComplete(f, date, ev, from, start, end);
        var s :| s in SlotBefore(f, date, ev, from) && Covers(s, start, end);
        assert s in BusyDay(f, date, events, from);
      } else {
        BusyDayComplete(f, date, events[1..], from', start, end);
        var s :| s in BusyDay(f, date, events[1..], from') && Covers(s, start, end);
        assert s in BusyDay(f, date, events, from);
      }
    }
  }

  lemma {:induction false} FreeDaysComplete(f: Finder, curr: int, date: int, events: seq<Event>, start: int, end: int)
    requires FinderOk(f) && Wanted(f, events, start, end) && At(DateOf(start), FreeStart(f)) <= start
    requires curr <= start && DateOf(start) < date
    ensures CoveredBy(FreeDays(f, curr, date), start, end)
    decreases date - DateOf(curr)
  {
    hide FreeStart, DateOf, TimeOf, IsWeekend, HalfHours, Aligned;
    TimeIsAt(curr);
    TimeIsAt(start);
    if DateOf(curr) == DateOf(start) {
      var s := Slot(At(DateOf(curr), FreeStart(f)), At(DateOf(curr), f.max));
      assert FreeDay(f, curr) == [Entry(DateOf(curr), [s])];
      var e := FreeDays(f, curr, date)[0];
      assert e in FreeDays(f, curr, date) && s in e.slots && Covers(s, start, end);
    } else {
      var next := NextDay(f, curr);
      TimeIsAt(next);
      FreeDaysComplete(f, next, date, events, start, end);
      CoveredAppend(FreeDay(f, curr), FreeDays(f, next, date), start, end);
    }
  }

  lemma {:induction false} CoveredAppend(a: seq<Entry>, b: seq<Entry>, start: int, end: int)
    requires CoveredBy(a, start, end) || CoveredBy(b, start, end)
    ensures CoveredBy(a + b, start, end)
  {
    hide DateOf, TimeOf, IsWeekend, HalfHours, Aligned;
    var e :| (e in a || e in b) && exists s | s in e.slots :: Covers(s, start, end);
    assert e in a + b;
  }

  /** The interval does not end after the slot of a day after the last day with events, on which
      the sweep stands at `min`. */
  predicate BeforeOpenEnd(f: Finder, start: int, end: int) {
    end <= OpenEnd(f, At(DateOf(start), f.min))
  }

  lemma {:induction false} WantedEarly(f: Finder, events: seq<Event>, start: int, end: int)
    requires FinderOk(f) && Wanted(f, events, start, end)
    ensures f.min <= TimeOf(start) <= 1410
  {
    hide DateOf, TimeOf, Aligned, Permitted;
    TimeIsAt(start);
    AlignedAt(DateOf(start), 1440);
    NextHalfHour(start, At(DateOf(start), 1440));
  }

  lemma {:induction false} OpenDayComplete(f: Finder, curr: int, events: seq<Event>, start: int, end: int)
    requires FinderOk(f) && Standing(f, curr) && Wanted(f, events, start, end)
    requires BeforeOpenEnd(f, start, end) || Aligned(curr)
    requires curr <= start && DateOf(curr) == DateOf(start)
    ensures OpenDay(f, curr) == [Entry(DateOf(curr), [Slot(Ceil(curr), OpenEnd(f, curr))])]
    ensures Covers(Slot(Ceil(curr), OpenEnd(f, curr)), start, end)
  {
    hide OpenDay, OpenEnd, Ceil, DateOf, TimeOf, Permitted, Aligned;
    TimeIsAt(curr);
    TimeIsAt(start);
    WantedEarly(f, events, start, end);
    StandingEarly(f, curr);
    RoundingIsTight(curr, start);
    OpenDayIs(f, curr);
  }

  lemma {:induction false} OpenDaysComplete(f: Finder, curr: int, events: seq<Event>, start: int, end: int)
    requires FinderOk(f) && Standing(f, curr) && Wanted(f, events, start, end)
    requires BeforeOpenEnd(f, start, end) || (Aligned(curr) && DateOf(curr) == DateOf(start))
    requires curr <= start < f.end
    ensures CoveredBy(OpenDays(f, curr), start, end)
    decreases DateOf(f.end) + 1 - DateOf(curr)
  {
    hide OpenDay, Standing, BeforeOpenEnd, OpenEnd, Ceil, DateOf, TimeOf, Permitted, Aligned;
    TimeIsAt(curr);
    TimeIsAt(start);
    TimeIsAt(f.end);
    if DateOf(curr) == DateOf(start) {
      OpenDayComplete(f, curr, events, start, end);
      var e := OpenDays(f, curr)[0];
      assert e in OpenDays(f, curr) && Slot(Ceil(curr), OpenEnd(f, curr)) in e.slots;
    } else {
      var next := NextDay(f, curr);
      TimeIsAt(next);
      StandingNext(f, curr);
      OpenDaysComplete(f, next, events, start, end);
      CoveredAppend(OpenDay(f, curr), OpenDays(f, next), start, end);
    }
  }

  lemma {:induction false} BusyEntryComplete(f: Finder, date: int, dayEvents: seq<Event>, events: seq<Event>,
      start: int, end: int)
    requires FinderOk(f) && IsDay(date, dayEvents, events) && DateOf(start) == date
    requires Wanted(f, events, start, end) && forall ev | ev in events :: ev.start < ev.end
    ensures CoveredBy([Entry(date, BusyDay(f, date, dayEvents, f.min))], start, end)
  {
    hide BusyDay, DateOf, TimeOf, IsWeekend, HalfHours, Aligned;
    BusyDayComplete(f, date, dayEvents, f.min, start, end);
    var entry := Entry(date, BusyDay(f, date, dayEvents, f.min));
    assert entry in [entry];
  }

  lemma {:induction false} SweepComplete(f: Finder, curr: int, days: seq<Group>, events: seq<Event>, start: int,
      end: int)
    requires Pending(f, curr, days, events) && Wanted(f, events, start, end)
    requires At(DateOf(start), FreeStart(f)) <= start && forall ev | ev in events :: ev.start < ev.end
    requires BeforeOpenEnd(f, start, end) || (Aligned(curr) && DateOf(curr) == DateOf(start))
    requires curr <= start < f.end
    ensures CoveredBy(Sweep(f, curr, days), start, end)
    decreases |days|
  {
    hide FreeStart, BeforeOpenEnd, Standing, NextDay, FreeDays, OpenDays, BusyDay,
         NotTooEarly, CoveredBy, Permitted, DateOf, TimeOf, Aligned;
    if days == [] {
      OpenDaysComplete(f, curr, events, start, end);
    } else if days[0].date < DateOf(curr) {
      PendingSkip(f, curr, days, events);
      SweepComplete(f, curr, days[1..], events, start, end);
    } else {
      var date, reached := days[0].date, Reach(f, curr, days[0].date);
      var next := NextDay(f, reached);
      PendingStep(f, curr, days, events);
      TimeIsAt(start);
      TimeIsAt(next);
      var free, rest := FreeDays(f, curr, date), Sweep(f, next, days[1..]);
      var entry := Entry(date, BusyDay(f, date, days[0].events, f.min));
      if DateOf(start) < date {
        FreeDaysComplete(f, curr, date, events, start, end);
        CoveredAppend(free, rest, start, end);
        CoveredAppend(free, [entry] + rest, start, end);
      } else if DateOf(start) == date {
        BusyEntryComplete(f, date, days[0].events, events, start, end);
        CoveredAppend([entry], rest, start, end);
        CoveredAppend(free, [entry] + rest, start, end);
      } else {
        SweepComplete(f, next, days[1..], events, start, end);
        CoveredAppend([entry], rest, start, end);
        CoveredAppend(free, [entry] + rest, start, end);
        CoveredAppend(free, rest, start, end);
      }
    }
  }

  lemma {:induction false} FirstBefore(f: Finder, start: int)
    requires Aligned(start) && f.start <= start && At(DateOf(start), f.min) <= start
    ensures First(f) <= start
  {
    hide Ceil, DateOf, TimeOf, IsWeekend, HalfHours, Aligned;
    TimeIsAt(start);
    TimeIsAt(f.start);
    RoundingIsTight(Max(At(DateOf(f.start), f.min), f.start), start);
  }

  /** No loss on a day without events: the interval does not start before the slot of a day before
      a day with events, nor, after the first day, end after the slot of a day after these. */
  predicate NotCut(f: Finder, start: int, end: int) {
    && At(DateOf(start), FreeStart(f)) <= start
    && (DateOf(start) == DateOf(First(f)) || BeforeOpenEnd(f, start, end))
  }

  /** Completeness: every wanted interval that starts within the search window, and is not cut on
      a day without events, lies inside some slot of the answer. */
  lemma {:induction false} FinderComplete(f: Finder, events: seq<Event>, start: int, end: int)
    requires FinderOk(f) && NoneEarly(f, events) && forall ev | ev in events :: ev.start < ev.end
    requires Wanted(f, events, start, end) && f.start <= start < f.end && NotCut(f, start, end)
    ensures CoveredBy(Availability(f, events), start, end)
  {
    hide DateOf, TimeOf, Permitted, First, FreeStart, BeforeOpenEnd, FinderOk, NoneEarly, Aligned;
    FirstPending(f, events);
    FirstAligned(f);
    FirstBefore(f, start);
    SweepComplete(f, First(f), GroupByDate(events), events, start, end);
  }

  lemma {:induction false} FirstAligned(f: Finder)
    ensures Aligned(First(f))
  {
    hide Ceil, Aligned, DateOf;
    RoundedUp(Max(At(DateOf(f.start), f.min), f.start));
  }

  /** With bounds on half hours nothing is cut, if the slots of days without events do not begin
      after `min`, or the interval does not begin right at `min`. */
  lemma {:induction false} HalfHoursNotCut(f: Finder, events: seq<Event>, start: int, end: int)
    requires FinderOk(f) && HalfHours(f) && Wanted(f, events, start, end)
    requires f.max % 60 <= f.min % 60 || At(DateOf(start), f.min) < start
    ensures NotCut(f, start, end)
  {
    hide Ceil, OpenEnd, HalfHours, First, DateOf, TimeOf, Aligned;
    var opening := At(DateOf(start), f.min);
    BoundsAligned(f, DateOf(start));
    ClockFacts(DateOf(start), f.min);
    WantedEarly(f, events, start, end);
    StandingEarly(f, opening);
    if opening < start { NextHalfHour(opening, start); }
    FreeStartLate(f);
  }

  lemma {:induction false} FreeStartLate(f: Finder)
    requires FinderOk(f) && HalfHours(f)
    ensures FreeStart(f) <= if f.max % 60 <= f.min % 60 then f.min else f.min + 30
  {
  }
}
