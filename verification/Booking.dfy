/** From the answer of the finder to the windows that are booked. */
module Booking {
  import Grouping
  import opened Scheduler
  import opened SchedulerProofs
  import opened Windows

  /** The slots of all days in one list. */
  function SlotsOf(entries: seq<Entry>): seq<Slot> {
    if entries == [] then [] else SlotsOf(entries[..|entries| - 1]) + entries[|entries| - 1].slots
  }

  method AllSlots(entries: seq<Entry>) returns (all: seq<Slot>)
    ensures all == SlotsOf(entries)
  {
    all := [];
    for i := 0 to |entries|
      invariant all == SlotsOf(entries[..i])
    {
      assert entries[..i + 1][..i] == entries[..i];
      all := all + entries[i].slots;
    }
    assert entries[..|entries|] == entries;
  }

  /** Exactly the slots of all days are in the list. */
  lemma {:induction false} SlotsOfAll(entries: seq<Entry>)
    ensures forall s :: s in SlotsOf(entries) <==> exists e | e in entries :: s in e.slots
  {
    if entries != [] {
      var n := |entries| - 1;
      SlotsOfAll(entries[..n]);
      assert entries == entries[..n] + [entries[n]];
    }
  }

  /** The slots of all days in one list are still separated, so that windows split from them can
      never be merged across a gap. */
  lemma {:induction false} AllSlotsSeparated(f: Finder, entries: seq<Entry>, events: seq<Grouping.Event>, from: int)
    requires EntriesOk(f, entries, events, from)
    ensures Separated(SlotsOf(entries))
  {
    if entries != [] {
      var n := |entries| - 1;
      var last := entries[n];
      assert forall e | e in entries[..n] :: e in entries;
      AllSlotsSeparated(f, entries[..n], events, from);
      SlotsOfAll(entries[..n]);
      assert last in entries;
      forall a, b | a in SlotsOf(entries[..n]) && b in last.slots ensures a.end < b.start {
        var e :| e in entries[..n] && a in e.slots;
        var i :| 0 <= i < n && entries[i] == e;
        assert e in entries && EntryOk(f, e, events) && EntryOk(f, last, events);
        assert entries[i].date < entries[n].date;
        DaysApart(f, e.date, a, last.date, b);
      }
      SeparatedConcat(SlotsOf(entries[..n]), last.slots);
    }
  }

  lemma {:induction false} DaysApart(f: Finder, d1: int, a: Slot, d2: int, b: Slot)
    requires Inside(f, d1, a) && Inside(f, d2, b) && d1 < d2
    ensures a.end < b.start
  {
  }

  lemma {:induction false} SeparatedConcat(a: seq<Slot>, b: seq<Slot>)
    requires Separated(a) && Separated(b)
    requires forall x, y | x in a && y in b :: x.end < y.start
    ensures Separated(a + b)
  {
    assert forall i | 0 <= i < |a| :: a[i] in a;
    assert forall j | 0 <= j < |b| :: b[j] in b;
  }

  lemma {:induction false} InsideIsBookable(f: Finder, e: Entry, events: seq<Grouping.Event>, s: Slot, m: Slot)
    requires EntryOk(f, e, events) && s in e.slots && Covers(s, m.start, m.end) && m.start <= m.end
    ensures Permitted(f, Grouping.DateOf(m.start))
    ensures Grouping.At(Grouping.DateOf(m.start), f.min) <= m.start <= m.end
            <= Grouping.At(Grouping.DateOf(m.start), f.max)
    ensures forall ev | ev in events :: m.end <= ev.start || ev.end <= m.start
  {
    hide Permitted;
    assert Inside(f, e.date, s) && forall ev | ev in events :: Clear(s, ev);
    DateBetween(e.date, m.start);
  }

  /** Whatever slots the user selects from the answer and whatever windows of them the user then
      picks, in any order, every merged window is free of events and lies inside the bounds of a
      permitted day. */
  lemma {:induction false} BookingIsFree(f: Finder, events: seq<Grouping.Event>, selected: seq<Slot>, picked: seq<Slot>)
    requires WellPosed(f, events)
    requires forall s | s in selected :: s in SlotsOf(Availability(f, events))
    requires forall w | w in picked :: w in Split(selected, f.duration)
    ensures forall m, ev | m in MergeAll(picked) && ev in events :: m.end <= ev.start || ev.end <= m.start
    ensures forall m | m in MergeAll(picked) ::
              var date := Grouping.DateOf(m.start);
              && Grouping.At(date, f.min) <= m.start <= m.end <= Grouping.At(date, f.max)
              && (f.includeWeekends || (date % 7 != 2 && date % 7 != 3))
  {
    hide Availability, WellPosed, EntryOk, Split, MergeAll, SlotsOf, First, Grouping.DateOf;
    var entries := Availability(f, events);
    var slots := SlotsOf(entries);
    FinderSound(f, events);
    AllSlotsSeparated(f, entries, events, Grouping.DateOf(First(f)));
    SlotsOfAll(entries);
    DurationPositive(f, events);
    SplitWithin(selected, f.duration);
    forall w | w in picked ensures Within(w, slots) && w.start <= w.end {
      var s :| s in selected && Covers(s, w.start, w.end);
    }
    PicksStayInside(picked, slots);
    forall m | m in MergeAll(picked)
      ensures forall ev | ev in events :: m.end <= ev.start || ev.end <= m.start
      ensures var date := Grouping.DateOf(m.start);
              && Grouping.At(date, f.min) <= m.start <= m.end <= Grouping.At(date, f.max)
              && Permitted(f, date)
    {
      var s :| s in slots && Covers(s, m.start, m.end);
      var e :| e in entries && s in e.slots;
      InsideIsBookable(f, e, events, s, m);
    }
  }

  lemma {:induction false} DurationPositive(f: Finder, events: seq<Grouping.Event>)
    requires WellPosed(f, events)
    ensures 0 < f.duration
  {
  }

  // ----- picks in the order in which they were offered -----

  /** The elements of `offered` at the places `at`, which increase. */
  predicate Picks(picked: seq<Slot>, offered: seq<Slot>, at: seq<nat>) {
    && |at| == |picked|
    && (forall i | 0 <= i < |at| :: at[i] < |offered| && picked[i] == offered[at[i]])
    && (forall i, j | 0 <= i < j < |at| :: at[i] < at[j])
  }

  lemma {:induction false} SplitSorted(slots: seq<Slot>, duration: int)
    requires 0 < duration && Separated(slots)
    ensures SortedByStart(Split(slots, duration)) && WellFormed(Split(slots, duration))
  {
    hide SplitFrom, SortedByStart;
    SplitWithin(slots, duration);
    if slots == [] {
      SortedNone();
    } else {
      var n := |slots| - 1;
      var last := slots[n];
      var before, windows := Split(slots[..n], duration), SplitFrom(last.start, last.end, duration);
      SplitSorted(slots[..n], duration);
      SplitWithin(slots[..n], duration);
      WindowsSorted(last, duration);
      forall a, b | a in before && b in windows ensures a.start <= b.start {
        var s :| s in slots[..n] && Covers(s, a.start, a.end);
        var i :| 0 <= i < n && slots[i] == s;
        SeparatedAt(slots, i, n);
      }
      SortedConcat(before, windows);
    }
  }

  lemma {:induction false} SortedNone()
    ensures SortedByStart([])
  {
  }

  lemma {:induction false} WindowsSorted(s: Slot, duration: int)
    requires 0 < duration
    ensures SortedByStart(SplitFrom(s.start, s.end, duration))
    ensures forall w | w in SplitFrom(s.start, s.end, duration) :: s.start <= w.start
  {
    hide SplitFrom;
    var windows := SplitFrom(s.start, s.end, duration);
    SplitFromOrdered(s.start, s.end, duration);
    forall i, j | 0 <= i < j < |windows| ensures windows[i].start <= windows[j].start {
      assert windows[i] in windows && windows[i].end <= windows[j].start;
    }
  }

  lemma {:induction false} SortedConcat(a: seq<Slot>, b: seq<Slot>)
    requires SortedByStart(a) && SortedByStart(b)
    requires forall x, y | x in a && y in b :: x.start <= y.start
    ensures SortedByStart(a + b)
  {
    assert forall i | 0 <= i < |a| :: a[i] in a;
    assert forall j | 0 <= j < |b| :: b[j] in b;
  }

  /** As the slots and the windows are picked in the order in which they are offered, what is
      booked is canonical, and covers exactly the minutes of the picked windows. */
  lemma {:induction false} BookingIsCanonical(f: Finder, events: seq<Grouping.Event>, selected: seq<Slot>,
      picked: seq<Slot>, at: seq<nat>, at': seq<nat>)
    requires WellPosed(f, events)
    requires Picks(selected, SlotsOf(Availability(f, events)), at) && Picks(picked, Split(selected, f.duration), at')
    ensures Separated(MergeAll(picked))
    ensures forall t :: Includes(MergeAll(picked), t) <==> Includes(picked, t)
  {
    hide Availability, WellPosed, EntriesOk, Split, MergeAll, SlotsOf, First;
    var entries := Availability(f, events);
    FinderSound(f, events);
    AllSlotsSeparated(f, entries, events, Grouping.DateOf(First(f)));
    DurationPositive(f, events);
    SplitSorted(selected, f.duration);
    assert WellFormed(picked);
    MergeCanonical(picked);
    forall t ensures Includes(MergeAll(picked), t) <==> Includes(picked, t) { MergePreservesMinutes(picked, t); }
  }
}
