/** Splitting slots into windows of the wanted length, and merging the windows that a user
    picked. */
module Windows {
  import Grouping
  import opened Scheduler
  import opened SchedulerProofs

  /** Touching counts as overlapping. */
  predicate Overlaps(a: Slot, b: Slot) {
    a.start <= b.end && b.start <= a.end
  }

  function Merge(a: Slot, b: Slot): Slot {
    Slot(Min(a.start, b.start), Max(a.end, b.end))
  }

  predicate WellFormed(slots: seq<Slot>) {
    forall s | s in slots :: s.start <= s.end
  }

  /** The minute that begins at `t` belongs to one of the slots. */
  predicate Includes(slots: seq<Slot>, t: int) {
    exists s | s in slots :: s.start <= t < s.end
  }

  // ----- what the loops compute -----

  /** One more slot: merged into the last one when they overlap. */
  function Add(res: seq<Slot>, s: Slot): seq<Slot> {
    if res == [] then [s]
    else
      var n := |res| - 1;
      if Overlaps(res[n], s) then res[..n] + [Merge(res[n], s)] else res + [s]
  }

  function MergeAll(slots: seq<Slot>): seq<Slot> {
    if slots == [] then [] else Add(MergeAll(slots[..|slots| - 1]), slots[|slots| - 1])
  }

  /** The windows of one slot from `curr` on. */
  function SplitFrom(curr: int, end: int, duration: int): seq<Slot>
    requires 0 < duration
    decreases end - curr
  {
    if curr + duration <= end then [Slot(curr, curr + duration)] + SplitFrom(curr + duration, end, duration) else []
  }

  function Split(slots: seq<Slot>, duration: int): seq<Slot>
    requires 0 < duration
  {
    if slots == [] then []
    else
      var last := slots[|slots| - 1];
      Split(slots[..|slots| - 1], duration) + SplitFrom(last.start, last.end, duration)
  }

  // ----- the loops -----

  method MergeOverlappingAvails(avails: seq<Slot>) returns (res: seq<Slot>)
    ensures res == MergeAll(avails)
  {
    res := [];
    for i := 0 to |avails|
      invariant res == MergeAll(avails[..i])
    {
      assert avails[..i + 1][..i] == avails[..i];
      var avail := avails[i];
      if |res| > 0 {
        var last := res[|res| - 1];
        if Overlaps(last, avail) {
          res := res[..|res| - 1] + [Merge(last, avail)];
        } else {
          res := res + [avail];
        }
      } else {
        res := [avail];
      }
    }
    assert avails[..|avails|] == avails;
  }

  method SplitAvailability(avails: seq<Slot>, duration: int) returns (res: seq<Slot>)
    requires 0 < duration
    ensures res == Split(avails, duration)
  {
    res := [];
    for i := 0 to |avails|
      invariant res == Split(avails[..i], duration)
    {
      assert avails[..i + 1][..i] == avails[..i];
      var curr := avails[i].start;
      ghost var before := res;
      while curr + duration <= avails[i].end
        invariant res + SplitFrom(curr, avails[i].end, duration) ==
                  before + SplitFrom(avails[i].start, avails[i].end, duration)
        decreases avails[i].end - curr
      {
        var w := Slot(curr, curr + duration);
        assert res + ([w] + SplitFrom(curr + duration, avails[i].end, duration)) ==
                  (res + [w]) + SplitFrom(curr + duration, avails[i].end, duration);
        res := res + [w];
        curr := curr + duration;
      }
    }
    assert avails[..|avails|] == avails;
  }

  // ----- merging -----

  lemma {:induction false} AddIncludes(res: seq<Slot>, s: Slot, t: int)
    requires WellFormed(res) && s.start <= s.end
    ensures WellFormed(Add(res, s))
    ensures Includes(Add(res, s), t) <==> Includes(res, t) || s.start <= t < s.end
  {
    var r := Add(res, s);
    if res == [] {
      assert s in r;
    } else {
      var n := |res| - 1;
      var last := res[n];
      assert res == res[..n] + [last];
      assert last in res;
      if Overlaps(last, s) {
        var m := Merge(last, s);
        assert m in r;
        assert m.start <= t < m.end <==> last.start <= t < last.end || s.start <= t < s.end;
        assert forall x :: x in r <==> x in res[..n] || x == m;
        assert forall x :: x in res <==> x in res[..n] || x == last;
      } else {
        assert forall x :: x in r <==> x in res || x == s;
      }
    }
  }

  /** Merging neither loses nor adds a minute, whatever the order of the slots. */
  lemma {:induction false} MergePreservesMinutes(slots: seq<Slot>, t: int)
    requires WellFormed(slots)
    ensures WellFormed(MergeAll(slots))
    ensures Includes(MergeAll(slots), t) <==> Includes(slots, t)
  {
    if slots != [] {
      var n := |slots| - 1;
      assert slots == slots[..n] + [slots[n]];
      MergePreservesMinutes(slots[..n], t);
      AddIncludes(MergeAll(slots[..n]), slots[n], t);
      assert forall x :: x in slots <==> x in slots[..n] || x == slots[n];
    }
  }

  predicate SortedByStart(slots: seq<Slot>) {
    forall i, j | 0 <= i < j < |slots| :: slots[i].start <= slots[j].start
  }

  /** Adding a slot that does not start before the last one. */
  lemma {:induction false} AddSeparated(res: seq<Slot>, s: Slot)
    requires Separated(res) && WellFormed(res) && s.start <= s.end
    requires res != [] ==> res[|res| - 1].start <= s.start
    ensures Separated(Add(res, s)) && Add(res, s) != []
    ensures Add(res, s)[|Add(res, s)| - 1].start <= s.start
  {
    if res != [] {
      var n := |res| - 1;
      var last := res[n];
      assert last in res;
      forall i | 0 <= i < n ensures res[i].end < last.start { SeparatedAt(res, i, n); }
    }
  }

  lemma {:induction false} SeparatedAt(slots: seq<Slot>, i: nat, j: nat)
    requires Separated(slots) && i < |slots| && j < |slots|
    ensures i < j ==> slots[i].end < slots[j].start
    ensures j < i ==> slots[j].end < slots[i].start
  {
  }

  /** Of slots in the order of their starts, merging leaves a canonical list. */
  lemma {:induction false} MergeCanonical(slots: seq<Slot>)
    requires WellFormed(slots) && SortedByStart(slots)
    ensures Separated(MergeAll(slots)) && WellFormed(MergeAll(slots))
    ensures slots != [] ==>
              MergeAll(slots) != [] && MergeAll(slots)[|MergeAll(slots)| - 1].start <= slots[|slots| - 1].start
  {
    hide Add, Separated;
    MergePreservesMinutes(slots, 0);
    if slots != [] {
      var n := |slots| - 1;
      assert forall s | s in slots[..n] :: s in slots;
      MergeCanonical(slots[..n]);
      if n > 0 { assert slots[..n][n - 1].start <= slots[n].start; }
      AddSeparated(MergeAll(slots[..n]), slots[n]);
    } else {
      SeparatedNone();
    }
  }

  lemma {:induction false} SeparatedNone()
    ensures Separated([])
  {
  }

  /** A canonical list is left as it is: merging twice is merging once. */
  lemma {:induction false} MergeIdempotent(slots: seq<Slot>)
    requires Separated(slots)
    ensures MergeAll(slots) == slots
  {
    hide MergeAll;
    if slots == [] {
      MergeNone();
    } else {
      var n := |slots| - 1;
      assert slots == slots[..n] + [slots[n]];
      MergeIdempotent(slots[..n]);
      forall m | m in slots[..n] ensures m.end < slots[n].start {
        var i :| 0 <= i < n && slots[i] == m;
        SeparatedAt(slots, i, n);
      }
      MergeApart(slots[..n], slots[n]);
    }
  }

  /** Canonical lists of non-empty slots with the same minutes are equal, so merging slots in
      order gives the only canonical list for the time they cover. */
  lemma {:induction false} CanonicalUnique(a: seq<Slot>, b: seq<Slot>)
    requires Separated(a) && Separated(b)
    requires forall s | s in a || s in b :: s.start < s.end
    requires forall t :: Includes(a, t) <==> Includes(b, t)
    ensures a == b
  {
    if a == [] {
      if b != [] { FirstIncluded(b); }
    } else {
      FirstIncluded(a);
      NothingIncluded(b, a[0].start);
      if b != [] {
        FirstIncluded(b);
        EndNotIncluded(a);
        EndNotIncluded(b);
        SameFirst(a, b);
        forall t ensures Includes(a[1..], t) <==> Includes(b[1..], t) {
          RestIncluded(a, t);
          RestIncluded(b, t);
        }
        CanonicalUnique(a[1..], b[1..]);
      }
    }
  }

  lemma {:induction false} NothingIncluded(a: seq<Slot>, t: int)
    ensures a == [] ==> !Includes(a, t)
  {
  }

  predicate Canonical(a: seq<Slot>) {
    Separated(a) && forall s | s in a :: s.start < s.end
  }

  lemma {:induction false} FirstIncluded(a: seq<Slot>)
    requires Canonical(a)
    ensures a != [] ==> Includes(a, a[0].start) && forall t | Includes(a, t) :: a[0].start <= t
    ensures a != [] ==> forall t | a[0].start <= t < a[0].end :: Includes(a, t)
  {
    if a != [] {
      assert a[0] in a;
      forall t | Includes(a, t) ensures a[0].start <= t {
        var s :| s in a && s.start <= t < s.end;
        var i :| 0 <= i < |a| && a[i] == s;
        if i > 0 { assert a[0].end < a[i].start; }
      }
    }
  }

  lemma {:induction false} EndNotIncluded(a: seq<Slot>)
    requires Canonical(a) && a != []
    ensures !Includes(a, a[0].end)
  {
    assert a[0] in a;
    forall s | s in a ensures !(s.start <= a[0].end < s.end) {
      var i :| 0 <= i < |a| && a[i] == s;
      SeparatedAt(a, 0, i);
    }
  }

  lemma {:induction false} SameFirst(a: seq<Slot>, b: seq<Slot>)
    requires Canonical(a) && Canonical(b) && a != [] && b != []
    requires forall t :: Includes(a, t) <==> Includes(b, t)
    ensures a[0] == b[0]
  {
    FirstIncluded(a);
    FirstIncluded(b);
    EndNotIncluded(a);
    EndNotIncluded(b);
    assert a[0].start == b[0].start;
    assert a[0] in a && b[0] in b;
  }

  lemma {:induction false} RestIncluded(a: seq<Slot>, t: int)
    requires Canonical(a) && a != []
    ensures Canonical(a[1..])
    ensures Includes(a[1..], t) <==> Includes(a, t) && a[0].end < t
  {
    assert a == [a[0]] + a[1..];
    forall s | s in a[1..] ensures a[0].end < s.start {
      var i :| 0 <= i < |a[1..]| && a[1..][i] == s;
      assert a[i + 1] == s;
    }
  }

  // ----- splitting -----

  /** A window lies in a slot of the list. */
  predicate Within(w: Slot, slots: seq<Slot>) {
    exists s | s in slots :: Covers(s, w.start, w.end)
  }

  lemma {:induction false} SplitFromOrdered(curr: int, end: int, duration: int)
    requires 0 < duration
    ensures forall w | w in SplitFrom(curr, end, duration) ::
              curr <= w.start && w.end == w.start + duration && w.end <= end
    ensures forall i, j | 0 <= i < j < |SplitFrom(curr, end, duration)| ::
              SplitFrom(curr, end, duration)[i].end <= SplitFrom(curr, end, duration)[j].start
    decreases end - curr
  {
    if curr + duration <= end {
      SplitFromOrdered(curr + duration, end, duration);
      var rest := SplitFrom(curr + duration, end, duration);
      assert forall j | 0 <= j < |rest| :: rest[j] in rest;
    }
  }

  lemma {:induction false} SplitWithin(slots: seq<Slot>, duration: int)
    requires 0 < duration
    ensures forall w | w in Split(slots, duration) :: Within(w, slots) && w.end == w.start + duration
  {
    if slots != [] {
      var n := |slots| - 1;
      var last := slots[n];
      SplitWithin(slots[..n], duration);
      SplitFromOrdered(last.start, last.end, duration);
      forall w | w in Split(slots, duration) ensures Within(w, slots) && w.end == w.start + duration {
        if w in SplitFrom(last.start, last.end, duration) {
          assert last in slots && Covers(last, w.start, w.end);
        } else {
          var s :| s in slots[..n] && Covers(s, w.start, w.end);
          assert s in slots;
        }
      }
    }
  }

  /** Whatever windows the user picks, in whatever order and number, each merged window lies
      inside one of the slots that were offered: separated slots are never bridged. */
  lemma {:induction false} PicksStayInside(picked: seq<Slot>, slots: seq<Slot>)
    requires Separated(slots)
    requires forall w | w in picked :: Within(w, slots) && w.start <= w.end
    ensures forall m | m in MergeAll(picked) :: Within(m, slots) && m.start <= m.end
  {
    if picked != [] {
      var n := |picked| - 1;
      assert forall w | w in picked[..n] :: w in picked;
      PicksStayInside(picked[..n], slots);
      var res, w := MergeAll(picked[..n]), picked[n];
      assert w in picked;
      if res != [] {
        var last := res[|res| - 1];
        assert last in res;
        if Overlaps(last, w) { OverlapSharesSlot(last, w, slots); }
        assert forall m | m in MergeAll(picked) :: m in res || m == w || m == Merge(last, w);
      }
    }
  }

  lemma {:induction false} OverlapSharesSlot(a: Slot, b: Slot, slots: seq<Slot>)
    requires Separated(slots) && Within(a, slots) && Within(b, slots)
    requires a.start <= a.end && b.start <= b.end && Overlaps(a, b)
    ensures Within(Merge(a, b), slots)
  {
    var i :| 0 <= i < |slots| && Covers(slots[i], a.start, a.end);
    var j :| 0 <= j < |slots| && Covers(slots[j], b.start, b.end);
    SeparatedAt(slots, i, j);
    assert slots[i] in slots && Covers(slots[i], Merge(a, b).start, Merge(a, b).end);
  }

  /** How many whole durations fit. */
  function Count(length: int, duration: int): nat
    requires 0 < duration
    decreases length
  {
    if duration <= length then 1 + Count(length - duration, duration) else 0
  }

  lemma {:induction false} CountIsQuotient(length: int, duration: int)
    requires 0 < duration && 0 <= length
    ensures Count(length, duration) * duration <= length < Count(length, duration) * duration + duration
    ensures duration <= length ==>
              Count(length, duration) * duration == duration + Count(length - duration, duration) * duration
    decreases length
  {
    if duration <= length {
      CountIsQuotient(length - duration, duration);
      var k := Count(length - duration, duration);
      assert (1 + k) * duration == duration + k * duration;
    }
  }

  /** The slot cut to a whole number of durations. */
  function Truncated(s: Slot, duration: int): Slot
    requires 0 < duration
  {
    Slot(s.start, s.start + Count(s.end - s.start, duration) * duration)
  }

  function TruncatedAll(slots: seq<Slot>, duration: int): seq<Slot>
    requires 0 < duration
  {
    if slots == [] then []
    else
      var last := slots[|slots| - 1];
      var before := TruncatedAll(slots[..|slots| - 1], duration);
      if last.start + duration <= last.end then before + [Truncated(last, duration)] else before
  }

  /** Merging one more window that touches the last merged one. */
  lemma {:induction false} AddTouching(before: seq<Slot>, res: seq<Slot>, start: int, curr: int, next: int)
    requires start < curr < next && MergeAll(before) == res + [Slot(start, curr)]
    ensures MergeAll(before + [Slot(curr, next)]) == res + [Slot(start, next)]
  {
    var all := res + [Slot(start, curr)];
    assert (before + [Slot(curr, next)])[..|before|] == before;
    assert all[..|all| - 1] == res && all[|all| - 1] == Slot(start, curr);
  }

  /** Appending the windows of one slot from `curr` on to windows that end with `[start, curr)`
      extends that window as far as whole durations go. */
  lemma {:induction false} MergeWindows(before: seq<Slot>, res: seq<Slot>, start: int, curr: int, end: int,
      duration: int)
    requires 0 < duration && start < curr <= end
    requires MergeAll(before) == res + [Slot(start, curr)]
    ensures MergeAll(before + SplitFrom(curr, end, duration)) ==
              res + [Slot(start, curr + Count(end - curr, duration) * duration)]
    decreases end - curr
  {
    hide MergeAll;
    CountIsQuotient(end - curr, duration);
    if curr + duration <= end {
      var w := Slot(curr, curr + duration);
      AddTouching(before, res, start, curr, curr + duration);
      MergeWindows(before + [w], res, start, curr + duration, end, duration);
      Grouping.Regroup(before, [w], SplitFrom(curr + duration, end, duration));
    } else {
      assert before + [] == before;
    }
  }

  lemma {:induction false} TruncatedFits(s: Slot, duration: int)
    requires 0 < duration && s.start + duration <= s.end
    ensures Truncated(s, duration).start == s.start && s.start < Truncated(s, duration).end <= s.end
  {
    CountIsQuotient(s.end - s.start, duration);
    CountIsQuotient(s.end - s.start - duration, duration);
  }

  lemma {:induction false} TruncatedWithin(slots: seq<Slot>, duration: int)
    requires 0 < duration && Separated(slots)
    ensures forall m | m in TruncatedAll(slots, duration) :: Within(m, slots) && m.start < m.end
    ensures Separated(TruncatedAll(slots, duration))
  {
    hide Truncated;
    if slots != [] {
      var n := |slots| - 1;
      var last := slots[n];
      TruncatedWithin(slots[..n], duration);
      var before := TruncatedAll(slots[..n], duration);
      forall m | m in before ensures Within(m, slots) && m.end < last.start {
        var s :| s in slots[..n] && Covers(s, m.start, m.end);
        var i :| 0 <= i < n && slots[i] == s;
        assert s in slots;
      }
      if last.start + duration <= last.end {
        TruncatedFits(last, duration);
        assert last in slots && Covers(last, Truncated(last, duration).start, Truncated(last, duration).end);
        assert forall i | 0 <= i < |before| :: before[i] in before;
      }
    }
  }

  lemma {:induction false} MergeApart(front: seq<Slot>, w: Slot)
    requires forall m | m in MergeAll(front) :: m.end < w.start
    ensures MergeAll(front + [w]) == MergeAll(front) + [w]
  {
    var res := MergeAll(front);
    assert (front + [w])[..|front|] == front;
    assert res != [] ==> res[|res| - 1] in res;
  }

  /** The windows of one more slot, behind everything that was merged before. */
  lemma {:induction false} MergeOneSlot(front: seq<Slot>, s: Slot, duration: int)
    requires 0 < duration && s.start + duration <= s.end
    requires forall m | m in MergeAll(front) :: m.end < s.start
    ensures MergeAll(front + SplitFrom(s.start, s.end, duration)) == MergeAll(front) + [Truncated(s, duration)]
  {
    hide MergeAll;
    var w := Slot(s.start, s.start + duration);
    MergeApart(front, w);
    MergeWindows(front + [w], MergeAll(front), s.start, s.start + duration, s.end, duration);
    Grouping.Regroup(front, [w], SplitFrom(s.start + duration, s.end, duration));
    CountIsQuotient(s.end - s.start, duration);
  }

  /** Picking everything gives each slot back, cut to a whole number of durations; slots that
      are too short disappear. */
  lemma {:induction false} MergeOfSplit(slots: seq<Slot>, duration: int)
    requires 0 < duration && Separated(slots)
    ensures MergeAll(Split(slots, duration)) == TruncatedAll(slots, duration)
  {
    hide MergeAll, Truncated;
    if slots == [] {
      MergeNone();
    } else {
      var n := |slots| - 1;
      var last, front := slots[n], Split(slots[..n], duration);
      MergeOfSplit(slots[..n], duration);
      TruncatedWithin(slots[..n], duration);
      if last.start + duration <= last.end {
        forall m | m in TruncatedAll(slots[..n], duration) ensures m.end < last.start {
          var s :| s in slots[..n] && Covers(s, m.start, m.end);
          var i :| 0 <= i < n && slots[i] == s;
          SeparatedAt(slots, i, n);
        }
        MergeOneSlot(front, last, duration);
      } else {
        assert front + SplitFrom(last.start, last.end, duration) == front;
      }
    }
  }

  lemma {:induction false} MergeNone()
    ensures MergeAll([]) == []
  {
  }

  /** Out of order, merging is not canonical: the first and the last of these touch, but end
      up apart. */
  lemma {:induction false} UnsortedNotCanonical()
    ensures MergeAll([Slot(0, 30), Slot(60, 90), Slot(30, 60)]) == [Slot(0, 30), Slot(30, 90)]
  {
    var all := [Slot(0, 30), Slot(60, 90), Slot(30, 60)];
    assert all[..2] == [Slot(0, 30), Slot(60, 90)] && all[..2][..1] == [Slot(0, 30)];
    assert [Slot(0, 30)][..0] == [];
    assert MergeAll([Slot(0, 30)]) == [Slot(0, 30)];
    assert MergeAll(all[..2]) == [Slot(0, 30), Slot(60, 90)];
  }
}
