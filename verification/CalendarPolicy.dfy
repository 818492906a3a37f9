/** The policy on calendar data, and the computation of availability under it. */
module CalendarPolicy {
  import opened Policies
  import opened Specialization
  import opened Conjunction
  import opened Gathering
  import Grouping
  import opened Scheduler
  import opened SchedulerProofs
  import opened SchedulerLimits
  import opened Booking

  /** The policy type, and the algebra of an application that has this one simple policy. */
  const CALENDAR: nat := 0

  predicate AllowsRelease(route: string) {
    route in {
      "refresh_calendars.prompt", "refresh_calendars.hold_event_target", "availability.compute",
      "availability.selection", "availability.output", "hold_events.create"
    }
  }

  /** Released only on an allowed route, and only when every owner has authorized it. */
  predicate SimpleCheck(state: State, c: Context) {
    && AllowsRelease(c.route)
    && c.data.OwnerList?
    && state.OwnerSet?
    && forall o | o in state.owners :: o in c.data.names
  }

  /** The owners of both. */
  function SimpleJoin(s1: State, s2: State): State {
    if s1.OwnerSet? && s2.OwnerSet? then OwnerSet(s1.owners + s2.owners) else Opaque(0)
  }

  /** The calendar policy added to the policies of `other`. */
  function WithCalendar(other: Algebra): Algebra {
    Algebra(
      (tag: nat, s: State, c: Context) => if tag == CALENDAR then SimpleCheck(s, c) else other.simple(tag, s, c),
      other.custom,
      (tag: nat, s1: State, s2: State) => if tag == CALENDAR then SimpleJoin(s1, s2) else other.join(tag, s1, s2))
  }

  /** The calendar policy keeps the law that every join relies on. */
  lemma {:induction false} CalendarLawful(other: Algebra)
    requires Lawful(other)
    ensures Lawful(WithCalendar(other))
  {
    var alg := WithCalendar(other);
    forall tag: nat, s1, s2, c
      ensures alg.simple(tag, alg.join(tag, s1, s2), c) == (alg.simple(tag, s1, c) && alg.simple(tag, s2, c))
    {
      if tag == CALENDAR {
        JoinChecksBoth(s1, s2, c);
      } else {
        assert other.simple(tag, other.join(tag, s1, s2), c) == (other.simple(tag, s1, c) && other.simple(tag, s2, c));
      }
    }
  }

  lemma {:induction false} JoinChecksBoth(s1: State, s2: State, c: Context)
    ensures SimpleCheck(SimpleJoin(s1, s2), c) == (SimpleCheck(s1, c) && SimpleCheck(s2, c))
  {
    if s1.OwnerSet? && s2.OwnerSet? {
      assert forall o | o in s1.owners :: o in SimpleJoin(s1, s2).owners;
      assert forall o | o in s2.owners :: o in SimpleJoin(s1, s2).owners;
    }
  }

  // ----- computing availability -----

  function ForOwners(owners: set<string>): Policy {
    Basic(Simple(CALENDAR, OwnerSet(owners)))
  }

  predicate IsCalendar(p: Policy) {
    p.Basic? && p.leaf.Simple? && p.leaf.tag == CALENDAR && p.leaf.state.OwnerSet?
  }

  function Owners(p: Policy): set<string>
    requires IsCalendar(p)
  {
    p.leaf.state.owners
  }

  function AllOwners(ps: seq<Policy>): set<string>
    requires forall i | 0 <= i < |ps| :: IsCalendar(ps[i])
  {
    if ps == [] then {} else AllOwners(ps[..|ps| - 1]) + Owners(ps[|ps| - 1])
  }

  /** The merged policies of all owners, however many batches there are. */
  lemma {:induction false} JoinedOwners(other: Algebra, ps: seq<Policy>)
    requires |ps| > 0 && forall i | 0 <= i < |ps| :: IsCalendar(ps[i])
    ensures JoinAll(WithCalendar(other), ps) == Some(ForOwners(AllOwners(ps)))
  {
    var alg, n := WithCalendar(other), |ps| - 1;
    if n == 0 {
      assert AllOwners(ps[..0]) == {};
      assert AllOwners(ps) == Owners(ps[0]);
    } else {
      var front := ps[..n];
      JoinedOwners(other, front);
      TwoOwners(other, AllOwners(front), ps[n]);
      assert AllOwners(ps) == AllOwners(front) + Owners(ps[n]);
      JoinAllStep(alg, ps, n);
      assert ps[..n + 1] == ps;
    }
  }

  lemma {:induction false} TwoOwners(other: Algebra, owners: set<string>, p: Policy)
    requires IsCalendar(p)
    ensures CanJoin(ForOwners(owners), Erase(p))
    ensures Joined(WithCalendar(other), ForOwners(owners), Erase(p)) == ForOwners(owners + Owners(p))
  {
    var alg := WithCalendar(other);
    ReflexiveAgrees(alg, ForOwners(owners), p);
    assert alg.join(CALENDAR, OwnerSet(owners), p.leaf.state) == SimpleJoin(OwnerSet(owners), OwnerSet(Owners(p)));
    assert ReflexiveJoined(alg, ForOwners(owners), p) == ForOwners(owners + Owners(p));
  }

  function Concat<T>(xs: seq<seq<T>>): seq<T> {
    if xs == [] then [] else Concat(xs[..|xs| - 1]) + xs[|xs| - 1]
  }

  function Total<T>(xs: seq<seq<T>>): nat {
    if xs == [] then 0 else Total(xs[..|xs| - 1]) + |xs[|xs| - 1]|
  }

  /** Each list is in the concatenation as it is, behind those before it, and nothing else is. */
  lemma {:induction false} ConcatInOrder<T>(xs: seq<seq<T>>, i: nat)
    requires i < |xs|
    ensures |Concat(xs)| == Total(xs) && Total(xs[..i]) + |xs[i]| <= Total(xs)
    ensures Concat(xs)[Total(xs[..i])..Total(xs[..i]) + |xs[i]|] == xs[i]
  {
    var n := |xs| - 1;
    ConcatLength(xs[..n]);
    if i < n {
      ConcatInOrder(xs[..n], i);
      assert xs[..n][..i] == xs[..i];
    }
  }

  lemma {:induction false} ConcatLength<T>(xs: seq<seq<T>>)
    ensures |Concat(xs)| == Total(xs)
  {
    if xs != [] { ConcatLength(xs[..|xs| - 1]); }
  }

  lemma {:induction false} ConcatMember<T>(xs: seq<seq<T>>)
    ensures forall x :: x in Concat(xs) <==> exists i | 0 <= i < |xs| :: x in xs[i]
  {
    if xs != [] {
      var n := |xs| - 1;
      ConcatMember(xs[..n]);
      forall x ensures x in Concat(xs) <==> exists i | 0 <= i < |xs| :: x in xs[i] {
        if x in Concat(xs[..n]) {
          var i :| 0 <= i < n && x in xs[..n][i];
          assert x in xs[i];
        }
        if i :| 0 <= i < |xs| && x in xs[i] {
          assert i < n ==> x in xs[..n][i];
        }
      }
    }
  }

  /** A set in some order, as the authorized owners are put into the context. */
  method Listed(s: set<string>) returns (list: seq<string>)
    ensures forall x :: x in list <==> x in s
  {
    list := [];
    var left := s;
    while left != {}
      invariant left <= s
      invariant forall x :: x in list <==> x in s && x !in left
      decreases left
    {
      var x :| x in left;
      list := list + [x];
      left := left - {x};
    }
  }

  datatype Blocked = Blocked

  method Flattened<T>(xs: seq<seq<T>>) returns (all: seq<T>)
    ensures all == Concat(xs)
  {
    all := [];
    for i := 0 to |xs|
      invariant all == Concat(xs[..i])
    {
      assert xs[..i + 1][..i] == xs[..i];
      all := all + xs[i];
    }
    assert xs[..|xs|] == xs;
  }

  /** The data of all batches as one vector, and the owners of all of them. */
  method CollectBatches(other: Algebra, batches: seq<(seq<Grouping.Event>, Owned)>)
    returns (data: seq<seq<Grouping.Event>>, policy: Option<Policy>)
    requires Disjoint(batches)
    requires forall i | 0 <= i < |batches| :: IsCalendar(batches[i].1.Value())
    modifies if |batches| > 0 then batches[0].1.Cells() else {}
    ensures data == Data(batches)
    ensures policy == if |batches| == 0 then None else Some(ForOwners(AllOwners(old(Values(batches)))))
  {
    var alg := WithCalendar(other);
    ghost var values := Values(batches);
    if |batches| > 0 { JoinedOwners(other, values); }
    hide JoinAll, AllOwners, Owned.Value, WithCalendar;
    var panic, merged;
    data, merged, panic := FromContainers(alg, batches);
    if panic { assert false; }
    policy := if merged.None? then None else Some(merged.value.Value());
  }

  function Data<T, P>(v: seq<(T, P)>): seq<T> {
    seq(|v|, i requires 0 <= i < |v| => v[i].0)
  }

  lemma {:induction false} OwnersMaySee(other: Algebra, owners: set<string>, names: seq<string>)
    requires forall o :: o in names <==> o in owners
    ensures Check(WithCalendar(other), ForOwners(owners), Context("availability.compute", OwnerList(names)))
  {
    assert AllowsRelease("availability.compute");
    assert SimpleCheck(OwnerSet(owners), Context("availability.compute", OwnerList(names)));
  }

  /** `events` lists the events of all batches. */
  ghost predicate EventsOfAll(batches: seq<(seq<Grouping.Event>, Owned)>, events: seq<Grouping.Event>) {
    forall ev :: ev in events <==> exists i | 0 <= i < |batches| :: ev in batches[i].0
  }

  /** The slots overlap no event of any batch, if the finder can deal with these events. */
  ghost predicate FreeForAll(f: Finder, batches: seq<(seq<Grouping.Event>, Owned)>, slots: seq<Slot>) {
    forall events | EventsOfAll(batches, events) && WellPosed(f, events) ::
      forall s, i | s in slots && 0 <= i < |batches| :: forall ev | ev in batches[i].0 :: Clear(s, ev)
  }

  /** No time is lost that is wanted and free for all, as far as the finder keeps it. */
  ghost predicate NothingLost(f: Finder, batches: seq<(seq<Grouping.Event>, Owned)>, slots: seq<Slot>) {
    forall events, start, end
      | EventsOfAll(batches, events) && FinderOk(f) && EventsKnown(f, events)
        && Wanted(f, events, start, end) && f.start <= start < f.end && NotCut(f, start, end) ::
      exists s | s in slots :: Covers(s, start, end)
  }

  lemma {:induction false} SameEvents(f: Finder, events: seq<Grouping.Event>, events': seq<Grouping.Event>)
    requires forall ev :: ev in events <==> ev in events'
    ensures WellPosed(f, events) ==> WellPosed(f, events')
    ensures EventsKnown(f, events) ==> EventsKnown(f, events')
    ensures forall start, end :: Wanted(f, events, start, end) ==> Wanted(f, events', start, end)
  {
    hide FinderOk, SoundBounds, NotTooEarly, First, EventOk, Permitted, Grouping.DateOf, Grouping.TimeOf, Aligned;
    forall ev ensures AfterLateGap(events, ev) <==> AfterLateGap(events', ev) {}
  }

  lemma {:induction false} AnswerForAll(f: Finder, batches: seq<(seq<Grouping.Event>, Owned)>)
    ensures var slots := SlotsOf(Availability(f, Concat(Data(batches))));
            FreeForAll(f, batches, slots) && NothingLost(f, batches, slots)
  {
    hide WellPosed, FinderOk, Wanted, NotCut, EntryOk, First, Availability, Concat, SlotsOf, Clear, Covers, Increasing;
    var all := Concat(Data(batches));
    var slots := SlotsOf(Availability(f, all));
    SlotsOfAll(Availability(f, all));
    ConcatMember(Data(batches));
    assert EventsOfAll(batches, all) by {
      forall ev ensures ev in all <==> exists i | 0 <= i < |batches| :: ev in batches[i].0 {
        if i :| 0 <= i < |batches| && ev in batches[i].0 { assert ev in Data(batches)[i]; }
        if i :| 0 <= i < |batches| && ev in Data(batches)[i] { assert ev in batches[i].0; }
      }
    }
    forall events | EventsOfAll(batches, events) && WellPosed(f, events)
      ensures forall s, i | s in slots && 0 <= i < |batches| :: forall ev | ev in batches[i].0 :: Clear(s, ev)
    {
      SameEvents(f, events, all);
      FinderSound(f, all);
      forall s, ev | s in slots && ev in all ensures Clear(s, ev) {
        var e :| e in Availability(f, all) && s in e.slots;
        EntryIsClear(f, e, all, s, ev);
      }
    }
    forall events, start, end
      | EventsOfAll(batches, events) && FinderOk(f) && EventsKnown(f, events)
        && Wanted(f, events, start, end) && f.start <= start < f.end && NotCut(f, start, end)
      ensures exists s | s in slots :: Covers(s, start, end)
    {
      SameEvents(f, events, all);
      FinderComplete(f, all, start, end);
    }
  }

  lemma {:induction false} EntryIsClear(f: Finder, e: Entry, events: seq<Grouping.Event>, s: Slot, ev: Grouping.Event)
    requires EntryOk(f, e, events) && s in e.slots && ev in events
    ensures Clear(s, ev)
  {
  }

  /** Collects the events of all batches, finds the availability, and releases it to the owners
      of the batches.  It is never blocked, never panics, and the policy on the result names
      exactly the owners of the batches. */
  method ComputeAvailability(other: Algebra, f: Finder, batches: seq<(seq<Grouping.Event>, Owned)>)
    returns (r: Result<(seq<Slot>, Policy), Blocked>)
    requires Disjoint(batches)
    requires forall i | 0 <= i < |batches| :: IsCalendar(batches[i].1.Value())
    modifies if |batches| > 0 then batches[0].1.Cells() else {}
    ensures r.Ok?
    ensures r.value.0 == SlotsOf(Availability(f, Concat(Data(batches))))
    ensures FreeForAll(f, batches, r.value.0) && NothingLost(f, batches, r.value.0)
    ensures r.value.1 == Any(ForOwners(AllOwners(old(Values(batches)))))
  {
    hide Availability, Concat, SlotsOf, AllowsRelease, WithCalendar, Owned.Value, Owned.Cells, Owned.Valid,
         FreeForAll, NothingLost;
    AnswerForAll(f, batches);
    ghost var values := Values(batches);
    var data, policy := CollectBatches(other, batches);
    var owners := if policy.None? then {} else Owners(policy.value);
    assert batches == [] ==> AllOwners(values) == {};
    assert owners == AllOwners(values);
    var names := Listed(owners);
    var events := Flattened(data);
    var entries := GetAvailability(f, events);
    var slots := AllSlots(entries);
    OwnersMaySee(other, owners, names);
    var p := Opt(TSimple(CALENDAR), policy);
    if Check(WithCalendar(other), p, Context("availability.compute", OwnerList(names))) {
      r := Ok((slots, Any(ForOwners(owners))));
    } else {
      r := Err(Blocked);
    }
  }

  /** The result is released exactly on an allowed route, to a list of authorized owners that
      contains every owner of every batch. */
  lemma {:induction false} ReleasedToAllOwners(other: Algebra, ps: seq<Policy>, c: Context)
    requires forall i | 0 <= i < |ps| :: IsCalendar(ps[i])
    ensures Check(WithCalendar(other), Any(ForOwners(AllOwners(ps))), c)
            <==> && c.route in {
                      "refresh_calendars.prompt", "refresh_calendars.hold_event_target", "availability.compute",
                      "availability.selection", "availability.output", "hold_events.create"
                    }
                 && c.data.OwnerList?
                 && forall i | 0 <= i < |ps| :: forall o | o in Owners(ps[i]) :: o in c.data.names
  {
    OwnersOfAll(ps);
    var p := ForOwners(AllOwners(ps));
    assert Check(WithCalendar(other), p, c) == SimpleCheck(OwnerSet(AllOwners(ps)), c);
  }

  lemma {:induction false} OwnersOfAll(ps: seq<Policy>)
    requires forall i | 0 <= i < |ps| :: IsCalendar(ps[i])
    ensures forall o :: o in AllOwners(ps) <==> exists i | 0 <= i < |ps| :: o in Owners(ps[i])
  {
    if ps != [] {
      var n := |ps| - 1;
      OwnersOfAll(ps[..n]);
      forall o ensures o in AllOwners(ps) <==> exists i | 0 <= i < |ps| :: o in Owners(ps[i]) {
        if o in AllOwners(ps[..n]) {
          var i :| 0 <= i < n && o in Owners(ps[..n][i]);
          assert o in Owners(ps[i]);
        }
        if i :| 0 <= i < |ps| && o in Owners(ps[i]) {
          assert i < n ==> o in Owners(ps[..n][i]);
        }
      }
    }
  }
}
