/** The collector: a depth-first walk over the call graph with a stack of the functions that
    are being looked at, and a storage that remembers the finished ones. */
module Collection {
  import opened Policies
  import opened CallGraph

  class FunctionInfoStorage {
    const origin: FnId
    var fns: seq<FunctionInfo>

    constructor (origin: FnId)
      ensures this.origin == origin && fns == []
    {
      this.origin, fns := origin, [];
    }

    method Insert(info: FunctionInfo)
      modifies this
      ensures fns == if info in old(fns) then old(fns) else old(fns) + [info]
    {
      if info !in fns {
        fns := fns + [info];
      }
    }

    method GetWithBody(f: FnId) returns (info: Option<FunctionInfo>)
      ensures info.Some? <==> Resolves(fns, ToBody(f))
      ensures info.Some? ==> info.value == fns[Lookup(fns, ToBody(f))]
    {
      info := Find(ToBody(f));
    }

    method GetWithoutBody(f: FnId) returns (info: Option<FunctionInfo>)
      ensures info.Some? <==> Resolves(fns, ToBodyless(f))
      ensures info.Some? ==> info.value == fns[Lookup(fns, ToBodyless(f))]
    {
      info := Find(ToBodyless(f));
    }

    /** The first entry that matches. */
    method Find(c: Call) returns (info: Option<FunctionInfo>)
      ensures info.Some? <==> Resolves(fns, c)
      ensures info.Some? ==> info.value == fns[Lookup(fns, c)]
    {
      for k := 0 to |fns|
        invariant forall j | 0 <= j < k :: !Matches(fns[j], c)
      {
        if Matches(fns[k], c) { return Some(fns[k]); }
      }
      return None;
    }

    /** Panics when there is no entry for the call. */
    method GetByCall(c: Call) returns (info: FunctionInfo)
      requires Resolves(fns, c)
      ensures info == fns[Lookup(fns, c)]
    {
      var found;
      match c {
        case ToBody(f) => found := GetWithBody(f);
        case ToBodyless(f) => found := GetWithoutBody(f);
      }
      info := found.value;
    }
  }

  class VirtualStack {
    var stack: seq<FnId>

    constructor (items: seq<FnId>)
      ensures stack == items
    {
      stack := items;
    }

    method Push(item: FnId)
      modifies this
      ensures stack == old(stack) + [item]
    {
      stack := stack + [item];
    }

    predicate Contains(item: FnId)
      reads this
    {
      item in stack
    }
  }

  ghost function Items(s: seq<FnId>): set<FnId> {
    set f | f in s
  }

  /** What looking at one function, or at one of its calls, keeps: the storage grows, stays
      ordered and closed up to the functions that are being looked at, and whatever is new can be
      reached from the calls that were recorded. */
  ghost predicate Progress(prog: Program, shallow: bool, before: seq<FunctionInfo>, fns: seq<FunctionInfo>,
                           open: set<FnId>, f: FnId, calls: set<Call>) {
    && before <= fns
    && Invariant(prog, shallow, fns, open)
    && (forall c | c in calls :: c == CallTo(prog, c.fn) && Callee(prog, shallow, f, c.fn) && Resolves(fns, c))
    && (forall j | |before| <= j < |fns| :: Led(fns, calls, j))
  }

  /** Some call of `calls` leads to entry `j`. */
  ghost predicate Led(fns: seq<FunctionInfo>, calls: set<Call>, j: nat) {
    exists c | c in calls :: Resolves(fns, c) && Leads(fns, Lookup(fns, c), j)
  }

  lemma {:induction false} StoredResolves(prog: Program, shallow: bool, fns: seq<FunctionInfo>, g: FnId)
    requires Ordered(prog, shallow, fns)
    ensures Stored(fns, g) <==> Resolves(fns, CallTo(prog, g))
  {
    if Stored(fns, g) {
      var k :| 0 <= k < |fns| && fns[k].fn == g;
      assert EntryOk(prog, shallow, fns, k) && Matches(fns[k], CallTo(prog, g));
    }
  }

  /** What a stored entry for a function with a body says about it. */
  lemma {:induction false} StoredEntry(prog: Program, shallow: bool, fns: seq<FunctionInfo>, f: FnId)
    requires Ordered(prog, shallow, fns) && HasBody(prog, f) && Resolves(fns, ToBody(f))
    ensures var e := fns[Lookup(fns, ToBody(f))];
            Stored(fns, f) && e.WithBody? && e in fns && e == WithBody(f, e.calls, prog[f].body.value.unhandled)
  {
    assert EntryOk(prog, shallow, fns, Lookup(fns, ToBody(f)));
  }

  /** One more function is looked at. */
  lemma {:induction false} OpenMore(prog: Program, shallow: bool, fns: seq<FunctionInfo>, open: set<FnId>, f: FnId)
    requires Invariant(prog, shallow, fns, open) && !Stored(fns, f)
    ensures Progress(prog, shallow, fns, fns, open + {f}, f, {})
  {
  }

  lemma {:induction false} LedInPrefix(fns: seq<FunctionInfo>, more: seq<FunctionInfo>, calls: set<Call>,
      moreCalls: set<Call>, j: nat)
    requires fns <= more && calls <= moreCalls && Led(fns, calls, j)
    ensures Led(more, moreCalls, j)
  {
    var c :| c in calls && Resolves(fns, c) && Leads(fns, Lookup(fns, c), j);
    LookupInPrefix(fns, more, c);
    LeadsInPrefix(fns, more, Lookup(fns, c), j);
  }

  /** A call of a function that is stored already. */
  lemma {:induction false} KnownCall(prog: Program, shallow: bool, before: seq<FunctionInfo>, fns: seq<FunctionInfo>,
                                     open: set<FnId>, f: FnId, calls: set<Call>, g: FnId)
    requires Progress(prog, shallow, before, fns, open, f, calls)
    requires Callee(prog, shallow, f, g) && Stored(fns, g)
    ensures Progress(prog, shallow, before, fns, open, f, calls + {CallTo(prog, g)})
  {
    StoredResolves(prog, shallow, fns, g);
    forall j | |before| <= j < |fns| ensures Led(fns, calls + {CallTo(prog, g)}, j) {
      LedInPrefix(fns, fns, calls, calls + {CallTo(prog, g)}, j);
    }
  }

  /** A call of a function that was looked at for the first time. */
  lemma {:induction false} NewCall(prog: Program, shallow: bool, before: seq<FunctionInfo>, start: seq<FunctionInfo>,
                                   fns: seq<FunctionInfo>, open: set<FnId>, f: FnId, calls: set<Call>,
                                   e: FunctionInfo, results: set<Call>)
    requires Progress(prog, shallow, before, start, open, f, calls)
    requires Progress(prog, shallow, start, fns, open + {e.fn}, e.fn, results) && e.fn !in open
    requires Callee(prog, shallow, f, e.fn)
    requires if HasBody(prog, e.fn) then e == WithBody(e.fn, results, prog[e.fn].body.value.unhandled)
             else e == WithoutBody(e.fn) && results == {}
    requires forall g | Callee(prog, shallow, e.fn, g) :: CallTo(prog, g) in results || g in open + {e.fn}
    ensures Progress(prog, shallow, before, fns + [e], open, f, calls + {CallTo(prog, e.fn)})
    ensures Stored(fns + [e], e.fn)
  {
    var more, n, c := fns + [e], |fns|, CallTo(prog, e.fn);
    var calls' := calls + {c};
    assert more[..n] == fns;
    CalledIsStored(prog, shallow, fns, e.fn, results, open + {e.fn});
    Append(prog, shallow, fns, e, open);
    NewLookup(fns, e, c);
    forall c' | c' in calls ensures Resolves(more, c') { LookupInPrefix(start, more, c'); }
    forall j | |before| <= j < |more| ensures Led(more, calls', j) {
      if j < |start| {
        LedInPrefix(start, more, calls, calls', j);
      } else if j < n {
        LedInPrefix(fns, more, results, results, j);
        LeadsThrough(fns, e, j);
      }
    }
  }

  lemma {:induction false} CalledIsStored(prog: Program, shallow: bool, fns: seq<FunctionInfo>, f: FnId,
                                          calls: set<Call>, open: set<FnId>)
    requires Ordered(prog, shallow, fns) && forall c | c in calls :: Resolves(fns, c)
    requires forall g | Callee(prog, shallow, f, g) :: CallTo(prog, g) in calls || g in open
    ensures forall g | Callee(prog, shallow, f, g) :: Stored(fns, g) || g in open
  {
    forall g | Callee(prog, shallow, f, g) ensures Stored(fns, g) || g in open {
      StoredResolves(prog, shallow, fns, g);
    }
  }

  lemma {:induction false} NewLookup(fns: seq<FunctionInfo>, e: FunctionInfo, c: Call)
    requires Matches(e, c) && !Stored(fns, e.fn)
    ensures Resolves(fns + [e], c) && Lookup(fns + [e], c) == |fns|
  {
    var more := fns + [e];
    assert Matches(more[|fns|], c);
    assert forall j | 0 <= j < |fns| :: more[j] == fns[j] && !Matches(more[j], c);
  }

  lemma {:induction false} LeadsThrough(fns: seq<FunctionInfo>, e: FunctionInfo, j: nat)
    requires e.WithBody? && Led(fns + [e], e.calls, j) && forall c | c in e.calls :: Resolves(fns, c)
    ensures Leads(fns + [e], |fns|, j)
  {
    var more := fns + [e];
    var c :| c in e.calls && Resolves(more, c) && Leads(more, Lookup(more, c), j);
    LookupInPrefix(fns, more, c);
    assert Onward(more, |fns|, c);
  }

  lemma {:induction false} Fewer(all: set<FnId>, open: set<FnId>, f: FnId)
    requires f in all && f !in open
    ensures |all - (open + {f})| < |all - open|
  {
    assert all - (open + {f}) == (all - open) - {f};
  }

  class Collector {
    const prog: Program
    const shallow: bool
    const current: FnId
    const virtualStack: VirtualStack
    const storage: FunctionInfoStorage

    constructor (prog: Program, shallow: bool, current: FnId, virtualStack: VirtualStack, storage: FunctionInfoStorage)
      ensures this.prog == prog && this.shallow == shallow && this.current == current
      ensures this.virtualStack == virtualStack && this.storage == storage
    {
      this.prog, this.shallow, this.current := prog, shallow, current;
      this.virtualStack, this.storage := virtualStack, storage;
    }

    ghost function Open(): set<FnId>
      reads virtualStack
    {
      Items(virtualStack.stack)
    }

    method Run() returns (calls: set<Call>)
      requires WellFormed(prog) && HasBody(prog, current) && current !in Open()
      requires Invariant(prog, shallow, storage.fns, Open()) && Open() <= prog.Keys
      modifies virtualStack, storage
      ensures virtualStack.stack == old(virtualStack.stack) + [current]
      ensures old(storage.fns) <= storage.fns
      ensures if Stored(old(storage.fns), current) then
                && storage.fns == old(storage.fns)
                && WithBody(current, calls, prog[current].body.value.unhandled) in storage.fns
              else
                && Progress(prog, shallow, old(storage.fns), storage.fns, Open(), current, calls)
                && forall g | Callee(prog, shallow, current, g) :: CallTo(prog, g) in calls || g in Open()
      decreases |prog.Keys - Open()|, 0
    {
      StoredResolves(prog, shallow, storage.fns, current);
      ghost var open := Open();
      virtualStack.Push(current);
      assert Open() == open + {current};
      Fewer(prog.Keys, open, current);
      var hit := storage.GetWithBody(current);
      if hit.Some? {
        StoredEntry(prog, shallow, storage.fns, current);
        return hit.value.calls;
      }
      calls := {};
      OpenMore(prog, shallow, storage.fns, open, current);
      var visits := prog[current].body.value.visits;
      for k := 0 to |visits|
        invariant virtualStack.stack == old(virtualStack.stack) + [current]
        invariant Progress(prog, shallow, old(storage.fns), storage.fns, Open(), current, calls)
        invariant forall j | 0 <= j < k && Callee(prog, shallow, current, visits[j]) ::
                  CallTo(prog, visits[j]) in calls || visits[j] in Open()
      {
        calls := ProcessCall(old(storage.fns), visits[k], calls);
      }
    }

    method ProcessCall(ghost before: seq<FunctionInfo>, g: FnId, calls: set<Call>) returns (calls': set<Call>)
      requires WellFormed(prog) && HasBody(prog, current) && current in Open() && Open() <= prog.Keys
      requires g in prog[current].body.value.visits
      requires Progress(prog, shallow, before, storage.fns, Open(), current, calls)
      modifies storage
      ensures Progress(prog, shallow, before, storage.fns, Open(), current, calls')
      ensures old(storage.fns) <= storage.fns
      ensures calls <= calls'
      ensures Callee(prog, shallow, current, g) ==> CallTo(prog, g) in calls' || g in Open()
      decreases |prog.Keys - Open()|, 1
    {
      hide Led, Leads, Lookup, Closed, Unique, Ordered, EntryOk;
      calls' := calls;
      if shallow && !prog[g].local { return; }
      if virtualStack.Contains(g) { return; }
      match prog[g].body {
        case None =>
          ghost var start := storage.fns;
          StoredResolves(prog, shallow, start, g);
          if Stored(start, g) {
            KnownCall(prog, shallow, before, start, Open(), current, calls, g);
          } else {
            OpenMore(prog, shallow, start, Open(), g);
            NewCall(prog, shallow, before, start, start, Open(), current, calls, WithoutBody(g), {});
          }
          storage.Insert(WithoutBody(g));
          calls' := calls + {ToBodyless(g)};
        case Some(body) =>
          var stack := new VirtualStack(virtualStack.stack);
          var nested := new Collector(prog, shallow, g, stack, storage);
          ghost var start := storage.fns;
          var results := nested.Run();
          assert nested.Open() == Open() + {g};
          if Stored(start, g) {
            KnownCall(prog, shallow, before, start, Open(), current, calls, g);
          } else {
            var e := WithBody(g, results, body.unhandled);
            NewCall(prog, shallow, before, start, storage.fns, Open(), current, calls, e, results);
          }
          storage.Insert(WithBody(g, results, body.unhandled));
          calls' := calls + {ToBody(g)};
      }
    }
  }

  /** A finished collection: nothing is being looked at any more, the origin was stored last, and
      every stored function was reached from it. */
  ghost predicate Finished(prog: Program, shallow: bool, origin: FnId, fns: seq<FunctionInfo>) {
    && Invariant(prog, shallow, fns, {})
    && |fns| > 0 && fns[|fns| - 1].fn == origin && HasBody(prog, origin)
    && forall j | 0 <= j < |fns| :: LedByLast(fns, j)
  }

  ghost predicate LedByLast(fns: seq<FunctionInfo>, j: nat) {
    |fns| > 0 && Leads(fns, |fns| - 1, j)
  }

  method Collect(prog: Program, shallow: bool, origin: FnId) returns (storage: FunctionInfoStorage)
    requires WellFormed(prog) && HasBody(prog, origin)
    ensures fresh(storage) && storage.origin == origin
    ensures Finished(prog, shallow, origin, storage.fns)
  {
    storage := new FunctionInfoStorage(origin);
    var stack := new VirtualStack([]);
    var collector := new Collector(prog, shallow, origin, stack, storage);
    assert collector.Open() == {};
    var results := collector.Run();
    assert collector.Open() == {origin};
    ghost var fns := storage.fns;
    var e := WithBody(origin, results, prog[origin].body.value.unhandled);
    Finish(prog, shallow, fns, e);
    storage.Insert(e);
  }

  lemma {:induction false} Finish(prog: Program, shallow: bool, fns: seq<FunctionInfo>, e: FunctionInfo)
    requires HasBody(prog, e.fn) && e.WithBody? && e.unhandled == prog[e.fn].body.value.unhandled
    requires Progress(prog, shallow, [], fns, {e.fn}, e.fn, e.calls)
    requires forall g | Callee(prog, shallow, e.fn, g) :: CallTo(prog, g) in e.calls || g == e.fn
    ensures e !in fns && Finished(prog, shallow, e.fn, fns + [e])
  {
    var more := fns + [e];
    assert more[..|fns|] == fns;
    CalledIsStored(prog, shallow, fns, e.fn, e.calls, {e.fn});
    Append(prog, shallow, fns, e, {});
    forall j | 0 <= j < |fns| ensures LedByLast(more, j) {
      LedInPrefix(fns, more, e.calls, e.calls, j);
      LeadsThrough(fns, e, j);
    }
    assert LedByLast(more, |fns|);
    forall k | 0 <= k < |fns| ensures fns[k] != e { assert fns[k].fn != e.fn; }
  }

  // ----- what is collected -----

  lemma {:induction false} LeadsReaches(prog: Program, shallow: bool, fns: seq<FunctionInfo>, k: nat, j: nat)
    requires Ordered(prog, shallow, fns) && k < |fns| && j < |fns| && Leads(fns, k, j)
    ensures Reachable(prog, shallow, fns[k].fn, fns[j].fn)
    decreases k
  {
    hide Callee;
    if k == j {
      assert Path(prog, shallow, [fns[k].fn], fns[k].fn, fns[j].fn);
    } else {
      var c :| c in fns[k].calls && Onward(fns, k, c) && Leads(fns, Lookup(fns, c), j);
      var m := Lookup(fns, c);
      assert EntryOk(prog, shallow, fns, k);
      LeadsReaches(prog, shallow, fns, m, j);
      CalleeReaches(prog, shallow, fns[k].fn, fns[m].fn, fns[j].fn);
    }
  }

  lemma {:induction false} CalleeReaches(prog: Program, shallow: bool, f: FnId, callee: FnId, g: FnId)
    requires Callee(prog, shallow, f, callee) && Reachable(prog, shallow, callee, g)
    ensures Reachable(prog, shallow, f, g)
  {
    hide Callee;
    var p :| Path(prog, shallow, p, callee, g);
    assert Path(prog, shallow, [f] + p, f, g);
  }

  lemma {:induction false} PathIsStored(prog: Program, shallow: bool, fns: seq<FunctionInfo>, p: seq<FnId>, f: FnId,
      g: FnId)
    requires Closed(prog, shallow, fns, {}) && Stored(fns, f) && Path(prog, shallow, p, f, g)
    ensures Stored(fns, g)
    decreases |p|
  {
    var n := |p| - 1;
    if n > 0 {
      PathIsStored(prog, shallow, fns, p[..n], f, p[n - 1]);
      var k :| 0 <= k < |fns| && fns[k].fn == p[n - 1];
      assert Callee(prog, shallow, fns[k].fn, g);
    }
  }

  /** The collector stores exactly the functions that the origin can reach, although it skips the
      calls of functions that it is still looking at. */
  lemma {:induction false} StoredIsReachable(prog: Program, shallow: bool, origin: FnId, fns: seq<FunctionInfo>,
      g: FnId)
    requires Finished(prog, shallow, origin, fns)
    ensures Stored(fns, g) <==> Reachable(prog, shallow, origin, g)
  {
    var last := |fns| - 1;
    if Stored(fns, g) {
      var j :| 0 <= j < |fns| && fns[j].fn == g;
      assert LedByLast(fns, j);
      LeadsReaches(prog, shallow, fns, last, j);
    }
    if Reachable(prog, shallow, origin, g) {
      var p :| Path(prog, shallow, p, origin, g);
      assert fns[last].fn == origin;
      PathIsStored(prog, shallow, fns, p, origin, g);
    }
  }
}
