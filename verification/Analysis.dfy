/** The verdict over a collection: the recursive analysis that visits the stored calls again. */
module Analysis {
  import opened Policies
  import opened CallGraph
  import opened Collection

  /** A function that does nothing suspicious itself. */
  predicate Harmless(prog: Program, f: FnId) {
    HasBody(prog, f) && var b := prog[f].body.value; !b.unhandled && !b.rawDeref && !b.transmute
  }

  /** The verdict on entry `k`: harmless, and so is every function it calls. */
  ghost predicate Passes(prog: Program, fns: seq<FunctionInfo>, k: nat)
    requires k < |fns|
    decreases k
  {
    && fns[k].WithBody?
    && Harmless(prog, fns[k].fn)
    && forall c | c in fns[k].calls :: Onward(fns, k, c) && Passes(prog, fns, Lookup(fns, c))
  }

  lemma {:induction false} CallsGoOn(prog: Program, shallow: bool, fns: seq<FunctionInfo>, k: nat)
    requires Ordered(prog, shallow, fns) && k < |fns| && fns[k].WithBody?
    ensures forall c | c in fns[k].calls :: Onward(fns, k, c)
  {
    assert EntryOk(prog, shallow, fns, k);
    forall c | c in fns[k].calls ensures Onward(fns, k, c) {
      LookupInPrefix(fns[..k], fns, c);
    }
  }

  lemma {:induction false} PassesAll(prog: Program, fns: seq<FunctionInfo>, k: nat, j: nat)
    requires k < |fns| && j < |fns| && Passes(prog, fns, k) && Leads(fns, k, j)
    ensures Harmless(prog, fns[j].fn)
    decreases k
  {
    if k != j {
      var c :| c in fns[k].calls && Onward(fns, k, c) && Leads(fns, Lookup(fns, c), j);
      PassesAll(prog, fns, Lookup(fns, c), j);
    }
  }

  lemma {:induction false} AllPass(prog: Program, shallow: bool, fns: seq<FunctionInfo>, k: nat)
    requires Ordered(prog, shallow, fns) && k < |fns|
    requires forall j | 0 <= j < |fns| && Leads(fns, k, j) :: Harmless(prog, fns[j].fn)
    ensures Passes(prog, fns, k)
    decreases k
  {
    assert EntryOk(prog, shallow, fns, k);
    assert Leads(fns, k, k);
    CallsGoOn(prog, shallow, fns, k);
    forall c | c in fns[k].calls ensures Passes(prog, fns, Lookup(fns, c)) {
      var m := Lookup(fns, c);
      forall j | 0 <= j < |fns| && Leads(fns, m, j) ensures Harmless(prog, fns[j].fn) { assert Leads(fns, k, j); }
      AllPass(prog, shallow, fns, m);
    }
  }

  /** The verdict on an entry is positive exactly when everything that it leads to is harmless. */
  lemma {:induction false} PassesExactly(prog: Program, shallow: bool, fns: seq<FunctionInfo>, k: nat)
    requires Ordered(prog, shallow, fns) && k < |fns|
    ensures Passes(prog, fns, k) <==> forall j | 0 <= j < |fns| && Leads(fns, k, j) :: Harmless(prog, fns[j].fn)
  {
    hide Passes, Leads, Harmless, Ordered;
    if Passes(prog, fns, k) {
      forall j | 0 <= j < |fns| && Leads(fns, k, j) ensures Harmless(prog, fns[j].fn) { PassesAll(prog, fns, k, j); }
    }
    if forall j | 0 <= j < |fns| && Leads(fns, k, j) :: Harmless(prog, fns[j].fn) { AllPass(prog, shallow, fns, k); }
  }

  /** The verdict is positive exactly when every function that the origin can reach has a body and
      does nothing suspicious, recursive calls included. */
  lemma {:induction false} VerdictIsExact(prog: Program, shallow: bool, origin: FnId, fns: seq<FunctionInfo>)
    requires Finished(prog, shallow, origin, fns)
    ensures Passes(prog, fns, |fns| - 1) <==> forall g | Reachable(prog, shallow, origin, g) :: Harmless(prog, g)
  {
    var last := |fns| - 1;
    if Passes(prog, fns, last) {
      forall g | Reachable(prog, shallow, origin, g) ensures Harmless(prog, g) {
        StoredIsReachable(prog, shallow, origin, fns, g);
        var j :| 0 <= j < |fns| && fns[j].fn == g;
        assert LedByLast(fns, j);
        PassesAll(prog, fns, last, j);
      }
    }
    if forall g | Reachable(prog, shallow, origin, g) :: Harmless(prog, g) {
      forall j | 0 <= j < |fns| ensures Harmless(prog, fns[j].fn) {
        StoredIsReachable(prog, shallow, origin, fns, fns[j].fn);
      }
      AllPass(prog, shallow, fns, last);
    }
  }

  /** `info` is a stored function whose verdict is `verdict`. */
  ghost predicate HasVerdict(prog: Program, fns: seq<FunctionInfo>, info: FunctionInfo, verdict: bool) {
    exists k | 0 <= k < |fns| :: fns[k] == info && Passes(prog, fns, k) == verdict
  }

  /** Whatever entry `k` leads to is in the list that its verdict asks for. */
  ghost predicate Listed(prog: Program, fns: seq<FunctionInfo>, k: nat, passing: seq<FunctionInfo>,
                         failing: seq<FunctionInfo>)
    requires k < |fns|
  {
    forall j | 0 <= j < |fns| && Leads(fns, k, j) ::
      if Passes(prog, fns, j) then fns[j] in passing else fns[j] in failing
  }

  lemma {:induction false} ListsGrow(prog: Program, fns: seq<FunctionInfo>, k: nat, passing: seq<FunctionInfo>,
      failing: seq<FunctionInfo>, passing': seq<FunctionInfo>, failing': seq<FunctionInfo>)
    requires k < |fns| && Listed(prog, fns, k, passing, failing) && passing <= passing' && failing <= failing'
    ensures Listed(prog, fns, k, passing', failing')
  {
    hide Passes, Leads;
  }

  /** An entry's own list gets it after the lists have got what it calls. */
  lemma {:induction false} ListedFrom(prog: Program, fns: seq<FunctionInfo>, k: nat, passing: seq<FunctionInfo>,
      failing: seq<FunctionInfo>, passing': seq<FunctionInfo>, failing': seq<FunctionInfo>)
    requires k < |fns| && passing <= passing' && failing <= failing'
    requires if Passes(prog, fns, k) then fns[k] in passing' else fns[k] in failing'
    requires fns[k].WithBody? ==>
               forall c | c in fns[k].calls :: Onward(fns, k, c) && Listed(prog, fns, Lookup(fns, c), passing, failing)
    ensures Listed(prog, fns, k, passing', failing')
  {
    hide Passes, Lookup;
  }

  /** The flags that the analyzer reads decide about an entry once its calls are decided. */
  lemma {:induction false} OwnVerdict(prog: Program, shallow: bool, fns: seq<FunctionInfo>, k: nat)
    requires Ordered(prog, shallow, fns) && k < |fns|
    ensures fns[k].fn in prog
    ensures fns[k].WithBody? ==>
              && HasBody(prog, fns[k].fn)
              && fns[k].unhandled == prog[fns[k].fn].body.value.unhandled
              && forall c | c in fns[k].calls :: Onward(fns, k, c)
    ensures Passes(prog, fns, k) <==>
              && fns[k].WithBody? && HasBody(prog, fns[k].fn) && !fns[k].unhandled
              && (var b := prog[fns[k].fn].body.value; !b.rawDeref && !b.transmute)
              && forall c | c in fns[k].calls :: Resolves(fns, c) && Passes(prog, fns, Lookup(fns, c))
  {
    assert EntryOk(prog, shallow, fns, k);
    if fns[k].WithBody? { CallsGoOn(prog, shallow, fns, k); }
  }

  class Analyzer {
    const prog: Program
    const storage: FunctionInfoStorage
    var passing: seq<FunctionInfo>
    var failing: seq<FunctionInfo>

    constructor (prog: Program, storage: FunctionInfoStorage)
      ensures this.prog == prog && this.storage == storage && passing == [] && failing == []
    {
      this.prog, this.storage, passing, failing := prog, storage, [], [];
    }

    /** The lists so far are right. */
    ghost predicate Valid(shallow: bool)
      reads this, storage
    {
      && Ordered(prog, shallow, storage.fns)
      && (forall i | 0 <= i < |passing| :: HasVerdict(prog, storage.fns, passing[i], true))
      && (forall i | 0 <= i < |failing| :: HasVerdict(prog, storage.fns, failing[i], false))
    }

    /** Analyzes entry `k` and, without stopping at a failure, everything it calls. */
    method AnalyzeItem(item: FunctionInfo, ghost shallow: bool, ghost k: nat) returns (pure: bool)
      requires Valid(shallow) && k < |storage.fns| && item == storage.fns[k]
      modifies this
      ensures Valid(shallow)
      ensures pure == Passes(prog, storage.fns, k)
      ensures old(passing) <= passing && old(failing) <= failing
      ensures pure <==> failing == old(failing)
      ensures if pure then |passing| > |old(passing)| && passing[|passing| - 1] == item
              else |failing| > 0 && failing[|failing| - 1] == item
      ensures Listed(prog, storage.fns, k, passing, failing)
      decreases k, 1
    {
      OwnVerdict(prog, shallow, storage.fns, k);
      hide Passes, EntryOk, Listed, Leads, Ordered, Lookup, Onward;
      var hasNoLeakingCalls := false;
      if item.WithBody? { hasNoLeakingCalls := AnalyzeCalls(item.calls, shallow, k); }
      var body := prog[item.fn].body;
      pure := item.WithBody? && !item.unhandled && !body.value.rawDeref && !body.value.transmute && hasNoLeakingCalls;
      assert pure == Passes(prog, storage.fns, k);
      assert HasVerdict(prog, storage.fns, item, pure);
      hide HasVerdict;
      ghost var passing0, failing0 := passing, failing;
      if pure {
        passing := passing + [item];
      } else {
        failing := failing + [item];
      }
      ListedFrom(prog, storage.fns, k, passing0, failing0, passing, failing);
    }

    method AnalyzeCalls(calls: set<Call>, ghost shallow: bool, ghost k: nat) returns (noneLeaks: bool)
      requires Valid(shallow) && k < |storage.fns| && storage.fns[k].WithBody? && storage.fns[k].calls == calls
      modifies this
      ensures Valid(shallow)
      ensures noneLeaks <==> forall c | c in calls ::
                Resolves(storage.fns, c) && Passes(prog, storage.fns, Lookup(storage.fns, c))
      ensures old(passing) <= passing && old(failing) <= failing
      ensures noneLeaks <==> failing == old(failing)
      ensures forall c | c in calls ::
                Onward(storage.fns, k, c) && Listed(prog, storage.fns, Lookup(storage.fns, c), passing, failing)
      decreases k, 0
    {
      CallsGoOn(prog, shallow, storage.fns, k);
      hide Passes, HasVerdict, EntryOk, Listed, Leads, Ordered, Lookup;
      noneLeaks := true;
      var rest := calls;
      while rest != {}
        invariant Valid(shallow) && rest <= calls
        invariant noneLeaks <==> forall c | c in calls - rest :: Passes(prog, storage.fns, Lookup(storage.fns, c))
        invariant old(passing) <= passing && old(failing) <= failing
        invariant noneLeaks <==> failing == old(failing)
        invariant forall c | c in calls - rest ::
                    Listed(prog, storage.fns, Lookup(storage.fns, c), passing, failing)
        decreases rest
      {
        var c :| c in rest;
        rest := rest - {c};
        var info := storage.GetByCall(c);
        ghost var passing0, failing0 := passing, failing;
        var result := AnalyzeItem(info, shallow, Lookup(storage.fns, c));
        noneLeaks := noneLeaks && result;
        forall c' | c' in calls - rest && c' != c
          ensures Listed(prog, storage.fns, Lookup(storage.fns, c'), passing, failing)
        {
          ListsGrow(prog, storage.fns, Lookup(storage.fns, c'), passing0, failing0, passing, failing);
        }
      }
    }

    /** The verdict on the origin; its entry is always found.  The lists hold exactly the functions
        that it can reach, each in the list that its own verdict asks for. */
    method Run(ghost shallow: bool) returns (pure: bool)
      requires Finished(prog, shallow, storage.origin, storage.fns) && passing == failing == []
      modifies this
      ensures Valid(shallow)
      ensures pure <==> forall g | Reachable(prog, shallow, storage.origin, g) :: Harmless(prog, g)
      ensures pure <==> failing == []
      ensures forall j | 0 <= j < |storage.fns| ::
                && (storage.fns[j] in passing <==> Passes(prog, storage.fns, j))
                && (storage.fns[j] in failing <==> !Passes(prog, storage.fns, j))
      ensures forall g :: Reachable(prog, shallow, storage.origin, g)
                          <==> exists info | info in passing || info in failing :: info.fn == g
    {
      OriginIsLast(prog, shallow, storage.origin, storage.fns);
      var origin := storage.GetWithBody(storage.origin);
      pure := AnalyzeItem(origin.value, shallow, |storage.fns| - 1);
      VerdictIsExact(prog, shallow, storage.origin, storage.fns);
      ListsAreExact(prog, shallow, storage.origin, storage.fns, passing, failing);
    }
  }

  lemma {:induction false} ListsAreExact(prog: Program, shallow: bool, origin: FnId, fns: seq<FunctionInfo>,
      passing: seq<FunctionInfo>, failing: seq<FunctionInfo>)
    requires Finished(prog, shallow, origin, fns) && Listed(prog, fns, |fns| - 1, passing, failing)
    requires forall i | 0 <= i < |passing| :: HasVerdict(prog, fns, passing[i], true)
    requires forall i | 0 <= i < |failing| :: HasVerdict(prog, fns, failing[i], false)
    ensures forall j | 0 <= j < |fns| ::
              (fns[j] in passing <==> Passes(prog, fns, j)) && (fns[j] in failing <==> !Passes(prog, fns, j))
    ensures forall g :: Reachable(prog, shallow, origin, g) <==> exists x | x in passing || x in failing :: x.fn == g
  {
    hide Passes, Leads, Ordered, Closed, Reachable;
    forall j | 0 <= j < |fns|
      ensures (fns[j] in passing <==> Passes(prog, fns, j)) && (fns[j] in failing <==> !Passes(prog, fns, j))
    {
      assert LedByLast(fns, j);
      if fns[j] in passing {
        var k :| 0 <= k < |fns| && fns[k] == fns[j] && Passes(prog, fns, k);
      }
      if fns[j] in failing {
        var k :| 0 <= k < |fns| && fns[k] == fns[j] && !Passes(prog, fns, k);
      }
    }
    forall g ensures Reachable(prog, shallow, origin, g) <==> exists x | x in passing || x in failing :: x.fn == g {
      StoredIsReachable(prog, shallow, origin, fns, g);
      if Stored(fns, g) {
        var j :| 0 <= j < |fns| && fns[j].fn == g;
        assert fns[j] in passing || fns[j] in failing;
      }
      if x :| (x in passing || x in failing) && x.fn == g {
        var k :| 0 <= k < |fns| && fns[k] == x;
        assert fns[k].fn == g;
      }
    }
  }

  lemma {:induction false} OriginIsLast(prog: Program, shallow: bool, origin: FnId, fns: seq<FunctionInfo>)
    requires Finished(prog, shallow, origin, fns)
    ensures Resolves(fns, ToBody(origin)) && Lookup(fns, ToBody(origin)) == |fns| - 1
  {
    assert EntryOk(prog, shallow, fns, |fns| - 1);
    assert Matches(fns[|fns| - 1], ToBody(origin));
  }

  /** Collecting and analyzing: the whole purity check of one function. */
  method CheckPurity(prog: Program, shallow: bool, origin: FnId) returns (pure: bool)
    requires WellFormed(prog) && HasBody(prog, origin)
    ensures pure <==> forall g | Reachable(prog, shallow, origin, g) ::
              HasBody(prog, g) && var b := prog[g].body.value; !b.unhandled && !b.rawDeref && !b.transmute
  {
    var storage := Collect(prog, shallow, origin);
    var analyzer := new Analyzer(prog, storage);
    pure := analyzer.Run(shallow);
  }
}
