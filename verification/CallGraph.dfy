/** The program that the scrutinizer looks at, and what its collector has stored about it. */
module CallGraph {
  import opened Policies

  type FnId = nat

  /** What matters of a function body: the functions that its calls resolve to, in the order in
      which the dataflow analysis comes to them (often more than once), and three findings. */
  datatype Body = Body(visits: seq<FnId>, unhandled: bool, rawDeref: bool, transmute: bool)

  datatype Function = Function(local: bool, body: Option<Body>)

  type Program = map<FnId, Function>

  predicate WellFormed(prog: Program) {
    forall f | f in prog && prog[f].body.Some? :: forall g | g in prog[f].body.value.visits :: g in prog
  }

  predicate HasBody(prog: Program, f: FnId) {
    f in prog && prog[f].body.Some?
  }

  /** The calls that are followed; a shallow collection stays inside the crate. */
  predicate Callee(prog: Program, shallow: bool, f: FnId, g: FnId) {
    HasBody(prog, f) && g in prog && g in prog[f].body.value.visits && (shallow ==> prog[g].local)
  }

  /** A chain of calls from `f` to `g`. */
  ghost predicate Path(prog: Program, shallow: bool, p: seq<FnId>, f: FnId, g: FnId) {
    && |p| > 0 && p[0] == f && p[|p| - 1] == g
    && forall i | 0 < i < |p| :: Callee(prog, shallow, p[i - 1], p[i])
  }

  ghost predicate Reachable(prog: Program, shallow: bool, f: FnId, g: FnId) {
    exists p :: Path(prog, shallow, p, f, g)
  }

  /** What is reachable from `f` is closed under the calls that are followed, and is contained in
      every set that is and has `f`. */
  lemma {:induction false} ReachableIsLeast(prog: Program, shallow: bool, f: FnId, s: set<FnId>)
    ensures Reachable(prog, shallow, f, f)
    ensures forall g, h | Reachable(prog, shallow, f, g) && g in prog && prog[g].body.Some?
                          && h in prog[g].body.value.visits && h in prog && (shallow ==> prog[h].local) ::
              Reachable(prog, shallow, f, h)
    ensures f in s && (forall g, h | g in s && g in prog && prog[g].body.Some? && h in prog[g].body.value.visits
                                     && h in prog && (shallow ==> prog[h].local) :: h in s)
            ==> forall g | Reachable(prog, shallow, f, g) :: g in s
  {
    assert Path(prog, shallow, [f], f, f);
    forall g, h | Reachable(prog, shallow, f, g) && Callee(prog, shallow, g, h) ensures Reachable(prog, shallow, f, h) {
      var p :| Path(prog, shallow, p, f, g);
      assert Path(prog, shallow, p + [h], f, h);
    }
    if f in s && forall g, h | g in s && Callee(prog, shallow, g, h) :: h in s {
      forall g | Reachable(prog, shallow, f, g) ensures g in s {
        var p :| Path(prog, shallow, p, f, g);
        PathStaysInside(prog, shallow, p, s);
      }
    }
  }

  lemma {:induction false} PathStaysInside(prog: Program, shallow: bool, p: seq<FnId>, s: set<FnId>)
    requires |p| > 0 && p[0] in s && forall i | 0 < i < |p| :: Callee(prog, shallow, p[i - 1], p[i])
    requires forall g, h | g in s && Callee(prog, shallow, g, h) :: h in s
    ensures p[|p| - 1] in s
  {
    var n := |p| - 1;
    if n > 0 {
      PathStaysInside(prog, shallow, p[..n], s);
      assert Callee(prog, shallow, p[n - 1], p[n]);
    }
  }

  // ----- what is stored -----

  datatype Call = ToBody(fn: FnId) | ToBodyless(fn: FnId)

  datatype FunctionInfo =
    | WithBody(fn: FnId, calls: set<Call>, unhandled: bool)
    | WithoutBody(fn: FnId)

  function CallTo(prog: Program, g: FnId): Call {
    if HasBody(prog, g) then ToBody(g) else ToBodyless(g)
  }

  predicate Matches(info: FunctionInfo, c: Call) {
    info.fn == c.fn && (info.WithBody? <==> c.ToBody?)
  }

  predicate Resolves(fns: seq<FunctionInfo>, c: Call) {
    exists k | 0 <= k < |fns| :: Matches(fns[k], c)
  }

  /** The first match. */
  ghost function Lookup(fns: seq<FunctionInfo>, c: Call): (k: nat)
    requires Resolves(fns, c)
    ensures k < |fns| && Matches(fns[k], c) && forall j | 0 <= j < k :: !Matches(fns[j], c)
  {
    if Matches(fns[0], c) then 0
    else
      assert forall k | 0 < k < |fns| :: fns[k] == fns[1..][k - 1];
      assert Resolves(fns[1..], c);
      1 + Lookup(fns[1..], c)
  }

  ghost predicate EntryOk(prog: Program, shallow: bool, fns: seq<FunctionInfo>, k: nat)
    requires k < |fns|
  {
    match fns[k]
    case WithBody(f, calls, unhandled) =>
      && HasBody(prog, f) && unhandled == prog[f].body.value.unhandled
      && (forall c | c in calls :: c == CallTo(prog, c.fn) && Callee(prog, shallow, f, c.fn) && Resolves(fns[..k], c))
      && forall g | Callee(prog, shallow, f, g) && Stored(fns[..k], g) :: CallTo(prog, g) in calls
    case WithoutBody(f) => f in prog && !HasBody(prog, f)
  }

  /** Calls only lead to earlier entries, and all calls of functions that are stored earlier are there. */
  ghost predicate Ordered(prog: Program, shallow: bool, fns: seq<FunctionInfo>) {
    forall k | 0 <= k < |fns| :: EntryOk(prog, shallow, fns, k)
  }

  ghost predicate Unique(fns: seq<FunctionInfo>) {
    forall j, k | 0 <= j < k < |fns| :: fns[j].fn != fns[k].fn
  }

  ghost predicate Stored(fns: seq<FunctionInfo>, g: FnId) {
    exists k | 0 <= k < |fns| :: fns[k].fn == g
  }

  /** Every callee of a stored function is stored, or is still being looked at. */
  ghost predicate Closed(prog: Program, shallow: bool, fns: seq<FunctionInfo>, open: set<FnId>) {
    forall k | 0 <= k < |fns| :: forall g | Callee(prog, shallow, fns[k].fn, g) :: Stored(fns, g) || g in open
  }

  ghost predicate Invariant(prog: Program, shallow: bool, fns: seq<FunctionInfo>, open: set<FnId>) {
    && Ordered(prog, shallow, fns)
    && Unique(fns)
    && Closed(prog, shallow, fns, open)
    && forall f | f in open :: !Stored(fns, f)
  }

  /** Entry `k` leads to entry `j` along stored calls. */
  ghost predicate Leads(fns: seq<FunctionInfo>, k: nat, j: nat)
    requires k < |fns|
    decreases k
  {
    || k == j
    || (fns[k].WithBody? && exists c | c in fns[k].calls :: Onward(fns, k, c) && Leads(fns, Lookup(fns, c), j))
  }

  ghost predicate Onward(fns: seq<FunctionInfo>, k: nat, c: Call) {
    Resolves(fns, c) && Lookup(fns, c) < k
  }

  // ----- appending an entry -----

  lemma {:induction false} LookupInPrefix(fns: seq<FunctionInfo>, more: seq<FunctionInfo>, c: Call)
    requires fns <= more && Resolves(fns, c)
    ensures Resolves(more, c) && Lookup(more, c) == Lookup(fns, c)
  {
    var k := Lookup(fns, c);
    assert Matches(more[k], c);
    assert forall j | 0 <= j < k :: fns[j] == more[j] && !Matches(more[j], c);
  }

  lemma {:induction false} LeadsInPrefix(fns: seq<FunctionInfo>, more: seq<FunctionInfo>, k: nat, j: nat)
    requires fns <= more && k < |fns| && Leads(fns, k, j)
    ensures Leads(more, k, j)
    decreases k
  {
    if k != j {
      var c :| c in fns[k].calls && Onward(fns, k, c) && Leads(fns, Lookup(fns, c), j);
      LookupInPrefix(fns, more, c);
      LeadsInPrefix(fns, more, Lookup(fns, c), j);
      assert Onward(more, k, c);
    }
  }

  lemma {:induction false} Append(prog: Program, shallow: bool, fns: seq<FunctionInfo>, e: FunctionInfo,
      open: set<FnId>)
    requires Ordered(prog, shallow, fns) && Unique(fns) && !Stored(fns, e.fn)
    requires Closed(prog, shallow, fns, open + {e.fn})
    requires forall f | f in open :: !Stored(fns, f) && f != e.fn
    requires EntryOk(prog, shallow, fns + [e], |fns|)
    requires forall g | Callee(prog, shallow, e.fn, g) :: Stored(fns, g) || g in open || g == e.fn
    ensures Invariant(prog, shallow, fns + [e], open)
    ensures Stored(fns + [e], e.fn)
    ensures forall g | Stored(fns, g) :: Stored(fns + [e], g)
  {
    var more, n := fns + [e], |fns|;
    assert more[n].fn == e.fn;
    forall g | Stored(fns, g) ensures Stored(more, g) {
      var k :| 0 <= k < n && fns[k].fn == g;
      assert more[k].fn == g;
    }
    forall k | 0 <= k < |more| ensures EntryOk(prog, shallow, more, k) {
      if k < n {
        assert EntryOk(prog, shallow, fns, k) && more[..k] == fns[..k] && more[k] == fns[k];
      }
    }
    forall k, g | 0 <= k < |more| && Callee(prog, shallow, more[k].fn, g) ensures Stored(more, g) || g in open {
      if k < n { assert more[k] == fns[k]; }
    }
    forall f | f in open ensures !Stored(more, f) {
      forall k | 0 <= k < |more| ensures more[k].fn != f {
        if k < n { assert more[k] == fns[k]; }
      }
    }
    forall j, k | 0 <= j < k < |more| ensures more[j].fn != more[k].fn {
      assert more[j] == fns[j];
      if k < n { assert more[k] == fns[k]; }
    }
  }
}
