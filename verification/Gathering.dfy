/** Turning a vector of containers of one policy type into one container of a vector. */
module Gathering {
  import opened Policies
  import opened Specialization
  import opened Conjunction

  /** The first policy with all later ones joined into it; nothing when a join is refused. */
  function JoinAll(alg: Algebra, ps: seq<Policy>): Option<Policy>
    requires |ps| > 0
  {
    var n := |ps| - 1;
    if n == 0 then Some(ps[0])
    else match JoinAll(alg, ps[..n])
      case None => None
      case Some(p) => if CanJoin(p, Erase(ps[n])) then Some(Joined(alg, p, Erase(ps[n]))) else None
  }

  ghost function Values<T>(v: seq<(T, Owned)>): seq<Policy>
    reads set x, o | x in v && o in x.1.Cells() :: o
  {
    seq(|v|, i requires 0 <= i < |v| reads set x, o | x in v && o in x.1.Cells() :: o => v[i].1.Value())
  }

  /** Containers that own their leaves. */
  ghost predicate Disjoint<T>(v: seq<(T, Owned)>) {
    && (forall i | 0 <= i < |v| :: v[i].1.Valid())
    && (forall i, j | 0 <= i < j < |v| :: v[i].1.Cells() !! v[j].1.Cells())
  }

  /** Joins the policy of container `k` into that of the first one. */
  method JoinIntoFirst<T>(alg: Algebra, v: seq<(T, Owned)>, k: nat) returns (joined: bool)
    requires Disjoint(v) && 0 < k < |v|
    modifies v[0].1.Cells()
    ensures joined == old(CanJoin(v[0].1.Value(), Erase(v[k].1.Value())))
    ensures joined ==> v[0].1.Value() == Joined(alg, old(v[0].1.Value()), old(Erase(v[k].1.Value())))
    ensures forall j | 0 < j < |v| :: v[j].1.Value() == old(v[j].1.Value())
  {
    var p, ep := v[0].1, v[k].1;
    ep.ReflectedShows();
    assert forall j | 0 < j < |v| :: v[0].1.Cells() !! v[j].1.Cells() && allocated(v[j].1.Cells());
    joined := JoinViaReflection(alg, p, ep.Reflected());
  }

  /** The conversion: data and policies are taken apart, and each policy is joined in place
      into the first one.  It panics exactly when a join is refused. */
  method FromContainers<T>(alg: Algebra, v: seq<(T, Owned)>) returns (data: seq<T>, policy: Option<Owned>, panic: bool)
    requires Disjoint(v)
    modifies if |v| > 0 then v[0].1.Cells() else {}
    ensures |v| == 0 ==> !panic && data == [] && policy == None
    ensures |v| > 0 ==> panic == JoinAll(alg, old(Values(v))).None?
    ensures !panic ==> |data| == |v| && forall i | 0 <= i < |v| :: data[i] == v[i].0
    ensures !panic && |v| > 0 ==>
              policy == Some(v[0].1) && Some(v[0].1.Value()) == JoinAll(alg, old(Values(v)))
  {
    hide CanJoin, Joined, Erase, Disjoint;
    data, policy, panic := [], None, false;
    ghost var values := Values(v);
    for i := 0 to |v|
      invariant |data| == i && forall j | 0 <= j < i :: data[j] == v[j].0
      invariant policy == if i == 0 then None else Some(v[0].1)
      invariant v[..i] != [] ==> Some(v[0].1.Value()) == JoinAll(alg, values[..i])
      invariant i == 0 ==> forall j | 0 <= j < |v| :: v[j].1.Value() == values[j]
      invariant forall j | 0 < j < |v| :: v[j].1.Value() == values[j]
    {
      data := data + [v[i].0];
      if policy.None? {
        policy := Some(v[i].1);
        assert values[..1] == [values[0]];
      } else {
        JoinAllStep(alg, values, i);
        var joined := JoinIntoFirst(alg, v, i);
        if !joined {
          JoinAllStops(alg, values, i + 1);
          return [], None, true;
        }
      }
    }
    assert values[..|v|] == values;
  }

  lemma {:induction false} JoinAllStep(alg: Algebra, ps: seq<Policy>, n: nat)
    requires 0 < n < |ps|
    ensures JoinAll(alg, ps[..n + 1]) ==
              match JoinAll(alg, ps[..n])
              case None => None
              case Some(p) => if CanJoin(p, Erase(ps[n])) then Some(Joined(alg, p, Erase(ps[n]))) else None
  {
    assert ps[..n + 1][..n] == ps[..n];
  }

  lemma {:induction false} JoinAllStops(alg: Algebra, ps: seq<Policy>, n: nat)
    requires 0 < n <= |ps| && JoinAll(alg, ps[..n]).None?
    ensures JoinAll(alg, ps).None?
    decreases |ps| - n
  {
    hide JoinAll;
    if n < |ps| {
      JoinAllStep(alg, ps, n);
      JoinAllStops(alg, ps, n + 1);
    } else {
      assert ps[..n] == ps;
    }
  }

  /** The statically typed joins, one after the other. */
  function ReflexiveJoinAll(alg: Algebra, ps: seq<Policy>, ty: Ty): (p: Policy)
    requires |ps| > 0 && SelfJoining(ty) && forall i | 0 <= i < |ps| :: TypeOf(ps[i]) == ty
    ensures TypeOf(p) == ty
  {
    var n := |ps| - 1;
    if n == 0 then ps[0] else ReflexiveJoined(alg, ReflexiveJoinAll(alg, ps[..n], ty), ps[n])
  }

  /** For the types made of simple leaves, no-policies, conjunctions and test wrappers the
      conversion never panics, and joins as the typed join does. */
  lemma {:induction false} NeverPanics(alg: Algebra, ps: seq<Policy>, ty: Ty)
    requires |ps| > 0 && SelfJoining(ty) && forall i | 0 <= i < |ps| :: TypeOf(ps[i]) == ty
    ensures JoinAll(alg, ps) == Some(ReflexiveJoinAll(alg, ps, ty))
  {
    var n := |ps| - 1;
    if n > 0 {
      NeverPanics(alg, ps[..n], ty);
      ReflexiveAgrees(alg, ReflexiveJoinAll(alg, ps[..n], ty), ps[n]);
    }
  }
}
