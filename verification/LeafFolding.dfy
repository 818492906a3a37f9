/** What folding a flat sequence of leaf policies builds: one leaf for each type, in the
    order in which the types first occur. */
module LeafFolding {
  import opened Policies
  import opened Reflection
  import opened Specialization
  import opened SpecializationProofs
  import opened Conjunction
  import Folding

  predicate Joinable(l: Leaf) {
    !l.Custom?
  }

  /** The fold of a vector of containers over leaf policies. */
  function FoldLeaves(alg: Algebra, ls: seq<Leaf>): Policy
    requires |ls| > 0
  {
    var last := Any(Basic(ls[|ls| - 1]));
    if |ls| == 1 then last else JoinDynValue(alg, FoldLeaves(alg, ls[..|ls| - 1]), last)
  }

  /** A left-leaning stack of leaves. */
  function Stack(ls: seq<Leaf>): Policy
    requires |ls| > 0
  {
    var last := Any(Basic(ls[|ls| - 1]));
    if |ls| == 1 then last else Any(And(Stack(ls[..|ls| - 1]), last))
  }

  /** What one more leaf does to the leaves of a stack. */
  function Merge(alg: Algebra, acc: seq<Leaf>, l: Leaf): seq<Leaf>
    requires Joinable(l)
  {
    if acc == [] then [l]
    else if l.NoPolicy? then acc
    else if acc == [NoPolicy] then [l]
    else MergeSimple(alg, acc, l)
  }

  function MergeSimple(alg: Algebra, acc: seq<Leaf>, l: Leaf): seq<Leaf>
    requires l.Simple?
  {
    if acc == [] then [l]
    else if acc[0].Simple? && acc[0].tag == l.tag then
      [Simple(l.tag, alg.join(l.tag, acc[0].state, l.state))] + acc[1..]
    else [acc[0]] + MergeSimple(alg, acc[1..], l)
  }

  function MergeAll(alg: Algebra, ls: seq<Leaf>): seq<Leaf>
    requires forall i | 0 <= i < |ls| :: Joinable(ls[i])
  {
    if ls == [] then [] else Merge(alg, MergeAll(alg, ls[..|ls| - 1]), ls[|ls| - 1])
  }

  predicate Distinct(acc: seq<Leaf>) {
    && (forall i | 0 <= i < |acc| :: acc[i].Simple?)
    && (forall i, j | 0 <= i < j < |acc| :: acc[i].tag != acc[j].tag)
  }

  predicate HasTag(acc: seq<Leaf>, tag: nat) {
    exists i | 0 <= i < |acc| :: acc[i].Simple? && acc[i].tag == tag
  }

  // ----- one step -----

  lemma {:induction false} StackShape(acc: seq<Leaf>)
    requires |acc| > 0 && Distinct(acc)
    ensures WellTyped(Stack(acc))
    ensures !IsNoPolicy(Erase(Stack(acc)))
    ensures Erase(Stack(acc)).RLeaf? <==> |acc| == 1
    ensures |acc| == 1 ==> Erase(Stack(acc)) == RLeaf(Basic(acc[0]))
  {
    var n := |acc| - 1;
    EraseShape(Basic(acc[n]));
    EraseShape(Any(Basic(acc[n])));
    if n > 0 {
      StackShape(acc[..n]);
      EraseShape(And(Stack(acc[..n]), Any(Basic(acc[n]))));
      EraseShape(Stack(acc));
    }
  }

  lemma {:induction false} MergeSimpleAtEnd(alg: Algebra, acc: seq<Leaf>, last: Leaf, l: Leaf)
    requires l.Simple?
    ensures HasTag(acc, l.tag) ==> MergeSimple(alg, acc + [last], l) == MergeSimple(alg, acc, l) + [last]
    ensures !HasTag(acc, l.tag) ==> MergeSimple(alg, acc, l) == acc + [l]
    ensures !HasTag(acc, l.tag) ==> MergeSimple(alg, acc + [last], l) == acc + MergeSimple(alg, [last], l)
    ensures |MergeSimple(alg, acc, l)| == if HasTag(acc, l.tag) then |acc| else |acc| + 1
  {
    if acc == [] {
      assert [] + [last] == [last];
    } else {
      MergeSimpleAtEnd(alg, acc[1..], last, l);
      assert (acc + [last])[1..] == acc[1..] + [last];
      assert acc == [acc[0]] + acc[1..];
      assert HasTag(acc, l.tag) <==> (acc[0].Simple? && acc[0].tag == l.tag) || HasTag(acc[1..], l.tag);
    }
  }

  /** A leaf whose type is in the stack is joined into the leaf of that type. */
  lemma {:induction false} StackAbsorbs(alg: Algebra, acc: seq<Leaf>, l: Leaf)
    requires |acc| > 0 && Distinct(acc) && l.Simple?
    ensures CanJoin(Stack(acc), RLeaf(Basic(l))) <==> HasTag(acc, l.tag)
    ensures HasTag(acc, l.tag) ==>
              |MergeSimple(alg, acc, l)| == |acc| &&
              Joined(alg, Stack(acc), RLeaf(Basic(l))) == Stack(MergeSimple(alg, acc, l))
  {
    hide CanJoin, Joined, MergeSimple, Stack;
    var n := |acc| - 1;
    var front, last := acc[..n], acc[n];
    assert acc == front + [last];
    StackEnds(front, last);
    MergeSimpleAtEnd(alg, front, last, l);
    LeafAbsorbs(alg, last, l);
    assert HasTag(acc, l.tag) <==> HasTag(front, l.tag) || last.tag == l.tag;
    if n == 0 {
      assert acc == [last] && !HasTag(front, l.tag);
      MergeSingle(alg, last, l);
      if last.tag == l.tag {
        var merged := MergeSimple(alg, [last], l)[0];
        StackEnds([], merged);
        assert [] + [merged] == MergeSimple(alg, acc, l);
      }
    } else {
      StackAbsorbs(alg, front, l);
      PairAbsorbs(alg, Stack(front), Any(Basic(last)), RLeaf(Basic(l)));
      if HasTag(front, l.tag) {
        StackEnds(MergeSimple(alg, front, l), last);
      } else if last.tag == l.tag {
        MergeSingle(alg, last, l);
        StackEnds(front, MergeSimple(alg, [last], l)[0]);
      }
    }
  }

  lemma {:induction false} StackEnds(front: seq<Leaf>, last: Leaf)
    ensures Stack(front + [last]) ==
              if front == [] then Any(Basic(last)) else Any(And(Stack(front), Any(Basic(last))))
  {
    assert (front + [last])[..|front|] == front;
  }

  lemma {:induction false} MergeSingle(alg: Algebra, last: Leaf, l: Leaf)
    requires last.Simple? && l.Simple?
    ensures last.tag == l.tag ==> MergeSimple(alg, [last], l) == [Simple(l.tag, alg.join(l.tag, last.state, l.state))]
  {
  }

  lemma {:induction false} LeafAbsorbs(alg: Algebra, last: Leaf, l: Leaf)
    requires last.Simple? && l.Simple?
    ensures CanJoin(Any(Basic(last)), RLeaf(Basic(l))) <==> last.tag == l.tag
    ensures last.tag == l.tag ==>
              Joined(alg, Any(Basic(last)), RLeaf(Basic(l))) == Any(Basic(MergeSimple(alg, [last], l)[0]))
  {
    assert CanJoin(Basic(last), RLeaf(Basic(l))) <==> last.tag == l.tag;
  }

  lemma {:induction false} PairAbsorbs(alg: Algebra, p: Policy, q: Policy, t: Tree)
    requires t.RLeaf?
    ensures CanJoin(Any(And(p, q)), t) <==> CanJoin(p, t) || CanJoin(q, t)
    ensures CanJoin(p, t) ==> Joined(alg, Any(And(p, q)), t) == Any(And(Joined(alg, p, t), q))
    ensures !CanJoin(p, t) && CanJoin(q, t) ==> Joined(alg, Any(And(p, q)), t) == Any(And(p, Joined(alg, q, t)))
  {
    assert CanJoin(And(p, q), t) <==> CanJoin(p, t) || CanJoin(q, t);
  }

  lemma {:induction false} StackAbsorbsNoPolicy(alg: Algebra, acc: seq<Leaf>)
    requires |acc| > 0 && Distinct(acc)
    ensures CanJoin(Stack(acc), RLeaf(Basic(NoPolicy)))
    ensures Joined(alg, Stack(acc), RLeaf(Basic(NoPolicy))) == Stack(acc)
  {
    if |acc| > 1 { StackAbsorbsNoPolicy(alg, acc[..|acc| - 1]); }
  }

  lemma {:induction false} StepIsMerge(alg: Algebra, acc: seq<Leaf>, l: Leaf)
    requires Joinable(l) && (acc == [NoPolicy] || (|acc| > 0 && Distinct(acc)))
    ensures |Merge(alg, acc, l)| > 0
    ensures JoinDynValue(alg, Stack(acc), Any(Basic(l))) == Stack(Merge(alg, acc, l))
  {
    EraseShape(Basic(l));
    EraseShape(Any(Basic(l)));
    if acc == [NoPolicy] {
      EraseShape(Basic(NoPolicy));
      EraseShape(Any(Basic(NoPolicy)));
      assert Erase(Stack(acc)) == RLeaf(Basic(NoPolicy));
      assert CanJoin(Basic(NoPolicy), RLeaf(Basic(l))) <==> l.NoPolicy?;
      assert CanJoin(Basic(l), RLeaf(Basic(NoPolicy)));
      assert Joined(alg, Basic(l), RLeaf(Basic(NoPolicy))) == Basic(l);
    } else if l.NoPolicy? {
      StackAbsorbsNoPolicy(alg, acc);
    } else {
      StackAbsorbs(alg, acc, l);
      MergeSimpleAtEnd(alg, acc, l, l);
      StackShape(acc);
      if !HasTag(acc, l.tag) {
        assert !CanJoin(Any(Basic(l)), Erase(Stack(acc)));
        assert (acc + [l])[..|acc|] == acc;
      }
    }
  }

  // ----- whole sequences -----

  lemma {:induction false} MergeSimpleDistinct(alg: Algebra, acc: seq<Leaf>, l: Leaf)
    requires Distinct(acc) && l.Simple?
    ensures Distinct(MergeSimple(alg, acc, l))
    ensures forall t: nat :: HasTag(MergeSimple(alg, acc, l), t) <==> HasTag(acc, t) || t == l.tag
  {
    hide Stack, Joined, CanJoin;
    var m := MergeSimple(alg, acc, l);
    if acc != [] {
      var rest := acc[1..];
      MergeSimpleDistinct(alg, rest, l);
      assert forall t: nat :: HasTag(acc, t) <==> acc[0].tag == t || HasTag(rest, t);
      assert m[1..] == if acc[0].tag == l.tag then rest else MergeSimple(alg, rest, l);
      assert forall t: nat :: HasTag(m, t) <==> m[0].tag == t || HasTag(m[1..], t);
      assert !HasTag(rest, acc[0].tag);
      assert forall i | 1 <= i < |m| :: m[i] == m[1..][i - 1] && HasTag(m[1..], m[i].tag);
    } else {
      assert m[0].tag == l.tag;
    }
  }

  ghost predicate Shape(acc: seq<Leaf>) {
    acc == [NoPolicy] || (|acc| > 0 && Distinct(acc))
  }

  lemma {:induction false} FoldIsStack(alg: Algebra, ls: seq<Leaf>)
    requires |ls| > 0 && forall i | 0 <= i < |ls| :: Joinable(ls[i])
    ensures Shape(MergeAll(alg, ls))
    ensures FoldLeaves(alg, ls) == Stack(MergeAll(alg, ls))
  {
    var n := |ls| - 1;
    if n == 0 {
      assert ls[..0] == [];
      assert MergeAll(alg, ls) == [ls[0]];
    } else {
      FoldIsStack(alg, ls[..n]);
      var acc := MergeAll(alg, ls[..n]);
      StepIsMerge(alg, acc, ls[n]);
      if acc != [NoPolicy] && ls[n].Simple? { MergeSimpleDistinct(alg, acc, ls[n]); }
    }
  }

  /** The types of the simple leaves, in the order of their first occurrence. */
  function FirstTags(ls: seq<Leaf>): seq<nat> {
    if ls == [] then []
    else
      var tags, last := FirstTags(ls[..|ls| - 1]), ls[|ls| - 1];
      if last.Simple? && last.tag !in tags then tags + [last.tag] else tags
  }

  /** The states of all leaves of one type, joined from left to right. */
  function JoinedState(alg: Algebra, ls: seq<Leaf>, tag: nat): Option<State> {
    if ls == [] then None
    else
      var before, last := JoinedState(alg, ls[..|ls| - 1], tag), ls[|ls| - 1];
      if last.Simple? && last.tag == tag then
        Some(if before.Some? then alg.join(tag, before.value, last.state) else last.state)
      else before
  }

  /** The leaves that `MergeAll` keeps, described without the algorithm. */
  function Summary(alg: Algebra, ls: seq<Leaf>, tags: seq<nat>): seq<Leaf>
    requires forall t | t in tags :: JoinedState(alg, ls, t).Some?
  {
    seq(|tags|, i requires 0 <= i < |tags| => Simple(tags[i], JoinedState(alg, ls, tags[i]).value))
  }

  lemma {:induction false} FirstTagsHaveStates(alg: Algebra, ls: seq<Leaf>)
    ensures forall t: nat :: t in FirstTags(ls) <==> JoinedState(alg, ls, t).Some?
    ensures forall i, j | 0 <= i < j < |FirstTags(ls)| :: FirstTags(ls)[i] != FirstTags(ls)[j]
  {
    if ls != [] { FirstTagsHaveStates(alg, ls[..|ls| - 1]); }
  }

  /** Where the leaf of type `l.tag` is, `MergeSimple` changes that leaf only. */
  lemma {:induction false} MergeSimpleAt(alg: Algebra, acc: seq<Leaf>, l: Leaf, k: nat)
    requires Distinct(acc) && l.Simple? && k < |acc| && acc[k].tag == l.tag
    ensures MergeSimple(alg, acc, l) == acc[k := Simple(l.tag, alg.join(l.tag, acc[k].state, l.state))]
  {
    if k > 0 {
      assert acc[0].tag != l.tag;
      MergeSimpleAt(alg, acc[1..], l, k - 1);
    }
  }

  lemma {:induction false} SummaryStep(alg: Algebra, front: seq<Leaf>, l: Leaf)
    requires l.Simple?
    requires forall t | t in FirstTags(front) :: JoinedState(alg, front, t).Some?
    requires forall t | t in FirstTags(front + [l]) :: JoinedState(alg, front + [l], t).Some?
    ensures MergeSimple(alg, Summary(alg, front, FirstTags(front)), l)
            == Summary(alg, front + [l], FirstTags(front + [l]))
  {
    FirstTagsHaveStates(alg, front);
    var tags := FirstTags(front);
    var acc := Summary(alg, front, tags);
    assert (front + [l])[..|front|] == front;
    if l.tag in tags {
      var k :| 0 <= k < |tags| && tags[k] == l.tag;
      MergeSimpleAt(alg, acc, l, k);
    } else {
      assert !HasTag(acc, l.tag);
      MergeSimpleAtEnd(alg, acc, l, l);
    }
  }

  lemma {:induction false} MergeAllIsSummary(alg: Algebra, ls: seq<Leaf>)
    requires |ls| > 0 && forall i | 0 <= i < |ls| :: Joinable(ls[i])
    ensures forall t | t in FirstTags(ls) :: JoinedState(alg, ls, t).Some?
    ensures MergeAll(alg, ls) ==
              if FirstTags(ls) == [] then [NoPolicy] else Summary(alg, ls, FirstTags(ls))
  {
    FirstTagsHaveStates(alg, ls);
    var n := |ls| - 1;
    var front, l := ls[..n], ls[n];
    FirstTagsHaveStates(alg, front);
    if n == 0 {
      assert front == [];
      assert MergeAll(alg, ls) == [l];
    } else {
      MergeAllIsSummary(alg, front);
      if l.Simple? && FirstTags(front) != [] {
        assert ls == front + [l];
        SummaryStep(alg, front, l);
      }
    }
  }

  /** Folding leaves yields a stack of exactly one leaf for each simple policy type, in the
      order of first occurrence; the state of each leaf is the join from left to right of
      all leaves of that type, and every no-policy is absorbed. */
  lemma {:induction false} FoldOfLeaves(alg: Algebra, ls: seq<Leaf>)
    requires |ls| > 0 && forall i | 0 <= i < |ls| :: Joinable(ls[i])
    ensures forall t | t in FirstTags(ls) :: JoinedState(alg, ls, t).Some?
    ensures FoldLeaves(alg, ls) ==
              Stack(if FirstTags(ls) == [] then [NoPolicy] else Summary(alg, ls, FirstTags(ls)))
  {
    FoldIsStack(alg, ls);
    MergeAllIsSummary(alg, ls);
  }

  /** The vector fold of containers over leaf policies is the fold above. */
  lemma {:induction false} FoldVecOfLeaves(alg: Algebra, ls: seq<Leaf>, v: seq<(Folding.Data, Policy)>, n: nat)
    requires |v| == |ls| && 0 < n <= |ls|
    requires forall i | 0 <= i < |ls| :: v[i].1 == Basic(ls[i])
    ensures Folding.CollectedPrefix(alg, Folding.PConItems(v), n) == Some(FoldLeaves(alg, ls[..n]))
  {
    assert ls[..n][..n - 1] == ls[..n - 1];
    if n == 1 {
      assert Folding.CollectedPrefix(alg, Folding.PConItems(v), 0) == None;
    } else {
      FoldVecOfLeaves(alg, ls, v, n - 1);
    }
  }
}
