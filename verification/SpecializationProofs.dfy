/** What specialization keeps: the meaning of the policy, its typing, and, where no type
    was lost, the policy itself. */
module SpecializationProofs {
  import opened Policies
  import opened Reflection
  import opened Specialization

  // ----- erasure, case by case -----

  function ErasedChildren(p: Policy): Tree
  {
    match p
    case Basic(_) => RLeaf(p)
    case And(p1, p2) => RAnd(Erase(p1), Erase(p2))
    case Or(p1, p2) => ROr(Erase(p1), Erase(p2))
    case Ref(target) => RRef(p, Reflect(target))
    case Opt(_, None) => ROpt(None)
    case Opt(_, Some(q)) => ROpt(Some(Erase(q)))
    case Any(q) => Erase(q)
    case Test(q) => Erase(q)
  }

  lemma {:induction false} EraseShape(p: Policy)
    ensures Erase(p) == ErasedChildren(p)
  {
    match p
    case And(p1, p2) => NormalizePreserves(Reflect(p1)); NormalizePreserves(Reflect(p2));
    case Or(p1, p2) => NormalizePreserves(Reflect(p1)); NormalizePreserves(Reflect(p2));
    case Opt(_, Some(q)) => NormalizePreserves(Reflect(q));
    case Any(q) => NormalizePreserves(Reflect(q));
    case Test(q) => NormalizePreserves(Reflect(q));
    case _ =>
  }

  lemma {:induction false} EraseKeepsCheck(alg: Algebra, p: Policy, c: Context)
    ensures CheckTree(alg, Erase(p), c) == Check(alg, p, c)
  {
    ReflectPreserves(p);
    NormalizePreserves(Reflect(p));
  }

  // ----- refinement of trees -----

  /** No alternative is left to choose from, except behind a reference. */
  predicate OrFree(t: Tree) {
    match t
    case NoReflection(_) => true
    case RLeaf(_) => true
    case RAnd(l, r) => OrFree(l) && OrFree(r)
    case ROr(_, _) => false
    case RRef(_, _) => true
    case ROpt(None) => true
    case ROpt(Some(e)) => OrFree(e)
    case RAny(e) => OrFree(e)
    case RTest(e) => OrFree(e)
  }

  /** All that the proofs below track about a tree in a given context. */
  datatype Meaning = Meaning(permits: bool, orFree: bool)

  function MeaningOf(alg: Algebra, t: Tree, c: Context): Meaning {
    match t
    case NoReflection(p) => Meaning(Check(alg, p, c), true)
    case RLeaf(p) => Meaning(Check(alg, p, c), true)
    case RAnd(l, r) =>
      var m, n := MeaningOf(alg, l, c), MeaningOf(alg, r, c);
      Meaning(m.permits && n.permits, m.orFree && n.orFree)
    case ROr(l, r) =>
      var m, n := MeaningOf(alg, l, c), MeaningOf(alg, r, c);
      Meaning(m.permits || n.permits, false)
    case RRef(p, _) => Meaning(Check(alg, p, c), true)
    case ROpt(None) => Meaning(true, true)
    case ROpt(Some(e)) => MeaningOf(alg, e, c)
    case RAny(e) => MeaningOf(alg, e, c)
    case RTest(e) => MeaningOf(alg, e, c)
  }

  lemma {:induction false} MeaningIs(alg: Algebra, t: Tree, c: Context)
    ensures MeaningOf(alg, t, c) == Meaning(CheckTree(alg, t, c), OrFree(t))
  {
    match t
    case RAnd(l, r) => MeaningIs(alg, l, c); MeaningIs(alg, r, c);
    case ROr(l, r) => MeaningIs(alg, l, c); MeaningIs(alg, r, c);
    case ROpt(Some(e)) => MeaningIs(alg, e, c);
    case RAny(e) => MeaningIs(alg, e, c);
    case RTest(e) => MeaningIs(alg, e, c);
    case _ =>
  }

  /** `m` is at least as strict as `n`, and equally strict when `n` has no alternatives. */
  predicate Below(m: Meaning, n: Meaning) {
    && (m.permits ==> n.permits)
    && (n.orFree ==> m.orFree && m.permits == n.permits)
  }

  predicate Refines(alg: Algebra, c: Context, s: Tree, t: Tree) {
    Below(MeaningOf(alg, s, c), MeaningOf(alg, t, c))
  }

  predicate RefinesPair(alg: Algebra, c: Context, s: (Tree, Tree), l: Tree, r: Tree) {
    Refines(alg, c, s.0, l) && Refines(alg, c, s.1, r)
  }

  /** A successful attempt refines the whole, and a failed one refines the two sides. */
  predicate AttemptRefines(alg: Algebra, c: Context, res: Result<Policy, (Tree, Tree)>, t: Tree, l: Tree, r: Tree) {
    if res.Ok? then Refines(alg, c, Erase(res.value), t)
    else RefinesPair(alg, c, res.error, l, r)
  }

  /** Two half-attempts that refine their sides make a pair that refines both. */
  lemma {:induction false} HalvesRefine(alg: Algebra, c: Context, r1: Result<Policy, Tree>, r2: Result<Policy, Tree>,
      l: Tree, r: Tree)
    requires Refines(alg, c, Remains(r1), l) && Refines(alg, c, Remains(r2), r)
    ensures var h := Halves(r1, r2);
            if h.Ok? then
              && Refines(alg, c, Erase(And(h.value.0, h.value.1)), RAnd(l, r))
              && Refines(alg, c, Erase(Any(And(h.value.0, h.value.1))), RAnd(l, r))
              && Refines(alg, c, Erase(Or(h.value.0, h.value.1)), ROr(l, r))
              && Refines(alg, c, Erase(Any(Or(h.value.0, h.value.1))), ROr(l, r))
            else
              RefinesPair(alg, c, h.error, l, r)
  {
    var h := Halves(r1, r2);
    if h.Ok? {
      EraseShape(And(h.value.0, h.value.1));
      EraseShape(Any(And(h.value.0, h.value.1)));
      EraseShape(Or(h.value.0, h.value.1));
      EraseShape(Any(Or(h.value.0, h.value.1)));
    }
  }

  lemma {:induction false} WrapperRefines(alg: Algebra, c: Context, res: Result<Policy, (Tree, Tree)>, t: Tree,
      l: Tree, r: Tree)
    requires AttemptRefines(alg, c, res, t, l, r)
    ensures res.Ok? ==> Refines(alg, c, Erase(Test(res.value)), t)
  {
    if res.Ok? { EraseShape(Test(res.value)); }
  }

  lemma {:induction false} SidesRefine(alg: Algebra, c: Context, l': Tree, r': Tree, l: Tree, r: Tree)
    requires Refines(alg, c, l', l) && Refines(alg, c, r', r)
    ensures Refines(alg, c, RAnd(l', r'), RAnd(l, r))
    ensures Refines(alg, c, ROr(l', r'), ROr(l, r))
    ensures Refines(alg, c, RAnd(r', l'), RAnd(l, r))
    ensures Refines(alg, c, ROr(r', l'), ROr(l, r))
  {
  }

  lemma {:induction false} RefinesReflexive(alg: Algebra, c: Context, t: Tree)
    ensures Refines(alg, c, t, t)
  {
  }

  lemma {:induction false} RefinesTransitive(alg: Algebra, c: Context, s: Tree, t: Tree, u: Tree)
    requires Refines(alg, c, s, t) && Refines(alg, c, t, u)
    ensures Refines(alg, c, s, u)
  {
  }

  lemma {:induction false} NoPolicyMeans(alg: Algebra, t: Tree, c: Context)
    requires WellFormed(t) && IsNoPolicy(t)
    ensures MeaningOf(alg, t, c).permits
  {
    NoPolicyPermitsAll(alg, t, c);
    MeaningIs(alg, t, c);
  }

  /** A side that permits everything may be dropped from a conjunction. */
  lemma {:induction false} DropSide(alg: Algebra, c: Context, s: Tree, l: Tree, r: Tree)
    ensures MeaningOf(alg, l, c).permits && Refines(alg, c, s, r) ==> Refines(alg, c, s, RAnd(l, r))
    ensures MeaningOf(alg, r, c).permits && Refines(alg, c, s, l) ==> Refines(alg, c, s, RAnd(l, r))
  {
  }

  // ----- the hooks refine -----

  lemma {:induction false} LeafRefines(alg: Algebra, p: Policy, ty: Ty, c: Context)
    requires Atomic(p)
    ensures var r := SpecializeLeaf(p, ty);
            r.Ok? ==> && (Check(alg, r.value, c) == Check(alg, p, c))
                      && Below(MeaningOf(alg, Erase(r.value), c), Meaning(Check(alg, p, c), true))
  {
    match ty
    case TOpt(inner) =>
      if TypeOf(p) == TNo {
        EraseShape(Opt(inner, None));
      } else if TypeOf(p) == inner {
        LeafRefines(alg, p, inner, c);
        var r := SpecializeLeaf(p, inner);
        if r.Ok? { EraseShape(Opt(inner, Some(r.value))); }
      }
    case TTest(inner) =>
      LeafRefines(alg, p, inner, c);
      var r := SpecializeLeaf(p, inner);
      if r.Ok? { EraseShape(Test(r.value)); }
    case TAny => EraseShape(p); EraseShape(Any(p));
    case _ => EraseShape(p);
  }

  lemma {:induction false} AndTypedRefines(alg: Algebra, l: Tree, r: Tree, ty1: Ty, ty2: Ty, c: Context)
    requires Source(l) && Source(r)
    requires Refines(alg, c, Remains(Specialize(l, ty1)), l)
    requires Refines(alg, c, Remains(Specialize(r, ty2)), r)
    ensures AttemptRefines(alg, c, SpecializeAnd(l, r, TAnd(ty1, ty2)), RAnd(l, r), l, r)
  {
    hide Specialize, Refines, Erase, TypeOf, Source, Halves, Remains, RefinesPair, WellTyped, Yields, Nodes;
    HalvesRefine(alg, c, Specialize(l, ty1), Specialize(r, ty2), l, r);
  }

  lemma {:induction false} AndErasedRefines(alg: Algebra, l: Tree, r: Tree, c: Context)
    requires Source(l) && Source(r)
    requires Refines(alg, c, Remains(Specialize(l, TAny)), l)
    requires Refines(alg, c, Remains(Specialize(r, TAny)), r)
    ensures AttemptRefines(alg, c, SpecializeAnd(l, r, TAny), RAnd(l, r), l, r)
  {
    hide Specialize, Refines, Erase, TypeOf, Source, Halves, Remains, RefinesPair, WellTyped, Yields, Nodes;
    HalvesRefine(alg, c, Specialize(l, TAny), Specialize(r, TAny), l, r);
  }

  lemma {:induction false} AndTestRefines(alg: Algebra, l: Tree, r: Tree, inner: Ty, c: Context)
    requires Source(l) && Source(r)
    requires AttemptRefines(alg, c, SpecializeAnd(l, r, inner), RAnd(l, r), l, r)
    ensures AttemptRefines(alg, c, SpecializeAnd(l, r, TTest(inner)), RAnd(l, r), l, r)
  {
    hide Refines, Erase, TypeOf, Source;
    WrapperRefines(alg, c, SpecializeAnd(l, r, inner), RAnd(l, r), l, r);
  }

  lemma {:induction false} AndUnhookedRefines(alg: Algebra, l: Tree, r: Tree, ty: Ty, c: Context)
    requires Source(l) && Source(r)
    requires !ty.TAnd? && !ty.TAny? && !ty.TTest?
    ensures AttemptRefines(alg, c, SpecializeAnd(l, r, ty), RAnd(l, r), l, r)
  {
    RefinesReflexive(alg, c, l);
    RefinesReflexive(alg, c, r);
  }

  lemma {:induction false} AndRefines(alg: Algebra, l: Tree, r: Tree, ty: Ty, c: Context)
    requires Source(l) && Source(r)
    ensures AttemptRefines(alg, c, SpecializeAnd(l, r, ty), RAnd(l, r), l, r)
    decreases 1 + Nodes(l) + Nodes(r), 0, ty, 0
  {
    hide SpecializeAnd, Specialize, AttemptRefines, Refines;
    match ty
    case TAnd(ty1, ty2) =>
      TreeRefines(alg, l, ty1, c);
      TreeRefines(alg, r, ty2, c);
      AndTypedRefines(alg, l, r, ty1, ty2, c);
    case TAny =>
      TreeRefines(alg, l, TAny, c);
      TreeRefines(alg, r, TAny, c);
      AndErasedRefines(alg, l, r, c);
    case TTest(inner) =>
      AndRefines(alg, l, r, inner, c);
      AndTestRefines(alg, l, r, inner, c);
    case _ => AndUnhookedRefines(alg, l, r, ty, c);
  }

  lemma {:induction false} OrTypedRefines(alg: Algebra, l: Tree, r: Tree, ty1: Ty, ty2: Ty, c: Context)
    requires Source(l) && Source(r)
    requires Refines(alg, c, Remains(Specialize(l, ty1)), l)
    requires Refines(alg, c, Remains(Specialize(r, ty2)), r)
    ensures AttemptRefines(alg, c, SpecializeOr(l, r, TOr(ty1, ty2)), ROr(l, r), l, r)
  {
    hide Specialize, Refines, Erase, TypeOf, Source, Halves, Remains, RefinesPair, WellTyped, Yields, Nodes;
    HalvesRefine(alg, c, Specialize(l, ty1), Specialize(r, ty2), l, r);
  }

  lemma {:induction false} OrErasedRefines(alg: Algebra, l: Tree, r: Tree, c: Context)
    requires Source(l) && Source(r)
    requires Refines(alg, c, Remains(Specialize(l, TAny)), l)
    requires Refines(alg, c, Remains(Specialize(r, TAny)), r)
    ensures AttemptRefines(alg, c, SpecializeOr(l, r, TAny), ROr(l, r), l, r)
  {
    hide Specialize, Refines, Erase, TypeOf, Source, Halves, Remains, RefinesPair, WellTyped, Yields, Nodes;
    HalvesRefine(alg, c, Specialize(l, TAny), Specialize(r, TAny), l, r);
  }

  lemma {:induction false} OrTestRefines(alg: Algebra, l: Tree, r: Tree, inner: Ty, c: Context)
    requires Source(l) && Source(r)
    requires AttemptRefines(alg, c, SpecializeOr(l, r, inner), ROr(l, r), l, r)
    ensures AttemptRefines(alg, c, SpecializeOr(l, r, TTest(inner)), ROr(l, r), l, r)
  {
    hide Refines, Erase, TypeOf, Source;
    WrapperRefines(alg, c, SpecializeOr(l, r, inner), ROr(l, r), l, r);
  }

  lemma {:induction false} OrUnhookedRefines(alg: Algebra, l: Tree, r: Tree, ty: Ty, c: Context)
    requires Source(l) && Source(r)
    requires !ty.TOr? && !ty.TAny? && !ty.TTest?
    ensures AttemptRefines(alg, c, SpecializeOr(l, r, ty), ROr(l, r), l, r)
  {
    RefinesReflexive(alg, c, l);
    RefinesReflexive(alg, c, r);
  }

  lemma {:induction false} OrRefines(alg: Algebra, l: Tree, r: Tree, ty: Ty, c: Context)
    requires Source(l) && Source(r)
    ensures AttemptRefines(alg, c, SpecializeOr(l, r, ty), ROr(l, r), l, r)
    decreases 1 + Nodes(l) + Nodes(r), 0, ty, 0
  {
    hide SpecializeOr, Specialize, AttemptRefines, Refines;
    match ty
    case TOr(ty1, ty2) =>
      TreeRefines(alg, l, ty1, c);
      TreeRefines(alg, r, ty2, c);
      OrTypedRefines(alg, l, r, ty1, ty2, c);
    case TAny =>
      TreeRefines(alg, l, TAny, c);
      TreeRefines(alg, r, TAny, c);
      OrErasedRefines(alg, l, r, c);
    case TTest(inner) =>
      OrRefines(alg, l, r, inner, c);
      OrTestRefines(alg, l, r, inner, c);
    case _ => OrUnhookedRefines(alg, l, r, ty, c);
  }

  lemma {:induction false} OptionRefines(alg: Algebra, o: Option<Tree>, ty: Ty, c: Context)
    requires o.Some? ==> Source(o.value)
    ensures match SpecializeOption(o, ty)
            case Ok(p) => Refines(alg, c, Erase(p), ROpt(o))
            case Err(e) => o.Some? ==> Refines(alg, c, e.value, o.value)
    decreases Nodes(ROpt(o)), Chain(ROpt(o)), ty, 0
  {
    match ty
    case TOpt(inner) =>
      if o.Some? {
        TreeRefines(alg, o.value, inner, c);
        var r := Specialize(o.value, inner);
        if r.Ok? { EraseShape(Opt(inner, Some(r.value))); }
      } else {
        EraseShape(Opt(inner, None));
      }
    case TAny =>
      if o.Some? {
        TreeRefines(alg, o.value, TAny, c);
      } else {
        EraseShape(Basic(NoPolicy));
        EraseShape(Any(Basic(NoPolicy)));
      }
    case TTest(inner) =>
      OptionRefines(alg, o, inner, c);
      var r := SpecializeOption(o, inner);
      if r.Ok? { EraseShape(Test(r.value)); }
    case _ =>
  }

  lemma {:induction false} AtomRefines(alg: Algebra, p: Policy, ty: Ty, c: Context)
    requires Atomic(p)
    ensures Refines(alg, c, Remains(LeafOutcome(SpecializeLeaf(p, ty))), RLeaf(p))
  {
    LeafRefines(alg, p, ty, c);
  }

  lemma {:induction false} DropNoPolicyRefines(alg: Algebra, l: Tree, r: Tree, ty: Ty, c: Context)
    requires Source(l) && Source(r)
    ensures Refines(alg, c, Remains(DropNoPolicy(l, r, ty)), RAnd(l, r))
    decreases 1 + Nodes(l) + Nodes(r), 0, ty, 1
  {
    var first := if IsNoPolicy(l) then Specialize(r, ty) else Err(r);
    if IsNoPolicy(l) {
      NoPolicyMeans(alg, l, c);
      TreeRefines(alg, r, ty, c);
    }
    DropSide(alg, c, Remains(first), l, r);
    if first.Err? {
      SecondDropRefines(alg, l, r, first.error, ty, c);
    }
  }

  lemma {:induction false} SecondDropRefines(alg: Algebra, l: Tree, r: Tree, e: Tree, ty: Ty, c: Context)
    requires Source(l) && Source(r) && Source(e) && Refines(alg, c, e, r)
    ensures var second := if IsNoPolicy(e) then Specialize(l, ty) else Err(l);
            if second.Ok? then Refines(alg, c, Remains(second), RAnd(l, r))
            else Refines(alg, c, RAnd(second.error, e), RAnd(l, r))
    decreases 1 + Nodes(l) + Nodes(r), 0, ty, 0
  {
    var second := if IsNoPolicy(e) then Specialize(l, ty) else Err(l);
    if IsNoPolicy(e) {
      NoPolicyMeans(alg, e, c);
      TreeRefines(alg, l, ty, c);
    }
    DropSide(alg, c, Remains(second), l, r);
    if second.Err? { SidesRefine(alg, c, second.error, e, l, r); }
  }

  lemma {:induction false} ConjunctionRefines(alg: Algebra, l: Tree, r: Tree, ty: Ty, c: Context)
    requires Source(l) && Source(r)
    ensures Refines(alg, c, Remains(SpecializeConjunction(l, r, ty)), RAnd(l, r))
    decreases 1 + Nodes(l) + Nodes(r), 0, ty, 2
  {
    hide MeaningOf;
    AndRefines(alg, l, r, ty, c);
    var straight := SpecializeAnd(l, r, ty);
    if straight.Err? {
      var (l1, r1) := straight.error;
      var rest := SpecializeConjunction(l, r, ty);
      AndRefines(alg, r1, l1, ty, c);
      SidesRefine(alg, c, l1, r1, l, r);
      var swapped := SpecializeAnd(r1, l1, ty);
      if swapped.Ok? {
        RefinesTransitive(alg, c, Remains(rest), RAnd(r1, l1), RAnd(l, r));
      } else {
        var (r2, l2) := swapped.error;
        RefinesTransitive(alg, c, l2, l1, l);
        RefinesTransitive(alg, c, r2, r1, r);
        SidesRefine(alg, c, l2, r2, l, r);
        DropNoPolicyRefines(alg, l2, r2, ty, c);
        RefinesTransitive(alg, c, Remains(rest), RAnd(l2, r2), RAnd(l, r));
      }
    }
  }

  lemma {:induction false} PickSideRefines(alg: Algebra, l: Tree, r: Tree, ty: Ty, c: Context)
    requires Source(l) && Source(r)
    ensures Refines(alg, c, Remains(PickSide(l, r, ty)), ROr(l, r))
    decreases 1 + Nodes(l) + Nodes(r), 0, ty, 1
  {
    TreeRefines(alg, l, ty, c);
    TreeRefines(alg, r, ty, c);
  }

  lemma {:induction false} DisjunctionRefines(alg: Algebra, l: Tree, r: Tree, ty: Ty, c: Context)
    requires Source(l) && Source(r)
    ensures Refines(alg, c, Remains(SpecializeDisjunction(l, r, ty)), ROr(l, r))
    decreases 1 + Nodes(l) + Nodes(r), 0, ty, 2
  {
    hide MeaningOf;
    OrRefines(alg, l, r, ty, c);
    var straight := SpecializeOr(l, r, ty);
    if straight.Err? {
      var (l1, r1) := straight.error;
      var rest := SpecializeDisjunction(l, r, ty);
      OrRefines(alg, r1, l1, ty, c);
      SidesRefine(alg, c, l1, r1, l, r);
      var swapped := SpecializeOr(r1, l1, ty);
      if swapped.Ok? {
        RefinesTransitive(alg, c, Remains(rest), ROr(r1, l1), ROr(l, r));
      } else {
        var (r2, l2) := swapped.error;
        RefinesTransitive(alg, c, l2, l1, l);
        RefinesTransitive(alg, c, r2, r1, r);
        SidesRefine(alg, c, l2, r2, l, r);
        PickSideRefines(alg, l2, r2, ty, c);
        RefinesTransitive(alg, c, Remains(rest), ROr(l2, r2), ROr(l, r));
      }
    }
  }

  lemma {:induction false} OptionalRefines(alg: Algebra, o: Option<Tree>, ty: Ty, c: Context)
    requires Source(ROpt(o))
    ensures Refines(alg, c, Remains(SpecializeOptional(o, ty)), ROpt(o))
    decreases Nodes(ROpt(o)), Chain(ROpt(o)), ty, 2
  {
    OptionRefines(alg, o, ty, c);
    var whole := SpecializeOption(o, ty);
    if whole.Err? {
      match whole.error
      case None => AtomRefines(alg, Basic(NoPolicy), ty, c);
      case Some(t) => TreeRefines(alg, t, ty, c);
    }
  }

  /** Whatever a specialization returns, a policy or a tree, refines what it was given. */
  lemma {:induction false} TreeRefines(alg: Algebra, t: Tree, ty: Ty, c: Context)
    requires Source(t)
    ensures Refines(alg, c, Remains(Specialize(t, ty)), t)
    decreases Nodes(t), Chain(t), ty, 3
  {
    match t
    case NoReflection(p) => AtomRefines(alg, p, ty, c);
    case RLeaf(p) => AtomRefines(alg, p, ty, c);
    case RRef(p, _) => AtomRefines(alg, p, ty, c);
    case RAnd(l, r) => ConjunctionRefines(alg, l, r, ty, c);
    case ROr(l, r) => DisjunctionRefines(alg, l, r, ty, c);
    case ROpt(o) => OptionalRefines(alg, o, ty, c);
  }

  // ----- the main results -----

  /** Specialization never weakens a policy.  A success and a failure both leave something
      whose check implies the input's check in every context; without alternatives the two
      checks are the same; and a success has the type that was asked for. */
  lemma {:induction false} SpecializationNeverWeakens(alg: Algebra, t: Tree, ty: Ty, c: Context)
    requires Source(t)
    ensures var res := Specialize(t, ty);
            var outcome := if res.Ok? then Check(alg, res.value, c) else CheckTree(alg, res.error, c);
            && (outcome ==> CheckTree(alg, t, c))
            && (OrFree(t) ==> outcome == CheckTree(alg, t, c))
  {
    var res := Specialize(t, ty);
    TreeRefines(alg, t, ty, c);
    MeaningIs(alg, t, c);
    MeaningIs(alg, Remains(res), c);
    if res.Ok? { EraseKeepsCheck(alg, res.value, c); }
  }

  /** The type-erased policy is the target that no tree resists, and nothing is lost. */
  lemma {:induction false} SpecializeToAny(alg: Algebra, t: Tree, c: Context)
    requires Source(t)
    ensures var res := Specialize(t, TAny);
            res.Ok? && Check(alg, res.value, c) == CheckTree(alg, t, c)
  {
    match t
    case RAnd(l, r) =>
      SpecializeToAny(alg, l, c);
      SpecializeToAny(alg, r, c);
      assert SpecializeAnd(l, r, TAny).Ok?;
    case ROr(l, r) =>
      SpecializeToAny(alg, l, c);
      SpecializeToAny(alg, r, c);
      assert SpecializeOr(l, r, TAny).Ok?;
    case ROpt(Some(e)) =>
      SpecializeToAny(alg, e, c);
      assert SpecializeOption(Some(e), TAny).Ok?;
    case _ =>
  }

  /** Choosing one side of an alternative can make a policy strictly stricter: the
      alternative lets data go here and the policy specialized from it does not. */
  lemma {:induction false} AlternativeMayBeLost()
    ensures exists alg, t, c :: Source(t) && Specialize(t, TCustom(0)).Ok?
              && CheckTree(alg, t, c) && !Check(alg, Specialize(t, TCustom(0)).value, c)
  {
    var alg := Algebra((_, _, _) => true, (tag, _, _) => tag == 1, (_, s, _) => s);
    var strict, lax := Basic(Custom(0, Opaque(0))), Basic(Custom(1, Opaque(0)));
    var t := ROr(RLeaf(strict), RLeaf(lax));
    var c := Context("", Other(0));
    assert Specialize(RLeaf(strict), TCustom(0)) == Ok(strict);
    assert PickSide(RLeaf(strict), RLeaf(lax), TCustom(0)) == Ok(strict);
    assert Specialize(t, TCustom(0)) == Ok(strict);
    assert CheckTree(alg, t, c) && !Check(alg, strict, c);
  }

  // ----- erase and recover -----

  /** The type mentions no type-erased policy, except behind a reference. */
  predicate AnyFree(ty: Ty) {
    match ty
    case TAnd(l, r) => AnyFree(l) && AnyFree(r)
    case TOr(l, r) => AnyFree(l) && AnyFree(r)
    case TOpt(inner) => AnyFree(inner)
    case TTest(inner) => AnyFree(inner)
    case TAny => false
    case _ => true
  }

  /** `q` is `p` with type-erasing wrappers put around any of its parts. */
  predicate Wraps(q: Policy, p: Policy)
    decreases q, p
  {
    || q == p
    || (q.Any? && Wraps(q.erased, p))
    || (match p
        case And(p1, p2) => q.And? && Wraps(q.p1, p1) && Wraps(q.p2, p2)
        case Or(p1, p2) => q.Or? && Wraps(q.p1, p1) && Wraps(q.p2, p2)
        case Opt(_, Some(p')) => q.Opt? && q.policy.Some? && Wraps(q.policy.value, p')
        case Test(p') => q.Test? && Wraps(q.wrapped, p')
        case _ => false)
  }

  lemma {:induction false} WrappersErased(q: Policy, p: Policy)
    requires Wraps(q, p)
    ensures Erase(q) == Erase(p)
    decreases q, p
  {
    EraseShape(q);
    EraseShape(p);
    if q != p {
      if q.Any? && Wraps(q.erased, p) {
        WrappersErased(q.erased, p);
      } else {
        match p
        case And(p1, p2) => WrappersErased(q.p1, p1); WrappersErased(q.p2, p2);
        case Or(p1, p2) => WrappersErased(q.p1, p1); WrappersErased(q.p2, p2);
        case Opt(_, Some(p')) => WrappersErased(q.policy.value, p');
        case Test(p') => WrappersErased(q.wrapped, p');
      }
    }
  }

  /** The hook of the target type that matches the root of `p` rebuilds `p`. */
  lemma {:induction false} RootRecovers(p: Policy)
    requires WellTyped(p) && AnyFree(TypeOf(p))
    ensures match Erase(p)
            case RAnd(l, r) => SpecializeAnd(l, r, TypeOf(p)) == Ok(p)
            case ROr(l, r) => SpecializeOr(l, r, TypeOf(p)) == Ok(p)
            case ROpt(o) => SpecializeOption(o, TypeOf(p)) == Ok(p)
            case RLeaf(q) => SpecializeLeaf(q, TypeOf(p)) == Ok(p)
            case RRef(q, _) => SpecializeLeaf(q, TypeOf(p)) == Ok(p)
            case _ => false
    decreases p, 0
  {
    EraseShape(p);
    match p
    case And(p1, p2) => Recovers(p1); Recovers(p2);
    case Or(p1, p2) => Recovers(p1); Recovers(p2);
    case Opt(_, Some(q)) => Recovers(q);
    case Test(q) => RootRecovers(q);
    case _ =>
  }

  lemma {:induction false} Recovers(p: Policy)
    requires WellTyped(p) && AnyFree(TypeOf(p))
    ensures Specialize(Erase(p), TypeOf(p)) == Ok(p)
    decreases p, 1
  {
    RootRecovers(p);
  }

  /** Erase and recover: a policy whose type mentions no type-erased policy comes back
      unchanged from under any number of wrappers, wherever they were put. */
  lemma {:induction false} EraseAndRecover(q: Policy, p: Policy)
    requires WellTyped(q) && WellTyped(p) && Wraps(q, p) && AnyFree(TypeOf(p))
    ensures SpecializePolicy(q, TypeOf(p)) == Ok(p)
  {
    WrappersErased(q, p);
    Recovers(p);
  }
}
