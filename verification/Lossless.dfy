/** The target types that lose nothing: at these, specialization keeps the check of a policy with
    alternatives too, and at all others it can pick a side. */
module Lossless {
  import opened Policies
  import opened Reflection
  import opened Specialization
  import opened SpecializationProofs

  // ----- the types -----

  /** The type-erased policy, under any number of test wrappers. */
  predicate Erasing(ty: Ty) {
    ty.TAny? || (ty.TTest? && Erasing(ty.inner))
  }

  /** Types whose values all permit everything. */
  predicate Permissive(ty: Ty) {
    match ty
    case TNo => true
    case TAnd(l, r) => Permissive(l) && Permissive(r)
    case TOr(l, r) => Permissive(l) || Permissive(r)
    case TRef(target) => Permissive(target)
    case TOpt(inner) => Permissive(inner)
    case TTest(inner) => Permissive(inner)
    case _ => false
  }

  /** Alternatives of type-erased policies, nested on one side only. */
  predicate Comb(ty: Ty) {
    match ty
    case TOr(l, r) => (Erasing(l) && (Erasing(r) || Comb(r))) || (Comb(l) && Erasing(r))
    case TTest(inner) => Comb(inner)
    case _ => false
  }

  // ----- test wrappers -----

  function Tested(r: Result<Policy, Tree>): Result<Policy, Tree> {
    match r
    case Ok(p) => Ok(Test(p))
    case Err(e) => Err(e)
  }

  /** The same for attempts on both sides. */
  predicate TestedPair(s: Result<Policy, (Tree, Tree)>, r: Result<Policy, (Tree, Tree)>) {
    && s.Ok? == r.Ok?
    && (if r.Ok? then s.value == Test(r.value) else s.error == r.error)
  }

  /** The attempts on both sides at once, one way and then the other: what they hand back is in the
      order of the second. */
  function AndBothWays(l: Tree, r: Tree, ty: Ty): (res: Result<Policy, (Tree, Tree)>)
    requires Source(l) && Source(r)
    ensures res.Err? ==> Source(res.error.0) && Nodes(res.error.0) <= Nodes(r)
    ensures res.Err? ==> Source(res.error.1) && Nodes(res.error.1) <= Nodes(l)
  {
    var straight := SpecializeAnd(l, r, ty);
    if straight.Ok? then straight else SpecializeAnd(straight.error.1, straight.error.0, ty)
  }

  function OrBothWays(l: Tree, r: Tree, ty: Ty): (res: Result<Policy, (Tree, Tree)>)
    requires Source(l) && Source(r)
    ensures res.Err? ==> Source(res.error.0) && Nodes(res.error.0) <= Nodes(r)
    ensures res.Err? ==> Source(res.error.1) && Nodes(res.error.1) <= Nodes(l)
  {
    var straight := SpecializeOr(l, r, ty);
    if straight.Ok? then straight else SpecializeOr(straight.error.1, straight.error.0, ty)
  }

  lemma {:induction false} ConjunctionIs(l: Tree, r: Tree, ty: Ty)
    requires Source(l) && Source(r)
    ensures Specialize(RAnd(l, r), ty) ==
              match AndBothWays(l, r, ty)
              case Ok(p) => Ok(p)
              case Err(e) => DropNoPolicy(e.1, e.0, ty)
  {
    hide SpecializeAnd, DropNoPolicy;
  }

  lemma {:induction false} DisjunctionIs(l: Tree, r: Tree, ty: Ty)
    requires Source(l) && Source(r)
    ensures Specialize(ROr(l, r), ty) ==
              match OrBothWays(l, r, ty)
              case Ok(p) => Ok(p)
              case Err(e) => PickSide(e.1, e.0, ty)
  {
    hide SpecializeOr, PickSide;
  }

  lemma {:induction false} PairOfTest(l: Tree, r: Tree, ty: Ty)
    requires Source(l) && Source(r)
    ensures TestedPair(SpecializeAnd(l, r, TTest(ty)), SpecializeAnd(l, r, ty))
    ensures TestedPair(SpecializeOr(l, r, TTest(ty)), SpecializeOr(l, r, ty))
  {
    hide Specialize, Halves;
  }

  lemma {:induction false} AndOfTest(l: Tree, r: Tree, ty: Ty)
    requires Source(l) && Source(r)
    ensures TestedPair(AndBothWays(l, r, TTest(ty)), AndBothWays(l, r, ty))
  {
    hide SpecializeAnd, Yields, Source, Nodes;
    PairOfTest(l, r, ty);
    var straight := SpecializeAnd(l, r, ty);
    if straight.Err? { PairOfTest(straight.error.1, straight.error.0, ty); }
  }

  lemma {:induction false} OrOfTest(l: Tree, r: Tree, ty: Ty)
    requires Source(l) && Source(r)
    ensures TestedPair(OrBothWays(l, r, TTest(ty)), OrBothWays(l, r, ty))
  {
    hide SpecializeOr, Yields, Source, Nodes;
    PairOfTest(l, r, ty);
    var straight := SpecializeOr(l, r, ty);
    if straight.Err? { PairOfTest(straight.error.1, straight.error.0, ty); }
  }

  lemma {:induction false} DropOfTest(l: Tree, r: Tree, ty: Ty)
    requires Source(l) && Source(r)
    requires Specialize(l, TTest(ty)) == Tested(Specialize(l, ty))
    requires Specialize(r, TTest(ty)) == Tested(Specialize(r, ty))
    ensures DropNoPolicy(l, r, TTest(ty)) == Tested(DropNoPolicy(l, r, ty))
  {
    hide Specialize, IsNoPolicy, Source, HandsBack, Yields, Nodes;
    if IsNoPolicy(l) {
      if Specialize(r, ty).Ok? {
        assert DropNoPolicy(l, r, ty) == Specialize(r, ty);
      }
    }
  }

  lemma {:induction false} PickOfTest(l: Tree, r: Tree, ty: Ty)
    requires Source(l) && Source(r)
    requires Specialize(l, TTest(ty)) == Tested(Specialize(l, ty))
    requires Specialize(r, TTest(ty)) == Tested(Specialize(r, ty))
    ensures PickSide(l, r, TTest(ty)) == Tested(PickSide(l, r, ty))
  {
    hide Specialize, Source, HandsBack, Yields, Nodes;
  }

  /** A test wrapper in the target changes nothing but the type of a success. */
  lemma {:induction false} TestTransparent(t: Tree, ty: Ty)
    requires Source(t)
    ensures Specialize(t, TTest(ty)) == Tested(Specialize(t, ty))
    decreases Nodes(t), Chain(t), 1
  {
    match t
    case RAnd(l, r) => TestOfConjunction(l, r, ty);
    case ROr(l, r) => TestOfDisjunction(l, r, ty);
    case ROpt(o) => TestOfOption(o, ty);
    case _ =>
  }

  lemma {:induction false} TestOfConjunction(l: Tree, r: Tree, ty: Ty)
    requires Source(l) && Source(r)
    ensures Specialize(RAnd(l, r), TTest(ty)) == Tested(Specialize(RAnd(l, r), ty))
    decreases 1 + Nodes(l) + Nodes(r), 0, 0
  {
    hide Specialize, AndBothWays, DropNoPolicy, Source;
    ConjunctionIs(l, r, ty);
    ConjunctionIs(l, r, TTest(ty));
    AndOfTest(l, r, ty);
    var both := AndBothWays(l, r, ty);
    if both.Err? {
      TestTransparent(both.error.0, ty);
      TestTransparent(both.error.1, ty);
      DropOfTest(both.error.1, both.error.0, ty);
    }
  }

  lemma {:induction false} TestOfDisjunction(l: Tree, r: Tree, ty: Ty)
    requires Source(l) && Source(r)
    ensures Specialize(ROr(l, r), TTest(ty)) == Tested(Specialize(ROr(l, r), ty))
    decreases 1 + Nodes(l) + Nodes(r), 0, 0
  {
    hide Specialize, OrBothWays, PickSide, Source;
    DisjunctionIs(l, r, ty);
    DisjunctionIs(l, r, TTest(ty));
    OrOfTest(l, r, ty);
    var both := OrBothWays(l, r, ty);
    if both.Err? {
      TestTransparent(both.error.0, ty);
      TestTransparent(both.error.1, ty);
      PickOfTest(both.error.1, both.error.0, ty);
    }
  }

  lemma {:induction false} TestOfOption(o: Option<Tree>, ty: Ty)
    requires Source(ROpt(o))
    ensures Specialize(ROpt(o), TTest(ty)) == Tested(Specialize(ROpt(o), ty))
    decreases Nodes(ROpt(o)), Chain(ROpt(o)), 0
  {
    var whole := SpecializeOption(o, ty);
    OptionOfTest(o, ty);
    if whole.Err? {
      match whole.error
      case None => LeafOfTest(Basic(NoPolicy), ty);
      case Some(t) => TestTransparent(t, ty);
    }
  }

  lemma {:induction false} OptionOfTest(o: Option<Tree>, ty: Ty)
    requires Source(ROpt(o))
    ensures SpecializeOption(o, TTest(ty)) ==
              match SpecializeOption(o, ty) case Ok(p) => Ok(Test(p)) case Err(e) => Err(e)
  {
    hide Specialize;
  }

  lemma {:induction false} LeafOfTest(p: Policy, ty: Ty)
    requires Atomic(p)
    ensures SpecializeLeaf(p, TTest(ty)) ==
              match SpecializeLeaf(p, ty) case Ok(q) => Ok(Test(q)) case Err(q) => Err(q)
  {
  }

  // ----- types without a choice -----

  lemma {:induction false} PermissiveChecks(alg: Algebra, p: Policy, c: Context)
    requires WellTyped(p) && Permissive(TypeOf(p))
    ensures Check(alg, p, c)
  {
    match p
    case And(p1, p2) => PermissiveChecks(alg, p1, c); PermissiveChecks(alg, p2, c);
    case Or(p1, p2) =>
      if Permissive(TypeOf(p1)) { PermissiveChecks(alg, p1, c); } else { PermissiveChecks(alg, p2, c); }
    case Ref(target) => PermissiveChecks(alg, target, c);
    case Opt(_, Some(q)) => PermissiveChecks(alg, q, c);
    case Test(q) => PermissiveChecks(alg, q, c);
    case _ =>
  }

  /** These targets lose nothing of any tree: at the erasing ones specialization succeeds, and a
      success has exactly the input's check. */
  lemma {:induction false} LosslessTargets(alg: Algebra, t: Tree, ty: Ty, c: Context)
    requires Source(t) && (Erasing(ty) || Permissive(ty))
    ensures Erasing(ty) ==> Specialize(t, ty).Ok?
    ensures Specialize(t, ty).Ok? ==> Check(alg, Specialize(t, ty).value, c) == CheckTree(alg, t, c)
    decreases ty
  {
    if ty.TAny? {
      SpecializeToAny(alg, t, c);
    } else if Erasing(ty) {
      TestTransparent(t, ty.inner);
      LosslessTargets(alg, t, ty.inner, c);
    } else if Specialize(t, ty).Ok? {
      SpecializationNeverWeakens(alg, t, ty, c);
      PermissiveChecks(alg, Specialize(t, ty).value, c);
    }
  }

  // ----- what combs leave of a tree -----

  /** Permits everything, wherever the policy that does is held. */
  predicate Vacuous(t: Tree) {
    match t
    case NoReflection(p) => VacuousLeaf(p)
    case RLeaf(p) => VacuousLeaf(p)
    case RAnd(l, r) => Vacuous(l) && Vacuous(r)
    case ROr(l, r) => Vacuous(l) || Vacuous(r)
    case RRef(p, _) => VacuousLeaf(p)
    case ROpt(None) => true
    case ROpt(Some(e)) => Vacuous(e)
    case RAny(e) => Vacuous(e)
    case RTest(e) => Vacuous(e)
  }

  predicate VacuousLeaf(p: Policy) {
    p == Basic(NoPolicy) || (p.Ref? && IsNoPolicy(Reflect(p.target)))
  }

  /** How deeply alternatives are nested in a tree without the vacuous sides of its conjunctions. */
  function Level(t: Tree): nat {
    match t
    case RAnd(l, r) => if Vacuous(l) then Level(r) else if Vacuous(r) then Level(l) else 0
    case ROr(l, r) => 1 + Larger(Level(l), Level(r))
    case ROpt(Some(e)) => Level(e)
    case _ => 0
  }

  function Larger(a: nat, b: nat): nat { if a < b then b else a }

  /** Vacuous sides of conjunctions are known to be no-policies. */
  predicate Clean(t: Tree) {
    match t
    case RAnd(l, r) =>
      && Clean(l) && Clean(r)
      && (Vacuous(l) && !Vacuous(r) ==> IsNoPolicy(l))
      && (Vacuous(r) && !Vacuous(l) ==> IsNoPolicy(r))
    case ROr(l, r) => Clean(l) && Clean(r)
    case ROpt(Some(e)) => Clean(e)
    case _ => true
  }

  /** How deeply the alternatives of a comb are nested. */
  function Depth(ty: Ty): nat {
    match ty
    case TOr(l, r) => 1 + Larger(Depth(l), Depth(r))
    case TTest(inner) => Depth(inner)
    case _ => 0
  }

  lemma {:induction false} NoPolicyIsVacuous(t: Tree)
    requires Source(t)
    ensures IsNoPolicy(t) ==> Vacuous(t)
  {
    match t
    case RAnd(l, r) => NoPolicyIsVacuous(l); NoPolicyIsVacuous(r);
    case ROr(l, r) => NoPolicyIsVacuous(l); NoPolicyIsVacuous(r);
    case ROpt(Some(e)) => NoPolicyIsVacuous(e);
    case _ =>
  }

  lemma {:induction false} VacuousPermits(alg: Algebra, t: Tree, c: Context)
    requires Source(t) && Vacuous(t)
    ensures CheckTree(alg, t, c)
  {
    match t
    case NoReflection(p) => LeafPermits(alg, p, c);
    case RLeaf(p) => LeafPermits(alg, p, c);
    case RRef(p, _) => LeafPermits(alg, p, c);
    case RAnd(l, r) => VacuousPermits(alg, l, c); VacuousPermits(alg, r, c);
    case ROr(l, r) => if Vacuous(l) { VacuousPermits(alg, l, c); } else { VacuousPermits(alg, r, c); }
    case ROpt(Some(e)) => VacuousPermits(alg, e, c);
    case _ =>
  }

  lemma {:induction false} LeafPermits(alg: Algebra, p: Policy, c: Context)
    requires Atomic(p) && VacuousLeaf(p)
    ensures Check(alg, p, c)
  {
    if p.Ref? {
      ReflectPreserves(p.target);
      NoPolicyPermitsAll(alg, Reflect(p.target), c);
    }
  }

  /** What is left of `t` can be tried again with the same result. */
  predicate Unharmed(u: Tree, t: Tree) {
    Vacuous(u) == Vacuous(t) && Level(u) == Level(t) && (Clean(t) ==> Clean(u))
  }

  /** Erasing leaves a tree as it is, and may find out that it is a no-policy. */
  lemma {:induction false} AnyKeeps(t: Tree)
    requires Source(t)
    ensures var r := Specialize(t, TAny);
            r.Ok? && Unharmed(Erase(r.value), t) && (IsNoPolicy(t) ==> IsNoPolicy(Erase(r.value)))
  {
    match t
    case RAnd(l, r) => AnyKeeps(l); AnyKeeps(r); AnyOfPair(l, r);
    case ROr(l, r) => AnyKeeps(l); AnyKeeps(r); AnyOfPair(l, r);
    case ROpt(o) =>
      if o.Some? { AnyKeeps(o.value); }
      assert SpecializeOption(o, TAny).Ok?;
      EraseShape(Any(Basic(NoPolicy)));
      EraseShape(Basic(NoPolicy));
    case NoReflection(p) => ErasedLeaf(p);
    case RLeaf(p) => ErasedLeaf(p);
    case RRef(p, _) => ErasedLeaf(p);
  }

  lemma {:induction false} AnyOfPair(l: Tree, r: Tree)
    requires Source(l) && Source(r) && Specialize(l, TAny).Ok? && Specialize(r, TAny).Ok?
    ensures var p, q := Erase(Specialize(l, TAny).value), Erase(Specialize(r, TAny).value);
            && Specialize(RAnd(l, r), TAny).Ok? && Erase(Specialize(RAnd(l, r), TAny).value) == RAnd(p, q)
            && Specialize(ROr(l, r), TAny).Ok? && Erase(Specialize(ROr(l, r), TAny).value) == ROr(p, q)
  {
    hide Specialize;
    var p, q := Specialize(l, TAny).value, Specialize(r, TAny).value;
    ConjunctionIs(l, r, TAny);
    DisjunctionIs(l, r, TAny);
    EraseShape(Any(And(p, q)));
    EraseShape(Any(Or(p, q)));
    EraseShape(And(p, q));
    EraseShape(Or(p, q));
  }

  lemma {:induction false} ErasedLeaf(p: Policy)
    requires Atomic(p)
    ensures Erase(Any(p)) == if p.Ref? then RRef(p, Reflect(p.target)) else RLeaf(p)
  {
    EraseShape(Any(p));
    EraseShape(p);
  }

  /** Policies reflect into clean trees. */
  lemma {:induction false} EraseClean(p: Policy)
    requires WellTyped(p)
    ensures Clean(Erase(p)) && (Vacuous(Erase(p)) <==> IsNoPolicy(Erase(p)))
  {
    EraseShape(p);
    match p
    case And(p1, p2) => EraseClean(p1); EraseClean(p2);
    case Or(p1, p2) => EraseClean(p1); EraseClean(p2);
    case Opt(_, Some(q)) => EraseClean(q);
    case Any(q) => EraseClean(q);
    case Test(q) => EraseClean(q);
    case _ =>
  }

  // ----- combs lose nothing -----

  /** A comb takes exactly the trees whose alternatives are nested as deeply, except for vacuous
      ones, and hands back what it does not take. */
  predicate Kept(t: Tree, ty: Ty)
    requires Source(t)
  {
    var r := Specialize(t, ty);
    && (Erasing(ty) ==> r.Ok?)
    && (r.Err? || Erasing(ty) ==> Unharmed(Remains(r), t))
    && (!Vacuous(t) ==> (r.Ok? <==> Depth(ty) <= Level(t)))
  }

  /** And either way it keeps the check. */
  ghost predicate SameCheck(alg: Algebra, t: Tree, ty: Ty, c: Context)
    requires Source(t)
  {
    CheckTree(alg, Remains(Specialize(t, ty)), c) == CheckTree(alg, t, c)
  }

  lemma {:induction false} Keeps(alg: Algebra, t: Tree, ty: Ty, c: Context)
    requires Source(t) && Clean(t) && (Erasing(ty) || Comb(ty))
    ensures Kept(t, ty) && SameCheck(alg, t, ty, c)
    decreases Nodes(t), Chain(t), ty, 1
  {
    match ty
    case TAny => ErasingKeeps(alg, t, c);
    case TTest(inner) => Keeps(alg, t, inner, c); TestKeeps(alg, t, inner, c);
    case TOr(_, _) =>
      match t {
        case RAnd(l, r) => AndKeeps(alg, l, r, ty, c);
        case ROr(l, r) => OrKeeps(alg, l, r, ty, c);
        case ROpt(Some(e)) => Keeps(alg, e, ty, c); OptionKeeps(alg, e, ty, c);
        case _ =>
      }
  }

  lemma {:induction false} ErasingKeeps(alg: Algebra, t: Tree, c: Context)
    requires Source(t)
    ensures Kept(t, TAny) && SameCheck(alg, t, TAny, c)
  {
    hide Specialize, Erase, CheckTree, Check, Unharmed;
    AnyKeeps(t);
    SpecializeToAny(alg, t, c);
    EraseKeepsCheck(alg, Specialize(t, TAny).value, c);
  }

  lemma {:induction false} TestKeeps(alg: Algebra, t: Tree, inner: Ty, c: Context)
    requires Source(t) && Kept(t, inner) && SameCheck(alg, t, inner, c)
    ensures Kept(t, TTest(inner)) && SameCheck(alg, t, TTest(inner), c)
  {
    hide Specialize, Erase, CheckTree, Unharmed;
    TestTransparent(t, inner);
    var r := Specialize(t, inner);
    if r.Ok? { EraseShape(Test(r.value)); }
  }

  lemma {:induction false} OptionKeeps(alg: Algebra, e: Tree, ty: Ty, c: Context)
    requires Source(ROpt(Some(e))) && ty.TOr? && Kept(e, ty) && SameCheck(alg, e, ty, c)
    ensures Kept(ROpt(Some(e)), ty) && SameCheck(alg, ROpt(Some(e)), ty, c)
  {
    assert SpecializeOption(Some(e), ty) == Err(Some(e));
  }

  /** A vacuous side may be dropped, and only such a side is. */
  lemma {:induction false} AndKeeps(alg: Algebra, l: Tree, r: Tree, ty: Ty, c: Context)
    requires Source(l) && Source(r) && Clean(RAnd(l, r)) && ty.TOr? && Comb(ty)
    ensures Kept(RAnd(l, r), ty) && SameCheck(alg, RAnd(l, r), ty, c)
    decreases 1 + Nodes(l) + Nodes(r), 0, ty, 0
  {
    hide Specialize, Comb, Check;
    ConjunctionIs(l, r, ty);
    assert AndBothWays(l, r, ty) == Err((r, l));
    NoPolicyIsVacuous(l);
    NoPolicyIsVacuous(r);
    var first := if IsNoPolicy(l) then Specialize(r, ty) else Err(r);
    if IsNoPolicy(l) {
      NoPolicyPermitsAll(alg, l, c);
      Keeps(alg, r, ty, c);
    }
    if first.Err? {
      NoPolicyIsVacuous(first.error);
      if IsNoPolicy(first.error) {
        NoPolicyPermitsAll(alg, first.error, c);
        Keeps(alg, l, ty, c);
      }
    }
  }

  lemma {:induction false} ErasingIsFlat(ty: Ty)
    requires Erasing(ty)
    ensures Depth(ty) == 0 && !Comb(ty)
  {
    if ty.TTest? { ErasingIsFlat(ty.inner); }
  }

  /** Which side of an alternative decides an attempt on both. */
  predicate Fits(l: Tree, r: Tree, ty: Ty, ok: bool)
    requires ty.TOr?
  {
    if Erasing(ty.left) then !Vacuous(r) ==> (ok <==> Depth(ty.right) <= Level(r))
    else !Vacuous(l) ==> (ok <==> Depth(ty.left) <= Level(l))
  }

  lemma {:induction false} OrIsBoth(l: Tree, r: Tree, ty: Ty)
    requires Source(l) && Source(r) && ty.TOr?
    ensures SpecializeOr(l, r, ty).Ok? <==> Specialize(l, ty.left).Ok? && Specialize(r, ty.right).Ok?
  {
    hide Specialize;
  }

  lemma {:induction false} OrFits(l: Tree, r: Tree, ty: Ty)
    requires Source(l) && Source(r) && ty.TOr? && Comb(ty) && Kept(l, ty.left) && Kept(r, ty.right)
    ensures Fits(l, r, ty, SpecializeOr(l, r, ty).Ok?)
  {
    hide Specialize, SpecializeOr, Unharmed, Vacuous, Level;
    OrIsBoth(l, r, ty);
    if Erasing(ty.left) { ErasingIsFlat(ty.left); }
    if Erasing(ty.right) { ErasingIsFlat(ty.right); }
  }

  lemma {:induction false} OrAttempt(alg: Algebra, l: Tree, r: Tree, ty: Ty, c: Context)
    requires Source(l) && Source(r) && ty.TOr? && Comb(ty)
    requires Kept(l, ty.left) && SameCheck(alg, l, ty.left, c)
    requires Kept(r, ty.right) && SameCheck(alg, r, ty.right, c)
    ensures var res := SpecializeOr(l, r, ty);
            && Fits(l, r, ty, res.Ok?)
            && (res.Ok? ==> CheckTree(alg, Erase(res.value), c) == CheckTree(alg, ROr(l, r), c))
            && (res.Err? ==>
                  && Unharmed(res.error.0, l) && CheckTree(alg, res.error.0, c) == CheckTree(alg, l, c)
                  && Unharmed(res.error.1, r) && CheckTree(alg, res.error.1, c) == CheckTree(alg, r, c))
  {
    hide Specialize, Erase, Unharmed, Vacuous, Level, Depth, Erasing, Fits, Check, Source, WellTyped, TypeOf;
    OrFits(l, r, ty);
    var res := SpecializeOr(l, r, ty);
    if res.Ok? { EraseShape(res.value); }
  }

  /** A side whose alternatives are not nested deeply enough for one half of a comb is not taken by
      the whole. */
  lemma {:induction false} NotPicked(l: Tree, r: Tree, l2: Tree, ty: Ty)
    requires Source(l2) && ty.TOr? && Comb(ty) && !Vacuous(l)
    requires Fits(l, r, ty, false) && Fits(r, l, ty, false) && Unharmed(l2, l) && Kept(l2, ty)
    ensures Specialize(l2, ty).Err? && Level(l) + 1 < Depth(ty)
  {
    hide Specialize, Erase, Vacuous, Level;
    if Erasing(ty.left) { ErasingIsFlat(ty.left); } else { ErasingIsFlat(ty.right); }
  }

  lemma {:induction false} BothUnharmed(alg: Algebra, u: Tree, v: Tree, l: Tree, r: Tree, c: Context)
    requires Unharmed(u, l) && CheckTree(alg, u, c) == CheckTree(alg, l, c)
    requires Unharmed(v, r) && CheckTree(alg, v, c) == CheckTree(alg, r, c)
    ensures Unharmed(ROr(u, v), ROr(l, r)) && CheckTree(alg, ROr(u, v), c) == CheckTree(alg, ROr(l, r), c)
  {
  }

  /** An alternative, both ways, of sides that do not fit: one side is picked only if it permits
      everything. */
  lemma {:induction false} SidePicked(alg: Algebra, l: Tree, r: Tree, ty: Ty, c: Context)
    requires Source(l) && Source(r) && ty.TOr? && Comb(ty)
    requires Kept(l, ty) && SameCheck(alg, l, ty, c) && Kept(r, ty) && SameCheck(alg, r, ty, c)
    requires !Vacuous(l) ==> Specialize(l, ty).Err?
    requires !Vacuous(r) ==> Specialize(r, ty).Err?
    ensures var res := PickSide(l, r, ty);
            && CheckTree(alg, Remains(res), c) == CheckTree(alg, ROr(l, r), c)
            && (res.Err? ==> Unharmed(res.error, ROr(l, r)))
            && (!Vacuous(ROr(l, r)) ==> res.Err?)
  {
    hide Specialize, Erase, Check, Comb, Source, Unharmed, Level, Clean, Depth;
    if Vacuous(l) { VacuousPermits(alg, l, c); }
    if Vacuous(r) { VacuousPermits(alg, r, c); }
    var first, second := Specialize(l, ty), Specialize(r, ty);
    if first.Err? && second.Err? { BothUnharmed(alg, first.error, second.error, l, r, c); }
  }

  lemma {:induction false} FitsAlike(l': Tree, r': Tree, l: Tree, r: Tree, ty: Ty, ok: bool)
    requires ty.TOr? && Unharmed(l', l) && Unharmed(r', r) && Fits(l', r', ty, ok)
    ensures Fits(l, r, ty, ok)
  {
    hide Vacuous, Level, Clean, Depth, Erasing;
  }

  lemma {:induction false} UnharmedTwice(u: Tree, s: Tree, t: Tree)
    requires Unharmed(u, s) && Unharmed(s, t)
    ensures Unharmed(u, t)
  {
    hide Vacuous, Level, Clean;
  }

  lemma {:induction false} OrTaken(l: Tree, r: Tree, ty: Ty)
    requires ty.TOr? && Comb(ty) && (Fits(l, r, ty, true) || Fits(r, l, ty, true))
    ensures !Vacuous(ROr(l, r)) ==> Depth(ty) <= Level(ROr(l, r))
  {
    if Erasing(ty.left) { ErasingIsFlat(ty.left); } else { ErasingIsFlat(ty.right); }
  }

  /** One side of an alternative is not picked unless it permits everything. */
  lemma {:induction false} OrKeeps(alg: Algebra, l: Tree, r: Tree, ty: Ty, c: Context)
    requires Source(l) && Source(r) && Clean(ROr(l, r)) && ty.TOr? && Comb(ty)
    ensures Kept(ROr(l, r), ty) && SameCheck(alg, ROr(l, r), ty, c)
    decreases 1 + Nodes(l) + Nodes(r), 0, ty, 0
  {
    hide Specialize, SpecializeOr, PickSide, Erase, Check, Fits, Unharmed, Source, Nodes;
    DisjunctionIs(l, r, ty);
    Keeps(alg, l, ty.left, c);
    Keeps(alg, r, ty.right, c);
    OrAttempt(alg, l, r, ty, c);
    var straight := SpecializeOr(l, r, ty);
    if straight.Ok? {
      OrTaken(l, r, ty);
    } else {
      var (l1, r1) := straight.error;
      UnharmedIsClean(l1, l);
      UnharmedIsClean(r1, r);
      Keeps(alg, r1, ty.left, c);
      Keeps(alg, l1, ty.right, c);
      OrAttempt(alg, r1, l1, ty, c);
      var swapped := SpecializeOr(r1, l1, ty);
      FitsAlike(r1, l1, r, l, ty, swapped.Ok?);
      if swapped.Ok? {
        OrTaken(l, r, ty);
      } else {
        var (r2, l2) := swapped.error;
        UnharmedTwice(l2, l1, l);
        UnharmedTwice(r2, r1, r);
        UnharmedIsClean(l2, l);
        UnharmedIsClean(r2, r);
        Keeps(alg, l2, ty, c);
        Keeps(alg, r2, ty, c);
        if !Vacuous(l) { NotPicked(l, r, l2, ty); }
        if !Vacuous(r) { NotPicked(r, l, r2, ty); }
        SidePicked(alg, l2, r2, ty, c);
        BothUnharmed(alg, l2, r2, l, r, c);
        var res := PickSide(l2, r2, ty);
        if res.Err? { UnharmedTwice(res.error, ROr(l2, r2), ROr(l, r)); }
      }
    }
  }

  lemma {:induction false} UnharmedIsClean(u: Tree, t: Tree)
    requires Unharmed(u, t) && Clean(t)
    ensures Clean(u) && Vacuous(u) == Vacuous(t)
  {
  }

  // ----- all other targets lose something -----

  /** Lets data go under a custom leaf with state 1 only. */
  const Picky: Algebra := Algebra((_, _, _) => false, (_, s, _) => s == Opaque(1), (_, s, _) => s)

  const Somewhere: Context := Context("", Other(0))

  const Lax: Policy := Basic(Custom(0, Opaque(1)))

  lemma {:induction false} LaxPermits(p: Policy)
    ensures Check(Picky, Or(p, Lax), Somewhere)
  {
    assert Check(Picky, Lax, Somewhere);
  }

  /** A value of each type, as strict as the type allows. */
  function Sample(ty: Ty): Policy {
    match ty
    case TNo => Basic(NoPolicy)
    case TSimple(tag) => Basic(Simple(tag, Opaque(0)))
    case TCustom(tag) => Basic(Custom(tag, Opaque(0)))
    case TAnd(l, r) => And(Sample(l), Sample(r))
    case TOr(l, r) => Or(Sample(l), Sample(r))
    case TRef(target) => Ref(Sample(target))
    case TOpt(inner) => Opt(inner, Some(Sample(inner)))
    case TAny => Any(Basic(Simple(0, Opaque(0))))
    case TTest(inner) => Test(Sample(inner))
  }

  lemma {:induction false} SampleIs(ty: Ty)
    ensures TypeOf(Sample(ty)) == ty && WellTyped(Sample(ty))
    ensures Check(Picky, Sample(ty), Somewhere) == Permissive(ty)
  {
    match ty
    case TAnd(l, r) => SampleIs(l); SampleIs(r);
    case TOr(l, r) => SampleIs(l); SampleIs(r);
    case TRef(target) => SampleIs(target);
    case TOpt(inner) => SampleIs(inner);
    case TTest(inner) => SampleIs(inner);
    case _ =>
  }

  lemma {:induction false} OptionIs(t: Tree, inner: Ty)
    requires Source(t) && Specialize(t, inner).Ok?
    ensures Specialize(ROpt(Some(t)), TOpt(inner)).Ok?
  {
    assert SpecializeOption(Some(t), TOpt(inner)).Ok?;
  }

  /** The erased sample of a type fits the type. */
  lemma {:induction false} SampleFits(ty: Ty)
    ensures WellTyped(Sample(ty)) && SpecializePolicy(Sample(ty), ty).Ok?
  {
    SampleIs(ty);
    EraseShape(Sample(ty));
    match ty
    case TAnd(l, r) =>
      SampleFits(l);
      SampleFits(r);
      ConjunctionIs(Erase(Sample(l)), Erase(Sample(r)), ty);
    case TOr(l, r) =>
      SampleFits(l);
      SampleFits(r);
      DisjunctionIs(Erase(Sample(l)), Erase(Sample(r)), ty);
    case TOpt(inner) =>
      SampleFits(inner);
      OptionIs(Erase(Sample(inner)), inner);
    case TAny => SpecializeToAny(Picky, Erase(Sample(ty)), Somewhere);
    case TTest(inner) => SampleFits(inner); TestTransparent(Erase(Sample(inner)), inner);
    case _ =>
  }

  /** A policy that lets data go here and is specialized to one that does not. */
  predicate Loses(p: Policy, ty: Ty) {
    && WellTyped(p) && Check(Picky, p, Somewhere)
    && SpecializePolicy(p, ty).Ok? && !Check(Picky, SpecializePolicy(p, ty).value, Somewhere)
  }

  lemma {:induction false} StaysStrict(p: Policy, ty: Ty)
    requires WellTyped(p) && !Check(Picky, p, Somewhere) && SpecializePolicy(p, ty).Ok?
    ensures !Check(Picky, SpecializePolicy(p, ty).value, Somewhere)
  {
    hide Specialize;
    EraseKeepsCheck(Picky, p, Somewhere);
    SpecializationNeverWeakens(Picky, Erase(p), ty, Somewhere);
  }

  /** Where alternatives are not wanted, one side is picked. */
  lemma {:induction false} PickLoses(ty: Ty)
    requires !Permissive(ty) && !ty.TOr? && !ty.TTest? && !ty.TAny?
    ensures Loses(Or(Sample(ty), Lax), ty)
  {
    hide Specialize;
    var strict := Sample(ty);
    SampleIs(ty);
    SampleFits(ty);
    StaysStrict(strict, ty);
    LaxPermits(strict);
    EraseShape(Or(strict, Lax));
    DisjunctionIs(Erase(strict), Erase(Lax), ty);
    assert OrBothWays(Erase(strict), Erase(Lax), ty) == Err((Erase(Lax), Erase(strict)));
  }

  /** What one half of a target loses, the whole loses. */
  lemma {:induction false} HalfLoses(p: Policy, ty: Ty, other: Ty)
    requires Loses(p, ty) && !Permissive(other)
    ensures Loses(Or(p, Sample(other)), TOr(ty, other)) && Loses(Or(Sample(other), p), TOr(other, ty))
  {
    hide Specialize;
    SampleIs(other);
    SampleFits(other);
    StaysStrict(Sample(other), other);
    EraseShape(Or(p, Sample(other)));
    EraseShape(Or(Sample(other), p));
    DisjunctionIs(Erase(p), Erase(Sample(other)), TOr(ty, other));
    DisjunctionIs(Erase(Sample(other)), Erase(p), TOr(other, ty));
  }

  // ----- combs on both sides -----

  /** All alternatives down to level `n`. */
  function Full(n: nat): Policy {
    if n == 0 then Basic(Simple(0, Opaque(0))) else Or(Full(n - 1), Full(n - 1))
  }

  lemma {:induction false} FullIs(n: nat)
    ensures WellTyped(Full(n)) && !Check(Picky, Full(n), Somewhere)
  {
    if n > 0 { FullIs(n - 1); }
  }

  /** A comb takes the full tree as it is. */
  lemma {:induction false} FullFits(n: nat, ty: Ty)
    requires (Erasing(ty) || Comb(ty)) && Depth(ty) <= n
    ensures WellTyped(Full(n)) && SpecializePolicy(Full(n), ty).Ok?
    ensures Erase(SpecializePolicy(Full(n), ty).value) == Erase(Full(n))
    decreases n, ty
  {
    hide Specialize, Erase, Check;
    FullIs(n);
    EraseShape(Full(n));
    match ty
    case TTest(inner) =>
      FullFits(n, inner);
      TestTransparent(Erase(Full(n)), inner);
      EraseShape(Test(SpecializePolicy(Full(n), inner).value));
    case TAny =>
      if n == 0 {
        AnyOfLeaf(Full(0));
      } else {
        FullFits(n - 1, TAny);
        AnyOfPair(Erase(Full(n - 1)), Erase(Full(n - 1)));
      }
    case TOr(l, r) =>
      if Erasing(l) { ErasingIsFlat(l); }
      if Erasing(r) { ErasingIsFlat(r); }
      FullFits(n - 1, l);
      FullFits(n - 1, r);
      FullHalves(n, l, r);
  }

  lemma {:induction false} AnyOfLeaf(p: Policy)
    requires p.Basic?
    ensures Specialize(RLeaf(p), TAny) == Ok(Any(p)) && Erase(Any(p)) == RLeaf(p)
  {
    ErasedLeaf(p);
  }

  lemma {:induction false} FullHalves(n: nat, l: Ty, r: Ty)
    requires 0 < n && WellTyped(Full(n)) && WellTyped(Full(n - 1))
    requires SpecializePolicy(Full(n - 1), l).Ok? && SpecializePolicy(Full(n - 1), r).Ok?
    requires Erase(SpecializePolicy(Full(n - 1), l).value) == Erase(Full(n - 1))
    requires Erase(SpecializePolicy(Full(n - 1), r).value) == Erase(Full(n - 1))
    ensures SpecializePolicy(Full(n), TOr(l, r)).Ok?
    ensures Erase(SpecializePolicy(Full(n), TOr(l, r)).value) == Erase(Full(n))
  {
    hide Specialize;
    var half := Erase(Full(n - 1));
    EraseShape(Full(n));
    EraseShape(Or(Specialize(half, l).value, Specialize(half, r).value));
    DisjunctionIs(half, half, TOr(l, r));
  }

  lemma {:induction false} CombRefusesLax(ty: Ty)
    requires Comb(ty)
    ensures SpecializeLeaf(Lax, ty) == Err(Lax) && Specialize(RLeaf(Lax), ty) == Err(RLeaf(Lax))
  {
    if ty.TTest? { CombRefusesLax(ty.inner); }
  }

  /** A full tree beside a leaf: neither way fits, and the full tree is picked. */
  lemma {:induction false} TwoCombsLose(l: Ty, r: Ty, n: nat)
    requires Comb(l) && Comb(r) && Depth(l) < n && Depth(r) < n
    ensures Loses(Or(Full(n), Lax), TOr(l, r))
  {
    hide Specialize, SpecializeLeaf, Erase, Full, Check, Comb, Depth;
    LaxPermits(Full(n));
    FullIs(n);
    FullFits(n, l);
    FullFits(n, r);
    FullFits(n - 1, l);
    FullFits(n - 1, r);
    FullHalves(n, l, r);
    StaysStrict(Full(n), TOr(l, r));
    EraseShape(Or(Full(n), Lax));
    EraseShape(Lax);
    CombRefusesLax(l);
    CombRefusesLax(r);
    NeitherWay(Erase(Full(n)), RLeaf(Lax), l, r);
  }

  lemma {:induction false} NeitherWay(full: Tree, lax: Tree, l: Ty, r: Ty)
    requires Source(full) && Source(lax)
    requires Specialize(full, l).Ok? && Remains(Specialize(full, l)) == full
    requires Specialize(full, r).Ok? && Remains(Specialize(full, r)) == full
    requires Specialize(lax, l) == Err(lax) == Specialize(lax, r) && Specialize(full, TOr(l, r)).Ok?
    ensures Specialize(ROr(full, lax), TOr(l, r)) == Specialize(full, TOr(l, r))
  {
    hide Specialize, Erase, Source;
    DisjunctionIs(full, lax, TOr(l, r));
    assert SpecializeOr(full, lax, TOr(l, r)) == Err((full, lax));
    assert SpecializeOr(lax, full, TOr(l, r)) == Err((lax, full));
  }

  lemma {:induction false} SomethingLost(ty: Ty) returns (p: Policy)
    requires !Erasing(ty) && !Permissive(ty) && !Comb(ty)
    ensures Loses(p, ty)
  {
    hide Specialize;
    match ty
    case TTest(inner) =>
      p := SomethingLost(inner);
      TestTransparent(Erase(p), inner);
    case TOr(l, r) =>
      if !Erasing(l) && !Comb(l) {
        var half := SomethingLost(l);
        HalfLoses(half, l, r);
        p := Or(half, Sample(r));
      } else if !Erasing(r) && !Comb(r) {
        var half := SomethingLost(r);
        HalfLoses(half, r, l);
        p := Or(Sample(l), half);
      } else {
        var n := 1 + Larger(Depth(l), Depth(r));
        TwoCombsLose(l, r, n);
        p := Or(Full(n), Lax);
      }
    case _ =>
      PickLoses(ty);
      p := Or(Sample(ty), Lax);
  }

  /** Specialization to this type keeps the check of every policy that it succeeds for. */
  ghost predicate LosesNothing(ty: Ty) {
    forall alg, p, c | WellTyped(p) && SpecializePolicy(p, ty).Ok? ::
      Check(alg, SpecializePolicy(p, ty).value, c) == Check(alg, p, c)
  }

  lemma {:induction false} LosesSomething(p: Policy, ty: Ty)
    requires Loses(p, ty)
    ensures !LosesNothing(ty)
  {
    hide Specialize, Check;
    assert Check(Picky, SpecializePolicy(p, ty).value, Somewhere) != Check(Picky, p, Somewhere);
  }

  lemma {:induction false} CombLosesNothing(alg: Algebra, p: Policy, ty: Ty, c: Context)
    requires WellTyped(p) && Comb(ty) && SpecializePolicy(p, ty).Ok?
    ensures Check(alg, SpecializePolicy(p, ty).value, c) == Check(alg, p, c)
  {
    hide Specialize, Comb, Check;
    EraseKeepsCheck(alg, p, c);
    EraseKeepsCheck(alg, SpecializePolicy(p, ty).value, c);
    EraseClean(p);
    Keeps(alg, Erase(p), ty, c);
  }

  /** A type loses nothing exactly when it is the type-erased policy, possibly under test wrappers,
      or a comb of these, or its values permit everything. */
  lemma {:induction false} LosslessExactly(ty: Ty)
    ensures LosesNothing(ty) <==> Erasing(ty) || Permissive(ty) || Comb(ty)
  {
    hide Specialize, Check, Comb, Erasing, Permissive;
    if Erasing(ty) || Permissive(ty) || Comb(ty) {
      forall alg, p, c | WellTyped(p) && SpecializePolicy(p, ty).Ok?
        ensures Check(alg, SpecializePolicy(p, ty).value, c) == Check(alg, p, c)
      {
        EraseKeepsCheck(alg, p, c);
        if Comb(ty) { CombLosesNothing(alg, p, ty, c); } else { LosslessTargets(alg, Erase(p), ty, c); }
      }
    } else {
      var p := SomethingLost(ty);
      LosesSomething(p, ty);
    }
  }
}
