/** When specialization succeeds, and with what: laws about its results, for the policies that an
    application erases and asks back. */
module Fitting {
  import opened Policies
  import opened Reflection
  import opened Specialization
  import opened SpecializationProofs
  import opened Lossless

  // ----- leaves -----

  /** `q` is the leaf `p` as a value of type `ty`: itself, or inside wrappers that the type asks for. */
  predicate Dressed(q: Policy, p: Policy, ty: Ty) {
    match ty
    case TAny => q == Any(p)
    case TTest(inner) => q.Test? && Dressed(q.wrapped, p, inner)
    case TOpt(inner) =>
      if p == Basic(NoPolicy) then q == Opt(inner, None) else TypeOf(p) == inner && q == Opt(inner, Some(p))
    case _ => TypeOf(p) == ty && q == p
  }

  /** A leaf or a reference fits a type exactly when it can be dressed so, and comes out like this;
      else it is handed back. */
  lemma {:induction false} LeafFits(p: Policy, ty: Ty, q: Policy)
    requires Atomic(p)
    ensures SpecializePolicy(p, ty) == Ok(q) <==> Dressed(q, p, ty)
    ensures SpecializePolicy(p, ty).Err? ==> SpecializePolicy(p, ty) == Err(RLeaf(p))
  {
    EraseShape(p);
    match ty
    case TTest(inner) =>
      TestTransparent(Erase(p), inner);
      LeafFits(p, inner, if q.Test? then q.wrapped else q);
    case TOpt(inner) =>
      if TypeOf(p) == inner { assert SpecializeLeaf(p, inner) == Ok(p); }
    case _ =>
  }

  /** As an option: a leaf of just that type, and no policy at every type. */
  lemma {:induction false} OptionalLeaf(p: Policy, inner: Ty)
    requires Atomic(p)
    ensures p != Basic(NoPolicy) ==> SpecializePolicy(p, TOpt(TypeOf(p))) == Ok(Opt(TypeOf(p), Some(p)))
    ensures SpecializePolicy(Basic(NoPolicy), TOpt(inner)) == Ok(Opt(inner, None))
  {
    LeafFits(p, TOpt(TypeOf(p)), Opt(TypeOf(p), Some(p)));
    LeafFits(Basic(NoPolicy), TOpt(inner), Opt(inner, None));
  }

  // ----- both sides -----

  /** The types of whole conjunctions and alternatives, and those that look through to one. */
  predicate ForPairs(ty: Ty) {
    ty.TAnd? || ty.TOr? || ty.TAny? || ty.TTest?
  }

  lemma {:induction false} BothFit(p: Policy, q: Policy, a: Ty, b: Ty)
    requires WellTyped(p) && WellTyped(q) && SpecializePolicy(p, a).Ok? && SpecializePolicy(q, b).Ok?
    ensures var v, w := SpecializePolicy(p, a).value, SpecializePolicy(q, b).value;
            && SpecializePolicy(And(p, q), TAnd(a, b)) == Ok(And(v, w))
            && SpecializePolicy(Or(p, q), TOr(a, b)) == Ok(Or(v, w))
  {
    hide Specialize;
    EraseShape(And(p, q));
    EraseShape(Or(p, q));
    ConjunctionIs(Erase(p), Erase(q), TAnd(a, b));
    DisjunctionIs(Erase(p), Erase(q), TOr(a, b));
  }

  /** An attempt leaves the policy as it is, to be tried again. */
  predicate Unmoved(p: Policy, ty: Ty)
    requires WellTyped(p)
  {
    Remains(SpecializePolicy(p, ty)) == Erase(p)
  }

  /** In the wrong order the two sides are swapped. */
  lemma {:induction false} SwappedFit(p: Policy, q: Policy, a: Ty, b: Ty)
    requires WellTyped(p) && WellTyped(q) && SpecializePolicy(q, a).Ok? && SpecializePolicy(p, b).Ok?
    requires Unmoved(p, a) && Unmoved(q, b) && !(SpecializePolicy(p, a).Ok? && SpecializePolicy(q, b).Ok?)
    ensures var v, w := SpecializePolicy(q, a).value, SpecializePolicy(p, b).value;
            && SpecializePolicy(And(p, q), TAnd(a, b)) == Ok(And(v, w))
            && SpecializePolicy(Or(p, q), TOr(a, b)) == Ok(Or(v, w))
  {
    hide Specialize, Erase, Remains, Source;
    EraseShape(And(p, q));
    EraseShape(Or(p, q));
    ConjunctionIs(Erase(p), Erase(q), TAnd(a, b));
    DisjunctionIs(Erase(p), Erase(q), TOr(a, b));
    assert SpecializeAnd(Erase(p), Erase(q), TAnd(a, b)) == Err((Erase(p), Erase(q)));
    assert SpecializeOr(Erase(p), Erase(q), TOr(a, b)) == Err((Erase(p), Erase(q)));
  }

  /** So two leaves of different types fit in either order. */
  lemma {:induction false} LeavesSwapped(p: Policy, q: Policy)
    requires Atomic(p) && Atomic(q) && p.Basic? && q.Basic? && TypeOf(p) != TypeOf(q)
    ensures SpecializePolicy(And(p, q), TAnd(TypeOf(q), TypeOf(p))) == Ok(And(q, p))
    ensures SpecializePolicy(Or(p, q), TOr(TypeOf(q), TypeOf(p))) == Ok(Or(q, p))
  {
    hide Specialize, SpecializePolicy;
    EraseShape(p);
    EraseShape(q);
    LeafFits(p, TypeOf(p), p);
    LeafFits(q, TypeOf(q), q);
    LeafFits(p, TypeOf(q), p);
    LeafFits(q, TypeOf(p), q);
    LeafAtOther(p, TypeOf(q));
    LeafAtOther(q, TypeOf(p));
    SwappedFit(p, q, TypeOf(q), TypeOf(p));
  }

  lemma {:induction false} LeafAtOther(p: Policy, ty: Ty)
    requires Atomic(p) && TypeOf(p) != ty && (ty.TNo? || ty.TSimple? || ty.TCustom? || ty.TRef?)
    ensures SpecializePolicy(p, ty) == Err(RLeaf(p))
  {
    EraseShape(p);
  }

  // ----- one side -----

  /** A no-policy beside a policy is dropped, on either side. */
  lemma {:induction false} NoPolicyDropped(n: Policy, p: Policy, ty: Ty)
    requires WellTyped(n) && WellTyped(p) && IsNoPolicy(Erase(n)) && !ForPairs(ty) && SpecializePolicy(p, ty).Ok?
    ensures SpecializePolicy(And(n, p), ty) == SpecializePolicy(p, ty)
    ensures !IsNoPolicy(Erase(p)) ==> SpecializePolicy(And(p, n), ty) == SpecializePolicy(p, ty)
  {
    hide Specialize, Erase;
    EraseShape(And(n, p));
    EraseShape(And(p, n));
    ConjunctionIs(Erase(n), Erase(p), ty);
    ConjunctionIs(Erase(p), Erase(n), ty);
    assert AndBothWays(Erase(n), Erase(p), ty) == Err((Erase(p), Erase(n)));
    assert AndBothWays(Erase(p), Erase(n), ty) == Err((Erase(n), Erase(p)));
  }

  /** No other conjunction fits such a type, and it is handed back. */
  lemma {:induction false} ConjunctionRefused(p: Policy, q: Policy, ty: Ty)
    requires WellTyped(p) && WellTyped(q) && !ForPairs(ty) && !IsNoPolicy(Erase(p)) && !IsNoPolicy(Erase(q))
    ensures SpecializePolicy(And(p, q), ty) == Err(Erase(And(p, q)))
  {
    hide Specialize, Erase;
    EraseShape(And(p, q));
    ConjunctionIs(Erase(p), Erase(q), ty);
    assert AndBothWays(Erase(p), Erase(q), ty) == Err((Erase(q), Erase(p)));
  }

  /** Of an alternative the first side that fits is taken, and if none does, what the sides hand
      back is. */
  lemma {:induction false} FirstSideThatFits(p: Policy, q: Policy, ty: Ty)
    requires WellTyped(p) && WellTyped(q) && !ForPairs(ty)
    ensures var first, second := SpecializePolicy(p, ty), SpecializePolicy(q, ty);
            SpecializePolicy(Or(p, q), ty) ==
              if first.Ok? then first else if second.Ok? then second else Err(ROr(first.error, second.error))
  {
    hide Specialize, Erase;
    EraseShape(Or(p, q));
    DisjunctionIs(Erase(p), Erase(q), ty);
    assert OrBothWays(Erase(p), Erase(q), ty) == Err((Erase(q), Erase(p)));
  }

  // ----- what a failure hands back -----

  predicate Plain(p: Policy) {
    p.Basic? && p != Basic(NoPolicy)
  }

  predicate BaseType(ty: Ty) {
    ty.TSimple? || ty.TCustom?
  }

  lemma {:induction false} PlainAt(p: Policy, ty: Ty)
    requires p.Basic?
    ensures Erase(p) == RLeaf(p)
    ensures BaseType(ty) ==> Specialize(RLeaf(p), ty) == if TypeOf(p) == ty then Ok(p) else Err(RLeaf(p))
    ensures ty.TAnd? || ty.TOr? ==> Specialize(RLeaf(p), ty) == Err(RLeaf(p))
  {
    EraseShape(p);
  }

  /** At a base type an alternative of leaves loses a side. */
  lemma {:induction false} PickedAt(p: Policy, q: Policy, ty: Ty)
    requires p.Basic? && q.Basic? && BaseType(ty)
    ensures Source(RLeaf(p)) && Source(RLeaf(q))
    ensures Specialize(ROr(RLeaf(p), RLeaf(q)), ty) ==
              if TypeOf(p) == ty then Ok(p) else if TypeOf(q) == ty then Ok(q) else Err(ROr(RLeaf(p), RLeaf(q)))
  {
    hide Specialize;
    PlainAt(p, ty);
    PlainAt(q, ty);
    DisjunctionIs(RLeaf(p), RLeaf(q), ty);
  }

  lemma {:induction false} NothingDropped(l: Tree, r: Tree, ty: Ty)
    requires Source(l) && Source(r) && !IsNoPolicy(l) && !IsNoPolicy(r)
    ensures DropNoPolicy(l, r, ty) == Err(RAnd(l, r))
  {
  }

  /** So a failure, too, can lose an alternative: the side that was picked is handed back. */
  lemma {:induction false} FailureLosesSide(p: Policy, q: Policy, r: Policy, ty: Ty)
    requires Plain(p) && Plain(q) && Plain(r) && BaseType(ty) && TypeOf(r) != TypeOf(p) && TypeOf(r) != ty
    ensures WellTyped(Or(p, q))
    ensures SpecializePolicy(And(Or(p, q), r), TAnd(TypeOf(p), ty)) == Err(RAnd(RLeaf(p), RLeaf(r)))
  {
    var a, x, y := TypeOf(p), RLeaf(p), RLeaf(r);
    var l := ROr(x, RLeaf(q));
    EraseShape(And(Or(p, q), r));
    EraseShape(Or(p, q));
    hide Specialize, Erase;
    PlainAt(p, a);
    PlainAt(p, ty);
    PlainAt(q, a);
    PlainAt(r, a);
    PlainAt(r, ty);
    PickedAt(p, q, a);
    ConjunctionIs(l, y, TAnd(a, ty));
    assert SpecializeAnd(l, y, TAnd(a, ty)) == Err((x, y));
    assert SpecializeAnd(y, x, TAnd(a, ty)) == Err((y, x));
    NothingDropped(x, y, TAnd(a, ty));
  }

  /** And a side that was picked on the way is all that is tried from then on, even where the whole
      alternative would fit. */
  lemma {:induction false} PickedTooEarly(p: Policy, q: Policy, r: Policy)
    requires Plain(p) && Plain(q) && Plain(r)
    requires TypeOf(r) != TypeOf(p) && TypeOf(r) != TypeOf(q) && TypeOf(p) != TypeOf(q)
    ensures SpecializePolicy(Or(p, q), TOr(TypeOf(p), TypeOf(q))) == Ok(Or(p, q))
    ensures SpecializePolicy(Or(r, Or(p, q)), TOr(TypeOf(p), TypeOf(q))) == Err(ROr(RLeaf(r), RLeaf(q)))
  {
    var a, b, x, y, z := TypeOf(p), TypeOf(q), RLeaf(p), RLeaf(q), RLeaf(r);
    var ty := TOr(a, b);
    EraseShape(Or(r, Or(p, q)));
    EraseShape(Or(p, q));
    hide Specialize, Erase;
    PlainAt(p, a);
    PlainAt(q, a);
    PlainAt(q, b);
    PlainAt(q, ty);
    PlainAt(r, a);
    PlainAt(r, b);
    PlainAt(r, ty);
    PickedAt(p, q, b);
    DisjunctionIs(x, y, ty);
    DisjunctionIs(z, ROr(x, y), ty);
    assert SpecializeOr(z, ROr(x, y), ty) == Err((z, y));
    assert SpecializeOr(y, z, ty) == Err((y, z));
  }

  /** Likewise beside a no-policy, which is dropped only when both ways have failed. */
  lemma {:induction false} DroppedTooLate(p: Policy, q: Policy, r: Policy)
    requires Plain(p) && Plain(q) && Plain(r) && TypeOf(p) != TypeOf(q) && TypeOf(r) == TypeOf(q)
    ensures var ty, n := TAnd(TypeOf(p), TypeOf(q)), Basic(NoPolicy);
            && WellTyped(And(p, q)) && WellTyped(Or(And(p, q), r))
            && SpecializePolicy(And(n, And(p, q)), ty) == Ok(And(p, q))
            && SpecializePolicy(And(n, Or(And(p, q), r)), ty) == Err(RAnd(RLeaf(n), RLeaf(r)))
  {
    var n, a, b, x, y, z := Basic(NoPolicy), TypeOf(p), TypeOf(q), RLeaf(p), RLeaf(q), RLeaf(r);
    var ty, pair := TAnd(a, b), RAnd(x, y);
    EraseShape(And(n, And(p, q)));
    EraseShape(And(p, q));
    EraseShape(And(n, Or(And(p, q), r)));
    EraseShape(Or(And(p, q), r));
    hide Specialize, Erase;
    PlainAt(p, a);
    PlainAt(q, b);
    PlainAt(n, a);
    PlainAt(n, b);
    PlainAt(n, ty);
    PlainAt(r, a);
    PlainAt(r, b);
    PlainAt(r, ty);
    ConjunctionIs(x, y, ty);
    PairAtBase(p, q, a);
    PairAtBase(p, q, b);
    ConjunctionIs(RLeaf(n), pair, ty);
    assert SpecializeAnd(RLeaf(n), pair, ty) == Err((RLeaf(n), pair));
    assert SpecializeAnd(pair, RLeaf(n), ty) == Err((pair, RLeaf(n)));
    DisjunctionIs(pair, z, b);
    ConjunctionIs(RLeaf(n), ROr(pair, z), ty);
    assert Specialize(ROr(pair, z), b) == Ok(r);
    assert SpecializeAnd(RLeaf(n), ROr(pair, z), ty) == Err((RLeaf(n), z));
    assert SpecializeAnd(z, RLeaf(n), ty) == Err((z, RLeaf(n)));
  }

  lemma {:induction false} PairAtBase(p: Policy, q: Policy, ty: Ty)
    requires Plain(p) && Plain(q) && BaseType(ty)
    ensures Source(RLeaf(p)) && Source(RLeaf(q))
    ensures Specialize(RAnd(RLeaf(p), RLeaf(q)), ty) == Err(RAnd(RLeaf(p), RLeaf(q)))
  {
    hide Specialize;
    ConjunctionIs(RLeaf(p), RLeaf(q), ty);
    NothingDropped(RLeaf(p), RLeaf(q), ty);
  }

  // ----- options -----

  /** An option comes out as an option, or, at other types, its content does. */
  lemma {:induction false} OptionFits(inner: Ty, p: Policy, ty: Ty)
    requires WellTyped(Opt(inner, Some(p)))
    ensures var r := SpecializePolicy(p, ty);
            && (r.Ok? ==> SpecializePolicy(Opt(inner, Some(p)), TOpt(ty)) == Ok(Opt(ty, Some(r.value))))
            && (!ForPairs(ty) && !ty.TOpt? ==>
                  SpecializePolicy(Opt(inner, Some(p)), ty) == if r.Ok? then r else Err(ROpt(Some(r.error))))
            && (r.Err? ==>
                  SpecializePolicy(Opt(inner, Some(p)), TOpt(ty)) ==
                    match Specialize(r.error, TOpt(ty)) case Ok(v) => Ok(v) case Err(e) => Err(ROpt(Some(e))))
  {
    hide Specialize, Erase;
    EraseShape(Opt(inner, Some(p)));
    OptionalIs(Some(Erase(p)), TOpt(ty));
    OptionalIs(Some(Erase(p)), ty);
  }

  lemma {:induction false} OptionalIs(o: Option<Tree>, ty: Ty)
    requires Source(ROpt(o))
    ensures Specialize(ROpt(o), ty) == SpecializeOptional(o, ty)
  {
    hide SpecializeOptional;
  }

  /** An empty option is an empty option of any type, and a no-policy. */
  lemma {:induction false} EmptyOptionFits(inner: Ty, ty: Ty)
    ensures SpecializePolicy(Opt(inner, None), TOpt(ty)) == Ok(Opt(ty, None))
    ensures !ForPairs(ty) && !ty.TOpt? ==>
              SpecializePolicy(Opt(inner, None), ty) == if ty.TNo? then Ok(Basic(NoPolicy)) else Err(ROpt(None))
  {
    hide Specialize;
    EraseShape(Opt(inner, None));
    OptionalIs(None, TOpt(ty));
    OptionalIs(None, ty);
  }

  // ----- type-erased -----

  /** The tree without its options; an empty one is a no-policy. */
  function Bare(t: Tree): Tree {
    match t
    case NoReflection(p) => if p.Ref? then RRef(p, Reflect(p.target)) else RLeaf(p)
    case RLeaf(p) => if p.Ref? then RRef(p, Reflect(p.target)) else RLeaf(p)
    case RAnd(l, r) => RAnd(Bare(l), Bare(r))
    case ROr(l, r) => ROr(Bare(l), Bare(r))
    case ROpt(None) => RLeaf(Basic(NoPolicy))
    case ROpt(Some(e)) => Bare(e)
    case _ => t
  }

  /** The type-erased policy is the tree again, but for its options. */
  lemma {:induction false} ErasedAsItIs(t: Tree)
    requires Source(t)
    ensures Specialize(t, TAny).Ok? && Erase(Specialize(t, TAny).value) == Bare(t)
  {
    match t
    case RAnd(l, r) => ErasedAsItIs(l); ErasedAsItIs(r); AnyOfPair(l, r);
    case ROr(l, r) => ErasedAsItIs(l); ErasedAsItIs(r); AnyOfPair(l, r);
    case ROpt(o) =>
      if o.Some? { ErasedAsItIs(o.value); }
      assert SpecializeOption(o, TAny).Ok?;
      EraseShape(Any(Basic(NoPolicy)));
      EraseShape(Basic(NoPolicy));
    case NoReflection(p) => ErasedLeaf(p);
    case RLeaf(p) => ErasedLeaf(p);
    case RRef(p, _) => ErasedLeaf(p);
  }
}
