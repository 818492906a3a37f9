/** Reflection trees, the generic visitor driver that walks them, and the three
    visitors that the policy operations are built from. */
module Reflection {
  import opened Policies

  /** A policy taken apart.  `RLeaf` and `NoReflection` hold a policy that is not taken
      apart further; `RRef` keeps the reference policy beside the reflection of what
      it points to. */
  datatype Tree =
    | NoReflection(policy: Policy)
    | RLeaf(policy: Policy)
    | RAnd(left: Tree, right: Tree)
    | ROr(left: Tree, right: Tree)
    | RRef(policy: Policy, pointee: Tree)
    | ROpt(option: Option<Tree>)
    | RAny(inner: Tree)
    | RTest(inner: Tree)

  function Reflect(p: Policy): Tree {
    match p
    case Basic(_) => RLeaf(p)
    case And(p1, p2) => RAnd(Reflect(p1), Reflect(p2))
    case Or(p1, p2) => ROr(Reflect(p1), Reflect(p2))
    case Ref(target) => RRef(p, Reflect(target))
    case Opt(_, None) => ROpt(None)
    case Opt(_, Some(q)) => ROpt(Some(Reflect(q)))
    case Any(erased) => RAny(Reflect(erased))
    case Test(wrapped) => RTest(Reflect(wrapped))
  }

  /** A policy that a tree may hold as it is. */
  predicate Atomic(p: Policy) {
    (p.Basic? || p.Ref?) && WellTyped(p)
  }

  /** A tree that reflection and specialization can build: a leaf is a basic policy or a
      reference, and a reference comes with the reflection of its pointee. */
  predicate WellFormed(t: Tree) {
    match t
    case NoReflection(p) => Atomic(p)
    case RLeaf(p) => Atomic(p)
    case RAnd(l, r) => WellFormed(l) && WellFormed(r)
    case ROr(l, r) => WellFormed(l) && WellFormed(r)
    case RRef(p, e) => Atomic(p) && p.Ref? && e == Reflect(p.target)
    case ROpt(None) => true
    case ROpt(Some(e)) => WellFormed(e)
    case RAny(e) => WellFormed(e)
    case RTest(e) => WellFormed(e)
  }

  // ----- the visitor driver -----

  /** The result of visiting a node: go on with the parents, or hand this result to the
      caller of the whole visit. */
  datatype Outcome<+R> = Continue(result: R) | Stop(result: R)

  /** A postfix visitor: one action for each kind of node. */
  datatype Visitor<!R> = Visitor(
    noReflection: Policy -> Outcome<R>,
    leaf: Policy -> Outcome<R>,
    and: (R, R) -> Outcome<R>,
    or: (R, R) -> Outcome<R>,
    reference: (Policy, Tree) -> Outcome<R>,
    option: Option<R> -> Outcome<R>,
    any: R -> Outcome<R>,
    test: R -> Outcome<R>)

  /** Visits the children from left to right, then the node.  The first action that says
      `Stop` decides the outcome, and nothing after it is visited. */
  function VisitHelper<R>(t: Tree, v: Visitor<R>): Outcome<R> {
    match t
    case NoReflection(p) => v.noReflection(p)
    case RLeaf(p) => v.leaf(p)
    case RAnd(l, r) =>
      var o1 := VisitHelper(l, v);
      if o1.Stop? then o1 else
      var o2 := VisitHelper(r, v);
      if o2.Stop? then o2 else v.and(o1.result, o2.result)
    case ROr(l, r) =>
      var o1 := VisitHelper(l, v);
      if o1.Stop? then o1 else
      var o2 := VisitHelper(r, v);
      if o2.Stop? then o2 else v.or(o1.result, o2.result)
    case RRef(p, e) => v.reference(p, e)
    case ROpt(None) => v.option(None)
    case ROpt(Some(e)) =>
      var o := VisitHelper(e, v);
      if o.Stop? then o else v.option(Some(o.result))
    case RAny(e) =>
      var o := VisitHelper(e, v);
      if o.Stop? then o else v.any(o.result)
    case RTest(e) =>
      var o := VisitHelper(e, v);
      if o.Stop? then o else v.test(o.result)
  }

  function Visit<R>(t: Tree, v: Visitor<R>): R {
    VisitHelper(t, v).result
  }

  const Normalizer: Visitor<Tree> := Visitor(
    p => Continue(NoReflection(p)),
    p => Continue(RLeaf(p)),
    (l, r) => Continue(RAnd(l, r)),
    (l, r) => Continue(ROr(l, r)),
    (p, e) => Continue(RRef(p, e)),
    o => Continue(ROpt(o)),
    e => Continue(e),
    e => Continue(e))

  function Checker(alg: Algebra, c: Context): Visitor<bool> {
    Visitor(
      p => Continue(Check(alg, p, c)),
      p => Continue(Check(alg, p, c)),
      (l, r) => Continue(l && r),
      (l, r) => Continue(l || r),
      (p, _) => Continue(Check(alg, p, c)),
      (o: Option<bool>) => Continue(o.Some? ==> o.value),
      b => Continue(b),
      b => Continue(b))
  }

  /** `fuel` bounds the nesting of references: the action on a reference runs the whole
      visitor again on the pointee. */
  function NoPolicyFinder(fuel: nat): Visitor<bool>
    decreases fuel
  {
    Visitor(
      _ => Continue(false),
      p => Continue(p == Basic(NoPolicy)),
      (l, r) => Continue(l && r),
      (l, r) => Continue(l || r),
      (_, e) => Continue(fuel > 0 && Visit(e, NoPolicyFinder(fuel - 1))),
      (o: Option<bool>) => Continue(o.Some? ==> o.value),
      b => Continue(b),
      b => Continue(b))
  }

  // ----- what each visitor computes -----

  /** `NoPolicy` in disguise, by structural recursion. */
  predicate IsNoPolicy(t: Tree) {
    match t
    case NoReflection(_) => false
    case RLeaf(p) => p == Basic(NoPolicy)
    case RAnd(l, r) => IsNoPolicy(l) && IsNoPolicy(r)
    case ROr(l, r) => IsNoPolicy(l) || IsNoPolicy(r)
    case RRef(_, e) => IsNoPolicy(e)
    case ROpt(None) => true
    case ROpt(Some(e)) => IsNoPolicy(e)
    case RAny(e) => IsNoPolicy(e)
    case RTest(e) => IsNoPolicy(e)
  }

  function RefDepth(t: Tree): nat {
    match t
    case NoReflection(_) => 0
    case RLeaf(_) => 0
    case RAnd(l, r) => if RefDepth(l) < RefDepth(r) then RefDepth(r) else RefDepth(l)
    case ROr(l, r) => if RefDepth(l) < RefDepth(r) then RefDepth(r) else RefDepth(l)
    case RRef(_, e) => 1 + RefDepth(e)
    case ROpt(None) => 0
    case ROpt(Some(e)) => RefDepth(e)
    case RAny(e) => RefDepth(e)
    case RTest(e) => RefDepth(e)
  }

  /** Whether the policy a tree stands for permits release, by structural recursion. */
  predicate CheckTree(alg: Algebra, t: Tree, c: Context) {
    match t
    case NoReflection(p) => Check(alg, p, c)
    case RLeaf(p) => Check(alg, p, c)
    case RAnd(l, r) => CheckTree(alg, l, c) && CheckTree(alg, r, c)
    case ROr(l, r) => CheckTree(alg, l, c) || CheckTree(alg, r, c)
    case RRef(p, _) => Check(alg, p, c)
    case ROpt(None) => true
    case ROpt(Some(e)) => CheckTree(alg, e, c)
    case RAny(e) => CheckTree(alg, e, c)
    case RTest(e) => CheckTree(alg, e, c)
  }

  /** No `AnyPolicy` or `TestPolicy` wrapper is left, except behind a reference. */
  predicate Normalized(t: Tree) {
    match t
    case NoReflection(_) => true
    case RLeaf(_) => true
    case RAnd(l, r) => Normalized(l) && Normalized(r)
    case ROr(l, r) => Normalized(l) && Normalized(r)
    case RRef(_, _) => true
    case ROpt(None) => true
    case ROpt(Some(e)) => Normalized(e)
    case RAny(_) => false
    case RTest(_) => false
  }

  function Normalize(t: Tree): Tree {
    Visit(t, Normalizer)
  }

  lemma {:induction false} CheckerComputesCheck(alg: Algebra, t: Tree, c: Context)
    ensures VisitHelper(t, Checker(alg, c)) == Continue(CheckTree(alg, t, c))
  {
    match t
    case RAnd(l, r) => CheckerComputesCheck(alg, l, c); CheckerComputesCheck(alg, r, c);
    case ROr(l, r) => CheckerComputesCheck(alg, l, c); CheckerComputesCheck(alg, r, c);
    case ROpt(Some(e)) => CheckerComputesCheck(alg, e, c);
    case RAny(e) => CheckerComputesCheck(alg, e, c);
    case RTest(e) => CheckerComputesCheck(alg, e, c);
    case _ =>
  }

  lemma {:induction false} FinderOfLeaf(p: Policy, fuel: nat)
    ensures NoPolicyFinder(fuel).noReflection(p) == Continue(false)
    ensures NoPolicyFinder(fuel).leaf(p) == Continue(p == Basic(NoPolicy))
  {
  }

  lemma {:induction false} FinderOfPair(a: bool, b: bool, fuel: nat)
    ensures NoPolicyFinder(fuel).and(a, b) == Continue(a && b)
    ensures NoPolicyFinder(fuel).or(a, b) == Continue(a || b)
  {
  }

  lemma {:induction false} FinderOfReference(p: Policy, e: Tree, fuel: nat)
    requires fuel > 0
    ensures NoPolicyFinder(fuel).reference(p, e) == Continue(Visit(e, NoPolicyFinder(fuel - 1)))
  {
  }

  lemma {:induction false} FinderOfWrapped(o: Option<bool>, b: bool, fuel: nat)
    ensures NoPolicyFinder(fuel).option(o) == Continue(o.Some? ==> o.value)
    ensures NoPolicyFinder(fuel).any(b) == Continue(b) == NoPolicyFinder(fuel).test(b)
  {
  }

  lemma {:induction false} FinderComputesNoPolicy(t: Tree, fuel: nat)
    requires RefDepth(t) <= fuel
    ensures VisitHelper(t, NoPolicyFinder(fuel)) == Continue(IsNoPolicy(t))
  {
    hide NoPolicyFinder;
    match t
    case NoReflection(p) => FinderOfLeaf(p, fuel);
    case RLeaf(p) => FinderOfLeaf(p, fuel);
    case RAnd(l, r) =>
      FinderComputesNoPolicy(l, fuel);
      FinderComputesNoPolicy(r, fuel);
      FinderOfPair(IsNoPolicy(l), IsNoPolicy(r), fuel);
    case ROr(l, r) =>
      FinderComputesNoPolicy(l, fuel);
      FinderComputesNoPolicy(r, fuel);
      FinderOfPair(IsNoPolicy(l), IsNoPolicy(r), fuel);
    case RRef(p, e) => FinderComputesNoPolicy(e, fuel - 1); FinderOfReference(p, e, fuel);
    case ROpt(None) => FinderOfWrapped(None, true, fuel);
    case ROpt(Some(e)) => FinderComputesNoPolicy(e, fuel); FinderOfWrapped(Some(IsNoPolicy(e)), true, fuel);
    case RAny(e) => FinderComputesNoPolicy(e, fuel); FinderOfWrapped(None, IsNoPolicy(e), fuel);
    case RTest(e) => FinderComputesNoPolicy(e, fuel); FinderOfWrapped(None, IsNoPolicy(e), fuel);
  }

  /** The driver run with the normalizer strips the wrappers, keeps the meaning in every
      context and the no-policy verdict, and leaves a tree without wrappers alone. */
  lemma {:induction false} NormalizePreserves(t: Tree)
    ensures VisitHelper(t, Normalizer).Continue?
    ensures Normalized(Normalize(t))
    ensures Normalized(t) ==> Normalize(t) == t
    ensures WellFormed(t) ==> WellFormed(Normalize(t))
    ensures IsNoPolicy(Normalize(t)) == IsNoPolicy(t)
    ensures forall alg, c :: CheckTree(alg, Normalize(t), c) == CheckTree(alg, t, c)
  {
    match t
    case RAnd(l, r) => NormalizePreserves(l); NormalizePreserves(r);
    case ROr(l, r) => NormalizePreserves(l); NormalizePreserves(r);
    case ROpt(Some(e)) => NormalizePreserves(e);
    case RAny(e) => NormalizePreserves(e);
    case RTest(e) => NormalizePreserves(e);
    case _ =>
  }

  /** Nothing is left to strip a second time. */
  lemma {:induction false} NormalizeIdempotent(t: Tree)
    ensures Normalize(Normalize(t)) == Normalize(t)
  {
    NormalizePreserves(t);
    NormalizePreserves(Normalize(t));
  }

  /** Taking a policy apart changes neither what it permits nor how it is typed. */
  lemma {:induction false} ReflectPreserves(p: Policy)
    ensures WellTyped(p) ==> WellFormed(Reflect(p))
    ensures forall alg, c :: CheckTree(alg, Reflect(p), c) == Check(alg, p, c)
  {
    match p
    case And(p1, p2) => ReflectPreserves(p1); ReflectPreserves(p2);
    case Or(p1, p2) => ReflectPreserves(p1); ReflectPreserves(p2);
    case Ref(target) => ReflectPreserves(target);
    case Opt(_, Some(q)) => ReflectPreserves(q);
    case Any(erased) => ReflectPreserves(erased);
    case Test(wrapped) => ReflectPreserves(wrapped);
    case _ =>
  }

  /** Dropping a tree that is a no-policy never drops a restriction. */
  lemma {:induction false} NoPolicyPermitsAll(alg: Algebra, t: Tree, c: Context)
    requires WellFormed(t) && IsNoPolicy(t)
    ensures CheckTree(alg, t, c)
  {
    match t
    case RAnd(l, r) => NoPolicyPermitsAll(alg, l, c); NoPolicyPermitsAll(alg, r, c);
    case ROr(l, r) =>
      if IsNoPolicy(l) {
        NoPolicyPermitsAll(alg, l, c);
      } else {
        NoPolicyPermitsAll(alg, r, c);
      }
    case RRef(p, e) => ReflectPreserves(p.target); NoPolicyPermitsAll(alg, e, c);
    case ROpt(Some(e)) => NoPolicyPermitsAll(alg, e, c);
    case RAny(e) => NoPolicyPermitsAll(alg, e, c);
    case RTest(e) => NoPolicyPermitsAll(alg, e, c);
    case _ =>
  }

  /** And a policy that lets everything go, whatever the application's leaves check, is found to be a
      no-policy. */
  lemma {:induction false} NoPolicyExactly(p: Policy)
    requires WellTyped(p)
    ensures IsNoPolicy(Reflect(p)) <==> forall alg, c :: Check(alg, p, c)
  {
    var strict := Algebra((_, _, _) => false, (_, _, _) => false, (_, s, _) => s);
    var c := Context("", Other(0));
    StrictCheck(strict, p, c);
    if IsNoPolicy(Reflect(p)) {
      forall alg, c ensures Check(alg, p, c) {
        ReflectPreserves(p);
        NoPolicyPermitsAll(alg, Reflect(p), c);
      }
    }
  }

  lemma {:induction false} StrictCheck(alg: Algebra, p: Policy, c: Context)
    requires forall tag: nat, s :: !alg.simple(tag, s, c) && !alg.custom(tag, s, c)
    ensures Check(alg, p, c) == IsNoPolicy(Reflect(p))
  {
    match p
    case And(p1, p2) => StrictCheck(alg, p1, c); StrictCheck(alg, p2, c);
    case Or(p1, p2) => StrictCheck(alg, p1, c); StrictCheck(alg, p2, c);
    case Ref(target) => StrictCheck(alg, target, c);
    case Opt(_, Some(q)) => StrictCheck(alg, q, c);
    case Any(erased) => StrictCheck(alg, erased, c);
    case Test(wrapped) => StrictCheck(alg, wrapped, c);
    case _ =>
  }

  // ----- stopping -----

  /** The policies that a tree holds, from left to right. */
  function Held(t: Tree): seq<Policy> {
    match t
    case NoReflection(p) => [p]
    case RLeaf(p) => [p]
    case RAnd(l, r) => Held(l) + Held(r)
    case ROr(l, r) => Held(l) + Held(r)
    case RRef(p, _) => [p]
    case ROpt(None) => []
    case ROpt(Some(e)) => Held(e)
    case RAny(e) => Held(e)
    case RTest(e) => Held(e)
  }

  function FirstOf(ps: seq<Policy>, wanted: Policy -> bool): Option<Policy> {
    if ps == [] then None else if wanted(ps[0]) then Some(ps[0]) else FirstOf(ps[1..], wanted)
  }

  /** A visitor that stops at the first policy that is wanted. */
  function Seeker(wanted: Policy -> bool): Visitor<Option<Policy>> {
    Visitor(
      p => if wanted(p) then Stop(Some(p)) else Continue(None),
      p => if wanted(p) then Stop(Some(p)) else Continue(None),
      (_, _) => Continue(None),
      (_, _) => Continue(None),
      (p, _) => if wanted(p) then Stop(Some(p)) else Continue(None),
      _ => Continue(None),
      _ => Continue(None),
      _ => Continue(None))
  }

  lemma {:induction false} FirstOfBoth(a: seq<Policy>, b: seq<Policy>, wanted: Policy -> bool)
    ensures FirstOf(a + b, wanted) == if FirstOf(a, wanted).Some? then FirstOf(a, wanted) else FirstOf(b, wanted)
  {
    if a == [] {
      assert a + b == b;
    } else {
      assert (a + b)[1..] == a[1..] + b;
      FirstOfBoth(a[1..], b, wanted);
    }
  }

  /** The driver stops where an action says so, before anything further right or further up: what
      such a visitor hands to the caller is the first policy that is wanted, from left to right. */
  lemma {:induction false} StopsAtFirst(t: Tree, wanted: Policy -> bool)
    ensures var first := FirstOf(Held(t), wanted);
            VisitHelper(t, Seeker(wanted)) == if first.Some? then Stop(first) else Continue(None)
  {
    match t
    case RAnd(l, r) => StopsAtFirst(l, wanted); StopsAtFirst(r, wanted); FirstOfBoth(Held(l), Held(r), wanted);
    case ROr(l, r) => StopsAtFirst(l, wanted); StopsAtFirst(r, wanted); FirstOfBoth(Held(l), Held(r), wanted);
    case ROpt(Some(e)) => StopsAtFirst(e, wanted);
    case RAny(e) => StopsAtFirst(e, wanted);
    case RTest(e) => StopsAtFirst(e, wanted);
    case NoReflection(p) => assert [p][1..] == [];
    case RLeaf(p) => assert [p][1..] == [];
    case RRef(p, _) => assert [p][1..] == [];
    case _ =>
  }
}
