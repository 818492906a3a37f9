/** Rebuilding a policy of a given static type from a type-erased tree. */
module Specialization {
  import opened Policies
  import opened Reflection

  // ----- the termination measure -----

  /** And/Or nodes that a specialization can reach. */
  function Nodes(t: Tree): nat {
    match t
    case NoReflection(_) => 0
    case RLeaf(_) => 0
    case RAnd(l, r) => 1 + Nodes(l) + Nodes(r)
    case ROr(l, r) => 1 + Nodes(l) + Nodes(r)
    case RRef(_, _) => 0
    case ROpt(None) => 0
    case ROpt(Some(e)) => Nodes(e)
    case RAny(e) => Nodes(e)
    case RTest(e) => Nodes(e)
  }

  function PolicyNodes(p: Policy): nat {
    match p
    case Basic(_) => 0
    case And(p1, p2) => 1 + PolicyNodes(p1) + PolicyNodes(p2)
    case Or(p1, p2) => 1 + PolicyNodes(p1) + PolicyNodes(p2)
    case Ref(_) => 0
    case Opt(_, None) => 0
    case Opt(_, Some(q)) => PolicyNodes(q)
    case Any(erased) => PolicyNodes(erased)
    case Test(wrapped) => PolicyNodes(wrapped)
  }

  /** How many options are stacked at the top. */
  function Chain(t: Tree): nat {
    match t
    case ROpt(None) => 1
    case ROpt(Some(e)) => 1 + Chain(e)
    case _ => 0
  }

  // ----- trees that a specialization may be given -----

  predicate Source(t: Tree) {
    Normalized(t) && WellFormed(t)
  }

  /** `e` is a tree that a failed attempt on `t` may hand back. */
  predicate HandsBack(t: Tree, e: Tree) {
    Source(e) && Nodes(e) <= Nodes(t) && Chain(e) == Chain(t)
  }

  predicate HandsBackOption(o: Option<Tree>, e: Option<Tree>) {
    o.Some? == e.Some? && (o.Some? ==> HandsBack(o.value, e.value))
  }

  /** `p` is what a successful attempt at type `ty` yields from a tree with `n` And/Or
      nodes. */
  predicate Yields(p: Policy, ty: Ty, n: nat) {
    TypeOf(p) == ty && WellTyped(p) && PolicyNodes(p) <= n
  }

  /** The normalized reflection of a policy, as a failed attempt hands it back. */
  function Erase(p: Policy): (t: Tree)
    ensures WellTyped(p) ==> Source(t)
    ensures Nodes(t) == PolicyNodes(p)
  {
    ReflectPreserves(p);
    NormalizePreserves(Reflect(p));
    EraseKeepsNodes(p);
    Normalize(Reflect(p))
  }

  lemma {:induction false} EraseKeepsNodes(p: Policy)
    ensures Nodes(Normalize(Reflect(p))) == PolicyNodes(p)
  {
    match p
    case And(p1, p2) =>
      NormalizePreserves(Reflect(p1)); NormalizePreserves(Reflect(p2));
      EraseKeepsNodes(p1); EraseKeepsNodes(p2);
    case Or(p1, p2) =>
      NormalizePreserves(Reflect(p1)); NormalizePreserves(Reflect(p2));
      EraseKeepsNodes(p1); EraseKeepsNodes(p2);
    case Opt(_, Some(q)) => NormalizePreserves(Reflect(q)); EraseKeepsNodes(q);
    case Any(q) => NormalizePreserves(Reflect(q)); EraseKeepsNodes(q);
    case Test(q) => NormalizePreserves(Reflect(q)); EraseKeepsNodes(q);
    case _ =>
  }

  // ----- the hooks of the target types -----

  function SpecializeLeaf(p: Policy, ty: Ty): (r: Result<Policy, Policy>)
    requires Atomic(p)
    ensures r.Ok? ==> Yields(r.value, ty, 0)
    ensures r.Err? ==> r.error == p
  {
    match ty
    case TAnd(_, _) => Err(p)
    case TOr(_, _) => Err(p)
    case TOpt(inner) =>
      if TypeOf(p) == TNo then Ok(Opt(inner, None))
      else if TypeOf(p) == inner then
        (match SpecializeLeaf(p, inner)
         case Ok(q) => Ok(Opt(inner, Some(q)))
         case Err(q) => Err(q))
      else Err(p)
    case TAny => Ok(Any(p))
    case TTest(inner) =>
      (match SpecializeLeaf(p, inner)
       case Ok(q) => Ok(Test(q))
       case Err(q) => Err(q))
    case _ => if TypeOf(p) == ty then Ok(p) else Err(p)
  }

  /** What two half-attempts on the children hand back when not both succeed. */
  function Remains(r: Result<Policy, Tree>): Tree
  {
    match r
    case Ok(p) => Erase(p)
    case Err(e) => e
  }

  /** Both policies, or the trees to try again with. */
  function Halves(r1: Result<Policy, Tree>, r2: Result<Policy, Tree>): Result<(Policy, Policy), (Tree, Tree)>
  {
    if r1.Ok? && r2.Ok? then Ok((r1.value, r2.value)) else Err((Remains(r1), Remains(r2)))
  }

  function SpecializeAnd(l: Tree, r: Tree, ty: Ty): (res: Result<Policy, (Tree, Tree)>)
    requires Source(l) && Source(r)
    ensures res.Ok? ==> Yields(res.value, ty, 1 + Nodes(l) + Nodes(r))
    ensures res.Err? ==> Source(res.error.0) && Nodes(res.error.0) <= Nodes(l)
    ensures res.Err? ==> Source(res.error.1) && Nodes(res.error.1) <= Nodes(r)
    decreases 1 + Nodes(l) + Nodes(r), 0, ty, 0
  {
    match ty
    case TAnd(ty1, ty2) =>
      (match Halves(Specialize(l, ty1), Specialize(r, ty2))
       case Ok(ps) => Ok(And(ps.0, ps.1))
       case Err(e) => Err(e))
    case TAny =>
      (match Halves(Specialize(l, TAny), Specialize(r, TAny))
       case Ok(ps) => Ok(Any(And(ps.0, ps.1)))
       case Err(e) => Err(e))
    case TTest(inner) =>
      (match SpecializeAnd(l, r, inner)
       case Ok(p) => Ok(Test(p))
       case Err(e) => Err(e))
    case _ => Err((l, r))
  }

  function SpecializeOr(l: Tree, r: Tree, ty: Ty): (res: Result<Policy, (Tree, Tree)>)
    requires Source(l) && Source(r)
    ensures res.Ok? ==> Yields(res.value, ty, 1 + Nodes(l) + Nodes(r))
    ensures res.Err? ==> Source(res.error.0) && Nodes(res.error.0) <= Nodes(l)
    ensures res.Err? ==> Source(res.error.1) && Nodes(res.error.1) <= Nodes(r)
    decreases 1 + Nodes(l) + Nodes(r), 0, ty, 0
  {
    match ty
    case TOr(ty1, ty2) =>
      (match Halves(Specialize(l, ty1), Specialize(r, ty2))
       case Ok(ps) => Ok(Or(ps.0, ps.1))
       case Err(e) => Err(e))
    case TAny =>
      (match Halves(Specialize(l, TAny), Specialize(r, TAny))
       case Ok(ps) => Ok(Any(Or(ps.0, ps.1)))
       case Err(e) => Err(e))
    case TTest(inner) =>
      (match SpecializeOr(l, r, inner)
       case Ok(p) => Ok(Test(p))
       case Err(e) => Err(e))
    case _ => Err((l, r))
  }

  function SpecializeOption(o: Option<Tree>, ty: Ty): (res: Result<Policy, Option<Tree>>)
    requires o.Some? ==> Source(o.value)
    ensures res.Ok? ==> Yields(res.value, ty, Nodes(ROpt(o)))
    ensures res.Err? ==> HandsBackOption(o, res.error)
    decreases Nodes(ROpt(o)), Chain(ROpt(o)), ty, 0
  {
    match ty
    case TOpt(inner) =>
      (match o
       case None => Ok(Opt(inner, None))
       case Some(t) =>
         match Specialize(t, inner)
         case Ok(p) => Ok(Opt(inner, Some(p)))
         case Err(e) => Err(Some(e)))
    case TAny =>
      (match o
       case None => Ok(Any(Basic(NoPolicy)))
       case Some(t) =>
         match Specialize(t, TAny)
         case Ok(p) => Ok(p)
         case Err(e) => Err(Some(e)))
    case TTest(inner) =>
      (match SpecializeOption(o, inner)
       case Ok(p) => Ok(Test(p))
       case Err(e) => Err(e))
    case _ => Err(o)
  }

  // ----- the transformation -----

  /** Drops a side that is a no-policy and specializes the other one. */
  function DropNoPolicy(l: Tree, r: Tree, ty: Ty): (res: Result<Policy, Tree>)
    requires Source(l) && Source(r)
    ensures res.Ok? ==> Yields(res.value, ty, 1 + Nodes(l) + Nodes(r))
    ensures res.Err? ==> HandsBack(RAnd(l, r), res.error)
    decreases 1 + Nodes(l) + Nodes(r), 0, ty, 1
  {
    var first := if IsNoPolicy(l) then Specialize(r, ty) else Err(r);
    if first.Ok? then first else
    var second := if IsNoPolicy(first.error) then Specialize(l, ty) else Err(l);
    if second.Ok? then second else Err(RAnd(second.error, first.error))
  }

  /** Both orientations, then without a no-policy side. */
  function SpecializeConjunction(l: Tree, r: Tree, ty: Ty): (res: Result<Policy, Tree>)
    requires Source(l) && Source(r)
    ensures res.Ok? ==> Yields(res.value, ty, 1 + Nodes(l) + Nodes(r))
    ensures res.Err? ==> HandsBack(RAnd(l, r), res.error)
    decreases 1 + Nodes(l) + Nodes(r), 0, ty, 2
  {
    var straight := SpecializeAnd(l, r, ty);
    if straight.Ok? then Ok(straight.value) else
    var swapped := SpecializeAnd(straight.error.1, straight.error.0, ty);
    if swapped.Ok? then Ok(swapped.value) else
    DropNoPolicy(swapped.error.1, swapped.error.0, ty)
  }

  /** Specializes one side of an alternative, the left one first. */
  function PickSide(l: Tree, r: Tree, ty: Ty): (res: Result<Policy, Tree>)
    requires Source(l) && Source(r)
    ensures res.Ok? ==> Yields(res.value, ty, 1 + Nodes(l) + Nodes(r))
    ensures res.Err? ==> HandsBack(ROr(l, r), res.error)
    decreases 1 + Nodes(l) + Nodes(r), 0, ty, 1
  {
    var first := Specialize(l, ty);
    if first.Ok? then first else
    var second := Specialize(r, ty);
    if second.Ok? then second else Err(ROr(first.error, second.error))
  }

  /** Both orientations, then one side alone. */
  function SpecializeDisjunction(l: Tree, r: Tree, ty: Ty): (res: Result<Policy, Tree>)
    requires Source(l) && Source(r)
    ensures res.Ok? ==> Yields(res.value, ty, 1 + Nodes(l) + Nodes(r))
    ensures res.Err? ==> HandsBack(ROr(l, r), res.error)
    decreases 1 + Nodes(l) + Nodes(r), 0, ty, 2
  {
    var straight := SpecializeOr(l, r, ty);
    if straight.Ok? then Ok(straight.value) else
    var swapped := SpecializeOr(straight.error.1, straight.error.0, ty);
    if swapped.Ok? then Ok(swapped.value) else
    PickSide(swapped.error.1, swapped.error.0, ty)
  }

  /** As an option, then as the policy inside it; an empty option is a no-policy. */
  function SpecializeOptional(o: Option<Tree>, ty: Ty): (res: Result<Policy, Tree>)
    requires Source(ROpt(o))
    ensures res.Ok? ==> Yields(res.value, ty, Nodes(ROpt(o)))
    ensures res.Err? ==> HandsBack(ROpt(o), res.error)
    decreases Nodes(ROpt(o)), Chain(ROpt(o)), ty, 2
  {
    var whole := SpecializeOption(o, ty);
    if whole.Ok? then Ok(whole.value) else
    match whole.error
    case None =>
      (match SpecializeLeaf(Basic(NoPolicy), ty)
       case Ok(p) => Ok(p)
       case Err(_) => Err(ROpt(None)))
    case Some(t) =>
      match Specialize(t, ty)
      case Ok(p) => Ok(p)
      case Err(e) => Err(ROpt(Some(e)))
  }

  /** Specializes a normalized tree to type `ty`, or hands back a tree to try again with.
      The later attempts run on trees rebuilt from failed earlier attempts, so the
      recursion is not structural: it decreases because no outcome has more And/Or nodes,
      and every tree handed back keeps its stack of options. */
  function Specialize(t: Tree, ty: Ty): (res: Result<Policy, Tree>)
    requires Source(t)
    ensures res.Ok? ==> Yields(res.value, ty, Nodes(t))
    ensures res.Err? ==> HandsBack(t, res.error)
    decreases Nodes(t), Chain(t), ty, 3
  {
    match t
    case NoReflection(p) => LeafOutcome(SpecializeLeaf(p, ty))
    case RLeaf(p) => LeafOutcome(SpecializeLeaf(p, ty))
    case RRef(p, _) => LeafOutcome(SpecializeLeaf(p, ty))
    case RAnd(l, r) => SpecializeConjunction(l, r, ty)
    case ROr(l, r) => SpecializeDisjunction(l, r, ty)
    case ROpt(o) => SpecializeOptional(o, ty)
  }

  function LeafOutcome(r: Result<Policy, Policy>): Result<Policy, Tree> {
    match r
    case Ok(p) => Ok(p)
    case Err(p) => Err(RLeaf(p))
  }

  /** The entry point: reflect, normalize, specialize. */
  function SpecializePolicy(p: Policy, ty: Ty): Result<Policy, Tree>
    requires WellTyped(p)
  {
    Specialize(Erase(p), ty)
  }
}
