/** Joining policies: merging leaves in place where the types allow it, and stacking the
    two policies otherwise. */
module Conjunction {
  import opened Policies
  import opened Reflection
  import opened Specialization
  import opened SpecializationProofs

  // ----- what a join is, on values -----

  /** Whether `p` can absorb the policy that `t` reflects. */
  predicate CanJoin(p: Policy, t: Tree) {
    match p
    case Basic(NoPolicy) => IsNoPolicy(t)
    case Basic(Simple(tag, _)) => t.RLeaf? && (TypeOf(t.policy) == TSimple(tag) || TypeOf(t.policy) == TNo)
    case And(p1, p2) =>
      || (t.RAnd? && CanJoin(p1, t.left) && CanJoin(p2, t.right))
      || CanJoin(p1, t)
      || CanJoin(p2, t)
    case Any(q) => CanJoin(q, t)
    case Test(q) => CanJoin(q, t)
    case _ => false
  }

  /** `p` after it has absorbed the policy that `t` reflects. */
  function Joined(alg: Algebra, p: Policy, t: Tree): (q: Policy)
    requires CanJoin(p, t)
    ensures TypeOf(q) == TypeOf(p)
    ensures WellTyped(p) ==> WellTyped(q)
  {
    match p
    case Basic(NoPolicy) => p
    case Basic(Simple(tag, state)) =>
      if TypeOf(t.policy) == TNo then p
      else Basic(Simple(tag, alg.join(tag, state, t.policy.leaf.state)))
    case And(p1, p2) =>
      if t.RAnd? && CanJoin(p1, t.left) && CanJoin(p2, t.right) then
        And(Joined(alg, p1, t.left), Joined(alg, p2, t.right))
      else if CanJoin(p1, t) then And(Joined(alg, p1, t), p2)
      else And(p1, Joined(alg, p2, t))
    case Any(q) => Any(Joined(alg, q, t))
    case Test(q) => Test(Joined(alg, q, t))
  }

  /** A type-erased policy; wrapping an already erased policy does not nest. */
  function AsAny(p: Policy): Policy {
    if p.Any? then p else Any(p)
  }

  /** One direction, then the other, then a stack of the two. */
  function JoinDynValue(alg: Algebra, p: Policy, q: Policy): Policy {
    if CanJoin(p, Erase(q)) then AsAny(Joined(alg, p, Erase(q)))
    else if CanJoin(q, Erase(p)) then AsAny(Joined(alg, q, Erase(p)))
    else Any(And(AsAny(p), AsAny(q)))
  }

  /** The leaf that a policy is under type-erasing and test wrappers, if it is one. */
  function LeafOf(p: Policy): Option<Leaf> {
    match p
    case Basic(leaf) => Some(leaf)
    case Any(q) => LeafOf(q)
    case Test(q) => LeafOf(q)
    case _ => None
  }

  lemma {:induction false} ErasedLeafOf(p: Policy)
    requires WellTyped(p)
    ensures LeafOf(p).Some? ==> Erase(p) == RLeaf(Basic(LeafOf(p).value))
    ensures LeafOf(p).None? ==> !Erase(p).RLeaf?
  {
    EraseShape(p);
    match p
    case Any(q) => ErasedLeafOf(q);
    case Test(q) => ErasedLeafOf(q);
    case _ =>
  }

  /** What a leaf absorbs: no policy, whatever lets everything go; a simple leaf, a leaf of its type or
      no policy; and a custom leaf, an alternative, an option or a reference, nothing. */
  lemma {:induction false} LeafAbsorbs(p: Policy, q: Policy)
    requires WellTyped(q)
    ensures p == Basic(NoPolicy) ==> (CanJoin(p, Erase(q)) <==> forall alg, c :: Check(alg, q, c))
    ensures p.Basic? && p.leaf.Simple? ==>
              (CanJoin(p, Erase(q)) <==>
               && LeafOf(q).Some?
               && (LeafOf(q).value.NoPolicy? || (LeafOf(q).value.Simple? && LeafOf(q).value.tag == p.leaf.tag)))
    ensures (p.Basic? && p.leaf.Custom?) || p.Or? || p.Opt? || p.Ref? ==> !CanJoin(p, Erase(q))
  {
    hide Check, Erase;
    ErasedLeafOf(q);
    NoPolicyExactly(q);
    ErasedNoPolicy(q);
  }

  lemma {:induction false} ErasedNoPolicy(q: Policy)
    requires WellTyped(q)
    ensures IsNoPolicy(Erase(q)) == IsNoPolicy(Reflect(q))
  {
    NormalizePreserves(Reflect(q));
  }

  /** Absorbing a policy lets data go exactly where both policies did. */
  lemma {:induction false} JoinedChecksBoth(alg: Algebra, p: Policy, t: Tree, c: Context)
    requires Lawful(alg) && WellFormed(t) && CanJoin(p, t)
    ensures Check(alg, Joined(alg, p, t), c) == (Check(alg, p, c) && CheckTree(alg, t, c))
  {
    match p
    case Basic(NoPolicy) => NoPolicyPermitsAll(alg, t, c);
    case And(p1, p2) =>
      if t.RAnd? && CanJoin(p1, t.left) && CanJoin(p2, t.right) {
        JoinedChecksBoth(alg, p1, t.left, c);
        JoinedChecksBoth(alg, p2, t.right, c);
      } else if CanJoin(p1, t) {
        JoinedChecksBoth(alg, p1, t, c);
      } else {
        JoinedChecksBoth(alg, p2, t, c);
      }
    case Any(q) => JoinedChecksBoth(alg, q, t, c);
    case Test(q) => JoinedChecksBoth(alg, q, t, c);
    case _ =>
  }

  lemma {:induction false} AsAnyKeeps(alg: Algebra, p: Policy, c: Context)
    ensures Check(alg, AsAny(p), c) == Check(alg, p, c)
    ensures WellTyped(AsAny(p)) == WellTyped(p) && AsAny(p).Any?
  {
  }

  lemma {:induction false} StackChecksBoth(alg: Algebra, p: Policy, q: Policy, c: Context)
    ensures Check(alg, Any(And(p, q)), c) == (Check(alg, p, c) && Check(alg, q, c))
    ensures WellTyped(Any(And(p, q))) == (WellTyped(p) && WellTyped(q))
  {
  }

  /** Join is conjunction, whichever way the two policies were joined. */
  lemma {:induction false} JoinIsConjunction(alg: Algebra, p: Policy, q: Policy, c: Context)
    requires Lawful(alg) && WellTyped(p) && WellTyped(q)
    ensures Check(alg, JoinDynValue(alg, p, q), c) == (Check(alg, p, c) && Check(alg, q, c))
    ensures WellTyped(JoinDynValue(alg, p, q)) && JoinDynValue(alg, p, q).Any?
  {
    hide CanJoin, Joined, AsAny, Check, CheckTree, WellTyped, Erase, Lawful;
    EraseKeepsCheck(alg, p, c);
    EraseKeepsCheck(alg, q, c);
    if CanJoin(p, Erase(q)) {
      JoinedChecksBoth(alg, p, Erase(q), c);
      AsAnyKeeps(alg, Joined(alg, p, Erase(q)), c);
    } else if CanJoin(q, Erase(p)) {
      JoinedChecksBoth(alg, q, Erase(p), c);
      AsAnyKeeps(alg, Joined(alg, q, Erase(p)), c);
    } else {
      AsAnyKeeps(alg, p, c);
      AsAnyKeeps(alg, q, c);
      StackChecksBoth(alg, AsAny(p), AsAny(q), c);
    }
  }

  // ----- joins of one static type -----

  /** Types whose values always join with each other. */
  predicate SelfJoining(ty: Ty) {
    match ty
    case TNo => true
    case TSimple(_) => true
    case TAnd(l, r) => SelfJoining(l) && SelfJoining(r)
    case TTest(inner) => SelfJoining(inner)
    case _ => false
  }

  function ReflexiveJoined(alg: Algebra, p: Policy, q: Policy): (r: Policy)
    requires TypeOf(p) == TypeOf(q) && SelfJoining(TypeOf(p))
    ensures TypeOf(r) == TypeOf(p)
    decreases p
  {
    match p
    case Basic(NoPolicy) => p
    case Basic(Simple(tag, state)) => Basic(Simple(tag, alg.join(tag, state, q.leaf.state)))
    case And(p1, p2) => And(ReflexiveJoined(alg, p1, q.p1), ReflexiveJoined(alg, p2, q.p2))
    case Test(p') => Test(ReflexiveJoined(alg, p', q.wrapped))
  }

  /** Joining through reflection never refuses a policy of such a type, and does what the
      statically typed join does. */
  lemma {:induction false} ReflexiveAgrees(alg: Algebra, p: Policy, q: Policy)
    requires TypeOf(p) == TypeOf(q) && SelfJoining(TypeOf(p))
    ensures CanJoin(p, Erase(q))
    ensures Joined(alg, p, Erase(q)) == ReflexiveJoined(alg, p, q)
  {
    EraseShape(q);
    match p
    case And(p1, p2) => ReflexiveAgrees(alg, p1, q.p1); ReflexiveAgrees(alg, p2, q.p2);
    case Test(p') => ReflexiveAgrees(alg, p', q.wrapped);
    case _ =>
  }

  // ----- policies in memory -----

  /** Where a leaf policy lives; a join overwrites it. */
  class Cell {
    var leaf: Leaf

    constructor (leaf: Leaf)
      ensures this.leaf == leaf
    {
      this.leaf := leaf;
    }
  }

  /** A policy in memory.  `Fixed` holds the policies that refuse every join: alternatives,
      options and references. */
  datatype Owned =
    | Place(cell: Cell)
    | Both(left: Owned, right: Owned)
    | Erased(inner: Owned)
    | Tested(inner: Owned)
    | Fixed(policy: Policy)
  {
    ghost function Cells(): set<Cell> {
      match this
      case Place(cell) => {cell}
      case Both(l, r) => l.Cells() + r.Cells()
      case Erased(o) => o.Cells()
      case Tested(o) => o.Cells()
      case Fixed(_) => {}
    }

    /** Ownership: the two sides of a conjunction share no leaf. */
    ghost predicate Valid() {
      match this
      case Place(_) => true
      case Both(l, r) => l.Valid() && r.Valid() && l.Cells() !! r.Cells()
      case Erased(o) => o.Valid()
      case Tested(o) => o.Valid()
      case Fixed(p) => (p.Or? || p.Opt? || p.Ref?) && WellTyped(p)
    }

    function Value(): Policy
      reads Cells()
    {
      match this
      case Place(cell) => Basic(cell.leaf)
      case Both(l, r) => And(l.Value(), r.Value())
      case Erased(o) => Any(o.Value())
      case Tested(o) => Test(o.Value())
      case Fixed(p) => p
    }

    /** The mutable reflection, normalized. */
    function Reflected(): View {
      match this
      case Place(cell) => Leaf(cell)
      case Both(l, r) => Pair(l.Reflected(), r.Reflected())
      case Erased(o) => o.Reflected()
      case Tested(o) => o.Reflected()
      case Fixed(p) => Rigid(Erase(p))
    }

    lemma {:induction false} ReflectedShows()
      requires Valid()
      ensures Reflected().Cells() == Cells()
      ensures Reflected().Valid()
      ensures Reflected().Tree() == Erase(Value())
      ensures WellTyped(Value())
    {
      EraseShape(Value());
      match this
      case Both(l, r) => l.ReflectedShows(); r.ReflectedShows();
      case Erased(o) => o.ReflectedShows();
      case Tested(o) => o.ReflectedShows();
      case _ =>
    }
  }

  /** A normalized reflection that still points at the leaves it reflects. */
  datatype View = Leaf(cell: Cell) | Pair(left: View, right: View) | Rigid(tree: Tree)
  {
    ghost function Cells(): set<Cell> {
      match this
      case Leaf(cell) => {cell}
      case Pair(l, r) => l.Cells() + r.Cells()
      case Rigid(_) => {}
    }

    predicate Valid() {
      match this
      case Leaf(_) => true
      case Pair(l, r) => l.Valid() && r.Valid()
      case Rigid(t) => !t.RLeaf? && !t.RAnd?
    }

    function Tree(): Tree
      reads Cells()
    {
      match this
      case Leaf(cell) => RLeaf(Basic(cell.leaf))
      case Pair(l, r) => RAnd(l.Tree(), r.Tree())
      case Rigid(t) => t
    }
  }

  // ----- joins in place -----

  /** Joins the reflected policy into `self`.  The answer is the one that was announced by
      `CanJoin`, so neither panic of the conjunction case can be reached, and after a
      refusal nothing has changed. */
  method JoinViaReflection(alg: Algebra, self: Owned, v: View) returns (joined: bool)
    requires self.Valid() && v.Valid() && self.Cells() !! v.Cells()
    modifies self.Cells()
    ensures joined == old(CanJoin(self.Value(), v.Tree()))
    ensures joined ==> self.Value() == Joined(alg, old(self.Value()), old(v.Tree()))
    ensures !joined ==> self.Value() == old(self.Value())
    decreases self, 1
  {
    match self
    case Place(cell) =>
      match cell.leaf {
        case NoPolicy => joined := IsNoPolicy(v.Tree());
        case Simple(tag, state) =>
          joined := false;
          if v.Leaf? {
            var other := v.cell.leaf;
            if other.Simple? && other.tag == tag {
              cell.leaf := Simple(tag, alg.join(tag, state, other.state));
              joined := true;
            } else if other.NoPolicy? {
              joined := true;
            }
          }
        case Custom(_, _) => joined := false;
      }
    case Both(l, r) => joined := JoinBoth(alg, l, r, v);
    case Erased(o) => joined := JoinViaReflection(alg, o, v);
    case Tested(o) => joined := JoinViaReflection(alg, o, v);
    case Fixed(_) => joined := false;
  }

  /** The same for a conjunction: component by component, or into one side. */
  method JoinBoth(alg: Algebra, l: Owned, r: Owned, v: View) returns (joined: bool)
    requires Both(l, r).Valid() && v.Valid() && Both(l, r).Cells() !! v.Cells()
    modifies l.Cells(), r.Cells()
    ensures joined == old(CanJoin(And(l.Value(), r.Value()), v.Tree()))
    ensures joined ==> And(l.Value(), r.Value()) == Joined(alg, old(And(l.Value(), r.Value())), old(v.Tree()))
    ensures !joined ==> l.Value() == old(l.Value()) && r.Value() == old(r.Value())
    decreases Both(l, r), 0
  {
    assert allocated(l.Cells()) && allocated(r.Cells()) && allocated(v.Cells());
    if v.Pair? {
      assert allocated(v.left.Cells()) && allocated(v.right.Cells());
      if CanJoin(l.Value(), v.left.Tree()) && CanJoin(r.Value(), v.right.Tree()) {
        var first := JoinViaReflection(alg, l, v.left);
        if !first { assert false; }
        var second := JoinViaReflection(alg, r, v.right);
        if !second { assert false; }
        return true;
      }
    }
    if CanJoin(l.Value(), v.Tree()) {
      var first := JoinViaReflection(alg, l, v);
      if !first { assert false; }
      joined := true;
    } else {
      joined := JoinViaReflection(alg, r, v);
    }
  }

  function Wrap(o: Owned): Owned {
    if o.Erased? then o else Erased(o)
  }

  /** The public join: the result is built from the two arguments' own leaves, and its
      value is the one whose check is the conjunction. */
  method JoinDyn(alg: Algebra, p1: Owned, p2: Owned) returns (r: Owned)
    requires p1.Valid() && p2.Valid() && p1.Cells() !! p2.Cells()
    modifies p1.Cells(), p2.Cells()
    ensures r.Valid() && r.Cells() <= p1.Cells() + p2.Cells()
    ensures r.Value() == old(JoinDynValue(alg, p1.Value(), p2.Value()))
  {
    hide CanJoin, Joined, Erase, WellTyped;
    p1.ReflectedShows();
    p2.ReflectedShows();
    assert allocated(p1.Cells()) && allocated(p2.Cells());
    var joined := JoinViaReflection(alg, p1, p2.Reflected());
    if joined { return Wrap(p1); }
    p1.ReflectedShows();
    joined := JoinViaReflection(alg, p2, p1.Reflected());
    if joined {
      assert Wrap(p2).Value() == AsAny(p2.Value());
      return Wrap(p2);
    }
    var w1, w2 := Wrap(p1), Wrap(p2);
    assert w1.Valid() && w1.Cells() == p1.Cells() && w1.Value() == AsAny(p1.Value());
    assert w2.Valid() && w2.Cells() == p2.Cells() && w2.Value() == AsAny(p2.Value());
    var stack := Both(w1, w2);
    assert stack.Valid() && stack.Value() == And(w1.Value(), w2.Value());
    r := Erased(stack);
  }

  /** The statically typed join, in place. */
  method ReflexiveJoin(alg: Algebra, self: Owned, other: Owned)
    requires self.Valid() && other.Valid() && self.Cells() !! other.Cells()
    requires TypeOf(self.Value()) == TypeOf(other.Value()) && SelfJoining(TypeOf(self.Value()))
    modifies self.Cells()
    ensures self.Value() == old(ReflexiveJoined(alg, self.Value(), other.Value()))
    decreases self
  {
    match self
    case Place(cell) =>
      match cell.leaf {
        case NoPolicy =>
        case Simple(tag, state) => cell.leaf := Simple(tag, alg.join(tag, state, other.cell.leaf.state));
      }
    case Both(l, r) =>
      assert allocated(r.Cells()) && allocated(other.right.Cells()) && allocated(l.Cells());
      ReflexiveJoin(alg, l, other.left);
      ReflexiveJoin(alg, r, other.right);
    case Tested(o) => ReflexiveJoin(alg, o, other.inner);
  }
}
