/** Policies as values: what a policy is, what its dynamic type is, and when it
    lets data go. */
module Policies {

  datatype Option<+T> = None | Some(value: T)

  datatype Result<+T, +E> = Ok(value: T) | Err(error: E)

  /** What a policy is checked against: the route of the request and the
      application's type-erased context data.  The reason for the check is part of
      what `Other` may stand for. */
  datatype ContextData = OwnerList(names: seq<string>) | Other(id: int)
  datatype Context = Context(route: string, data: ContextData)

  /** The state of an application-defined leaf policy. */
  datatype State = OwnerSet(owners: set<string>) | Opaque(id: int)

  /** A policy that is not a container of policies.  `Simple` leaves can be joined
      with leaves of the same type `tag`; `Custom` leaves cannot be joined. */
  datatype Leaf = NoPolicy | Simple(tag: nat, state: State) | Custom(tag: nat, state: State)

  /** Policy types, as the target of a specialization and as a `TypeId`. */
  datatype Ty =
    | TNo
    | TSimple(tag: nat)
    | TCustom(tag: nat)
    | TAnd(left: Ty, right: Ty)
    | TOr(left: Ty, right: Ty)
    | TRef(target: Ty)
    | TOpt(inner: Ty)
    | TAny
    | TTest(inner: Ty)

  /** Policy values.  An option carries its parameter type, because `None` alone
      does not determine it. */
  datatype Policy =
    | Basic(leaf: Leaf)
    | And(p1: Policy, p2: Policy)
    | Or(p1: Policy, p2: Policy)
    | Ref(target: Policy)
    | Opt(inner: Ty, policy: Option<Policy>)
    | Any(erased: Policy)
    | Test(wrapped: Policy)

  function TypeOf(p: Policy): Ty {
    match p
    case Basic(NoPolicy) => TNo
    case Basic(Simple(tag, _)) => TSimple(tag)
    case Basic(Custom(tag, _)) => TCustom(tag)
    case And(p1, p2) => TAnd(TypeOf(p1), TypeOf(p2))
    case Or(p1, p2) => TOr(TypeOf(p1), TypeOf(p2))
    case Ref(target) => TRef(TypeOf(target))
    case Opt(inner, _) => TOpt(inner)
    case Any(_) => TAny
    case Test(wrapped) => TTest(TypeOf(wrapped))
  }

  /** The one place where a value could disagree with its static type. */
  predicate WellTyped(p: Policy) {
    match p
    case Basic(_) => true
    case And(p1, p2) => WellTyped(p1) && WellTyped(p2)
    case Or(p1, p2) => WellTyped(p1) && WellTyped(p2)
    case Ref(target) => WellTyped(target)
    case Opt(_, None) => true
    case Opt(inner, Some(q)) => TypeOf(q) == inner && WellTyped(q)
    case Any(erased) => WellTyped(erased)
    case Test(wrapped) => WellTyped(wrapped)
  }

  /** The application's leaf policies: how each simple and custom leaf is checked and
      how two simple leaves of one type are merged. */
  datatype Algebra = Algebra(
    simple: (nat, State, Context) -> bool,
    custom: (nat, State, Context) -> bool,
    join: (nat, State, State) -> State)

  /** What Sesame relies on from the author of a simple policy: the merge of two
      policies lets data go exactly where both do. */
  ghost predicate Lawful(alg: Algebra) {
    forall tag: nat, s1, s2, c ::
      alg.simple(tag, alg.join(tag, s1, s2), c) == (alg.simple(tag, s1, c) && alg.simple(tag, s2, c))
  }

  predicate CheckLeaf(alg: Algebra, l: Leaf, c: Context) {
    match l
    case NoPolicy => true
    case Simple(tag, state) => alg.simple(tag, state, c)
    case Custom(tag, state) => alg.custom(tag, state, c)
  }

  /** Whether policy `p` permits release in context `c`. */
  predicate Check(alg: Algebra, p: Policy, c: Context) {
    match p
    case Basic(leaf) => CheckLeaf(alg, leaf, c)
    case And(p1, p2) => Check(alg, p1, c) && Check(alg, p2, c)
    case Or(p1, p2) => Check(alg, p1, c) || Check(alg, p2, c)
    case Ref(target) => Check(alg, target, c)
    case Opt(_, None) => true
    case Opt(_, Some(q)) => Check(alg, q, c)
    case Any(erased) => Check(alg, erased, c)
    case Test(wrapped) => Check(alg, wrapped, c)
  }
}
