/** Folding privacy containers out of arbitrary data: the generic algorithm over an
    erased representation, and the loops that replace it for plain vectors. */
module Folding {
  import opened Policies
  import opened Specialization
  import opened Conjunction

  /** Type-erased data: its type and its content. */
  datatype Data = Data(tag: nat, content: int)

  datatype Ty =
    | TData(tag: nat)
    | TPCon(tag: nat, policy: Policies.Ty)
    | TOption(inner: Ty)
    | TResult(ok: Ty, err: Ty)
    | TVec(inner: Ty)
    | TMap(kind: nat, inner: Ty)
    | TTuple(parts: seq<Ty>)

  /** Application data.  A container holds erased data: nothing inside it is folded. */
  datatype Val =
    | VData(data: Data)
    | VPCon(data: Data, policy: Policy)
    | VNone
    | VSome(value: Val)
    | VOk(value: Val)
    | VErr(value: Val)
    | VVec(items: seq<Val>)
    | VMap(kind: nat, entries: map<int, Val>)
    | VTuple(parts: seq<Val>)

  /** A type-erased policy holds a concrete one, because erasing it once more does not nest. */
  predicate Flat(p: Policy) {
    p.Any? ==> !p.erased.Any?
  }

  predicate HasType(v: Val, ty: Ty) {
    match ty
    case TData(tag) => v.VData? && v.data.tag == tag
    case TPCon(tag, policy) =>
      v.VPCon? && v.data.tag == tag && WellTyped(v.policy) && Flat(v.policy) && TypeOf(v.policy) == policy
    case TOption(inner) => v.VNone? || (v.VSome? && HasType(v.value, inner))
    case TResult(ok, err) => (v.VOk? && HasType(v.value, ok)) || (v.VErr? && HasType(v.value, err))
    case TVec(inner) => v.VVec? && forall x | x in v.items :: HasType(x, inner)
    case TMap(kind, inner) => v.VMap? && v.kind == kind && forall k | k in v.entries :: HasType(v.entries[k], inner)
    case TTuple(parts) =>
      v.VTuple? && |v.parts| == |parts| && forall i | 0 <= i < |parts| :: HasType(v.parts[i], parts[i])
  }

  /** `to_string` and `from_str` of the key types of hash maps. */
  datatype Codec = Codec(show: (nat, int) -> string, parse: (nat, string) -> Option<int>)

  ghost predicate RoundTrips(cd: Codec) {
    forall kind: nat, k :: cd.parse(kind, cd.show(kind, k)) == Some(k)
  }

  datatype Enum =
    | EPCon(data: Data, policy: Policy)
    | EValue(data: Data)
    | EVec(items: seq<Enum>)
    | EStruct(fields: map<string, Enum>)

  /** The keys as strings; each of them names the key it was made from. */
  function Shown(cd: Codec, kind: nat, keys: set<int>): (shown: set<string>)
    requires RoundTrips(cd)
    ensures forall s | s in shown :: cd.parse(kind, s).Some? && cd.parse(kind, s).value in keys
    ensures forall s | s in shown :: s == cd.show(kind, cd.parse(kind, s).value)
    ensures forall k | k in keys :: cd.show(kind, k) in shown
  {
    set k | k in keys :: cd.show(kind, k)
  }

  function ToEnum(cd: Codec, v: Val): Enum
    requires RoundTrips(cd)
  {
    match v
    case VData(d) => EValue(d)
    case VPCon(d, p) => EPCon(d, AsAny(p))
    case VNone => EVec([])
    case VSome(x) => EVec([ToEnum(cd, x)])
    case VOk(x) => EStruct(map["Ok" := ToEnum(cd, x)])
    case VErr(x) => EStruct(map["Err" := ToEnum(cd, x)])
    case VVec(items) => EVec(seq(|items|, i requires 0 <= i < |items| => ToEnum(cd, items[i])))
    case VMap(kind, entries) =>
      EStruct(map s | s in Shown(cd, kind, entries.Keys) :: ToEnum(cd, entries[cd.parse(kind, s).value]))
    case VTuple(parts) => EVec(seq(|parts|, i requires 0 <= i < |parts| => ToEnum(cd, parts[i])))
  }

  /** The data with every container replaced by its content. */
  function Strip(v: Val): Val {
    match v
    case VData(_) => v
    case VPCon(d, _) => VData(d)
    case VNone => v
    case VSome(x) => VSome(Strip(x))
    case VOk(x) => VOk(Strip(x))
    case VErr(x) => VErr(Strip(x))
    case VVec(items) => VVec(seq(|items|, i requires 0 <= i < |items| => Strip(items[i])))
    case VMap(kind, entries) => VMap(kind, map k | k in entries :: Strip(entries[k]))
    case VTuple(parts) => VTuple(seq(|parts|, i requires 0 <= i < |parts| => Strip(parts[i])))
  }

  function StripEnum(e: Enum): Enum {
    match e
    case EPCon(d, _) => EValue(d)
    case EValue(_) => e
    case EVec(items) => EVec(seq(|items|, i requires 0 <= i < |items| => StripEnum(items[i])))
    case EStruct(fields) => EStruct(map k | k in fields :: StripEnum(fields[k]))
  }

  /** Whether every contained policy permits release. */
  predicate Permits(alg: Algebra, v: Val, c: Context) {
    match v
    case VData(_) => true
    case VPCon(_, p) => Check(alg, p, c)
    case VNone => true
    case VSome(x) => Permits(alg, x, c)
    case VOk(x) => Permits(alg, x, c)
    case VErr(x) => Permits(alg, x, c)
    case VVec(items) => forall x | x in items :: Permits(alg, x, c)
    case VMap(_, entries) => forall k | k in entries :: Permits(alg, entries[k], c)
    case VTuple(parts) => forall x | x in parts :: Permits(alg, x, c)
  }

  predicate PermitsEnum(alg: Algebra, e: Enum, c: Context) {
    match e
    case EPCon(_, p) => Check(alg, p, c)
    case EValue(_) => true
    case EVec(items) => forall x | x in items :: PermitsEnum(alg, x, c)
    case EStruct(fields) => forall k | k in fields :: PermitsEnum(alg, fields[k], c)
  }

  predicate ValidEnum(e: Enum) {
    match e
    case EPCon(_, p) => p.Any? && WellTyped(p)
    case EValue(_) => true
    case EVec(items) => forall x | x in items :: ValidEnum(x)
    case EStruct(fields) => forall k | k in fields :: ValidEnum(fields[k])
  }

  /** `w` is `v` with containers put around any of its data. */
  predicate Filled(w: Val, v: Val)
    decreases v
  {
    match v
    case VData(d) => w == v || (w.VPCon? && w.data == d)
    case VPCon(_, _) => false
    case VNone => w == v
    case VSome(x) => w.VSome? && Filled(w.value, x)
    case VOk(x) => w.VOk? && Filled(w.value, x)
    case VErr(x) => w.VErr? && Filled(w.value, x)
    case VVec(items) => w.VVec? && |w.items| == |items| && forall i | 0 <= i < |items| :: Filled(w.items[i], items[i])
    case VMap(kind, entries) =>
      w.VMap? && w.kind == kind && w.entries.Keys == entries.Keys
      && forall k | k in entries :: Filled(w.entries[k], entries[k])
    case VTuple(parts) =>
      w.VTuple? && |w.parts| == |parts| && forall i | 0 <= i < |parts| :: Filled(w.parts[i], parts[i])
  }

  lemma {:induction false} SameMap<K, V>(a: map<K, V>, b: map<K, V>)
    requires a.Keys == b.Keys
    ensures a == b <==> forall k | k in b :: a[k] == b[k]
  {
    assert forall k :: k in a <==> k in b;
  }

  lemma {:induction false} StripMap(w: Val, v: Val)
    requires w.VMap? && v.VMap?
    requires forall k | k in w.entries && k in v.entries ::
               Strip(w.entries[k]) == v.entries[k] <==> Filled(w.entries[k], v.entries[k])
    ensures Strip(w) == v <==> Filled(w, v)
  {
    var stripped: map<int, Val> := map k | k in w.entries :: Strip(w.entries[k]);
    assert Strip(w) == VMap(w.kind, stripped) && stripped.Keys == w.entries.Keys;
    if w.entries.Keys == v.entries.Keys {
      SameMap(stripped, v.entries);
      if Filled(w, v) {
        forall k | k in v.entries ensures stripped[k] == v.entries[k] {}
      }
      if stripped == v.entries {
        forall k | k in v.entries ensures Filled(w.entries[k], v.entries[k]) { assert stripped[k] == v.entries[k]; }
      }
    }
  }

  /** Nothing but the containers is taken away, and every container is. */
  lemma {:induction false} StripIs(w: Val, v: Val)
    ensures Strip(w) == v <==> Filled(w, v)
    decreases v
  {
    match (w, v)
    case (VSome(y), VSome(x)) => StripIs(y, x);
    case (VOk(y), VOk(x)) => StripIs(y, x);
    case (VErr(y), VErr(x)) => StripIs(y, x);
    case (VVec(ys), VVec(xs)) =>
      if |ys| == |xs| {
        forall i | 0 <= i < |xs| ensures Strip(ys[i]) == xs[i] <==> Filled(ys[i], xs[i]) { StripIs(ys[i], xs[i]); }
      }
    case (VTuple(ys), VTuple(xs)) =>
      if |ys| == |xs| {
        forall i | 0 <= i < |xs| ensures Strip(ys[i]) == xs[i] <==> Filled(ys[i], xs[i]) { StripIs(ys[i], xs[i]); }
      }
    case (VMap(_, ys), VMap(_, xs)) =>
      forall k | k in ys && k in xs ensures Strip(ys[k]) == xs[k] <==> Filled(ys[k], xs[k]) { StripIs(ys[k], xs[k]); }
      StripMap(w, v);
    case _ =>
  }

  // ----- the enum represents the value -----

  ghost predicate Represents(cd: Codec, v: Val)
    requires RoundTrips(cd)
  {
    && ValidEnum(ToEnum(cd, v))
    && StripEnum(ToEnum(cd, v)) == ToEnum(cd, Strip(v))
    && forall alg, c :: PermitsEnum(alg, ToEnum(cd, v), c) == Permits(alg, v, c)
  }

  /** Encoding keeps the conjunction of the policies, and commutes with replacing each
      container by its content. */
  lemma {:induction false} ToEnumRepresents(cd: Codec, v: Val, ty: Ty)
    requires RoundTrips(cd) && HasType(v, ty)
    ensures Represents(cd, v)
  {
    hide Represents;
    match (v, ty)
    case (VSome(x), TOption(inner)) => ToEnumRepresents(cd, x, inner); SomeRepresents(cd, x);
    case (VOk(x), TResult(ok, err)) => ToEnumRepresents(cd, x, ok); ResultRepresents(cd, x);
    case (VErr(x), TResult(ok, err)) => ToEnumRepresents(cd, x, err); ResultRepresents(cd, x);
    case (VVec(items), TVec(inner)) =>
      forall i | 0 <= i < |items| ensures Represents(cd, items[i]) { ToEnumRepresents(cd, items[i], inner); }
      SequenceRepresents(cd, items, v);
    case (VTuple(parts), TTuple(tys)) =>
      forall i | 0 <= i < |parts| ensures Represents(cd, parts[i]) { ToEnumRepresents(cd, parts[i], tys[i]); }
      SequenceRepresents(cd, parts, v);
    case (VMap(kind, entries), TMap(_, inner)) =>
      forall k | k in entries ensures Represents(cd, entries[k]) { ToEnumRepresents(cd, entries[k], inner); }
      MapRepresents(cd, kind, entries);
    case _ => AtomRepresents(cd, v, ty);
  }

  lemma {:induction false} AtomRepresents(cd: Codec, v: Val, ty: Ty)
    requires RoundTrips(cd) && HasType(v, ty) && (v.VData? || v.VPCon? || v.VNone?)
    ensures Represents(cd, v)
  {
  }

  lemma {:induction false} SomeRepresents(cd: Codec, x: Val)
    requires RoundTrips(cd) && Represents(cd, x)
    ensures Represents(cd, VSome(x))
  {
    assert ToEnum(cd, VSome(x)).items == [ToEnum(cd, x)];
  }

  lemma {:induction false} OneField(k: string, e: Enum)
    ensures ValidEnum(e) ==> ValidEnum(EStruct(map[k := e]))
    ensures StripEnum(EStruct(map[k := e])) == EStruct(map[k := StripEnum(e)])
    ensures forall alg, c :: PermitsEnum(alg, EStruct(map[k := e]), c) == PermitsEnum(alg, e, c)
  {
    assert EStruct(map[k := e]).fields[k] == e;
    assert StripEnum(EStruct(map[k := e])).fields == map[k := StripEnum(e)];
  }

  lemma {:induction false} ResultRepresents(cd: Codec, x: Val)
    requires RoundTrips(cd) && Represents(cd, x)
    ensures Represents(cd, VOk(x)) && Represents(cd, VErr(x))
  {
    hide ValidEnum, StripEnum, PermitsEnum;
    OneField("Ok", ToEnum(cd, x));
    OneField("Err", ToEnum(cd, x));
  }

  lemma {:induction false} SequenceRepresents(cd: Codec, items: seq<Val>, v: Val)
    requires RoundTrips(cd) && (v == VVec(items) || v == VTuple(items))
    requires forall i | 0 <= i < |items| :: Represents(cd, items[i])
    ensures Represents(cd, v)
  {
    var e := ToEnum(cd, v);
    forall alg, c
      ensures PermitsEnum(alg, e, c) == Permits(alg, v, c)
    {
      assert forall i | 0 <= i < |items| :: e.items[i] in e.items && items[i] in items;
    }
  }

  lemma {:induction false} MapRepresents(cd: Codec, kind: nat, entries: map<int, Val>)
    requires RoundTrips(cd)
    requires forall k | k in entries :: Represents(cd, entries[k])
    ensures Represents(cd, VMap(kind, entries))
  {
    var v := VMap(kind, entries);
    var e := ToEnum(cd, v);
    assert StripEnum(e).fields == ToEnum(cd, Strip(v)).fields;
    forall alg, c
      ensures PermitsEnum(alg, e, c) == Permits(alg, v, c)
    {
      if PermitsEnum(alg, e, c) {
        forall k | k in entries ensures Permits(alg, entries[k], c) {
          var s := cd.show(kind, k);
          assert cd.parse(kind, s) == Some(k) && s in e.fields;
        }
      }
    }
  }

  // ----- taking the containers out -----

  datatype Fault = Mismatch | Panic

  predicate CheckOption(alg: Algebra, p: Option<Policy>, c: Context) {
    p.Some? ==> Check(alg, p.value, c)
  }

  /** A collected policy: nothing yet, or a type-erased policy. */
  predicate ValidOption(p: Option<Policy>) {
    p.Some? ==> p.value.Any? && WellTyped(p.value)
  }

  function ComposePolicies(alg: Algebra, r1: Result<Option<Policy>, Fault>, r2: Result<Option<Policy>, Fault>)
    : Result<Option<Policy>, Fault>
  {
    if r1.Err? then r1
    else if r2.Err? then r2
    else match (r1.value, r2.value)
      case (None, p2) => Ok(p2)
      case (p1, None) => Ok(p1)
      case (Some(p1), Some(p2)) => Ok(Some(JoinDynValue(alg, p1, p2)))
  }

  lemma {:induction false} ComposeIsConjunction(alg: Algebra, p1: Option<Policy>, p2: Option<Policy>)
    requires Lawful(alg) && ValidOption(p1) && ValidOption(p2)
    ensures var r := ComposePolicies(alg, Ok(p1), Ok(p2));
            && r.Ok? && ValidOption(r.value)
            && (r.value.None? <==> p1.None? && p2.None?)
            && forall c :: CheckOption(alg, r.value, c) == (CheckOption(alg, p1, c) && CheckOption(alg, p2, c))
    ensures forall e, r :: ComposePolicies(alg, Err(e), r) == Err(e)
    ensures forall e :: ComposePolicies(alg, Ok(p1), Err(e)) == Err(e)
  {
    forall e, r ensures ComposePolicies(alg, Err(e), r) == Err(e) {}
    forall e ensures ComposePolicies(alg, Ok(p1), Err(e)) == Err(e) {}
    if p1.Some? && p2.Some? {
      forall c { JoinIsConjunction(alg, p1.value, p2.value, c); }
      JoinIsConjunction(alg, p1.value, p2.value, Context("", Other(0)));
    }
  }

  /** No container anywhere. */
  predicate Plain(e: Enum) {
    match e
    case EPCon(_, _) => false
    case EValue(_) => true
    case EVec(items) => forall x | x in items :: Plain(x)
    case EStruct(fields) => forall k | k in fields :: Plain(fields[k])
  }

  /** No hash map anywhere, so that the order of collection is determined. */
  predicate Ordered(e: Enum) {
    match e
    case EVec(items) => forall x | x in items :: Ordered(x)
    case EStruct(_) => false
    case _ => true
  }

  /** The policies of an ordered enum, joined from left to right. */
  function Collected(alg: Algebra, e: Enum): Option<Policy>
    decreases e, 0
  {
    match e
    case EPCon(_, p) => Some(p)
    case EVec(items) => CollectedPrefix(alg, items, |items|)
    case _ => None
  }

  function CollectedPrefix(alg: Algebra, items: seq<Enum>, n: nat): Option<Policy>
    requires n <= |items|
    decreases items, n
  {
    if n == 0 then None
    else match (CollectedPrefix(alg, items, n - 1), Collected(alg, items[n - 1]))
      case (None, p2) => p2
      case (p1, None) => p1
      case (Some(p1), Some(p2)) => Some(JoinDynValue(alg, p1, p2))
  }

  /** `p` is what the enums of `done` contain: nothing, or the conjunction of all policies. */
  ghost predicate Gathered(alg: Algebra, p: Result<Option<Policy>, Fault>, done: seq<Enum>) {
    && p.Ok? && ValidOption(p.value)
    && (p.value.None? <==> forall e | e in done :: Plain(e))
    && forall c :: CheckOption(alg, p.value, c) == forall e | e in done :: PermitsEnum(alg, e, c)
  }

  lemma {:induction false} GatheredNone(alg: Algebra)
    ensures Gathered(alg, Ok(None), [])
  {
  }

  lemma {:induction false} GatheredMore(alg: Algebra, p: Result<Option<Policy>, Fault>, done: seq<Enum>,
                                        q: Result<Option<Policy>, Fault>, e: Enum)
    requires Lawful(alg) && Gathered(alg, p, done) && Gathered(alg, q, [e])
    ensures Gathered(alg, ComposePolicies(alg, p, q), done + [e])
  {
    hide CheckOption, Plain, PermitsEnum, Lawful, ComposePolicies, ValidOption;
    ComposeIsConjunction(alg, p.value, q.value);
    assert forall x :: x in done + [e] <==> x in done || x in [e];
  }

  /** The parts of a vector or of a struct. */
  predicate Parts(parts: seq<Enum>, e: Enum) {
    match e
    case EVec(items) => parts == items
    case EStruct(fields) =>
      && (forall k | k in fields :: fields[k] in parts)
      && (forall x | x in parts :: exists k | k in fields :: fields[k] == x)
    case _ => false
  }

  lemma {:induction false} PartsDecide(alg: Algebra, parts: seq<Enum>, e: Enum, c: Context)
    requires Parts(parts, e)
    ensures Plain(e) <==> forall x | x in parts :: Plain(x)
    ensures PermitsEnum(alg, e, c) <==> forall x | x in parts :: PermitsEnum(alg, x, c)
  {
    if e.EStruct? {
      if Plain(e) {
        forall x | x in parts ensures Plain(x) { var k :| k in e.fields && e.fields[k] == x; }
      }
      if PermitsEnum(alg, e, c) {
        forall x | x in parts ensures PermitsEnum(alg, x, c) { var k :| k in e.fields && e.fields[k] == x; }
      }
    }
  }

  /** What is gathered from the parts of a vector or a struct is gathered from the whole. */
  lemma {:induction false} GatheredWhole(alg: Algebra, p: Result<Option<Policy>, Fault>, parts: seq<Enum>, e: Enum)
    requires Gathered(alg, p, parts) && Parts(parts, e)
    ensures Gathered(alg, p, [e])
  {
    hide CheckOption, ValidOption, Plain, PermitsEnum, Parts;
    PartsDecide(alg, parts, e, Context("", Other(0)));
    forall c
      ensures PermitsEnum(alg, e, c) == forall x | x in parts :: PermitsEnum(alg, x, c)
    {
      PartsDecide(alg, parts, e, c);
    }
    assert e in [e];
  }

  /** Separates data from policies.  It cannot fail; hash maps may be walked in any order;
      and the collected policy is the conjunction of all contained policies. */
  method RemovePCon(alg: Algebra, e: Enum) returns (t: Enum, p: Result<Option<Policy>, Fault>)
    requires Lawful(alg) && ValidEnum(e)
    ensures t == StripEnum(e)
    ensures p.Ok? && ValidOption(p.value)
    ensures p.value.None? <==> Plain(e)
    ensures forall c :: CheckOption(alg, p.value, c) == PermitsEnum(alg, e, c)
    ensures Ordered(e) ==> p.value == Collected(alg, e)
    decreases e, 1
  {
    match e
    case EValue(_) => t, p := e, Ok(None);
    case EPCon(d, policy) => t, p := EValue(d), Ok(Some(policy));
    case EVec(_) => t, p := RemoveFromVec(alg, e); GatheredOne(alg, p, e);
    case EStruct(_) => t, p := RemoveFromStruct(alg, e); GatheredOne(alg, p, e);
  }

  lemma {:induction false} GatheredOne(alg: Algebra, p: Result<Option<Policy>, Fault>, e: Enum)
    ensures Gathered(alg, p, [e]) <==>
              && p.Ok? && ValidOption(p.value) && (p.value.None? <==> Plain(e))
              && forall c :: CheckOption(alg, p.value, c) == PermitsEnum(alg, e, c)
  {
    hide CheckOption, Plain, PermitsEnum, ValidOption;
    assert e in [e];
  }

  method RemoveFromVec(alg: Algebra, e: Enum) returns (t: Enum, p: Result<Option<Policy>, Fault>)
    requires Lawful(alg) && ValidEnum(e) && e.EVec?
    ensures t == StripEnum(e) && Gathered(alg, p, [e])
    ensures Ordered(e) ==> p.value == Collected(alg, e)
    decreases e, 0
  {
    hide Check, CheckOption, JoinDynValue, Plain, PermitsEnum, Gathered, Lawful;
    var items := e.items;
    var ts: seq<Enum> := [];
    p := Ok(None);
    GatheredNone(alg);
    for i := 0 to |items|
      invariant |ts| == i && forall j | 0 <= j < i :: ts[j] == StripEnum(items[j])
      invariant p.Ok? && Gathered(alg, p, items[..i])
      invariant Ordered(e) ==> p.value == CollectedPrefix(alg, items, i)
    {
      var t1, p1 := RemovePCon(alg, items[i]);
      ts := ts + [t1];
      GatheredOne(alg, p1, items[i]);
      GatheredMore(alg, p, items[..i], p1, items[i]);
      assert items[..i + 1] == items[..i] + [items[i]];
      p := ComposePolicies(alg, p, p1);
      GatheredOk(alg, p, items[..i + 1]);
    }
    assert items[..|items|] == items;
    GatheredWhole(alg, p, items, e);
    t := EVec(ts);
  }

  lemma {:induction false} GatheredOk(alg: Algebra, p: Result<Option<Policy>, Fault>, done: seq<Enum>)
    requires Gathered(alg, p, done)
    ensures p.Ok?
  {
  }

  method RemoveFromStruct(alg: Algebra, e: Enum) returns (t: Enum, p: Result<Option<Policy>, Fault>)
    requires Lawful(alg) && ValidEnum(e) && e.EStruct?
    ensures t == StripEnum(e) && Gathered(alg, p, [e])
    decreases e, 0
  {
    hide Check, CheckOption, JoinDynValue, ComposePolicies, Plain, PermitsEnum,
         Gathered, Lawful, Ordered, Collected, StripEnum;
    var fields := e.fields;
    var ts: map<string, Enum> := map[];
    ghost var done: seq<Enum> := [];
    p := Ok(None);
    GatheredNone(alg);
    var left := fields.Keys;
    while left != {}
      invariant left <= fields.Keys
      invariant ts.Keys == fields.Keys - left
      invariant forall k | k in ts :: ts[k] == StripEnum(fields[k])
      invariant Gathered(alg, p, done)
      invariant forall k | k in fields && k !in left :: fields[k] in done
      invariant forall x | x in done :: exists k | k in fields && k !in left :: fields[k] == x
      decreases left
    {
      var k :| k in left;
      var t1, p1 := RemovePCon(alg, e.fields[k]);
      ts := ts[k := t1];
      GatheredOne(alg, p1, fields[k]);
      GatheredMore(alg, p, done, p1, fields[k]);
      p := ComposePolicies(alg, p, p1);
      done := done + [fields[k]];
      left := left - {k};
    }
    GatheredWhole(alg, p, done, e);
    StrippedStruct(e, ts);
    t := EStruct(ts);
  }

  lemma {:induction false} StrippedStruct(e: Enum, ts: map<string, Enum>)
    requires e.EStruct? && ts.Keys == e.fields.Keys && forall k | k in ts :: ts[k] == StripEnum(e.fields[k])
    ensures StripEnum(e) == EStruct(ts)
  {
    assert StripEnum(e).fields == ts;
  }

  // ----- decoding -----

  /** No container holds a policy that was type-erased before it was encoded. */
  predicate Recoverable(v: Val) {
    match v
    case VData(_) => true
    case VPCon(_, p) => !p.Any?
    case VNone => true
    case VSome(x) => Recoverable(x)
    case VOk(x) => Recoverable(x)
    case VErr(x) => Recoverable(x)
    case VVec(items) => forall x | x in items :: Recoverable(x)
    case VMap(_, entries) => forall k | k in entries :: Recoverable(entries[k])
    case VTuple(parts) => forall x | x in parts :: Recoverable(x)
  }

  /** What decoding should give back: the value itself when containers are kept, and
      otherwise the value with each container replaced by its content. */
  function Goal(v: Val, keep: bool): Val {
    if keep then v else Strip(v)
  }

  function GoalAll(vs: seq<Val>, keep: bool): seq<Val> {
    seq(|vs|, i requires 0 <= i < |vs| => Goal(vs[i], keep))
  }

  /** `e` encodes what decoding `v` should give back. */
  ghost predicate Encodes(cd: Codec, e: Enum, ty: Ty, keep: bool, v: Val)
    requires RoundTrips(cd)
  {
    HasType(v, ty) && e == ToEnum(cd, Goal(v, keep))
  }

  ghost predicate EncodesAll(cd: Codec, es: seq<Enum>, tys: seq<Ty>, keep: bool, vs: seq<Val>)
    requires RoundTrips(cd)
  {
    |es| == |tys| == |vs| && forall i | 0 <= i < |es| :: Encodes(cd, es[i], tys[i], keep, vs[i])
  }

  ghost predicate EncodesMap(cd: Codec, fields: map<string, Enum>, kind: nat, inner: Ty, keep: bool,
      entries: map<int, Val>)
    requires RoundTrips(cd)
  {
    && fields.Keys == Shown(cd, kind, entries.Keys)
    && forall k | k in entries :: Encodes(cd, fields[cd.show(kind, k)], inner, keep, entries[k])
  }

  /** The encoding of a vector, a tuple or a map encodes what is in it. */
  lemma {:induction false} PartsEncoded(cd: Codec, e: Enum, ty: Ty, keep: bool, v: Val)
    requires RoundTrips(cd) && Encodes(cd, e, ty, keep, v)
    ensures ty.TVec? ==> e.EVec? && v.VVec? && EncodesAll(cd, e.items, seq(|e.items|, _ => ty.inner), keep, v.items)
    ensures ty.TVec? ==> Goal(v, keep) == VVec(GoalAll(v.items, keep))
    ensures ty.TTuple? ==> e.EVec? && v.VTuple? && EncodesAll(cd, e.items, ty.parts, keep, v.parts)
    ensures ty.TTuple? ==> Goal(v, keep) == VTuple(GoalAll(v.parts, keep))
    ensures ty.TMap? ==> e.EStruct? && v.VMap? && v.kind == ty.kind
    ensures ty.TMap? ==> EncodesMap(cd, e.fields, ty.kind, ty.inner, keep, v.entries)
  {
    if ty.TMap? {
      forall k | k in v.entries ensures Encodes(cd, e.fields[cd.show(ty.kind, k)], ty.inner, keep, v.entries[k]) {
        assert cd.parse(ty.kind, cd.show(ty.kind, k)) == Some(k);
      }
    }
  }

  /** The type of the data without its containers. */
  function OutTy(ty: Ty): Ty {
    match ty
    case TData(_) => ty
    case TPCon(tag, _) => TData(tag)
    case TOption(inner) => TOption(OutTy(inner))
    case TResult(ok, err) => TResult(OutTy(ok), OutTy(err))
    case TVec(inner) => TVec(OutTy(inner))
    case TMap(kind, inner) => TMap(kind, OutTy(inner))
    case TTuple(parts) => TTuple(seq(|parts|, i requires 0 <= i < |parts| => OutTy(parts[i])))
  }

  /** What any enum reads as at a type, be it the encoding of a value or not: of a vector for an option
      the last item counts, of a struct for a result the field "Ok", if it is there, and of the fields
      whose names are read as one key any. */
  ghost predicate Reads(cd: Codec, e: Enum, ty: Ty, keep: bool, v: Val)
    decreases e
  {
    match ty
    case TData(tag) => e.EValue? && e.data.tag == tag && v == VData(e.data)
    case TPCon(tag, policy) =>
      if keep then
        && e.EPCon? && e.data.tag == tag && e.policy.Any? && TypeOf(e.policy.erased) == policy
        && v == VPCon(e.data, e.policy.erased)
      else e.EValue? && e.data.tag == tag && v == VData(e.data)
    case TOption(inner) =>
      e.EVec? && if |e.items| == 0 then v == VNone
                 else v.VSome? && Reads(cd, e.items[|e.items| - 1], inner, keep, v.value)
    case TResult(ok, err) =>
      e.EStruct? && if "Ok" in e.fields then v.VOk? && Reads(cd, e.fields["Ok"], ok, keep, v.value)
                    else "Err" in e.fields && v.VErr? && Reads(cd, e.fields["Err"], err, keep, v.value)
    case TVec(inner) =>
      && e.EVec? && v.VVec? && |v.items| == |e.items|
      && forall i | 0 <= i < |e.items| :: Reads(cd, e.items[i], inner, keep, v.items[i])
    case TTuple(tys) =>
      && e.EVec? && v.VTuple? && |v.parts| == |e.items| == |tys|
      && forall i | 0 <= i < |tys| :: Reads(cd, e.items[i], tys[i], keep, v.parts[i])
    case TMap(kind, inner) =>
      && e.EStruct? && v.VMap? && v.kind == kind
      && (forall s | s in e.fields :: cd.parse(kind, s).Some? && cd.parse(kind, s).value in v.entries
                                      && exists w :: Reads(cd, e.fields[s], inner, keep, w))
      && forall k | k in v.entries ::
           exists s | s in e.fields :: cd.parse(kind, s) == Some(k) && Reads(cd, e.fields[s], inner, keep, v.entries[k])
  }

  ghost predicate Readable(cd: Codec, e: Enum, ty: Ty, keep: bool) {
    exists v :: Reads(cd, e, ty, keep, v)
  }

  ghost predicate Answers(cd: Codec, e: Enum, ty: Ty, keep: bool, r: Result<Val, Fault>) {
    if r.Ok? then Reads(cd, e, ty, keep, r.value) else !Readable(cd, e, ty, keep)
  }

  /** Where decoding panics instead of failing: at a struct with neither key, and at a tuple of
      another length; the unit type does not look at the items. */
  predicate Panics(e: Enum, ty: Ty) {
    match ty
    case TResult(_, _) => e.EStruct? && "Ok" !in e.fields && "Err" !in e.fields
    case TTuple(tys) => e.EVec? && tys != [] && |e.items| != |tys|
    case _ => false
  }

  /** Decoding comes to such a place. */
  ghost predicate PanicsWithin(e: Enum, ty: Ty)
    decreases e
  {
    || Panics(e, ty)
    || match ty
       case TOption(inner) => e.EVec? && |e.items| > 0 && PanicsWithin(e.items[|e.items| - 1], inner)
       case TResult(ok, err) =>
         e.EStruct? && if "Ok" in e.fields then PanicsWithin(e.fields["Ok"], ok)
                       else "Err" in e.fields && PanicsWithin(e.fields["Err"], err)
       case TVec(inner) => e.EVec? && exists i | 0 <= i < |e.items| :: PanicsWithin(e.items[i], inner)
       case TTuple(tys) =>
         e.EVec? && |e.items| == |tys| && exists i | 0 <= i < |tys| :: PanicsWithin(e.items[i], tys[i])
       case TMap(_, inner) => e.EStruct? && exists s | s in e.fields :: PanicsWithin(e.fields[s], inner)
       case _ => false
  }

  lemma {:induction false} AtomReads(cd: Codec, e: Enum, ty: Ty, keep: bool)
    requires ty.TData? || ty.TPCon?
    ensures Answers(cd, e, ty, keep,
              if ty.TPCon? && keep then
                if e.EPCon? && e.data.tag == ty.tag && e.policy.Any? && TypeOf(e.policy.erased) == ty.policy
                then Ok(VPCon(e.data, e.policy.erased)) else Err(Mismatch)
              else if e.EValue? && e.data.tag == ty.tag then Ok(VData(e.data)) else Err(Mismatch))
  {
  }

  lemma {:induction false} NothingReads(cd: Codec, e: Enum, ty: Ty, keep: bool)
    requires if ty.TResult? || ty.TMap? then !e.EStruct? else (ty.TOption? || ty.TVec? || ty.TTuple?) && !e.EVec?
    ensures Answers(cd, e, ty, keep, Err(Mismatch))
  {
  }

  lemma {:induction false} OptionReads(cd: Codec, e: Enum, inner: Ty, keep: bool, last: Result<Val, Fault>)
    requires e.EVec? && (|e.items| > 0 ==> Answers(cd, e.items[|e.items| - 1], inner, keep, last))
    ensures |e.items| == 0 ==> Answers(cd, e, TOption(inner), keep, Ok(VNone))
    ensures |e.items| > 0 ==> Answers(cd, e, TOption(inner), keep, if last.Ok? then Ok(VSome(last.value)) else last)
  {
    if |e.items| > 0 && last.Err? {
      forall v ensures !Reads(cd, e, TOption(inner), keep, v) {
        if v.VSome? { assert !Reads(cd, e.items[|e.items| - 1], inner, keep, v.value); }
      }
    }
  }

  lemma {:induction false} OkReads(cd: Codec, e: Enum, ok: Ty, err: Ty, keep: bool, x: Result<Val, Fault>)
    requires e.EStruct? && "Ok" in e.fields && Answers(cd, e.fields["Ok"], ok, keep, x)
    ensures Answers(cd, e, TResult(ok, err), keep, if x.Ok? then Ok(VOk(x.value)) else x)
  {
    if x.Err? {
      forall v ensures !Reads(cd, e, TResult(ok, err), keep, v) {
        if v.VOk? { assert !Reads(cd, e.fields["Ok"], ok, keep, v.value); }
      }
    }
  }

  lemma {:induction false} ErrReads(cd: Codec, e: Enum, ok: Ty, err: Ty, keep: bool, x: Result<Val, Fault>)
    requires e.EStruct? && "Ok" !in e.fields
    ensures "Err" in e.fields && Answers(cd, e.fields["Err"], err, keep, x) ==>
              Answers(cd, e, TResult(ok, err), keep, if x.Ok? then Ok(VErr(x.value)) else x)
    ensures "Err" !in e.fields ==> Answers(cd, e, TResult(ok, err), keep, Err(Panic))
  {
    if "Err" in e.fields && Answers(cd, e.fields["Err"], err, keep, x) && x.Err? {
      forall v ensures !Reads(cd, e, TResult(ok, err), keep, v) {
        if v.VErr? { assert !Reads(cd, e.fields["Err"], err, keep, v.value); }
      }
    }
  }

  ghost predicate AnswersAll(cd: Codec, es: seq<Enum>, tys: seq<Ty>, keep: bool, r: Result<seq<Val>, Fault>)
    requires |es| == |tys|
  {
    if r.Ok? then |r.value| == |es| && forall i | 0 <= i < |es| :: Reads(cd, es[i], tys[i], keep, r.value[i])
    else exists i | 0 <= i < |es| :: !Readable(cd, es[i], tys[i], keep)
  }

  lemma {:induction false} VecReads(cd: Codec, e: Enum, inner: Ty, keep: bool, r: Result<seq<Val>, Fault>)
    requires e.EVec? && AnswersAll(cd, e.items, seq(|e.items|, _ => inner), keep, r)
    ensures Answers(cd, e, TVec(inner), keep, if r.Ok? then Ok(VVec(r.value)) else Err(r.error))
  {
    if r.Err? {
      var i :| 0 <= i < |e.items| && !Readable(cd, e.items[i], inner, keep);
      forall v ensures !Reads(cd, e, TVec(inner), keep, v) {
        if v.VVec? && |v.items| == |e.items| { assert !Reads(cd, e.items[i], inner, keep, v.items[i]); }
      }
    }
  }

  lemma {:induction false} TupleReads(cd: Codec, e: Enum, tys: seq<Ty>, keep: bool, r: Result<seq<Val>, Fault>)
    requires e.EVec?
    ensures |e.items| != |tys| ==> forall fault :: Answers(cd, e, TTuple(tys), keep, Err(fault))
    ensures |e.items| == |tys| && AnswersAll(cd, e.items, tys, keep, r) ==>
              Answers(cd, e, TTuple(tys), keep, if r.Ok? then Ok(VTuple(r.value)) else Err(r.error))
  {
    if |e.items| == |tys| && AnswersAll(cd, e.items, tys, keep, r) && r.Err? {
      var i :| 0 <= i < |tys| && !Readable(cd, e.items[i], tys[i], keep);
      forall v ensures !Reads(cd, e, TTuple(tys), keep, v) {
        if v.VTuple? && |v.parts| == |tys| { assert !Reads(cd, e.items[i], tys[i], keep, v.parts[i]); }
      }
    }
  }

  /** The fields that are done are read, and every key comes from one of them. */
  ghost predicate FieldsRead(cd: Codec, fields: map<string, Enum>, done: set<string>, kind: nat, inner: Ty, keep: bool,
      entries: map<int, Val>)
    requires done <= fields.Keys
  {
    && (forall s | s in done :: cd.parse(kind, s).Some? && cd.parse(kind, s).value in entries
                                && Readable(cd, fields[s], inner, keep))
    && forall k | k in entries ::
         exists s | s in done :: cd.parse(kind, s) == Some(k) && Reads(cd, fields[s], inner, keep, entries[k])
  }

  lemma {:induction false} NoFieldRead(cd: Codec, fields: map<string, Enum>, kind: nat, inner: Ty, keep: bool)
    ensures FieldsRead(cd, fields, fields.Keys - fields.Keys, kind, inner, keep, map[])
  {
  }

  lemma {:induction false} FieldRead(cd: Codec, fields: map<string, Enum>, done: set<string>, kind: nat, inner: Ty,
                                     keep: bool, entries: map<int, Val>, s: string, v: Val)
    requires done <= fields.Keys && FieldsRead(cd, fields, done, kind, inner, keep, entries)
    requires s in fields && cd.parse(kind, s).Some? && Reads(cd, fields[s], inner, keep, v)
    ensures FieldsRead(cd, fields, done + {s}, kind, inner, keep, entries[cd.parse(kind, s).value := v])
  {
    hide Reads;
    var k, entries' := cd.parse(kind, s).value, entries[cd.parse(kind, s).value := v];
    forall j | j in entries'
      ensures exists t | t in done + {s} ::
                cd.parse(kind, t) == Some(j) && Reads(cd, fields[t], inner, keep, entries'[j])
    {
      if j != k {
        var t :| t in done && cd.parse(kind, t) == Some(j) && Reads(cd, fields[t], inner, keep, entries[j]);
      }
    }
  }

  lemma {:induction false} MapReads(cd: Codec, e: Enum, kind: nat, inner: Ty, keep: bool, entries: map<int, Val>)
    requires e.EStruct?
    ensures FieldsRead(cd, e.fields, e.fields.Keys, kind, inner, keep, entries) ==>
              Reads(cd, e, TMap(kind, inner), keep, VMap(kind, entries))
    ensures (exists s | s in e.fields :: cd.parse(kind, s).None? || !Readable(cd, e.fields[s], inner, keep)) ==>
              !Readable(cd, e, TMap(kind, inner), keep)
  {
    if s :| s in e.fields && (cd.parse(kind, s).None? || !Readable(cd, e.fields[s], inner, keep)) {
      forall v ensures !Reads(cd, e, TMap(kind, inner), keep, v) {}
    }
  }

  /** Decodes an enum as a value of type `ty`, with or without its containers.  Without them,
      whatever is decoded has the type of the data, and data that was encoded from a value is
      decoded to just that.  With them, encoding and
      decoding is a round trip exactly when no container held a type-erased policy, because the
      encoding does not wrap such a policy once more. */
  method Decode(cd: Codec, e: Enum, ty: Ty, keep: bool, ghost v: Val) returns (r: Result<Val, Fault>)
    requires RoundTrips(cd)
    ensures Encodes(cd, e, ty, keep, v) ==>
              r == if keep && !Recoverable(v) then Err(Mismatch) else Ok(Goal(v, keep))
    ensures !keep && r.Ok? ==> HasType(r.value, OutTy(ty))
    ensures Answers(cd, e, ty, keep, r)
    ensures (Panics(e, ty) ==> r == Err(Panic)) && (r == Err(Panic) ==> PanicsWithin(e, ty))
    decreases e, 1
  {
    ghost var good := Encodes(cd, e, ty, keep, v);
    hide AnswersAll, Answers, Reads;
    match ty
    case TData(_) => r := DecodeAtom(cd, e, ty, keep, v);
    case TPCon(_, _) => r := DecodeAtom(cd, e, ty, keep, v);
    case TOption(inner) => r := DecodeOption(cd, e, inner, keep, v);
    case TResult(ok, err) => r := DecodeResult(cd, e, ok, err, keep, v);
    case TVec(inner) =>
      if good { PartsEncoded(cd, e, ty, keep, v); }
      if !e.EVec? { NothingReads(cd, e, ty, keep); return Err(Mismatch); }
      var items := DecodeAll(cd, e.items, seq(|e.items|, _ => inner), keep, if good then v.items else []);
      VecReads(cd, e, inner, keep, items);
      r := if items.Ok? then Ok(VVec(items.value)) else Err(items.error);
    case TTuple(tys) =>
      if good { PartsEncoded(cd, e, ty, keep, v); }
      if !e.EVec? { NothingReads(cd, e, ty, keep); return Err(Mismatch); }
      TupleReads(cd, e, tys, keep, Err(Mismatch));
      if |e.items| != |tys| { return Err(if tys == [] then Mismatch else Panic); }
      var parts := DecodeAll(cd, e.items, tys, keep, if good then v.parts else []);
      TupleReads(cd, e, tys, keep, parts);
      r := if parts.Ok? then Ok(VTuple(parts.value)) else Err(parts.error);
    case TMap(kind, inner) =>
      if good { PartsEncoded(cd, e, ty, keep, v); }
      if !e.EStruct? { NothingReads(cd, e, ty, keep); return Err(Mismatch); }
      var entries := DecodeMap(cd, e, kind, inner, keep, if good then v.entries else map[]);
      r := if entries.Ok? then Ok(VMap(kind, entries.value)) else Err(entries.error);
      if good && entries.Ok? { GoalOfMap(v, entries.value, keep); }
  }

  method DecodeAtom(cd: Codec, e: Enum, ty: Ty, keep: bool, ghost v: Val) returns (r: Result<Val, Fault>)
    requires RoundTrips(cd) && (ty.TData? || ty.TPCon?)
    ensures Encodes(cd, e, ty, keep, v) ==>
              r == if keep && !Recoverable(v) then Err(Mismatch) else Ok(Goal(v, keep))
    ensures !keep && r.Ok? ==> HasType(r.value, OutTy(ty))
    ensures Answers(cd, e, ty, keep, r) && r != Err(Panic)
  {
    AtomReads(cd, e, ty, keep);
    if ty.TPCon? && keep {
      if e.EPCon? && e.data.tag == ty.tag && e.policy.Any? && TypeOf(e.policy.erased) == ty.policy {
        r := Ok(VPCon(e.data, e.policy.erased));
      } else {
        r := Err(Mismatch);
      }
      if Encodes(cd, e, ty, keep, v) && v.policy.Any? { assert TypeOf(v.policy.erased) != TAny; }
    } else {
      r := if e.EValue? && e.data.tag == ty.tag then Ok(VData(e.data)) else Err(Mismatch);
    }
  }

  method DecodeOption(cd: Codec, e: Enum, inner: Ty, keep: bool, ghost v: Val) returns (r: Result<Val, Fault>)
    requires RoundTrips(cd)
    ensures Encodes(cd, e, TOption(inner), keep, v) ==>
              r == if keep && !Recoverable(v) then Err(Mismatch) else Ok(Goal(v, keep))
    ensures !keep && r.Ok? ==> HasType(r.value, OutTy(TOption(inner)))
    ensures Answers(cd, e, TOption(inner), keep, r)
    ensures r == Err(Panic) ==> PanicsWithin(e, TOption(inner))
    decreases e, 0
  {
    hide Answers, Reads;
    if !e.EVec? { NothingReads(cd, e, TOption(inner), keep); return Err(Mismatch); }
    if |e.items| == 0 { OptionReads(cd, e, inner, keep, Ok(VNone)); return Ok(VNone); }
    var last := Decode(cd, e.items[|e.items| - 1], inner, keep, if v.VSome? then v.value else v);
    OptionReads(cd, e, inner, keep, last);
    r := if last.Ok? then Ok(VSome(last.value)) else last;
  }

  method DecodeResult(cd: Codec, e: Enum, ok: Ty, err: Ty, keep: bool, ghost v: Val) returns (r: Result<Val, Fault>)
    requires RoundTrips(cd)
    ensures Encodes(cd, e, TResult(ok, err), keep, v) ==>
              r == if keep && !Recoverable(v) then Err(Mismatch) else Ok(Goal(v, keep))
    ensures !keep && r.Ok? ==> HasType(r.value, OutTy(TResult(ok, err)))
    ensures Answers(cd, e, TResult(ok, err), keep, r)
    ensures Panics(e, TResult(ok, err)) ==> r == Err(Panic)
    ensures r == Err(Panic) ==> PanicsWithin(e, TResult(ok, err))
    decreases e, 0
  {
    ghost var good := Encodes(cd, e, TResult(ok, err), keep, v);
    hide Reads, Readable;
    if !e.EStruct? { NothingReads(cd, e, TResult(ok, err), keep); return Err(Mismatch); }
    if "Ok" in e.fields {
      var x := Decode(cd, e.fields["Ok"], ok, keep, if v.VOk? then v.value else v);
      OkReads(cd, e, ok, err, keep, x);
      r := if x.Ok? then Ok(VOk(x.value)) else x;
    } else if "Err" in e.fields {
      var x := Decode(cd, e.fields["Err"], err, keep, if v.VErr? then v.value else v);
      ErrReads(cd, e, ok, err, keep, x);
      r := if x.Ok? then Ok(VErr(x.value)) else x;
    } else {
      ErrReads(cd, e, ok, err, keep, Err(Panic));
      r := Err(Panic);
    }
    if good { assert v.VErr? ==> "Ok" !in e.fields; }
  }

  method DecodeAll(cd: Codec, es: seq<Enum>, tys: seq<Ty>, keep: bool, ghost vs: seq<Val>)
    returns (r: Result<seq<Val>, Fault>)
    requires RoundTrips(cd) && |es| == |tys|
    ensures EncodesAll(cd, es, tys, keep, vs) ==>
              r == if keep && exists x | x in vs :: !Recoverable(x) then Err(Mismatch) else Ok(GoalAll(vs, keep))
    ensures !keep && r.Ok? ==>
              |r.value| == |tys| && forall i | 0 <= i < |tys| :: HasType(r.value[i], OutTy(tys[i]))
    ensures AnswersAll(cd, es, tys, keep, r)
    ensures r == Err(Panic) ==> exists i | 0 <= i < |tys| :: PanicsWithin(es[i], tys[i])
    decreases es
  {
    hide Reads, Readable, PanicsWithin, Panics;
    ghost var good := EncodesAll(cd, es, tys, keep, vs);
    var items: seq<Val> := [];
    for i := 0 to |es|
      invariant |items| == i && forall j | 0 <= j < i :: Reads(cd, es[j], tys[j], keep, items[j])
      invariant good ==> forall j | 0 <= j < i :: items[j] == Goal(vs[j], keep)
      invariant good && keep ==> forall j | 0 <= j < i :: Recoverable(vs[j])
      invariant !keep ==> forall j | 0 <= j < i :: HasType(items[j], OutTy(tys[j]))
    {
      var x := Decode(cd, es[i], tys[i], keep, if good then vs[i] else VNone);
      if x.Err? {
        assert !Readable(cd, es[i], tys[i], keep);
        return Err(x.error);
      }
      items := items + [x.value];
    }
    assert good ==> items == GoalAll(vs, keep);
    r := Ok(items);
  }

  method DecodeMap(cd: Codec, e: Enum, kind: nat, inner: Ty, keep: bool, ghost original: map<int, Val>)
    returns (r: Result<map<int, Val>, Fault>)
    requires RoundTrips(cd) && e.EStruct?
    ensures EncodesMap(cd, e.fields, kind, inner, keep, original) ==>
              if keep && exists k | k in original :: !Recoverable(original[k]) then r == Err(Mismatch)
              else
                && r.Ok? && r.value.Keys == original.Keys
                && forall k | k in original :: r.value[k] == Goal(original[k], keep)
    ensures !keep && r.Ok? ==> forall k | k in r.value :: HasType(r.value[k], OutTy(inner))
    ensures Answers(cd, e, TMap(kind, inner), keep, if r.Ok? then Ok(VMap(kind, r.value)) else Err(r.error))
    ensures r == Err(Panic) ==> exists s | s in e.fields :: PanicsWithin(e.fields[s], inner)
    decreases e, 0
  {
    hide PanicsWithin, Panics, Reads, Readable, FieldsRead, HasType, OutTy, Strip, ToEnum, Recoverable, Goal, Encodes;
    var fields := e.fields;
    ghost var good := EncodesMap(cd, fields, kind, inner, keep, original);
    var entries: map<int, Val> := map[];
    var left := fields.Keys;
    NoFieldRead(cd, fields, kind, inner, keep);
    while left != {}
      invariant left <= fields.Keys
      invariant !keep ==> forall k | k in entries :: HasType(entries[k], OutTy(inner))
      invariant FieldsRead(cd, fields, fields.Keys - left, kind, inner, keep, entries)
      invariant good ==> forall k :: k in entries <==> k in original && cd.show(kind, k) !in left
      invariant good ==> forall k | k in entries ::
                           entries[k] == Goal(original[k], keep) && (keep ==> Recoverable(original[k]))
      decreases left
    {
      var s :| s in left;
      var k := cd.parse(kind, s);
      MapReads(cd, e, kind, inner, keep, entries);
      if k.None? { return Err(Mismatch); }
      var x := Decode(cd, e.fields[s], inner, keep, if good then original[k.value] else VNone);
      if x.Err? { return Err(x.error); }
      ghost var done := fields.Keys - left;
      FieldRead(cd, fields, done, kind, inner, keep, entries, s, x.value);
      entries := entries[k.value := x.value];
      left := left - {s};
      assert fields.Keys - left == done + {s};
    }
    if good {
      forall k: int ensures k in entries.Keys <==> k in original.Keys {}
      assert entries.Keys == original.Keys;
    }
    assert fields.Keys - left == fields.Keys;
    MapReads(cd, e, kind, inner, keep, entries);
    r := Ok(entries);
  }

  lemma {:induction false} GoalOfMap(v: Val, entries: map<int, Val>, keep: bool)
    requires v.VMap? && entries.Keys == v.entries.Keys
    requires forall k | k in entries :: entries[k] == Goal(v.entries[k], keep)
    ensures Goal(v, keep) == VMap(v.kind, entries)
  {
    if keep {
      assert forall k | k in entries :: entries[k] == v.entries[k];
      assert v.entries == entries;
    } else {
      var goal := Strip(v).entries;
      assert goal.Keys == entries.Keys;
      assert forall k | k in entries :: goal[k] == Strip(v.entries[k]);
      assert forall k | k in entries :: goal[k] == entries[k];
      assert goal == entries;
    }
  }

  /** Folds a value into one container: it always succeeds, the data is the value with
      each container replaced by its content, and the policy is the conjunction of all
      contained policies, or permits everything when there are none. */
  method Fold(alg: Algebra, cd: Codec, v: Val, ty: Ty) returns (r: Result<(Val, Policy), Fault>)
    requires Lawful(alg) && RoundTrips(cd) && HasType(v, ty)
    ensures r.Ok? && r.value.0 == Strip(v)
    ensures WellTyped(r.value.1) && r.value.1.Any?
    ensures forall c :: Check(alg, r.value.1, c) == Permits(alg, v, c)
    ensures Ordered(ToEnum(cd, v)) ==>
              r.value.1 == UnwrapOrDefault(Collected(alg, ToEnum(cd, v)))
  {
    ToEnumRepresents(cd, v, ty);
    var e := ToEnum(cd, v);
    var t, p := RemovePCon(alg, e);
    var data := Decode(cd, t, ty, false, v);
    r := Ok((data.value, UnwrapOrDefault(p.value)));
  }

  function UnwrapOrDefault(p: Option<Policy>): Policy {
    if p.Some? then p.value else Any(Basic(NoPolicy))
  }

  // ----- the optimized folds -----

  /** A vector of containers, as the generic fold sees it. */
  function PConItems(v: seq<(Data, Policy)>): seq<Enum> {
    seq(|v|, i requires 0 <= i < |v| => EPCon(v[i].0, AsAny(v[i].1)))
  }

  /** One more element of a vector. */
  function JoinOption(alg: Algebra, acc: Option<Policy>, q: Policy): Option<Policy> {
    match acc
    case None => Some(q)
    case Some(p) => Some(JoinDynValue(alg, p, q))
  }

  lemma {:induction false} PrefixStep(alg: Algebra, items: seq<Enum>, n: nat)
    requires n < |items| && Collected(alg, items[n]).Some?
    ensures CollectedPrefix(alg, items, n + 1)
            == JoinOption(alg, CollectedPrefix(alg, items, n), Collected(alg, items[n]).value)
  {
    hide JoinDynValue, Collected;
  }

  lemma {:induction false} PrefixNone(alg: Algebra, items: seq<Enum>)
    ensures CollectedPrefix(alg, items, 0) == None
  {
  }

  /** The loop for a plain vector of containers returns the same data and the same policy as
      the generic fold, on the empty vector too. */
  method FoldVec(alg: Algebra, v: seq<(Data, Policy)>) returns (data: seq<Data>, p: Policy)
    ensures |data| == |v| && forall i | 0 <= i < |v| :: data[i] == v[i].0
    ensures p == UnwrapOrDefault(Collected(alg, EVec(PConItems(v))))
  {
    hide JoinDynValue, CollectedPrefix;
    data := [];
    var acc: Option<Policy> := None;
    PrefixNone(alg, PConItems(v));
    for i := 0 to |v|
      invariant |data| == i && forall j | 0 <= j < i :: data[j] == v[j].0
      invariant acc == CollectedPrefix(alg, PConItems(v), i)
    {
      PrefixStep(alg, PConItems(v), i);
      data := data + [v[i].0];
      acc := match acc
             case None => Some(AsAny(v[i].1))
             case Some(q) => Some(JoinDynValue(alg, q, AsAny(v[i].1)));
    }
    p := UnwrapOrDefault(acc);
  }

  function TupleItems(v: seq<seq<(Data, Policy)>>): seq<Enum> {
    seq(|v|, i requires 0 <= i < |v| => EVec(PConItems(v[i])))
  }

  /** One tuple: its data, and its policies joined from left to right. */
  method FoldTuple(alg: Algebra, tup: seq<(Data, Policy)>) returns (row: seq<Data>, p: Policy)
    requires |tup| > 0
    ensures |row| == |tup| && forall j | 0 <= j < |tup| :: row[j] == tup[j].0
    ensures Collected(alg, EVec(PConItems(tup))) == Some(p)
  {
    hide JoinDynValue, CollectedPrefix;
    row := [tup[0].0];
    p := AsAny(tup[0].1);
    PrefixNone(alg, PConItems(tup));
    PrefixStep(alg, PConItems(tup), 0);
    for j := 1 to |tup|
      invariant |row| == j && forall k | 0 <= k < j :: row[k] == tup[k].0
      invariant Some(p) == CollectedPrefix(alg, PConItems(tup), j)
    {
      PrefixStep(alg, PConItems(tup), j);
      row := row + [tup[j].0];
      p := JoinDynValue(alg, p, AsAny(tup[j].1));
    }
  }

  /** The loop for a vector of tuples of containers joins each tuple first, then the tuples:
      again what the generic fold does. */
  method FoldTuples(alg: Algebra, v: seq<seq<(Data, Policy)>>) returns (data: seq<seq<Data>>, p: Policy)
    requires forall i | 0 <= i < |v| :: |v[i]| > 0
    ensures |data| == |v| && forall i | 0 <= i < |v| ::
              |data[i]| == |v[i]| && forall j | 0 <= j < |v[i]| :: data[i][j] == v[i][j].0
    ensures p == UnwrapOrDefault(Collected(alg, EVec(TupleItems(v))))
  {
    hide JoinDynValue, CollectedPrefix;
    data := [];
    var acc: Option<Policy> := None;
    PrefixNone(alg, TupleItems(v));
    for i := 0 to |v|
      invariant |data| == i && forall k | 0 <= k < i ::
                  |data[k]| == |v[k]| && forall j | 0 <= j < |v[k]| :: data[k][j] == v[k][j].0
      invariant acc == CollectedPrefix(alg, TupleItems(v), i)
    {
      var row, current := FoldTuple(alg, v[i]);
      PrefixStep(alg, TupleItems(v), i);
      data := data + [row];
      acc := match acc
             case None => Some(current)
             case Some(q) => Some(JoinDynValue(alg, q, current));
    }
    p := UnwrapOrDefault(acc);
  }

  /** What the generic fold returns for the two kinds of vectors: the data that the loops return,
      and the policy that the loops return. */
  lemma {:induction false} LoopsAreFolds(alg: Algebra, cd: Codec, v: seq<(Data, Policy)>, w: seq<seq<(Data, Policy)>>)
    requires RoundTrips(cd)
    ensures var x := VVec(Containers(v));
            && Strip(x) == VVec(Contents(v)) && Ordered(ToEnum(cd, x))
            && Collected(alg, ToEnum(cd, x)) == Collected(alg, EVec(PConItems(v)))
    ensures var y := VVec(Rows(w));
            && Strip(y) == VVec(seq(|w|, i requires 0 <= i < |w| => VTuple(Contents(w[i])))) && Ordered(ToEnum(cd, y))
            && Collected(alg, ToEnum(cd, y)) == Collected(alg, EVec(TupleItems(w)))
  {
    hide Collected;
    OptimizedInputs(cd, v, w);
    forall x: seq<(Data, Policy)>
      ensures Strip(VVec(Containers(x))) == VVec(Contents(x)) && Strip(VTuple(Containers(x))) == VTuple(Contents(x))
    {
      assert Strip(VVec(Containers(x))).items == Contents(x);
      assert Strip(VTuple(Containers(x))).parts == Contents(x);
    }
    assert Strip(VVec(Rows(w))).items == seq(|w|, i requires 0 <= i < |w| => VTuple(Contents(w[i])));
  }

  function Contents(v: seq<(Data, Policy)>): seq<Val> {
    seq(|v|, i requires 0 <= i < |v| => VData(v[i].0))
  }

  function Rows(w: seq<seq<(Data, Policy)>>): seq<Val> {
    seq(|w|, i requires 0 <= i < |w| => VTuple(Containers(w[i])))
  }

  /** The enums above are what the two kinds of vectors are encoded as. */
  lemma {:induction false} OptimizedInputs(cd: Codec, v: seq<(Data, Policy)>, w: seq<seq<(Data, Policy)>>)
    requires RoundTrips(cd)
    ensures ToEnum(cd, VVec(Containers(v))) == EVec(PConItems(v))
    ensures ToEnum(cd, VVec(Rows(w))) == EVec(TupleItems(w))
    ensures Ordered(EVec(PConItems(v))) && Ordered(EVec(TupleItems(w)))
  {
    forall x: seq<(Data, Policy)>
      ensures ToEnum(cd, VTuple(Containers(x))) == EVec(PConItems(x))
    {
      assert ToEnum(cd, VTuple(Containers(x))).items == PConItems(x);
    }
    assert ToEnum(cd, VVec(Containers(v))).items == PConItems(v);
    assert ToEnum(cd, VVec(Rows(w))).items == TupleItems(w);
  }

  function Containers(v: seq<(Data, Policy)>): seq<Val> {
    seq(|v|, i requires 0 <= i < |v| => VPCon(v[i].0, v[i].1))
  }
}
