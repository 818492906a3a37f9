/** Values inside and outside a sandbox, and what it means for a piece of sandbox memory to
    hold a value. */
module SandboxMemory {
  /** Types whose layout is the same on both architectures. */
  datatype Kind = Bool | U8 | U16 | U32 | U64 | I8 | I16 | I32 | I64 | F32 | F64 | DateTime

  datatype Shape =
    | TPrim(kind: Kind)
    | TUsize
    | TIsize
    | TBox(inner: Shape)
    | TVec(elem: Shape)
    | TString
    | TTuple(tys: seq<Shape>)

  /** A value of the application, with 64-bit pointers and sizes. */
  datatype Value =
    | Prim(kind: Kind, bits: nat)
    | Usize(size: nat)
    | Isize(offset: int)
    | Boxed(content: Value)
    | Vector(items: seq<Value>)
    | Text(bytes: seq<nat>)
    | Tuple(parts: seq<Value>)

  /** The stack part of a value of the sandbox architecture: 32-bit sizes, and pointers
      relative to the start of the sandbox. */
  datatype Inside =
    | Same(kind: Kind, bits: nat)
    | Size32(size: nat)
    | Offset32(offset: int)
    | BoxAt(ptr: nat)
    | VecAt(ptr: nat, len: nat, cap: nat)
    | Fields(parts: seq<Inside>)

  /** An allocated block: room for `cap` elements, of which the first are initialized. */
  datatype Block = Block(cap: nat, data: seq<Inside>)

  type Memory = map<nat, Block>

  predicate HasType(v: Value, ty: Shape) {
    match ty
    case TPrim(kind) => v.Prim? && v.kind == kind
    case TUsize => v.Usize?
    case TIsize => v.Isize?
    case TBox(inner) => v.Boxed? && HasType(v.content, inner)
    case TVec(elem) => v.Vector? && forall i | 0 <= i < |v.items| :: HasType(v.items[i], elem)
    case TString => v.Text?
    case TTuple(tys) => v.Tuple? && |v.parts| == |tys| && forall i | 0 <= i < |tys| :: HasType(v.parts[i], tys[i])
  }

  /** Every size fits the sandbox architecture. */
  predicate Fits(v: Value) {
    match v
    case Prim(_, _) => true
    case Usize(n) => n < 0x1_0000_0000
    case Isize(n) => -0x8000_0000 <= n < 0x8000_0000
    case Boxed(w) => Fits(w)
    case Vector(vs) => |vs| < 0x1_0000_0000 && forall i | 0 <= i < |vs| :: Fits(vs[i])
    case Text(bytes) => |bytes| < 0x1_0000_0000
    case Tuple(vs) => forall i | 0 <= i < |vs| :: Fits(vs[i])
  }

  /** The low 32 bits of a number, and what they are as a signed number. */
  function Low32(n: int): int {
    n % 0x1_0000_0000
  }

  function Signed32(bits: int): int {
    if bits < 0x8000_0000 then bits else bits - 0x1_0000_0000
  }

  /** Sizes and offsets fit exactly if their low 32 bits give them back. */
  lemma {:induction false} FitsInLowBits(n: nat, k: int)
    ensures Fits(Usize(n)) <==> Low32(n) == n
    ensures Fits(Isize(k)) <==> Signed32(Low32(k)) == k
  {
  }

  // ----- pointers -----

  function Unswizzle(base: nat, address: nat): nat {
    (address - base) % 0x1_0000_0000
  }

  function Swizzle(base: nat, ptr: nat): nat {
    base + ptr
  }

  predicate InSandbox(base: nat, address: nat) {
    base <= address < base + 0x1_0000_0000
  }

  /** A pointer survives the way into the sandbox and back exactly when it points there. */
  lemma {:induction false} PointerRoundTrip(base: nat, address: nat)
    ensures Swizzle(base, Unswizzle(base, address)) == address <==> InSandbox(base, address)
    ensures Unswizzle(base, address) < 0x1_0000_0000
  {
  }

  // ----- memory that holds a value -----

  ghost predicate Star(m: Memory, m1: Memory, m2: Memory) {
    m1.Keys !! m2.Keys && m == m1 + m2
  }

  /** `m` is exactly the memory that the stack part `i` owns, and with it represents `v`. */
  ghost predicate Owns(base: nat, m: Memory, v: Value, i: Inside) {
    match v
    case Prim(kind, bits) => m == map[] && i == Same(kind, bits)
    case Usize(n) => m == map[] && i == Size32(n)
    case Isize(n) => m == map[] && i == Offset32(n)
    case Boxed(w) =>
      && i.BoxAt?
      && (var a := Swizzle(base, i.ptr);
          a in m && m[a].cap == 1 && |m[a].data| == 1 && Owns(base, m - {a}, w, m[a].data[0]))
    case Vector(vs) =>
      && i.VecAt? && i.len == |vs| <= i.cap
      && (if i.cap == 0 then m == map[]
          else
            var a := Swizzle(base, i.ptr);
            a in m && m[a].cap == i.cap && OwnsAll(base, m - {a}, vs, m[a].data))
    case Text(bytes) =>
      && i.VecAt? && i.len == |bytes| <= i.cap
      && (if i.cap == 0 then m == map[]
          else m == map[Swizzle(base, i.ptr) := Block(i.cap, CopiedBytes(bytes))])
    case Tuple(vs) => i.Fields? && OwnsAll(base, m, vs, i.parts)
  }

  /** `m` splits into what each of the elements owns. */
  ghost predicate OwnsAll(base: nat, m: Memory, vs: seq<Value>, data: seq<Inside>) {
    && |data| == |vs|
    && if vs == [] then m == map[]
       else exists m1, m2 :: Star(m, m1, m2) && Owns(base, m1, vs[0], data[0]) && OwnsAll(base, m2, vs[1..], data[1..])
  }

  /** One more element, with the memory it owns. */
  lemma {:induction false} OwnsOneMore(base: nat, m: Memory, vs: seq<Value>, data: seq<Inside>,
                                       m': Memory, v: Value, i: Inside)
    requires OwnsAll(base, m, vs, data) && Owns(base, m', v, i) && m.Keys !! m'.Keys
    ensures OwnsAll(base, m + m', vs + [v], data + [i])
    decreases vs
  {
    hide Owns;
    var vs', data' := vs + [v], data + [i];
    if vs == [] {
      assert m + m' == m';
      assert OwnsAll(base, map[], vs'[1..], data'[1..]);
      assert Star(m + m', m', map[]);
    } else {
      var m1, m2 :| Star(m, m1, m2) && Owns(base, m1, vs[0], data[0]) && OwnsAll(base, m2, vs[1..], data[1..]);
      OwnsOneMore(base, m2, vs[1..], data[1..], m', v, i);
      assert vs'[1..] == vs[1..] + [v] && data'[1..] == data[1..] + [i];
      StarShift(m, m1, m2, m');
    }
  }

  lemma {:induction false} StarShift(m: Memory, m1: Memory, m2: Memory, m': Memory)
    requires Star(m, m1, m2) && m.Keys !! m'.Keys
    ensures m2.Keys !! m'.Keys && Star(m + m', m1, m2 + m')
  {
    assert m + m' == m1 + (m2 + m');
  }

  function CopiedBytes(bytes: seq<nat>): seq<Inside> {
    seq(|bytes|, i requires 0 <= i < |bytes| => Same(U8, bytes[i]))
  }

  /** What one memory holds is determined by the stack part alone: no two values, and no two
      footprints. */
  lemma {:induction false} OneValue(base: nat, all: Memory, ty: Shape, i: Inside,
                                    m: Memory, v: Value, m': Memory, v': Value)
    requires HasType(v, ty) && HasType(v', ty)
    requires m.Items <= all.Items && m'.Items <= all.Items
    requires Owns(base, m, v, i) && Owns(base, m', v', i)
    ensures v == v' && m == m'
    decreases v
  {
    match v
    case Boxed(w) =>
      var a := Swizzle(base, i.ptr);
      SameBlock(all, m, m', a);
      OneValue(base, all, ty.inner, m[a].data[0], m - {a}, w, m' - {a}, v'.content);
      assert m == (m - {a})[a := m[a]];
      assert m' == (m' - {a})[a := m'[a]];
    case Vector(vs) =>
      if i.cap > 0 {
        var a := Swizzle(base, i.ptr);
        SameBlock(all, m, m', a);
        OneSequence(base, all, seq(|vs|, _ => ty.elem), m[a].data, m - {a}, vs, m' - {a}, v'.items);
        assert m == (m - {a})[a := m[a]];
        assert m' == (m' - {a})[a := m'[a]];
      }
    case Text(bytes) =>
      if i.cap > 0 {
        var a := Swizzle(base, i.ptr);
        SameBlock(all, m, m', a);
        assert forall k | 0 <= k < |bytes| :: CopiedBytes(bytes)[k].bits == bytes[k];
        assert forall k | 0 <= k < |bytes| :: CopiedBytes(v'.bytes)[k].bits == v'.bytes[k];
      }
    case Tuple(vs) => OneSequence(base, all, ty.tys, i.parts, m, vs, m', v'.parts);
    case _ =>
  }

  lemma {:induction false} SameBlock(all: Memory, m: Memory, m': Memory, a: nat)
    requires m.Items <= all.Items && m'.Items <= all.Items && a in m && a in m'
    ensures m[a] == m'[a]
    ensures (m - {a}).Items <= all.Items && (m' - {a}).Items <= all.Items
  {
    assert (a, m[a]) in m.Items && (a, m'[a]) in m'.Items;
    forall x | x in (m - {a}).Items ensures x in all.Items { assert x in m.Items; }
    forall x | x in (m' - {a}).Items ensures x in all.Items { assert x in m'.Items; }
  }

  lemma {:induction false} OneSequence(base: nat, all: Memory, tys: seq<Shape>, data: seq<Inside>,
                                       m: Memory, vs: seq<Value>, m': Memory, vs': seq<Value>)
    requires |vs| == |vs'| == |tys|
    requires forall k | 0 <= k < |tys| :: HasType(vs[k], tys[k]) && HasType(vs'[k], tys[k])
    requires m.Items <= all.Items && m'.Items <= all.Items
    requires OwnsAll(base, m, vs, data) && OwnsAll(base, m', vs', data)
    ensures vs == vs' && m == m'
    decreases vs
  {
    if vs != [] {
      var m1, m2 :| Star(m, m1, m2) && Owns(base, m1, vs[0], data[0]) && OwnsAll(base, m2, vs[1..], data[1..]);
      var m1', m2' :| Star(m', m1', m2') && Owns(base, m1', vs'[0], data[0]) && OwnsAll(base, m2', vs'[1..], data[1..]);
      Parts(all, m, m1, m2);
      Parts(all, m', m1', m2');
      OneValue(base, all, tys[0], data[0], m1, vs[0], m1', vs'[0]);
      OneSequence(base, all, tys[1..], data[1..], m2, vs[1..], m2', vs'[1..]);
      assert vs == [vs[0]] + vs[1..];
      assert vs' == [vs'[0]] + vs'[1..];
    }
  }

  lemma {:induction false} Parts(all: Memory, m: Memory, m1: Memory, m2: Memory)
    requires Star(m, m1, m2) && m.Items <= all.Items
    ensures m1.Items <= all.Items && m2.Items <= all.Items
  {
    forall x | x in m1.Items ensures x in all.Items { assert x.0 in m && m[x.0] == x.1; assert x in m.Items; }
    forall x | x in m2.Items ensures x in all.Items { assert x.0 in m && m[x.0] == x.1; assert x in m.Items; }
  }

  // ----- plain copies -----

  /** Types that may be copied without conversion. */
  predicate Identity(ty: Shape) {
    match ty
    case TPrim(_) => true
    case TTuple(tys) => forall i | 0 <= i < |tys| :: Identity(tys[i])
    case _ => false
  }

  /** The bits of a value of such a type, as they are copied. */
  function Copied(ty: Shape, v: Value): (i: Inside)
    requires Identity(ty) && HasType(v, ty)
  {
    match ty
    case TPrim(_) => Same(v.kind, v.bits)
    case TTuple(tys) => Fields(seq(|tys|, k requires 0 <= k < |tys| => Copied(tys[k], v.parts[k])))
  }

  /** Stack parts that are the bits of some value of a plainly copied type. */
  predicate Shaped(ty: Shape, i: Inside) {
    match ty
    case TPrim(kind) => i.Same? && i.kind == kind
    case TTuple(tys) => i.Fields? && |i.parts| == |tys| && forall k | 0 <= k < |tys| :: Shaped(tys[k], i.parts[k])
    case _ => false
  }

  /** The same bits, read as a value of the application. */
  function CopiedBack(ty: Shape, i: Inside): Value
    requires Shaped(ty, i)
  {
    match ty
    case TPrim(_) => Prim(i.kind, i.bits)
    case TTuple(tys) => Tuple(seq(|tys|, k requires 0 <= k < |tys| => CopiedBack(tys[k], i.parts[k])))
  }

  lemma {:induction false} CopyRoundTrip(ty: Shape, v: Value)
    requires Identity(ty) && HasType(v, ty)
    ensures Shaped(ty, Copied(ty, v)) && CopiedBack(ty, Copied(ty, v)) == v
    decreases v
  {
    if ty.TTuple? {
      forall k | 0 <= k < |ty.tys|
        ensures Shaped(ty.tys[k], Copied(ty.tys[k], v.parts[k]))
        ensures CopiedBack(ty.tys[k], Copied(ty.tys[k], v.parts[k])) == v.parts[k]
      {
        CopyRoundTrip(ty.tys[k], v.parts[k]);
      }
    }
  }

  function CopiedAll(tys: seq<Shape>, vs: seq<Value>): seq<Inside>
    requires |vs| == |tys| && forall k | 0 <= k < |tys| :: Identity(tys[k]) && HasType(vs[k], tys[k])
  {
    seq(|tys|, k requires 0 <= k < |tys| => Copied(tys[k], vs[k]))
  }

  /** For a plainly copied type the conversion element by element writes the very bits that a
      block copy writes, and needs no memory. */
  lemma {:induction false} CopyIsConversion(base: nat, ty: Shape, m: Memory, v: Value, i: Inside)
    requires Identity(ty) && HasType(v, ty)
    ensures Owns(base, m, v, i) <==> m == map[] && i == Copied(ty, v)
    decreases v
  {
    if ty.TTuple? {
      if i.Fields? {
        CopiesAreConversions(base, ty.tys, m, v.parts, i.parts);
      }
    }
  }

  lemma {:induction false} CopiesAreConversions(base: nat, tys: seq<Shape>, m: Memory, vs: seq<Value>,
      data: seq<Inside>)
    requires |vs| == |tys| && forall k | 0 <= k < |tys| :: Identity(tys[k]) && HasType(vs[k], tys[k])
    ensures OwnsAll(base, m, vs, data) <==> m == map[] && data == CopiedAll(tys, vs)
    decreases vs
  {
    if |data| == |vs| && vs != [] {
      var copies := CopiedAll(tys, vs);
      assert copies[1..] == CopiedAll(tys[1..], vs[1..]);
      assert data == copies <==> data[0] == copies[0] && data[1..] == copies[1..] by {
        assert data == [data[0]] + data[1..];
        assert copies == [copies[0]] + copies[1..];
      }
      if OwnsAll(base, m, vs, data) {
        var m1, m2 :| Star(m, m1, m2) && Owns(base, m1, vs[0], data[0]) && OwnsAll(base, m2, vs[1..], data[1..]);
        CopyIsConversion(base, tys[0], m1, vs[0], data[0]);
        CopiesAreConversions(base, tys[1..], m2, vs[1..], data[1..]);
      }
      if m == map[] && data == copies {
        CopyIsConversion(base, tys[0], map[], vs[0], data[0]);
        CopiesAreConversions(base, tys[1..], map[], vs[1..], data[1..]);
        assert Star(m, map[], map[]);
      }
    }
  }
}
