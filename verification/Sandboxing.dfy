/** Deep copies into and out of the memory of a sandbox. */
module Sandboxing {
  import opened Policies
  import opened SandboxMemory

  datatype Fault = OutOfMemory | Narrowing

  /** `m` still holds every block of `before`, unchanged. */
  ghost predicate Keeps(before: Memory, m: Memory) {
    forall a | a in before :: a in m && m[a] == before[a]
  }

  /** What the allocator in the sandbox answers to its n-th request, for so much room: an address,
      or none.  Nothing else is known about it. */
  type Allocator = (nat, Memory, nat) -> Option<nat>

  /** It only gives out unused addresses of the sandbox. */
  ghost predicate Fresh(base: nat, allocator: Allocator) {
    forall n: nat, m: Memory, cap: nat ::
      allocator(n, m, cap).Some? ==> allocator(n, m, cap).value !in m && InSandbox(base, allocator(n, m, cap).value)
  }

  class Sandbox {
    const base: nat
    const allocator: Allocator
    var blocks: Memory
    var requests: nat
    ghost var refusals: nat

    constructor (base: nat, allocator: Allocator)
      requires Fresh(base, allocator)
      ensures Valid() && this.base == base && this.allocator == allocator && blocks == map[] && refusals == 0
    {
      this.base, this.allocator, blocks, requests, refusals := base, allocator, map[], 0, 0;
    }

    ghost predicate Valid()
      reads this
    {
      Fresh(base, allocator) && forall a | a in blocks :: InSandbox(base, a)
    }

    /** A new block where the allocator puts it, or none; how often there was none is counted. */
    method Allocate(cap: nat) returns (a: Option<nat>)
      requires Valid()
      modifies this
      ensures Valid()
      ensures a == allocator(old(requests), old(blocks), cap)
      ensures a.Some? ==>
                a.value !in old(blocks) && InSandbox(base, a.value) && blocks == old(blocks)[a.value := Block(cap, [])]
      ensures a.None? ==> blocks == old(blocks)
      ensures refusals == old(refusals) + if a.None? then 1 else 0
    {
      a := allocator(requests, blocks, cap);
      requests := requests + 1;
      match a {
        case Some(x) => blocks := blocks[x := Block(cap, [])];
        case None => refusals := refusals + 1;
      }
    }

    /** Only a block that is still allocated may be freed. */
    method Free(a: nat)
      requires Valid() && a in blocks
      modifies this
      ensures Valid() && blocks == old(blocks) - {a} && refusals == old(refusals)
    {
      blocks := blocks - {a};
    }

    /** Deeply copies a value into the sandbox.  `owned` is the memory that was allocated for it. */
    method IntoSandbox(ty: Shape, v: Value) returns (r: Result<Inside, Fault>, ghost owned: Memory)
      requires Valid() && HasType(v, ty)
      modifies this
      ensures Valid() && Keeps(old(blocks), blocks)
      ensures r.Ok? ==> Star(blocks, old(blocks), owned) && Owns(base, owned, v, r.value)
      ensures r.Ok? ==> Fits(v)
      ensures r == Err(OutOfMemory) <==> refusals > old(refusals)
      ensures refusals >= old(refusals) && (refusals == old(refusals) ==> (r.Ok? <==> Fits(v)))
      decreases v
    {
      owned := map[];
      match v {
        case Prim(kind, bits) => r := Ok(Same(kind, bits));
        case Usize(n) => r := if n < 0x1_0000_0000 then Ok(Size32(n)) else Err(Narrowing);
        case Isize(n) => r := if -0x8000_0000 <= n < 0x8000_0000 then Ok(Offset32(n)) else Err(Narrowing);
        case Boxed(w) => r, owned := BoxIntoSandbox(ty.inner, v);
        case Vector(vs) =>
          if Identity(ty.elem) {
            r, owned := CopyVecIntoSandbox(ty.elem, v);
          } else {
            r, owned := VecIntoSandbox(ty.elem, v);
          }
        case Text(bytes) => r, owned := CopyIntoSandbox(CopiedBytes(bytes));
        case Tuple(vs) => r, owned := TupleIntoSandbox(ty.tys, v);
      }
    }

    method BoxIntoSandbox(inner: Shape, v: Value) returns (r: Result<Inside, Fault>, ghost owned: Memory)
      requires Valid() && HasType(v, TBox(inner))
      modifies this
      ensures Valid() && Keeps(old(blocks), blocks)
      ensures r.Ok? ==> Star(blocks, old(blocks), owned) && Owns(base, owned, v, r.value)
      ensures r.Ok? ==> Fits(v)
      ensures r == Err(OutOfMemory) <==> refusals > old(refusals)
      ensures refusals >= old(refusals) && (refusals == old(refusals) ==> (r.Ok? <==> Fits(v)))
      decreases v, 0
    {
      r, owned := IntoSandbox(inner, v.content);
      if r.Err? { return; }
      var a := Allocate(1);
      if a.None? { return Err(OutOfMemory), owned; }
      assert blocks - {a.value} == old(blocks) + owned;
      blocks := blocks[a.value := Block(1, [r.value])];
      assert blocks - {a.value} == old(blocks) + owned;
      Close(old(blocks), blocks, owned, a.value);
      owned := owned[a.value := Block(1, [r.value])];
      r := Ok(BoxAt(Unswizzle(base, a.value)));
    }

    /** The room for a vector; an empty vector needs none. */
    method WithCapacity(cap: nat) returns (a: Option<nat>)
      requires Valid()
      modifies this
      ensures Valid()
      ensures cap == 0 ==> a == Some(DANGLING) && blocks == old(blocks)
      ensures cap > 0 && a.Some? ==>
                a.value !in old(blocks) && InSandbox(base, a.value) && blocks == old(blocks)[a.value := Block(cap, [])]
      ensures a.None? ==> blocks == old(blocks)
      ensures refusals == old(refusals) + if a.None? then 1 else 0
    {
      if cap == 0 {
        a := Some(DANGLING);
      } else {
        a := Allocate(cap);
      }
    }

    /** The finished vector: its pointer unswizzled, its length and capacity narrowed. */
    function SandboxedVec(a: nat, n: nat): (r: Result<Inside, Fault>)
      ensures r == Err(Narrowing) || r == Ok(VecAt(Unswizzle(base, a), n, n))
      ensures r.Ok? <==> n < 0x1_0000_0000
    {
      if n < 0x1_0000_0000 then Ok(VecAt(Unswizzle(base, a), n, n)) else Err(Narrowing)
    }

    /** Copies bits that need no conversion in one go. */
    method CopyIntoSandbox(data: seq<Inside>) returns (r: Result<Inside, Fault>, ghost owned: Memory)
      requires Valid()
      modifies this
      ensures Valid() && Keeps(old(blocks), blocks)
      ensures r.Ok? ==>
                && Star(blocks, old(blocks), owned)
                && r.value.VecAt? && r.value.len == r.value.cap == |data| < 0x1_0000_0000
                && owned == if data == [] then map[] else map[Swizzle(base, r.value.ptr) := Block(|data|, data)]
      ensures r == Err(OutOfMemory) <==> refusals > old(refusals)
      ensures refusals >= old(refusals) && (refusals == old(refusals) ==> (r.Ok? <==> |data| < 0x1_0000_0000))
    {
      owned := map[];
      var a := WithCapacity(|data|);
      if a.None? { return Err(OutOfMemory), owned; }
      if |data| > 0 {
        blocks := blocks[a.value := Block(|data|, data)];
        owned := map[a.value := Block(|data|, data)];
      }
      r := SandboxedVec(a.value, |data|);
    }

    /** A vector of plainly copied elements. */
    method CopyVecIntoSandbox(elem: Shape, v: Value) returns (r: Result<Inside, Fault>, ghost owned: Memory)
      requires Valid() && HasType(v, TVec(elem)) && Identity(elem)
      modifies this
      ensures Valid() && Keeps(old(blocks), blocks)
      ensures r.Ok? ==> Star(blocks, old(blocks), owned) && Owns(base, owned, v, r.value)
      ensures r.Ok? ==> Fits(v)
      ensures r == Err(OutOfMemory) <==> refusals > old(refusals)
      ensures refusals >= old(refusals) && (refusals == old(refusals) ==> (r.Ok? <==> Fits(v)))
    {
      var tys := seq(|v.items|, _ => elem);
      var data := CopiedAll(tys, v.items);
      r, owned := CopyIntoSandbox(data);
      CopiesAreConversions(base, tys, map[], v.items, data);
      forall k | 0 <= k < |v.items| ensures Fits(v.items[k]) { IdentityFits(elem, v.items[k]); }
      if r.Ok? && data != [] {
        assert owned - {Swizzle(base, r.value.ptr)} == map[];
      }
    }

    /** Converts the elements of a vector one by one into the room allocated for them. */
    method VecIntoSandbox(elem: Shape, v: Value) returns (r: Result<Inside, Fault>, ghost owned: Memory)
      requires Valid() && HasType(v, TVec(elem))
      modifies this
      ensures Valid() && Keeps(old(blocks), blocks)
      ensures r.Ok? ==> Star(blocks, old(blocks), owned) && Owns(base, owned, v, r.value)
      ensures r.Ok? ==> Fits(v)
      ensures r == Err(OutOfMemory) <==> refusals > old(refusals)
      ensures refusals >= old(refusals) && (refusals == old(refusals) ==> (r.Ok? <==> Fits(v)))
      decreases v, 0
    {
      hide Owns, OwnsAll, Star, Filling;
      owned := map[];
      var n := |v.items|;
      var a := WithCapacity(n);
      if a.None? { return Err(OutOfMemory), owned; }
      OwnsNothing(base, a.value);
      ghost var held: Memory := map[];
      if n > 0 { Begin(old(blocks), a.value, Block(n, [])); }
      for k := 0 to n
        invariant Valid() && Keeps(old(blocks), blocks)
        invariant n == 0 ==> blocks == old(blocks)
        invariant n > 0 ==>
                    && Filling(old(blocks), blocks, held, a.value) && a.value in blocks && blocks[a.value].cap == n
                    && OwnsAll(base, held, v.items[..k], blocks[a.value].data)
        invariant refusals == old(refusals) && forall j | 0 <= j < k :: Fits(v.items[j])
      {
        ghost var before := blocks;
        var item;
        ghost var m;
        item, m := IntoSandbox(elem, v.items[k]);
        if item.Err? { return item, owned; }
        OneMore(old(blocks), before, blocks, held, m, a.value);
        OwnsOneMore(base, held, v.items[..k], blocks[a.value].data, m, v.items[k], item.value);
        assert v.items[..k + 1] == v.items[..k] + [v.items[k]];
        held := held + m;
        Fill(old(blocks), blocks, held, a.value, Block(n, blocks[a.value].data + [item.value]));
        blocks := blocks[a.value := Block(n, blocks[a.value].data + [item.value])];
      }
      assert v.items[..n] == v.items;
      StarNothing(old(blocks));
      if n > 0 {
        Close(old(blocks), blocks, held, a.value);
        OwnsVector(base, a.value, held, v.items, blocks[a.value].data);
        owned := held[a.value := blocks[a.value]];
      }
      r := SandboxedVec(a.value, n);
    }

    method TupleIntoSandbox(tys: seq<Shape>, v: Value) returns (r: Result<Inside, Fault>, ghost owned: Memory)
      requires Valid() && HasType(v, TTuple(tys))
      modifies this
      ensures Valid() && Keeps(old(blocks), blocks)
      ensures r.Ok? ==> Star(blocks, old(blocks), owned) && Owns(base, owned, v, r.value)
      ensures r.Ok? ==> Fits(v)
      ensures r == Err(OutOfMemory) <==> refusals > old(refusals)
      ensures refusals >= old(refusals) && (refusals == old(refusals) ==> (r.Ok? <==> Fits(v)))
      decreases v, 0
    {
      hide Owns, OwnsAll;
      OwnsNothing(base, 0);
      owned := map[];
      var parts: seq<Inside> := [];
      for k := 0 to |tys|
        invariant Valid() && Keeps(old(blocks), blocks)
        invariant Star(blocks, old(blocks), owned)
        invariant OwnsAll(base, owned, v.parts[..k], parts)
        invariant refusals == old(refusals) && forall j | 0 <= j < k :: Fits(v.parts[j])
      {
        ghost var before := blocks;
        var part;
        ghost var m;
        part, m := IntoSandbox(tys[k], v.parts[k]);
        if part.Err? { return part, owned; }
        Regroup(old(blocks), before, blocks, owned, m);
        OwnsOneMore(base, owned, v.parts[..k], parts, m, v.parts[k], part.value);
        assert v.parts[..k + 1] == v.parts[..k] + [v.parts[k]];
        owned := owned + m;
        parts := parts + [part.value];
      }
      assert v.parts[..|tys|] == v.parts;
      OwnsTuple(base, owned, v.parts, parts);
      r := Ok(Fields(parts));
    }

    // ----- out of the sandbox -----

    /** Takes the value that `owned` holds out of the sandbox, and frees exactly the blocks of
        `owned`.  Each block is freed once, because only an allocated block can be freed. */
    method OutOfSandbox(ty: Shape, i: Inside, ghost owned: Memory, ghost v: Value) returns (r: Value)
      requires Valid() && HasType(v, ty) && Owns(base, owned, v, i) && Keeps(owned, blocks)
      modifies this
      ensures Valid() && r == v && blocks == old(blocks) - owned.Keys && refusals == old(refusals)
      decreases v
    {
      match ty {
        case TPrim(_) => r := Prim(i.kind, i.bits);
        case TUsize => r := Usize(i.size);
        case TIsize => r := Isize(i.offset);
        case TBox(inner) =>
          var a := Swizzle(base, i.ptr);
          var content := OutOfSandbox(inner, blocks[a].data[0], owned - {a}, v.content);
          Free(a);
          r := Boxed(content);
        case TVec(elem) =>
          if Identity(elem) {
            r := CopyVecOutOfSandbox(elem, i, owned, v);
          } else {
            r := VecOutOfSandbox(elem, i, owned, v);
          }
        case TString =>
          if i.cap == 0 {
            r := Text([]);
          } else {
            var a := Swizzle(base, i.ptr);
            var data := blocks[a].data;
            assert a in owned && blocks[a] == owned[a];
            r := Text(seq(|data|, k requires 0 <= k < |data| => if data[k].Same? then data[k].bits else 0));
            Free(a);
          }
        case TTuple(tys) =>
          var parts := AllOutOfSandbox(tys, i.parts, owned, v.parts);
          r := Tuple(parts);
      }
    }

    method VecOutOfSandbox(elem: Shape, i: Inside, ghost owned: Memory, ghost v: Value) returns (r: Value)
      requires Valid() && HasType(v, TVec(elem)) && Owns(base, owned, v, i) && Keeps(owned, blocks)
      modifies this
      ensures Valid() && r == v && blocks == old(blocks) - owned.Keys && refusals == old(refusals)
      decreases v, 0
    {
      if i.cap == 0 { return Vector([]); }
      var a := Swizzle(base, i.ptr);
      var data := blocks[a].data;
      assert data == owned[a].data;
      var items := AllOutOfSandbox(seq(|data|, _ => elem), data, owned - {a}, v.items);
      Free(a);
      r := Vector(items);
    }

    /** Takes the elements of a vector or of a tuple out of the sandbox, in their order. */
    method AllOutOfSandbox(tys: seq<Shape>, data: seq<Inside>, ghost owned: Memory, ghost vs: seq<Value>)
      returns (items: seq<Value>)
      requires Valid() && |vs| == |tys| && (forall k | 0 <= k < |tys| :: HasType(vs[k], tys[k]))
      requires OwnsAll(base, owned, vs, data) && Keeps(owned, blocks)
      modifies this
      ensures Valid() && items == vs && blocks == old(blocks) - owned.Keys && refusals == old(refusals)
      decreases vs, 0
    {
      ghost var rest := owned;
      items := [];
      assert vs[0..] == vs && data[0..] == data;
      hide Owns, OwnsAll, Star, Keeps;
      for k := 0 to |tys|
        invariant Valid() && |data| == |tys| && items == vs[..k] && refusals == old(refusals)
        invariant OwnsAll(base, rest, vs[k..], data[k..])
        invariant rest.Keys <= owned.Keys && Keeps(rest, blocks)
        invariant blocks == Without(old(blocks), owned.Keys, rest)
      {
        ghost var m1, m2 := OwnsFirst(base, rest, vs[k..], data[k..]);
        Release(old(blocks), blocks, owned.Keys, rest, m1, m2);
        var item := OutOfSandbox(tys[k], data[k], m1, vs[k]);
        items := items + [item];
        rest := m2;
        assert vs[k..][1..] == vs[k + 1..] && data[k..][1..] == data[k + 1..];
      }
      OwnsNone(base, rest, vs[|tys|..], data[|tys|..]);
    }

    /** A vector of plainly copied elements is copied back in one go. */
    method CopyVecOutOfSandbox(elem: Shape, i: Inside, ghost owned: Memory, ghost v: Value) returns (r: Value)
      requires Valid() && HasType(v, TVec(elem)) && Identity(elem)
      requires Owns(base, owned, v, i) && Keeps(owned, blocks)
      modifies this
      ensures Valid() && r == v && blocks == old(blocks) - owned.Keys && refusals == old(refusals)
    {
      if i.cap == 0 { return Vector([]); }
      var a := Swizzle(base, i.ptr);
      var data := blocks[a].data;
      assert blocks[a] == owned[a];
      ghost var tys := seq(|v.items|, _ => elem);
      CopiesAreConversions(base, tys, owned - {a}, v.items, data);
      forall k | 0 <= k < |data| ensures Shaped(elem, data[k]) && CopiedBack(elem, data[k]) == v.items[k] {
        CopyRoundTrip(elem, v.items[k]);
      }
      assert owned.Keys == {a} by { assert forall x | x in owned :: x == a || x in owned - {a}; }
      r := Vector(seq(|data|, k requires 0 <= k < |data| => CopiedBack(elem, data[k])));
      Free(a);
    }

    // ----- the whole transfer -----

    /** Puts the copy into a block of its own, and returns the address of that block. */
    method IntoPointer(ty: Shape, v: Value) returns (r: Result<nat, Fault>, ghost owned: Memory)
      requires Valid() && HasType(v, ty)
      modifies this
      ensures Valid() && Keeps(old(blocks), blocks)
      ensures r.Ok? ==> && Star(blocks, old(blocks), owned) && InSandbox(base, r.value)
                        && Owns(base, owned, Boxed(v), BoxAt(Unswizzle(base, r.value)))
      ensures r.Ok? ==> Fits(v)
      ensures r == Err(OutOfMemory) <==> refusals > old(refusals)
      ensures refusals >= old(refusals) && (refusals == old(refusals) ==> (r.Ok? <==> Fits(v)))
    {
      var b;
      b, owned := BoxIntoSandbox(ty, Boxed(v));
      r := match b case Err(e) => Err(e) case Ok(i) => Ok(Swizzle(base, i.ptr));
    }

    /** Takes the value out of the block at `a`, and frees the block. */
    method OutOfPointer(ty: Shape, a: nat, ghost owned: Memory, ghost v: Value) returns (r: Value)
      requires Valid() && HasType(v, ty) && InSandbox(base, a)
      requires Owns(base, owned, Boxed(v), BoxAt(Unswizzle(base, a))) && Keeps(owned, blocks)
      modifies this
      ensures Valid() && r == v && blocks == old(blocks) - owned.Keys && refusals == old(refusals)
    {
      r := OutOfSandbox(ty, blocks[a].data[0], owned - {a}, v);
      Free(a);
    }

    /** A value that goes in and comes out again is the same value, and the memory of the sandbox
        is what it was. */
    method RoundTrip(ty: Shape, v: Value) returns (r: Result<Value, Fault>)
      requires Valid() && HasType(v, ty)
      modifies this
      ensures Valid() && Keeps(old(blocks), blocks)
      ensures r.Ok? ==> r.value == v && blocks == old(blocks) && Fits(v)
      ensures r == Err(OutOfMemory) <==> refusals > old(refusals)
      ensures refusals >= old(refusals) && (refusals == old(refusals) ==> (r.Ok? <==> Fits(v)))
    {
      ghost var owned;
      var a;
      a, owned := IntoPointer(ty, v);
      if a.Err? { return Err(a.error); }
      var back := OutOfPointer(ty, a.value, owned, v);
      r := Ok(back);
    }
  }

  /** Where an empty vector points. */
  const DANGLING: nat := 4

  lemma {:induction false} Regroup(start: Memory, before: Memory, after: Memory, held: Memory, m: Memory)
    requires Star(before, start, held) && Star(after, before, m)
    ensures held.Keys !! m.Keys && Star(after, start, held + m)
  {
    assert after == start + (held + m);
  }

  lemma {:induction false} StarNothing(m: Memory)
    ensures Star(m, m, map[])
  {
    assert m == m + map[];
  }

  /** `m` is `start` with the memory `held` and a block at `a` that is being filled. */
  ghost predicate Filling(start: Memory, m: Memory, held: Memory, a: nat) {
    a in m && a !in start && Star(m - {a}, start, held)
  }

  lemma {:induction false} OneMore(start: Memory, before: Memory, after: Memory, held: Memory, m: Memory, a: nat)
    requires Star(after, before, m) && Filling(start, before, held, a)
    ensures held.Keys !! m.Keys && a in after && a in before && after[a] == before[a]
    ensures Filling(start, after, held + m, a)
  {
    assert Star(after - {a}, before - {a}, m) by { assert after - {a} == (before - {a}) + m; }
    Regroup(start, before - {a}, after - {a}, held, m);
  }

  lemma {:induction false} Fill(start: Memory, m: Memory, held: Memory, a: nat, b: Block)
    requires Filling(start, m, held, a)
    ensures Filling(start, m[a := b], held, a) && Keeps(start, m[a := b])
  {
    assert m[a := b] - {a} == m - {a};
    assert forall x | x in start :: x in m - {a} && (m - {a})[x] == start[x];
  }

  lemma {:induction false} Begin(start: Memory, a: nat, b: Block)
    requires a !in start
    ensures Filling(start, start[a := b], map[], a)
  {
    assert start[a := b] - {a} == start + map[];
  }

  lemma {:induction false} Close(start: Memory, after: Memory, held: Memory, a: nat)
    requires Filling(start, after, held, a)
    ensures a !in held && held[a := after[a]] - {a} == held && Star(after, start, held[a := after[a]])
  {
    var rest := after - {a};
    assert rest == start + held;
    assert a !in held by { assert forall x | x in held :: x in rest; }
    assert after == rest[a := after[a]];
    assert (start + held)[a := after[a]] == start + held[a := after[a]];
  }

  lemma {:induction false} OwnsNothing(base: nat, a: nat)
    ensures OwnsAll(base, map[], [], [])
    ensures Owns(base, map[], Vector([]), VecAt(Unswizzle(base, a), 0, 0))
  {
  }

  /** `m` after everything at `whole` but `rest` was freed. */
  ghost function Without(m: Memory, whole: set<nat>, rest: Memory): Memory {
    m - (whole - rest.Keys)
  }

  lemma {:induction false} Release(start: Memory, before: Memory, whole: set<nat>, rest: Memory, m1: Memory, m2: Memory)
    requires Star(rest, m1, m2) && rest.Keys <= whole && Keeps(rest, before) && before == Without(start, whole, rest)
    ensures Keeps(m1, before)
    ensures m2.Keys <= whole && Keeps(m2, before - m1.Keys) && before - m1.Keys == Without(start, whole, m2)
  {
    assert forall x | x in rest :: x in m1 || x in m2;
    assert forall x | x in m1 :: rest[x] == m1[x] && x in rest;
    assert forall x | x in m2 :: rest[x] == m2[x] && x in rest;
    assert whole - m2.Keys == (whole - rest.Keys) + m1.Keys;
  }

  lemma {:induction false} OwnsFirst(base: nat, m: Memory, vs: seq<Value>, data: seq<Inside>)
    returns (m1: Memory, m2: Memory)
    requires |vs| > 0 && OwnsAll(base, m, vs, data)
    ensures |data| == |vs| && Star(m, m1, m2)
    ensures Owns(base, m1, vs[0], data[0]) && OwnsAll(base, m2, vs[1..], data[1..])
  {
    hide Owns;
    m1, m2 :| Star(m, m1, m2) && Owns(base, m1, vs[0], data[0]) && OwnsAll(base, m2, vs[1..], data[1..]);
  }

  lemma {:induction false} OwnsNone(base: nat, m: Memory, vs: seq<Value>, data: seq<Inside>)
    requires vs == [] && OwnsAll(base, m, vs, data)
    ensures m == map[]
  {
  }

  lemma {:induction false} OwnsVector(base: nat, a: nat, held: Memory, vs: seq<Value>, data: seq<Inside>)
    requires InSandbox(base, a) && a !in held && |vs| > 0 && OwnsAll(base, held, vs, data)
    ensures Owns(base, held[a := Block(|vs|, data)], Vector(vs), VecAt(Unswizzle(base, a), |vs|, |vs|))
  {
    assert held[a := Block(|vs|, data)] - {a} == held;
  }

  lemma {:induction false} OwnsTuple(base: nat, m: Memory, vs: seq<Value>, parts: seq<Inside>)
    requires OwnsAll(base, m, vs, parts)
    ensures Owns(base, m, Tuple(vs), Fields(parts))
  {
  }

  /** Bits that are copied plainly hold no sizes that could be narrowed. */
  lemma {:induction false} IdentityFits(ty: Shape, v: Value)
    requires Identity(ty) && HasType(v, ty)
    ensures Fits(v)
    decreases v
  {
    if ty.TTuple? {
      forall k | 0 <= k < |ty.tys| ensures Fits(v.parts[k]) { IdentityFits(ty.tys[k], v.parts[k]); }
    }
  }
}
