/** ty.rs, the mutable side: `CodegenFunctionCx` holds the memo `ty_to_c`
    and reaches the context's composite list, and `rust_to_c_type` and its
    helpers update both in place. Each method here is proved to leave
    exactly the state, and return exactly the type, that the lowering
    functions of `TypeMapper` compute from the state it started in. */
module CodegenCx {
  import opened Wrappers
  import opened Strings
  import opened Ty
  import opened Definition
  import opened Composite
  import opened Base
  import opened TypeMapper

  /** A method's outcome agrees with a lowering function's: both abort or
      neither does, and on success the values and the states are equal. */
  predicate Agrees<T(==)>(r: Result<T>, spec: Result<(T, MapState)>, now: MapState)
  {
    (r.Ok? <==> spec.Ok?) && (spec.Ok? ==> r.value == spec.value.0 && now == spec.value.1)
  }

  /** Lowering touches only the composite list of the context. */
  twostate predicate OthersUnchanged(c: Context)
    reads c
  {
    c.includes == old(c.includes) && c.headerIncludes == old(c.headerIncludes) &&
    c.defines == old(c.defines) && c.functions == old(c.functions) &&
    c.headerFunctions == old(c.headerFunctions)
  }

  /** Once a prefix of the types fails to lower, the whole list fails. */
  lemma {:induction false} LowerSeqPanics(tys: seq<RustTy>, j: nat, st: MapState)
    requires j <= |tys| && LowerSeq(tys[..j], st).Panic?
    ensures LowerSeq(tys, st).Panic?
    decreases |tys| - j
  {
    if j < |tys| {
      assert tys[..j + 1][..j] == tys[..j];
      LowerSeqPanics(tys, j + 1, st);
    } else {
      assert tys[..j] == tys;
    }
  }

  /** Once a prefix of the fields fails to lower, the whole list fails. */
  lemma {:induction false} LowerFieldsPanics(fs: seq<RustField>, j: nat, st: MapState)
    requires j <= |fs| && LowerFields(fs[..j], st).Panic?
    ensures LowerFields(fs, st).Panic?
    decreases |fs| - j
  {
    if j < |fs| {
      assert fs[..j + 1][..j] == fs[..j];
      LowerFieldsPanics(fs, j + 1, st);
    } else {
      assert fs[..j] == fs;
    }
  }

  /** Once a prefix of the variants fails to lower, the whole list fails. */
  lemma {:induction false} LowerVariantsPanics(vs: seq<RustVariant>, j: nat, st: MapState)
    requires j <= |vs| && LowerVariants(vs[..j], st).Panic?
    ensures LowerVariants(vs, st).Panic?
    decreases |vs| - j
  {
    if j < |vs| {
      assert vs[..j + 1][..j] == vs[..j];
      LowerVariantsPanics(vs, j + 1, st);
    } else {
      assert vs[..j] == vs;
    }
  }

  /** `CodegenFunctionCx`, reduced to what the type mapper uses: the memo
      `ty_to_c` and the context whose composite list it extends. */
  class FunctionCx {
    var tyToC: map<RustTy, CType>
    const ctx: Context

    /** A function context starts with nothing remembered. */
    constructor(ctx: Context)
      ensures this.ctx == ctx && tyToC == map[]
    {
      this.ctx := ctx;
      tyToC := map[];
    }

    /** The memo and the composite list, as the lowering functions see them. */
    function State(): MapState
      reads this, ctx
    {
      MapState(tyToC, ctx.structs)
    }

    /** `rust_to_c_type`: the remembered answer, or the lowering, which is
        then remembered. */
    method RustToCType(ty: RustTy) returns (r: Result<CType>)
      modifies this, ctx
      ensures Agrees(r, Lower(ty, old(State())), State())
      ensures OthersUnchanged(ctx)
      decreases ty, 2
    {
      if ty in tyToC {
        return Ok(tyToC[ty]);
      }
      r := RustToCTypeInternal(ty);
      if r.Ok? {
        tyToC := tyToC[ty := r.value];
      }
    }

    /** Lowers the types in order (the `map(...).collect()` over them). */
    method LowerTypes(tys: seq<RustTy>) returns (r: Result<seq<CType>>)
      modifies this, ctx
      ensures Agrees(r, LowerSeq(tys, old(State())), State())
      ensures OthersUnchanged(ctx)
      decreases tys, 3
    {
      ghost var st0 := State();
      var out := [];
      var i := 0;
      while i < |tys|
        invariant 0 <= i <= |tys|
        invariant LowerSeq(tys[..i], st0) == Ok((out, State()))
        invariant OthersUnchanged(ctx)
      {
        var t := RustToCType(tys[i]);
        assert tys[..i + 1][..i] == tys[..i];
        if t.Panic? {
          LowerSeqPanics(tys, i + 1, st0);
          return Panic(t.reason);
        }
        out := out + [t.value];
        i := i + 1;
      }
      assert tys[..i] == tys;
      return Ok(out);
    }

    /** Lowers the field types of a struct or union in order. */
    method LowerFieldTypes(fs: seq<RustField>) returns (r: Result<seq<CType>>)
      modifies this, ctx
      ensures Agrees(r, LowerFields(fs, old(State())), State())
      ensures OthersUnchanged(ctx)
      decreases fs, 3
    {
      ghost var st0 := State();
      var out := [];
      var i := 0;
      while i < |fs|
        invariant 0 <= i <= |fs|
        invariant LowerFields(fs[..i], st0) == Ok((out, State()))
        invariant OthersUnchanged(ctx)
      {
        var t := RustToCType(fs[i].ty);
        assert fs[..i + 1][..i] == fs[..i];
        if t.Panic? {
          LowerFieldsPanics(fs, i + 1, st0);
          return Panic(t.reason);
        }
        out := out + [t.value];
        i := i + 1;
      }
      assert fs[..i] == fs;
      return Ok(out);
    }

    /** The variant loop of the enum case: per variant, lower its fields,
        register its struct and record the union member `variant_i`. */
    method LowerVariantStructs(vs: seq<RustVariant>) returns (r: Result<seq<CVarDef>>)
      modifies this, ctx
      ensures Agrees(r, LowerVariants(vs, old(State())), State())
      ensures OthersUnchanged(ctx)
      decreases vs, 3
    {
      ghost var st0 := State();
      var members := [];
      var k := 0;
      while k < |vs|
        invariant 0 <= k <= |vs|
        invariant LowerVariants(vs[..k], st0) == Ok((members, State()))
        invariant OthersUnchanged(ctx)
      {
        assert vs[..k + 1][..k] == vs[..k];
        var tys := LowerTypes(vs[k].fields);
        if tys.Panic? {
          LowerVariantsPanics(vs, k + 1, st0);
          return Panic(tys.reason);
        }
        var info := ctx.AddComposite(StructDef(CStructDef(CompositeName(vs[k].path), PositionalFields(tys.value))));
        members := members + [CVarDef(k, "variant_" + NatToString(k), Struct(info))];
        k := k + 1;
      }
      assert vs[..k] == vs;
      return Ok(members);
    }

    /** The tuple case. */
    method LowerTupleType(ty: RustTy) returns (r: Result<CType>)
      requires ty.RTuple?
      modifies this, ctx
      ensures Agrees(r, LowerTuple(ty, old(State())), State())
      ensures OthersUnchanged(ctx)
      decreases ty, 0
    {
      var tys := LowerTypes(ty.elems);
      if tys.Panic? {
        return Panic(tys.reason);
      }
      if |tys.value| == 1 {
        return Ok(tys.value[0]);
      }
      var info := ctx.AddComposite(StructDef(CStructDef(TupleName(tys.value), PositionalFields(tys.value))));
      return Ok(Struct(info));
    }

    /** The struct and union cases. */
    method LowerAdtType(ty: RustTy) returns (r: Result<CType>)
      requires ty.RStruct? || ty.RUnion?
      modifies this, ctx
      ensures Agrees(r, LowerAdt(ty, old(State())), State())
      ensures OthersUnchanged(ctx)
      decreases ty, 0
    {
      var tys := LowerFieldTypes(ty.fields);
      if tys.Panic? {
        return Panic(tys.reason);
      }
      var def := CStructDef(CompositeName(ty.path), NamedFields(ty.fields, tys.value, if ty.RStruct? then "field_" else ""));
      if ty.RStruct? {
        var info := ctx.AddComposite(StructDef(def));
        return Ok(Struct(info));
      } else {
        var info := ctx.AddComposite(UnionDef(def));
        return Ok(Union(info));
      }
    }

    /** The enum case: variant structs, the wrapper union, the discriminant
        type and the tagged union, in that order. */
    method LowerEnumType(ty: RustTy) returns (r: Result<CType>)
      requires ty.REnum?
      modifies this, ctx
      ensures Agrees(r, LowerEnum(ty, old(State())), State())
      ensures OthersUnchanged(ctx)
      decreases ty, 0
    {
      var members := LowerVariantStructs(ty.variants);
      if members.Panic? {
        return Panic(members.reason);
      }
      var unionInfo := ctx.AddComposite(UnionDef(CStructDef(WrapperUnionName(ty.path), members.value)));
      var discrTy := RustToCType(ty.discr);
      if discrTy.Panic? {
        return Panic(discrTy.reason);
      }
      var info := ctx.AddComposite(TaggedUnionDef(NewTaggedUnion(CompositeName(ty.path), discrTy.value, Union(unionInfo))));
      return Ok(TaggedUnion(info));
    }

    /** The array case: the element type, then the wrapper struct. */
    method LowerArrayType(ty: RustTy) returns (r: Result<CType>)
      requires ty.RArray?
      modifies this, ctx
      ensures Agrees(r, LowerArray(ty, old(State())), State())
      ensures OthersUnchanged(ctx)
      decreases ty, 0
    {
      var t := RustToCType(ty.elem);
      if t.Panic? {
        return Panic(t.reason);
      }
      var arr := Array(t.value, ty.len);
      var info := ctx.AddComposite(StructDef(CStructDef(WrapperName(arr), [CVarDef(0, WRAPPER_FIELD_NAME, arr)])));
      return Ok(Struct(info));
    }

    /** `fn_pointer_type_internal`: the argument types, erased if asked,
        then the return type. */
    method FnPointerTypeInternal(sig: RustTy, erase: bool) returns (r: Result<CType>)
      requires sig.RFnPtr?
      modifies this, ctx
      ensures Agrees(r, FnPointerType(sig, erase, old(State())), State())
      ensures OthersUnchanged(ctx)
      decreases sig, 0, 0
    {
      var args := LowerTypes(sig.inputs);
      if args.Panic? {
        return Panic(args.reason);
      }
      var ret := RustToCType(sig.output);
      if ret.Panic? {
        return Panic(ret.reason);
      }
      var inputs := if erase then seq(|args.value|, i requires 0 <= i < |args.value| => ErasePtr(args.value[i])) else args.value;
      return Ok(FunctionPtr(CFuncPtrInfo(inputs, ret.value)));
    }

    /** `fn_pointer_type`: the signature with its argument types kept. */
    method FnPointerTypeOf(sig: RustTy) returns (r: Result<CType>)
      requires sig.RFnPtr?
      modifies this, ctx
      ensures Agrees(r, FnPointerType(sig, false, old(State())), State())
      ensures OthersUnchanged(ctx)
      decreases sig, 0, 1
    {
      r := FnPointerTypeInternal(sig, false);
    }

    /** `erased_fn_pointer_type`: the signature with pointer arguments
        erased to `void*`. */
    method ErasedFnPointerTypeOf(sig: RustTy) returns (r: Result<CType>)
      requires sig.RFnPtr?
      modifies this, ctx
      ensures Agrees(r, FnPointerType(sig, true, old(State())), State())
      ensures OthersUnchanged(ctx)
      decreases sig, 0, 1
    {
      r := FnPointerTypeInternal(sig, true);
    }

    /** `rust_to_c_type_internal`: the lowering rules, case by case. */
    method RustToCTypeInternal(ty: RustTy) returns (r: Result<CType>)
      modifies this, ctx
      ensures Agrees(r, LowerInternal(ty, old(State())), State())
      ensures OthersUnchanged(ctx)
      decreases ty, 1
    {
      match ty
      case RTuple(_) => r := LowerTupleType(ty);
      case RStruct(_, _) => r := LowerAdtType(ty);
      case RUnion(_, _) => r := LowerAdtType(ty);
      case REnum(_, _, _) => r := LowerEnumType(ty);
      case RClosure(upvars) => r := RustToCType(upvars);
      case RDynamic => r := Ok(FatPointer);
      case RRef(pointee, sized) =>
        if sized {
          var t := RustToCType(pointee);
          r := if t.Ok? then Ok(Pointer(t.value)) else Panic(t.reason);
        } else {
          r := Ok(FatPointer);
        }
      case RSlice(_) => r := Ok(FatPointer);
      case RArray(_, _) => r := LowerArrayType(ty);
      case RFnPtr(_, _) => r := FnPointerTypeOf(ty);
      case RNever => r := Ok(Unit);
      case RRawPtr(pointee) =>
        var t := RustToCType(pointee);
        r := if t.Ok? then Ok(Pointer(t.value)) else Panic(t.reason);
      case _ => r := FromTy(ty);
    }
  }
}
