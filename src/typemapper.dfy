/** ty.rs, the Rust side: `rust_to_c_type` lowers a Rust type to a `CType`,
    remembering each answer and registering the structs, unions and tagged
    unions the lowering needs in the context's composite list. The rustc
    queries it consults (the definition path of an ADT, whether a type is
    sized, the discriminant type of an enum, the length of an array) are
    fields of the Rust type given to it. */
module TypeMapper {
  import opened Wrappers
  import opened Strings
  import opened Ty
  import opened Definition
  import opened Composite

  /** A field of a Rust struct or union: its name and type. */
  datatype RustField = RustField(name: string, ty: RustTy)

  /** An enum variant: its definition path and its field types. */
  datatype RustVariant = RustVariant(path: string, fields: seq<RustTy>)

  /** The Rust types the lowering distinguishes. `path` is the definition
      path with generic arguments, as rustc prints it; `sized` answers
      `is_sized`; `discr` is the enum's discriminant type. */
  datatype RustTy =
    | RTuple(elems: seq<RustTy>)
    | RStruct(path: string, fields: seq<RustField>)
    | RUnion(path: string, fields: seq<RustField>)
    | REnum(path: string, variants: seq<RustVariant>, discr: RustTy)
    | RClosure(upvars: RustTy)
    | RDynamic
    | RRef(pointee: RustTy, sized: bool)
    | RSlice(elem: RustTy)
    | RArray(elem: RustTy, len: nat)
    | RFnPtr(inputs: seq<RustTy>, output: RustTy)
    | RNever
    | RRawPtr(pointee: RustTy)
    | RBool
    | RChar
    | RStr
    | RUint(bits: Option<nat>)
    | RInt(bits: Option<nat>)
    | RFloat(fbits: nat)
    | ROther

  // Names

  /** The characters `composite_name` removes or replaces. */
  predicate Sanitized(s: string)
  {
    '<' !in s && '>' !in s && ',' !in s && ' ' !in s && '&' !in s && '!' !in s
  }

  /** `composite_name`: the definition path with `::` turned into `__` and
      `<`, `,`, ` `, `&`, `!` into `_`, and `>` dropped. */
  function CompositeName(path: string): (r: string)
    ensures Sanitized(r)
  {
    var s0 := ReplaceAll(path, "::", "__");
    var s1 := ReplaceChar(s0, '<', "_");
    var s2 := ReplaceChar(s1, '>', "");
    var s3 := ReplaceChar(s2, ',', "_");
    var s4 := ReplaceChar(s3, ' ', "_");
    var s5 := ReplaceChar(s4, '&', "_");
    var s6 := ReplaceChar(s5, '!', "_");
    SanitizeSteps(s0, s1, s2, s3, s4, s5, s6);
    s6
  }

  /** Each replacement removes its character and brings back none of those
      removed before it. */
  lemma SanitizeSteps(s0: string, s1: string, s2: string, s3: string, s4: string, s5: string, s6: string)
    requires s1 == ReplaceChar(s0, '<', "_") && s2 == ReplaceChar(s1, '>', "")
    requires s3 == ReplaceChar(s2, ',', "_") && s4 == ReplaceChar(s3, ' ', "_")
    requires s5 == ReplaceChar(s4, '&', "_") && s6 == ReplaceChar(s5, '!', "_")
    ensures Sanitized(s6)
  {
    ReplaceCharRemoves(s0, '<', "_");
    ReplaceCharKeepsOut(s1, '>', "", '<');
    ReplaceCharRemoves(s1, '>', "");
    ReplaceCharKeepsOut(s2, ',', "_", '<');
    ReplaceCharKeepsOut(s2, ',', "_", '>');
    ReplaceCharRemoves(s2, ',', "_");
    ReplaceCharKeepsOut(s3, ' ', "_", '<');
    ReplaceCharKeepsOut(s3, ' ', "_", '>');
    ReplaceCharKeepsOut(s3, ' ', "_", ',');
    ReplaceCharRemoves(s3, ' ', "_");
    ReplaceCharKeepsOut(s4, '&', "_", '<');
    ReplaceCharKeepsOut(s4, '&', "_", '>');
    ReplaceCharKeepsOut(s4, '&', "_", ',');
    ReplaceCharKeepsOut(s4, '&', "_", ' ');
    ReplaceCharRemoves(s4, '&', "_");
    ReplaceCharKeepsOut(s5, '!', "_", '<');
    ReplaceCharKeepsOut(s5, '!', "_", '>');
    ReplaceCharKeepsOut(s5, '!', "_", ',');
    ReplaceCharKeepsOut(s5, '!', "_", ' ');
    ReplaceCharKeepsOut(s5, '!', "_", '&');
    ReplaceCharRemoves(s5, '!', "_");
  }

  /** `wrapper_union_name`: the name of the union of an enum's variants. */
  function WrapperUnionName(path: string): string
  {
    "__WRAPPER_UNION_" + CompositeName(path)
  }

  /** The characters `wrapper_name` turns into `_`. */
  predicate WrapperChar(ch: char)
  {
    ch == ' ' || ch == '*' || ch == '[' || ch == ']'
  }

  /** `wrapper_name`: `__WRAPPER_` then the type's text with ` `, `*`, `[`
      and `]` each turned into `_`. */
  function WrapperName(t: CType): (r: string)
    ensures |r| == 10 + |DebugText(t)| && r[..10] == "__WRAPPER_"
    ensures forall i :: 0 <= i < |DebugText(t)| ==>
      r[10 + i] == (if WrapperChar(DebugText(t)[i]) then '_' else DebugText(t)[i])
  {
    var s := DebugText(t);
    "__WRAPPER_" + seq(|s|, i requires 0 <= i < |s| => if WrapperChar(s[i]) then '_' else s[i])
  }

  /** `tuple_name`: `__Unit` for no fields, otherwise `t_` and the fields'
      type texts with every `*` spelled `__PTR__`. */
  function TupleName(fields: seq<CType>): string
  {
    if |fields| == 0 then "__Unit"
    else ReplaceAll("t_" + Concat(seq(|fields|, i requires 0 <= i < |fields| => DebugText(fields[i]))), "*", "__PTR__")
  }

  /** The name of an array's wrapper struct has no declarator punctuation,
      so it is a valid C identifier when the element type's name is. */
  lemma WrapperNameClean(t: CType)
    ensures forall i :: 0 <= i < |WrapperName(t)| ==> !WrapperChar(WrapperName(t)[i])
  {
    var r := WrapperName(t);
    forall i | 0 <= i < |r|
      ensures !WrapperChar(r[i])
    {
      if i >= 10 {
        assert r[i] == r[10 + (i - 10)];
      } else {
        assert r[i] == "__WRAPPER_"[i];
      }
    }
  }

  /** `[i32; 3]` is wrapped in `__WRAPPER_int32_t_3_`. */
  lemma ArrayWrapperNameExample()
    ensures WrapperName(Array(Int(Int32), 3)) == "__WRAPPER_int32_t_3_"
  {
    ArrayDebugExample();
    var s := DebugText(Array(Int(Int32), 3));
    var w := WrapperName(Array(Int(Int32), 3));
    assert w[..10] == "__WRAPPER_";
    assert w[10..] == "int32_t_3_" by {
      forall i | 0 <= i < 10
        ensures w[10..][i] == "int32_t_3_"[i]
      {
        assert w[10..][i] == w[10 + i];
      }
    }
    assert w == w[..10] + w[10..];
  }

  // Lowering

  /** What the lowering reads and extends: the memo of lowered types and the
      context's composite list. */
  datatype MapState = MapState(memo: map<RustTy, CType>, structs: seq<CComposite>)

  /** `b` extends `a`: the composite list only grew, and every remembered
      type keeps its answer. */
  predicate Grows(a: MapState, b: MapState)
  {
    a.structs <= b.structs && forall k :: k in a.memo ==> k in b.memo && b.memo[k] == a.memo[k]
  }

  /** A composite type refers to a registered composite of its own kind and
      name; any other type refers to nothing. */
  predicate RefersTo(t: CType, structs: seq<CComposite>)
  {
    t.IsComposite() ==>
      t.info.ctxIdx < |structs| && KindMatches(t, structs[t.info.ctxIdx]) &&
      structs[t.info.ctxIdx].GetName() == t.info.name
  }

  /** Every remembered answer refers to a registered composite. */
  predicate MemoValid(st: MapState)
  {
    forall k :: k in st.memo ==> RefersTo(st.memo[k], st.structs)
  }

  /** A reference stays good as the composite list grows. */
  lemma RefersToGrows(t: CType, a: seq<CComposite>, b: seq<CComposite>)
    requires a <= b && RefersTo(t, a)
    ensures RefersTo(t, b)
  {
    if t.IsComposite() {
      assert b[t.info.ctxIdx] == b[..|a|][t.info.ctxIdx];
    }
  }

  /** A valid memo stays valid as the state grows, and a new answer that
      refers to a registered composite keeps it valid. */
  lemma MemoValidGrows(a: MapState, b: MapState)
    requires Grows(a, b) && MemoValid(a) && (forall k :: k in b.memo && k !in a.memo ==> RefersTo(b.memo[k], b.structs))
    ensures MemoValid(b)
  {
    forall k | k in b.memo
      ensures RefersTo(b.memo[k], b.structs)
    {
      if k in a.memo {
        RefersToGrows(a.memo[k], a.structs, b.structs);
      }
    }
  }

  /** References in a list stay good as the composite list grows. */
  lemma AllRefersToGrows(ts: seq<CType>, a: seq<CComposite>, b: seq<CComposite>)
    requires a <= b && forall i :: 0 <= i < |ts| ==> RefersTo(ts[i], a)
    ensures forall i :: 0 <= i < |ts| ==> RefersTo(ts[i], b)
  {
    forall i | 0 <= i < |ts|
      ensures RefersTo(ts[i], b)
    {
      RefersToGrows(ts[i], a, b);
    }
  }

  /** `add_composite` on the state: append and hand back name and index. */
  function Register(st: MapState, comp: CComposite): (r: (CCompositeInfo, MapState))
    ensures r.1 == st.(structs := st.structs + [comp])
    ensures r.0 == CCompositeInfo(comp.GetName(), |st.structs|)
  {
    (CCompositeInfo(comp.GetName(), |st.structs|), st.(structs := st.structs + [comp]))
  }

  /** The fields `field_0 .. field_{n-1}` of a tuple or variant struct. */
  function PositionalFields(tys: seq<CType>): (r: seq<CVarDef>)
    ensures |r| == |tys|
    ensures forall i :: 0 <= i < |tys| ==> r[i] == CVarDef(i, "field_" + NatToString(i), tys[i])
  {
    seq(|tys|, i requires 0 <= i < |tys| => CVarDef(i, "field_" + NatToString(i), tys[i]))
  }

  /** The fields of a struct (`field_<name>`) or a union (`<name>`). */
  function NamedFields(fs: seq<RustField>, tys: seq<CType>, prefix: string): (r: seq<CVarDef>)
    requires |fs| == |tys|
    ensures |r| == |fs|
    ensures forall i :: 0 <= i < |fs| ==> r[i] == CVarDef(i, prefix + fs[i].name, tys[i])
  {
    seq(|fs|, i requires 0 <= i < |fs| => CVarDef(i, prefix + fs[i].name, tys[i]))
  }

  /** `rust_to_c_type`: the remembered answer if there is one; otherwise the
      lowering, remembered. */
  function Lower(ty: RustTy, st: MapState): (r: Result<(CType, MapState)>)
    ensures ty in st.memo ==> r == Ok((st.memo[ty], st))
    ensures r.Ok? ==> Grows(st, r.value.1) && ty in r.value.1.memo && r.value.1.memo[ty] == r.value.0
    ensures r.Ok? && MemoValid(st) ==> MemoValid(r.value.1) && RefersTo(r.value.0, r.value.1.structs)
    decreases ty, 2
  {
    if ty in st.memo then Ok((st.memo[ty], st))
    else
      var (t, st1) :- LowerInternal(ty, st);
      Ok((t, st1.(memo := st1.memo[ty := t])))
  }

  /** Lowers types left to right, threading the state. */
  function LowerSeq(tys: seq<RustTy>, st: MapState): (r: Result<(seq<CType>, MapState)>)
    ensures r.Ok? ==> |r.value.0| == |tys| && Grows(st, r.value.1)
    ensures r.Ok? && MemoValid(st) ==>
      MemoValid(r.value.1) && forall i :: 0 <= i < |tys| ==> RefersTo(r.value.0[i], r.value.1.structs)
    decreases tys, 3
  {
    if |tys| == 0 then Ok(([], st))
    else
      var (init, st1) :- LowerSeq(tys[..|tys| - 1], st);
      var (t, st2) :- Lower(tys[|tys| - 1], st1);
      if MemoValid(st) then
        AllRefersToGrows(init, st1.structs, st2.structs);
        Ok((init + [t], st2))
      else Ok((init + [t], st2))
  }

  /** Lowers field types left to right, threading the state. */
  function LowerFields(fs: seq<RustField>, st: MapState): (r: Result<(seq<CType>, MapState)>)
    ensures r.Ok? ==> |r.value.0| == |fs| && Grows(st, r.value.1)
    ensures r.Ok? && MemoValid(st) ==> MemoValid(r.value.1)
    decreases fs, 3
  {
    if |fs| == 0 then Ok(([], st))
    else
      var (init, st1) :- LowerFields(fs[..|fs| - 1], st);
      var (t, st2) :- Lower(fs[|fs| - 1].ty, st1);
      Ok((init + [t], st2))
  }

  /** The struct registered for a variant: named after the variant's path,
      with one positional field `field_j` per variant field. */
  predicate VariantStruct(comp: CComposite, v: RustVariant)
  {
    comp.StructDef? && comp.def.name == CompositeName(v.path) && |comp.def.fields| == |v.fields| &&
    forall j :: 0 <= j < |v.fields| ==>
      comp.def.fields[j].localId == j && comp.def.fields[j].name == "field_" + NatToString(j)
  }

  /** Union member `i` for variant `v`: `variant_i`, typed by a struct
      registered at or after position `from` that is `v`'s variant struct. */
  predicate VariantMember(m: CVarDef, i: nat, v: RustVariant, from: nat, structs: seq<CComposite>)
  {
    m.localId == i && m.name == "variant_" + NatToString(i) && m.ty.Struct? &&
    m.ty.info.name == CompositeName(v.path) &&
    from <= m.ty.info.ctxIdx < |structs| && VariantStruct(structs[m.ty.info.ctxIdx], v)
  }

  /** Union members stay described by the composite list as it grows. */
  lemma VariantMembersGrow(ms: seq<CVarDef>, vs: seq<RustVariant>, from: nat, a: seq<CComposite>, b: seq<CComposite>)
    requires |ms| == |vs| && a <= b
    requires forall i :: 0 <= i < |vs| ==> VariantMember(ms[i], i, vs[i], from, a)
    ensures forall i :: 0 <= i < |vs| ==> VariantMember(ms[i], i, vs[i], from, b)
  {
    forall i | 0 <= i < |vs|
      ensures VariantMember(ms[i], i, vs[i], from, b)
    {
      assert b[ms[i].ty.info.ctxIdx] == a[ms[i].ty.info.ctxIdx];
    }
  }

  /** The inductive step of the variant layout: a member for the last
      variant, registered after the others, extends a good layout. */
  lemma AppendVariantMember(vs: seq<RustVariant>, members: seq<CVarDef>, from: nat,
                            a: seq<CComposite>, b: seq<CComposite>, m: CVarDef)
    requires |vs| > 0 && |members| == |vs| - 1 && a <= b && from <= |a|
    requires forall i :: 0 <= i < |members| ==> VariantMember(members[i], i, vs[..|members|][i], from, a)
    requires forall i, j :: 0 <= i < j < |members| && members[i].ty.Struct? && members[j].ty.Struct? ==>
      members[i].ty.info.ctxIdx < members[j].ty.info.ctxIdx
    requires VariantMember(m, |members|, vs[|members|], |a|, b)
    ensures forall i :: 0 <= i < |vs| ==> VariantMember((members + [m])[i], i, vs[i], from, b)
    ensures forall i, j :: 0 <= i < j < |vs| && (members + [m])[i].ty.Struct? && (members + [m])[j].ty.Struct? ==>
      (members + [m])[i].ty.info.ctxIdx < (members + [m])[j].ty.info.ctxIdx
  {
    VariantMembersGrow(members, vs[..|members|], from, a, b);
    var ms := members + [m];
    forall i | 0 <= i < |vs|
      ensures VariantMember(ms[i], i, vs[i], from, b)
    {
      if i < |members| {
        assert ms[i] == members[i] && vs[..|members|][i] == vs[i];
      }
    }
  }

  /** One struct per variant, registered in order; the result is the list
      of union members `variant_i`, each typed by its variant's struct. */
  function LowerVariants(vs: seq<RustVariant>, st: MapState): (r: Result<(seq<CVarDef>, MapState)>)
    ensures r.Ok? ==> |r.value.0| == |vs| && Grows(st, r.value.1)
    ensures r.Ok? && MemoValid(st) ==> MemoValid(r.value.1)
    ensures r.Ok? ==> forall i :: 0 <= i < |vs| ==> VariantMember(r.value.0[i], i, vs[i], |st.structs|, r.value.1.structs)
    ensures r.Ok? ==> forall i, j :: 0 <= i < j < |vs| && r.value.0[i].ty.Struct? && r.value.0[j].ty.Struct? ==>
      r.value.0[i].ty.info.ctxIdx < r.value.0[j].ty.info.ctxIdx
    decreases vs, 3
  {
    if |vs| == 0 then Ok(([], st))
    else
      var k := |vs| - 1;
      var (members, st1) :- LowerVariants(vs[..k], st);
      var (tys, st2) :- LowerSeq(vs[k].fields, st1);
      var (info, st3) := Register(st2, StructDef(CStructDef(CompositeName(vs[k].path), PositionalFields(tys))));
      var m := CVarDef(k, "variant_" + NatToString(k), Struct(info));
      assert VariantMember(m, k, vs[k], |st1.structs|, st3.structs);
      AppendVariantMember(vs, members, |st.structs|, st1.structs, st3.structs, m);
      Ok((members + [m], st3))
  }

  /** `From<&Ty>`: the primitive types, with `isize`/`usize` taking the
      default width; a width with no C type aborts, and any other type is
      `void`. */
  function FromTy(ty: RustTy): (r: Result<CType>)
    ensures ty.RBool? ==> r == Ok(Bool)
    ensures ty.RChar? ==> r == Ok(Char)
    ensures ty.RStr? ==> r == Ok(Array(Char, 0))
    ensures ty.RInt? ==> (r.Ok? <==> (if ty.bits.Some? then ty.bits.value else DEFAULT_BIT_WIDTH) in {8, 16, 32, 64, 128})
    ensures ty.RUint? ==> (r.Ok? <==> (if ty.bits.Some? then ty.bits.value else DEFAULT_BIT_WIDTH) in {8, 16, 32, 64, 128})
    ensures ty.RFloat? ==> (r.Ok? <==> ty.fbits in {16, 32, 64, 128})
    ensures r.Ok? && ty.RInt? ==> r.value.Int? && r.value.i.BitWidth() == (if ty.bits.Some? then ty.bits.value else DEFAULT_BIT_WIDTH)
    ensures r.Ok? && ty.RUint? ==> r.value.UInt? && r.value.u.BitWidth() == (if ty.bits.Some? then ty.bits.value else DEFAULT_BIT_WIDTH)
  {
    match ty
    case RBool => Ok(Bool)
    case RChar => Ok(Char)
    case RStr => Ok(Array(Char, 0))
    case RUint(bits) =>
      var u :- CUIntTyFrom(if bits.Some? then bits.value else DEFAULT_BIT_WIDTH);
      Ok(UInt(u))
    case RInt(bits) =>
      var i :- CIntTyFrom(if bits.Some? then bits.value else DEFAULT_BIT_WIDTH);
      Ok(Int(i))
    case RFloat(bits) =>
      var f :- CFloatTyFrom(bits);
      Ok(Float(f))
    case _ => Ok(Void)
  }

  /** `fn_pointer_type_internal` with erasure: a pointer or fat pointer
      argument becomes `void*`. */
  function ErasePtr(t: CType): (r: CType)
    ensures t.Pointer? || t.FatPointer? ==> r == Pointer(Void)
    ensures !(t.Pointer? || t.FatPointer?) ==> r == t
  {
    match t
    case Pointer(_) => Pointer(Void)
    case FatPointer => Pointer(Void)
    case _ => t
  }

  /** `fn_pointer_type_internal`: arguments then return type, with the
      arguments erased when asked. */
  function FnPointerType(sig: RustTy, erase: bool, st: MapState): (r: Result<(CType, MapState)>)
    requires sig.RFnPtr?
    ensures r.Ok? ==> Grows(st, r.value.1) && r.value.0.FunctionPtr?
    ensures r.Ok? && MemoValid(st) ==> MemoValid(r.value.1)
    decreases sig, 0
  {
    var (args, st1) :- LowerSeq(sig.inputs, st);
    var (ret, st2) :- Lower(sig.output, st1);
    var args' := if erase then seq(|args|, i requires 0 <= i < |args| => ErasePtr(args[i])) else args;
    Ok((FunctionPtr(CFuncPtrInfo(args', ret)), st2))
  }

  /** A tuple: one element stands for itself; otherwise a struct
      `t_...` with fields `field_i` is registered. */
  function LowerTuple(ty: RustTy, st: MapState): (r: Result<(CType, MapState)>)
    requires ty.RTuple?
    ensures r.Ok? ==> Grows(st, r.value.1)
    ensures r.Ok? && MemoValid(st) ==> MemoValid(r.value.1) && RefersTo(r.value.0, r.value.1.structs)
    decreases ty, 0
  {
    var (tys, st1) :- LowerSeq(ty.elems, st);
    if |tys| == 1 then Ok((tys[0], st1))
    else
      var (info, st2) := Register(st1, StructDef(CStructDef(TupleName(tys), PositionalFields(tys))));
      if MemoValid(st1) then
        MemoValidGrows(st1, st2);
        Ok((Struct(info), st2))
      else Ok((Struct(info), st2))
  }

  /** A struct (fields `field_<name>`) or a union (fields `<name>`),
      registered under its composite name. */
  function LowerAdt(ty: RustTy, st: MapState): (r: Result<(CType, MapState)>)
    requires ty.RStruct? || ty.RUnion?
    ensures r.Ok? ==> Grows(st, r.value.1)
    ensures r.Ok? && MemoValid(st) ==> MemoValid(r.value.1) && RefersTo(r.value.0, r.value.1.structs)
    decreases ty, 0
  {
    var (tys, st1) :- LowerFields(ty.fields, st);
    var def := CStructDef(CompositeName(ty.path), NamedFields(ty.fields, tys, if ty.RStruct? then "field_" else ""));
    var (info, st2) := Register(st1, if ty.RStruct? then StructDef(def) else UnionDef(def));
    if MemoValid(st1) then
      MemoValidGrows(st1, st2);
      Ok((if ty.RStruct? then Struct(info) else Union(info), st2))
    else Ok((if ty.RStruct? then Struct(info) else Union(info), st2))
  }

  /** An enum: its variant structs, then the union `__WRAPPER_UNION_...` of
      them, then its discriminant type, then the tagged union. */
  function LowerEnum(ty: RustTy, st: MapState): (r: Result<(CType, MapState)>)
    requires ty.REnum?
    ensures r.Ok? ==> Grows(st, r.value.1)
    ensures r.Ok? && MemoValid(st) ==> MemoValid(r.value.1) && RefersTo(r.value.0, r.value.1.structs)
    decreases ty, 0
  {
    var (members, st1) :- LowerVariants(ty.variants, st);
    var (unionInfo, st2) := Register(st1, UnionDef(CStructDef(WrapperUnionName(ty.path), members)));
    var (discrTy, st3) :- Lower(ty.discr, st2);
    var (info, st4) := Register(st3, TaggedUnionDef(NewTaggedUnion(CompositeName(ty.path), discrTy, Union(unionInfo))));
    if MemoValid(st1) then
      MemoValidGrows(st1, st2);
      MemoValidGrows(st3, st4);
      Ok((TaggedUnion(info), st4))
    else Ok((TaggedUnion(info), st4))
  }

  /** An array: its element type, then the wrapper struct holding the C
      array as its single field `wrapee`. */
  function LowerArray(ty: RustTy, st: MapState): (r: Result<(CType, MapState)>)
    requires ty.RArray?
    ensures r.Ok? ==> Grows(st, r.value.1)
    ensures r.Ok? && MemoValid(st) ==> MemoValid(r.value.1) && RefersTo(r.value.0, r.value.1.structs)
    decreases ty, 0
  {
    var (t, st1) :- Lower(ty.elem, st);
    var arr := Array(t, ty.len);
    var (info, st2) := Register(st1, StructDef(CStructDef(WrapperName(arr), [CVarDef(0, WRAPPER_FIELD_NAME, arr)])));
    if MemoValid(st1) then
      MemoValidGrows(st1, st2);
      Ok((Struct(info), st2))
    else Ok((Struct(info), st2))
  }

  /** `rust_to_c_type_internal`: the lowering rules, case by case. */
  function LowerInternal(ty: RustTy, st: MapState): (r: Result<(CType, MapState)>)
    ensures r.Ok? ==> Grows(st, r.value.1)
    ensures r.Ok? && MemoValid(st) ==> MemoValid(r.value.1) && RefersTo(r.value.0, r.value.1.structs)
    decreases ty, 1
  {
    match ty
    case RTuple(_) => LowerTuple(ty, st)
    case RStruct(_, _) => LowerAdt(ty, st)
    case RUnion(_, _) => LowerAdt(ty, st)
    case REnum(_, _, _) => LowerEnum(ty, st)
    case RClosure(upvars) => Lower(upvars, st)
    case RDynamic => Ok((FatPointer, st))
    case RRef(pointee, sized) =>
      if sized then
        var (t, st1) :- Lower(pointee, st);
        Ok((Pointer(t), st1))
      else Ok((FatPointer, st))
    case RSlice(_) => Ok((FatPointer, st))
    case RArray(_, _) => LowerArray(ty, st)
    case RFnPtr(_, _) => FnPointerType(ty, false, st)
    case RNever => Ok((Unit, st))
    case RRawPtr(pointee) =>
      var (t, st1) :- Lower(pointee, st);
      Ok((Pointer(t), st1))
    case _ =>
      var t :- FromTy(ty);
      Ok((t, st))
  }
}

module TypeMapperProps {
  import opened Wrappers
  import opened Strings
  import opened Ty
  import opened Definition
  import opened Composite
  import opened TypeMapper

  /** Memoisation: lowering a type again, in the state the first lowering
      left, gives the same C type and registers nothing. */
  lemma LowerCached(ty: RustTy, st: MapState)
    requires Lower(ty, st).Ok?
    ensures var (t, st1) := Lower(ty, st).value; Lower(ty, st1) == Ok((t, st1))
  {
  }

  /** A one-element tuple is its element's type: it registers nothing
      beyond what lowering the element registers. */
  lemma {:induction false} SingleTupleIsElement(e: RustTy, st: MapState)
    requires RTuple([e]) !in st.memo
    ensures Lower(RTuple([e]), st).Ok? <==> Lower(e, st).Ok?
    ensures Lower(RTuple([e]), st).Ok? ==>
      Lower(RTuple([e]), st).value.0 == Lower(e, st).value.0 &&
      Lower(RTuple([e]), st).value.1.structs == Lower(e, st).value.1.structs
  {
    var ty := RTuple([e]);
    assert [e][..|[e]| - 1] == [] && [e][|[e]| - 1] == e;
    assert LowerSeq([], st) == Ok(([], st));
    var le := Lower(e, st);
    if le.Ok? {
      assert LowerSeq([e], st) == Ok(([] + [le.value.0], le.value.1));
      assert [] + [le.value.0] == [le.value.0];
      assert LowerTuple(ty, st) == Ok((le.value.0, le.value.1));
    } else {
      assert LowerSeq([e], st).Panic?;
    }
    assert LowerInternal(ty, st) == LowerTuple(ty, st);
  }

  /** Any other tuple registers exactly one struct after its elements: named
      by `tuple_name`, with fields `field_i` of the element types in order,
      and the result refers to it. */
  lemma TupleRegistersOneStruct(elems: seq<RustTy>, st: MapState)
    requires |elems| != 1 && RTuple(elems) !in st.memo
    requires Lower(RTuple(elems), st).Ok?
    ensures LowerSeq(elems, st).Ok?
    ensures var (t, st2) := Lower(RTuple(elems), st).value;
      var (tys, st1) := LowerSeq(elems, st).value;
      |st2.structs| == |st1.structs| + 1 && st1.structs <= st2.structs &&
      t == Struct(CCompositeInfo(TupleName(tys), |st1.structs|)) &&
      st2.structs[|st1.structs|].StructDef? &&
      var fields := st2.structs[|st1.structs|].def.fields;
      |fields| == |elems| &&
      forall i :: 0 <= i < |elems| ==> fields[i].name == "field_" + NatToString(i) && fields[i].ty == tys[i]
  {
    var ty := RTuple(elems);
    assert LowerInternal(ty, st) == LowerTuple(ty, st);
    assert LowerSeq(elems, st).Ok?;
    var (tys, st1) := LowerSeq(elems, st).value;
    var comp := StructDef(CStructDef(TupleName(tys), PositionalFields(tys)));
    assert LowerTuple(ty, st) == Ok((Struct(CCompositeInfo(TupleName(tys), |st1.structs|)), st1.(structs := st1.structs + [comp])));
  }

  /** An enum registers, in order: one struct per variant, the union
      `__WRAPPER_UNION_...` whose members `variant_i` are typed by those
      structs, and last the tagged union named after the enum, whose tag has
      the discriminant's lowered type and whose union member is that union.
      The result refers to the tagged union. */
  lemma EnumLayout(ty: RustTy, st: MapState)
    requires ty.REnum? && ty !in st.memo && Lower(ty, st).Ok?
    ensures var (t, st4) := Lower(ty, st).value;
      t.TaggedUnion? && |st4.structs| > 0 && t.info == CCompositeInfo(CompositeName(ty.path), |st4.structs| - 1) &&
      st4.structs[t.info.ctxIdx].TaggedUnionDef? &&
      var tu := st4.structs[t.info.ctxIdx].tdef;
      tu.tag.name == TAG_NAME && ty.discr in st4.memo && tu.tag.ty == st4.memo[ty.discr] &&
      tu.unionVar.name == UNION_NAME && tu.unionVar.ty.Union? &&
      var u := tu.unionVar.ty.info;
      |st.structs| <= u.ctxIdx < t.info.ctxIdx && st4.structs[u.ctxIdx].UnionDef? &&
      st4.structs[u.ctxIdx].def.name == WrapperUnionName(ty.path) == u.name &&
      var members := st4.structs[u.ctxIdx].def.fields;
      |members| == |ty.variants| &&
      forall i :: 0 <= i < |members| ==>
        VariantMember(members[i], i, ty.variants[i], |st.structs|, st4.structs) && members[i].ty.info.ctxIdx < u.ctxIdx
  {
    assert LowerInternal(ty, st) == LowerEnum(ty, st);
    var (members, st1) := LowerVariants(ty.variants, st).value;
    var (unionInfo, st2) := Register(st1, UnionDef(CStructDef(WrapperUnionName(ty.path), members)));
    var (discrTy, st3) := Lower(ty.discr, st2).value;
    var (info, st4) := Register(st3, TaggedUnionDef(NewTaggedUnion(CompositeName(ty.path), discrTy, Union(unionInfo))));
    assert LowerEnum(ty, st) == Ok((TaggedUnion(info), st4));
    VariantMembersGrow(members, ty.variants, |st.structs|, st1.structs, st4.structs);
    assert st4.structs[unionInfo.ctxIdx] == st2.structs[unionInfo.ctxIdx];
    assert ty.discr != ty;
  }

  /** An array is boxed: after its element type, one struct is registered
      whose single field `wrapee` is the C array of the lowered element
      type and the array's length, named by `wrapper_name`. */
  lemma ArrayWrapped(ty: RustTy, st: MapState)
    requires ty.RArray? && ty !in st.memo && Lower(ty, st).Ok?
    ensures Lower(ty.elem, st).Ok?
    ensures var (t, st2) := Lower(ty.elem, st).value;
      var arr := Array(t, ty.len);
      var (r, st3) := Lower(ty, st).value;
      r == Struct(CCompositeInfo(WrapperName(arr), |st2.structs|)) &&
      st3.structs == st2.structs + [StructDef(CStructDef(WrapperName(arr), [CVarDef(0, WRAPPER_FIELD_NAME, arr)]))]
  {
    assert LowerInternal(ty, st) == LowerArray(ty, st);
  }

  /** A reference to an unsized type, a slice and a trait object are fat
      pointers, and nothing is registered or lowered for their pointee. */
  lemma UnsizedIsFatPointer(ty: RustTy, st: MapState)
    requires ty !in st.memo
    requires (ty.RRef? && !ty.sized) || ty.RSlice? || ty.RDynamic?
    ensures Lower(ty, st) == Ok((FatPointer, st.(memo := st.memo[ty := FatPointer])))
  {
  }

  /** The erased signature of a function pointer differs from the plain one
      only in its arguments, each pointer or fat pointer becoming `void*`;
      both lower the same types into the same state. */
  lemma ErasedSignature(sig: RustTy, st: MapState)
    requires sig.RFnPtr?
    ensures FnPointerType(sig, true, st).Ok? <==> FnPointerType(sig, false, st).Ok?
    ensures FnPointerType(sig, true, st).Ok? ==>
      var (e, st1) := FnPointerType(sig, true, st).value;
      var (p, st2) := FnPointerType(sig, false, st).value;
      st1 == st2 && e.fp.ret == p.fp.ret && |e.fp.args| == |p.fp.args| == |sig.inputs| &&
      forall i :: 0 <= i < |e.fp.args| ==> e.fp.args[i] == ErasePtr(p.fp.args[i])
  {
  }

  /** From an empty memo, every lowering answer refers to a registered
      composite of its own kind and name, and so does every remembered one. */
  lemma LowerFromEmptyIsValid(ty: RustTy, structs: seq<CComposite>)
    requires Lower(ty, MapState(map[], structs)).Ok?
    ensures var (t, st1) := Lower(ty, MapState(map[], structs)).value;
      RefersTo(t, st1.structs) && forall k :: k in st1.memo ==> RefersTo(st1.memo[k], st1.structs)
  {
    assert MemoValid(MapState(map[], structs));
  }

  /** `(i32, i32)` is named `t_int32_tint32_t`, and `()` is `__Unit`. */
  lemma TupleNameExamples()
    ensures TupleName([Int(Int32), Int(Int32)]) == "t_int32_tint32_t"
    ensures TupleName([]) == "__Unit"
  {
    var fields := [Int(Int32), Int(Int32)];
    var texts := seq(|fields|, i requires 0 <= i < |fields| => DebugText(fields[i]));
    assert DebugText(Int(Int32)) == "int32_t";
    assert texts == ["int32_t", "int32_t"];
    assert Concat(texts) == "int32_tint32_t" by {
      assert texts[..1] == ["int32_t"];
      assert ["int32_t"][..0] == [];
    }
    assert "t_" + Concat(texts) == "t_int32_tint32_t";
    ReplaceAllAbsent("t_int32_tint32_t", "*", "__PTR__");
    assert TupleName(fields) == ReplaceAll("t_" + Concat(texts), "*", "__PTR__");
  }
}
