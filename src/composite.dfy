/** The composite definitions the type mapper registers: plain structs and
    unions (`CStructDef`) and tagged unions (`CTaggedUnionDef`), plus the
    fat-pointer struct of fatptr.rs. The defining file of these types is not
    part of this model; their shape is the one base.rs, ty.rs, stmt.rs and
    aggregate.rs use. */
module Composite {
  import opened Wrappers
  import opened Ty
  import opened FatPtr
  import opened Definition
  import opened Expr

  /** A struct or union: its C name and its fields in declaration order. */
  datatype CStructDef = CStructDef(name: string, fields: seq<CVarDef>)

  /** The member names of a tagged union: the discriminant and the wrapper
      union of variants. */
  const TAG_NAME: string := "tag"
  const UNION_NAME: string := "union_var"

  /** A tagged union: a discriminant field and a field holding the union of
      variant structs. */
  datatype CTaggedUnionDef = CTaggedUnionDef(name: string, tag: CVarDef, unionVar: CVarDef)

  /** `CTaggedUnionDef::new(name, discr, union)`. */
  function NewTaggedUnion(name: string, discr: CType, unionTy: CType): (r: CTaggedUnionDef)
    ensures r.name == name
    ensures r.tag.name == TAG_NAME && r.tag.ty == discr
    ensures r.unionVar.name == UNION_NAME && r.unionVar.ty == unionTy
    ensures r.tag.localId != r.unionVar.localId
  {
    CTaggedUnionDef(name, CVarDef(0, TAG_NAME, discr), CVarDef(1, UNION_NAME, unionTy))
  }

  /** `CComposite`: what the context's composite list holds. */
  datatype CComposite =
    | StructDef(def: CStructDef)
    | UnionDef(def: CStructDef)
    | TaggedUnionDef(tdef: CTaggedUnionDef)
  {
    /** `get_name`. */
    function GetName(): string
    {
      match this
      case StructDef(d) => d.name
      case UnionDef(d) => d.name
      case TaggedUnionDef(t) => t.name
    }

    /** `as_struct_def`: the definition of a struct or union; a tagged union
        aborts. */
    function AsStructDef(): (r: Result<CStructDef>)
      ensures r.Ok? <==> !TaggedUnionDef?
      ensures r.Ok? ==> r.value == def && r.value.name == GetName()
    {
      if TaggedUnionDef? then Panic("Not a struct") else Ok(def)
    }

    /** `as_tagged_union_def`: the definition of a tagged union; anything
        else aborts. */
    function AsTaggedUnionDef(): (r: Result<CTaggedUnionDef>)
      ensures r.Ok? <==> TaggedUnionDef?
      ensures r.Ok? ==> r.value == tdef && r.value.name == GetName()
    {
      if TaggedUnionDef? then Ok(tdef) else Panic("Not a tagged union")
    }
  }

  /** The composite kind that a `CType` naming a composite refers to. */
  predicate KindMatches(t: CType, comp: CComposite)
  {
    (t.Struct? && comp.StructDef?) || (t.Union? && comp.UnionDef?) ||
    (t.TaggedUnion? && comp.TaggedUnionDef?)
  }

  /** `new_fat_ptr`: a struct named `codegenc_fat_ptr` whose fields are
      `data` (id 0) and `meta` (id 1), both `void*`. */
  function NewFatPtr(): (r: CComposite)
    ensures r.StructDef? && r.GetName() == FAT_PTR_NAME
    ensures |r.def.fields| == 2
    ensures r.def.fields[0] == CVarDef(0, FAT_PTR_DATA_FIELD, Pointer(Void))
    ensures r.def.fields[1] == CVarDef(1, FAT_PTR_META_FIELD, Pointer(Void))
  {
    StructDef(CStructDef(FAT_PTR_NAME, [
      CVarDef(0, FAT_PTR_DATA_FIELD, Pointer(Void)),
      CVarDef(1, FAT_PTR_META_FIELD, Pointer(Void))]))
  }

  /** A fat-pointer literal built by `fatptr(d, m)` names the fat-pointer
      struct and lists one value per field, in field order: position `i`
      initialises the field with id `i`, so `d` lands in `data` and `m` in
      `meta`. */
  lemma FatPtrLiteralMatchesLayout(d: Expression, m: Expression)
    ensures var lit := FatPtrLit(d, m);
      var fs := NewFatPtr().def.fields;
      lit.name == Constant(NewFatPtr().GetName()) && |lit.fields| == |fs| &&
      (forall i :: 0 <= i < |fs| ==> fs[i].localId == i) &&
      lit.fields[0] == d && fs[0].name == FAT_PTR_DATA_FIELD &&
      lit.fields[1] == m && fs[1].name == FAT_PTR_META_FIELD
  {
  }
}
