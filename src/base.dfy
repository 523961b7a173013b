/** base.rs: the code-generation `Context`, the lists every lowering step
    appends to. The composites list is an append-only registry: adding a
    composite hands back its index, and lookups by index abort on an index
    that was never handed out. */
module Base {
  import opened Wrappers
  import opened Ty
  import opened Definition
  import opened Composite
  import opened Include
  import opened Header

  /** `header::CDefine`: a `#define` line. Only its name is looked at. */
  datatype CDefine = CDefine(name: string)

  /** The composite registered at `info`'s index (`get_composite`); an index
      past the end aborts. */
  function CompositeAt(structs: seq<CComposite>, info: CCompositeInfo): (r: Result<CComposite>)
    ensures r.Ok? <==> info.ctxIdx < |structs|
    ensures r.Ok? ==> r.value == structs[info.ctxIdx]
  {
    if |structs| <= info.ctxIdx then Panic("Struct with index not found")
    else Ok(structs[info.ctxIdx])
  }

  /** `get_struct_def`: the definition of a registered struct or union,
      `None` for a tagged union; an index past the end aborts. */
  function StructDefAt(structs: seq<CComposite>, info: CCompositeInfo): (r: Result<Option<CStructDef>>)
    ensures r.Panic? <==> |structs| <= info.ctxIdx
    ensures r.Ok? ==> (r.value.None? <==> structs[info.ctxIdx].TaggedUnionDef?)
    ensures r.Ok? && r.value.Some? ==>
      structs[info.ctxIdx] in {StructDef(r.value.value), UnionDef(r.value.value)}
  {
    var comp :- CompositeAt(structs, info);
    match comp
    case StructDef(s) => Ok(Some(s))
    case UnionDef(s) => Ok(Some(s))
    case TaggedUnionDef(_) => Ok(None)
  }

  /** `get_field_name_for_struct`: the name of field `idx` of a registered
      struct or union. An index past the registry, or a tagged union, gives
      `None`; a field index past the struct's fields aborts, as the vector
      indexing does. */
  function FieldNameAt(structs: seq<CComposite>, info: CCompositeInfo, idx: nat): (r: Result<Option<string>>)
    ensures r == Ok(None) <==> |structs| <= info.ctxIdx || structs[info.ctxIdx].TaggedUnionDef?
    ensures r.Panic? <==>
      info.ctxIdx < |structs| && !structs[info.ctxIdx].TaggedUnionDef? && |structs[info.ctxIdx].def.fields| <= idx
  {
    if |structs| <= info.ctxIdx then Ok(None)
    else
      match structs[info.ctxIdx]
      case TaggedUnionDef(_) => Ok(None)
      case _ =>
        var s := structs[info.ctxIdx].def;
        if |s.fields| <= idx then Panic("index out of bounds") else Ok(Some(s.fields[idx].name))
  }

  /** Whether some header function has the name. */
  predicate HasHeaderFn(fns: seq<HeaderFn>, name: string)
  {
    exists i :: 0 <= i < |fns| && fns[i].name == name
  }

  /** Whether some define has the name. */
  predicate HasDefine(defines: seq<CDefine>, name: string)
  {
    exists i :: 0 <= i < |defines| && defines[i].name == name
  }

  /** `Context`: the six lists the generated files are written from. A C
      function is held as its value (name, return type, signature, locals
      and body). */
  class Context {
    var includes: seq<Include>
    var headerIncludes: seq<Include>
    var defines: seq<CDefine>
    var functions: seq<HeaderFn>
    var headerFunctions: seq<HeaderFn>
    var structs: seq<CComposite>

    /** `Context::new`: every list empty. */
    constructor()
      ensures includes == [] && headerIncludes == [] && defines == []
      ensures functions == [] && headerFunctions == [] && structs == []
    {
      includes := [];
      headerIncludes := [];
      defines := [];
      functions := [];
      headerFunctions := [];
      structs := [];
    }

    /** `exists_header_fn_with_name`: a scan with early return. */
    method ExistsHeaderFnWithName(name: string) returns (found: bool)
      ensures found <==> HasHeaderFn(headerFunctions, name)
    {
      var i := 0;
      while i < |headerFunctions|
        invariant 0 <= i <= |headerFunctions|
        invariant forall j :: 0 <= j < i ==> headerFunctions[j].name != name
      {
        if headerFunctions[i].name == name {
          return true;
        }
        i := i + 1;
      }
      return false;
    }

    /** `has_define_with_name`: a scan with early return. */
    method HasDefineWithName(name: string) returns (found: bool)
      ensures found <==> HasDefine(defines, name)
    {
      var i := 0;
      while i < |defines|
        invariant 0 <= i <= |defines|
        invariant forall j :: 0 <= j < i ==> defines[j].name != name
      {
        if defines[i].name == name {
          return true;
        }
        i := i + 1;
      }
      return false;
    }

    /** `add_composite`: appends the composite, with no deduplication, and
        returns its name and the index it now sits at. Nothing else changes. */
    method AddComposite(comp: CComposite) returns (info: CCompositeInfo)
      modifies this
      ensures structs == old(structs) + [comp]
      ensures info == CCompositeInfo(comp.GetName(), |old(structs)|)
      ensures CompositeAt(structs, info) == Ok(comp)
      ensures includes == old(includes) && headerIncludes == old(headerIncludes) && defines == old(defines)
      ensures functions == old(functions) && headerFunctions == old(headerFunctions)
    {
      structs := structs + [comp];
      info := CCompositeInfo(comp.GetName(), |structs| - 1);
    }

    /** Appends a helper to the header functions; nothing else changes. */
    method PushHeaderFn(f: HeaderFn)
      modifies this
      ensures headerFunctions == old(headerFunctions) + [f]
      ensures includes == old(includes) && headerIncludes == old(headerIncludes) && defines == old(defines)
      ensures functions == old(functions) && structs == old(structs)
    {
      headerFunctions := headerFunctions + [f];
    }
  }

  /** A composite looked up at the index `add_composite` returned is the one
      added. */
  lemma CompositeAtAfterAdd(structs: seq<CComposite>, comp: CComposite)
    ensures CompositeAt(structs + [comp], CCompositeInfo(comp.GetName(), |structs|)) == Ok(comp)
  {
  }

  /** Adding a composite leaves every earlier lookup unchanged: the
      registry is append-only. */
  lemma AddPreservesEarlier(structs: seq<CComposite>, comp: CComposite, info: CCompositeInfo)
    requires info.ctxIdx < |structs|
    ensures CompositeAt(structs + [comp], info) == CompositeAt(structs, info)
    ensures StructDefAt(structs + [comp], info) == StructDefAt(structs, info)
  {
  }

  /** Adding the same composite twice registers it twice, at two distinct
      indices that both look it up. */
  lemma NoDeduplication(structs: seq<CComposite>, comp: CComposite)
    ensures CompositeAt(structs + [comp] + [comp], CCompositeInfo(comp.GetName(), |structs|)) == Ok(comp)
    ensures CompositeAt(structs + [comp] + [comp], CCompositeInfo(comp.GetName(), |structs| + 1)) == Ok(comp)
    ensures |structs + [comp] + [comp]| == |structs| + 2
  {
  }

  /** Field names agree with the struct definition: where both succeed on a
      struct or union, the field name is that of the definition's field. */
  lemma FieldNameMatchesStructDef(structs: seq<CComposite>, info: CCompositeInfo, idx: nat)
    requires StructDefAt(structs, info).Ok? && StructDefAt(structs, info).value.Some?
    requires idx < |StructDefAt(structs, info).value.value.fields|
    ensures FieldNameAt(structs, info, idx) == Ok(Some(StructDefAt(structs, info).value.value.fields[idx].name))
  {
  }
}
