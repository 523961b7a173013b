/** ty.rs, the C side: the `CType` lowering target, the integer and float
    width enums, and the rendering of a `CType` as a C declarator. */
module Ty {
  import opened Wrappers
  import opened Strings
  import opened CRepr
  import opened FatPtr

  datatype CIntTy = Int8 | Int16 | Int32 | Int64 | Int128 {
    function NameStr(): string
    {
      match this
      case Int8 => "int8_t"
      case Int16 => "int16_t"
      case Int32 => "int32_t"
      case Int64 => "int64_t"
      case Int128 => "__int128_t"
    }

    function BitWidth(): nat
    {
      match this
      case Int8 => 8
      case Int16 => 16
      case Int32 => 32
      case Int64 => 64
      case Int128 => 128
    }
  }

  /** `DEFAULT_BIT_WIDTH`, used for `isize` and `usize`. */
  const DEFAULT_BIT_WIDTH: nat := 64

  /** `CIntTy::from(bits)`: only the five C widths are accepted. */
  function CIntTyFrom(bits: nat): (r: Result<CIntTy>)
    ensures r.Ok? <==> bits in {8, 16, 32, 64, 128}
    ensures r.Ok? ==> r.value.BitWidth() == bits
  {
    if bits == 8 then Ok(Int8)
    else if bits == 16 then Ok(Int16)
    else if bits == 32 then Ok(Int32)
    else if bits == 64 then Ok(Int64)
    else if bits == 128 then Ok(Int128)
    else Panic("Unsupported int type size")
  }

  /** Reading a width back gives the same integer type. */
  lemma CIntTyRoundTrip(t: CIntTy)
    ensures CIntTyFrom(t.BitWidth()) == Ok(t)
  {
  }

  datatype CUIntTy = UInt8 | UInt16 | UInt32 | UInt64 | UInt128 {
    function NameStr(): string
    {
      match this
      case UInt8 => "uint8_t"
      case UInt16 => "uint16_t"
      case UInt32 => "uint32_t"
      case UInt64 => "uint64_t"
      case UInt128 => "__uint128_t"
    }

    function BitWidth(): nat
    {
      match this
      case UInt8 => 8
      case UInt16 => 16
      case UInt32 => 32
      case UInt64 => 64
      case UInt128 => 128
    }
  }

  /** `CUIntTy::from(bits)`. */
  function CUIntTyFrom(bits: nat): (r: Result<CUIntTy>)
    ensures r.Ok? <==> bits in {8, 16, 32, 64, 128}
    ensures r.Ok? ==> r.value.BitWidth() == bits
  {
    if bits == 8 then Ok(UInt8)
    else if bits == 16 then Ok(UInt16)
    else if bits == 32 then Ok(UInt32)
    else if bits == 64 then Ok(UInt64)
    else if bits == 128 then Ok(UInt128)
    else Panic("Unsupported uint type size")
  }

  lemma CUIntTyRoundTrip(t: CUIntTy)
    ensures CUIntTyFrom(t.BitWidth()) == Ok(t)
  {
  }

  datatype CFloatTy = Float16 | Float32 | Float64 | Float128 {
    function NameStr(): string
    {
      match this
      case Float16 => "float"
      case Float32 => "float"
      case Float64 => "double"
      case Float128 => "__float128"
    }

    function BitWidth(): nat
    {
      match this
      case Float16 => 16
      case Float32 => 32
      case Float64 => 64
      case Float128 => 128
    }
  }

  /** `CFloatTy::from(bits)`. */
  function CFloatTyFrom(bits: nat): (r: Result<CFloatTy>)
    ensures r.Ok? <==> bits in {16, 32, 64, 128}
    ensures r.Ok? ==> r.value.BitWidth() == bits
  {
    if bits == 16 then Ok(Float16)
    else if bits == 32 then Ok(Float32)
    else if bits == 64 then Ok(Float64)
    else if bits == 128 then Ok(Float128)
    else Panic("Unsupported float type size")
  }

  lemma CFloatTyRoundTrip(t: CFloatTy)
    ensures CFloatTyFrom(t.BitWidth()) == Ok(t)
  {
  }

  /** Two float widths share a C name, so the C text loses the width. */
  lemma FloatNameNotInjective()
    ensures Float16 != Float32 && Float16.NameStr() == Float32.NameStr()
  {
  }

  /** `CCompositeInfo`: the C name of a registered composite and its index
      in the context's composite list. */
  datatype CCompositeInfo = CCompositeInfo(name: string, ctxIdx: nat)

  datatype CFuncPtrInfo = CFuncPtrInfo(args: seq<CType>, ret: CType)

  datatype CType =
    | Unit
    | Void
    | Bool
    | Char
    | Int(i: CIntTy)
    | UInt(u: CUIntTy)
    | Float(f: CFloatTy)
    | Struct(info: CCompositeInfo)
    | TaggedUnion(info: CCompositeInfo)
    | FatPointer
    | Union(info: CCompositeInfo)
    | Enum
    | Pointer(inner: CType)
    | Array(elem: CType, size: nat)
    | FunctionPtr(fp: CFuncPtrInfo)
  {
    predicate IsComposite()
    {
      Struct? || Union? || TaggedUnion?
    }
  }

  /** `WRAPPER_FIELD_NAME`: the one field of the struct an array is boxed in. */
  const WRAPPER_FIELD_NAME: string := "wrapee"

  /** `as_composite_info`: the info of a struct, union or tagged union; any
      other type aborts. */
  function AsCompositeInfo(t: CType): (r: Result<CCompositeInfo>)
    ensures r.Ok? <==> t.IsComposite()
    ensures r.Ok? ==> r.value == t.info
  {
    match t
    case Struct(info) => Ok(info)
    case Union(info) => Ok(info)
    case TaggedUnion(info) => Ok(info)
    case _ => Panic("Not a composite type")
  }

  /** A measure on types that shrinks through function-pointer arguments. */
  function CSize(t: CType): (n: nat)
    ensures n >= 1
  {
    match t
    case Pointer(inner) => 1 + CSize(inner)
    case Array(elem, _) => 1 + CSize(elem)
    case FunctionPtr(fp) => 1 + CSizeSeq(fp.args) + CSize(fp.ret)
    case _ => 1
  }

  function CSizeSeq(s: seq<CType>): nat
  {
    if |s| == 0 then 0 else CSizeSeq(s[..|s| - 1]) + CSize(s[|s| - 1])
  }

  /** The C spelling of a type that renders as a plain name plus stars. */
  predicate IsNamed(t: CType)
  {
    t.Unit? || t.Void? || t.Bool? || t.Char? || t.Int? || t.UInt? || t.Float? || t.IsComposite()
  }

  function BaseName(t: CType): string
    requires IsNamed(t)
  {
    match t
    case Unit => "__Unit"
    case Void => "void"
    case Bool => "bool"
    case Char => "char32_t"
    case Int(i) => i.NameStr()
    case UInt(u) => u.NameStr()
    case Float(f) => f.NameStr()
    case Struct(info) => info.name
    case Union(info) => info.name
    case TaggedUnion(info) => info.name
  }

  /** The declarator name, if one is pending, is read once: the context
      afterwards has none. */
  function NameSuffix(c: ReprContext): string
  {
    match c.varName
    case Some(n) => " " + n
    case None => ""
  }

  function Taken(c: ReprContext): ReprContext
  {
    c.(varName := None)
  }

  const U32_LIMIT: nat := 0x1_0000_0000

  /** What rendering may do to the context: consume the declarator name and
      raise the pointer depth. Nothing else changes. */
  predicate Evolves(c: ReprContext, c': ReprContext)
  {
    c'.nPtr >= c.nPtr && c' == c.(varName := c'.varName, nPtr := c'.nPtr)
  }

  /** `CType::repr`. The context is threaded through: `Pointer` raises the
      pointer depth for what it wraps, and the pending declarator name is
      consumed by the first part of the type that writes it. */
  function TypeText(t: CType, c: ReprContext): (r: (string, ReprContext))
    ensures r.1.varName == None && Evolves(c, r.1)
    decreases CSize(t), 1
  {
    match t
    case Enum =>
      (match c.varName case Some(n) => "enum " + n case None => "enum", Taken(c))
    case Pointer(inner) =>
      TypeText(inner, c.(nPtr := c.nPtr + 1))
    case FatPointer =>
      (FAT_PTR_NAME + Repeat("*", if c.nPtr > 0 then c.nPtr - 1 else 0) + NameSuffix(c), Taken(c))
    case Array(elem, size) =>
      ArrayText(elem, size, c)
    case FunctionPtr(fp) =>
      FnPtrText(fp, c)
    case _ =>
      (BaseName(t) + Repeat("*", c.nPtr) + NameSuffix(c), Taken(c))
  }

  /** An array: under a pointer the name goes after the stars; otherwise the
      element type is written first (it takes the name if one is pending)
      and the size follows in brackets, empty when it is zero as a `u32`. */
  function ArrayText(elem: CType, size: nat, c: ReprContext): (r: (string, ReprContext))
    ensures r.1.varName == None && Evolves(c, r.1)
    decreases CSize(elem) + 1, 0
  {
    if c.nPtr > 0 then
      var vn := c.varName.GetOr("");
      var e := TypeText(elem, Taken(c));
      (e.0 + Repeat("*", c.nPtr) + " " + vn, e.1)
    else
      var e := TypeText(elem, c);
      var vn := e.1.varName.GetOr("");
      (e.0 + vn + (if size % U32_LIMIT == 0 then "[]" else "[" + NatToString(size) + "]"), Taken(e.1))
  }

  /** A function pointer: return type, the name in `(*name)`, then the
      arguments, or `void` when there are none. */
  function FnPtrText(fp: CFuncPtrInfo, c: ReprContext): (r: (string, ReprContext))
    ensures r.1.varName == None && Evolves(c, r.1)
    decreases 1 + CSizeSeq(fp.args) + CSize(fp.ret), 0
  {
    var vn := c.varName.GetOr("");
    var ret := TypeText(fp.ret, Taken(c));
    var args := ArgsText(fp.args, ret.1);
    var v := if |fp.args| == 0 then TypeText(Void, args.1) else ("", args.1);
    (ret.0 + " (*" + vn + ")(" + args.0 + v.0 + ")", v.1)
  }

  /** The arguments of a function pointer, separated by `, `, each rendered
      in the context the previous one left behind. */
  function ArgsText(args: seq<CType>, c: ReprContext): (r: (string, ReprContext))
    ensures Evolves(c, r.1)
    ensures |args| > 0 ==> r.1.varName == None
    ensures |args| == 0 ==> r == ("", c)
    decreases CSizeSeq(args), 2
  {
    if |args| == 0 then ("", c)
    else
      var init := ArgsText(args[..|args| - 1], c);
      var last := TypeText(args[|args| - 1], init.1);
      (if |args| == 1 then last.0 else init.0 + ", " + last.0, last.1)
  }

  /** The function-pointer arm of `repr`: the return type, then a loop over
      the arguments writing `, ` between them, then `void` if there were none. */
  method RenderFnPtr(fp: CFuncPtrInfo, c: ReprContext) returns (out: string, c': ReprContext)
    ensures (out, c') == FnPtrText(fp, c)
  {
    var vn := c.varName.GetOr("");
    var ret := TypeText(fp.ret, Taken(c));
    var rs := ret.0;
    c' := ret.1;
    ghost var c2 := c';
    var i := 0;
    var args := "";
    while i < |fp.args|
      invariant 0 <= i <= |fp.args|
      invariant (args, c') == ArgsText(fp.args[..i], c2)
    {
      var a := TypeText(fp.args[i], c');
      assert fp.args[..i + 1][..i] == fp.args[..i];
      assert fp.args[..i + 1][i] == fp.args[i];
      args := if i == 0 then a.0 else args + ", " + a.0;
      c' := a.1;
      i := i + 1;
    }
    assert fp.args[..i] == fp.args;
    var v := "";
    if |fp.args| == 0 {
      var vt := TypeText(Void, c');
      v, c' := vt.0, vt.1;
    }
    out := rs + " (*" + vn + ")(" + args + v + ")";
  }

  /** `{:?}` of a type: its rendering in the default context. */
  function DebugText(t: CType): string
  {
    TypeText(t, DefaultContext()).0
  }

  /** `k` levels of `Pointer` around a type. */
  function PointerN(t: CType, k: nat): CType
  {
    if k == 0 then t else Pointer(PointerN(t, k - 1))
  }

  /** Each `Pointer` level raises the depth by exactly one before the
      wrapped type is rendered. */
  lemma {:induction false} PointerNDepth(t: CType, k: nat, c: ReprContext)
    ensures TypeText(PointerN(t, k), c) == TypeText(t, c.(nPtr := c.nPtr + k))
  {
    if k > 0 {
      PointerNDepth(t, k - 1, c.(nPtr := c.nPtr + 1));
      assert PointerN(t, k) == PointerN(Pointer(t), k - 1) by {
        PointerNShift(t, k);
      }
    }
  }

  lemma {:induction false} PointerNShift(t: CType, k: nat)
    requires k > 0
    ensures PointerN(t, k) == PointerN(Pointer(t), k - 1)
  {
    if k > 1 {
      PointerNShift(t, k - 1);
    }
  }

  /** A named type under `k` pointers renders as its name and `k` stars. */
  lemma NamedUnderPointers(t: CType, k: nat)
    requires IsNamed(t)
    ensures DebugText(PointerN(t, k)) == BaseName(t) + Repeat("*", k)
  {
    PointerNDepth(t, k, DefaultContext());
  }

  /** A fat pointer under `k` pointers renders one star fewer, never below
      zero. */
  lemma FatPointerUnderPointers(k: nat)
    ensures DebugText(PointerN(FatPointer, k)) == FAT_PTR_NAME + Repeat("*", if k > 0 then k - 1 else 0)
  {
    PointerNDepth(FatPointer, k, DefaultContext());
  }

  /** A declared array of a named type puts the declarator name between the
      element type and the brackets; a size that is zero in 32 bits gives
      `name[]`. */
  lemma ArrayDeclarator(t: CType, size: nat, name: string, c: ReprContext)
    requires IsNamed(t) && c.nPtr == 0 && c.varName == Some(name)
    ensures TypeText(Array(t, size), c).0 ==
      BaseName(t) + " " + name + (if size % U32_LIMIT == 0 then "[]" else "[" + NatToString(size) + "]")
  {
    NamedTypeText(t, c);
    assert Repeat("*", 0) == "";
  }

  /** A function pointer without arguments gets a `void` parameter list. */
  lemma NoArgFunctionPointer(ret: CType, name: string, c: ReprContext)
    requires IsNamed(ret) && c.nPtr == 0 && c.varName == Some(name)
    ensures TypeText(FunctionPtr(CFuncPtrInfo([], ret)), c).0 == BaseName(ret) + " (*" + name + ")(void)"
  {
    NamedTypeText(ret, Taken(c));
    NamedTypeText(Void, Taken(c));
    assert Repeat("*", 0) == "";
  }

  /** A named type is its C name, the stars of the pointer depth and the
      pending declarator name. */
  lemma NamedTypeText(t: CType, c: ReprContext)
    requires IsNamed(t)
    ensures TypeText(t, c) == (BaseName(t) + Repeat("*", c.nPtr) + NameSuffix(c), Taken(c))
  {
  }

  /** `[i32; 3]` prints as `int32_t[3]`. */
  lemma ArrayDebugExample()
    ensures DebugText(Array(Int(Int32), 3)) == "int32_t[3]"
  {
  }

  /** The pointer depth is raised in place and never lowered, so the stars
      of a function pointer's return type carry over to its arguments. */
  lemma PointerDepthLeaksIntoArguments()
    ensures DebugText(FunctionPtr(CFuncPtrInfo([Int(Int32)], Pointer(Void)))) == "void* (*)(int32_t*)"
  {
    var c := DefaultContext();
    VoidUnderOnePointer(Taken(c));
    var ret := TypeText(Pointer(Void), Taken(c));
    Int32AtDepthOne(ret.1);
    var args := ArgsText([Int(Int32)], ret.1);
    assert FnPtrText(CFuncPtrInfo([Int(Int32)], Pointer(Void)), c).0 == "void*" + " (*" + "" + ")(" + "int32_t*" + "" + ")";
  }

  lemma VoidUnderOnePointer(c: ReprContext)
    requires c.varName == None && c.nPtr == 0
    ensures TypeText(Pointer(Void), c) == ("void*", c.(nPtr := 1))
  {
    assert Repeat("*", 1) == "*" by {
      assert Repeat("*", 0) == "";
    }
    var c1 := c.(nPtr := 1);
    assert TypeText(Void, c1) == ("void" + "*" + "", Taken(c1));
    assert "void" + "*" + "" == "void*";
  }

  lemma Int32AtDepthOne(c: ReprContext)
    requires c.varName == None && c.nPtr == 1
    ensures ArgsText([Int(Int32)], c).0 == "int32_t*"
  {
    assert Repeat("*", 1) == "*" by {
      assert Repeat("*", 0) == "";
    }
    assert [Int(Int32)][..0] == [];
    assert TypeText(Int(Int32), c).0 == "int32_t" + "*" + "";
  }

}
