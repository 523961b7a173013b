/** aggregate.rs `handle_aggregate`: the construction of a tuple, array,
    struct, union, tagged union or closure value from its operands, as one
    assignment to the destination place. The destination's C type is the
    one the C function declared for the local; the discriminant of an enum
    variant, which rustc computes, is given with the aggregate kind. */
module Aggregate {
  import opened Wrappers
  import opened Strings
  import opened Utils
  import opened Ty
  import opened Expr
  import opened Composite
  import opened Base
  import opened TypeMapper
  import opened CodegenCx
  import opened Place

  /** A variant's discriminant: its value as a `u128` and the byte size of
      the enum's tag integer. */
  datatype Discr = Discr(val: nat, bytes: nat)

  /** The aggregate kinds `handle_aggregate` distinguishes. An ADT carries
      the variant index, the active field of a union and the discriminant
      rustc reports for the variant (`None` where it has none); a closure
      carries the tuple type of its captured variables. */
  datatype AggregateKind =
    | TupleAgg
    | ArrayAgg
    | AdtAgg(variant: nat, activeField: Option<nat>, discr: Option<Discr>)
    | ClosureAgg(upvars: RustTy)
    | OtherAgg

  /** A discriminant is a `u128`. */
  predicate KindInRange(kind: AggregateKind)
  {
    kind.AdtAgg? && kind.discr.Some? ==> kind.discr.value.val < Pow2(128)
  }

  const UNWRAP_NONE := "called `Option::unwrap()` on a `None` value"

  /** The tag constant: the discriminant cut to the tag's width, in
      decimal. The mask `(1 << bits) - 1` overflows `u128` for a 16-byte
      tag, which aborts. */
  function TagText(d: Discr): (r: Result<string>)
    requires d.val < Pow2(128)
    ensures r.Ok? <==> d.bytes < 16
    ensures r.Ok? ==> r.value == NatToString(d.val % Pow2(8 * d.bytes))
  {
    if d.bytes >= 16 then Panic("attempt to shift left with overflow")
    else Ok(NatToString(TruncateToSize(d.val, d.bytes)))
  }

  /** The operands lowered left to right (the loops that push
      `handle_operand` of each field). */
  function OperandsExpr(localTys: seq<RustTy>, ops: seq<Operand>, st: MapState): (r: Result<(seq<Expression>, MapState)>)
    ensures r.Ok? ==> |r.value.0| == |ops| && Grows(st, r.value.1)
  {
    if |ops| == 0 then Ok(([], st))
    else
      var (init, st1) :- OperandsExpr(localTys, ops[..|ops| - 1], st);
      var (e, st2) :- OperandExpr(localTys, ops[|ops| - 1], st1);
      Ok((init + [e], st2))
  }

  /** The array branch: for each operand in turn, the assignment of it to
      the element of the same index. */
  function ArrayAssignments(localTys: seq<RustTy>, local: nat, ops: seq<Operand>, st: MapState): (r: Result<(seq<Expression>, MapState)>)
    ensures r.Ok? ==> |r.value.0| == |ops| && Grows(st, r.value.1)
  {
    if |ops| == 0 then Ok(([], st))
    else
      var (init, st1) :- ArrayAssignments(localTys, local, ops[..|ops| - 1], st);
      var (e, st2) :- OperandExpr(localTys, ops[|ops| - 1], st1);
      Ok((init + [Assignment(ArrVari(local, |ops| - 1), e)], st2))
  }

  /** The destination assigned a positional struct literal named `name`:
      the operands first, then the destination place. */
  function StructAssign(localTys: seq<RustTy>, dest: Place, name: string, ops: seq<Operand>, st: MapState): (r: Result<(Expression, MapState)>)
    ensures r.Ok? ==> Grows(st, r.value.1)
  {
    var (es, st1) :- OperandsExpr(localTys, ops, st);
    var (lhs, st2) :- PlaceExpr(localTys, dest, st1);
    Ok((Assignment(lhs, StructLit(Constant(name), es)), st2))
  }

  /** A tuple whose local is not a struct is the single operand itself. */
  function UnboxedTupleAssign(localTys: seq<RustTy>, dest: Place, ops: seq<Operand>, st: MapState): (r: Result<(Expression, MapState)>)
    ensures r.Ok? ==> Grows(st, r.value.1)
  {
    if |ops| != 1 then Panic("assertion failed: fields.len() == 1")
    else
      var (e, st1) :- OperandExpr(localTys, ops[0], st);
      var (lhs, st2) :- PlaceExpr(localTys, dest, st1);
      Ok((Assignment(lhs, e), st2))
  }

  /** A union: a named literal of the union holding at most the active
      field. */
  function UnionAssign(localTys: seq<RustTy>, dest: Place, info: CCompositeInfo, active: Option<nat>,
                       ops: seq<Operand>, st: MapState): (r: Result<(Expression, MapState)>)
    ensures r.Ok? ==> Grows(st, r.value.1)
  {
    var comp :- CompositeAt(st.structs, info);
    var def :- comp.AsStructDef();
    if active.None? then Panic(UNWRAP_NONE)
    else if |def.fields| <= active.value then Panic("index out of bounds")
    else
      var field := def.fields[active.value];
      var (named, st1) :-
        if |ops| == 0 then Ok(([], st))
        else if |ops| == 1 then
          var (e, st1) :- OperandExpr(localTys, ops[0], st);
          Ok(([(field.name, e)], st1))
        else Panic("Union with more than one field");
      var (lhs, st2) :- PlaceExpr(localTys, dest, st1);
      Ok((Assignment(lhs, NamedStructLit(Constant(def.name), named)), st2))
  }

  /** The names a tagged-union literal is built from: the tagged union,
      its wrapper union (as the union member's type names it), the
      variant's member in that union, and the variant's struct. */
  datatype VariantParts = VariantParts(outer: string, union: string, member: string, variantStruct: string)

  /** The lookups of the tagged-union branch: the tagged union, its union
      member's type, that union's definition, its member for `variant` and
      the struct that member's type names; each step aborts when what it
      finds is not of the expected kind. */
  function VariantOf(structs: seq<CComposite>, info: CCompositeInfo, variant: nat): (r: Result<VariantParts>)
    ensures r.Ok? ==>
      info.ctxIdx < |structs| && structs[info.ctxIdx].TaggedUnionDef? &&
      var tu := structs[info.ctxIdx].tdef;
      tu.unionVar.ty.IsComposite() && tu.unionVar.ty.info.ctxIdx < |structs| &&
      !structs[tu.unionVar.ty.info.ctxIdx].TaggedUnionDef? &&
      var u := structs[tu.unionVar.ty.info.ctxIdx].def;
      variant < |u.fields| && u.fields[variant].ty.IsComposite() &&
      u.fields[variant].ty.info.ctxIdx < |structs| && !structs[u.fields[variant].ty.info.ctxIdx].TaggedUnionDef? &&
      r.value == VariantParts(tu.name, tu.unionVar.ty.info.name, u.fields[variant].name,
                              structs[u.fields[variant].ty.info.ctxIdx].def.name)
  {
    var comp :- CompositeAt(structs, info);
    var tu :- comp.AsTaggedUnionDef();
    var unionInfo :- AsCompositeInfo(tu.unionVar.ty);
    var unionComp :- CompositeAt(structs, unionInfo);
    var unionDef :- unionComp.AsStructDef();
    if |unionDef.fields| <= variant then Panic("index out of bounds")
    else
      var member := unionDef.fields[variant];
      var memberInfo :- AsCompositeInfo(member.ty);
      var memberComp :- CompositeAt(structs, memberInfo);
      var memberDef :- memberComp.AsStructDef();
      Ok(VariantParts(tu.name, unionInfo.name, member.name, memberDef.name))
  }

  /** A tagged union: the outer struct of the tag constant and the wrapper
      union, the union holding only the selected variant's member, which is
      the variant struct's literal of the operands. */
  function TaggedUnionAssign(localTys: seq<RustTy>, dest: Place, info: CCompositeInfo, variant: nat,
                             discr: Option<Discr>, ops: seq<Operand>, st: MapState): (r: Result<(Expression, MapState)>)
    requires discr.Some? ==> discr.value.val < Pow2(128)
    ensures r.Ok? ==> Grows(st, r.value.1)
  {
    var (es, st1) :- OperandsExpr(localTys, ops, st);
    if discr.None? then Panic(UNWRAP_NONE)
    else
      var parts :- VariantOf(st1.structs, info, variant);
      var tag :- TagText(discr.value);
      var payload := NamedStructLit(Constant(parts.union), [(parts.member, StructLit(Constant(parts.variantStruct), es))]);
      var (lhs, st2) :- PlaceExpr(localTys, dest, st1);
      Ok((Assignment(lhs, StructLit(Constant(parts.outer), [Constant(tag), payload])), st2))
  }

  /** `handle_aggregate`. */
  function AggregateExpr(localTys: seq<RustTy>, localCTys: seq<CType>, dest: Place, kind: AggregateKind,
                         ops: seq<Operand>, st: MapState): (r: Result<(Expression, MapState)>)
    requires KindInRange(kind)
    ensures r.Ok? ==> Grows(st, r.value.1)
  {
    if |localTys| <= dest.local || |localCTys| <= dest.local then Panic("local out of range")
    else
      var varType := localCTys[dest.local];
      match kind
      case TupleAgg =>
        if varType.Struct? then StructAssign(localTys, dest, varType.info.name, ops, st)
        else UnboxedTupleAssign(localTys, dest, ops, st)
      case ArrayAgg =>
        var (assigns, st1) :- ArrayAssignments(localTys, dest.local, ops, st);
        Ok((ArrayExpr(assigns), st1))
      case AdtAgg(v, active, discr) =>
        if varType.Struct? then StructAssign(localTys, dest, varType.info.name, ops, st)
        else if varType.Union? then UnionAssign(localTys, dest, varType.info, active, ops, st)
        else if varType.TaggedUnion? then TaggedUnionAssign(localTys, dest, varType.info, v, discr, ops, st)
        else Ok((NoOp, st))
      case ClosureAgg(upvars) =>
        var (t, st1) :- Lower(upvars, st);
        if t.Struct? then StructAssign(localTys, dest, t.info.name, ops, st1)
        else Panic("Expected closure arg struct to be a struct")
      case OtherAgg => Ok((NoOp, st))
  }

  /** Once an operand fails, the whole list fails. */
  lemma {:induction false} OperandsPanics(localTys: seq<RustTy>, ops: seq<Operand>, j: nat, st: MapState)
    requires j <= |ops| && OperandsExpr(localTys, ops[..j], st).Panic?
    ensures OperandsExpr(localTys, ops, st).Panic?
    decreases |ops| - j
  {
    if j < |ops| {
      assert ops[..j + 1][..j] == ops[..j];
      OperandsPanics(localTys, ops, j + 1, st);
    } else {
      assert ops[..j] == ops;
    }
  }

  /** Once an element fails, the array branch fails. */
  lemma {:induction false} ArrayPanics(localTys: seq<RustTy>, local: nat, ops: seq<Operand>, j: nat, st: MapState)
    requires j <= |ops| && ArrayAssignments(localTys, local, ops[..j], st).Panic?
    ensures ArrayAssignments(localTys, local, ops, st).Panic?
    decreases |ops| - j
  {
    if j < |ops| {
      assert ops[..j + 1][..j] == ops[..j];
      ArrayPanics(localTys, local, ops, j + 1, st);
    } else {
      assert ops[..j] == ops;
    }
  }

  // The mutable side.

  /** The operand loop shared by the tuple, struct, tagged-union and
      closure branches. */
  method HandleOperands(cx: FunctionCx, localTys: seq<RustTy>, ops: seq<Operand>) returns (r: Result<seq<Expression>>)
    modifies cx, cx.ctx
    ensures Agrees(r, OperandsExpr(localTys, ops, old(cx.State())), cx.State())
    ensures OthersUnchanged(cx.ctx)
  {
    ghost var st0 := cx.State();
    var es := [];
    var i := 0;
    while i < |ops|
      invariant 0 <= i <= |ops|
      invariant OperandsExpr(localTys, ops[..i], st0) == Ok((es, cx.State()))
      invariant OthersUnchanged(cx.ctx)
    {
      assert ops[..i + 1][..i] == ops[..i];
      var e := HandleOperand(cx, localTys, ops[i]);
      if e.Panic? {
        OperandsPanics(localTys, ops, i + 1, st0);
        return Panic(e.reason);
      }
      es := es + [e.value];
      i := i + 1;
    }
    assert ops[..i] == ops;
    r := Ok(es);
  }

  /** The array branch's loop: `local[i] = operand_i` for each operand. */
  method HandleArrayElements(cx: FunctionCx, localTys: seq<RustTy>, local: nat, ops: seq<Operand>) returns (r: Result<seq<Expression>>)
    modifies cx, cx.ctx
    ensures Agrees(r, ArrayAssignments(localTys, local, ops, old(cx.State())), cx.State())
    ensures OthersUnchanged(cx.ctx)
  {
    ghost var st0 := cx.State();
    var assigns := [];
    var i := 0;
    while i < |ops|
      invariant 0 <= i <= |ops|
      invariant ArrayAssignments(localTys, local, ops[..i], st0) == Ok((assigns, cx.State()))
      invariant OthersUnchanged(cx.ctx)
    {
      assert ops[..i + 1][..i] == ops[..i];
      var e := HandleOperand(cx, localTys, ops[i]);
      if e.Panic? {
        ArrayPanics(localTys, local, ops, i + 1, st0);
        return Panic(e.reason);
      }
      assigns := assigns + [Assignment(ArrVari(local, i), e.value)];
      i := i + 1;
    }
    assert ops[..i] == ops;
    r := Ok(assigns);
  }

  /** A struct literal of the operands assigned to the destination. */
  method HandleStructAssign(cx: FunctionCx, localTys: seq<RustTy>, dest: Place, name: string, ops: seq<Operand>)
    returns (r: Result<Expression>)
    modifies cx, cx.ctx
    ensures Agrees(r, StructAssign(localTys, dest, name, ops, old(cx.State())), cx.State())
    ensures OthersUnchanged(cx.ctx)
  {
    var es := HandleOperands(cx, localTys, ops);
    if es.Panic? {
      return Panic(es.reason);
    }
    var lhs := HandlePlace(cx, localTys, dest);
    if lhs.Panic? {
      return lhs;
    }
    r := Ok(Assignment(lhs.value, StructLit(Constant(name), es.value)));
  }

  /** The tuple branch for a local that is not a struct. */
  method HandleUnboxedTuple(cx: FunctionCx, localTys: seq<RustTy>, dest: Place, ops: seq<Operand>)
    returns (r: Result<Expression>)
    modifies cx, cx.ctx
    ensures Agrees(r, UnboxedTupleAssign(localTys, dest, ops, old(cx.State())), cx.State())
    ensures OthersUnchanged(cx.ctx)
  {
    if |ops| != 1 {
      return Panic("assertion failed: fields.len() == 1");
    }
    var e := HandleOperand(cx, localTys, ops[0]);
    if e.Panic? {
      return e;
    }
    var lhs := HandlePlace(cx, localTys, dest);
    if lhs.Panic? {
      return lhs;
    }
    r := Ok(Assignment(lhs.value, e.value));
  }

  /** The union branch. */
  method HandleUnion(cx: FunctionCx, localTys: seq<RustTy>, dest: Place, info: CCompositeInfo, active: Option<nat>,
                     ops: seq<Operand>) returns (r: Result<Expression>)
    modifies cx, cx.ctx
    ensures Agrees(r, UnionAssign(localTys, dest, info, active, ops, old(cx.State())), cx.State())
    ensures OthersUnchanged(cx.ctx)
  {
    var comp := CompositeAt(cx.ctx.structs, info);
    if comp.Panic? {
      return Panic(comp.reason);
    }
    var def := comp.value.AsStructDef();
    if def.Panic? {
      return Panic(def.reason);
    }
    if active.None? {
      return Panic(UNWRAP_NONE);
    }
    if |def.value.fields| <= active.value {
      return Panic("index out of bounds");
    }
    var field := def.value.fields[active.value];
    var named: seq<(string, Expression)> := [];
    if |ops| == 1 {
      var e := HandleOperand(cx, localTys, ops[0]);
      if e.Panic? {
        return e;
      }
      named := [(field.name, e.value)];
    } else if |ops| > 1 {
      return Panic("Union with more than one field");
    }
    var lhs := HandlePlace(cx, localTys, dest);
    if lhs.Panic? {
      return lhs;
    }
    r := Ok(Assignment(lhs.value, NamedStructLit(Constant(def.value.name), named)));
  }

  /** The tagged-union branch. */
  method HandleTaggedUnion(cx: FunctionCx, localTys: seq<RustTy>, dest: Place, info: CCompositeInfo, variant: nat,
                           discr: Option<Discr>, ops: seq<Operand>) returns (r: Result<Expression>)
    requires discr.Some? ==> discr.value.val < Pow2(128)
    modifies cx, cx.ctx
    ensures Agrees(r, TaggedUnionAssign(localTys, dest, info, variant, discr, ops, old(cx.State())), cx.State())
    ensures OthersUnchanged(cx.ctx)
  {
    var es := HandleOperands(cx, localTys, ops);
    if es.Panic? {
      return Panic(es.reason);
    }
    if discr.None? {
      return Panic(UNWRAP_NONE);
    }
    var parts := VariantOf(cx.ctx.structs, info, variant);
    if parts.Panic? {
      return Panic(parts.reason);
    }
    var tag := TagText(discr.value);
    if tag.Panic? {
      return Panic(tag.reason);
    }
    var payload := NamedStructLit(Constant(parts.value.union), [(parts.value.member, StructLit(Constant(parts.value.variantStruct), es.value))]);
    var lhs := HandlePlace(cx, localTys, dest);
    if lhs.Panic? {
      return lhs;
    }
    r := Ok(Assignment(lhs.value, StructLit(Constant(parts.value.outer), [Constant(tag.value), payload])));
  }

  /** `handle_aggregate`. */
  method HandleAggregate(cx: FunctionCx, localTys: seq<RustTy>, localCTys: seq<CType>, dest: Place, kind: AggregateKind,
                         ops: seq<Operand>) returns (r: Result<Expression>)
    requires KindInRange(kind)
    modifies cx, cx.ctx
    ensures Agrees(r, AggregateExpr(localTys, localCTys, dest, kind, ops, old(cx.State())), cx.State())
    ensures OthersUnchanged(cx.ctx)
  {
    if |localTys| <= dest.local || |localCTys| <= dest.local {
      return Panic("local out of range");
    }
    var varType := localCTys[dest.local];
    match kind {
    case TupleAgg =>
      if varType.Struct? {
        r := HandleStructAssign(cx, localTys, dest, varType.info.name, ops);
      } else {
        r := HandleUnboxedTuple(cx, localTys, dest, ops);
      }
    case ArrayAgg =>
      var assigns := HandleArrayElements(cx, localTys, dest.local, ops);
      if assigns.Panic? {
        return Panic(assigns.reason);
      }
      r := Ok(ArrayExpr(assigns.value));
    case AdtAgg(v, active, discr) =>
      if varType.Struct? {
        r := HandleStructAssign(cx, localTys, dest, varType.info.name, ops);
      } else if varType.Union? {
        r := HandleUnion(cx, localTys, dest, varType.info, active, ops);
      } else if varType.TaggedUnion? {
        r := HandleTaggedUnion(cx, localTys, dest, varType.info, v, discr, ops);
      } else {
        r := Ok(NoOp);
      }
    case ClosureAgg(upvars) =>
      var t := cx.RustToCType(upvars);
      if t.Panic? {
        return Panic(t.reason);
      }
      if !t.value.Struct? {
        return Panic("Expected closure arg struct to be a struct");
      }
      r := HandleStructAssign(cx, localTys, dest, t.value.info.name, ops);
    case OtherAgg =>
      r := Ok(NoOp);
    }
  }
}
