/** stmt.rs, the place and operand resolver: `handle_place` walks a MIR
    place's projections, tracking the C type of the part reached so far and
    appending one access step (or two) per projection;
    `handle_operand_with_access`, `handle_cast` and the `handle_assign`
    cases build on it. Each is a specification function over the type
    mapper's state and a method on the function context proved to agree
    with it. */
module Place {
  import opened Wrappers
  import opened Ty
  import opened Expr
  import opened FatPtr
  import opened Composite
  import opened Base
  import opened Stmt
  import opened TypeMapper
  import opened CodegenCx
  import Mir

  /** `ProjectionElem`: the steps of a place. A field projection carries
      the field's type, as MIR does. */
  datatype Projection =
    | FieldProj(field: nat, ty: RustTy)
    | IndexProj(indexLocal: nat)
    | ConstantIndexProj(offset: nat)
    | SubsliceProj
    | DowncastProj(variant: nat)
    | DerefProj
    | OpaqueCastProj
    | OtherProj

  /** A MIR place: a local and its projections. */
  datatype Place = Place(local: nat, projs: seq<Projection>)

  /** A MIR operand. */
  datatype Operand = Copy(place: Place) | Move(place: Place) | ConstOperand(k: MirConst)

  /** The cast kinds `handle_cast` distinguishes (pointer coercions are
      not part of this model). */
  datatype CastKind = IntToInt | FloatToInt | FloatToFloat | IntToFloat | Transmute | OtherCast

  /** MIR `UnOp`: logical or bitwise not, negation, and the pointer
      metadata read that `handle_assign` does not lower. */
  datatype MirUnOp = MirNot | MirNeg | PtrMetadata

  /** The right-hand sides `handle_assign` lowers here. A binary operation
      carries its MIR operator; a unary one says whether its operand is a
      `bool` (rustc's operand type query, taken as given). */
  datatype Rvalue =
    | Use(op: Operand)
    | Binary(bop: Mir.MirBinOp, left: Operand, right: Operand)
    | Unary(uop: MirUnOp, unOperand: Operand, isBool: bool)
    | Ref(refPlace: Place)
    | CopyForDeref(copied: Place)
    | Discriminant(of: Place)
    | Len(lenOf: Place)
    | Repeat(repeated: Operand, count: nat)
    | Cast(kind: CastKind, castOp: Operand, target: RustTy)
    | OtherRvalue

  /** Where the walk stands: the access steps so far, the C type reached
      and the Rust type reached. */
  datatype Walk = Walk(access: seq<Access>, ctype: CType, placeTy: RustTy)

  /** `builtin_deref(true)`: the pointee of a reference or raw pointer. */
  function BuiltinDeref(t: RustTy): (r: Option<RustTy>)
    ensures r.Some? <==> t.RRef? || t.RRawPtr?
    ensures r.Some? ==> r.value < t
  {
    match t
    case RRef(p, _) => Some(p)
    case RRawPtr(p) => Some(p)
    case _ => None
  }

  /** The element type of an array or slice, as an index projection reaches
      it; `ROther` for anything else. */
  function ElementTy(t: RustTy): RustTy
  {
    match t
    case RArray(e, _) => e
    case RSlice(e) => e
    case _ => ROther
  }

  /** The steps of an index: an `Unwrap` into the wrapper struct first when
      the place is one, then the index itself. */
  function IndexSteps(ctype: CType, index: Expression): (r: seq<Access>)
    ensures |r| == (if ctype.Struct? then 2 else 1) && r[|r| - 1] == Index(index)
    ensures ctype.Struct? ==> r[0] == Unwrap
  {
    (if ctype.Struct? then [Unwrap] else []) + [Index(index)]
  }

  /** One iteration of the projection loop. A dereference reads the pointee
      of `derefBase`. */
  function ProjStep(derefBase: RustTy, w: Walk, p: Projection, st: MapState): (r: Result<(Walk, MapState)>)
    ensures r.Ok? ==> Grows(st, r.value.1)
    ensures r.Ok? ==> w.access <= r.value.0.access && |r.value.0.access| <= |w.access| + 2
  {
    match p
    case FieldProj(f, ty) =>
      if w.ctype.Struct? || w.ctype.Union? then
        var name :- FieldNameAt(st.structs, w.ctype.info, f);
        if name.None? then Panic("called `Option::unwrap()` on a `None` value")
        else
          var (t, st1) :- Lower(ty, st);
          Ok((Walk(w.access + [Field(name.value)], t, ty), st1))
      else Ok((w.(placeTy := ty), st))
    case IndexProj(l) =>
      Ok((Walk(w.access + IndexSteps(w.ctype, Unbvari(l)), w.ctype, ElementTy(w.placeTy)), st))
    case ConstantIndexProj(o) =>
      Ok((Walk(w.access + IndexSteps(w.ctype, ConstInt(o)), w.ctype, ElementTy(w.placeTy)), st))
    case SubsliceProj => Panic("not yet implemented: Subslice")
    case DowncastProj(v) =>
      if !w.ctype.TaggedUnion? then Panic("Expected tagged union type")
      else
        var comp :- CompositeAt(st.structs, w.ctype.info);
        var tu :- comp.AsTaggedUnionDef();
        var unionInfo :- AsCompositeInfo(tu.unionVar.ty);
        var unionComp :- CompositeAt(st.structs, unionInfo);
        var unionDef :- unionComp.AsStructDef();
        if |unionDef.fields| <= v then Panic("index out of bounds")
        else
          var member := unionDef.fields[v];
          Ok((Walk(w.access + [Field(UNION_NAME), Field(member.name)], member.ty, w.placeTy), st))
    case DerefProj =>
      var pointee := BuiltinDeref(derefBase);
      if pointee.None? then Panic("called `Option::unwrap()` on a `None` value")
      else
        var (next, st1) :- Lower(pointee.value, st);
        var step := if w.ctype.FatPointer? then FatPtrDereference(next) else Dereference;
        Ok((Walk(w.access + [step], next, pointee.value), st1))
    case OpaqueCastProj => Ok((w, st))
    case OtherProj => Ok((w, st))
  }

  /** The projection loop over `projs`, from `w0`. As written
      (`asWritten`), every dereference reads the pointee of the local's own
      type; otherwise it reads that of the type reached so far. */
  function WalkProjs(localTy: RustTy, projs: seq<Projection>, w0: Walk, st: MapState, asWritten: bool): (r: Result<(Walk, MapState)>)
    ensures r.Ok? ==> Grows(st, r.value.1)
  {
    if |projs| == 0 then Ok((w0, st))
    else
      var (w, st1) :- WalkProjs(localTy, projs[..|projs| - 1], w0, st, asWritten);
      ProjStep(if asWritten then localTy else w.placeTy, w, projs[|projs| - 1], st1)
  }

  /** The walk of a whole place: the local's type is looked up and lowered,
      then the projections are applied. */
  function PlaceWalk(localTys: seq<RustTy>, place: Place, st: MapState, asWritten: bool): (r: Result<(Walk, MapState)>)
    ensures r.Ok? ==> Grows(st, r.value.1) && place.local < |localTys|
  {
    if |localTys| <= place.local then Panic("local out of range")
    else
      var localTy := localTys[place.local];
      var (t, st1) :- Lower(localTy, st);
      WalkProjs(localTy, place.projs, Walk([], t, localTy), st1, asWritten)
  }

  /** `handle_place`, with dereferences read from the type reached. */
  function PlaceExpr(localTys: seq<RustTy>, place: Place, st: MapState): (r: Result<(Expression, MapState)>)
    ensures r.Ok? ==> r.value.0.Variable? && r.value.0.local == place.local && Grows(st, r.value.1)
  {
    var (w, st1) :- PlaceWalk(localTys, place, st, false);
    Ok((Variable(place.local, w.access), st1))
  }

  /** `handle_place` as written: dereferences read from the local's type. */
  function PlaceExprAsWritten(localTys: seq<RustTy>, place: Place, st: MapState): (r: Result<(Expression, MapState)>)
    ensures r.Ok? ==> r.value.0.Variable? && r.value.0.local == place.local
  {
    var (w, st1) :- PlaceWalk(localTys, place, st, true);
    Ok((Variable(place.local, w.access), st1))
  }

  /** `handle_operand`: a copied or moved place, or a constant. */
  function OperandExpr(localTys: seq<RustTy>, op: Operand, st: MapState): (r: Result<(Expression, MapState)>)
    ensures r.Ok? ==> Grows(st, r.value.1)
    ensures r.Ok? ==> (r.value.0.Variable? <==> !op.ConstOperand?)
  {
    match op
    case Copy(p) => PlaceExpr(localTys, p, st)
    case Move(p) => PlaceExpr(localTys, p, st)
    case ConstOperand(k) => Ok((ConstText(k), st))
  }

  /** A variable with more access steps after its own; anything else
      aborts. */
  function Extend(e: Expression, extra: seq<Access>): (r: Result<Expression>)
    ensures r.Ok? <==> e.Variable?
    ensures r.Ok? ==> r.value == Variable(e.local, e.access + extra)
  {
    if e.Variable? then Ok(Variable(e.local, e.access + extra))
    else Panic("Expected variable expression from handle_operand")
  }

  /** `handle_operand_with_access`. */
  function OperandWithAccess(localTys: seq<RustTy>, op: Operand, extra: seq<Access>, st: MapState): (r: Result<(Expression, MapState)>)
    ensures r.Ok? ==> Grows(st, r.value.1)
  {
    var (e, st1) :- OperandExpr(localTys, op, st);
    var v :- Extend(e, extra);
    Ok((v, st1))
  }

  /** `handle_cast`: the target type is lowered first; numeric casts append
      a cast step; a transmute to a fat pointer is the operand itself, any
      other transmute reinterprets through a pointer. */
  function CastExprOf(localTys: seq<RustTy>, kind: CastKind, op: Operand, target: RustTy, st: MapState): (r: Result<(Expression, MapState)>)
    ensures r.Ok? ==> Grows(st, r.value.1)
  {
    var (tgt, st1) :- Lower(target, st);
    match kind
    case Transmute =>
      if tgt.FatPointer? then OperandExpr(localTys, op, st1)
      else OperandWithAccess(localTys, op, [Reference, CastTo(Pointer(tgt))], st1)
    case OtherCast => Panic("Unhandled cast kind")
    case _ => OperandWithAccess(localTys, op, [CastTo(tgt)], st1)
  }

  /** The access steps of a slice's length: the last step (the fat pointer
      dereference) is dropped, then the `meta` field is read as `uint64_t`. */
  function LenAccess(acc: seq<Access>): (r: seq<Access>)
    ensures |r| == (if |acc| == 0 then 0 else |acc| - 1) + 2
    ensures r[..|r| - 2] == (if |acc| == 0 then [] else acc[..|acc| - 1])
    ensures r[|r| - 2..] == [Field(FAT_PTR_META_FIELD), CastTo(UInt(UInt64))]
  {
    (if |acc| == 0 then [] else acc[..|acc| - 1]) + [Field(FAT_PTR_META_FIELD), CastTo(UInt(UInt64))]
  }

  /** A binary operation with overflow check: `handle_assign` hands it
      to `handle_checked_op` (module `CheckedOp`). */
  predicate IsCheckedBinary(rv: Rvalue)
  {
    rv.Binary? && FromMir(rv.bop).IsChecked()
  }

  /** The right-hand side `handle_assign` builds before assigning. */
  function RvalueExpr(localTys: seq<RustTy>, rv: Rvalue, st: MapState): (r: Result<(Expression, MapState)>)
    requires !rv.Repeat? && !IsCheckedBinary(rv)
    ensures r.Ok? ==> Grows(st, r.value.1)
  {
    match rv
    case Use(op) => OperandExpr(localTys, op, st)
    case Binary(bop, left, right) =>
      var (l, st1) :- OperandExpr(localTys, left, st);
      var (r, st2) :- OperandExpr(localTys, right, st1);
      Ok((BinaryOp(FromMir(bop), l, r), st2))
    case Unary(uop, op, isBool) =>
      if uop.PtrMetadata? then Ok((NoOp, st))
      else
        var (e, st1) :- OperandExpr(localTys, op, st);
        Ok((UnaryOp(if uop.MirNeg? then Neg else if isBool then Not else BitNot, e), st1))
    case Ref(p) =>
      var (e, st1) :- PlaceExpr(localTys, p, st);
      Ok((Variable(e.local, e.access + [Reference]), st1))
    case CopyForDeref(p) => PlaceExpr(localTys, p, st)
    case Discriminant(p) =>
      var (e, st1) :- PlaceExpr(localTys, p, st);
      Ok((Variable(e.local, e.access + [Field(TAG_NAME)]), st1))
    case Len(p) =>
      var (w, st1) :- PlaceWalk(localTys, p, st, false);
      if !w.placeTy.RSlice? then Panic("Rvalue::Len not on slice")
      else Ok((Variable(p.local, LenAccess(w.access)), st1))
    case Cast(kind, op, target) => CastExprOf(localTys, kind, op, target, st)
    case OtherRvalue => Ok((NoOp, st))
  }

  /** `handle_assign` for these right-hand sides: a repeat fills the
      wrapped array of the destination local and is returned as is;
      anything else is assigned to the destination place, which is
      resolved after the right-hand side. */
  function AssignExpr(localTys: seq<RustTy>, dest: Place, rv: Rvalue, st: MapState): (r: Result<(Expression, MapState)>)
    requires !IsCheckedBinary(rv)
    ensures r.Ok? ==> Grows(st, r.value.1)
  {
    match rv
    case Repeat(op, count) =>
      var (e, st1) :- OperandExpr(localTys, op, st);
      Ok((ArrayRepeat(Variable(dest.local, [Unwrap]), e, count), st1))
    case _ =>
      var (rhs, st1) :- RvalueExpr(localTys, rv, st);
      var (lhs, st2) :- PlaceExpr(localTys, dest, st1);
      Ok((Assignment(lhs, rhs), st2))
  }

  // The mutable side.

  /** Once a prefix of the projections fails, the whole walk fails. */
  lemma {:induction false} WalkPanics(localTy: RustTy, projs: seq<Projection>, j: nat, w0: Walk, st: MapState, asWritten: bool)
    requires j <= |projs| && WalkProjs(localTy, projs[..j], w0, st, asWritten).Panic?
    ensures WalkProjs(localTy, projs, w0, st, asWritten).Panic?
    decreases |projs| - j
  {
    if j < |projs| {
      assert projs[..j + 1][..j] == projs[..j];
      WalkPanics(localTy, projs, j + 1, w0, st, asWritten);
    } else {
      assert projs[..j] == projs;
    }
  }

  /** Walking one projection more is one more `ProjStep` after the walk of
      the shorter prefix. */
  lemma WalkProjsSnoc(localTy: RustTy, projs: seq<Projection>, i: nat, w0: Walk, st: MapState, asWritten: bool)
    requires i < |projs|
    ensures var prev := WalkProjs(localTy, projs[..i], w0, st, asWritten);
      WalkProjs(localTy, projs[..i + 1], w0, st, asWritten) ==
        if prev.Panic? then Panic(prev.reason)
        else ProjStep(if asWritten then localTy else prev.value.0.placeTy, prev.value.0, projs[i], prev.value.1)
  {
    assert projs[..i + 1][..i] == projs[..i];
  }

  /** One iteration of the projection loop of `handle_place`. */
  method ApplyProjection(cx: FunctionCx, w: Walk, p: Projection) returns (r: Result<Walk>)
    modifies cx, cx.ctx
    ensures Agrees(r, ProjStep(w.placeTy, w, p, old(cx.State())), cx.State())
    ensures OthersUnchanged(cx.ctx)
  {
    match p
    case FieldProj(f, ty) =>
      if w.ctype.Struct? || w.ctype.Union? {
        var name := FieldNameAt(cx.ctx.structs, w.ctype.info, f);
        if name.Panic? {
          return Panic(name.reason);
        }
        if name.value.None? {
          return Panic("called `Option::unwrap()` on a `None` value");
        }
        var t := cx.RustToCType(ty);
        if t.Panic? {
          return Panic(t.reason);
        }
        r := Ok(Walk(w.access + [Field(name.value.value)], t.value, ty));
      } else {
        r := Ok(w.(placeTy := ty));
      }
    case IndexProj(l) =>
      r := Ok(Walk(w.access + IndexSteps(w.ctype, Unbvari(l)), w.ctype, ElementTy(w.placeTy)));
    case ConstantIndexProj(o) =>
      r := Ok(Walk(w.access + IndexSteps(w.ctype, ConstInt(o)), w.ctype, ElementTy(w.placeTy)));
    case SubsliceProj =>
      r := Panic("not yet implemented: Subslice");
    case DowncastProj(v) =>
      if !w.ctype.TaggedUnion? {
        return Panic("Expected tagged union type");
      }
      var comp := CompositeAt(cx.ctx.structs, w.ctype.info);
      if comp.Panic? {
        return Panic(comp.reason);
      }
      var tu := comp.value.AsTaggedUnionDef();
      if tu.Panic? {
        return Panic(tu.reason);
      }
      var unionInfo := AsCompositeInfo(tu.value.unionVar.ty);
      if unionInfo.Panic? {
        return Panic(unionInfo.reason);
      }
      var unionComp := CompositeAt(cx.ctx.structs, unionInfo.value);
      if unionComp.Panic? {
        return Panic(unionComp.reason);
      }
      var unionDef := unionComp.value.AsStructDef();
      if unionDef.Panic? {
        return Panic(unionDef.reason);
      }
      if |unionDef.value.fields| <= v {
        return Panic("index out of bounds");
      }
      var member := unionDef.value.fields[v];
      r := Ok(Walk(w.access + [Field(UNION_NAME), Field(member.name)], member.ty, w.placeTy));
    case DerefProj =>
      var pointee := BuiltinDeref(w.placeTy);
      if pointee.None? {
        return Panic("called `Option::unwrap()` on a `None` value");
      }
      var next := cx.RustToCType(pointee.value);
      if next.Panic? {
        return Panic(next.reason);
      }
      var step := if w.ctype.FatPointer? then FatPtrDereference(next.value) else Dereference;
      r := Ok(Walk(w.access + [step], next.value, pointee.value));
    case OpaqueCastProj =>
      r := Ok(w);
    case OtherProj =>
      r := Ok(w);
  }

  /** `handle_place`: the variable with the walk's access steps. */
  method HandlePlace(cx: FunctionCx, localTys: seq<RustTy>, place: Place) returns (r: Result<Expression>)
    modifies cx, cx.ctx
    ensures Agrees(r, PlaceExpr(localTys, place, old(cx.State())), cx.State())
    ensures OthersUnchanged(cx.ctx)
  {
    var w := WalkPlace(cx, localTys, place);
    if w.Panic? {
      return Panic(w.reason);
    }
    r := Ok(Variable(place.local, w.value.access));
  }

  /** `handle_operand`. */
  method HandleOperand(cx: FunctionCx, localTys: seq<RustTy>, op: Operand) returns (r: Result<Expression>)
    modifies cx, cx.ctx
    ensures Agrees(r, OperandExpr(localTys, op, old(cx.State())), cx.State())
    ensures OthersUnchanged(cx.ctx)
  {
    match op
    case Copy(p) => r := HandlePlace(cx, localTys, p);
    case Move(p) => r := HandlePlace(cx, localTys, p);
    case ConstOperand(k) => r := Ok(ConstText(k));
  }

  /** `handle_operand_with_access`. */
  method HandleOperandWithAccess(cx: FunctionCx, localTys: seq<RustTy>, op: Operand, extra: seq<Access>)
    returns (r: Result<Expression>)
    modifies cx, cx.ctx
    ensures Agrees(r, OperandWithAccess(localTys, op, extra, old(cx.State())), cx.State())
    ensures OthersUnchanged(cx.ctx)
  {
    var e := HandleOperand(cx, localTys, op);
    if e.Panic? {
      return e;
    }
    r := Extend(e.value, extra);
  }

  /** `handle_cast`, for the numeric casts and transmutes. */
  method HandleCast(cx: FunctionCx, localTys: seq<RustTy>, kind: CastKind, op: Operand, target: RustTy)
    returns (r: Result<Expression>)
    modifies cx, cx.ctx
    ensures Agrees(r, CastExprOf(localTys, kind, op, target, old(cx.State())), cx.State())
    ensures OthersUnchanged(cx.ctx)
  {
    var tgt := cx.RustToCType(target);
    if tgt.Panic? {
      return Panic(tgt.reason);
    }
    match kind
    case Transmute =>
      if tgt.value.FatPointer? {
        r := HandleOperand(cx, localTys, op);
      } else {
        r := HandleOperandWithAccess(cx, localTys, op, [Reference, CastTo(Pointer(tgt.value))]);
      }
    case OtherCast =>
      r := Panic("Unhandled cast kind");
    case _ =>
      r := HandleOperandWithAccess(cx, localTys, op, [CastTo(tgt.value)]);
  }

  /** The body of `handle_place`: lower the local's type, then run the
      projection loop. */
  method WalkPlace(cx: FunctionCx, localTys: seq<RustTy>, place: Place) returns (r: Result<Walk>)
    modifies cx, cx.ctx
    ensures Agrees(r, PlaceWalk(localTys, place, old(cx.State()), false), cx.State())
    ensures OthersUnchanged(cx.ctx)
  {
    if |localTys| <= place.local {
      return Panic("local out of range");
    }
    var localTy := localTys[place.local];
    var t := cx.RustToCType(localTy);
    if t.Panic? {
      return Panic(t.reason);
    }
    ghost var st1 := cx.State();
    var w0 := Walk([], t.value, localTy);
    var w := w0;
    var i := 0;
    while i < |place.projs|
      invariant 0 <= i <= |place.projs|
      invariant WalkProjs(localTy, place.projs[..i], w0, st1, false) == Ok((w, cx.State()))
      invariant OthersUnchanged(cx.ctx)
    {
      WalkProjsSnoc(localTy, place.projs, i, w0, st1, false);
      var next := ApplyProjection(cx, w, place.projs[i]);
      if next.Panic? {
        WalkPanics(localTy, place.projs, i + 1, w0, st1, false);
        return Panic(next.reason);
      }
      w := next.value;
      i := i + 1;
    }
    assert place.projs[..i] == place.projs;
    r := Ok(w);
  }

  /** `handle_assign`, for the right-hand sides above. */
  method HandleAssign(cx: FunctionCx, localTys: seq<RustTy>, dest: Place, rv: Rvalue) returns (r: Result<Expression>)
    requires !IsCheckedBinary(rv)
    modifies cx, cx.ctx
    ensures Agrees(r, AssignExpr(localTys, dest, rv, old(cx.State())), cx.State())
    ensures OthersUnchanged(cx.ctx)
  {
    var rhs: Result<Expression>;
    match rv {
    case Repeat(op, count) =>
      var e := HandleOperand(cx, localTys, op);
      if e.Panic? {
        return e;
      }
      return Ok(ArrayRepeat(Variable(dest.local, [Unwrap]), e.value, count));
    case Use(op) =>
      rhs := HandleOperand(cx, localTys, op);
    case Binary(bop, left, right) =>
      var l := HandleOperand(cx, localTys, left);
      if l.Panic? {
        return l;
      }
      var rr := HandleOperand(cx, localTys, right);
      rhs := if rr.Ok? then Ok(BinaryOp(FromMir(bop), l.value, rr.value)) else rr;
    case Unary(uop, op, isBool) =>
      if uop.PtrMetadata? {
        rhs := Ok(NoOp);
      } else {
        var e := HandleOperand(cx, localTys, op);
        rhs := if e.Ok? then Ok(UnaryOp(if uop.MirNeg? then Neg else if isBool then Not else BitNot, e.value)) else e;
      }
    case Ref(p) =>
      var e := HandlePlace(cx, localTys, p);
      rhs := if e.Ok? then Ok(Variable(e.value.local, e.value.access + [Reference])) else e;
    case CopyForDeref(p) =>
      rhs := HandlePlace(cx, localTys, p);
    case Discriminant(p) =>
      var e := HandlePlace(cx, localTys, p);
      rhs := if e.Ok? then Ok(Variable(e.value.local, e.value.access + [Field(TAG_NAME)])) else e;
    case Len(p) =>
      var w := WalkPlace(cx, localTys, p);
      if w.Panic? {
        return Panic(w.reason);
      }
      if !w.value.placeTy.RSlice? {
        return Panic("Rvalue::Len not on slice");
      }
      rhs := Ok(Variable(p.local, LenAccess(w.value.access)));
    case Cast(kind, op, target) =>
      rhs := HandleCast(cx, localTys, kind, op, target);
    case OtherRvalue =>
      rhs := Ok(NoOp);
    }
    if rhs.Panic? {
      return rhs;
    }
    var lhs := HandlePlace(cx, localTys, dest);
    if lhs.Panic? {
      return lhs;
    }
    r := Ok(Assignment(lhs.value, rhs.value));
  }
}
