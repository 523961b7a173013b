/** What the place resolver promises: per projection, the access steps it
    appends and the type it moves to; over a whole place, that steps are
    only ever appended; and for operands and right-hand sides, where the
    extra steps go. */
module PlaceProps {
  import opened Wrappers
  import opened Strings
  import opened Ty
  import opened Expr
  import opened FatPtr
  import opened Composite
  import opened Base
  import opened Stmt
  import opened TypeMapper
  import TypeMapperProps
  import opened Place
  import Mir

  /** A field projection on a struct or union appends the name of field
      `f` as registered and moves to the lowered field type; on any other
      type it appends nothing and keeps the C type. */
  lemma FieldProjection(b: RustTy, w: Walk, f: nat, ty: RustTy, st: MapState)
    ensures !(w.ctype.Struct? || w.ctype.Union?) ==> ProjStep(b, w, FieldProj(f, ty), st) == Ok((w.(placeTy := ty), st))
    ensures (w.ctype.Struct? || w.ctype.Union?) && ProjStep(b, w, FieldProj(f, ty), st).Ok? ==>
      var (w1, st1) := ProjStep(b, w, FieldProj(f, ty), st).value;
      var idx := w.ctype.info.ctxIdx;
      idx < |st.structs| && !st.structs[idx].TaggedUnionDef? && f < |st.structs[idx].def.fields| &&
      w1.access == w.access + [Field(st.structs[idx].def.fields[f].name)] &&
      Lower(ty, st) == Ok((w1.ctype, st1))
  {
  }

  /** An index, by a local or by a constant offset, appends the index step,
      preceded by `Unwrap` exactly when the place is an array's wrapper
      struct; the C type and the state stay as they are. */
  lemma IndexProjection(b: RustTy, w: Walk, p: Projection, st: MapState)
    requires p.IndexProj? || p.ConstantIndexProj?
    ensures ProjStep(b, w, p, st).Ok?
    ensures var (w1, st1) := ProjStep(b, w, p, st).value;
      var idx := if p.IndexProj? then Unbvari(p.indexLocal) else ConstInt(p.offset);
      st1 == st && w1.ctype == w.ctype &&
      w1.access == w.access + (if w.ctype.Struct? then [Unwrap, Index(idx)] else [Index(idx)])
  {
  }

  /** A downcast of a tagged union appends exactly two field steps, the
      union member and then the variant's member, and moves to the
      variant's type; a downcast of anything else aborts. */
  lemma DowncastProjection(b: RustTy, w: Walk, v: nat, st: MapState)
    ensures !w.ctype.TaggedUnion? ==> ProjStep(b, w, DowncastProj(v), st).Panic?
    ensures ProjStep(b, w, DowncastProj(v), st).Ok? ==>
      var (w1, st1) := ProjStep(b, w, DowncastProj(v), st).value;
      w.ctype.TaggedUnion? && w.ctype.info.ctxIdx < |st.structs| &&
      st.structs[w.ctype.info.ctxIdx].TaggedUnionDef? &&
      var tu := st.structs[w.ctype.info.ctxIdx].tdef;
      tu.unionVar.ty.IsComposite() && tu.unionVar.ty.info.ctxIdx < |st.structs| &&
      var u := st.structs[tu.unionVar.ty.info.ctxIdx];
      !u.TaggedUnionDef? && v < |u.def.fields| &&
      w1.access == w.access + [Field(UNION_NAME), Field(u.def.fields[v].name)] &&
      w1.ctype == u.def.fields[v].ty && st1 == st
  {
  }

  /** A dereference appends one step: a fat-pointer dereference to the
      pointee's C type when the place is a fat pointer, a plain one
      otherwise. It aborts when the type read has no pointee. */
  lemma DerefProjection(b: RustTy, w: Walk, st: MapState)
    ensures BuiltinDeref(b).None? ==> ProjStep(b, w, DerefProj, st).Panic?
    ensures ProjStep(b, w, DerefProj, st).Ok? ==>
      var (w1, st1) := ProjStep(b, w, DerefProj, st).value;
      BuiltinDeref(b).Some? && Lower(BuiltinDeref(b).value, st) == Ok((w1.ctype, st1)) &&
      w1.access == w.access + [if w.ctype.FatPointer? then FatPtrDereference(w1.ctype) else Dereference]
  {
  }

  /** The projection loop only appends: the steps it starts from stay a
      prefix, and each projection adds at most two. */
  lemma {:induction false} WalkOnlyAppends(localTy: RustTy, projs: seq<Projection>, w0: Walk, st: MapState, asWritten: bool)
    requires WalkProjs(localTy, projs, w0, st, asWritten).Ok?
    ensures var w := WalkProjs(localTy, projs, w0, st, asWritten).value.0;
      w0.access <= w.access && |w.access| <= |w0.access| + 2 * |projs|
  {
    if |projs| > 0 {
      WalkOnlyAppends(localTy, projs[..|projs| - 1], w0, st, asWritten);
    }
  }

  /** The projection loop is a fold: walking `a + b` is walking `a`, then
      walking `b` from where `a` ended. */
  lemma {:induction false} WalkConcat(localTy: RustTy, a: seq<Projection>, b: seq<Projection>, w0: Walk, st: MapState, asWritten: bool)
    ensures WalkProjs(localTy, a + b, w0, st, asWritten) ==
      (var ra := WalkProjs(localTy, a, w0, st, asWritten);
       if ra.Panic? then Panic(ra.reason) else WalkProjs(localTy, b, ra.value.0, ra.value.1, asWritten))
    decreases |b|
  {
    if |b| == 0 {
      assert a + b == a;
    } else {
      var b' := b[..|b| - 1];
      assert (a + b)[..|a + b| - 1] == a + b';
      assert (a + b)[|a + b| - 1] == b[|b| - 1];
      WalkConcat(localTy, a, b', w0, st, asWritten);
    }
  }

  /** `handle_operand_with_access` keeps the operand's own steps and puts
      the new ones after them; a constant operand aborts. */
  lemma OperandWithAccessAppends(localTys: seq<RustTy>, op: Operand, extra: seq<Access>, st: MapState)
    ensures op.ConstOperand? ==> OperandWithAccess(localTys, op, extra, st).Panic?
    ensures !op.ConstOperand? ==>
      (OperandWithAccess(localTys, op, extra, st).Ok? <==> PlaceExpr(localTys, op.place, st).Ok?)
    ensures OperandWithAccess(localTys, op, extra, st).Ok? ==>
      var (e, st1) := PlaceExpr(localTys, op.place, st).value;
      OperandWithAccess(localTys, op, extra, st) == Ok((Variable(op.place.local, e.access + extra), st1))
  {
  }

  /** A reference appends `Reference` to the place's steps; a
      discriminant read appends the tag field. */
  lemma RefAndDiscriminantSteps(localTys: seq<RustTy>, p: Place, st: MapState)
    ensures RvalueExpr(localTys, Ref(p), st).Ok? <==> PlaceExpr(localTys, p, st).Ok?
    ensures RvalueExpr(localTys, Discriminant(p), st).Ok? <==> PlaceExpr(localTys, p, st).Ok?
    ensures PlaceExpr(localTys, p, st).Ok? ==>
      var (e, st1) := PlaceExpr(localTys, p, st).value;
      RvalueExpr(localTys, Ref(p), st) == Ok((Variable(p.local, e.access + [Reference]), st1)) &&
      RvalueExpr(localTys, Discriminant(p), st) == Ok((Variable(p.local, e.access + [Field(TAG_NAME)]), st1))
  {
  }

  /** A binary operation without overflow check lowers its left operand,
      then its right one, and joins them with the operator MIR's `BinOp`
      maps to. */
  lemma BinarySteps(localTys: seq<RustTy>, bop: Mir.MirBinOp, left: Operand, right: Operand, st: MapState)
    requires !FromMir(bop).IsChecked()
    ensures var r := RvalueExpr(localTys, Binary(bop, left, right), st);
      var l := OperandExpr(localTys, left, st);
      r.Ok? <==> l.Ok? && OperandExpr(localTys, right, l.value.1).Ok?
    ensures var r := RvalueExpr(localTys, Binary(bop, left, right), st);
      r.Ok? ==>
        var (le, st1) := OperandExpr(localTys, left, st).value;
        var (re, st2) := OperandExpr(localTys, right, st1).value;
        r.value == (BinaryOp(FromMir(bop), le, re), st2)
  {
  }

  /** `!` is the logical not on a `bool` and the bitwise not otherwise,
      `-` is negation, and a pointer-metadata read lowers to nothing. */
  lemma UnarySteps(localTys: seq<RustTy>, uop: MirUnOp, op: Operand, isBool: bool, st: MapState)
    ensures uop.PtrMetadata? ==> RvalueExpr(localTys, Unary(uop, op, isBool), st) == Ok((NoOp, st))
    ensures !uop.PtrMetadata? ==>
      (RvalueExpr(localTys, Unary(uop, op, isBool), st).Ok? <==> OperandExpr(localTys, op, st).Ok?)
    ensures RvalueExpr(localTys, Unary(uop, op, isBool), st).Ok? && !uop.PtrMetadata? ==>
      var (e, st1) := OperandExpr(localTys, op, st).value;
      var u := if uop.MirNeg? then Neg else if isBool then Not else BitNot;
      RvalueExpr(localTys, Unary(uop, op, isBool), st) == Ok((UnaryOp(u, e), st1)) &&
      (u == Not <==> uop.MirNot? && isBool)
  {
  }

  /** An assignment of a right-hand side that lowers to nothing becomes a
      bare `NoOp` statement once `handle_stmt` collapses it. */
  lemma UnloweredAssignmentCollapses(localTys: seq<RustTy>, dest: Place, rv: Rvalue, st: MapState)
    requires rv.OtherRvalue? || (rv.Unary? && rv.uop.PtrMetadata?)
    requires PlaceExpr(localTys, dest, st).Ok?
    ensures AssignExpr(localTys, dest, rv, st).Ok?
    ensures HandleStmt(AssignStmt(AssignExpr(localTys, dest, rv, st).value.0), "").expression == Some(NoOp)
  {
  }

  /** A numeric cast appends one cast step to the lowered target type; a
      transmute to a fat pointer is the operand unchanged, and any other
      transmute appends a reference and a cast to a pointer to the target. */
  lemma CastSteps(localTys: seq<RustTy>, kind: CastKind, op: Operand, target: RustTy, st: MapState)
    requires Lower(target, st).Ok?
    ensures var (tgt, st1) := Lower(target, st).value;
      CastExprOf(localTys, kind, op, target, st) ==
        if kind == OtherCast then Panic("Unhandled cast kind")
        else if kind == Transmute && tgt.FatPointer? then OperandExpr(localTys, op, st1)
        else if kind == Transmute then OperandWithAccess(localTys, op, [Reference, CastTo(Pointer(tgt))], st1)
        else OperandWithAccess(localTys, op, [CastTo(tgt)], st1)
  {
  }

  /** Dereferencing a reference to a slice reaches the slice through a
      fat-pointer dereference; only the memo grows. */
  lemma DerefSliceReference(elem: RustTy, st: MapState)
    requires RRef(RSlice(elem), false) !in st.memo && RSlice(elem) !in st.memo
    ensures var r := PlaceWalk([RRef(RSlice(elem), false)], Place(0, [DerefProj]), st, false);
      r.Ok? && r.value.0 == Walk([FatPtrDereference(FatPointer)], FatPointer, RSlice(elem)) && r.value.1.structs == st.structs
  {
    var ref := RRef(RSlice(elem), false);
    var st1 := st.(memo := st.memo[ref := FatPointer]);
    var st2 := st1.(memo := st1.memo[RSlice(elem) := FatPointer]);
    var w0 := Walk([], FatPointer, ref);
    var w1 := Walk([FatPtrDereference(FatPointer)], FatPointer, RSlice(elem));
    assert Lower(ref, st) == Ok((FatPointer, st1)) by {
      assert LowerInternal(ref, st) == Ok((FatPointer, st));
    }
    assert ProjStep(ref, w0, DerefProj, st1) == Ok((w1, st2)) by {
      assert RSlice(elem) !in st1.memo;
      assert LowerInternal(RSlice(elem), st1) == Ok((FatPointer, st1));
      assert Lower(RSlice(elem), st1) == Ok((FatPointer, st2));
      assert w0.access + [FatPtrDereference(FatPointer)] == w1.access;
    }
    assert WalkProjs(ref, [DerefProj], w0, st1, false) == Ok((w1, st2)) by {
      assert [DerefProj][..0] == [];
      assert WalkProjs(ref, [], w0, st1, false) == Ok((w0, st1));
    }
  }

  /** The length of a slice behind a reference: the fat-pointer dereference
      the place ends with is replaced by a read of `meta` as `uint64_t`,
      and nothing is registered. */
  lemma LenOfSliceReference(elem: RustTy, st: MapState)
    requires RRef(RSlice(elem), false) !in st.memo && RSlice(elem) !in st.memo
    ensures var localTys := [RRef(RSlice(elem), false)];
      var p := Place(0, [DerefProj]);
      RvalueExpr(localTys, Len(p), st).Ok? &&
      RvalueExpr(localTys, Len(p), st).value.0 == Variable(0, [Field(FAT_PTR_META_FIELD), CastTo(UInt(UInt64))]) &&
      RvalueExpr(localTys, Len(p), st).value.1.structs == st.structs
  {
    DerefSliceReference(elem, st);
    assert LenAccess([FatPtrDereference(FatPointer)]) == [Field(FAT_PTR_META_FIELD), CastTo(UInt(UInt64))];
  }

  /** As written, every dereference reads the pointee of the local's own
      type: when the local is neither a reference nor a raw pointer, any
      place that dereferences at all aborts, whatever the projections
      before the dereference reach. */
  lemma DerefOfNonPointerLocalAsWritten(localTys: seq<RustTy>, place: Place, j: nat, st: MapState)
    requires place.local < |localTys| && BuiltinDeref(localTys[place.local]).None?
    requires j < |place.projs| && place.projs[j] == DerefProj
    ensures PlaceExprAsWritten(localTys, place, st).Panic?
  {
    var localTy := localTys[place.local];
    var lowered := Lower(localTy, st);
    if lowered.Ok? {
      var (t, st1) := lowered.value;
      var w0 := Walk([], t, localTy);
      WalkProjsSnoc(localTy, place.projs, j, w0, st1, true);
      WalkPanics(localTy, place.projs, j + 1, w0, st1, true);
    }
  }

  /** `&i32` from an empty state lowers to a pointer to `int32_t`,
      memoising `i32` and then the reference. */
  lemma RefI32Lowering()
    ensures var i32 := RInt(Some(32));
      Lower(RRef(i32, true), MapState(map[], [])) ==
        Ok((Pointer(Int(Int32)), MapState(map[i32 := Int(Int32), RRef(i32, true) := Pointer(Int(Int32))], [])))
  {
    var i32 := RInt(Some(32));
    var st0 := MapState(map[], []);
    assert Lower(i32, st0) == Ok((Int(Int32), st0.(memo := map[i32 := Int(Int32)]))) by {
      assert LowerInternal(i32, st0) == Ok((Int(Int32), st0));
    }
    assert LowerInternal(RRef(i32, true), st0) == Ok((Pointer(Int(Int32)), st0.(memo := map[i32 := Int(Int32)])));
  }

  /** `u8` after `&i32`: `uint8_t`, memoised beside the two entries. */
  lemma U8AfterRefLowering()
    ensures var i32 := RInt(Some(32));
      var st := MapState(map[i32 := Int(Int32), RRef(i32, true) := Pointer(Int(Int32))], []);
      Lower(RUint(Some(8)), st) == Ok((UInt(UInt8), st.(memo := st.memo[RUint(Some(8)) := UInt(UInt8)])))
  {
    var i32 := RInt(Some(32));
    var st := MapState(map[i32 := Int(Int32), RRef(i32, true) := Pointer(Int(Int32))], []);
    assert RUint(Some(8)) !in st.memo;
    assert LowerInternal(RUint(Some(8)), st) == Ok((UInt(UInt8), st));
  }

  /** The element types of `(&i32, u8)` lower, left to right, to a pointer
      to `int32_t` and `uint8_t`, registering nothing. */
  lemma RefTupleElementsLowering()
    ensures var i32 := RInt(Some(32));
      var ref := RRef(i32, true);
      var u8 := RUint(Some(8));
      LowerSeq([ref, u8], MapState(map[], [])) ==
        Ok(([Pointer(Int(Int32)), UInt(UInt8)], MapState(map[i32 := Int(Int32), ref := Pointer(Int(Int32)), u8 := UInt(UInt8)], [])))
  {
    var i32 := RInt(Some(32));
    var ref := RRef(i32, true);
    var u8 := RUint(Some(8));
    var st0 := MapState(map[], []);
    var st2 := MapState(map[i32 := Int(Int32), ref := Pointer(Int(Int32))], []);
    RefI32Lowering();
    U8AfterRefLowering();
    assert LowerSeq([ref], st0) == Ok(([Pointer(Int(Int32))], st2)) by {
      assert [ref][..0] == [];
      assert [] + [Pointer(Int(Int32))] == [Pointer(Int(Int32))];
    }
    assert [ref, u8][..1] == [ref];
    assert [Pointer(Int(Int32))] + [UInt(UInt8)] == [Pointer(Int(Int32)), UInt(UInt8)];
  }

  /** The tuple `(&i32, u8)` from an empty state: one struct is registered,
      its first field is `field_0`, and the memo keeps `&i32` as a pointer
      to `int32_t` and `i32` as `int32_t`. */
  lemma RefTupleLowering()
    ensures var i32 := RInt(Some(32));
      var r := Lower(RTuple([RRef(i32, true), RUint(Some(8))]), MapState(map[], []));
      r.Ok? && r.value.0.Struct? && r.value.0.info.ctxIdx == 0 &&
      |r.value.1.structs| == 1 && r.value.1.structs[0].StructDef? &&
      |r.value.1.structs[0].def.fields| == 2 &&
      r.value.1.structs[0].def.fields[0].name == "field_0" &&
      RRef(i32, true) in r.value.1.memo && r.value.1.memo[RRef(i32, true)] == Pointer(Int(Int32)) &&
      i32 in r.value.1.memo && r.value.1.memo[i32] == Int(Int32)
  {
    var elems := [RRef(RInt(Some(32)), true), RUint(Some(8))];
    var st0 := MapState(map[], []);
    RefTupleElementsLowering();
    assert Lower(RTuple(elems), st0).Ok? by {
      assert LowerInternal(RTuple(elems), st0) == LowerTuple(RTuple(elems), st0);
    }
    TypeMapperProps.TupleRegistersOneStruct(elems, st0);
    assert NatToString(0) == "0";
  }

  /** With dereferences read from the type reached, the same place resolves:
      the tuple's first field, then a plain dereference of that pointer. */
  lemma DerefAfterTupleFieldResolves()
    ensures var localTys := [RTuple([RRef(RInt(Some(32)), true), RUint(Some(8))])];
      var p := Place(0, [FieldProj(0, RRef(RInt(Some(32)), true)), DerefProj]);
      var r := PlaceExpr(localTys, p, MapState(map[], []));
      r.Ok? && r.value.0 == Variable(0, [Field("field_0"), Dereference])
  {
    var i32 := RInt(Some(32));
    var ref := RRef(i32, true);
    var tup := RTuple([ref, RUint(Some(8))]);
    var projs := [FieldProj(0, ref), DerefProj];
    RefTupleLowering();
    var (t, st1) := Lower(tup, MapState(map[], [])).value;
    var w0 := Walk([], t, tup);
    var w1 := Walk([Field("field_0")], Pointer(Int(Int32)), ref);
    var w2 := Walk([Field("field_0"), Dereference], Int(Int32), i32);
    assert ProjStep(tup, w0, FieldProj(0, ref), st1) == Ok((w1, st1)) by {
      assert FieldNameAt(st1.structs, t.info, 0) == Ok(Some("field_0"));
      assert Lower(ref, st1) == Ok((Pointer(Int(Int32)), st1));
      assert w0.access + [Field("field_0")] == w1.access;
    }
    assert ProjStep(ref, w1, DerefProj, st1) == Ok((w2, st1)) by {
      assert BuiltinDeref(ref) == Some(i32);
      assert Lower(i32, st1) == Ok((Int(Int32), st1));
      assert w1.access + [Dereference] == w2.access;
    }
    assert WalkProjs(tup, projs, w0, st1, false) == Ok((w2, st1)) by {
      assert projs[..1] == [FieldProj(0, ref)] && projs[..1][..0] == [];
      assert WalkProjs(tup, [], w0, st1, false) == Ok((w0, st1));
      assert WalkProjs(tup, projs[..1], w0, st1, false) == Ok((w1, st1));
    }
  }

  /** As written, the same place aborts: the dereference reads the pointee
      of the tuple itself, which has none. */
  lemma DerefAfterTupleFieldAsWritten()
    ensures var localTys := [RTuple([RRef(RInt(Some(32)), true), RUint(Some(8))])];
      var p := Place(0, [FieldProj(0, RRef(RInt(Some(32)), true)), DerefProj]);
      PlaceExprAsWritten(localTys, p, MapState(map[], [])).Panic?
  {
    var localTys := [RTuple([RRef(RInt(Some(32)), true), RUint(Some(8))])];
    DerefOfNonPointerLocalAsWritten(localTys, Place(0, [FieldProj(0, RRef(RInt(Some(32)), true)), DerefProj]), 1, MapState(map[], []));
  }

  /** Only a dereference reads the deref base. */
  lemma ProjStepIgnoresBase(a: RustTy, b: RustTy, w: Walk, p: Projection, st: MapState)
    requires !p.DerefProj?
    ensures ProjStep(a, w, p, st) == ProjStep(b, w, p, st)
  {
  }

  /** When a dereference can stand only as the first projection, the walk
      that reads the type reached and the walk as written agree. */
  lemma {:induction false} WalkAgreesWithoutLateDeref(localTy: RustTy, projs: seq<Projection>, w0: Walk, st: MapState)
    requires w0.placeTy == localTy
    requires forall i :: 0 < i < |projs| ==> !projs[i].DerefProj?
    ensures WalkProjs(localTy, projs, w0, st, false) == WalkProjs(localTy, projs, w0, st, true)
  {
    if |projs| > 0 {
      var init := projs[..|projs| - 1];
      var last := projs[|projs| - 1];
      WalkAgreesWithoutLateDeref(localTy, init, w0, st);
      var prev := WalkProjs(localTy, init, w0, st, false);
      if prev.Ok? {
        var (w, st1) := prev.value;
        if |projs| == 1 {
          assert init == [];
          assert w == w0;
        } else {
          ProjStepIgnoresBase(w.placeTy, localTy, w, last, st1);
        }
      }
    }
  }

  /** A place whose only dereference, if any, is its first projection
      resolves the same under both walks: the corrected `PlaceExpr`
      diverges from `handle_place` as written only on a later `Deref`. */
  lemma PlaceExprAgreesWithoutLateDeref(localTys: seq<RustTy>, p: Place, st: MapState)
    requires forall i :: 0 < i < |p.projs| ==> !p.projs[i].DerefProj?
    ensures PlaceExpr(localTys, p, st) == PlaceExprAsWritten(localTys, p, st)
  {
    if p.local < |localTys| {
      var localTy := localTys[p.local];
      var low := Lower(localTy, st);
      if low.Ok? {
        var (t, st1) := low.value;
        WalkAgreesWithoutLateDeref(localTy, p.projs, Walk([], t, localTy), st1);
      }
    }
  }
}
