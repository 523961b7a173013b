/** What `handle_aggregate` promises: operands lowered in order, one
    element assignment per array element, the shape of union and tagged
    union literals, the fallbacks to a no-op, and that the member a tagged
    union literal fills is the one a downcast later reads. */
module AggregateProps {
  import opened Wrappers
  import opened Strings
  import opened Utils
  import opened Ty
  import opened Expr
  import opened Composite
  import opened Base
  import opened Stmt
  import opened TypeMapper
  import opened Place
  import opened Aggregate

  /** The operands are lowered in order: the first `i` expressions are the
      lowering of the first `i` operands, and expression `i` is operand `i`
      lowered in the state those left. */
  lemma {:induction false} OperandsInOrder(localTys: seq<RustTy>, ops: seq<Operand>, i: nat, st: MapState)
    requires i < |ops| && OperandsExpr(localTys, ops, st).Ok?
    ensures var es := OperandsExpr(localTys, ops, st).value.0;
      var pre := OperandsExpr(localTys, ops[..i], st);
      pre.Ok? && pre.value.0 == es[..i] &&
      OperandExpr(localTys, ops[i], pre.value.1).Ok? && OperandExpr(localTys, ops[i], pre.value.1).value.0 == es[i]
    decreases |ops|
  {
    var init := ops[..|ops| - 1];
    var es := OperandsExpr(localTys, ops, st).value.0;
    var esInit := OperandsExpr(localTys, init, st).value.0;
    assert es == esInit + [es[|ops| - 1]];
    if i < |ops| - 1 {
      OperandsInOrder(localTys, init, i, st);
      assert init[..i] == ops[..i];
      assert es[..i] == esInit[..i];
    }
  }

  /** Constants need no state: a list of constant operands lowers to their
      texts, in order, and changes nothing. */
  lemma {:induction false} ConstantOperands(localTys: seq<RustTy>, ops: seq<Operand>, st: MapState)
    requires forall i :: 0 <= i < |ops| ==> ops[i].ConstOperand?
    ensures var r := OperandsExpr(localTys, ops, st);
      r.Ok? && r.value.1 == st && forall i :: 0 <= i < |ops| ==> r.value.0[i] == ConstText(ops[i].k)
  {
    if |ops| > 0 {
      var init := ops[..|ops| - 1];
      ConstantOperands(localTys, init, st);
      var es := OperandsExpr(localTys, init, st).value.0;
      var last := ConstText(ops[|ops| - 1].k);
      assert OperandsExpr(localTys, ops, st) == Ok((es + [last], st)) by {
        assert OperandExpr(localTys, ops[|ops| - 1], st) == Ok((last, st));
      }
      forall i | 0 <= i < |ops|
        ensures (es + [last])[i] == ConstText(ops[i].k)
      {
        if i < |init| {
          assert (es + [last])[i] == es[i] && init[i] == ops[i];
        }
      }
    }
  }

  /** The array branch assigns element `i` of the local the lowering of
      operand `i`, for every `i`; it fails exactly when an operand does. */
  lemma {:induction false} ArrayAssignmentsIndexed(localTys: seq<RustTy>, local: nat, ops: seq<Operand>, st: MapState)
    ensures ArrayAssignments(localTys, local, ops, st).Ok? <==> OperandsExpr(localTys, ops, st).Ok?
    ensures ArrayAssignments(localTys, local, ops, st).Ok? ==>
      var (assigns, st1) := ArrayAssignments(localTys, local, ops, st).value;
      var (es, st2) := OperandsExpr(localTys, ops, st).value;
      st1 == st2 && forall i :: 0 <= i < |ops| ==> assigns[i] == Assignment(ArrVari(local, i), es[i])
  {
    if |ops| > 0 {
      var init := ops[..|ops| - 1];
      ArrayAssignmentsIndexed(localTys, local, init, st);
      var ra := ArrayAssignments(localTys, local, init, st);
      var ro := OperandsExpr(localTys, init, st);
      if ra.Ok? {
        var (assigns, st1) := ra.value;
        var es := ro.value.0;
        var last := OperandExpr(localTys, ops[|ops| - 1], st1);
        if last.Ok? {
          var all := assigns + [Assignment(ArrVari(local, |ops| - 1), last.value.0)];
          var esAll := es + [last.value.0];
          assert ArrayAssignments(localTys, local, ops, st) == Ok((all, last.value.1));
          assert OperandsExpr(localTys, ops, st) == Ok((esAll, last.value.1)) by {
            assert ro.value.1 == st1;
          }
          forall i | 0 <= i < |ops|
            ensures all[i] == Assignment(ArrVari(local, i), esAll[i])
          {
            if i < |init| {
              assert all[i] == assigns[i] && esAll[i] == es[i];
            }
          }
        }
      }
    }
  }

  /** A tuple into a struct-typed local, and a struct ADT, assign the
      struct's positional literal, named by the struct, holding the operands
      in order; the destination place is resolved after them. */
  lemma StructLiteral(localTys: seq<RustTy>, localCTys: seq<CType>, dest: Place, kind: AggregateKind, ops: seq<Operand>, st: MapState)
    requires KindInRange(kind) && (kind.TupleAgg? || kind.AdtAgg?)
    requires dest.local < |localTys| && dest.local < |localCTys| && localCTys[dest.local].Struct?
    ensures var r := AggregateExpr(localTys, localCTys, dest, kind, ops, st);
      r.Ok? <==> OperandsExpr(localTys, ops, st).Ok? && PlaceExpr(localTys, dest, OperandsExpr(localTys, ops, st).value.1).Ok?
    ensures var r := AggregateExpr(localTys, localCTys, dest, kind, ops, st);
      r.Ok? ==>
        var (es, st1) := OperandsExpr(localTys, ops, st).value;
        r.value == (Assignment(PlaceExpr(localTys, dest, st1).value.0, StructLit(Constant(localCTys[dest.local].info.name), es)),
                    PlaceExpr(localTys, dest, st1).value.1) &&
        |es| == |ops|
  {
  }

  /** A tuple into a local that is not a struct needs exactly one operand,
      which is assigned as it is. */
  lemma UnboxedTuple(localTys: seq<RustTy>, localCTys: seq<CType>, dest: Place, ops: seq<Operand>, st: MapState)
    requires dest.local < |localTys| && dest.local < |localCTys| && !localCTys[dest.local].Struct?
    ensures |ops| != 1 ==> AggregateExpr(localTys, localCTys, dest, TupleAgg, ops, st).Panic?
    ensures AggregateExpr(localTys, localCTys, dest, TupleAgg, ops, st).Ok? ==>
      var r := AggregateExpr(localTys, localCTys, dest, TupleAgg, ops, st).value.0;
      |ops| == 1 && OperandExpr(localTys, ops[0], st).Ok? &&
      r.Assignment? && r.rhs == OperandExpr(localTys, ops[0], st).value.0 && r.lhs.Variable? && r.lhs.local == dest.local
  {
  }

  /** An array aggregate is the list of element assignments, one per
      operand and in index order, and the destination place itself is not
      resolved. */
  lemma ArrayAggregate(localTys: seq<RustTy>, localCTys: seq<CType>, dest: Place, ops: seq<Operand>, st: MapState)
    requires dest.local < |localTys| && dest.local < |localCTys|
    ensures AggregateExpr(localTys, localCTys, dest, ArrayAgg, ops, st).Ok? <==> OperandsExpr(localTys, ops, st).Ok?
    ensures AggregateExpr(localTys, localCTys, dest, ArrayAgg, ops, st).Ok? ==>
      var (e, st1) := AggregateExpr(localTys, localCTys, dest, ArrayAgg, ops, st).value;
      var (es, st2) := OperandsExpr(localTys, ops, st).value;
      st1 == st2 && e.ArrayExpr? && |e.elems| == |ops| &&
      forall i :: 0 <= i < |ops| ==> e.elems[i] == Assignment(ArrVari(dest.local, i), es[i])
  {
    ArrayAssignmentsIndexed(localTys, dest.local, ops, st);
  }

  /** A union literal holds nothing for no operand, the active field for
      one, and more than one operand aborts. */
  lemma UnionLiteral(localTys: seq<RustTy>, localCTys: seq<CType>, dest: Place, v: nat, active: Option<nat>,
                     discr: Option<Discr>, ops: seq<Operand>, st: MapState)
    requires KindInRange(AdtAgg(v, active, discr))
    requires dest.local < |localTys| && dest.local < |localCTys| && localCTys[dest.local].Union?
    ensures var r := AggregateExpr(localTys, localCTys, dest, AdtAgg(v, active, discr), ops, st);
      var info := localCTys[dest.local].info;
      r.Ok? ==>
        info.ctxIdx < |st.structs| && !st.structs[info.ctxIdx].TaggedUnionDef? &&
        var def := st.structs[info.ctxIdx].def;
        active.Some? && active.value < |def.fields| && |ops| <= 1 &&
        r.value.0.Assignment? && r.value.0.rhs.NamedStructLit? && r.value.0.rhs.name == Constant(def.name) &&
        (|ops| == 0 ==> r.value.0.rhs.named == []) &&
        (|ops| == 1 ==>
           OperandExpr(localTys, ops[0], st).Ok? &&
           r.value.0.rhs.named == [(def.fields[active.value].name, OperandExpr(localTys, ops[0], st).value.0)])
    ensures var info := localCTys[dest.local].info;
      info.ctxIdx < |st.structs| && !st.structs[info.ctxIdx].TaggedUnionDef? &&
      active.Some? && active.value < |st.structs[info.ctxIdx].def.fields| && |ops| > 1 ==>
      AggregateExpr(localTys, localCTys, dest, AdtAgg(v, active, discr), ops, st).Panic?
  {
  }

  /** A tagged-union literal is the outer struct of exactly two elements:
      the discriminant cut to the tag's width, then the wrapper union holding
      only the selected variant's member, which is the variant struct's
      literal of the operands. Without a discriminant it aborts. */
  lemma TaggedUnionLiteral(localTys: seq<RustTy>, dest: Place, info: CCompositeInfo, v: nat, discr: Option<Discr>,
                           ops: seq<Operand>, st: MapState)
    requires discr.Some? ==> discr.value.val < Pow2(128)
    ensures discr.None? ==> TaggedUnionAssign(localTys, dest, info, v, discr, ops, st).Panic?
    ensures TaggedUnionAssign(localTys, dest, info, v, discr, ops, st).Ok? ==>
      var e := TaggedUnionAssign(localTys, dest, info, v, discr, ops, st).value.0;
      var (es, st1) := OperandsExpr(localTys, ops, st).value;
      var parts := VariantOf(st1.structs, info, v).value;
      var d := discr.value;
      VariantOf(st1.structs, info, v).Ok? && |es| == |ops| && d.bytes < 16 &&
      e.Assignment? && e.rhs == StructLit(Constant(parts.outer), e.rhs.fields) && |e.rhs.fields| == 2 &&
      e.rhs.fields[0] == Constant(NatToString(d.val % Pow2(8 * d.bytes))) &&
      e.rhs.fields[1] == NamedStructLit(Constant(parts.union), [(parts.member, StructLit(Constant(parts.variantStruct), es))])
  {
  }

  /** A discriminant that fits the tag is written unchanged. */
  lemma TagOfFittingDiscr(d: Discr)
    requires d.val < Pow2(8 * d.bytes) && d.bytes < 16
    ensures d.val < Pow2(128) && TagText(d) == Ok(NatToString(d.val))
  {
    Pow2Monotone(8 * d.bytes, 128);
    ModUnique(d.val, Pow2(8 * d.bytes), 0, d.val);
  }

  /** An ADT local that is not a struct, union or tagged union, and an
      aggregate kind the back end does not handle, give a no-op and change
      nothing. */
  lemma NoOpFallbacks(localTys: seq<RustTy>, localCTys: seq<CType>, dest: Place, kind: AggregateKind, ops: seq<Operand>, st: MapState)
    requires KindInRange(kind) && dest.local < |localTys| && dest.local < |localCTys|
    requires kind.OtherAgg? || (kind.AdtAgg? && !(localCTys[dest.local].Struct? || localCTys[dest.local].Union? || localCTys[dest.local].TaggedUnion?))
    ensures AggregateExpr(localTys, localCTys, dest, kind, ops, st) == Ok((NoOp, st))
  {
  }

  /** A closure assigns its captures positionally into the struct its
      upvar tuple lowers to, and aborts when that is not a struct. */
  lemma ClosureLiteral(localTys: seq<RustTy>, localCTys: seq<CType>, dest: Place, upvars: RustTy, ops: seq<Operand>, st: MapState)
    requires dest.local < |localTys| && dest.local < |localCTys| && Lower(upvars, st).Ok?
    ensures var (t, st1) := Lower(upvars, st).value;
      !t.Struct? ==> AggregateExpr(localTys, localCTys, dest, ClosureAgg(upvars), ops, st).Panic?
    ensures var (t, st1) := Lower(upvars, st).value;
      t.Struct? ==> AggregateExpr(localTys, localCTys, dest, ClosureAgg(upvars), ops, st) == StructAssign(localTys, dest, t.info.name, ops, st1)
  {
  }

  /** The writer and the reader agree: the member a tagged-union literal
      fills for variant `v` is the member a downcast to `v` of that tagged
      union reads, through the wrapper union. */
  lemma DowncastReadsLiteralMember(structs: seq<CComposite>, info: CCompositeInfo, v: nat, w: Walk, b: RustTy, st: MapState)
    requires VariantOf(structs, info, v).Ok? && st.structs == structs && w.ctype == TaggedUnion(info)
    ensures var r := ProjStep(b, w, DowncastProj(v), st);
      r.Ok? && r.value.1 == st &&
      r.value.0.access == w.access + [Field(UNION_NAME), Field(VariantOf(structs, info, v).value.member)]
  {
  }
}
