/** header.rs `handle_checked_op`: a checked operation becomes a call to a
    helper `checked_<op>_<type>` returning the (result, overflow) pair. The
    helper is built and appended to the context's header functions the first
    time its name is asked for, and reused afterwards. */
module CheckedOp {
  import opened Wrappers
  import opened Ty
  import opened Expr
  import opened Header
  import opened Base

  /** How many header functions carry the name. */
  function CountNamed(fns: seq<HeaderFn>, name: string): (r: nat)
    ensures r <= |fns|
  {
    if |fns| == 0 then 0
    else CountNamed(fns[..|fns| - 1], name) + (if fns[|fns| - 1].name == name then 1 else 0)
  }

  /** A name is present exactly when it is counted at least once. */
  lemma {:induction false} CountNamedPositive(fns: seq<HeaderFn>, name: string)
    ensures CountNamed(fns, name) > 0 <==> HasHeaderFn(fns, name)
  {
    if |fns| > 0 {
      var init := fns[..|fns| - 1];
      CountNamedPositive(init, name);
      if HasHeaderFn(init, name) {
        var i :| 0 <= i < |init| && init[i].name == name;
        assert fns[i].name == name;
      }
      if HasHeaderFn(fns, name) && fns[|fns| - 1].name != name {
        var i :| 0 <= i < |fns| && fns[i].name == name;
        assert init[i].name == name;
      }
    }
  }

  /** The header functions after a request for the helper `name`: unchanged
      when a function of that name exists, otherwise extended by the helper
      built for `op`; an operation with no helper aborts. */
  function RegisterHelper(fns: seq<HeaderFn>, op: BinOpType, isSigned: bool, name: string,
                          pair: CCompositeInfo, elemTy: CType): (r: Result<seq<HeaderFn>>)
    ensures HasHeaderFn(fns, name) ==> r == Ok(fns)
    ensures !HasHeaderFn(fns, name) ==> (r.Ok? <==> op == Add || op == Sub)
    ensures r.Ok? ==> fns <= r.value && |r.value| <= |fns| + 1 && HasHeaderFn(r.value, name)
    ensures r.Ok? && !HasHeaderFn(fns, name) ==>
      r.value == fns + [BuildHelper(op, isSigned, name, pair, elemTy).value]
  {
    if HasHeaderFn(fns, name) then Ok(fns)
    else
      var f :- BuildHelper(op, isSigned, name, pair, elemTy);
      assert (fns + [f])[|fns|].name == name;
      Ok(fns + [f])
  }

  /** Registering is idempotent: asking again for the same helper changes
      nothing. */
  lemma RegisterIdempotent(fns: seq<HeaderFn>, op: BinOpType, isSigned: bool, name: string,
                           pair: CCompositeInfo, elemTy: CType)
    requires RegisterHelper(fns, op, isSigned, name, pair, elemTy).Ok?
    ensures var once := RegisterHelper(fns, op, isSigned, name, pair, elemTy).value;
      RegisterHelper(once, op, isSigned, name, pair, elemTy) == Ok(once)
  {
  }

  /** A helper is registered at most once: after a request its name is
      counted once if it was absent, and as often as before otherwise. */
  lemma {:induction false} RegisteredOnce(fns: seq<HeaderFn>, op: BinOpType, isSigned: bool, name: string,
                                          pair: CCompositeInfo, elemTy: CType)
    requires RegisterHelper(fns, op, isSigned, name, pair, elemTy).Ok?
    ensures var after := RegisterHelper(fns, op, isSigned, name, pair, elemTy).value;
      CountNamed(after, name) == (if CountNamed(fns, name) == 0 then 1 else CountNamed(fns, name))
  {
    var after := RegisterHelper(fns, op, isSigned, name, pair, elemTy).value;
    CountNamedPositive(fns, name);
    if !HasHeaderFn(fns, name) {
      assert after[..|after| - 1] == fns;
      assert after[|after| - 1].name == name by {
        var f := BuildHelper(op, isSigned, name, pair, elemTy).value;
        assert after == fns + [f];
      }
    }
  }

  /** The helper `handle_checked_op` registers (`RegisterHelper`) for a
      signed `Sub` on `int32_t` is the one as written: called on 5 and 3 it
      returns 8. */
  lemma {:induction false} RegisteredSignedSubReturnsSum(fns: seq<HeaderFn>, pair: CCompositeInfo)
    requires !HasHeaderFn(fns, CheckedFnName(Sub, "int32_t"))
    ensures var r := RegisterHelper(fns, Sub, true, CheckedFnName(Sub, "int32_t"), pair, Int(Int32));
      r.Ok? && |r.value| == |fns| + 1 &&
      Call(r.value[|fns|], 5, 3) == Some((8, 0))
  {
    var name := CheckedFnName(Sub, "int32_t");
    var r := RegisterHelper(fns, Sub, true, name, pair, Int(Int32));
    assert r.value[|fns|] == SignedSub(name, pair, Int(Int32));
    SignedSubReturnsSum(name, pair);
  }

  /** Requests for two different operations on the same type name two
      different helpers. */
  lemma DistinctOpsDistinctHelpers(a: BinOpType, b: BinOpType, tyDebug: string)
    requires a != b
    ensures CheckedFnName(a, tyDebug) != CheckedFnName(b, tyDebug)
  {
    CheckedFnNameInjective(a, b, tyDebug);
  }

  /** The call expression a checked operation lowers to. */
  function CheckedCall(name: string, lhs: Expression, rhs: Expression): (r: Expression)
    ensures r.FnCall? && r.callee == Constant(name) && r.args == [lhs, rhs]
  {
    FnCall(Constant(name), [lhs, rhs])
  }

  /** `handle_checked_op`: names the helper after the operation and the
      operand type's debug text, registers it if absent, and returns the
      call `name(lhs, rhs)`. The operand type's C type and the pair struct
      are given by the caller. */
  method HandleCheckedOp(ctx: Context, op: BinOpType, isSigned: bool, tyDebug: string, pair: CCompositeInfo,
                         elemTy: CType, lhs: Expression, rhs: Expression) returns (r: Result<Expression>)
    modifies ctx
    ensures var reg := RegisterHelper(old(ctx.headerFunctions), op, isSigned, CheckedFnName(op, tyDebug), pair, elemTy);
      (r.Ok? <==> reg.Ok?) &&
      (reg.Ok? ==> r.value == CheckedCall(CheckedFnName(op, tyDebug), lhs, rhs) && ctx.headerFunctions == reg.value) &&
      (reg.Panic? ==> ctx.headerFunctions == old(ctx.headerFunctions))
    ensures ctx.includes == old(ctx.includes) && ctx.headerIncludes == old(ctx.headerIncludes)
    ensures ctx.defines == old(ctx.defines) && ctx.functions == old(ctx.functions) && ctx.structs == old(ctx.structs)
  {
    var name := CheckedFnName(op, tyDebug);
    var present := ctx.ExistsHeaderFnWithName(name);
    if !present {
      var helper := BuildHelper(op, isSigned, name, pair, elemTy);
      if helper.Panic? {
        return Panic(helper.reason);
      }
      ctx.PushHeaderFn(helper.value);
    }
    r := Ok(CheckedCall(name, lhs, rhs));
  }
}
