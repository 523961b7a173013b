/** header.rs: the C helper functions behind checked arithmetic. For each
    operator and operand type a helper `checked_<op>_<ty>` is generated
    once; it returns a pair struct of the wrapped result and an overflow
    flag. The helpers are built from the older expression tree (`OExpr`,
    with `var<n>` variables), and their meaning is given here by a small
    evaluator over C integers. */
module Header {
  import opened Wrappers
  import opened Utils
  import opened CRepr
  import opened Ty
  import opened Expr
  import opened Definition

  /** A generated helper: name, return type, the two operands, the local
      declarations and one basic block of statements. */
  datatype HeaderFn = HeaderFn(
    name: string,
    returnTy: CType,
    signature: seq<CVarDef>,
    decls: seq<CVarDecl>,
    body: seq<OExpr>)

  /** `vari!(k)`: local `k` without an index. */
  function V(k: nat): OExpr
  {
    OVariable(k, None)
  }

  function Local(id: nat, name: string, ty: CType): CVarDecl
  {
    CVarDecl(CVarDef(id, name, ty), None)
  }

  /** `first` (id 0) and `second` (id 1), both of the operand type. */
  function Operands(elemTy: CType): seq<CVarDef>
  {
    [CVarDef(0, "first", elemTy), CVarDef(1, "second", elemTy)]
  }

  /** The final statement: return the pair struct of locals `value` and
      `flag`. */
  function ReturnPair(pairName: string, value: nat, flag: nat): OExpr
  {
    OReturn(OStruct(pairName, [V(value), V(flag)]))
  }

  /** The C names of the limits of a signed width. */
  function MaxName(it: CIntTy): string
  {
    match it
    case Int8 => "INT8_MAX"
    case Int16 => "INT16_MAX"
    case Int32 => "INT32_MAX"
    case Int64 => "INT64_MAX"
    case Int128 => "INT128_MAX"
  }

  function MinName(it: CIntTy): string
  {
    match it
    case Int8 => "INT8_MIN"
    case Int16 => "INT16_MIN"
    case Int32 => "INT32_MIN"
    case Int64 => "INT64_MIN"
    case Int128 => "INT128_MIN"
  }

  /** The signed width whose limits a helper for `elemTy` should test. */
  function LimitTy(elemTy: CType): CIntTy
  {
    if elemTy.Int? then elemTy.i else Int32
  }

  /** The shared shape of the signed helpers: the result with `resultOp`,
      then `(second > 0 && first cmpA limA op second)` and
      `(second < 0 && first cmpB limB op second)` with C's
      non-short-circuit `&`, and their `|`. */
  function SignedHelper(fnName: string, pair: CCompositeInfo, elemTy: CType, resultName: string,
                        resultOp: OBinOp, cmpA: OBinOp, limA: string, cmpB: OBinOp, limB: string,
                        limOp: OBinOp): HeaderFn
  {
    HeaderFn(fnName, Struct(pair), Operands(elemTy),
      [Local(2, resultName, elemTy), Local(3, "overflow_a", Bool), Local(4, "overflow_b", Bool),
       Local(5, "overflow", Bool)],
      [OAssignment(V(2), OBinaryOp(resultOp, V(0), V(1))),
       OAssignment(V(3), Guard(OGt, cmpA, limA, limOp)),
       OAssignment(V(4), Guard(OLt, cmpB, limB, limOp)),
       OAssignment(V(5), OBinaryOp(OOr, V(3), V(4))),
       ReturnPair(pair.name, 2, 5)])
  }

  /** `signed_add` as written: the limits tested are those of `int32_t`
      whatever the operand type. */
  function SignedAdd(fnName: string, pair: CCompositeInfo, elemTy: CType): HeaderFn
  {
    SignedHelper(fnName, pair, elemTy, "sum", OAdd, OGt, MaxName(Int32), OLt, MinName(Int32), OSub)
  }

  /** `signed_add` with the limits of the operand's own width. */
  function SignedAddFixed(fnName: string, pair: CCompositeInfo, elemTy: CType): HeaderFn
  {
    var it := LimitTy(elemTy);
    SignedHelper(fnName, pair, elemTy, "sum", OAdd, OGt, MaxName(it), OLt, MinName(it), OSub)
  }

  /** `signed_sub` as written: the difference is computed with `+`, and
      the limits are those of `int32_t`. */
  function SignedSub(fnName: string, pair: CCompositeInfo, elemTy: CType): HeaderFn
  {
    SignedHelper(fnName, pair, elemTy, "difference", OAdd, OLt, MinName(Int32), OGt, MaxName(Int32), OAdd)
  }

  /** `signed_sub` computing `first - second`, with the operand's limits. */
  function SignedSubFixed(fnName: string, pair: CCompositeInfo, elemTy: CType): HeaderFn
  {
    var it := LimitTy(elemTy);
    SignedHelper(fnName, pair, elemTy, "difference", OSub, OLt, MinName(it), OGt, MaxName(it), OAdd)
  }

  /** `unsigned_add`: the sum wrapped, overflow when `sum < first`. */
  function UnsignedAdd(fnName: string, pair: CCompositeInfo, elemTy: CType): HeaderFn
  {
    HeaderFn(fnName, Struct(pair), Operands(elemTy),
      [Local(2, "sum", elemTy), Local(3, "overflow", Bool)],
      [OAssignment(V(2), OBinaryOp(OAdd, V(0), V(1))),
       OAssignment(V(3), OBinaryOp(OLt, V(2), V(0))),
       ReturnPair(pair.name, 2, 3)])
  }

  /** `unsigned_sub`: the difference wrapped, underflow when
      `first < second`. */
  function UnsignedSub(fnName: string, pair: CCompositeInfo, elemTy: CType): HeaderFn
  {
    HeaderFn(fnName, Struct(pair), Operands(elemTy),
      [Local(2, "difference", elemTy), Local(3, "underflow", Bool)],
      [OAssignment(V(2), OBinaryOp(OSub, V(0), V(1))),
       OAssignment(V(3), OBinaryOp(OLt, V(0), V(1))),
       ReturnPair(pair.name, 2, 3)])
  }

  /** What every helper has in common: its name, the pair struct it
      returns, the operands `first` and `second` of the element type, and a
      last statement returning the result local and the last flag local. */
  predicate Shaped(f: HeaderFn, fnName: string, pair: CCompositeInfo, elemTy: CType)
  {
    f.name == fnName && f.returnTy == Struct(pair) && f.signature == Operands(elemTy) &&
    |f.body| > 0 && f.body[|f.body| - 1] == ReturnPair(pair.name, 2, |f.decls| + 1)
  }

  lemma HelperShape(fnName: string, pair: CCompositeInfo, elemTy: CType)
    ensures Shaped(SignedAdd(fnName, pair, elemTy), fnName, pair, elemTy)
    ensures Shaped(SignedSub(fnName, pair, elemTy), fnName, pair, elemTy)
    ensures Shaped(SignedAddFixed(fnName, pair, elemTy), fnName, pair, elemTy)
    ensures Shaped(SignedSubFixed(fnName, pair, elemTy), fnName, pair, elemTy)
    ensures Shaped(UnsignedAdd(fnName, pair, elemTy), fnName, pair, elemTy)
    ensures Shaped(UnsignedSub(fnName, pair, elemTy), fnName, pair, elemTy)
  {
  }

  /** `format!("checked_{op}_{ty:?}")`. */
  function CheckedFnName(op: BinOpType, tyDebug: string): (r: string)
  {
    "checked_" + Display(op) + "_" + tyDebug
  }

  /** Distinct operators give distinct helper names for the same type. */
  lemma CheckedFnNameInjective(a: BinOpType, b: BinOpType, tyDebug: string)
    requires a != b
    ensures CheckedFnName(a, tyDebug) != CheckedFnName(b, tyDebug)
  {
    DisplayInjective(a, b);
    DisplayNoUnderscoreSuffix(a, b, tyDebug);
    var x, y := CheckedFnName(a, tyDebug), CheckedFnName(b, tyDebug);
    var u, w := Display(a) + ("_" + tyDebug), Display(b) + ("_" + tyDebug);
    assert x == "checked_" + u && y == "checked_" + w;
    assert x[8..] == u && y[8..] == w;
  }

  /** Operator names are told apart by what precedes `_<ty>`. */
  lemma DisplayNoUnderscoreSuffix(a: BinOpType, b: BinOpType, t: string)
    requires Display(a) != Display(b)
    ensures Display(a) + ("_" + t) != Display(b) + ("_" + t)
  {
    var da, db := Display(a), Display(b);
    var x, y := da + ("_" + t), db + ("_" + t);
    if |da| == |db| {
      assert x[..|da|] == da && y[..|db|] == db;
    } else {
      assert |x| != |y|;
    }
  }

  /** The helper `handle_checked_op` builds for an operator: only `Add` and
      `Sub` have one (any other operator reaches `todo!`); signedness picks
      between the two variants, and the signed ones are `signed_add` and
      `signed_sub` as written. */
  function BuildHelper(op: BinOpType, isSigned: bool, fnName: string, pair: CCompositeInfo,
                       elemTy: CType): (r: Result<HeaderFn>)
    ensures r.Ok? <==> (op == Add || op == Sub)
    ensures r.Ok? ==> Shaped(r.value, fnName, pair, elemTy)
    ensures r.Ok? && isSigned ==>
      r.value == (if op == Add then SignedAdd(fnName, pair, elemTy) else SignedSub(fnName, pair, elemTy))
    ensures r.Ok? && !isSigned ==>
      r.value == (if op == Add then UnsignedAdd(fnName, pair, elemTy) else UnsignedSub(fnName, pair, elemTy))
  {
    HelperShape(fnName, pair, elemTy);
    match op
    case Add => Ok(if isSigned then SignedAdd(fnName, pair, elemTy) else UnsignedAdd(fnName, pair, elemTy))
    case Sub => Ok(if isSigned then SignedSub(fnName, pair, elemTy) else UnsignedSub(fnName, pair, elemTy))
    case _ => Panic("Checked operation not handled")
  }

  /** The operators MIR's overflow-reporting arithmetic lowers to are the
      checked variants, and those have no helper. */
  lemma OverflowOpsHaveNoHelper(isSigned: bool, fnName: string, pair: CCompositeInfo, elemTy: CType)
    ensures BuildHelper(FromMir(Mir.AddWithOverflow), isSigned, fnName, pair, elemTy).Panic?
    ensures BuildHelper(FromMir(Mir.SubWithOverflow), isSigned, fnName, pair, elemTy).Panic?
    ensures BuildHelper(FromMir(Mir.MulWithOverflow), isSigned, fnName, pair, elemTy).Panic?
  {
  }

  // Meaning of the helpers.

  /** The width and end a limit name stands for: `true` for the maximum. */
  function LimitOf(s: string): Option<(CIntTy, bool)>
  {
    if s == MaxName(Int8) then Some((Int8, true))
    else if s == MinName(Int8) then Some((Int8, false))
    else if s == MaxName(Int16) then Some((Int16, true))
    else if s == MinName(Int16) then Some((Int16, false))
    else if s == MaxName(Int32) then Some((Int32, true))
    else if s == MinName(Int32) then Some((Int32, false))
    else if s == MaxName(Int64) then Some((Int64, true))
    else if s == MinName(Int64) then Some((Int64, false))
    else if s == MaxName(Int128) then Some((Int128, true))
    else if s == MinName(Int128) then Some((Int128, false))
    else None
  }

  /** The value of a named C constant the helpers use: `0` or a limit. */
  function ConstValue(s: string): Option<int>
  {
    if s == "0" then Some(0)
    else match LimitOf(s)
      case Some((it, isMax)) =>
        var h := Pow2(it.BitWidth() - 1);
        Some(if isMax then h - 1 else -(h as int))
      case None => None
  }

  /** The limit names denote the limits of their width. */
  lemma LimitValues(it: CIntTy)
    ensures ConstValue(MaxName(it)) == Some(Pow2(it.BitWidth() - 1) - 1)
    ensures ConstValue(MinName(it)) == Some(-(Pow2(it.BitWidth() - 1) as int))
  {
  }

  /** A C truth value. */
  function Truth(b: bool): int
  {
    if b then 1 else 0
  }

  /** An expression's value over mathematical integers. `&` and `|` are
      only evaluated on truth values, which is all the helpers apply them
      to. */
  function EvalO(e: OExpr, env: map<nat, int>): Option<int>
  {
    match e
    case OConstant(s) => ConstValue(s)
    case OVariable(k, None) => if k in env then Some(env[k]) else None
    case OBinaryOp(op, l, r) =>
      (match (EvalO(l, env), EvalO(r, env))
       case (Some(a), Some(b)) => BinValue(op, a, b)
       case _ => None)
    case _ => None
  }

  function BinValue(op: OBinOp, a: int, b: int): Option<int>
  {
    match op
    case OAdd => Some(a + b)
    case OSub => Some(a - b)
    case OGt => Some(Truth(a > b))
    case OLt => Some(Truth(a < b))
    case OAnd => if a in {0, 1} && b in {0, 1} then Some(Truth(a == 1 && b == 1)) else None
    case OOr => if a in {0, 1} && b in {0, 1} then Some(Truth(a == 1 || b == 1)) else None
    case _ => None
  }

  /** The value an `n`-bit two's-complement variable holds after being
      assigned `v`: `v` brought into `[-2^(n-1), 2^(n-1))`. */
  function SignedWrap(v: int, n: nat): (r: int)
    requires n >= 1
    ensures -(Pow2(n - 1) as int) <= r < Pow2(n - 1)
  {
    var h := Pow2(n - 1);
    assert Pow2(n) == 2 * h;
    (v + h) % (2 * h) - h
  }

  /** What assigning `v` to a variable of C type `t` stores; types the
      helpers do not use are not modelled. */
  function Store(v: int, t: CType): Option<int>
  {
    match t
    case Int(i) => Some(SignedWrap(v, i.BitWidth()))
    case UInt(u) => Some(v % Pow2(u.BitWidth()))
    case Bool => Some(Truth(v != 0))
    case _ => None
  }

  /** The declared type of local `k`, if any. */
  function TypeOfLocal(defs: seq<CVarDef>, k: nat): Option<CType>
  {
    if |defs| == 0 then None
    else if defs[0].localId == k then Some(defs[0].ty)
    else TypeOfLocal(defs[1..], k)
  }

  function DeclDefs(ds: seq<CVarDecl>): (r: seq<CVarDef>)
    ensures |r| == |ds| && forall i :: 0 <= i < |ds| ==> r[i] == ds[i].def
  {
    if |ds| == 0 then [] else [ds[0].def] + DeclDefs(ds[1..])
  }

  /** Runs a block: assignments store into typed locals; the block ends by
      returning a pair of two locals. */
  function Exec(body: seq<OExpr>, env: map<nat, int>, defs: seq<CVarDef>): Option<(int, int)>
  {
    if |body| == 0 then None
    else match body[0]
      case OAssignment(OVariable(k, None), rhs) =>
        (match EvalO(rhs, env)
         case Some(v) =>
           (match TypeOfLocal(defs, k)
            case Some(t) =>
              (match Store(v, t)
               case Some(w) => Exec(body[1..], env[k := w], defs)
               case None => None)
            case None => None)
         case None => None)
      case OReturn(OStruct(_, fs)) =>
        if |fs| == 2 && fs[0].OVariable? && fs[0].idx.None? && fs[1].OVariable? && fs[1].idx.None? &&
           fs[0].local in env && fs[1].local in env
        then Some((env[fs[0].local], env[fs[1].local]))
        else None
      case _ => None
  }

  /** Calling a helper on `first` and `second`: its result pair. */
  function Call(f: HeaderFn, first: int, second: int): Option<(int, int)>
  {
    Exec(f.body, map[0 := first, 1 := second], f.signature + DeclDefs(f.decls))
  }

  predicate SignedInRange(v: int, it: CIntTy)
  {
    -(Pow2(it.BitWidth() - 1) as int) <= v < Pow2(it.BitWidth() - 1)
  }

  /** The lookup finds the first definition with the id. */
  lemma {:induction false} TypeOfLocalAt(defs: seq<CVarDef>, k: nat, j: nat)
    requires j < |defs| && defs[j].localId == k
    requires forall i :: 0 <= i < j ==> defs[i].localId != k
    ensures TypeOfLocal(defs, k) == Some(defs[j].ty)
  {
    if j > 0 {
      TypeOfLocalAt(defs[1..], k, j - 1);
    }
  }

  /** The locals of a signed helper and their types. */
  lemma SignedHelperTypes(f: HeaderFn, elemTy: CType)
    requires f.signature == Operands(elemTy) && |f.decls| == 4
    requires f.decls[0].def.localId == 2 && f.decls[0].def.ty == elemTy
    requires forall i :: 1 <= i < 4 ==> f.decls[i].def.localId == i + 2 && f.decls[i].def.ty == Bool
    ensures var defs := f.signature + DeclDefs(f.decls);
      TypeOfLocal(defs, 2) == Some(elemTy) && TypeOfLocal(defs, 3) == Some(Bool) &&
      TypeOfLocal(defs, 4) == Some(Bool) && TypeOfLocal(defs, 5) == Some(Bool)
  {
    var defs := f.signature + DeclDefs(f.decls);
    assert |defs| == 6;
    assert forall i :: 0 <= i < 6 ==> defs[i].localId == i;
    TypeOfLocalAt(defs, 2, 2);
    TypeOfLocalAt(defs, 3, 3);
    TypeOfLocalAt(defs, 4, 4);
    TypeOfLocalAt(defs, 5, 5);
  }

  /** The overflow test of a signed helper: `second g 0` and
      `first cmp (lim limOp second)`, combined with `&`. */
  function Guard(g: OBinOp, cmp: OBinOp, lim: string, limOp: OBinOp): OExpr
  {
    OBinaryOp(OAnd, OBinaryOp(g, V(1), OConstant("0")),
                    OBinaryOp(cmp, V(0), OBinaryOp(limOp, OConstant(lim), V(1))))
  }

  lemma EvalGuard(g: OBinOp, cmp: OBinOp, lim: string, limOp: OBinOp, env: map<nat, int>, l: int)
    requires g in {OGt, OLt} && cmp in {OGt, OLt} && limOp in {OAdd, OSub}
    requires 0 in env && 1 in env && ConstValue(lim) == Some(l)
    ensures var a, b := env[0], env[1];
      EvalO(Guard(g, cmp, lim, limOp), env) ==
      Some(Truth(BinValue(g, b, 0) == Some(1) && BinValue(cmp, a, BinValue(limOp, l, b).value) == Some(1)))
  {
    var a, b := env[0], env[1];
    assert EvalO(V(1), env) == Some(b);
    assert EvalO(V(0), env) == Some(a);
    assert EvalO(OConstant("0"), env) == Some(0);
    var t := BinValue(limOp, l, b).value;
    assert EvalO(OBinaryOp(limOp, OConstant(lim), V(1)), env) == Some(t);
  }

  /** One assignment step of `Exec`. */
  lemma ExecAssign(body: seq<OExpr>, env: map<nat, int>, defs: seq<CVarDef>, k: nat, rhs: OExpr, v: int, t: CType)
    requires |body| > 0 && body[0] == OAssignment(V(k), rhs)
    requires EvalO(rhs, env) == Some(v) && TypeOfLocal(defs, k) == Some(t) && Store(v, t).Some?
    ensures Exec(body, env, defs) == Exec(body[1..], env[k := Store(v, t).value], defs)
  {
  }

  /** The returning step of `Exec`. */
  lemma ExecReturn(body: seq<OExpr>, env: map<nat, int>, defs: seq<CVarDef>, name: string, x: nat, y: nat)
    requires |body| > 0 && body[0] == ReturnPair(name, x, y) && x in env && y in env
    ensures Exec(body, env, defs) == Some((env[x], env[y]))
  {
  }

  /** A truth value stored in a `bool` is kept. */
  lemma StoreTruth(b: bool)
    ensures Store(Truth(b), Bool) == Some(Truth(b))
  {
  }

  /** The last two statements of a signed helper: `overflow` is the `|`
      of the two partial flags, then the pair is returned. */
  lemma SignedTail(pairName: string, env: map<nat, int>, defs: seq<CVarDef>)
    requires 2 in env && 3 in env && 4 in env && env[3] in {0, 1} && env[4] in {0, 1}
    requires TypeOfLocal(defs, 5) == Some(Bool)
    ensures Exec([OAssignment(V(5), OBinaryOp(OOr, V(3), V(4))), ReturnPair(pairName, 2, 5)], env, defs) ==
      Some((env[2], Truth(env[3] == 1 || env[4] == 1)))
  {
    var body := [OAssignment(V(5), OBinaryOp(OOr, V(3), V(4))), ReturnPair(pairName, 2, 5)];
    var t := Truth(env[3] == 1 || env[4] == 1);
    assert EvalO(OBinaryOp(OOr, V(3), V(4)), env) == Some(t);
    StoreTruth(env[3] == 1 || env[4] == 1);
    ExecAssign(body, env, defs, 5, OBinaryOp(OOr, V(3), V(4)), t, Bool);
    assert body[1..] == [ReturnPair(pairName, 2, 5)];
    ExecReturn(body[1..], env[5 := t], defs, pairName, 2, 5);
  }

  /** The truth value of the guard `second g 0 & first cmp (lim limOp second)`. */
  function GuardValue(g: OBinOp, cmp: OBinOp, limOp: OBinOp, l: int, a: int, b: int): bool
    requires g in {OGt, OLt} && cmp in {OGt, OLt} && limOp in {OAdd, OSub}
  {
    BinValue(g, b, 0) == Some(1) && BinValue(cmp, a, BinValue(limOp, l, b).value) == Some(1)
  }

  /** The last three statements of a signed helper. */
  lemma SignedFromB(pairName: string, cmpB: OBinOp, limB: string, limOp: OBinOp, lb: int,
                    env: map<nat, int>, defs: seq<CVarDef>)
    requires cmpB in {OGt, OLt} && limOp in {OAdd, OSub} && ConstValue(limB) == Some(lb)
    requires 0 in env && 1 in env && 2 in env && 3 in env && env[3] in {0, 1}
    requires TypeOfLocal(defs, 4) == Some(Bool) && TypeOfLocal(defs, 5) == Some(Bool)
    ensures Exec([OAssignment(V(4), Guard(OLt, cmpB, limB, limOp)),
                  OAssignment(V(5), OBinaryOp(OOr, V(3), V(4))), ReturnPair(pairName, 2, 5)], env, defs) ==
      Some((env[2], Truth(env[3] == 1 || GuardValue(OLt, cmpB, limOp, lb, env[0], env[1]))))
  {
    var tail := [OAssignment(V(5), OBinaryOp(OOr, V(3), V(4))), ReturnPair(pairName, 2, 5)];
    var body := [OAssignment(V(4), Guard(OLt, cmpB, limB, limOp))] + tail;
    var ob := GuardValue(OLt, cmpB, limOp, lb, env[0], env[1]);
    EvalGuard(OLt, cmpB, limB, limOp, env, lb);
    StoreTruth(ob);
    ExecAssign(body, env, defs, 4, Guard(OLt, cmpB, limB, limOp), Truth(ob), Bool);
    assert body[1..] == tail;
    SignedTail(pairName, env[4 := Truth(ob)], defs);
  }

  /** The last four statements of a signed helper. */
  lemma SignedFromA(pairName: string, cmpA: OBinOp, limA: string, cmpB: OBinOp, limB: string, limOp: OBinOp,
                    la: int, lb: int, env: map<nat, int>, defs: seq<CVarDef>)
    requires cmpA in {OGt, OLt} && cmpB in {OGt, OLt} && limOp in {OAdd, OSub}
    requires ConstValue(limA) == Some(la) && ConstValue(limB) == Some(lb)
    requires 0 in env && 1 in env && 2 in env
    requires TypeOfLocal(defs, 3) == Some(Bool) && TypeOfLocal(defs, 4) == Some(Bool)
    requires TypeOfLocal(defs, 5) == Some(Bool)
    ensures Exec([OAssignment(V(3), Guard(OGt, cmpA, limA, limOp)),
                  OAssignment(V(4), Guard(OLt, cmpB, limB, limOp)),
                  OAssignment(V(5), OBinaryOp(OOr, V(3), V(4))), ReturnPair(pairName, 2, 5)], env, defs) ==
      Some((env[2], Truth(GuardValue(OGt, cmpA, limOp, la, env[0], env[1]) ||
                          GuardValue(OLt, cmpB, limOp, lb, env[0], env[1]))))
  {
    var tail := [OAssignment(V(4), Guard(OLt, cmpB, limB, limOp)),
                 OAssignment(V(5), OBinaryOp(OOr, V(3), V(4))), ReturnPair(pairName, 2, 5)];
    var body := [OAssignment(V(3), Guard(OGt, cmpA, limA, limOp))] + tail;
    var oa := GuardValue(OGt, cmpA, limOp, la, env[0], env[1]);
    EvalGuard(OGt, cmpA, limA, limOp, env, la);
    StoreTruth(oa);
    ExecAssign(body, env, defs, 3, Guard(OGt, cmpA, limA, limOp), Truth(oa), Bool);
    assert body[1..] == tail;
    SignedFromB(pairName, cmpB, limB, limOp, lb, env[3 := Truth(oa)], defs);
  }

  /** A signed helper run on two operands: the result local holds the
      wrapped result of `resultOp`, and the flag is the `|` of the two
      guards, given the values of the limits it was built with. */
  lemma RunSigned(fnName: string, pair: CCompositeInfo, it: CIntTy, resultName: string,
                  resultOp: OBinOp, cmpA: OBinOp, limA: string, cmpB: OBinOp, limB: string,
                  limOp: OBinOp, a: int, b: int, la: int, lb: int)
    requires resultOp in {OAdd, OSub} && limOp in {OAdd, OSub} && cmpA in {OGt, OLt} && cmpB in {OGt, OLt}
    requires ConstValue(limA) == Some(la) && ConstValue(limB) == Some(lb)
    ensures Call(SignedHelper(fnName, pair, Int(it), resultName, resultOp, cmpA, limA, cmpB, limB, limOp), a, b) ==
      Some((SignedWrap(BinValue(resultOp, a, b).value, it.BitWidth()),
            Truth(GuardValue(OGt, cmpA, limOp, la, a, b) || GuardValue(OLt, cmpB, limOp, lb, a, b))))
  {
    var f := SignedHelper(fnName, pair, Int(it), resultName, resultOp, cmpA, limA, cmpB, limB, limOp);
    var defs := f.signature + DeclDefs(f.decls);
    var r := BinValue(resultOp, a, b).value;
    var e0 := map[0 := a, 1 := b];
    var e1 := e0[2 := SignedWrap(r, it.BitWidth())];
    var tail := [OAssignment(V(3), Guard(OGt, cmpA, limA, limOp)),
                 OAssignment(V(4), Guard(OLt, cmpB, limB, limOp)),
                 OAssignment(V(5), OBinaryOp(OOr, V(3), V(4))), ReturnPair(pair.name, 2, 5)];
    assert Exec(f.body, e0, defs) == Exec(tail, e1, defs) by {
      SignedHelperTypes(f, Int(it));
      assert f.body == [OAssignment(V(2), OBinaryOp(resultOp, V(0), V(1)))] + tail;
      assert EvalO(OBinaryOp(resultOp, V(0), V(1)), e0) == Some(r);
      ExecAssign(f.body, e0, defs, 2, OBinaryOp(resultOp, V(0), V(1)), r, Int(it));
      assert f.body[1..] == tail;
    }
    assert Exec(tail, e1, defs) == Some((e1[2], Truth(GuardValue(OGt, cmpA, limOp, la, a, b) || GuardValue(OLt, cmpB, limOp, lb, a, b)))) by {
      SignedHelperTypes(f, Int(it));
      SignedFromA(pair.name, cmpA, limA, cmpB, limB, limOp, la, lb, e1, defs);
    }
  }

  /** `RunSigned` with the result and the flag named by the caller. */
  lemma RunSignedAs(fnName: string, pair: CCompositeInfo, it: CIntTy, resultName: string,
                    resultOp: OBinOp, cmpA: OBinOp, limA: string, cmpB: OBinOp, limB: string,
                    limOp: OBinOp, a: int, b: int, la: int, lb: int, v: int, flag: bool)
    requires resultOp in {OAdd, OSub} && limOp in {OAdd, OSub} && cmpA in {OGt, OLt} && cmpB in {OGt, OLt}
    requires ConstValue(limA) == Some(la) && ConstValue(limB) == Some(lb)
    requires v == BinValue(resultOp, a, b).value
    requires flag <==> GuardValue(OGt, cmpA, limOp, la, a, b) || GuardValue(OLt, cmpB, limOp, lb, a, b)
    ensures Call(SignedHelper(fnName, pair, Int(it), resultName, resultOp, cmpA, limA, cmpB, limB, limOp), a, b) ==
      Some((SignedWrap(v, it.BitWidth()), Truth(flag)))
  {
    RunSigned(fnName, pair, it, resultName, resultOp, cmpA, limA, cmpB, limB, limOp, a, b, la, lb);
  }

  /** A signed addition helper built with the limits of `lt`: the result
      local holds the sum wrapped to the operand width, and the flag is set
      exactly when the sum leaves the range of `lt` (for operands within
      that range). */
  lemma SignedAddWithLimits(fnName: string, pair: CCompositeInfo, it: CIntTy, lt: CIntTy, a: int, b: int)
    requires SignedInRange(a, lt) && SignedInRange(b, lt)
    ensures Call(SignedHelper(fnName, pair, Int(it), "sum", OAdd, OGt, MaxName(lt), OLt, MinName(lt), OSub), a, b) ==
      Some((SignedWrap(a + b, it.BitWidth()), Truth(!SignedInRange(a + b, lt))))
  {
    LimitValues(lt);
    SignedAddWithBound(fnName, pair, it, MaxName(lt), MinName(lt), Pow2(lt.BitWidth() - 1), a, b);
  }

  /** A signed addition helper whose limits name `h - 1` and `-h`. */
  lemma SignedAddWithBound(fnName: string, pair: CCompositeInfo, it: CIntTy, maxName: string, minName: string,
                           h: nat, a: int, b: int)
    requires ConstValue(maxName) == Some(h - 1) && ConstValue(minName) == Some(-(h as int))
    requires -(h as int) <= a < h
    ensures Call(SignedHelper(fnName, pair, Int(it), "sum", OAdd, OGt, maxName, OLt, minName, OSub), a, b) ==
      Some((SignedWrap(a + b, it.BitWidth()), Truth(!(-(h as int) <= a + b < h))))
  {
    AddGuards(h, a, b);
    RunSignedAs(fnName, pair, it, "sum", OAdd, OGt, maxName, OLt, minName, OSub, a, b, h - 1, -(h as int),
                a + b, !(-(h as int) <= a + b < h));
  }

  /** The two guards of a signed addition, with limits `h - 1` and `-h`,
      together detect exactly the sums outside `[-h, h)`. */
  lemma AddGuards(h: nat, a: int, b: int)
    requires -(h as int) <= a < h
    ensures (GuardValue(OGt, OGt, OSub, h - 1, a, b) || GuardValue(OLt, OLt, OSub, -(h as int), a, b))
      <==> !(-(h as int) <= a + b < h)
  {
  }

  /** A signed subtraction helper built with the limits of `lt` and the
      result operator `resultOp`: the flag is set exactly when the
      difference leaves the range of `lt`. */
  lemma SignedSubWithLimits(fnName: string, pair: CCompositeInfo, it: CIntTy, lt: CIntTy,
                            resultOp: OBinOp, a: int, b: int)
    requires resultOp in {OAdd, OSub}
    requires SignedInRange(a, lt) && SignedInRange(b, lt)
    ensures Call(SignedHelper(fnName, pair, Int(it), "difference", resultOp, OLt, MinName(lt), OGt, MaxName(lt), OAdd), a, b) ==
      Some((SignedWrap(BinValue(resultOp, a, b).value, it.BitWidth()), Truth(!SignedInRange(a - b, lt))))
  {
    LimitValues(lt);
    SignedSubWithBound(fnName, pair, it, MaxName(lt), MinName(lt), Pow2(lt.BitWidth() - 1), resultOp, a, b);
  }

  /** A signed subtraction helper whose limits name `h - 1` and `-h`. */
  lemma SignedSubWithBound(fnName: string, pair: CCompositeInfo, it: CIntTy, maxName: string, minName: string,
                           h: nat, resultOp: OBinOp, a: int, b: int)
    requires resultOp in {OAdd, OSub}
    requires ConstValue(maxName) == Some(h - 1) && ConstValue(minName) == Some(-(h as int))
    requires -(h as int) <= a < h
    ensures Call(SignedHelper(fnName, pair, Int(it), "difference", resultOp, OLt, minName, OGt, maxName, OAdd), a, b) ==
      Some((SignedWrap(BinValue(resultOp, a, b).value, it.BitWidth()), Truth(!(-(h as int) <= a - b < h))))
  {
    SubGuards(h, a, b);
    RunSignedAs(fnName, pair, it, "difference", resultOp, OLt, minName, OGt, maxName, OAdd, a, b, -(h as int), h - 1,
                BinValue(resultOp, a, b).value, !(-(h as int) <= a - b < h));
  }

  /** The two guards of a signed subtraction, with limits `-h` and
      `h - 1`, together detect exactly the differences outside `[-h, h)`. */
  lemma SubGuards(h: nat, a: int, b: int)
    requires -(h as int) <= a < h
    ensures (GuardValue(OGt, OLt, OAdd, -(h as int), a, b) || GuardValue(OLt, OGt, OAdd, h - 1, a, b))
      <==> !(-(h as int) <= a - b < h)
  {
  }

  /** The corrected `signed_add` returns the wrapped sum and flags exactly
      the sums outside the operand type's range. */
  lemma SignedAddFixedCorrect(fnName: string, pair: CCompositeInfo, it: CIntTy, a: int, b: int)
    requires SignedInRange(a, it) && SignedInRange(b, it)
    ensures Call(SignedAddFixed(fnName, pair, Int(it)), a, b) ==
      Some((SignedWrap(a + b, it.BitWidth()), Truth(!SignedInRange(a + b, it))))
  {
    SignedAddWithLimits(fnName, pair, it, it, a, b);
  }

  /** The corrected `signed_sub` returns the wrapped difference and flags
      exactly the differences outside the operand type's range. */
  lemma SignedSubFixedCorrect(fnName: string, pair: CCompositeInfo, it: CIntTy, a: int, b: int)
    requires SignedInRange(a, it) && SignedInRange(b, it)
    ensures Call(SignedSubFixed(fnName, pair, Int(it)), a, b) ==
      Some((SignedWrap(a - b, it.BitWidth()), Truth(!SignedInRange(a - b, it))))
  {
    SignedSubWithLimits(fnName, pair, it, it, OSub, a, b);
  }

  /** For `int32_t` operands the as-written `signed_add` is the corrected
      one, so it is right there. */
  lemma SignedAddAgreesAt32(fnName: string, pair: CCompositeInfo)
    ensures SignedAdd(fnName, pair, Int(Int32)) == SignedAddFixed(fnName, pair, Int(Int32))
  {
  }

  /** As written, `signed_add` flags the sums outside the `int32_t` range,
      whatever the operand type (for operands within that range). */
  lemma SignedAddAsWritten(fnName: string, pair: CCompositeInfo, it: CIntTy, a: int, b: int)
    requires SignedInRange(a, Int32) && SignedInRange(b, Int32)
    ensures Call(SignedAdd(fnName, pair, Int(it)), a, b) ==
      Some((SignedWrap(a + b, it.BitWidth()), Truth(!SignedInRange(a + b, Int32))))
  {
    SignedAddWithLimits(fnName, pair, it, Int32, a, b);
  }

  /** As written, `signed_sub` returns the wrapped SUM of its operands, and
      flags the differences outside the `int32_t` range. */
  lemma SignedSubAsWritten(fnName: string, pair: CCompositeInfo, it: CIntTy, a: int, b: int)
    requires SignedInRange(a, Int32) && SignedInRange(b, Int32)
    ensures Call(SignedSub(fnName, pair, Int(it)), a, b) ==
      Some((SignedWrap(a + b, it.BitWidth()), Truth(!SignedInRange(a - b, Int32))))
  {
    SignedSubWithLimits(fnName, pair, it, Int32, OAdd, a, b);
  }

  /** As written, `signed_add` on `i8` misses an overflow: 100 + 100 wraps
      to -56 with the flag clear, because 200 is below `INT32_MAX`. */
  lemma SignedAddMissesI8Overflow(fnName: string, pair: CCompositeInfo)
    ensures Call(SignedAdd(fnName, pair, Int(Int8)), 100, 100) == Some((-56, 0))
    ensures !SignedInRange(100 + 100, Int8)
  {
    Pow2Byte();
    Pow2Word();
    SignedAddAsWritten(fnName, pair, Int8, 100, 100);
    assert SignedWrap(200, 8) == -56 by {
      assert (200 + 128) % 256 == 72;
    }
  }

  /** As written, `signed_add` on `i64` reports a false overflow:
      `(2^31 - 1) + 1` fits an `int64_t` but exceeds `INT32_MAX`. */
  lemma SignedAddFalseI64Overflow(fnName: string, pair: CCompositeInfo)
    ensures Call(SignedAdd(fnName, pair, Int(Int64)), 2147483647, 1) == Some((2147483648, 1))
    ensures SignedInRange(2147483648, Int64)
  {
    Pow2Word();
    Pow2Monotone(32, 63);
    SignedAddAsWritten(fnName, pair, Int64, 2147483647, 1);
    SignedWrapKeeps(2147483648, 64);
  }

  /** As written, `signed_sub` returns the sum: 5 - 3 comes back as 8. */
  lemma SignedSubReturnsSum(fnName: string, pair: CCompositeInfo)
    ensures Call(SignedSub(fnName, pair, Int(Int32)), 5, 3) == Some((8, 0))
  {
    var h := Pow2(31);
    assert h == 2147483648 by { Pow2Word(); }
    assert SignedInRange(5, Int32) && SignedInRange(3, Int32) && SignedInRange(5 - 3, Int32);
    SignedSubAsWritten(fnName, pair, Int32, 5, 3);
    SignedWrapKeeps(8, 32);
  }

  /** The corrected `signed_sub` gives 5 - 3 = 2 without overflow. */
  lemma SignedSubFixedExample(fnName: string, pair: CCompositeInfo)
    ensures Call(SignedSubFixed(fnName, pair, Int(Int32)), 5, 3) == Some((2, 0))
  {
    Pow2Word();
    SignedSubFixedCorrect(fnName, pair, Int32, 5, 3);
    SignedWrapKeeps(2, 32);
  }

  /** A value already in range is stored unchanged. */
  lemma SignedWrapKeeps(v: int, n: nat)
    requires n >= 1 && -(Pow2(n - 1) as int) <= v < Pow2(n - 1)
    ensures SignedWrap(v, n) == v
  {
    var h := Pow2(n - 1);
    ModUnique(v + h, 2 * h, 0, v + h);
  }

  /** The locals of an unsigned helper and their types. */
  lemma UnsignedHelperTypes(f: HeaderFn, elemTy: CType)
    requires f.signature == Operands(elemTy) && |f.decls| == 2
    requires f.decls[0].def.localId == 2 && f.decls[0].def.ty == elemTy
    requires f.decls[1].def.localId == 3 && f.decls[1].def.ty == Bool
    ensures var defs := f.signature + DeclDefs(f.decls);
      TypeOfLocal(defs, 2) == Some(elemTy) && TypeOfLocal(defs, 3) == Some(Bool)
  {
    var defs := f.signature + DeclDefs(f.decls);
    assert |defs| == 4;
    assert forall i :: 0 <= i < 4 ==> defs[i].localId == i;
    TypeOfLocalAt(defs, 2, 2);
    TypeOfLocalAt(defs, 3, 3);
  }

  /** `unsigned_add` returns the sum modulo `2^n` and flags exactly the sums
      that do not fit. */
  lemma UnsignedAddCorrect(fnName: string, pair: CCompositeInfo, ut: CUIntTy, a: nat, b: nat)
    requires a < Pow2(ut.BitWidth()) && b < Pow2(ut.BitWidth())
    ensures Call(UnsignedAdd(fnName, pair, UInt(ut)), a, b) ==
      Some(((a + b) % Pow2(ut.BitWidth()), Truth(a + b >= Pow2(ut.BitWidth()))))
  {
    var f := UnsignedAdd(fnName, pair, UInt(ut));
    var defs := f.signature + DeclDefs(f.decls);
    var m := Pow2(ut.BitWidth());
    var s := (a + b) % m;
    assert (s < a) == (a + b >= m) by {
      if a + b < m {
        ModUnique(a + b, m, 0, a + b);
      } else {
        ModUnique(a + b, m, 1, a + b - m);
      }
    }
    var e0 := map[0 := a, 1 := b];
    var e1 := e0[2 := s];
    var e2 := e1[3 := Truth(s < a)];
    var body := f.body;
    assert Exec(body, e0, defs) == Exec(body[1..], e1, defs) by {
      UnsignedHelperTypes(f, UInt(ut));
      assert EvalO(OBinaryOp(OAdd, V(0), V(1)), e0) == Some(a + b);
      ExecAssign(body, e0, defs, 2, OBinaryOp(OAdd, V(0), V(1)), a + b, UInt(ut));
    }
    assert Exec(body[1..], e1, defs) == Exec(body[1..][1..], e2, defs) by {
      UnsignedHelperTypes(f, UInt(ut));
      assert EvalO(OBinaryOp(OLt, V(2), V(0)), e1) == Some(Truth(s < a));
      StoreTruth(s < a);
      ExecAssign(body[1..], e1, defs, 3, OBinaryOp(OLt, V(2), V(0)), Truth(s < a), Bool);
    }
    assert Exec(body[1..][1..], e2, defs) == Some((s, Truth(s < a))) by {
      ExecReturn(body[1..][1..], e2, defs, pair.name, 2, 3);
    }
  }

  /** `unsigned_sub` returns the difference modulo `2^n` and flags exactly
      the case `first < second`. */
  lemma UnsignedSubCorrect(fnName: string, pair: CCompositeInfo, ut: CUIntTy, a: nat, b: nat)
    requires a < Pow2(ut.BitWidth()) && b < Pow2(ut.BitWidth())
    ensures Call(UnsignedSub(fnName, pair, UInt(ut)), a, b) ==
      Some((if a >= b then a - b else a - b + Pow2(ut.BitWidth()), Truth(a < b)))
  {
    var f := UnsignedSub(fnName, pair, UInt(ut));
    var defs := f.signature + DeclDefs(f.decls);
    var m := Pow2(ut.BitWidth());
    var d := (a - b) % m;
    WrappedDifference(a, b, m);
    var e0 := map[0 := a, 1 := b];
    var e1 := e0[2 := d];
    var e2 := e1[3 := Truth(a < b)];
    var body := f.body;
    assert Exec(body, e0, defs) == Exec(body[1..], e1, defs) by {
      UnsignedHelperTypes(f, UInt(ut));
      assert EvalO(OBinaryOp(OSub, V(0), V(1)), e0) == Some(a - b);
      ExecAssign(body, e0, defs, 2, OBinaryOp(OSub, V(0), V(1)), a - b, UInt(ut));
    }
    assert Exec(body[1..], e1, defs) == Exec(body[1..][1..], e2, defs) by {
      UnsignedHelperTypes(f, UInt(ut));
      assert EvalO(OBinaryOp(OLt, V(0), V(1)), e1) == Some(Truth(a < b));
      StoreTruth(a < b);
      ExecAssign(body[1..], e1, defs, 3, OBinaryOp(OLt, V(0), V(1)), Truth(a < b), Bool);
    }
    assert Exec(body[1..][1..], e2, defs) == Some((d, Truth(a < b))) by {
      ExecReturn(body[1..][1..], e2, defs, pair.name, 2, 3);
    }
  }

  /** The difference of two values below `m`, stored modulo `m`. */
  lemma WrappedDifference(a: nat, b: nat, m: nat)
    requires a < m && b < m
    ensures (a - b) % m == if a >= b then a - b else a - b + m
  {
    if a >= b {
      ModUnique(a - b, m, 0, a - b);
    } else {
      ModNegative(a - b, m);
    }
  }

  /** The names of the first three locals. */
  lemma VarTexts(c: ReprContext)
    ensures OExprText(OVariable(0, None), c) == Ok("var0")
    ensures OExprText(OVariable(1, None), c) == Ok("var1")
    ensures OExprText(OVariable(2, None), c) == Ok("var2")
  {
    assert Strings.NatToString(0) == "0" && Strings.NatToString(1) == "1" && Strings.NatToString(2) == "2";
    assert "var" + Strings.NatToString(0) == "var0";
    assert "var" + Strings.NatToString(1) == "var1";
    assert "var" + Strings.NatToString(2) == "var2";
  }

  /** The first statement of `unsigned_add` prints as `var2 = var0 + var1`. */
  lemma SumLineText(fnName: string, pair: CCompositeInfo, elemTy: CType, c: ReprContext)
    ensures OExprText(UnsignedAdd(fnName, pair, elemTy).body[0], c) == Ok("var2 = var0 + var1")
  {
    VarTexts(c);
    assert OExprText(OBinaryOp(OAdd, OVariable(0, None), OVariable(1, None)), c) == Ok("var0" + " " + "+" + " " + "var1");
    assert "var0" + " " + "+" + " " + "var1" == "var0 + var1";
    assert "var2" + " = " + "var0 + var1" == "var2 = var0 + var1";
  }
}
