/** expression.rs: the expression tree the statements are built from, the
    mapping of MIR binary operators onto it, and its rendering as C text. */
module Expr {
  import opened Wrappers
  import opened Strings
  import Mir
  import opened CRepr
  import opened Ty
  import opened FatPtr

  /** `BinOpType`, with the checked variants the overflow helpers use. */
  datatype BinOpType =
    | Add | Sub | Mul | CheckedAdd | CheckedSub | CheckedMul
    | Div | Mod | And | Or | Xor | Shl | Shr
    | Eq | Ne | Lt | Le | Gt | Ge
  {
    predicate IsChecked()
    {
      CheckedAdd? || CheckedSub? || CheckedMul?
    }
  }

  /** `From<&BinOp>`: every MIR operator has an image. */
  function FromMir(op: Mir.MirBinOp): (r: BinOpType)
    ensures r.IsChecked() <==> (op.AddWithOverflow? || op.SubWithOverflow? || op.MulWithOverflow?)
    ensures op.Rem? ==> r == Mod
    ensures op.Cmp? ==> r == Eq
    ensures op.Offset? ==> r == Add
  {
    match op
    case Add => Add
    case Sub => Sub
    case Mul => Mul
    case Div => Div
    case Rem => Mod
    case BitAnd => And
    case BitOr => Or
    case BitXor => Xor
    case Shl => Shl
    case Shr => Shr
    case Eq => Eq
    case Ne => Ne
    case Lt => Lt
    case Le => Le
    case Gt => Gt
    case Ge => Ge
    case AddUnchecked => Add
    case SubUnchecked => Sub
    case MulUnchecked => Mul
    case ShlUnchecked => Shl
    case ShrUnchecked => Shr
    case Cmp => Eq
    case Offset => Add
    case AddWithOverflow => CheckedAdd
    case SubWithOverflow => CheckedSub
    case MulWithOverflow => CheckedMul
  }

  /** The unchecked operators lower like their plain forms, and each
      overflow-reporting operator to its own checked variant. */
  lemma FromMirUncheckedAndChecked()
    ensures FromMir(Mir.AddUnchecked) == FromMir(Mir.Add)
    ensures FromMir(Mir.SubUnchecked) == FromMir(Mir.Sub)
    ensures FromMir(Mir.MulUnchecked) == FromMir(Mir.Mul)
    ensures FromMir(Mir.ShlUnchecked) == FromMir(Mir.Shl)
    ensures FromMir(Mir.ShrUnchecked) == FromMir(Mir.Shr)
    ensures FromMir(Mir.AddWithOverflow) == CheckedAdd
    ensures FromMir(Mir.SubWithOverflow) == CheckedSub
    ensures FromMir(Mir.MulWithOverflow) == CheckedMul
  {
    assert FromMir(Mir.AddUnchecked) == Add == FromMir(Mir.Add);
    assert FromMir(Mir.SubUnchecked) == Sub == FromMir(Mir.Sub);
    assert FromMir(Mir.MulUnchecked) == Mul == FromMir(Mir.Mul);
    assert FromMir(Mir.ShlUnchecked) == Shl == FromMir(Mir.Shl);
    assert FromMir(Mir.ShrUnchecked) == Shr == FromMir(Mir.Shr);
  }

  /** The C operator a `BinOpType` renders as. */
  function Symbol(op: BinOpType): string
  {
    match op
    case Add => "+"
    case Sub => "-"
    case Mul => "*"
    case CheckedAdd => "+"
    case CheckedSub => "-"
    case CheckedMul => "*"
    case Div => "/"
    case Mod => "%"
    case And => "&"
    case Or => "|"
    case Xor => "^"
    case Shl => "<<"
    case Shr => ">>"
    case Eq => "=="
    case Ne => "!="
    case Lt => "<"
    case Le => "<="
    case Gt => ">"
    case Ge => ">="
  }

  /** `Display`: the operator's name, used in helper function names. */
  function Display(op: BinOpType): string
  {
    match op
    case Add => "add"
    case Sub => "sub"
    case Mul => "mul"
    case CheckedAdd => "checked_add"
    case CheckedSub => "checked_sub"
    case CheckedMul => "checked_mul"
    case Div => "div"
    case Mod => "mod"
    case And => "and"
    case Or => "or"
    case Xor => "xor"
    case Shl => "shl"
    case Shr => "shr"
    case Eq => "eq"
    case Ne => "ne"
    case Lt => "lt"
    case Le => "le"
    case Gt => "gt"
    case Ge => "ge"
  }

  /** Reads a `Display` name back. */
  function FromDisplay(s: string): Option<BinOpType>
  {
    if s == "add" then Some(Add)
    else if s == "sub" then Some(Sub)
    else if s == "mul" then Some(Mul)
    else if s == "checked_add" then Some(CheckedAdd)
    else if s == "checked_sub" then Some(CheckedSub)
    else if s == "checked_mul" then Some(CheckedMul)
    else if s == "div" then Some(Div)
    else if s == "mod" then Some(Mod)
    else if s == "and" then Some(And)
    else if s == "or" then Some(Or)
    else if s == "xor" then Some(Xor)
    else if s == "shl" then Some(Shl)
    else if s == "shr" then Some(Shr)
    else if s == "eq" then Some(Eq)
    else if s == "ne" then Some(Ne)
    else if s == "lt" then Some(Lt)
    else if s == "le" then Some(Le)
    else if s == "gt" then Some(Gt)
    else if s == "ge" then Some(Ge)
    else None
  }

  lemma DisplayRoundTrip(op: BinOpType)
    ensures FromDisplay(Display(op)) == Some(op)
  {
  }

  /** No two operators share a name, so helper names built from them do
      not collide. */
  lemma DisplayInjective(a: BinOpType, b: BinOpType)
    ensures Display(a) == Display(b) ==> a == b
  {
    DisplayRoundTrip(a);
    DisplayRoundTrip(b);
  }

  /** A checked operator prints the C symbol of its plain operator, and is
      named apart from it. */
  lemma CheckedSymbols()
    ensures Symbol(CheckedAdd) == Symbol(Add) == "+"
    ensures Symbol(CheckedSub) == Symbol(Sub) == "-"
    ensures Symbol(CheckedMul) == Symbol(Mul) == "*"
    ensures Display(CheckedAdd) == "checked_add" && Display(CheckedSub) == "checked_sub"
    ensures Display(CheckedMul) == "checked_mul"
  {
  }

  datatype UnaryOpType = Neg | Not | BitNot

  function UnarySymbol(op: UnaryOpType): string
  {
    match op
    case Neg => "-"
    case Not => "!"
    case BitNot => "~"
  }

  /** `BasicBlockIdentifier`; a jump target is written `bb<n>`. */
  datatype BlockId = BlockId(index: nat)

  function BlockText(b: BlockId): string
  {
    "bb" + NatToString(b.index)
  }

  /** `VariableAccess`: one step applied to a variable, in order. `Unwrap`
      steps into the struct an array is boxed in. */
  datatype Access =
    | Reference
    | Dereference
    | Field(name: string)
    | Index(index: Expression)
    | CastTo(ty: CType)
    | FatPtrDereference(target: CType)
    | Unwrap

  /** `Expression`. `ArrayRepeat` is the array fill `stmt.rs` builds. */
  datatype Expression =
    | Constant(value: string)
    | Variable(local: nat, access: seq<Access>)
    | Assignment(lhs: Expression, rhs: Expression)
    | BinaryOp(op: BinOpType, lhs: Expression, rhs: Expression)
    | UnaryOp(uop: UnaryOpType, val: Expression)
    | StructLit(name: Expression, fields: seq<Expression>)
    | NamedStructLit(name: Expression, named: seq<(string, Expression)>)
    | ArrayExpr(elems: seq<Expression>)
    | Goto(target: BlockId)
    | Return(ret: Expression)
    | SwitchJump(scrutinee: Expression, cases: seq<(Expression, BlockId)>, otherwise: BlockId)
    | NoOp
    | FnCall(callee: Expression, args: seq<Expression>)
    | InlineAsm(asm: string)
    | CastExpr(ty: CType, operand: Expression)
    | ArrayRepeat(dest: Expression, repeated: Expression, count: nat)

  /** `Expression::repr`. The context is threaded left to right: only a
      cast expression renders a type with it, and that may consume the
      pending name and deepen the pointer level for what follows. A
      variable needs the current function's local names and panics
      without them. */
  function ExprText(e: Expression, c: ReprContext): (r: Result<(string, ReprContext)>)
    ensures r.Ok? ==> Evolves(c, r.value.1)
    ensures e.Variable? && c.curFn.None? ==> r.Panic?
    decreases e, 3
  {
    match e
    case Constant(v) => Ok((v, c))
    case Variable(local, acc) =>
      if c.curFn.None? then Panic("No current function set in context")
      else if local >= |c.curFn.value| then Panic("Local variable index out of range")
      else
        var s :- AccessText(c.curFn.value[local], acc, c);
        Ok((s, c))
    case Assignment(l, rhs) =>
      var ls :- ExprText(l, c);
      var rs :- ExprText(rhs, ls.1);
      Ok((ls.0 + " = " + rs.0, rs.1))
    case BinaryOp(op, l, rhs) =>
      var ls :- ExprText(l, c);
      var rs :- ExprText(rhs, ls.1);
      Ok((ls.0 + " " + Symbol(op) + " " + rs.0, rs.1))
    case UnaryOp(op, v) =>
      var vs :- ExprText(v, c);
      Ok((UnarySymbol(op) + vs.0, vs.1))
    case StructLit(name, fields) =>
      var ns :- ExprText(name, c);
      var fs :- ListText(fields, ns.1);
      Ok(("(" + ns.0 + "){ " + fs.0 + " }", fs.1))
    case NamedStructLit(name, named) =>
      var ns :- ExprText(name, c);
      var fs :- NamedListText(named, ns.1);
      Ok(("(" + ns.0 + "){ " + fs.0 + " }", fs.1))
    case ArrayExpr(elems) =>
      ListText(elems, c)
    case Goto(t) =>
      Ok(("goto " + BlockText(t), c))
    case Return(v) =>
      var vs :- ExprText(v, c);
      Ok(("return " + vs.0, vs.1))
    case SwitchJump(v, cases, d) =>
      var vs :- ExprText(v, c);
      var cs :- CasesText(cases, vs.1);
      Ok(("switch (" + vs.0 + ") {\n" + cs.0 + DefaultText(d, c), cs.1))
    case NoOp =>
      Ok((if c.includeComments then "/* NoOp */" else "", c))
    case FnCall(f, args) =>
      var fs :- ExprText(f, c);
      var as_ :- ListText(args, fs.1);
      Ok((fs.0 + "(" + as_.0 + ")", as_.1))
    case InlineAsm(asm) =>
      Ok(("asm(\"" + asm + "\")", c))
    case CastExpr(ty, v) =>
      var ts := TypeText(ty, c);
      var vs :- ExprText(v, ts.1);
      Ok(("(" + ts.0 + ")" + vs.0, vs.1))
    case ArrayRepeat(_, _, _) =>
      Panic("Repeat has no rendering")
  }

  function NewlineText(c: ReprContext): string
  {
    if c.includeNewline then "\n" else ""
  }

  /** The closing part of a switch: the default jump, then the brace. */
  function DefaultText(d: BlockId, c: ReprContext): string
  {
    IndentText(c) + "default: goto " + BlockText(d) + ";" + NewlineText(c) + IndentText(c) + "}"
  }

  /** Comma-separated expressions, each rendered in the context the previous
      one left. */
  function ListText(es: seq<Expression>, c: ReprContext): (r: Result<(string, ReprContext)>)
    ensures r.Ok? ==> Evolves(c, r.value.1)
    ensures |es| == 0 ==> r == Ok(("", c))
    decreases es, 2
  {
    if |es| == 0 then Ok(("", c))
    else
      var init :- ListText(es[..|es| - 1], c);
      var last :- ExprText(es[|es| - 1], init.1);
      Ok((if |es| == 1 then last.0 else init.0 + ", " + last.0, last.1))
  }

  /** Designated initialisers `.name = value`, comma-separated. */
  function NamedListText(fs: seq<(string, Expression)>, c: ReprContext): (r: Result<(string, ReprContext)>)
    ensures r.Ok? ==> Evolves(c, r.value.1)
    ensures |fs| == 0 ==> r == Ok(("", c))
    decreases fs, 2
  {
    if |fs| == 0 then Ok(("", c))
    else
      var init :- NamedListText(fs[..|fs| - 1], c);
      var f := fs[|fs| - 1];
      assert f.1 < f;
      var last :- ExprText(f.1, init.1);
      var entry := "." + f.0 + " = " + last.0;
      Ok((if |fs| == 1 then entry else init.0 + ", " + entry, last.1))
  }

  /** One `case v: goto t;` line per case, in order. */
  function CasesText(cases: seq<(Expression, BlockId)>, c: ReprContext): (r: Result<(string, ReprContext)>)
    ensures r.Ok? ==> Evolves(c, r.value.1)
    ensures |cases| == 0 ==> r == Ok(("", c))
    decreases cases, 2
  {
    if |cases| == 0 then Ok(("", c))
    else
      var init :- CasesText(cases[..|cases| - 1], c);
      var cs := cases[|cases| - 1];
      assert cs.0 < cs;
      var v :- ExprText(cs.0, init.1);
      Ok((init.0 + CaseLine(v.0, cs.1, c), v.1))
  }

  function CaseLine(v: string, t: BlockId, c: ReprContext): string
  {
    IndentText(c) + "case " + v + ": goto " + BlockText(t) + ";" + NewlineText(c)
  }

  /** The text of a variable: its name with every access step applied in
      turn, each step wrapping what the earlier ones produced. */
  function AccessText(base: string, acc: seq<Access>, c: ReprContext): (r: Result<string>)
    decreases acc, 1
  {
    if |acc| == 0 then Ok(base)
    else
      var prev :- AccessText(base, acc[..|acc| - 1], c);
      StepText(prev, acc[|acc| - 1], c)
  }

  /** One access step. Index expressions and types are rendered from a copy
      of the context, so the steps never change it. */
  function StepText(x: string, a: Access, c: ReprContext): (r: Result<string>)
    decreases a, 0
  {
    match a
    case Reference => Ok("&" + x)
    case Dereference => Ok("(*" + x + ")")
    case Field(n) => Ok(x + "." + n)
    case Index(ix) =>
      var s :- ExprText(ix, c);
      Ok(x + "[" + s.0 + "]")
    case CastTo(ty) => Ok("((" + TypeText(ty, c).0 + ")" + x + ")")
    case FatPtrDereference(ty) =>
      Ok("((" + TypeText(ty, c.(varName := Some(""))).0 + ") (" + x + "." + FAT_PTR_DATA_FIELD + "))")
    case Unwrap => Ok(x + "." + WRAPPER_FIELD_NAME)
  }

  /** The loop in `repr` for `Variable`: the text is reassigned once per
      access step. */
  method RenderAccess(base: string, acc: seq<Access>, c: ReprContext) returns (r: Result<string>)
    ensures r == AccessText(base, acc, c)
  {
    var s := base;
    var i := 0;
    while i < |acc|
      invariant 0 <= i <= |acc|
      invariant AccessText(base, acc[..i], c) == Ok(s)
    {
      assert acc[..i + 1][..i] == acc[..i];
      var step := StepText(s, acc[i], c);
      if step.Panic? {
        assert AccessText(base, acc[..i + 1], c) == step;
        r := step;
        AccessPanicSticks(base, acc, i + 1, c);
        return;
      }
      s := step.value;
      i := i + 1;
    }
    assert acc[..i] == acc;
    r := Ok(s);
  }

  /** Once a prefix of the steps panics, the whole chain does. */
  lemma {:induction false} AccessPanicSticks(base: string, acc: seq<Access>, k: nat, c: ReprContext)
    requires k <= |acc| && AccessText(base, acc[..k], c).Panic?
    ensures AccessText(base, acc, c) == AccessText(base, acc[..k], c)
    decreases |acc| - k
  {
    if k < |acc| {
      assert acc[..k + 1][..k] == acc[..k];
      AccessPanicSticks(base, acc, k + 1, c);
    } else {
      assert acc[..k] == acc;
    }
  }

  /** Appending steps continues from the text the earlier steps gave: the
      chain renders strictly left to right. */
  lemma {:induction false} AccessAppend(base: string, a: seq<Access>, b: seq<Access>, c: ReprContext)
    ensures AccessText(base, a + b, c) ==
      (match AccessText(base, a, c) case Ok(x) => AccessText(x, b, c) case Panic(m) => Panic(m))
    decreases |b|
  {
    if |b| == 0 {
      assert a + b == a;
    } else {
      var n := |b|;
      assert (a + b)[..|a + b| - 1] == a + b[..n - 1];
      assert (a + b)[|a + b| - 1] == b[n - 1];
      AccessAppend(base, a, b[..n - 1], c);
    }
  }

  // Constructors.

  /** `unbvari`: the plain variable, with no access steps. */
  function Unbvari(local: nat): (r: Expression)
    ensures r.Variable? && r.local == local && r.access == []
  {
    Variable(local, [])
  }

  /** `const_int`: a decimal constant. */
  function ConstInt(v: int): (r: Expression)
    ensures r.Constant? && |r.value| > 0 && (r.value[0] == '-' <==> v < 0)
  {
    Constant(IntToString(v))
  }

  /** `arr_vari`: element `idx` of local `local`. */
  function ArrVari(local: nat, idx: nat): (r: Expression)
    ensures r.Variable? && r.local == local && |r.access| == 1
    ensures r.access[0].Index? && r.access[0].index == ConstInt(idx)
  {
    Variable(local, [Index(ConstInt(idx))])
  }

  /** `fatptr`: a compound literal of the fat pointer struct, data first. */
  function FatPtrLit(data: Expression, meta: Expression): (r: Expression)
    ensures r.StructLit? && r.name == Constant(FAT_PTR_NAME) && r.fields == [data, meta]
  {
    StructLit(Constant(FAT_PTR_NAME), [data, meta])
  }

  /** `assign` and the comparison builders `gt`, `lt`, `neq`, `equ`. */
  function Assign(lhs: Expression, rhs: Expression): Expression
  {
    Assignment(lhs, rhs)
  }

  function Compare(op: BinOpType, lhs: Expression, rhs: Expression): Expression
    requires op in {Gt, Lt, Ne, Eq}
  {
    BinaryOp(op, lhs, rhs)
  }

  /** `arr_vari(l, i)` renders as the local's name indexed by `i`. */
  lemma ArrVariText(local: nat, idx: nat, c: ReprContext)
    requires c.curFn.Some? && local < |c.curFn.value|
    ensures ExprText(ArrVari(local, idx), c) == Ok((c.curFn.value[local] + "[" + NatToString(idx) + "]", c))
  {
    var acc := [Index(ConstInt(idx))];
    assert acc[..0] == [];
    assert AccessText(c.curFn.value[local], acc, c) == Ok(c.curFn.value[local] + "[" + NatToString(idx) + "]");
  }

  /** A comparison renders its operands around the operator, spaced. */
  lemma CompareText(op: BinOpType, l: string, r: string, c: ReprContext)
    requires op in {Gt, Lt, Ne, Eq}
    ensures ExprText(Compare(op, Constant(l), Constant(r)), c) == Ok((l + " " + Symbol(op) + " " + r, c))
  {
  }

  /** A cast to a plain named type, outside any pointer and with no
      pending name, renders as `((type)x)`. */
  lemma CastStepText(x: string, ty: CType, c: ReprContext)
    requires IsNamed(ty) && c.nPtr == 0 && c.varName == None
    ensures StepText(x, CastTo(ty), c) == Ok("((" + BaseName(ty) + ")" + x + ")")
  {
    assert Repeat("*", 0) == "" && NameSuffix(c) == "";
    assert TypeText(ty, c).0 == BaseName(ty) + "" + "";
    assert BaseName(ty) + "" + "" == BaseName(ty);
  }

  /** The constant values of a list of constants, in order. */
  function ConstValues(es: seq<Expression>): (r: seq<string>)
    requires forall i :: 0 <= i < |es| ==> es[i].Constant?
    ensures |r| == |es|
    ensures forall i :: 0 <= i < |es| ==> r[i] == es[i].value
  {
    if |es| == 0 then [] else ConstValues(es[..|es| - 1]) + [es[|es| - 1].value]
  }

  /** Constants are separated by `, ` with nothing before the first or after
      the last. */
  lemma {:induction false} ConstListText(es: seq<Expression>, c: ReprContext)
    requires forall i :: 0 <= i < |es| ==> es[i].Constant?
    ensures ListText(es, c) == Ok((Join(ConstValues(es), ", "), c))
  {
    if |es| > 0 {
      var init := es[..|es| - 1];
      ConstListText(init, c);
      assert ConstValues(es)[..|es| - 1] == ConstValues(init);
    }
  }

  /** A compound literal of constants: `(name){ a, b }`. */
  lemma StructLitText(name: string, es: seq<Expression>, c: ReprContext)
    requires forall i :: 0 <= i < |es| ==> es[i].Constant?
    ensures ExprText(StructLit(Constant(name), es), c) ==
      Ok(("(" + name + "){ " + Join(ConstValues(es), ", ") + " }", c))
  {
    ConstListText(es, c);
  }

  /** A call: `f(a, b)`, with no separator after the last argument. */
  lemma FnCallText(name: string, es: seq<Expression>, c: ReprContext)
    requires forall i :: 0 <= i < |es| ==> es[i].Constant?
    ensures ExprText(FnCall(Constant(name), es), c) == Ok((name + "(" + Join(ConstValues(es), ", ") + ")", c))
  {
    ConstListText(es, c);
  }

  /** The fat pointer literal lists data, then metadata. */
  lemma FatPtrLitText(data: string, meta: string, c: ReprContext)
    ensures ExprText(FatPtrLit(Constant(data), Constant(meta)), c) ==
      Ok(("(" + FAT_PTR_NAME + "){ " + data + ", " + meta + " }", c))
  {
    StructLitText(FAT_PTR_NAME, [Constant(data), Constant(meta)], c);
    assert ConstValues([Constant(data), Constant(meta)]) == [data, meta];
    assert [data, meta][..1] == [data];
    assert Join([data, meta], ", ") == Join([data], ", ") + ", " + meta;
    var pre := "(" + FAT_PTR_NAME + "){ ";
    assert pre + (data + ", " + meta) + " }" == pre + data + ", " + meta + " }";
  }

  /** The lines of the cases, one per case, in order. */
  function CaseLines(cases: seq<(Expression, BlockId)>, c: ReprContext): (r: seq<string>)
    requires forall i :: 0 <= i < |cases| ==> cases[i].0.Constant?
    ensures |r| == |cases|
    ensures forall i :: 0 <= i < |cases| ==> r[i] == CaseLine(cases[i].0.value, cases[i].1, c)
  {
    if |cases| == 0 then []
    else CaseLines(cases[..|cases| - 1], c) + [CaseLine(cases[|cases| - 1].0.value, cases[|cases| - 1].1, c)]
  }

  /** The cases of a switch over constants are one line per case, in order. */
  lemma {:induction false} CasesLinesText(cases: seq<(Expression, BlockId)>, c: ReprContext)
    requires forall i :: 0 <= i < |cases| ==> cases[i].0.Constant?
    ensures CasesText(cases, c) == Ok((Concat(CaseLines(cases, c)), c))
  {
    if |cases| > 0 {
      var init := cases[..|cases| - 1];
      CasesLinesText(init, c);
      var last := cases[|cases| - 1];
      assert ExprText(last.0, c) == Ok((last.0.value, c));
      assert CaseLines(cases, c)[..|cases| - 1] == CaseLines(init, c);
    }
  }

  /** A switch over constant cases is its header, one line per case, and
      exactly one default jump after them, also when there are no cases. */
  lemma SwitchText(v: string, cases: seq<(Expression, BlockId)>, d: BlockId, c: ReprContext)
    requires forall i :: 0 <= i < |cases| ==> cases[i].0.Constant?
    ensures ExprText(SwitchJump(Constant(v), cases, d), c) ==
      Ok(("switch (" + v + ") {\n" + Concat(CaseLines(cases, c)) + DefaultText(d, c), c))
  {
    CasesLinesText(cases, c);
  }
}
