/** crepr.rs: the context every `repr` receives, indentation, and the older
    expression tree (with `CheckedBinaryOp` and indexed variables) that the
    checked-arithmetic helpers are built from. */
module CRepr {
  import opened Wrappers
  import opened Strings
  import opened Mir

  /** `RepresentationContext`. `nPtr` is the pointer depth a type is being
      rendered at and `varName` the declarator name still to be written;
      `curFn` carries the local variable names of the function being
      rendered (the `cur_fn` the newer expression renderer consults). */
  datatype ReprContext = ReprContext(
    indent: nat,
    indentString: string,
    includeNewline: bool,
    includeComments: bool,
    varName: Option<string>,
    nPtr: nat,
    curFn: Option<seq<string>>)

  /** The context `default_repr` uses: one level of tab indentation,
      newlines and comments on, everything else at its default. */
  function DefaultContext(): (c: ReprContext)
    ensures c.indent == 1 && c.indentString == "\t"
    ensures c.includeNewline && c.includeComments
    ensures c.varName == None && c.nPtr == 0 && c.curFn == None
  {
    ReprContext(1, "\t", true, true, None, 0, None)
  }

  /** The context `indented_repr` passes on. */
  function Indented(c: ReprContext): (r: ReprContext)
    ensures r.indent == c.indent + 1
    ensures r.(indent := c.indent) == c
  {
    c.(indent := c.indent + 1)
  }

  /** `indent`: the indent string written `indent` times. */
  function IndentText(c: ReprContext): (r: string)
    ensures |r| == |c.indentString| * c.indent
  {
    Repeat(c.indentString, c.indent)
  }

  /** One more level of indentation writes exactly one more indent string. */
  lemma IndentedIndentText(c: ReprContext)
    ensures IndentText(Indented(c)) == IndentText(c) + c.indentString
  {
  }

  /** The older `BinOpType`: no checked variants. */
  datatype OBinOp = OAdd | OSub | OMul | ODiv | OMod | OAnd | OOr | OXor | OShl | OShr
                  | OEq | ONe | OLt | OLe | OGt | OGe

  /** The older `From<&BinOp>`. It predates the `*WithOverflow` operators,
      so those are outside its domain. */
  function OBinOpFromMir(op: MirBinOp): (r: OBinOp)
    requires !op.AddWithOverflow? && !op.SubWithOverflow? && !op.MulWithOverflow?
    ensures op.Rem? ==> r == OMod
    ensures op.Cmp? ==> r == OEq
    ensures op.Offset? ==> r == OAdd
  {
    match op
    case Add => OAdd
    case Sub => OSub
    case Mul => OMul
    case Div => ODiv
    case Rem => OMod
    case BitAnd => OAnd
    case BitOr => OOr
    case BitXor => OXor
    case Shl => OShl
    case Shr => OShr
    case Eq => OEq
    case Ne => ONe
    case Lt => OLt
    case Le => OLe
    case Gt => OGt
    case Ge => OGe
    case AddUnchecked => OAdd
    case SubUnchecked => OSub
    case MulUnchecked => OMul
    case ShlUnchecked => OShl
    case ShrUnchecked => OShr
    case Cmp => OEq
    case Offset => OAdd
  }

  /** An unchecked MIR operator lowers to the same operator as its plain form. */
  lemma OUncheckedAsPlain()
    ensures OBinOpFromMir(AddUnchecked) == OBinOpFromMir(Add)
    ensures OBinOpFromMir(SubUnchecked) == OBinOpFromMir(Sub)
    ensures OBinOpFromMir(MulUnchecked) == OBinOpFromMir(Mul)
    ensures OBinOpFromMir(ShlUnchecked) == OBinOpFromMir(Shl)
    ensures OBinOpFromMir(ShrUnchecked) == OBinOpFromMir(Shr)
  {
  }

  /** The C operator each older `BinOpType` renders as. */
  function OBinOpSymbol(op: OBinOp): string
  {
    match op
    case OAdd => "+"
    case OSub => "-"
    case OMul => "*"
    case ODiv => "/"
    case OMod => "%"
    case OAnd => "&"
    case OOr => "|"
    case OXor => "^"
    case OShl => "<<"
    case OShr => ">>"
    case OEq => "=="
    case ONe => "!="
    case OLt => "<"
    case OLe => "<="
    case OGt => ">"
    case OGe => ">="
  }

  /** Every older operator has its own C symbol. */
  lemma OBinOpSymbolInjective(a: OBinOp, b: OBinOp)
    ensures OBinOpSymbol(a) == OBinOpSymbol(b) <==> a == b
  {
  }

  datatype UnaryOp = Neg | Not | BitNot

  function UnaryOpSymbol(op: UnaryOp): string
  {
    match op
    case Neg => "-"
    case Not => "!"
    case BitNot => "~"
  }

  /** The older `Expression`. */
  datatype OExpr =
    | OConstant(value: string)
    | OVariable(local: nat, idx: Option<nat>)
    | OAssignment(lhs: OExpr, rhs: OExpr)
    | OBinaryOp(op: OBinOp, lhs: OExpr, rhs: OExpr)
    | OCheckedBinaryOp(op: OBinOp, lhs: OExpr, rhs: OExpr)
    | OUnaryOp(uop: UnaryOp, val: OExpr)
    | OStruct(name: string, fields: seq<OExpr>)
    | OArray(elems: seq<OExpr>)
    | OReturn(ret: OExpr)
    | ONoOp

  /** The older `Expression::repr`. The only failure is the `unreachable!`
      of a checked operation other than `+`, `-` or `*`. */
  function OExprText(e: OExpr, c: ReprContext): (r: Result<string>)
    decreases e, 1
  {
    match e
    case OConstant(v) => Ok(v)
    case OVariable(local, idx) =>
      (match idx
       case Some(i) => Ok("var" + NatToString(local) + "[" + NatToString(i) + "]")
       case None => Ok("var" + NatToString(local)))
    case OAssignment(l, rhs) =>
      var ls :- OExprText(l, c);
      var rs :- OExprText(rhs, c);
      Ok(ls + " = " + rs)
    case OBinaryOp(op, l, rhs) =>
      var ls :- OExprText(l, c);
      var rs :- OExprText(rhs, c);
      Ok(ls + " " + OBinOpSymbol(op) + " " + rs)
    case OCheckedBinaryOp(op, l, rhs) =>
      if op == OAdd || op == OSub || op == OMul then
        var ls :- OExprText(l, c);
        var rs :- OExprText(rhs, c);
        Ok(ls + " " + OBinOpSymbol(op) + " " + rs)
      else
        Panic("CheckedBinaryOp doesn't exist for this type")
    case OUnaryOp(op, v) =>
      var vs :- OExprText(v, c);
      Ok(UnaryOpSymbol(op) + vs)
    case OStruct(name, fields) =>
      var fs :- OExprsText(fields, c);
      Ok("(struct " + name + "){ " + Join(fs, ", ") + " }")
    case OArray(elems) =>
      var fs :- OExprsText(elems, c);
      Ok(Join(fs, ", "))
    case OReturn(v) =>
      var vs :- OExprText(v, c);
      Ok("return " + vs)
    case ONoOp => Ok(if c.includeComments then "/* NoOp */" else "")
  }

  /** The renderings of a list of expressions, in order. */
  function OExprsText(es: seq<OExpr>, c: ReprContext): (r: Result<seq<string>>)
    ensures r.Ok? ==> |r.value| == |es|
    ensures r.Ok? <==> forall i :: 0 <= i < |es| ==> OExprText(es[i], c).Ok?
    ensures r.Ok? ==> forall i :: 0 <= i < |es| ==> r.value[i] == OExprText(es[i], c).value
    decreases es, 0
  {
    if |es| == 0 then Ok([])
    else
      var init :- OExprsText(es[..|es| - 1], c);
      var last :- OExprText(es[|es| - 1], c);
      Ok(init + [last])
  }

  /** A checked `+`, `-` or `*` renders exactly like the plain operation;
      any other checked operator aborts. */
  lemma CheckedRendersLikePlain(op: OBinOp, l: OExpr, r: OExpr, c: ReprContext)
    ensures op in {OAdd, OSub, OMul} ==>
      OExprText(OCheckedBinaryOp(op, l, r), c) == OExprText(OBinaryOp(op, l, r), c)
    ensures op !in {OAdd, OSub, OMul} ==> OExprText(OCheckedBinaryOp(op, l, r), c).Panic?
  {
  }

  /** `var{local}` without an index, `var{local}[{idx}]` with one; distinct
      variables render distinctly. */
  lemma OVariableTextInjective(a: nat, b: nat, c: ReprContext)
    requires a != b
    ensures OExprText(OVariable(a, None), c) != OExprText(OVariable(b, None), c)
  {
    NatToStringInjective(a, b);
    var x, y := NatToString(a), NatToString(b);
    assert ("var" + x)[3..] == x;
    assert ("var" + y)[3..] == y;
  }

  /** The older struct literal: `(struct name){ ` and the fields separated
      by `, `. */
  lemma OStructText(name: string, a: string, b: string, c: ReprContext)
    ensures OExprText(OStruct(name, [OConstant(a), OConstant(b)]), c) == Ok("(struct " + name + "){ " + a + ", " + b + " }")
  {
    var fs := [OConstant(a), OConstant(b)];
    assert fs[..1] == [OConstant(a)] && fs[..1][..0] == [];
    assert OExprsText(fs[..1][..0], c) == Ok([]);
    assert OExprText(fs[0], c) == Ok(a) && OExprText(fs[1], c) == Ok(b);
    assert [] + [a] == [a] && [a] + [b] == [a, b];
    assert OExprsText(fs[..1], c) == Ok([a]);
    assert OExprsText(fs, c) == Ok([a, b]);
    assert [a, b][..1] == [a];
    assert Join([a, b], ", ") == a + ", " + b;
    assert OExprText(OStruct(name, fs), c) == Ok("(struct " + name + "){ " + Join([a, b], ", ") + " }");
    assert "(struct " + name + "){ " + (a + ", " + b) + " }" == "(struct " + name + "){ " + a + ", " + b + " }";
  }

  /** The older no-op prints only as a comment, and only when comments are
      on; otherwise it prints nothing. */
  lemma ONoOpText(c: ReprContext)
    ensures OExprText(ONoOp, c).Ok?
    ensures OExprText(ONoOp, c).value == "" <==> !c.includeComments
  {
  }
}
