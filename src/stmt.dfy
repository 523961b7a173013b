/** stmt.rs, the statement side: `Statement` and its rendering, the
    collapse `handle_stmt` applies to what an assignment lowered to, and how
    constants are written (`handle_const_value`). The place and rvalue
    lowering of the same file is module `Place`. */
module Stmt {
  import opened Wrappers
  import opened Strings
  import opened CRepr
  import opened Ty
  import opened Expr

  /** `Statement`: an optional expression and an optional comment. */
  datatype Statement = Statement(expression: Option<Expression>, comment: Option<string>)

  /** `Statement::new`, `from_expression` and `from_comment`. */
  function NewStatement(e: Expression, comment: string): (s: Statement)
    ensures s.expression == Some(e) && s.comment == Some(comment)
  {
    Statement(Some(e), Some(comment))
  }

  function FromExpression(e: Expression): (s: Statement)
    ensures s.expression == Some(e) && s.comment.None?
  {
    Statement(Some(e), None)
  }

  function FromComment(comment: string): (s: Statement)
    ensures s.expression.None? && s.comment == Some(comment)
  {
    Statement(None, Some(comment))
  }

  /** The comment line, written only when comments are on. */
  function CommentText(s: Statement, c: ReprContext): string
  {
    if c.includeComments && s.comment.Some? then IndentText(c) + "/* " + s.comment.value + " */\n" else ""
  }

  /** `Statement::repr`: the comment line, then the indented expression,
      `;` unless the expression is `NoOp`, and a newline when newlines are
      on. The context the expression leaves is passed on. */
  function StatementText(s: Statement, c: ReprContext): (r: Result<(string, ReprContext)>)
    ensures s.expression.None? ==> r == Ok((CommentText(s, c), c))
    ensures r.Ok? ==> Evolves(c, r.value.1)
  {
    match s.expression
    case None => Ok((CommentText(s, c), c))
    case Some(e) =>
      var es :- ExprText(e, c);
      var semi := if e.NoOp? then "" else ";";
      var nl := if c.includeNewline then "\n" else "";
      Ok((CommentText(s, c) + IndentText(c) + es.0 + semi + nl, es.1))
  }

  /** With comments off, the comment makes no difference. */
  lemma CommentsHiddenWhenOff(s: Statement, c: ReprContext)
    requires !c.includeComments
    ensures StatementText(s, c) == StatementText(s.(comment := None), c)
  {
  }

  /** With comments on, a statement's text starts with its comment line. */
  lemma CommentShownWhenOn(s: Statement, c: ReprContext)
    requires c.includeComments && s.comment.Some? && StatementText(s, c).Ok?
    ensures var t := StatementText(s, c).value.0;
      var line := IndentText(c) + "/* " + s.comment.value + " */\n";
      |t| >= |line| && t[..|line|] == line
  {
    var line := IndentText(c) + "/* " + s.comment.value + " */\n";
    if s.expression.Some? {
      var e := s.expression.value;
      var es := ExprText(e, c).value;
      var rest := IndentText(c) + es.0 + (if e.NoOp? then "" else ";") + (if c.includeNewline then "\n" else "");
      assert StatementText(s, c).value.0 == line + rest;
    }
  }

  /** A statement with an expression ends with `;` unless the expression is
      `NoOp`, then with a newline exactly when newlines are on. */
  lemma StatementEnding(e: Expression, comment: Option<string>, c: ReprContext)
    requires StatementText(Statement(Some(e), comment), c).Ok?
    ensures var t := StatementText(Statement(Some(e), comment), c).value.0;
      var nl := if c.includeNewline then "\n" else "";
      var tail := (if e.NoOp? then ExprText(e, c).value.0 else ";") + nl;
      |t| >= |tail| && t[|t| - |tail|..] == tail
  {
    var t := StatementText(Statement(Some(e), comment), c).value.0;
    var es := ExprText(e, c).value.0;
    var nl := if c.includeNewline then "\n" else "";
    var pre := CommentText(Statement(Some(e), comment), c) + IndentText(c);
    if e.NoOp? {
      assert t == pre + (es + nl);
    } else {
      assert t == pre + es + (";" + nl);
    }
  }

  /** A `NoOp` statement without comments, in a context without comments
      or newlines, is only its indentation. */
  lemma NoOpStatementText(c: ReprContext)
    requires !c.includeComments && !c.includeNewline
    ensures StatementText(FromExpression(NoOp), c) == Ok((IndentText(c), c))
  {
    assert CommentText(FromExpression(NoOp), c) == "";
    assert ExprText(NoOp, c) == Ok(("", c));
    assert "" + IndentText(c) + "" + "" + "" == IndentText(c);
  }

  /** A MIR statement as `handle_stmt` sees it: an assignment, already
      lowered by `handle_assign` (module `Place`), or any other kind. */
  datatype MirStatementKind = AssignStmt(lowered: Expression) | OtherStmt

  /** The collapse `handle_stmt` applies: an assignment of `NoOp` becomes a
      bare `NoOp`; anything else is kept. */
  function Collapse(e: Expression): (r: Expression)
    ensures r == e || r == NoOp
    ensures !(r.Assignment? && r.rhs.NoOp?)
    ensures r.NoOp? <==> (e.NoOp? || (e.Assignment? && e.rhs.NoOp?))
  {
    if e.Assignment? && e.rhs.NoOp? then NoOp else e
  }

  /** `handle_stmt`: the collapsed lowering of an assignment, `NoOp` for
      every other kind, commented with `//` and the MIR statement's debug
      text. */
  function HandleStmt(kind: MirStatementKind, debug: string): (s: Statement)
    ensures s.comment == Some("//" + debug)
    ensures kind.OtherStmt? ==> s.expression == Some(NoOp)
    ensures kind.AssignStmt? ==> s.expression == Some(Collapse(kind.lowered))
  {
    var e := match kind
      case AssignStmt(lowered) => Collapse(lowered)
      case OtherStmt => NoOp;
    NewStatement(e, "//" + debug)
  }

  /** Collapsing twice is collapsing once. */
  lemma CollapseIdempotent(e: Expression)
    ensures Collapse(Collapse(e)) == Collapse(e)
  {
  }

  // Constants.

  /** An evaluated MIR constant, by the type it has. `SignedConst` carries
      the value and the byte size of its type; `PtrConst` and `SliceConst`
      carry the bytes of the allocation they point to. */
  datatype MirConst =
    | SignedConst(value: int, size: nat)
    | UnsignedConst(uvalue: nat)
    | BoolConst(b: bool)
    | CharConst(ch: char)
    | OtherScalarConst(bitsValue: nat)
    | PtrConst(bytes: seq<Byte>)
    | ZeroSizedConst(tyName: string)
    | SliceConst(data: seq<Byte>, meta: nat)
    | UnhandledConst

  /** `scalar_to_u128` of a signed scalar: the bit pattern of its two's
      complement in `8 * size` bits, read as unsigned. */
  function SignedBits(value: int, size: nat): (r: nat)
    ensures r < Utils.Pow2(8 * size)
  {
    value % Utils.Pow2(8 * size)
  }

  /** `\xNN` for each byte, two lower-case hex digits. */
  function EscapeBytes(bs: seq<Byte>): (r: string)
    ensures |r| == 4 * |bs|
  {
    if |bs| == 0 then "" else "\\x" + Hex2(bs[0], false) + EscapeBytes(bs[1..])
  }

  /** `handle_const_value`. */
  function ConstText(k: MirConst): (r: Expression)
  {
    match k
    case SignedConst(v, size) => Constant(NatToString(SignedBits(v, size)))
    case UnsignedConst(v) => Constant(NatToString(v) + "u")
    case BoolConst(b) => Constant(if b then "true" else "false")
    case CharConst(ch) => Constant("'" + [ch] + "'")
    case OtherScalarConst(v) => Constant(NatToString(v))
    case PtrConst(bs) => Constant("\"" + EscapeBytes(bs) + "\"")
    case ZeroSizedConst(name) => Constant(name)
    case SliceConst(bs, meta) =>
      FatPtrLit(Constant("\"" + EscapeBytes(bs) + "\""), CastExpr(Pointer(Void), ConstInt(meta)))
    case UnhandledConst => NoOp
  }

  /** Unsigned constants are decimal with a `u` suffix. */
  lemma UnsignedConstText(v: nat)
    ensures var r := ConstText(UnsignedConst(v)).value;
      r[..|r| - 1] == NatToString(v) && r[|r| - 1] == 'u'
  {
  }

  /** A signed constant that fits the non-negative half of its type prints
      as plain decimal. */
  lemma SignedConstNonNegative(v: nat, size: nat)
    requires v < Utils.Pow2(8 * size)
    ensures ConstText(SignedConst(v, size)) == Constant(NatToString(v))
  {
    Utils.ModUnique(v, Utils.Pow2(8 * size), 0, v);
  }

  /** A negative signed constant prints its two's-complement bit pattern,
      with no minus sign: `-1i32` is written `4294967295`. */
  lemma SignedConstNegative(v: int, size: nat)
    requires v < 0 && Utils.Pow2(8 * size) + v >= 0
    ensures ConstText(SignedConst(v, size)) == Constant(NatToString(Utils.Pow2(8 * size) + v))
    ensures ConstText(SignedConst(v, size)).value[0] != '-'
  {
    Utils.ModNegative(v, Utils.Pow2(8 * size));
    NatToStringDigits(Utils.Pow2(8 * size) + v);
  }

  lemma MinusOneI32()
    ensures ConstText(SignedConst(-1, 4)) == Constant("4294967295")
  {
    Utils.Pow2Values();
    SignedConstNegative(-1, 4);
  }

  /** The value of a lower-case hex digit. */
  function HexValue(ch: char): Option<nat>
  {
    if '0' <= ch <= '9' then Some(ch as nat - '0' as nat)
    else if 'a' <= ch <= 'f' then Some(ch as nat - 'a' as nat + 10)
    else None
  }

  /** Reads back a run of `\xNN` escapes. */
  function UnescapeBytes(s: string): (r: Option<seq<Byte>>)
    decreases |s|
  {
    if |s| == 0 then Some([])
    else if |s| < 4 || s[0] != '\\' || s[1] != 'x' then None
    else match (HexValue(s[2]), HexValue(s[3]))
      case (Some(h), Some(l)) =>
        if h < 16 && l < 16 then
          match UnescapeBytes(s[4..])
          case Some(rest) => Some([(16 * h + l) as Byte] + rest)
          case None => None
        else None
      case _ => None
  }

  lemma HexDigitValue(d: nat)
    requires d < 16
    ensures HexValue(HexDigit(d, false)) == Some(d)
  {
    var ds := "0123456789abcdef";
    assert HexDigit(d, false) == ds[d];
    if d < 10 {
      assert ds[d] as nat == '0' as nat + d;
    } else {
      assert ds[d] as nat == 'a' as nat + (d - 10);
    }
  }

  /** One escape at the front of the text reads back as its byte. */
  lemma UnescapeOne(b: Byte, t: string)
    ensures UnescapeBytes("\\x" + Hex2(b, false) + t) ==
      (match UnescapeBytes(t) case Some(rest) => Some([b] + rest) case None => None)
  {
    var s := "\\x" + Hex2(b, false) + t;
    HexDigitValue(b / 16);
    HexDigitValue(b % 16);
    assert s[0] == '\\' && s[1] == 'x';
    assert s[2] == HexDigit(b / 16, false) && s[3] == HexDigit(b % 16, false);
    assert s[4..] == t;
    assert 16 * (b / 16) + b % 16 == b;
  }

  /** Escaping loses nothing: the bytes can be read back from the text. */
  lemma {:induction false} EscapeBytesRoundTrip(bs: seq<Byte>)
    ensures UnescapeBytes(EscapeBytes(bs)) == Some(bs)
  {
    if |bs| > 0 {
      UnescapeOne(bs[0], EscapeBytes(bs[1..]));
      EscapeBytesRoundTrip(bs[1..]);
      assert [bs[0]] + bs[1..] == bs;
    }
  }

  /** A constant byte slice becomes a fat pointer whose data is the quoted
      escaped bytes and whose metadata is the length cast to `void*`. */
  lemma SliceConstShape(bs: seq<Byte>, meta: nat)
    ensures var e := ConstText(SliceConst(bs, meta));
      e.StructLit? && e.fields[0].Constant? &&
      UnescapeBytes(e.fields[0].value[1..|e.fields[0].value| - 1]) == Some(bs) &&
      e.fields[1] == CastExpr(Pointer(Void), ConstInt(meta))
  {
    var q := "\"" + EscapeBytes(bs) + "\"";
    assert q[1..|q| - 1] == EscapeBytes(bs);
    EscapeBytesRoundTrip(bs);
  }
}
