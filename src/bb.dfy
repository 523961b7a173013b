/** bb.rs: a basic block is the list of C statements one MIR block lowers
    to, rendered one after the other; `handle_bbs` builds one per MIR block,
    headed by a comment carrying the block's debug text. */
module Bb {
  import opened Wrappers
  import opened CRepr
  import opened Expr
  import opened Stmt

  /** The rendering of a list of statements: each statement's text, in
      order. `BasicBlock::repr` hands every statement the same context, so
      what one statement's types consume is not seen by the next. The first
      statement that fails to render aborts the block. */
  function StatementsText(ss: seq<Statement>, c: ReprContext): (r: Result<string>)
    ensures |ss| == 0 ==> r == Ok("")
    ensures r.Ok? <==> forall i :: 0 <= i < |ss| ==> StatementText(ss[i], c).Ok?
  {
    if |ss| == 0 then Ok("")
    else
      var init :- StatementsText(ss[..|ss| - 1], c);
      var last :- StatementText(ss[|ss| - 1], c);
      Ok(init + last.0)
  }

  /** The text of two lists of statements is the text of the first
      followed by that of the second. */
  lemma {:induction false} StatementsTextAppend(a: seq<Statement>, b: seq<Statement>, c: ReprContext)
    requires StatementsText(a, c).Ok? && StatementsText(b, c).Ok?
    ensures StatementsText(a + b, c) == Ok(StatementsText(a, c).value + StatementsText(b, c).value)
    decreases |b|
  {
    if |b| == 0 {
      assert a + b == a;
      assert StatementsText(b, c) == Ok("");
      assert StatementsText(a, c).value + "" == StatementsText(a, c).value;
    } else {
      var b', l := b[..|b| - 1], b[|b| - 1];
      assert b == b' + [l];
      assert (a + b) == (a + b') + [l];
      assert StatementsText(b', c).Ok? && StatementText(l, c).Ok?;
      StatementsTextAppend(a, b', c);
      PushExtendsText(b', l, c);
      PushExtendsText(a + b', l, c);
      var pa, pb, pl := StatementsText(a, c).value, StatementsText(b', c).value, StatementText(l, c).value.0;
      assert (pa + pb) + pl == pa + (pb + pl);
    }
  }

  /** `BasicBlock`: the statements, in the order they were pushed. */
  class BasicBlock {
    var statements: seq<Statement>

    /** `BasicBlock::new`: no statements. */
    constructor()
      ensures statements == []
    {
      statements := [];
    }

    /** `is_empty`. */
    predicate IsEmpty()
      reads this
    {
      |statements| == 0
    }

    /** `push`: appends one statement. */
    method Push(s: Statement)
      modifies this
      ensures statements == old(statements) + [s]
    {
      statements := statements + [s];
    }

    /** `clear`: drops every statement. */
    method Clear()
      modifies this
      ensures statements == [] && IsEmpty()
    {
      statements := [];
    }

    /** `repr`: renders each statement in turn, stopping at the first that
        fails. */
    method Render(c: ReprContext) returns (r: Result<string>)
      ensures r == StatementsText(statements, c)
    {
      var out := "";
      var i := 0;
      while i < |statements|
        invariant 0 <= i <= |statements|
        invariant StatementsText(statements[..i], c) == Ok(out)
      {
        assert statements[..i + 1][..i] == statements[..i];
        var st := StatementText(statements[i], c);
        if st.Panic? {
          assert !StatementsText(statements[..i + 1], c).Ok?;
          PanicInPrefix(statements, i + 1, c);
          return Panic(st.reason);
        }
        out := out + st.value.0;
        i := i + 1;
      }
      assert statements[..i] == statements;
      r := Ok(out);
    }
  }

  /** A statement that fails in a prefix makes the whole list fail, with the
      same reason. */
  lemma {:induction false} PanicInPrefix(ss: seq<Statement>, k: nat, c: ReprContext)
    requires 0 < k <= |ss|
    requires StatementsText(ss[..k - 1], c).Ok? && StatementText(ss[k - 1], c).Panic?
    ensures StatementsText(ss, c) == Panic(StatementText(ss[k - 1], c).reason)
    decreases |ss|
  {
    if k == |ss| {
      assert ss[..k - 1] == ss[..|ss| - 1];
    } else {
      var init := ss[..|ss| - 1];
      assert init[..k - 1] == ss[..k - 1];
      assert init[k - 1] == ss[k - 1];
      PanicInPrefix(init, k, c);
    }
  }

  /** Pushing a statement adds exactly its text to the block's rendering. */
  lemma PushExtendsText(ss: seq<Statement>, s: Statement, c: ReprContext)
    requires StatementsText(ss, c).Ok? && StatementText(s, c).Ok?
    ensures StatementsText(ss + [s], c) == Ok(StatementsText(ss, c).value + StatementText(s, c).value.0)
  {
    assert (ss + [s])[..|ss|] == ss;
  }

  /** A MIR block as `handle_bbs` sees it: its debug text and, per
      statement, what `handle_stmt` receives. */
  datatype MirBlock = MirBlock(debug: string, stmts: seq<(MirStatementKind, string)>)

  /** The statements `handle_stmt` makes of a block's MIR statements, one
      each, in order. */
  function HandledStmts(ms: seq<(MirStatementKind, string)>): (r: seq<Statement>)
    ensures |r| == |ms|
    ensures forall i :: 0 <= i < |ms| ==> r[i] == HandleStmt(ms[i].0, ms[i].1)
  {
    if |ms| == 0 then []
    else HandledStmts(ms[..|ms| - 1]) + [HandleStmt(ms[|ms| - 1].0, ms[|ms| - 1].1)]
  }

  /** The header comment of a lowered block. */
  function BlockComment(b: MirBlock): Statement
  {
    FromComment("Basic Block: " + b.debug)
  }

  /** The statements of the C block a MIR block lowers to: the header
      comment, then one statement per MIR statement. */
  function BlockStatements(b: MirBlock): (r: seq<Statement>)
    ensures |r| == |b.stmts| + 1
    ensures r[0].expression.None? && r[0].comment == Some("Basic Block: " + b.debug)
    ensures forall i :: 0 <= i < |b.stmts| ==> r[i + 1] == HandleStmt(b.stmts[i].0, b.stmts[i].1)
  {
    [BlockComment(b)] + HandledStmts(b.stmts)
  }

  /** With comments off, a lowered block renders as its MIR statements
      alone: the header comment and the per-statement comments vanish. */
  lemma BlockHeaderHiddenWhenOff(b: MirBlock, c: ReprContext)
    requires !c.includeComments && StatementsText(HandledStmts(b.stmts), c).Ok?
    ensures StatementsText(BlockStatements(b), c) == StatementsText(HandledStmts(b.stmts), c)
  {
    var h := [BlockComment(b)];
    var rest := HandledStmts(b.stmts);
    HiddenComment(b, c);
    StatementsTextAppend(h, rest, c);
    assert BlockStatements(b) == h + rest;
    assert "" + StatementsText(rest, c).value == StatementsText(rest, c).value;
  }

  /** The header comment alone renders as nothing when comments are off. */
  lemma HiddenComment(b: MirBlock, c: ReprContext)
    requires !c.includeComments
    ensures StatementsText([BlockComment(b)], c) == Ok("")
  {
    var h := [BlockComment(b)];
    assert CommentText(BlockComment(b), c) == "";
    assert StatementText(BlockComment(b), c) == Ok(("", c));
    assert h[..0] == [];
    assert StatementsText(h[..0], c) == Ok("");
    assert "" + "" == "";
  }

  /** `handle_bbs`: one fresh block per MIR block, in order, each holding
      the statements `BlockStatements` describes. `CFunction::push_bb` is
      not part of this model, so the blocks are returned in order. */
  method HandleBbs(blocks: seq<MirBlock>) returns (bbs: seq<BasicBlock>)
    ensures |bbs| == |blocks|
    ensures forall i :: 0 <= i < |blocks| ==> fresh(bbs[i]) && bbs[i].statements == BlockStatements(blocks[i])
  {
    bbs := [];
    var k := 0;
    while k < |blocks|
      invariant 0 <= k <= |blocks| && |bbs| == k
      invariant forall i :: 0 <= i < k ==> fresh(bbs[i]) && bbs[i].statements == BlockStatements(blocks[i])
    {
      var b := blocks[k];
      var nBb := new BasicBlock();
      nBb.Push(BlockComment(b));
      var j := 0;
      while j < |b.stmts|
        invariant 0 <= j <= |b.stmts|
        invariant nBb.statements == [BlockComment(b)] + HandledStmts(b.stmts[..j])
        invariant forall i :: 0 <= i < k ==> bbs[i].statements == BlockStatements(blocks[i])
      {
        assert b.stmts[..j + 1][..j] == b.stmts[..j];
        nBb.Push(HandleStmt(b.stmts[j].0, b.stmts[j].1));
        j := j + 1;
      }
      assert b.stmts[..j] == b.stmts;
      bbs := bbs + [nBb];
      k := k + 1;
    }
  }
}
