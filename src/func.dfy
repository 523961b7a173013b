/** function.rs: a C function being emitted (`CFunction`) and the text of
    its body (`FnBody`). A type or definition written with `{}` prints as its
    default rendering. */
module Func {
  import opened Strings
  import opened CRepr
  import opened Ty
  import opened Definition

  /** `FnBody`: the body text, grown line by line. */
  class FnBody {
    var body: string

    /** `FnBody::new`. */
    constructor(body: string)
      ensures this.body == body
    {
      this.body := body;
    }

    /** `is_empty`. */
    predicate IsEmpty()
      reads this
    {
      |body| == 0
    }

    /** `push`: four spaces per indent level, the line, and a newline when
        asked; the existing text stays in front. */
    method Push(line: string, newline: bool, indent: nat)
      modifies this
      ensures body == old(body) + Repeat("    ", indent) + line + (if newline then "\n" else "")
      ensures |body| == |old(body)| + 4 * indent + |line| + (if newline then 1 else 0)
    {
      body := body + (Repeat("    ", indent) + line);
      if newline {
        body := body + "\n";
      }
    }

    /** `clear`. */
    method Clear()
      modifies this
      ensures IsEmpty()
    {
      body := "";
    }

    /** `Display`: the body between braces, followed by a blank line. */
    function Text(): string
      reads this
    {
      "{\n " + body + " \n}\n\n"
    }
  }

  /** The text every argument prints as. */
  function ArgTexts(signature: seq<CVarDef>): (r: seq<string>)
    ensures |r| == |signature|
    ensures forall i :: 0 <= i < |r| ==> r[i] == VarDefText(signature[i], DefaultContext())
  {
    seq(|signature|, i requires 0 <= i < |signature| => VarDefText(signature[i], DefaultContext()))
  }

  /** What a prototype and a definition share: return type, name and the
      argument list, arguments separated by `, `. */
  function HeadText(ret: CType, name: string, signature: seq<CVarDef>): string
  {
    DebugText(ret) + " " + name + "(" + Join(ArgTexts(signature), ", ")
  }

  /** `as_prototype`'s text: `ret name(a1, a2);`. */
  function PrototypeText(ret: CType, name: string, signature: seq<CVarDef>): string
  {
    HeadText(ret, name, signature) + ");"
  }

  class CFunction {
    const name: string
    const signature: seq<CVarDef>
    const body: FnBody
    const returnTy: CType

    /** `CFunction::new`: the body starts empty. */
    constructor(name: string, signature: seq<CVarDef>, returnTy: CType)
      ensures this.name == name && this.signature == signature && this.returnTy == returnTy
      ensures fresh(body) && body.IsEmpty()
    {
      this.name := name;
      this.signature := signature;
      this.returnTy := returnTy;
      body := new FnBody("");
    }

    /** `is_main`. */
    predicate IsMain()
    {
      name == "main"
    }

    /** `push`: a line added to the body. */
    method Push(line: string, newline: bool, indent: nat)
      modifies body
      ensures body.body == old(body.body) + Repeat("    ", indent) + line + (if newline then "\n" else "")
    {
      body.Push(line, newline, indent);
    }

    /** `as_prototype`: the separator is written before every argument but
        the first. */
    method AsPrototype() returns (p: string)
      ensures p == PrototypeText(returnTy, name, signature)
    {
      p := DebugText(returnTy) + " " + name + "(";
      var args := "";
      var texts := ArgTexts(signature);
      var i := 0;
      while i < |signature|
        invariant 0 <= i <= |signature|
        invariant args == Join(texts[..i], ", ")
      {
        assert texts[..i + 1][..i] == texts[..i];
        if i > 0 {
          args := args + ", ";
        }
        args := args + VarDefText(signature[i], DefaultContext());
        i := i + 1;
      }
      assert texts[..i] == texts;
      p := p + args + ");";
    }

    /** `Display`: the prototype's head, then `) ` and the body. */
    function Text(): string
      reads body
    {
      HeadText(returnTy, name, signature) + ") " + body.Text()
    }
  }

  /** A definition starts like its prototype, up to the closing parenthesis. */
  lemma DefinitionExtendsPrototype(f: CFunction)
    ensures var p := PrototypeText(f.returnTy, f.name, f.signature);
      var t := f.Text();
      |t| >= |p| - 1 && t[..|p| - 1] == p[..|p| - 1] && t[|p| - 2] == ')'
  {
    var h := HeadText(f.returnTy, f.name, f.signature);
    assert PrototypeText(f.returnTy, f.name, f.signature) == h + ");";
    assert f.Text() == h + ") " + f.body.Text();
    assert (h + ");")[..|h| + 1] == h + ")";
    assert (h + ") " + f.body.Text())[..|h| + 1] == h + ")";
  }

  /** A prototype without arguments has an empty parameter list. */
  lemma NoArgPrototype(ret: CType, name: string)
    ensures PrototypeText(ret, name, []) == DebugText(ret) + " " + name + "();"
  {
    assert ArgTexts([]) == [];
  }

  /** When no argument, name or return type contains a comma, a prototype
      holds exactly one comma fewer than it has arguments: the separator
      sits only between two arguments. */
  lemma PrototypeCommas(ret: CType, name: string, signature: seq<CVarDef>)
    requires |signature| > 0
    requires ',' !in DebugText(ret) && ',' !in name
    requires forall i :: 0 <= i < |signature| ==> ',' !in VarDefText(signature[i], DefaultContext())
    ensures CountChar(PrototypeText(ret, name, signature), ',') == |signature| - 1
  {
    var texts := ArgTexts(signature);
    CountCharAllAbsent(texts, ',');
    JoinCount(texts, ", ", ',');
    assert CountChar(", ", ',') == 1;
    var a := DebugText(ret);
    CountCharAppend(a, " ", ',');
    CountCharAppend(a + " ", name, ',');
    CountCharAppend(a + " " + name, "(", ',');
    CountCharAppend(a + " " + name + "(", Join(texts, ", "), ',');
    CountCharAppend(HeadText(ret, name, signature), ");", ',');
    assert CountChar(" ", ',') == 0 && CountChar("(", ',') == 0 && CountChar(");", ',') == 0;
  }
}
