/** structure.rs: the older `CStruct`, a named list of fields printed as a C
    struct definition. */
module Structure {
  import opened Strings
  import opened CRepr
  import opened Definition

  /** One field line: four spaces, the field's definition, `;` and a
      newline. A field prints as its default rendering. */
  function FieldLine(f: CVarDef): string
  {
    "    " + VarDefText(f, DefaultContext()) + ";\n"
  }

  function FieldLines(fields: seq<CVarDef>): (r: seq<string>)
    ensures |r| == |fields|
    ensures forall i :: 0 <= i < |fields| ==> r[i] == FieldLine(fields[i])
  {
    seq(|fields|, i requires 0 <= i < |fields| => FieldLine(fields[i]))
  }

  /** The `Display` text: the header line, one line per field in order, and
      the closing `};`. */
  function StructText(name: string, fields: seq<CVarDef>): string
  {
    "struct " + name + " {\n" + Concat(FieldLines(fields)) + "};"
  }

  class CStruct {
    const name: string
    var fields: seq<CVarDef>

    /** `CStruct::new`: no fields yet. */
    constructor(name: string)
      ensures this.name == name && fields == []
    {
      this.name := name;
      fields := [];
    }

    /** `push`: one more field at the end; the earlier ones are kept. */
    method Push(field: CVarDef)
      modifies this
      ensures fields == old(fields) + [field]
    {
      fields := fields + [field];
    }

    /** `fmt`: the text is built line by line. */
    method Display() returns (s: string)
      ensures s == StructText(name, fields)
    {
      s := "struct " + name + " {\n";
      var body := "";
      var i := 0;
      while i < |fields|
        invariant 0 <= i <= |fields|
        invariant body == Concat(FieldLines(fields[..i]))
      {
        assert FieldLines(fields[..i + 1])[..i] == FieldLines(fields[..i]);
        body := body + FieldLine(fields[i]);
        i := i + 1;
      }
      assert fields[..i] == fields;
      s := s + body + "};";
    }
  }

  /** With one field pushed, the text gains exactly that field's line, just
      before the closing `};`. */
  lemma PushAddsOneLine(name: string, fields: seq<CVarDef>, f: CVarDef)
    ensures var before := StructText(name, fields);
      StructText(name, fields + [f]) == before[..|before| - 2] + FieldLine(f) + "};"
  {
    FieldLinesSnoc(fields, f);
    ConcatSnoc(FieldLines(fields), FieldLine(f));
    ClosedText("struct " + name + " {\n" + Concat(FieldLines(fields)), FieldLine(f));
  }

  lemma FieldLinesSnoc(fields: seq<CVarDef>, f: CVarDef)
    ensures FieldLines(fields + [f]) == FieldLines(fields) + [FieldLine(f)]
  {
  }

  /** Text closed by `};`: cutting the closing pair off gives the text back,
      and what goes in between lands just before it. */
  lemma ClosedText(head: string, line: string)
    ensures var before := head + "};";
      before[..|before| - 2] == head && (head + line) + "};" == before[..|before| - 2] + line + "};"
  {
  }

  /** When neither the name nor any field text contains a newline, the text
      has one line per field plus the header line and the closing line. */
  lemma StructLineCount(name: string, fields: seq<CVarDef>)
    requires '\n' !in name
    requires forall i :: 0 <= i < |fields| ==> '\n' !in VarDefText(fields[i], DefaultContext())
    ensures CountChar(StructText(name, fields), '\n') == |fields| + 1
  {
    var ls := FieldLines(fields);
    FieldLinesCount(fields);
    CountCharAppend("struct " + name, " {\n", '\n');
    CountCharAppend("struct ", name, '\n');
    assert CountChar(" {\n", '\n') == 1;
    CountCharAppend("struct " + name + " {\n", Concat(ls), '\n');
    CountCharAppend("struct " + name + " {\n" + Concat(ls), "};", '\n');
    assert CountChar("};", '\n') == 0;
  }

  lemma {:induction false} FieldLinesCount(fields: seq<CVarDef>)
    requires forall i :: 0 <= i < |fields| ==> '\n' !in VarDefText(fields[i], DefaultContext())
    ensures CountChar(Concat(FieldLines(fields)), '\n') == |fields|
  {
    if |fields| > 0 {
      var init := fields[..|fields| - 1];
      var f := fields[|fields| - 1];
      assert FieldLines(fields)[..|fields| - 1] == FieldLines(init);
      FieldLinesCount(init);
      var d := VarDefText(f, DefaultContext());
      CountCharAppend(Concat(FieldLines(init)), FieldLine(f), '\n');
      CountCharAppend("    " + d, ";\n", '\n');
      CountCharAppend("    ", d, '\n');
      assert CountChar(";\n", '\n') == 1;
    }
  }
}
