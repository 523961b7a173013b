/** definition.rs: a typed variable (`CVarDef`) and its declaration with an
    optional initialiser (`CVarDecl`). */
module Definition {
  import opened Wrappers
  import opened Strings
  import opened CRepr
  import opened Ty
  import opened Expr

  /** `CVarDef`: the local's id, its C name and its C type. The getters
      `get_id`, `get_name` and `get_type` are the three fields. */
  datatype CVarDef = CVarDef(localId: nat, name: string, ty: CType)

  /** `CVarDef::repr`: the type rendered in a copy of the context whose
      pending declarator name is the definition's own name. The caller's
      context is not changed. */
  function VarDefText(d: CVarDef, c: ReprContext): (r: string)
  {
    TypeText(d.ty, c.(varName := Some(d.name))).0
  }

  /** The rendering of a definition is that of its type with the name
      pending, whatever name the caller's context held. */
  lemma VarDefIgnoresCallerName(d: CVarDef, c: ReprContext, other: Option<string>)
    ensures VarDefText(d, c.(varName := other)) == VarDefText(d, c)
  {
    assert c.(varName := other).(varName := Some(d.name)) == c.(varName := Some(d.name));
  }

  /** A definition of a named type, outside any pointer, reads
      `<type> <name>`. */
  lemma NamedVarDefText(d: CVarDef, c: ReprContext)
    requires IsNamed(d.ty) && c.nPtr == 0
    ensures VarDefText(d, c) == BaseName(d.ty) + " " + d.name
  {
    assert Repeat("*", 0) == "";
  }

  /** `i8` local 1 declares as `int8_t var1`. */
  lemma VarDefIntExample()
    ensures VarDefText(CVarDef(1, "var1", Int(Int8)), DefaultContext()) == "int8_t var1"
  {
    NamedVarDefText(CVarDef(1, "var1", Int(Int8)), DefaultContext());
  }

  /** `CVarDecl`: a definition and, optionally, the expression it starts
      with. `get_id` and `get_name` read the wrapped definition. */
  datatype CVarDecl = CVarDecl(def: CVarDef, value: Option<Expression>)
  {
    function GetId(): (r: nat)
      ensures r == def.localId
    {
      def.localId
    }

    function GetName(): (r: string)
      ensures r == def.name
    {
      def.name
    }
  }

  /** `CVarDecl::repr`: `<def> = <value>;` with an initialiser, `<def>;`
      without one. Rendering the initialiser can abort (see `ExprText`). */
  function VarDeclText(d: CVarDecl, c: ReprContext): (r: Result<string>)
    ensures r.Ok? <==> (d.value.None? || ExprText(d.value.value, c).Ok?)
    ensures d.value.None? ==> r == Ok(VarDefText(d.def, c) + ";")
    ensures d.value.Some? && r.Ok? ==>
      r.value == VarDefText(d.def, c) + " = " + ExprText(d.value.value, c).value.0 + ";"
  {
    match d.value
    case None => Ok(VarDefText(d.def, c) + ";")
    case Some(v) =>
      var e :- ExprText(v, c);
      Ok(VarDefText(d.def, c) + " = " + e.0 + ";")
  }

  /** Every rendered declaration starts with the definition and ends with
      `;`. */
  lemma VarDeclShape(d: CVarDecl, c: ReprContext)
    requires VarDeclText(d, c).Ok?
    ensures var s := VarDeclText(d, c).value;
      var p := VarDefText(d.def, c);
      |s| > |p| && s[..|p|] == p && s[|s| - 1] == ';'
  {
    var s := VarDeclText(d, c).value;
    var p := VarDefText(d.def, c);
    if d.value.Some? {
      var e := ExprText(d.value.value, c).value.0;
      assert s == p + (" = " + e + ";");
    } else {
      assert s == p + ";";
    }
  }

  /** `[i32; 3]` local 1 declared without initialiser is `int32_t var1[3];`. */
  lemma VarDeclArrayExample()
    ensures VarDeclText(CVarDecl(CVarDef(1, "var1", Array(Int(Int32), 3)), None), DefaultContext()) ==
      Ok("int32_t var1[3];")
  {
    var c := DefaultContext().(varName := Some("var1"));
    ArrayDeclarator(Int(Int32), 3, "var1", c);
    assert NatToString(3) == "3";
    assert VarDefText(CVarDef(1, "var1", Array(Int(Int32), 3)), DefaultContext()) == "int32_t var1[3]";
    assert "int32_t var1[3]" + ";" == "int32_t var1[3];";
  }
}
