# rustc_codegen_c core, in Dafny

`rustc_codegen_c` is a rustc back end that lowers monomorphised MIR to C
source text. This project models the part between the rustc queries and the
file writer, and proves properties of that model:

- **Type mapper** (`ty.rs`). It covers the `CType` variants, the integer and
  float width enums, and the memoised `rust_to_c_type`. The lowering rules
  are all modelled: tuples, structs, unions, enums as tagged unions over a
  wrapper union of variant structs, arrays boxed in a `wrapee` struct,
  references, slices, trait objects and function pointers. Composite names
  are derived deterministically, and a `CType` renders as a C declarator.
  rustc's `Ty` is abstracted as the datatype `TypeMapper.RustTy`.
- **Composite registry** (`base.rs` `Context`). This is an append-only list
  of structs, unions and tagged unions. A lookup by index aborts when the
  index is out of range.
- **Expressions, statements and their C text** (`expression.rs`,
  `crepr.rs`, `stmt.rs`, `definition.rs`, `structure.rs`, `bb.rs`,
  `function.rs`, `prefix.rs`, `include.rs`). Access chains render left to
  right. Struct literals are C99 compound literals (section 6.5.2.5 of
  ISO/IEC 9899:1999). Named-field literals are designated initialisers
  (section 6.7.8). A switch always ends with a default jump.
- **Place and operand resolver** (`stmt.rs`). It walks a place's
  projections, tracks the C type reached so far, and appends access steps.
- **Aggregate lowering** (`aggregate.rs`).
- **Checked-arithmetic helpers** (`header.rs`). Helper names are
  deterministic, and each helper is registered at most once. The C helpers
  are given a meaning by a small evaluator, so their overflow flags can be
  compared with mathematical overflow.
- **Static allocations** (`alloc.rs`). A byte buffer with relocations is
  tiled into byte runs and 8-byte pointer slots.
- **Discriminant truncation** (`utils.rs`).

The source mixes two snapshots of one API. `crepr.rs`, `header.rs`,
`function.rs`, `bb.rs`, `structure.rs` and `prefix.rs` use the older one.
`expression.rs`, `stmt.rs`, `ty.rs` and `aggregate.rs` use the newer one.
Each file is modelled with its own datatypes:

- The old expression tree is `CRepr.OExpr`.
- The new one is `Expr.Expression`.

State that the source changes in place is modelled with classes:

- `Base.Context`, the registry.
- `CodegenCx.FunctionCx`, which holds the memo `ty_to_c` and the context.
- `Structure.CStruct`, `Bb.BasicBlock`, `Func.FnBody`, `Func.CFunction`
  and `Prefix.Prefix`.

The methods of these classes are proved to return exactly what a pure
specification function computes from the state they started in, and to
leave exactly the state it computes. Properties are then proved about those
functions. Loops in the source are `while` loops here, with their
invariants:

- the access-chain renderer;
- the projection walk;
- the operand lists;
- the two walks over a static allocation;
- the registry scans;
- the prototype builder;
- the function-pointer argument list.

A Rust `panic!`, `todo!`, `unwrap` on `None` or an out-of-range index is an
explicit `Panic` result (`Wrappers.Result`).

Each Rust file has one Dafny module: `Utils`, `Strings` (standard-library
text helpers), `Mir`, `Ty`, `CRepr`, `Expr`, `Definition`, `Composite`,
`FatPtr`, `Structure`, `Include`, `Prefix`, `Func`, `Stmt`, `Bb`, `Base`,
`TypeMapper`/`TypeMapperProps`, `CodegenCx`, `Place`/`PlaceProps`,
`Aggregate`/`AggregateProps`, `Header`, `CheckedOp` and `Alloc`.

## Model

| member | source | states |
|---|---|---|
| Utils.TruncateToSize | src/utils.rs:46-49 | the masked value is the value modulo 2^(8·bytes), below that bound and never larger than the input |
| Utils.MaskIsMod | src/utils.rs:47-48 | and-ing with the mask `(1 << k) - 1` is reduction modulo 2^k |
| Utils.TruncateZeroBytes | src/utils.rs:46-49 | a zero-byte truncation yields 0 |
| Utils.TruncateKeepsSmall | src/utils.rs:46-49 | a value that already fits in `bytes` bytes is returned unchanged |
| Utils.TruncateIdempotent | src/utils.rs:46-49 | truncating twice equals truncating once |
| Ty.CIntTyFrom | src/ty.rs:233-244 | `CIntTy::from` accepts exactly 8/16/32/64/128 and yields the type of that width |
| Ty.CIntTyRoundTrip | src/ty.rs:222-244 | `from(t.bit_width()) == t` for every signed type |
| Ty.CUIntTyFrom | src/ty.rs:277-288 | `CUIntTy::from` accepts exactly 8/16/32/64/128 and yields the type of that width |
| Ty.CUIntTyRoundTrip | src/ty.rs:266-288 | `from(t.bit_width()) == t` for every unsigned type |
| Ty.CFloatTyFrom | src/ty.rs:318-328 | `CFloatTy::from` accepts exactly 16/32/64/128 and yields the type of that width |
| Ty.CFloatTyRoundTrip | src/ty.rs:308-328 | `from(t.bit_width()) == t` for every float type |
| Ty.FloatNameNotInjective | src/ty.rs:298-306 | two distinct float types print the same C name `float` |
| Ty.AsCompositeInfo | src/ty.rs:40-45 | succeeds exactly for Struct/Union/TaggedUnion and returns their info; anything else aborts |
| Ty.TypeText | src/ty.rs:49-194 | rendering consumes the pending variable name and never makes the pointer level shallower than the context's |
| Ty.ArgsText | src/ty.rs:173-191 | no arguments render nothing and leave the context alone; otherwise the pending name is consumed |
| Ty.RenderFnPtr | src/ty.rs:173-191 | the loop over the arguments, with `, ` between them and `void` when there are none, writes the text and leaves the context that `FnPtrText` specifies |
| Ty.PointerNDepth | src/ty.rs:131-135 | k `Pointer` wrappers render as the inner type at pointer level + k |
| Ty.NamedUnderPointers | src/ty.rs:131-135 | a named type under k pointers prints its name followed by k stars |
| Ty.FatPointerUnderPointers | src/ty.rs:137-147 | a fat pointer removes one pointer level (never below zero) |
| Ty.ArrayDeclarator | src/ty.rs:148-172 | an array of a named type declares `T name[n]`, and `T name[]` for size 0 |
| Ty.NoArgFunctionPointer | src/ty.rs:173-191 | a function pointer without arguments declares a `(void)` parameter list |
| Ty.NamedTypeText | src/ty.rs:49-130 | a named type prints its C name, one star per pointer level, then the pending variable name |
| Ty.ArrayDebugExample | src/ty.rs:196-200 | `int32_t[3]` is the debug text of a 3-element `int32_t` array |
| Ty.PointerDepthLeaksIntoArguments | src/ty.rs:173-191 | the return type's pointer level carries into the argument list: `void* (*)(int32_t*)` |
| Ty.VoidUnderOnePointer | src/ty.rs:131-135 | `void*` at level 1 |
| Ty.Int32AtDepthOne | src/ty.rs:182-189 | an `int32_t` argument rendered at level 1 prints `int32_t*` |
| TypeMapper.CompositeName | src/ty.rs:366-384 | the sanitised path contains none of `<`, `>`, `,`, space, `&`, `!` |
| TypeMapper.WrapperName | src/ty.rs:394-404 | `__WRAPPER_` followed by the debug text with space, `*`, `[` and `]` each replaced by `_` |
| TypeMapper.WrapperNameClean | src/ty.rs:394-404 | a wrapper name contains none of the replaced characters |
| TypeMapper.ArrayWrapperNameExample | src/ty.rs:394-404 | `[i32; 3]` is wrapped in `__WRAPPER_int32_t_3_` |
| TypeMapper.Register | src/base.rs:111-119 | registering appends the composite and returns its name with the old length as index |
| TypeMapper.PositionalFields | src/ty.rs:476-484 | field i is `field_i`, with id i and the i-th type |
| TypeMapper.NamedFields | src/ty.rs:500-510 | field i carries id i, the field's name under the prefix, and the i-th lowered type |
| TypeMapper.Lower | src/ty.rs:351-362 | memo hit returns the cached type unchanged; success records the result in the memo, only grows the registry, and keeps every memo entry referring to a registered composite of the right kind |
| TypeMapper.LowerSeq | src/ty.rs:464-475 | a list lowers to a list of the same length, left to right, each element referring to a registered composite |
| TypeMapper.LowerFields | src/ty.rs:496-542 | one C type per field; the state only grows |
| TypeMapper.LowerVariants | src/ty.rs:547-580 | one `variant_i` member per variant, each the Struct of a variant struct registered in order, with increasing indices |
| TypeMapper.FromTy | src/ty.rs:677-697 | `bool`, `char` and `str` map to Bool, Char and `char[0]`; integers and floats are accepted exactly at the supported widths, with the default width when none is given |
| TypeMapper.ErasePtr | src/ty.rs:438-449 | Pointer and FatPointer become `void*`; other types are unchanged |
| TypeMapper.FnPointerType | src/ty.rs:429-458 | the result is a function pointer; the state only grows |
| TypeMapper.LowerTuple | src/ty.rs:464-491 | a tuple lowers to a type that refers to registered composites; the state only grows |
| TypeMapper.LowerAdt | src/ty.rs:496-542 | a struct or union lowers to a registered composite; the state only grows |
| TypeMapper.LowerEnum | src/ty.rs:544-607 | an enum lowers to a registered composite; the state only grows |
| TypeMapper.LowerArray | src/ty.rs:631-652 | an array lowers to a registered composite; the state only grows |
| TypeMapper.LowerInternal | src/ty.rs:460-672 | every lowering keeps the memo valid and returns a type whose composites are registered |
| TypeMapperProps.LowerCached | src/ty.rs:351-362 | a second lowering of the same type returns the same `CType` and changes nothing |
| TypeMapperProps.SingleTupleIsElement | src/ty.rs:471-474 | a one-element tuple lowers to its element's type and registers nothing more than the element does |
| TypeMapperProps.TupleRegistersOneStruct | src/ty.rs:476-490 | any other tuple registers exactly one struct named by `tuple_name`, with fields `field_0..field_{n-1}` of the element types in order |
| TypeMapperProps.EnumLayout | src/ty.rs:544-607 | an enum registers its variant structs, then the wrapper union of `variant_i` members, then the tagged union of `tag` (the discriminant type) and `union_var`, and returns TaggedUnion |
| TypeMapperProps.ArrayWrapped | src/ty.rs:631-652 | an array registers one struct named by `wrapper_name`, holding the single field `wrapee` of the array type |
| TypeMapperProps.UnsizedIsFatPointer | src/ty.rs:617-629 | a reference to an unsized type, a slice and a trait object lower to FatPointer without registering anything |
| TypeMapperProps.ErasedSignature | src/ty.rs:421-458 | the erased and plain signatures agree, except that each pointer argument becomes `void*` |
| TypeMapperProps.LowerFromEmptyIsValid | src/ty.rs:351-362 | from an empty memo, every cached type refers to registered composites of the right kind |
| TypeMapperProps.TupleNameExamples | src/ty.rs:406-419 | `(i32, i32)` is named `t_int32_tint32_t` and `()` is `__Unit` |
| CodegenCx.FunctionCx.RustToCType | src/ty.rs:351-362 | the memoised lookup, on the memo map and the context's composite list, agrees with `TypeMapper.Lower` |
| CodegenCx.FunctionCx.LowerTypes | src/ty.rs:464-475 | the loop over element types agrees with `LowerSeq` |
| CodegenCx.FunctionCx.LowerFieldTypes | src/ty.rs:496-542 | the loop over fields agrees with `LowerFields` |
| CodegenCx.FunctionCx.LowerVariantStructs | src/ty.rs:547-580 | the variant loop agrees with `LowerVariants` |
| CodegenCx.FunctionCx.LowerTupleType | src/ty.rs:464-491 | agrees with `LowerTuple` |
| CodegenCx.FunctionCx.LowerAdtType | src/ty.rs:496-542 | agrees with `LowerAdt` |
| CodegenCx.FunctionCx.LowerEnumType | src/ty.rs:544-607 | agrees with `LowerEnum` |
| CodegenCx.FunctionCx.LowerArrayType | src/ty.rs:631-652 | agrees with `LowerArray` |
| CodegenCx.FunctionCx.FnPointerTypeInternal | src/ty.rs:429-458 | agrees with `FnPointerType` |
| CodegenCx.FunctionCx.FnPointerTypeOf | src/ty.rs:421-423 | agrees with `FnPointerType`, unerased |
| CodegenCx.FunctionCx.ErasedFnPointerTypeOf | src/ty.rs:425-427 | agrees with `FnPointerType`, erased |
| CodegenCx.FunctionCx.RustToCTypeInternal | src/ty.rs:460-672 | agrees with `LowerInternal` |
| Base.CompositeAt | src/base.rs:121-127 | the lookup succeeds exactly for an index below the length and returns the composite stored at that index |
| Base.StructDefAt | src/base.rs:129-134 | `Some` for a struct or union (its definition), `None` for a tagged union; an out-of-range index aborts |
| Base.FieldNameAt | src/base.rs:136-147 | `None` for an unknown composite or a tagged union; abort for a field index out of range |
| Base.Context.constructor | src/base.rs:46-55 | all six lists start empty |
| Base.Context.ExistsHeaderFnWithName | src/base.rs:102-109 | true iff some header function has the name |
| Base.Context.HasDefineWithName | src/base.rs:149-156 | true iff some define has the name |
| Base.Context.AddComposite | src/base.rs:111-119 | appends the composite, returns its name with the old length, makes it retrievable, and changes no other list |
| Base.Context.PushHeaderFn | src/base.rs:90-92 | appends one header function and changes no other list |
| Base.CompositeAtAfterAdd | src/base.rs:111-127 | `get_composite(add_composite(c)) == c` |
| Base.AddPreservesEarlier | src/base.rs:111-134 | adding a composite changes no earlier lookup |
| Base.NoDeduplication | src/base.rs:111-119 | adding an equal composite twice gives two indices, both holding it |
| Base.FieldNameMatchesStructDef | src/base.rs:129-147 | the field-name lookup agrees with the struct definition's field |
| CRepr.DefaultContext | src/crepr.rs:19-30 | indent 1, a tab, newlines and comments on, no pending name, pointer level 0 |
| CRepr.Indented | src/crepr.rs:31-37 | indent grows by exactly one and every other field is kept |
| CRepr.IndentText | src/crepr.rs:252-254 | the indent string repeated `indent` times |
| CRepr.IndentedIndentText | src/crepr.rs:31-37 | the indented context writes one more indent string |
| CRepr.OBinOpFromMir | src/crepr.rs:61-90 | `Rem` maps to `%`, `Cmp` to `==`, `Offset` to `+` |
| CRepr.OUncheckedAsPlain | src/crepr.rs:61-90 | each unchecked MIR op maps like its plain op |
| CRepr.OBinOpSymbolInjective | src/crepr.rs:92-113 | two old operators print the same symbol iff they are equal |
| CRepr.OExprsText | src/crepr.rs:151-250 | a list renders iff every element renders, element by element |
| CRepr.CheckedRendersLikePlain | src/crepr.rs:175-194 | a checked Add/Sub/Mul renders like the plain op; any other checked op aborts |
| CRepr.OVariableTextInjective | src/crepr.rs:158-165 | distinct locals print distinct `var{n}` names |
| CRepr.OStructText | src/crepr.rs:213-223 | `(struct name){ a, b }` |
| CRepr.ONoOpText | src/crepr.rs:235-241 | a no-op renders, and renders empty iff comments are off |
| Expr.FromMir | src/expression.rs:36-68 | exactly the `*WithOverflow` ops map to checked ops; `Rem` maps to Mod, `Cmp` to Eq, `Offset` to Add |
| Expr.FromMirUncheckedAndChecked | src/expression.rs:36-68 | unchecked ops map to their plain op and overflow ops to `Checked*` |
| Expr.DisplayRoundTrip | src/expression.rs:95-119 | an operator is recovered from its Display name |
| Expr.DisplayInjective | src/expression.rs:95-119 | distinct operators have distinct Display names |
| Expr.CheckedSymbols | src/expression.rs:70-119 | checked ops print the C symbol of their plain op and display as `checked_add/sub/mul` |
| Expr.ExprText | src/expression.rs:361-560 | a variable aborts without a current function; rendering only consumes the pending name and deepens the pointer level |
| Expr.RenderAccess | src/expression.rs:377-411 | the loop over access steps writes what `AccessText` specifies |
| Expr.AccessPanicSticks | src/expression.rs:377-411 | once a prefix of the chain aborts, the whole chain aborts |
| Expr.AccessAppend | src/expression.rs:377-411 | the chain renders strictly left to right: rendering `a + b` renders `b` on top of `a`'s text |
| Expr.Unbvari | src/expression.rs:269-274 | a variable with no access steps |
| Expr.ConstInt | src/expression.rs:279-283 | a constant whose text starts with `-` iff the value is negative |
| Expr.ArrVari | src/expression.rs:258-265 | the local with exactly one Index step by the constant index |
| Expr.FatPtrLit | src/expression.rs:285-292 | a struct literal named `codegenc_fat_ptr` with fields exactly `[data, meta]` |
| Expr.ArrVariText | src/expression.rs:368-414 | prints `name[i]` |
| Expr.CompareText | src/expression.rs:225-252 | a comparison prints `l op r` with the operator's symbol |
| Expr.CastStepText | src/expression.rs:377-411 | a cast step wraps the text as `((T)x)` |
| Expr.ConstListText | src/expression.rs:440-452 | list elements are separated by `, ` with none at the end |
| Expr.StructLitText | src/expression.rs:440-452 | `(name){ a, b }` |
| Expr.FnCallText | src/expression.rs:536-547 | `f(a, b)`, with `, ` only between arguments |
| Expr.FatPtrLitText | src/expression.rs:285-292 | `(codegenc_fat_ptr){ d, m }` |
| Expr.CaseLines | src/expression.rs:500-534 | one case line per case, in order |
| Expr.CasesLinesText | src/expression.rs:500-534 | the cases render as their case lines concatenated in order |
| Expr.SwitchText | src/expression.rs:500-534 | `switch (v) {`, the case lines in order, then exactly one default jump |
| Definition.VarDefIgnoresCallerName | src/definition.rs:29-35 | a definition renders under its own name, whatever name the caller's context carries |
| Definition.NamedVarDefText | src/definition.rs:29-35 | a named type renders `T name` |
| Definition.VarDefIntExample | src/definition.rs:29-35 | `int8_t var1` |
| Definition.CVarDecl.GetId | src/definition.rs:67-69 | the wrapped definition's id |
| Definition.CVarDecl.GetName | src/definition.rs:63-66 | the wrapped definition's name |
| Definition.VarDeclText | src/definition.rs:72-87 | renders iff there is no value or the value renders; `<def>;` or `<def> = <value>;` |
| Definition.VarDeclShape | src/definition.rs:72-87 | a declaration starts with its definition and ends with `;` |
| Definition.VarDeclArrayExample | src/definition.rs:72-87 | `int32_t var1[3];` |
| Composite.NewTaggedUnion | src/ty.rs:594-598 | a tagged union of `tag` with the discriminant type and `union_var` with the union type, with distinct ids |
| Composite.CComposite.AsStructDef | src/aggregate.rs:96-100 | succeeds exactly for a struct or union and returns its definition |
| Composite.CComposite.AsTaggedUnionDef | src/aggregate.rs:143-147 | succeeds exactly for a tagged union and returns its definition |
| Composite.NewFatPtr | src/fatptr.rs:11-29 | a struct named `codegenc_fat_ptr` with exactly two `void*` fields, `data` (id 0) then `meta` (id 1) |
| Composite.FatPtrLiteralMatchesLayout | src/fatptr.rs:11-29 | the fat-pointer literal's `[data, meta]` order matches the struct's field order |
| Structure.CStruct.constructor | src/structure.rs:10-12 | no fields |
| Structure.CStruct.Push | src/structure.rs:14-16 | appends exactly one field at the end |
| Structure.CStruct.Display | src/structure.rs:24-33 | the loop writes what `StructText` specifies |
| Structure.FieldLines | src/structure.rs:26-30 | one line per field, in order |
| Structure.PushAddsOneLine | src/structure.rs:14-33 | a pushed field adds exactly its line before the closing `};` |
| Structure.StructLineCount | src/structure.rs:24-33 | the text has one line break per field plus one |
| Include.IncludeText | src/include.rs:12-22 | `#include <name>` for a system header, `#include "name"` otherwise |
| Include.IncludeIgnoresContext | src/include.rs:12-22 | rendering ignores the context |
| Include.IncludeTextInjective | src/include.rs:12-22 | distinct includes render differently |
| Prefix.Prefix.constructor | src/prefix.rs:6-8 | empty code |
| Prefix.Prefix.Push | src/prefix.rs:10-15 | appends the text, then a newline iff asked; earlier code is kept |
| Prefix.BuildPrefix | src/prefix.rs:22-26 | appends the includes, functions and structs sections in order, each followed by a newline |
| Prefix.IncludeLines | src/prefix.rs:29-51 | one system include line per header, in order |
| Prefix.PrefixIncludesLines | src/prefix.rs:29-51 | 18 include lines joined by 17 newlines |
| Prefix.PrefixIncludesEnd | src/prefix.rs:29-51 | the includes end with `>`, not a newline |
| Func.FnBody.constructor | src/function.rs:62-64 | holds the given text |
| Func.FnBody.Push | src/function.rs:71-76 | appends 4·indent spaces, the line, and a newline iff asked |
| Func.FnBody.Clear | src/function.rs:79-81 | afterwards the body is empty |
| Func.ArgTexts | src/function.rs:32-42 | one argument text per signature entry, in order |
| Func.CFunction.constructor | src/function.rs:20-22 | keeps name, signature and return type, with an empty body |
| Func.CFunction.Push | src/function.rs:28-30 | appends to the body as `FnBody::push` does |
| Func.CFunction.AsPrototype | src/function.rs:32-42 | the loop writes `ret name(a1, a2);` as `PrototypeText` specifies |
| Func.DefinitionExtendsPrototype | src/function.rs:84-97 | a definition starts with its prototype minus the `;` |
| Func.NoArgPrototype | src/function.rs:32-42 | `ret name();` |
| Func.PrototypeCommas | src/function.rs:32-42 | n arguments are separated by exactly n−1 commas |
| Stmt.NewStatement | src/stmt.rs:26-31 | an expression with a comment |
| Stmt.FromExpression | src/stmt.rs:33-38 | an expression without a comment |
| Stmt.FromComment | src/stmt.rs:40-45 | a comment without an expression |
| Stmt.StatementText | src/stmt.rs:49-71 | a comment-only statement renders its comment; rendering only consumes the pending name |
| Stmt.CommentsHiddenWhenOff | src/stmt.rs:49-71 | with comments off, the comment does not affect the text |
| Stmt.CommentShownWhenOn | src/stmt.rs:49-71 | with comments on, the text starts with the indented `/* c */` line |
| Stmt.StatementEnding | src/stmt.rs:49-71 | the expression ends with `;` unless it is a no-op, then a newline iff newlines are on |
| Stmt.NoOpStatementText | src/stmt.rs:49-71 | with comments and newlines off, a no-op statement is just the indent |
| Stmt.Collapse | src/stmt.rs:94-105 | the result is the input or a no-op, never an assignment of a no-op, and a no-op exactly when the input was one or assigned one |
| Stmt.HandleStmt | src/stmt.rs:80-113 | the comment is `//` plus the MIR debug text; a non-assignment is a no-op; an assignment is collapsed |
| Stmt.CollapseIdempotent | src/stmt.rs:94-105 | collapsing twice equals collapsing once |
| Stmt.SignedBits | src/stmt.rs:573-577 | a signed constant's bits fit its size |
| Stmt.EscapeBytes | src/stmt.rs:657-661 | four characters per byte |
| Stmt.UnsignedConstText | src/stmt.rs:578-582 | an unsigned constant prints its decimal digits then `u` |
| Stmt.SignedConstNonNegative | src/stmt.rs:573-577 | a non-negative signed constant prints its decimal value |
| Stmt.SignedConstNegative | src/stmt.rs:573-577 | a negative signed constant prints its two's-complement bits as an unsigned decimal, with no `-` |
| Stmt.MinusOneI32 | src/stmt.rs:573-577 | `-1i32` prints `4294967295` |
| Stmt.EscapeBytesRoundTrip | src/stmt.rs:657-661 | the `\xNN` escape of a byte string decodes back to the bytes |
| Stmt.SliceConstShape | src/stmt.rs:648-672 | a byte-slice constant is a fat-pointer literal of the escaped bytes and the length cast to `void*` |
| Bb.StatementsText | src/bb.rs:32-43 | a block renders iff every statement renders; the empty block renders nothing |
| Bb.StatementsTextAppend | src/bb.rs:38-41 | rendering is the in-order concatenation of the statements' texts |
| Bb.BasicBlock.constructor | src/bb.rs:15-17 | no statements |
| Bb.BasicBlock.Push | src/bb.rs:23-25 | appends at the end |
| Bb.BasicBlock.Clear | src/bb.rs:27-29 | afterwards the block is empty |
| Bb.BasicBlock.Render | src/bb.rs:32-43 | the loop writes what `StatementsText` specifies |
| Bb.PanicInPrefix | src/bb.rs:38-41 | the first statement that aborts aborts the block with its reason |
| Bb.PushExtendsText | src/bb.rs:23-43 | a pushed statement's text is appended to the block's text |
| Bb.HandledStmts | src/bb.rs:58-73 | one handled statement per MIR statement, in order |
| Bb.BlockStatements | src/bb.rs:58-73 | a leading `Basic Block:` comment, then one statement per MIR statement in order |
| Bb.BlockHeaderHiddenWhenOff | src/bb.rs:58-73 | with comments off, the block header adds no text |
| Bb.HiddenComment | src/bb.rs:58-73 | with comments off, a comment-only statement renders empty |
| Bb.HandleBbs | src/bb.rs:51-74 | one fresh block per MIR block, holding that block's statements |
| Place.BuiltinDeref | src/stmt.rs:214-228 | a pointee exists exactly for references and raw pointers |
| Place.IndexSteps | src/stmt.rs:155-171 | an index is preceded by `Unwrap` exactly when the place is a (wrapper) struct |
| Place.ProjStep | src/stmt.rs:131-232 | one projection keeps the steps so far and appends at most two |
| Place.WalkProjs | src/stmt.rs:123-236 | the projection loop only grows the state |
| Place.PlaceWalk | src/stmt.rs:115-242 | a walk succeeds only for a declared local |
| Place.PlaceExpr | src/stmt.rs:115-242 | a place is a variable of its own local; corrected `Deref`, which reads the type reached (see Left out) |
| Place.PlaceExprAsWritten | src/stmt.rs:115-242 | the as-written walk also yields a variable of its own local |
| Place.OperandExpr | src/stmt.rs:244-254 | an operand is a variable exactly when it is not a constant |
| Place.Extend | src/stmt.rs:256-279 | extends a variable's steps with the new ones after the old; anything else aborts |
| Place.OperandWithAccess | src/stmt.rs:256-279 | the state only grows |
| Place.CastExprOf | src/stmt.rs:281-373 | the state only grows |
| Place.LenAccess | src/stmt.rs:488-521 | the last step is dropped, then `meta` is read as `uint64_t` |
| Place.RvalueExpr | src/stmt.rs:375-537 | every right-hand side only grows the state |
| Place.AssignExpr | src/stmt.rs:375-546 | an assignment only grows the state |
| Place.WalkPanics | src/stmt.rs:123-236 | once a prefix of the projections aborts, the walk aborts |
| Place.ApplyProjection | src/stmt.rs:131-232 | one iteration of the projection loop agrees with `ProjStep` |
| Place.HandlePlace | src/stmt.rs:115-242 | agrees with the corrected `PlaceExpr` |
| Place.HandleOperand | src/stmt.rs:244-254 | agrees with `OperandExpr` |
| Place.HandleOperandWithAccess | src/stmt.rs:256-279 | agrees with `OperandWithAccess` |
| Place.HandleCast | src/stmt.rs:281-373 | agrees with `CastExprOf` |
| Place.WalkPlace | src/stmt.rs:115-242 | the projection loop agrees with the corrected `PlaceWalk` |
| Place.HandleAssign | src/stmt.rs:375-546 | agrees with `AssignExpr` |
| PlaceProps.FieldProjection | src/stmt.rs:131-154 | on a struct or union, appends the name of field i and moves to the field's lowered type; elsewhere it appends nothing |
| PlaceProps.IndexProjection | src/stmt.rs:155-171 | Index and ConstantIndex append `Unwrap` then the index on a struct, the index alone otherwise |
| PlaceProps.DowncastProjection | src/stmt.rs:177-212 | on a tagged union, appends exactly the union member and the variant field and moves to the variant's type; elsewhere it aborts |
| PlaceProps.DerefProjection | src/stmt.rs:214-228 | appends `FatPtrDereference` on a fat pointer and `Dereference` otherwise, moving to the lowered pointee; no pointee aborts |
| PlaceProps.WalkOnlyAppends | src/stmt.rs:123-236 | the walk keeps the initial steps and adds at most two per projection |
| PlaceProps.WalkConcat | src/stmt.rs:123-236 | walking `a + b` is walking `a`, then `b` from where `a` ended |
| PlaceProps.OperandWithAccessAppends | src/stmt.rs:256-279 | keeps the operand's steps and appends the new ones; a constant aborts |
| PlaceProps.RefAndDiscriminantSteps | src/stmt.rs:444-486 | a reference appends `Reference`; a discriminant appends the tag field |
| PlaceProps.BinarySteps | src/stmt.rs:391-409 | a binary op lowers the left operand, then the right, and joins them with the mapped operator |
| PlaceProps.UnarySteps | src/stmt.rs:411-436 | `!` is logical not exactly on a bool and bitwise not otherwise; `-` is negation; any other unary op is a no-op |
| PlaceProps.UnloweredAssignmentCollapses | src/stmt.rs:94-105 | an assignment of an unlowered right-hand side becomes a bare no-op statement |
| PlaceProps.CastSteps | src/stmt.rs:281-373 | a numeric cast appends one cast step; a transmute to a fat pointer is the operand itself; any other transmute appends a reference and a pointer cast |
| PlaceProps.DerefSliceReference | src/stmt.rs:214-228 | dereferencing `&[T]` is a fat-pointer dereference |
| PlaceProps.LenOfSliceReference | src/stmt.rs:488-521 | the length of `*s` for `s: &[T]` reads `s.meta` as `uint64_t` |
| PlaceProps.DerefOfNonPointerLocalAsWritten | src/stmt.rs:214-228 | as written, any Deref under a non-pointer local aborts |
| PlaceProps.RefI32Lowering | src/ty.rs:619-624 | `&i32` lowers to `int32_t*`, memoising both types |
| PlaceProps.U8AfterRefLowering | src/ty.rs:351-362 | a new type is added to the memo without disturbing earlier entries |
| PlaceProps.RefTupleElementsLowering | src/ty.rs:464-475 | tuple elements lower left to right, sharing one memo |
| PlaceProps.RefTupleLowering | src/ty.rs:476-490 | `(&i32, u8)` registers one struct whose first field is `field_0` |
| PlaceProps.DerefAfterTupleFieldResolves | src/stmt.rs:214-228 | corrected: `(*x.field_0)` for `x: (&i32, u8)` |
| PlaceProps.DerefAfterTupleFieldAsWritten | src/stmt.rs:125 | as written, the same place aborts |
| PlaceProps.WalkAgreesWithoutLateDeref | src/stmt.rs:123-236 | when a `Deref` can stand only as the first projection, the projection walk reading the type reached equals the walk as written |
| PlaceProps.PlaceExprAgreesWithoutLateDeref | src/stmt.rs:115-242 | a place whose only `Deref`, if any, is its first projection resolves the same under `PlaceExpr` and `PlaceExprAsWritten` |
| Aggregate.TagText | src/aggregate.rs:163-173 | the tag is the discriminant modulo 2^(8·bytes) in decimal; a 16-byte tag aborts |
| Aggregate.OperandsExpr | src/aggregate.rs:28-32 | one expression per operand; the state only grows |
| Aggregate.ArrayAssignments | src/aggregate.rs:59-68 | one assignment per operand; the state only grows |
| Aggregate.StructAssign | src/aggregate.rs:26-47 | the state only grows |
| Aggregate.UnboxedTupleAssign | src/aggregate.rs:48-57 | the state only grows |
| Aggregate.UnionAssign | src/aggregate.rs:95-131 | the state only grows |
| Aggregate.VariantOf | src/aggregate.rs:143-161 | the outer, union, member and variant-struct names are the ones registered for the tagged union |
| Aggregate.TaggedUnionAssign | src/aggregate.rs:133-204 | the state only grows |
| Aggregate.AggregateExpr | src/aggregate.rs:12-253 | the state only grows |
| Aggregate.HandleOperands | src/aggregate.rs:28-32 | the operand loop agrees with `OperandsExpr` |
| Aggregate.HandleArrayElements | src/aggregate.rs:59-73 | the element loop agrees with `ArrayAssignments` |
| Aggregate.HandleStructAssign | src/aggregate.rs:26-47 | agrees with `StructAssign` |
| Aggregate.HandleUnboxedTuple | src/aggregate.rs:48-57 | agrees with `UnboxedTupleAssign` |
| Aggregate.HandleUnion | src/aggregate.rs:95-131 | agrees with `UnionAssign` |
| Aggregate.HandleTaggedUnion | src/aggregate.rs:133-204 | agrees with `TaggedUnionAssign` |
| Aggregate.HandleAggregate | src/aggregate.rs:12-253 | agrees with `AggregateExpr` |
| AggregateProps.OperandsInOrder | src/aggregate.rs:28-32 | element i is operand i lowered after the operands before it |
| AggregateProps.ConstantOperands | src/aggregate.rs:28-32 | constant operands become their texts in order and leave the state alone |
| AggregateProps.ArrayAssignmentsIndexed | src/aggregate.rs:59-73 | element i is `local[i] = operand_i`, in index order |
| AggregateProps.StructLiteral | src/aggregate.rs:26-47 | a tuple or struct into a struct local assigns a positional literal named by that struct, with the operands in order |
| AggregateProps.UnboxedTuple | src/aggregate.rs:48-57 | a tuple into a non-struct local needs exactly one operand and assigns it directly |
| AggregateProps.ArrayAggregate | src/aggregate.rs:59-73 | an array yields `local[i] = operand_i` for each i |
| AggregateProps.UnionLiteral | src/aggregate.rs:95-131 | 0 operands give an empty named literal, 1 gives one entry named by the active field, more abort |
| AggregateProps.TaggedUnionLiteral | src/aggregate.rs:163-196 | an outer struct of exactly two elements: the truncated tag, then the wrapper union naming only the selected member, whose value is the variant struct literal of the operands in order |
| AggregateProps.TagOfFittingDiscr | src/aggregate.rs:163-173 | a discriminant that fits its tag prints unchanged |
| AggregateProps.NoOpFallbacks | src/aggregate.rs:206-209 | an ADT whose local is no composite, or any other kind, yields a no-op |
| AggregateProps.ClosureLiteral | src/aggregate.rs:219-243 | a closure assigns its captures positionally into the upvar struct, and aborts if that is not a struct |
| AggregateProps.DowncastReadsLiteralMember | src/stmt.rs:177-212 | a downcast reads exactly the union member the tagged-union literal writes |
| Header.HelperShape | src/header.rs:113-223 | every helper is named as asked, returns the pair struct, takes two operands of the element type, and ends by returning `[result, flag]` |
| Header.CheckedFnNameInjective | src/header.rs:80 | distinct operators give distinct helper names |
| Header.BuildHelper | src/header.rs:85-103 | a helper is built exactly for Add and Sub; it has the common helper shape; a signed type gets `signed_add`/`signed_sub` as written, an unsigned one `unsigned_add`/`unsigned_sub` |
| Header.OverflowOpsHaveNoHelper | src/header.rs:85-103 | the checked operators that `handle_assign` passes in reach `todo!` |
| Header.LimitValues | src/header.rs:128-135 | the `INTn_MAX`/`INTn_MIN` names denote 2^(n−1)−1 and −2^(n−1) |
| Header.SignedWrap | src/header.rs:125 | the stored value lies in the signed range of the width |
| Header.SignedAddWithLimits | src/header.rs:113-142 | with limits of width w, the flag is set iff `a + b` is outside the w-bit signed range |
| Header.SignedSubWithLimits | src/header.rs:165-199 | with limits of width w, the flag is set iff `a − b` is outside the w-bit signed range |
| Header.SignedAddAsWritten | src/header.rs:113-142 | as written, the sum wraps at the element width but the flag tests the 32-bit range |
| Header.SignedSubAsWritten | src/header.rs:165-199 | as written, the stored value is `a + b` and the flag tests `a − b` against the 32-bit range |
| Header.SignedAddAgreesAt32 | src/header.rs:113-142 | for `i32` the as-written and corrected helpers coincide |
| Header.SignedAddFixedCorrect | src/header.rs:113-142 | corrected: the wrapped sum, and the flag set iff `a + b` overflows the element width |
| Header.SignedSubFixedCorrect | src/header.rs:165-199 | corrected: the wrapped difference, and the flag set iff `a − b` overflows the element width |
| Header.SignedAddMissesI8Overflow | src/header.rs:128-135 | `100 + 100` on `i8` returns (−56, no overflow) |
| Header.SignedAddFalseI64Overflow | src/header.rs:128-135 | `2147483647 + 1` on `i64` reports an overflow |
| Header.SignedSubReturnsSum | src/header.rs:180 | `5 − 3` on `i32` returns 8 |
| Header.SignedSubFixedExample | src/header.rs:180 | corrected: `5 − 3` returns 2 |
| Header.UnsignedAddCorrect | src/header.rs:144-163 | the sum modulo 2^n, and the flag set iff `a + b >= 2^n` |
| Header.UnsignedSubCorrect | src/header.rs:201-223 | the wrapped difference, and the flag set iff `a < b` |
| Header.SumLineText | src/header.rs:125 | the sum line prints `var2 = var0 + var1` |
| CheckedOp.CountNamedPositive | src/base.rs:102-109 | some helper has the name iff the count of such helpers is positive |
| CheckedOp.RegisterHelper | src/header.rs:83-105 | an existing name leaves the list alone; otherwise Add/Sub append exactly the helper `BuildHelper` builds, and anything else aborts |
| CheckedOp.RegisterIdempotent | src/header.rs:83-105 | registering twice equals registering once |
| CheckedOp.RegisteredSignedSubReturnsSum | src/header.rs:85-104 | the helper `handle_checked_op` registers (`CheckedOp.RegisterHelper`) for a signed `Sub` on `int32_t` is the as-written one: called on 5 and 3 it returns 8 |
| CheckedOp.RegisteredOnce | src/header.rs:83-105 | after registering, exactly one helper has the name if none did before |
| CheckedOp.DistinctOpsDistinctHelpers | src/header.rs:80 | distinct operators never share a helper |
| CheckedOp.CheckedCall | src/header.rs:107-110 | a call of the helper by name on `[lhs, rhs]` |
| CheckedOp.HandleCheckedOp | src/header.rs:71-111 | the call expression, with the header list as `RegisterHelper` leaves it; an abort changes nothing |
| Alloc.NextPtrOffset | src/alloc.rs:76-78 | the k-th relocation offset, or the buffer length once relocations run out |
| Alloc.PtrIndices | src/alloc.rs:117-142 | no more pointer slots than segments |
| Alloc.ByteText | src/alloc.rs:64-73 | `0xHH`, four characters |
| Alloc.BytesInitText | src/alloc.rs:58-74 | aborts exactly when the range runs past the buffer |
| Alloc.InitItem | src/alloc.rs:120-142 | an initializer item only consumes the pending name and deepens the pointer level |
| Alloc.InitsText | src/alloc.rs:117-142 | the initializer list only consumes the pending name and deepens the pointer level |
| Alloc.DeclarationText | src/alloc.rs:80-147 | the declaration only consumes the pending name and deepens the pointer level |
| Alloc.BuildBytesDeclaration | src/alloc.rs:58-74 | the byte loop writes what `BytesInitText` specifies |
| Alloc.DefinitionStep | src/alloc.rs:93-111 | one iteration of the first walk emits the next layout segment's field and strictly advances |
| Alloc.BuildDefinitions | src/alloc.rs:93-111 | the first walk emits the fields of the layout, in order |
| Alloc.InitializerStep | src/alloc.rs:117-142 | one iteration of the second walk emits the next layout segment's initializer and strictly advances |
| Alloc.BuildInitializers | src/alloc.rs:117-142 | the second walk emits the initializers of the same layout, in order |
| Alloc.BuildDeclaration | src/alloc.rs:80-147 | agrees with `DeclarationText` |
| Alloc.WalkStep | src/alloc.rs:93-111 | a byte run up to the next relocation, or an 8-byte pointer slot at it |
| Alloc.ByteListStep | src/alloc.rs:64-73 | bytes are separated by `, ` with none before the first |
| Alloc.WalkInRange | src/alloc.rs:128-141 | every pointer slot indexes an existing relocation, consecutively, and every byte run is non-empty |
| Alloc.WalkTiles | src/alloc.rs:93-142 | for well-formed relocations the segments tile the rest of the buffer and use every remaining relocation |
| Alloc.LayoutTiles | src/alloc.rs:93-142 | the layout covers the buffer exactly, uses relocations 0..n−1 in order, and no byte run reads out of range |
| Alloc.LayoutPointersInRange | src/alloc.rs:43-56 | each pointer slot is declared `void* ptr_k; /* offset o */` for an existing relocation |
| Alloc.LayoutExample | src/alloc.rs:32-41 | 4 bytes, a pointer, 1 byte: `int8_t bytes_1[1];` |
| Alloc.BytesInitExample | src/alloc.rs:58-74 | `{0x1F, 0xA0}` |

## Left out

- The rustc plugin hook, the file writer and the driver are not modelled
  (`lib.rs`, `write.rs`, and `OngoingCodegen::join`, `transpile_cgu` and
  `run` in `base.rs`). They are I/O and host glue.
- `handle_fn` is left out: it only prints debug output.
- Floating point is left out: `scalar_to_float` and float constant
  formatting.
- `const_to_usize`, `const_to_u128` and `scalar_to_u128` are left out, as
  are all rustc queries. The queries are `def_path_str_with_args`,
  `is_sized`, `discriminant_ty`, `discriminant_for_variant`,
  `int_size_and_signed`, `ty_for_local`, layouts and operand types. Their
  results are inputs of the model: a local's Rust type, a variant's
  discriminant with its byte size, and whether a unary operand is a bool.
- Pointer coercions and vtables in `handle_cast` (stmt.rs:306-350) are left
  out. They depend on rustc allocation ids.
- The paths that are unimplemented or only logged are left out:
  - `Subslice` (`todo!`) is kept as a projection that aborts. `OpaqueCast`
    is only logged in the source (stmt.rs:230-232), so it is a no-op in
    the model too.
  - The `Str` arm of a scalar constant (stmt.rs:601-605), which quotes the
    scalar's text, is not modelled. A `str` is unsized, so no scalar
    constant reaches that arm.
  - Global and static mono items are not modelled.
- Place.RvalueExpr, Place.AssignExpr and Place.HandleAssign exclude binary
  operations with overflow check. These go to `handle_checked_op`, modelled
  by `CheckedOp.HandleCheckedOp`. That path needs the pair struct from the
  old API's `get_struct`, which is not part of this model.
  `Header.OverflowOpsHaveNoHelper` shows that the path aborts in the source.
- Place.RvalueExpr excludes `Repeat`, which `AssignExpr` handles: it
  returns the repeat expression without assigning it.
- Aggregate.AggregateExpr requires a discriminant to fit in a `u128`,
  because it is one in the source.
- Utils.TruncateToSize requires `bytes < 16`. For 16 bytes the mask
  `1 << 128` overflows `u128`. In a build with overflow checks (cargo's
  default debug profile) the shift aborts, and `Aggregate.TagText` models
  that abort. Without overflow checks Rust masks the shift amount, so the
  mask is 0 and the tag is 0; that behaviour is not modelled.
- The old and new APIs are not reconciled:
  - `header.rs` builds its helpers with the old `Expression` and `CStruct`.
  - `stmt.rs` calls `handle_checked_op` with one more argument than
    header.rs:71-77 declares.
- Some definitions used by the newer files are not among the source files
  and are inferred from how they are used:
  - The composite types (`CComposite`, `CStructDef`, `CTaggedUnionDef`,
    `as_struct_def`, `as_tagged_union_def`) are assumed.
  - `TAG_NAME` and `UNION_NAME` are assumed to be `tag` and `union_var`.
  - A basic-block identifier is assumed to render as `bb<n>`.
  - The `Unwrap` access step, which `stmt.rs` uses but `expression.rs`
    lacks, is assumed to render as `.wrapee` (ty.rs:39).
  - The current function's local names are assumed to be part of the
    rendering context.
  - `get_variable_name_option` is assumed to consume the pending name. That
    is the only reading under which a definition renders `int32_t var1[3]`.
  - `{}` on a `CVarDef` or a `CType` (structure.rs:28, function.rs:33, 86)
    is read as their default rendering (definition.rs:37-41,
    ty.rs:196-200). The given sources declare only `Debug` for them, not
    `Display`.
- The pointer level in `CType::repr` is not reset for a function pointer's
  arguments. `Ty.PointerDepthLeaksIntoArguments` records the text it
  produces, and the model keeps that behaviour.
- The generated overflow guards use `&` rather than `&&`. C therefore
  evaluates the limit subtraction even when it is outside the range, which
  is undefined behaviour. The evaluator computes the guards on exact
  integers and does not model that undefined behaviour.
- Header.Store: storing a signed result wraps it in two's complement at the
  variable's width. In C a `var0 + var1` that overflows `int32_t` or
  `int64_t` is undefined behaviour (section 6.5 of ISO/IEC 9899:1999), and
  for `int8_t`/`int16_t` the narrowing conversion is implementation-defined
  (section 6.3.1.3). The "wrapped sum" and "wrapped difference" in
  `Header.SignedAddAsWritten`, `Header.SignedSubAsWritten`,
  `Header.SignedAddFixedCorrect` and `Header.SignedSubFixedCorrect` rest on
  this wrapping reading; only the overflow flag is independent of it.
- `stmt.rs` builds an `Expression::Repeat` (stmt.rs:522-533) that
  `expression.rs` neither declares nor renders. The model keeps it as
  `Expr.ArrayRepeat`, and rendering it aborts in `Expr.ExprText`.
- Place.PlaceExpr, Place.HandlePlace and Place.WalkPlace use the corrected
  `Deref`: it reads the pointee of the type the projections have reached.
  `handle_place` reads the pointee of the local's own type (stmt.rs:125,
  215). `Place.OperandExpr`, `Place.AssignExpr`, `Place.HandleAssign` and
  `Aggregate.AggregateExpr` use this corrected walk. The two agree whenever
  `Deref` is at most the first projection
  (`PlaceProps.PlaceExprAgreesWithoutLateDeref`). The as-written walk is
  `Place.PlaceExprAsWritten`.
- TypeMapper.Lower terminates only because `TypeMapper.RustTy` is an
  inductive datatype, so a type that contains itself cannot be expressed.
  Examples are `struct Node { next: *const Node }` and a `Box`-linked list.
  On such a type the source recurses without bound: `rust_to_c_type`
  (ty.rs:351-362) fills `ty_to_c` only after `rust_to_c_type_internal`
  returns, and the reference and raw-pointer arms (ty.rs:619-624, 664-668)
  lower the pointee first. The model does not capture that
  non-termination.

## Findings

| source | as written | input that shows it | evidently intended | confidence | as-written member | corrected member |
|---|---|---|---|---|---|---|
| src/header.rs:180 | `signed_sub` stores `first + second` as the difference | `5 − 3` on `i32` returns 8 | store `first − second` | not executed | Header.SignedSubReturnsSum | Header.SignedSubFixedCorrect |
| src/header.rs:128-135 | the signed overflow guards compare with `INT32_MAX`/`INT32_MIN` whatever the element width | `100 + 100` on `i8` gives (−56, no overflow); `2147483647 + 1` on `i64` reports an overflow | the limits of the element's own width | not executed | Header.SignedAddMissesI8Overflow | Header.SignedAddFixedCorrect |
| src/stmt.rs:125 | `Deref` asks `builtin_deref` of the local's type, not of the type the projections have reached | local `x: (&i32, u8)`, place `*x.0` (projections `[Field 0, Deref]`, a `Deref` after another projection) aborts | dereference the projected type, giving `(*x.field_0)` | not executed | PlaceProps.DerefAfterTupleFieldAsWritten | PlaceProps.DerefAfterTupleFieldResolves |
