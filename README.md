# autopxd: C declarations to Cython `.pxd` declarations

autopxd turns a parsed C header into a Cython declaration file. Its core
(`autopxd/__init__.py`) has two halves:

- **The output nodes.** `IdentifierType`, `Function`, `Ptr`, `Array`,
  `Type`, `Block` and `Enum` are plain values, and each can render itself as
  lines of text.
- **The `AutoPxd` visitor.** It walks pycparser's syntax tree with two
  stacks:
  - the ancestry of the node being visited;
  - a stack of result lists, where the innermost list collects what the
    children of the current node produce and list 0 is the top-level output.

  As it walks, the visitor:
  - hoists every struct, union, enum and function-pointer type with a body
    onto the top-level list, under its own name or one made from the names
    of its enclosing declarations (`path_name`);
  - records the fixed-width integer names it meets, for a
    `from libc.stdint cimport ...` line;
  - numbers enumerators into a constant table, which array dimensions given
    by name are read from.

The model is split the same way.

- **Output nodes (`Pxd`, pure functions).** `Lines` renders one output node:
  one `match` arm per class's `lines()`, for `IdentifierType`
  (autopxd/__init__.py:84-88, which `Array` inherits), `Function` (:105-108),
  `Ptr` (:123-129), `Type` (:153-156), `Block` (:166-171) and `Enum`
  (:180-188). `NameAttr` and `TypeNameAttr` are the `name`/`type_name`
  attributes and properties (:80-82, :115-121, :137-146), `ArgStr` is
  `argstr` (:97-103) and `StrOf` is `PxdNode.__str__` (:75-76). Python's
  exceptions become the `Error` values of a `Result`. Rendering a string or
  `None`, which have no `lines()`, is an `AttributeError`. Their contracts are
  stated by the `PxdLemmas` rows below.
- **The visitor.** It is modelled twice:
  - `AutoPxdImpl.AutoPxd` is a class holding the source's five fields. Its
    methods push, pop, append and reset them as the source does, with
    `while` loops for the enumerator counter and the rendering loop.
  - `VisitorSpec` holds pure functions over a `State` record with the same
    five fields.

  Every method's contract states that the new state (or its failure) is the
  spec function applied to the old state. `VisitorLemmas`, `HandlerLemmas`,
  `StdintLemmas` and the `*Shapes` modules then prove, about the spec
  functions, what the source promises. `StdintLemmas.TypeWords` lists the
  words of a tree's identifier types in walk order; a whole walk records the
  fixed-width names among them, which is what `translate` imports.
- **The tree.** pycparser's tree is the `CAst.Node` datatype. Its `generic_visit`
  order is `CAst.Children`: a function declarator's parameters come before its
  return type, and enumerators are not walked. Dispatch by class name is an
  exhaustive `match`.
- **`translate` and the filter of `parse`.** These are the `Translation`
  methods, given the parser's top-level declarations as input.

Three behaviours of the code as written that a reader might not expect,
all kept by the model:

- **Numbering starts at 1.** The enumerator counter starts at 0 and is
  incremented *before* it is stored, so the first enumerator without a
  literal gets 1, not 0 (autopxd/__init__.py:241-247;
  `HandlerLemmas.ImplicitValuesFromOne`).
- **Untagged anonymous enums.** The branch naming an anonymous enum
  `path_name('e')` repeats the condition of the branch before it and can never
  run (autopxd/__init__.py:251-255). So an anonymous enum outside a `typedef` keeps the name `None`:
  - it is rendered `cdef enum:`;
  - declared inline, it leaves `None` on the result list, and rendering the
    module then fails (`EnumShapes.InlineAnonymousEnum`,
    `EnumShapes.NoneValueFailsRendering`).
- **Pending dimensions leak.** A dimension pushed by an array whose element
  type is not itself an array declarator stays on `dimension_stack` until the
  next array declarator consumes it. The innermost `Array` node takes every
  dimension still pending, followed by its own (autopxd/__init__.py:318-330;
  `ArrayShapes.VisitArrayOfNamedType`).

## Model

| member | source | states |
|---|---|---|
| `Pxd.IndentAll` | autopxd/__init__.py:168-170 | every line is prefixed with the four-space indent, one output line per input line |
| `PxdLemmas.LinesShape` | autopxd/__init__.py:72-188 | rendering a node gives at least one line, and fails only with AttributeError, TypeError or AssertionError |
| `PxdLemmas.ArgLinesShape` | autopxd/__init__.py:97-103 | `argstr` gets exactly one line per argument, and fails only as rendering does |
| `PxdLemmas.FieldLinesShape` | autopxd/__init__.py:166-171 | a block body has at least one line per field, every one of them indented |
| `PxdLemmas.NameAttrFailure` | autopxd/__init__.py:115-142 | `name` fails only with AttributeError, or TypeError for an unnamed array element |
| `PxdLemmas.TypeNameAttrFailure` | autopxd/__init__.py:119-146 | `type_name` fails only with AttributeError |
| `PxdLemmas.StrOfFailure` | autopxd/__init__.py:75-76 | `str()` of a collected item fails only as rendering does |
| `ArrayShapes.TwoDimensionalLines` | autopxd/__init__.py:132-146 | an outer dimensionless `Array` around an inner one with dimensions `[a, b]` renders as `T x[a][b]` |
| `FunctionShapes.ParamLines` | autopxd/__init__.py:97-103 | the argument texts of named parameters are `T name`, in order |
| `FunctionShapes.PrototypeLines` | autopxd/__init__.py:105-108 | a function renders as `rt f(T a, U b)` |
| `FunctionShapes.FunctionPointerTypedefLines` | autopxd/__init__.py:123-127 | a `Type(Ptr(Function))` renders as `ctypedef rt (*name)(args)` |
| `PyStr.ParseInt` | autopxd/__init__.py:245 | `int()` of a literal succeeds exactly on a non-empty string of decimal digits, else ValueError |
| `PyStr.NatToString` | autopxd/__init__.py:324 | `str()` of a constant is a non-empty string of digits |
| `PyStr.ParseIntNatToString` | autopxd/__init__.py:324 | reading back the text of a constant gives the constant |
| `PyStr.SplitWords` | autopxd/__init__.py:336 | `split()` gives only non-empty words without whitespace |
| `PyStr.SplitTwoWords` | autopxd/__init__.py:336-337 | `split()` of `a b` is `[a, b]` |
| `AutoPxdImpl.AutoPxd.constructor` | autopxd/__init__.py:192-198 | a new visitor has empty ancestry, one empty top-level list, no dimensions, no fixed-width names and no constants |
| `AutoPxdImpl.AutoPxd.Visit` | autopxd/__init__.py:200-205 | push the node, handle it, pop it and check the pop; the new state is `VisitF` of the old |
| `AutoPxdImpl.AutoPxd.Handle` | autopxd/__init__.py:202 | dispatch to the node's `visit_*` handler, or walk its children |
| `AutoPxdImpl.AutoPxd.GenericVisit` | autopxd/__init__.py:343 | visit every child in order, stopping at the first failure |
| `AutoPxdImpl.AutoPxd.Collect` | autopxd/__init__.py:340-345 | push a fresh list, walk the children into it, check and pop it, and return what it holds |
| `AutoPxdImpl.AutoPxd.Append` | autopxd/__init__.py:368-369 | append onto the innermost result list |
| `AutoPxdImpl.AutoPxd.AppendTopLevel` | autopxd/__init__.py:230-232 | append onto the top-level list |
| `AutoPxdImpl.AutoPxd.PathName` | autopxd/__init__.py:347-357 | the loop over the ancestors but the last two computes `PathNameF` |
| `AutoPxdImpl.AutoPxd.ChildOf` | autopxd/__init__.py:359-366 | the kind test at a depth, an IndexError past the root; without a depth, a search of the ancestry |
| `AutoPxdImpl.AutoPxd.VisitIdentifierType` | autopxd/__init__.py:207-211 | the loop records new fixed-width names, then the words joined by spaces are appended |
| `AutoPxdImpl.AutoPxd.DeclaratorPlacement` | autopxd/__init__.py:214-215 | whether the parent is a TypeDecl and, only then, whether the grandparent is a Typedef |
| `AutoPxdImpl.AutoPxd.NameBlock` | autopxd/__init__.py:216-221 | own name, else `path_name()` under a typedef, else `path_name` tagged with the kind's initial |
| `AutoPxdImpl.AutoPxd.VisitBlock` | autopxd/__init__.py:213-236 | `visit_Block` for structs and unions |
| `AutoPxdImpl.AutoPxd.DefineBlock` | autopxd/__init__.py:228-236 | hoist as `ctypedef` for an anonymous typedef target, else as `cdef` plus a reference when inline |
| `AutoPxdImpl.AutoPxd.NumberValues` | autopxd/__init__.py:239-248 | the counter loop stores every enumerator's value in `constants` and returns the names in order |
| `AutoPxdImpl.AutoPxd.VisitEnum` | autopxd/__init__.py:238-264 | `visit_Enum`, including the unreachable second naming branch |
| `AutoPxdImpl.AutoPxd.DefineEnum` | autopxd/__init__.py:257-264 | hoist a non-empty enum (`ctypedef` for an anonymous typedef target), and leave its name, or `None`, when inline |
| `AutoPxdImpl.AutoPxd.AttachDeclaredName` | autopxd/__init__.py:274-280 | nothing, an AssertionError for more than one item, a bare type string named by the declarator, or the item itself |
| `AutoPxdImpl.AutoPxd.VisitTypeDecl` | autopxd/__init__.py:272-280 | collect the type, then attach `declname` |
| `AutoPxdImpl.AutoPxd.VisitDecl` | autopxd/__init__.py:282-290 | collect the type, then attach `name` |
| `AutoPxdImpl.AutoPxd.PointerDeclared` | autopxd/__init__.py:300-301 | parent is a PtrDecl and grandparent not a Typedef |
| `AutoPxdImpl.AutoPxd.VisitFuncDecl` | autopxd/__init__.py:292-307 | collect parameters and return type, then declare the function |
| `AutoPxdImpl.AutoPxd.DeclareFunction` | autopxd/__init__.py:294-307 | return type and name from the last item, a lone `void` dropped, the pointer typedef hoisted or the function appended |
| `AutoPxdImpl.AutoPxd.VisitPtrDecl` | autopxd/__init__.py:310-316 | exactly one item: a name string passes through, anything else is wrapped in `Ptr` |
| `AutoPxdImpl.AutoPxd.VisitArrayDecl` | autopxd/__init__.py:318-330 | push the dimension text, collect one item, append an `Array` with the whole pending list, reset it |
| `AutoPxdImpl.AutoPxd.VisitTypedef` | autopxd/__init__.py:332-338 | with one item, hoist `Type(item)` unless its first two words are equal; fewer than two words is an IndexError |
| `AutoPxdImpl.AutoPxd.Lines` | autopxd/__init__.py:371-377 | the header, a blank line, then each top-level node's lines indented and followed by a blank line |
| `Translation.FilterDeclarations` | autopxd/__init__.py:396-401 | the loop keeps exactly the declarations `FilterF` keeps, in order |
| `Translation.FilterAppend` | autopxd/__init__.py:396-401 | the filter works declaration by declaration and keeps the original order |
| `Translation.FilterMembers` | autopxd/__init__.py:396-401 | a declaration is kept if and only if it has a `name` attribute outside the ignored set and its file passes the whitelist |
| `Translation.Translate` | autopxd/__init__.py:417-423 | walk the filtered tree with a fresh visitor, then prefix the stdint import to the rendered lines |
| `Translation.TranslateWalk` | autopxd/__init__.py:417-423 | no stack assertion can fail; a successful walk ends at the root with one result list, no pending dimension, and the recorded names are exactly those the kept declarations' type words give, each once, in first-use order |
| `Translation.PrefixedLines` | autopxd/__init__.py:419-423 | the rendered text is preceded by the import exactly when names were recorded, and the header follows it |
| `Translation.TranslateOutput` | autopxd/__init__.py:419-423 | the output starts with the import of the fixed-width names of the kept declarations' type words, then the `cdef extern from` header; the import is there if and only if some kept declaration uses a fixed-width name |
| `StdintLemmas.RecordStdintConcat` | autopxd/__init__.py:207-210 | recording two runs of words in turn is recording their concatenation |
| `StdintLemmas.RecordStdintFirstUse` | autopxd/__init__.py:207-210 | at its first use a fixed-width name is recorded right after the names of the earlier words: first-use order |
| `StdintLemmas.StdintImportNeeded` | autopxd/__init__.py:207-210 | some name is recorded if and only if some word is a fixed-width name |
| `StdintLemmas.VisitRecords` | autopxd/__init__.py:200-210 | a successful visit of any tree records exactly what recording the tree's type words, in walk order, gives |
| `StdintLemmas.HandleRecords` | autopxd/__init__.py:207-338 | the same for every handler |
| `StdintLemmas.ChildrenRecords` | autopxd/__init__.py:343 | the same for a walk over the children, left to right |
| `StdintLemmas.CollectRecords` | autopxd/__init__.py:340-345 | `collect` records what its children's words give |
| `StdintLemmas.DeclaratorRecords` | autopxd/__init__.py:272-338 | the collecting handlers record only what their children do |
| `StdintLemmas.BlockRecords` | autopxd/__init__.py:213-236 | `visit_Block` records only what its members do |
| `StdintLemmas.EnumRecords` | autopxd/__init__.py:238-264 | `visit_Enum` records nothing |
| `VisitorLemmas.VisitDisciplined` | autopxd/__init__.py:200-205 | a visit never fails its stack assertions, and on success hands back the same ancestry, as many result lists, each only extended at its end |
| `VisitorLemmas.HandleDisciplined` | autopxd/__init__.py:207-338 | the same for every handler |
| `VisitorLemmas.ChildrenDisciplined` | autopxd/__init__.py:343 | the same for a walk over the children |
| `VisitorLemmas.CollectDisciplined` | autopxd/__init__.py:340-345 | `collect` pops exactly the list it pushed, and hands back a state that grew from the one it got |
| `VisitorLemmas.RecordStdintExtends` | autopxd/__init__.py:208-210 | the fixed-width list only grows at its end |
| `VisitorLemmas.RecordStdintMembers` | autopxd/__init__.py:208-210 | a name is recorded if and only if it was recorded before or is a fixed-width name among the words |
| `VisitorLemmas.RecordStdintWellFormed` | autopxd/__init__.py:208-210 | no name is recorded twice |
| `VisitorLemmas.NumberEnumeratorsKeys` | autopxd/__init__.py:240-248 | numbering forgets no constant, and fails only with ValueError |
| `VisitorLemmas.BlockDisciplined` | autopxd/__init__.py:213-236 | `visit_Block` keeps the stack discipline |
| `VisitorLemmas.BlockReferenceDisciplined` | autopxd/__init__.py:222-226 | so does a struct reference without fields |
| `VisitorLemmas.BlockDefinitionDisciplined` | autopxd/__init__.py:227-236 | so does a struct definition after its fields |
| `VisitorLemmas.DefineBlockDisciplined` | autopxd/__init__.py:228-236 | so does the hoist and reference of a struct |
| `VisitorLemmas.EnumDisciplined` | autopxd/__init__.py:238-264 | `visit_Enum` keeps the stack discipline |
| `VisitorLemmas.DefineEnumDisciplined` | autopxd/__init__.py:257-264 | so does the hoist and reference of an enum |
| `VisitorLemmas.AttachNameGrows` | autopxd/__init__.py:274-290 | attaching a declared name keeps it |
| `VisitorLemmas.TypeDeclDisciplined` | autopxd/__init__.py:272-280 | `visit_TypeDecl` keeps it |
| `VisitorLemmas.DeclDisciplined` | autopxd/__init__.py:282-290 | `visit_Decl` keeps it |
| `VisitorLemmas.FuncDeclDisciplined` | autopxd/__init__.py:292-307 | `visit_FuncDecl` keeps it |
| `VisitorLemmas.DeclareFunctionDisciplined` | autopxd/__init__.py:294-307 | the tail of `visit_FuncDecl` keeps it |
| `VisitorLemmas.PtrDeclDisciplined` | autopxd/__init__.py:310-316 | `visit_PtrDecl` keeps it |
| `VisitorLemmas.ArrayDeclDisciplined` | autopxd/__init__.py:318-330 | `visit_ArrayDecl` keeps it |
| `VisitorLemmas.TypedefDisciplined` | autopxd/__init__.py:332-338 | `visit_Typedef` keeps it |
| `VisitorLemmas.DeclLinesShape` | autopxd/__init__.py:371-377 | every rendered line after the header is blank or indented, two or more lines per node |
| `HandlerLemmas.NumberEnumeratorsOk` | autopxd/__init__.py:240-248 | numbering succeeds if and only if every literal reads as a decimal integer |
| `HandlerLemmas.NumberFirst` | autopxd/__init__.py:242-248 | the first enumerator is numbered, then the rest from its value |
| `HandlerLemmas.NumberEnumeratorsNames` | autopxd/__init__.py:242-243 | the names returned are the enumerators' names, in order |
| `HandlerLemmas.NumberEnumeratorsValues` | autopxd/__init__.py:244-248 | each enumerator not redefined later is stored with its positional value: its literal, else one more than the one before |
| `HandlerLemmas.NumberEnumeratorsKeeps` | autopxd/__init__.py:248 | constants of other names keep their values |
| `HandlerLemmas.ImplicitValuesFromOne` | autopxd/__init__.py:241-247 | without literals the `i`-th enumerator gets `i + 1` |
| `HandlerLemmas.AfterLiteral` | autopxd/__init__.py:244-247 | an enumerator without a literal after one with a literal gets that literal plus one |
| `HandlerLemmas.PathNamesAppend` | autopxd/__init__.py:348-353 | the names of a concatenated ancestry are the names of each part, in order |
| `HandlerLemmas.PathNamesFromAncestors` | autopxd/__init__.py:348-353 | every name used is non-empty and is the `declname` or `name` of some ancestor, at most one per ancestor |
| `HandlerLemmas.PathNameSkipsNodeAndParent` | autopxd/__init__.py:347-357 | the node and its parent are skipped; the names join with `_`, and a tag gives `_<names>_<tag>` |
| `DeclarationShapes.VisitTypeWords` | autopxd/__init__.py:207-211 | `unsigned int` leaves `"unsigned int"` and records the fixed-width words |
| `DeclarationShapes.VisitNamedType` | autopxd/__init__.py:272-280 | `T x` leaves `IdentifierType(x, T)` |
| `DeclarationShapes.VisitPlainDecl` | autopxd/__init__.py:282-290 | `T x;` leaves `IdentifierType(x, T)` |
| `DeclarationShapes.VisitStructReference` | autopxd/__init__.py:222-226 | `struct s` as a declarator's type leaves the name `s` |
| `DeclarationShapes.TypedefOfStructTag` | autopxd/__init__.py:332-338 | `typedef struct s t;` hoists `ctypedef s t` unless `s == t`, when it adds nothing |
| `ArrayShapes.VisitArrayOfNamedType` | autopxd/__init__.py:318-330 | `T x[d0]...[dk]`: the innermost `Array` holds the pending dimensions, then all of its own in source order; outer levels get none; nothing stays pending |
| `ArrayShapes.VisitArrayDecl` | autopxd/__init__.py:318-330 | the same under a declaration, which passes the array up unchanged |
| `BlockShapes.VisitMember` | autopxd/__init__.py:282-290 | one member `T m;` appends its field |
| `BlockShapes.VisitMembers` | autopxd/__init__.py:343 | walking the members appends one field per member, in order |
| `BlockShapes.CollectMembers` | autopxd/__init__.py:340-345 | collecting a block's members returns its fields, in order |
| `BlockShapes.DefineBlockEmit` | autopxd/__init__.py:228-236 | one block hoisted; a reference left when inline and not an anonymous typedef target |
| `BlockShapes.VisitBlockDefinition` | autopxd/__init__.py:213-236 | a struct with members is hoisted under its name (own or from the path), as `ctypedef` exactly when an anonymous typedef target, and referenced when inline |
| `BlockShapes.BlockStatement` | autopxd/__init__.py:229-232 | `struct s { ... };` hoists `cdef struct s` and leaves nothing |
| `BlockShapes.TypedefOfAnonymousBlock` | autopxd/__init__.py:217-230 | `typedef struct { ... } T;` hoists a `ctypedef` block named from the path and `T`, and no alias |
| `BlockShapes.InlineAnonymousBlock` | autopxd/__init__.py:217-236 | `struct { ... } v;` hoists `_<path>_v_s` and leaves the field `_<path>_v_s v` |
| `BlockShapes.BareBlockReference` | autopxd/__init__.py:222-226 | a struct without fields that is not a declarator's type yields nothing |
| `BlockShapes.BlockHoistedAfterFields` | autopxd/__init__.py:227-232 | whatever the fields hoisted comes first on the top-level list, followed at once by the block |
| `FunctionShapes.VisitVoidParams` | autopxd/__init__.py:297-299 | a `(void)` parameter list leaves one `void` item |
| `FunctionShapes.VisitNamedParams` | autopxd/__init__.py:292-296 | named parameters leave one item each, in order |
| `FunctionShapes.CollectFuncDecl` | autopxd/__init__.py:293-296 | the parameters are collected before the return type, which comes last |
| `FunctionShapes.VisitFuncDeclWith` | autopxd/__init__.py:292-307 | behind an untypedef'd pointer the function type is hoisted as `ctypedef` of a pointer named `_<path>_ft` and that name is left; elsewhere the function is left; a lone `void` is dropped |
| `FunctionShapes.FuncDeclTail` | autopxd/__init__.py:292-307 | the same from what was collected |
| `FunctionShapes.DeclareFunctionEmit` | autopxd/__init__.py:294-307 | the same for the tail alone |
| `FunctionShapes.PointerLeavesName` | autopxd/__init__.py:313-314 | a pointer whose target leaves a name passes it up without `Ptr` |
| `FunctionShapes.VoidFunctionPointer` | autopxd/__init__.py:300-305 | `rt (*f)(void);` hoists `ctypedef rt (*_<path>_f_ft)()` and leaves the field `_<path>_f_ft f` |
| `FunctionShapes.VoidPrototype` | autopxd/__init__.py:297-307 | `rt f(void);` leaves `Function(rt, f, [])` |
| `FunctionShapes.Prototype` | autopxd/__init__.py:292-307 | `rt f(T1 a1, T2 a2);` leaves the function with its parameters, in order |
| `EnumShapes.Numbered` | autopxd/__init__.py:242-243 | numbering returns the enumerators' names, in order |
| `EnumShapes.VisitEnumDefinition` | autopxd/__init__.py:238-264 | an enum with enumerators numbers them, is hoisted (as `ctypedef` exactly when an anonymous typedef target) and leaves its name, or `None`, when inline |
| `EnumShapes.DefineEnumEmit` | autopxd/__init__.py:257-264 | one enum hoisted; a reference left when inline and not an anonymous typedef target |
| `EnumShapes.EnumStatement` | autopxd/__init__.py:251-262 | `enum e { ... };` hoists `cdef enum e`, and an untagged enum keeps no name |
| `EnumShapes.TypedefOfAnonymousEnum` | autopxd/__init__.py:251-259 | `typedef enum { ... } T;` hoists a `ctypedef` enum named from the path and `T` |
| `EnumShapes.InlineAnonymousEnum` | autopxd/__init__.py:251-264 | `enum { ... } v;` hoists an untagged enum and leaves `None` |
| `EnumShapes.NoneValueFailsRendering` | autopxd/__init__.py:371-377 | a `None` on the top-level list makes rendering fail |

## Left out

- `preprocess` (autopxd/__init__.py:380-389): it runs the external `cpp` process. The model starts from the parsed tree.
- `c_parser.CParser().parse` in `parse`: pycparser is a foreign library. Its output is the input datatype `CAst.Node`, and each top-level declaration carries the file of its coordinate.
- `NodeVisitor.generic_visit` and the dispatch by class name are pycparser code. They become `CAst.Children`, which lists the children in the parser's order, and a `match` over the node kinds.
- Children the model does not list: a `Decl`'s `init` and `bitsize`, and the insides of expressions. Enumerator values are never walked by the source (`visit_Enum`, autopxd/__init__.py:238-264, calls no generic visit), so for them nothing is lost. Array dimensions and initialisers are walked by the source, and an expression holding a type name (`sizeof(int)`, a cast, a compound literal) reaches its `Typename` and `TypeDecl`, which append an item to the enclosing collect list: `int a[sizeof(int)];` then fails the one-item assertion of `visit_ArrayDecl` (:328), and `int x = (int)3;` that of `visit_Decl` (:286; :276 for a `TypeDecl`). The model's dimension expressions are leaves and it has no initialisers, so it accepts those declarations (rendering `int a[]` and `int x`) where the source raises AssertionError. Expressions without a type name add nothing in the source either.
- pycparser's `EllipsisParam`, the `...` of a variadic prototype, has no `CAst.Node` constructor. In the source it is walked by the generic visit, has no handler and no children, and appends nothing, so the marker is dropped: `int f(int a, ...);` renders as `int f(int a)`. Leaving it out of the input type gives the same output.
- `ensure_binary`, `translate_command_line`, the CLI, and the `-I` arguments that `translate` adds: bytes/text coercion, file I/O and preprocessor flags.
- Object identity: the source's check that `visit` pops the node it pushed compares objects. The model compares the stack height and the popped node, which is the same check for a tree.
- `split()` treats only the ASCII whitespace characters as spaces.
- `PyStr.ParseInt`: `int()` is modelled for decimal digit strings only. A sign, surrounding spaces or underscores are a ValueError here, though Python accepts them.
- `IGNORE_DECLARATIONS` and `STDINT_DECLARATIONS` are copied as constant sets.
- Block rendering: each field goes through `IndentAll` rather than the source's nested line loop. The lines are the same.
