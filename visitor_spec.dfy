/** What one step of the `AutoPxd` visitor does to its state
    (autopxd/__init__.py:191-377), as functions from the state before to the
    state after. The class in autopxd.dfy is proved to follow these exactly;
    the lemmas in visitor_lemmas.dfy state what the walk guarantees. */
module VisitorSpec {
  import opened Results
  import opened PyStr
  import opened CAst
  import opened Pxd
  import opened Declarations

  /** The visitor's fields: the ancestry of the node being visited, the stack
      of result lists (`declStack[0]` is the top-level output), the array
      dimensions gathered so far, the fixed-width names met, and the
      enumerator values. */
  datatype State = State(
    visitStack: seq<Node>,
    declStack: seq<seq<Item>>,
    dimensionStack: seq<string>,
    stdintDeclarations: seq<string>,
    constants: map<string, nat>)

  /** The state `AutoPxd.__init__` sets up. */
  const Initial := State([], [[]], [], [], map[])

  function Last<T>(s: seq<T>): T
    requires |s| > 0
  {
    s[|s| - 1]
  }

  function DropLast<T>(s: seq<T>): seq<T>
    requires |s| > 0
  {
    s[..|s| - 1]
  }

  /** A position counted from the top of the visit stack (`-1` is the node
      being visited, `-2` its parent). */
  type Depth = k: nat | k >= 1 witness 1

  /** `self.visit_stack[-k]` */
  function At(vs: seq<Node>, k: Depth): (r: Result<Node>)
    ensures r.Ok? <==> k <= |vs|
    ensures r.Ok? ==> r.value == vs[|vs| - k]
    ensures r.Err? ==> r.error == IndexError
  {
    if k <= |vs| then Ok(vs[|vs| - k]) else Err(IndexError)
  }

  /** `child_of(type, index)`: without an index, whether any node on the
      stack has that kind; with one, whether the node at that depth has it. */
  function ChildOfF(vs: seq<Node>, kind: Kind, index: Option<Depth>): Result<bool> {
    if index.None? then Ok(exists j :: 0 <= j < |vs| && KindOf(vs[j]) == kind)
    else
      var n :- At(vs, index.value);
      Ok(KindOf(n) == kind)
  }

  /** The names `path_name` collects from a run of ancestors, outermost first. */
  function PathNames(vs: seq<Node>): seq<string> {
    if vs == [] then []
    else
      var seg := PathSegment(Last(vs));
      PathNames(DropLast(vs)) + (if seg.Some? then [seg.value] else [])
  }

  /** `path_name(tag)`: the names of every ancestor but the node and its
      parent, joined by `_`; a tag adds a leading `_` and a trailing `_tag`. */
  function PathNameF(vs: seq<Node>, tag: Option<string>): string {
    var names := PathNames(if |vs| >= 2 then vs[..|vs| - 2] else []);
    if tag.None? then Join(names, "_") else "_" + Join(names, "_") + "_" + tag.value
  }

  /** `self.append(x)`: onto the innermost result list. */
  function AppendF(st: State, it: Item): Result<State> {
    if |st.declStack| == 0 then Err(IndexError)
    else Ok(st.(declStack := DropLast(st.declStack) + [Last(st.declStack) + [it]]))
  }

  /** `self.decl_stack[0].append(x)`: onto the top-level output. */
  function HoistF(st: State, it: Item): Result<State> {
    if |st.declStack| == 0 then Err(IndexError)
    else Ok(st.(declStack := [st.declStack[0] + [it]] + st.declStack[1..]))
  }

  /** The loop of `visit_IdentifierType` over the identifier's words: a
      fixed-width name not yet recorded is added at the end. */
  function RecordStdint(acc: seq<string>, names: seq<string>): seq<string>
    decreases names
  {
    if names == [] then acc
    else
      var acc1 := if names[0] in STDINT_DECLARATIONS && names[0] !in acc then acc + [names[0]] else acc;
      RecordStdint(acc1, names[1..])
  }

  /** The value an enumerator takes given the running counter: its literal,
      read by `int()`, or the counter plus one. */
  function EnumeratorValue(e: Enumerator, counter: nat): Result<nat> {
    if e.value.Some? && e.value.value.Constant? then ParseInt(e.value.value.value)
    else Ok(counter + 1)
  }

  /** The loop of `visit_Enum`: enumerator names in order, and the constant
      table with each enumerator's value recorded. */
  function NumberEnumerators(es: seq<Enumerator>, counter: nat, consts: map<string, nat>)
    : Result<(seq<string>, map<string, nat>)>
  {
    if es == [] then Ok(([], consts))
    else
      var v :- EnumeratorValue(es[0], counter);
      var rest :- NumberEnumerators(es[1..], v, consts[es[0].name := v]);
      Ok(([es[0].name] + rest.0, rest.1))
  }

  /** The text of one array dimension: a literal's own text, a known
      constant's value, or nothing. */
  function DimText(dim: Option<Expr>, consts: map<string, nat>): string {
    match dim
    case Some(Constant(v)) => v
    case Some(ID(x)) => if x in consts then NatToString(consts[x]) else ""
    case _ => ""
  }

  /** `visit(node)`: push the node, dispatch on its kind, pop it again. */
  function VisitF(st: State, n: Node): Result<State>
    decreases n, 4, 0
  {
    var st1 :- HandleF(st.(visitStack := st.visitStack + [n]), n);
    if |st1.visitStack| == 0 then Err(IndexError)
    else if Last(st1.visitStack) != n then Err(StackAssertion)
    else Ok(st1.(visitStack := DropLast(st1.visitStack)))
  }

  /** The dispatch: a `visit_*` method where one exists, else the generic
      walk over the children. */
  function HandleF(st: State, n: Node): Result<State>
    decreases n, 3, 0
  {
    match n
    case FileAST(_) => VisitChildrenF(st, n, 0)
    case ParamList(_) => VisitChildrenF(st, n, 0)
    case Typename(_, _) => VisitChildrenF(st, n, 0)
    case IdentifierType(names) => VisitIdentifierTypeF(st, names)
    case Struct(_, _) => VisitBlockF(st, n)
    case Union(_, _) => VisitBlockF(st, n)
    case Enum(_, _) => VisitEnumF(st, n)
    case TypeDecl(_, _) => VisitTypeDeclF(st, n)
    case Decl(_, _) => VisitDeclF(st, n)
    case FuncDecl(_, _) => VisitFuncDeclF(st, n)
    case PtrDecl(_) => VisitPtrDeclF(st, n)
    case ArrayDecl(_, _) => VisitArrayDeclF(st, n)
    case Typedef(_, _) => VisitTypedefF(st, n)
  }

  /** `generic_visit`: visit the children from the `i`-th on, in order. */
  function VisitChildrenF(st: State, n: Node, i: nat): Result<State>
    requires i <= |Children(n)|
    decreases n, 0, |Children(n)| - i
  {
    if i == |Children(n)| then Ok(st)
    else
      var st1 :- VisitF(st, Children(n)[i]);
      VisitChildrenF(st1, n, i + 1)
  }

  /** `collect(node)`: walk the children into a fresh result list, pop it and
      return it. The check stands for the assertion that the list popped is
      the one pushed: the stack is back at the height it had after the push. */
  function CollectF(st: State, n: Node): Result<(State, seq<Item>)>
    decreases n, 1, 0
  {
    var st1 :- VisitChildrenF(st.(declStack := st.declStack + [[]]), n, 0);
    if |st1.declStack| == 0 then Err(IndexError)
    else if |st1.declStack| != |st.declStack| + 1 then Err(StackAssertion)
    else Ok((st1.(declStack := DropLast(st1.declStack)), Last(st1.declStack)))
  }

  function VisitIdentifierTypeF(st: State, names: seq<string>): Result<State> {
    var st1 := st.(stdintDeclarations := RecordStdint(st.stdintDeclarations, names));
    AppendF(st1, Str(Join(names, " ")))
  }

  /** `type_decl = child_of(TypeDecl, -2)` and `type_def = type_decl and
      child_of(Typedef, -3)`: whether the node is the type of a declarator,
      and whether that declarator is the one a `typedef` declares. */
  function DeclaratorContext(vs: seq<Node>): Result<(bool, bool)> {
    var parent :- At(vs, 2);
    if parent.TypeDecl? then
      var g :- At(vs, 3);
      Ok((true, g.Typedef?))
    else Ok((false, false))
  }

  function BlockKind(n: Node): string {
    if n.Struct? then "struct" else "union"
  }

  /** The name a struct or union is declared under: its own, else one made
      from the enclosing declarations, bare under a `typedef` and tagged with
      the kind's initial otherwise. */
  function BlockName(vs: seq<Node>, n: Node, typeDef: bool): string
    requires n.Struct? || n.Union?
  {
    if Truthy(n.name) then n.name.value
    else if typeDef then PathNameF(vs, None)
    else PathNameF(vs, Some(BlockKind(n)[..1]))
  }

  /** `visit_Block`, shared by structs and unions. */
  function VisitBlockF(st: State, n: Node): Result<State>
    requires n.Struct? || n.Union?
    decreases n, 2, 0
  {
    var vs := st.visitStack;
    var kind := BlockKind(n);
    var ctx :- DeclaratorContext(vs);
    var typeDecl := ctx.0;
    var typeDef := ctx.1;
    var name := BlockName(vs, n, typeDef);
    if |n.decls| == 0 then
      if typeDecl then AppendF(st, Str(name)) else Ok(st)
    else
      var c :- CollectF(st, n);
      DefineBlockF(c.0, Block(name, c.1, kind, "cdef"), typeDef && n.name.None?, typeDecl)
  }

  /** The end of `visit_Block` once the fields are collected: an anonymous
      struct or union under a `typedef` is hoisted as a `ctypedef` block and
      leaves nothing behind; any other is hoisted as a `cdef` block, and one
      declared inline leaves a reference to the name it was hoisted under. */
  function DefineBlockF(st: State, block: PxdNode, anonymousTypedef: bool, inline: bool): Result<State>
    requires block.Block?
  {
    if anonymousTypedef then HoistF(st, Node(Block(block.blockName, block.fields, block.kind, "ctypedef")))
    else
      var st2 :- HoistF(st, Node(block));
      if inline then AppendF(st2, Str(block.blockName)) else Ok(st2)
  }

  /** The reference an enum leaves: its name, or `None`. */
  function OptionItem(name: Option<string>): Item {
    if name.Some? then Str(name.value) else NoneValue
  }

  function VisitEnumF(st: State, n: Node): Result<State>
    requires n.Enum?
  {
    var numbered :- NumberEnumerators(n.values, 0, st.constants);
    var items := numbered.0;
    var st1 := st.(constants := numbered.1);
    var vs := st.visitStack;
    var ctx :- DeclaratorContext(vs);
    var typeDecl := ctx.0;
    var typeDef := ctx.1;
    // The second branch of the source's naming (a tag `e`) repeats the first
    // condition and is never taken, so an untypedef'd anonymous enum keeps `None`.
    var name := if !Truthy(n.name) && typeDef then Some(PathNameF(vs, None)) else n.name;
    DefineEnumF(st1, name, items, n.name.None? && typeDef, typeDecl)
  }

  /** The end of `visit_Enum` once the enumerators are numbered: an
      anonymous enum under a `typedef` is hoisted as a `ctypedef`; any other
      with enumerators is hoisted as a `cdef`, and one declared inline
      leaves its name (or `None`). */
  function DefineEnumF(st: State, name: Option<string>, items: seq<string>,
                       anonymousTypedef: bool, inline: bool): Result<State>
  {
    if anonymousTypedef && |items| > 0 then
      HoistF(st, Node(Pxd.Enum(name, items, "ctypedef")))
    else
      var st2 :- if |items| > 0 then HoistF(st, Node(Pxd.Enum(name, items, "cdef"))) else Ok(st);
      if inline then AppendF(st2, OptionItem(name)) else Ok(st2)
  }

  /** The common tail of `visit_TypeDecl` and `visit_Decl`: a bare type
      string gets the declared name attached, anything else passes through. */
  function AttachName(st: State, decls: seq<Item>, name: Option<string>): Result<State> {
    if |decls| == 0 then Ok(st)
    else if |decls| != 1 then Err(AssertionError)
    else if decls[0].Str? then AppendF(st, Node(Pxd.IdentifierType(OrEmpty(name), decls[0].s)))
    else AppendF(st, decls[0])
  }

  function VisitTypeDeclF(st: State, n: Node): Result<State>
    requires n.TypeDecl?
    decreases n, 2, 0
  {
    var c :- CollectF(st, n);
    AttachName(c.0, c.1, n.declname)
  }

  function VisitDeclF(st: State, n: Node): Result<State>
    requires n.Decl?
    decreases n, 2, 0
  {
    var c :- CollectF(st, n);
    AttachName(c.0, c.1, n.name)
  }

  /** A lone argument of type `void` means no arguments. */
  function ElideVoid(args: seq<Item>): Result<seq<Item>> {
    if |args| == 1 && IsIdentifierTypeInstance(args[0]) then
      var tn :- TypeNameAttr(args[0]);
      Ok(if tn == "void" then [] else args)
    else Ok(args)
  }

  /** Whether the function type being visited is the target of a pointer
      that a `typedef` does not name: a function-pointer variable, field or
      parameter. */
  function FunctionPointerDeclared(vs: seq<Node>): Result<bool> {
    var parent :- At(vs, 2);
    if parent.PtrDecl? then
      var g :- At(vs, 3);
      Ok(!g.Typedef?)
    else Ok(false)
  }

  function VisitFuncDeclF(st: State, n: Node): Result<State>
    requires n.FuncDecl?
    decreases n, 2, 0
  {
    var c :- CollectF(st, n);
    DeclareFunctionF(c.0, c.1)
  }

  /** The end of `visit_FuncDecl` once the parameters and the return type
      are collected (the return type last): the parameters lose a lone
      `void`; a function-pointer declaration hoists a `ctypedef` of the
      pointer type under a name made from the enclosing declarations and
      leaves that name, any other leaves the function itself. */
  function DeclareFunctionF(st: State, decls: seq<Item>): Result<State> {
    if |decls| == 0 then Err(IndexError)
    else
      var returnType :- TypeNameAttr(Last(decls));
      var fname :- NameAttr(Last(decls));
      var args :- ElideVoid(DropLast(decls));
      var vs := st.visitStack;
      var pointer :- FunctionPointerDeclared(vs);
      if pointer then
        var name := PathNameF(vs, Some("ft"));
        var st2 :- HoistF(st, Node(Type(Node(Ptr(Node(Function(returnType, Some(name), args)))))));
        AppendF(st2, Str(name))
      else AppendF(st, Node(Function(returnType, fname, args)))
  }

  function VisitPtrDeclF(st: State, n: Node): Result<State>
    requires n.PtrDecl?
    decreases n, 2, 0
  {
    var c :- CollectF(st, n);
    if |c.1| != 1 then Err(AssertionError)
    else if c.1[0].Str? then AppendF(c.0, c.1[0])
    else AppendF(c.0, Node(Ptr(c.1[0])))
  }

  function VisitArrayDeclF(st: State, n: Node): Result<State>
    requires n.ArrayDecl?
    decreases n, 2, 0
  {
    var dim := DimText(n.dim, st.constants);
    var c :- CollectF(st.(dimensionStack := st.dimensionStack + [dim]), n);
    if |c.1| != 1 then Err(AssertionError)
    else
      var st2 :- AppendF(c.0, Node(Array(c.1[0], c.0.dimensionStack)));
      Ok(st2.(dimensionStack := []))
  }

  function VisitTypedefF(st: State, n: Node): Result<State>
    requires n.Typedef?
    decreases n, 2, 0
  {
    var c :- CollectF(st, n);
    if |c.1| != 1 then Ok(c.0)
    else
      var text :- StrOf(c.1[0]);
      var names := Split(text);
      if |names| < 2 then Err(IndexError)
      else if names[0] != names[1] then HoistF(c.0, Node(Type(c.1[0])))
      else Ok(c.0)
  }

  /** `AutoPxd.lines`: the `cdef extern` header, then every top-level node's
      lines indented once, each followed by a blank line. */
  function AutoPxdLinesF(hdrname: string, declStack: seq<seq<Item>>): Result<seq<string>> {
    if |declStack| == 0 then Err(IndexError)
    else
      var body :- DeclLines(declStack[0]);
      Ok(["cdef extern from \"" + hdrname + "\":", ""] + body)
  }

  function DeclLines(decls: seq<Item>): Result<seq<string>> {
    if decls == [] then Ok([])
    else
      var ls :- Lines(decls[0]);
      var rest :- DeclLines(decls[1..]);
      Ok(IndentAll(ls) + [""] + rest)
  }

  /** The import line `translate` puts in front when fixed-width names were met. */
  function StdintPrefix(names: seq<string>): string {
    if |names| > 0 then "from libc.stdint cimport " + Join(names, ", ") + "\n\n" else ""
  }

  /** The declaration filter of `parse`: keep a declaration that has a `name`
      attribute whose value is not an ignored name and, when a whitelist is
      given, whose file is on it. */
  predicate Keep(e: External, whitelist: seq<string>) {
    var nm := NameAttribute(e.decl);
    nm.Some? && (nm.value.None? || nm.value.value !in IGNORE_DECLARATIONS) &&
    (|whitelist| == 0 || e.file in whitelist)
  }

  function FilterF(ext: seq<External>, whitelist: seq<string>): seq<Node> {
    if ext == [] then []
    else FilterF(DropLast(ext), whitelist) + (if Keep(Last(ext), whitelist) then [Last(ext).decl] else [])
  }

  /** `translate` after preprocessing and parsing: filter, walk, render. */
  function TranslateF(hdrname: string, ext: seq<External>, whitelist: seq<string>): Result<string> {
    var st :- VisitF(Initial, FileAST(FilterF(ext, whitelist)));
    var ls :- AutoPxdLinesF(hdrname, st.declStack);
    Ok(StdintPrefix(st.stdintDeclarations) + Join(ls, "\n"))
  }
}
