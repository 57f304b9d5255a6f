/** The part of the parser's abstract syntax tree the translator walks.
    The parser itself is not part of this model: its output is the input here. */
module CAst {
  import opened Results

  /** Expressions appear only as array sizes and enumerator values and are
      leaves for the translator: a literal keeps its text, an identifier its name. */
  datatype Expr =
    | Constant(value: string)
    | ID(name: string)
    | OtherExpr

  datatype Enumerator = Enumerator(name: string, value: Option<Expr>)

  datatype Node =
    | FileAST(ext: seq<Node>)
    | Decl(name: Option<string>, ty: Node)
    | Typedef(name: Option<string>, ty: Node)
    | Typename(name: Option<string>, ty: Node)
    | TypeDecl(declname: Option<string>, ty: Node)
    | PtrDecl(ty: Node)
    | ArrayDecl(ty: Node, dim: Option<Expr>)
    | FuncDecl(args: Option<Node>, ty: Node)   // `args` is a ParamList when present
    | ParamList(params: seq<Node>)
    | IdentifierType(names: seq<string>)
    // A missing member list and an empty one are treated alike by the
    // translator (`if not node.decls`), so both are the empty sequence here;
    // likewise for a missing enumerator list.
    | Struct(name: Option<string>, decls: seq<Node>)
    | Union(name: Option<string>, decls: seq<Node>)
    | Enum(name: Option<string>, values: seq<Enumerator>)

  /** The node kinds `isinstance` distinguishes. */
  datatype Kind =
    | KFileAST | KDecl | KTypedef | KTypename | KTypeDecl | KPtrDecl | KArrayDecl
    | KFuncDecl | KParamList | KIdentifierType | KStruct | KUnion | KEnum

  function KindOf(n: Node): Kind {
    match n
    case FileAST(_) => KFileAST
    case Decl(_, _) => KDecl
    case Typedef(_, _) => KTypedef
    case Typename(_, _) => KTypename
    case TypeDecl(_, _) => KTypeDecl
    case PtrDecl(_) => KPtrDecl
    case ArrayDecl(_, _) => KArrayDecl
    case FuncDecl(_, _) => KFuncDecl
    case ParamList(_) => KParamList
    case IdentifierType(_) => KIdentifierType
    case Struct(_, _) => KStruct
    case Union(_, _) => KUnion
    case Enum(_, _) => KEnum
  }

  /** The children the generic visitor walks, in the parser's order: a function
      declarator's parameters come before its return type, a struct's members
      in declaration order. An enum's enumerators are not walked. */
  function Children(n: Node): (cs: seq<Node>)
    ensures forall c :: c in cs ==> c < n
  {
    match n
    case FileAST(ext) => ext
    case Decl(_, t) => [t]
    case Typedef(_, t) => [t]
    case Typename(_, t) => [t]
    case TypeDecl(_, t) => [t]
    case PtrDecl(t) => [t]
    case ArrayDecl(t, _) => [t]
    case FuncDecl(a, t) => (if a.Some? then [a.value] else []) + [t]
    case ParamList(ps) => ps
    case IdentifierType(_) => []
    case Struct(_, ds) => ds
    case Union(_, ds) => ds
    case Enum(_, _) => []
  }

  /** The name `path_name` reads from a node: a non-empty `declname`, else a
      non-empty `name`; nodes with neither attribute contribute nothing. */
  function PathSegment(n: Node): (r: Option<string>)
    ensures r.Some? ==> r.value != ""
  {
    match n
    case TypeDecl(d, _) => if Truthy(d) then d else None
    case Decl(nm, _) => if Truthy(nm) then nm else None
    case Typedef(nm, _) => if Truthy(nm) then nm else None
    case Typename(nm, _) => if Truthy(nm) then nm else None
    case Struct(nm, _) => if Truthy(nm) then nm else None
    case Union(nm, _) => if Truthy(nm) then nm else None
    case Enum(nm, _) => if Truthy(nm) then nm else None
    case _ => None
  }

  /** A top-level declaration as the parser hands it over, with the file its
      coordinate points at. */
  datatype External = External(decl: Node, file: string)

  /** Whether the declaration has a `name` attribute at all, and its value. */
  function NameAttribute(n: Node): Option<Option<string>> {
    match n
    case Decl(nm, _) => Some(nm)
    case Typedef(nm, _) => Some(nm)
    case Typename(nm, _) => Some(nm)
    case Struct(nm, _) => Some(nm)
    case Union(nm, _) => Some(nm)
    case Enum(nm, _) => Some(nm)
    case _ => None
  }
}
