/** The output nodes and their rendering into text lines
    (autopxd/__init__.py:72-188). Rendering is pure; where the Python code
    would raise (an attribute a value lacks, `None + str`, an empty line list),
    the result is an `Err`. */
module Pxd {
  import opened Results
  import opened PyStr

  /** One level of indentation. */
  const Indent := "    "

  /** A value held in the translator's result lists: a bare type string,
      Python's `None` (the reference an anonymous enum leaves behind), or an
      output node. */
  datatype Item = Str(s: string) | NoneValue | Node(node: PxdNode)

  datatype PxdNode =
    | IdentifierType(declName: string, typeName: string)
    | Function(returnType: string, funcName: Option<string>, args: seq<Item>)
    | Ptr(target: Item)
    | Array(target: Item, dimensions: seq<string>)
    | Type(target: Item)
    | Block(blockName: string, fields: seq<Item>, kind: string, statement: string)
    | Enum(enumName: Option<string>, items: seq<string>, statement: string)

  /** `'{0}'.format(x)` for a name that may be `None`. */
  function Show(s: Option<string>): string {
    if s.Some? then s.value else "None"
  }

  /** The `.name` attribute: `Ptr` forwards to its target, `Array` appends its
      bracketed dimensions when it has any, `Type` and plain strings have none. */
  function NameAttr(it: Item): Result<Option<string>> {
    match it
    case Str(_) => Err(AttributeError)
    case NoneValue => Err(AttributeError)
    case Node(p) =>
      match p
      case IdentifierType(n, _) => Ok(Some(n))
      case Function(_, n, _) => Ok(n)
      case Ptr(t) => NameAttr(t)
      case Array(t, dims) =>
        if |dims| > 0 then
          var n :- NameAttr(t);
          if n.None? then Err(TypeError) else Ok(Some(n.value + "[" + Join(dims, "][") + "]"))
        else NameAttr(t)
      case Type(_) => Err(AttributeError)
      case Block(n, _, _, _) => Ok(Some(n))
      case Enum(n, _, _) => Ok(n)
  }

  /** The `.type_name` attribute: `Ptr` appends `*` to its target's, `Array`
      forwards; only the identifier-type family has one. */
  function TypeNameAttr(it: Item): Result<string> {
    match it
    case Node(IdentifierType(_, t)) => Ok(t)
    case Node(Ptr(t)) =>
      var tn :- TypeNameAttr(t);
      Ok(tn + "*")
    case Node(Array(t, _)) => TypeNameAttr(t)
    case _ => Err(AttributeError)
  }

  /** `isinstance(x, IdentifierType)`: `Ptr` and `Array` are subclasses. */
  predicate IsIdentifierTypeInstance(it: Item) {
    it.Node? && (it.node.IdentifierType? || it.node.Ptr? || it.node.Array?)
  }

  /** `IdentifierType.lines` once the name and type name are known. */
  function IdentLines(name: Option<string>, typeName: string): seq<string> {
    if Truthy(name) then [typeName + " " + name.value] else [typeName]
  }

  function IndentAll(ls: seq<string>): (r: seq<string>)
    ensures |r| == |ls|
    ensures forall i :: 0 <= i < |ls| ==> r[i] == Indent + ls[i]
  {
    if ls == [] then [] else [Indent + ls[0]] + IndentAll(ls[1..])
  }

  /** `lines()` of a value; only output nodes have it. */
  function Lines(it: Item): Result<seq<string>>
    decreases it, 1
  {
    match it
    case Str(_) => Err(AttributeError)
    case NoneValue => Err(AttributeError)
    case Node(p) =>
      match p
      case IdentifierType(n, t) => Ok(IdentLines(Some(n), t))
      case Function(rt, n, args) =>
        var a :- ArgStr(args);
        Ok([rt + " " + Show(n) + "(" + a + ")"])
      case Ptr(Node(Function(rt, n, args))) =>
        var a :- ArgStr(args);
        Ok([rt + " (*" + Show(n) + ")(" + a + ")"])
      case Ptr(_) =>
        var n :- NameAttr(it);
        var tn :- TypeNameAttr(it);
        Ok(IdentLines(n, tn))
      case Array(_, _) =>
        var n :- NameAttr(it);
        var tn :- TypeNameAttr(it);
        Ok(IdentLines(n, tn))
      case Type(t) =>
        var ls :- Lines(t);
        if |ls| == 0 then Err(IndexError) else Ok(["ctypedef " + ls[0]] + ls[1..])
      case Block(n, fs, k, stmt) =>
        var body :- FieldLines(fs);
        Ok([stmt + " " + k + " " + n + ":"] + body)
      case Enum(n, items, stmt) =>
        var header := if Truthy(n) then stmt + " enum " + n.value + ":" else "cdef enum:";
        Ok([header] + IndentAll(items))
  }

  /** The argument texts `Function.argstr` joins: each argument must render
      to exactly one line. */
  function ArgLines(args: seq<Item>): Result<seq<string>>
    decreases args, 0
  {
    if args == [] then Ok([])
    else
      var ls :- Lines(args[0]);
      if |ls| != 1 then Err(AssertionError)
      else
        var rest :- ArgLines(args[1..]);
        Ok([ls[0]] + rest)
  }

  /** `Function.argstr` */
  function ArgStr(args: seq<Item>): Result<string>
    decreases args, 1
  {
    var ls :- ArgLines(args);
    Ok(Join(ls, ", "))
  }

  /** The body of a `Block`: every line of every field, indented once. */
  function FieldLines(fields: seq<Item>): Result<seq<string>>
    decreases fields, 0
  {
    if fields == [] then Ok([])
    else
      var ls :- Lines(fields[0]);
      var rest :- FieldLines(fields[1..]);
      Ok(IndentAll(ls) + rest)
  }

  /** `str(x)` of a value: a string is itself, `None` is `'None'`, an output
      node is its lines joined by newlines. */
  function StrOf(it: Item): Result<string> {
    match it
    case Str(s) => Ok(s)
    case NoneValue => Ok("None")
    case Node(_) =>
      var ls :- Lines(it);
      Ok(Join(ls, "\n"))
  }
}
