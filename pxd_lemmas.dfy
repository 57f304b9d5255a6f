/** What rendering guarantees (autopxd/__init__.py:72-188): every node that
    renders gives at least one line, so the `ls[0]` of `Type.lines` never
    fails; rendering fails only with the exceptions Python would raise for a
    missing attribute, a `None` name, or an argument of more than one line;
    and a block or enum body is indented under its header. */
module PxdLemmas {
  import opened Results
  import opened PyStr
  import opened Pxd

  /** An exception rendering can raise. */
  predicate RenderFailure(e: Error) {
    e == AttributeError || e == TypeError || e == AssertionError
  }

  lemma {:induction false} NameAttrFailure(it: Item)
    ensures NameAttr(it).Err? ==> NameAttr(it).error == AttributeError || NameAttr(it).error == TypeError
  {
    match it
    case Node(Ptr(t)) => NameAttrFailure(t);
    case Node(Array(t, _)) => NameAttrFailure(t);
    case _ =>
  }

  lemma {:induction false} TypeNameAttrFailure(it: Item)
    ensures TypeNameAttr(it).Err? ==> TypeNameAttr(it).error == AttributeError
  {
    match it
    case Node(Ptr(t)) => TypeNameAttrFailure(t);
    case Node(Array(t, _)) => TypeNameAttrFailure(t);
    case _ =>
  }

  /** A rendered node is never empty, and a failure is one of the
      exceptions above; in particular `Type.lines` never indexes an empty list. */
  lemma {:induction false} LinesShape(it: Item)
    ensures Lines(it).Ok? ==> |Lines(it).value| >= 1
    ensures Lines(it).Err? ==> RenderFailure(Lines(it).error)
    decreases it, 1
  {
    match it
    case Str(_) =>
    case NoneValue =>
    case Node(p) =>
      match p
      case IdentifierType(_, _) =>
      case Function(_, _, args) => ArgLinesShape(args);
      case Ptr(Node(Function(_, _, args))) => ArgLinesShape(args);
      case Ptr(_) => NameAttrFailure(it); TypeNameAttrFailure(it);
      case Array(_, _) => NameAttrFailure(it); TypeNameAttrFailure(it);
      case Type(t) => LinesShape(t);
      case Block(_, fs, _, _) => FieldLinesShape(fs);
      case Enum(_, _, _) =>
  }

  lemma {:induction false} ArgLinesShape(args: seq<Item>)
    ensures ArgLines(args).Ok? ==> |ArgLines(args).value| == |args|
    ensures ArgLines(args).Err? ==> RenderFailure(ArgLines(args).error)
    decreases args, 0
  {
    if args != [] {
      LinesShape(args[0]);
      ArgLinesShape(args[1..]);
    }
  }

  lemma {:induction false} FieldLinesShape(fields: seq<Item>)
    ensures FieldLines(fields).Ok? ==> |FieldLines(fields).value| >= |fields|
    ensures FieldLines(fields).Ok? ==>
      forall i :: 0 <= i < |FieldLines(fields).value| ==> Indent <= FieldLines(fields).value[i]
    ensures FieldLines(fields).Err? ==> RenderFailure(FieldLines(fields).error)
    decreases fields, 0
  {
    if fields != [] {
      LinesShape(fields[0]);
      FieldLinesShape(fields[1..]);
      var ls := Lines(fields[0]);
      var rest := FieldLines(fields[1..]);
      if ls.Ok? && rest.Ok? {
        var r := IndentAll(ls.value) + rest.value;
        forall i | 0 <= i < |r|
          ensures Indent <= r[i]
        {
          if i < |ls.value| {
            assert r[i] == Indent + ls.value[i];
          } else {
            assert r[i] == rest.value[i - |ls.value|];
          }
        }
      }
    }
  }

  lemma StrOfFailure(it: Item)
    ensures StrOf(it).Err? ==> RenderFailure(StrOf(it).error)
  {
    LinesShape(it);
  }
}
