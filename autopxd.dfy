/** The visitor itself (autopxd/__init__.py:191-377): a class whose fields the
    `visit_*` methods update in place. Each method is proved to leave exactly
    the state, or raise exactly the error, that its counterpart in
    visitor_spec.dfy describes. */
module AutoPxdImpl {
  import opened Results
  import opened PyStr
  import opened CAst
  import opened Pxd
  import opened Declarations
  import opened VisitorSpec

  /** The outcome of a step together with the state it leaves. */
  function Lift(r: Result<()>, st: State): Result<State> {
    if r.Ok? then Ok(st) else Err(r.error)
  }

  function LiftCollected(r: Result<seq<Item>>, st: State): Result<(State, seq<Item>)> {
    if r.Ok? then Ok((st, r.value)) else Err(r.error)
  }

  /** Lines already produced, in front of the outcome of producing the rest. */
  function PrependLines(done: seq<string>, rest: Result<seq<string>>): Result<seq<string>> {
    if rest.Ok? then Ok(done + rest.value) else rest
  }

  /** Enumerator names already listed, in front of the outcome of numbering the rest. */
  function PrependItems(done: seq<string>, rest: Result<(seq<string>, map<string, nat>)>)
    : Result<(seq<string>, map<string, nat>)>
  {
    if rest.Ok? then Ok((done + rest.value.0, rest.value.1)) else rest
  }

  /** One enumerator of the loop of `visit_Enum`, in terms of the numbering of the rest. */
  lemma {:induction false} NumberStep(es: seq<Enumerator>, counter: nat, consts: map<string, nat>, done: seq<string>)
    requires es != []
    ensures PrependItems(done, NumberEnumerators(es, counter, consts)) ==
      match EnumeratorValue(es[0], counter)
      case Err(e) => Err(e)
      case Ok(v) => PrependItems(done + [es[0].name], NumberEnumerators(es[1..], v, consts[es[0].name := v]))
  {
    var ev := EnumeratorValue(es[0], counter);
    if ev.Ok? {
      var rest := NumberEnumerators(es[1..], ev.value, consts[es[0].name := ev.value]);
      if rest.Ok? {
        assert done + ([es[0].name] + rest.value.0) == (done + [es[0].name]) + rest.value.0;
      }
    }
  }

  /** One top-level node of the loop of `AutoPxd.lines`, in terms of the lines of the rest. */
  lemma {:induction false} DeclLinesStep(decls: seq<Item>, done: seq<string>, ls: Result<seq<string>>)
    requires decls != [] && ls == Pxd.Lines(decls[0])
    ensures ls.Err? ==> DeclLines(decls) == Err(ls.error)
    ensures ls.Ok? ==> PrependLines(done, DeclLines(decls)) ==
                       PrependLines(done + IndentAll(ls.value) + [""], DeclLines(decls[1..]))
  {
    var rest := DeclLines(decls[1..]);
    assert DeclLines(decls) ==
      (if ls.Err? then Err(ls.error)
       else if rest.Err? then Err(rest.error)
       else Ok(IndentAll(ls.value) + [""] + rest.value));
    if ls.Ok? && rest.Ok? {
      assert done + (IndentAll(ls.value) + [""] + rest.value) == (done + IndentAll(ls.value) + [""]) + rest.value;
    }
  }

  class AutoPxd {
    const hdrname: string
    var visitStack: seq<Node>
    var declStack: seq<seq<Item>>
    var dimensionStack: seq<string>
    var stdintDeclarations: seq<string>
    var constants: map<string, nat>

    function Snapshot(): State
      reads this
    {
      State(visitStack, declStack, dimensionStack, stdintDeclarations, constants)
    }

    constructor (hdrname: string)
      ensures this.hdrname == hdrname
      ensures Snapshot() == Initial
    {
      this.hdrname := hdrname;
      declStack := [[]];
      visitStack := [];
      stdintDeclarations := [];
      dimensionStack := [];
      constants := map[];
    }

    method Visit(node: Node) returns (r: Result<()>)
      modifies this
      decreases node, 4, 0
      ensures Lift(r, Snapshot()) == VisitF(old(Snapshot()), node)
    {
      visitStack := visitStack + [node];
      var _ :- Handle(node);
      if |visitStack| == 0 {
        return Err(IndexError);
      }
      var n := Last(visitStack);
      visitStack := DropLast(visitStack);
      if n != node {
        return Err(StackAssertion);
      }
      return Ok(());
    }

    method Handle(node: Node) returns (r: Result<()>)
      modifies this
      decreases node, 3, 0
      ensures Lift(r, Snapshot()) == HandleF(old(Snapshot()), node)
    {
      match node
      case FileAST(_) => r := GenericVisit(node);
      case ParamList(_) => r := GenericVisit(node);
      case Typename(_, _) => r := GenericVisit(node);
      case IdentifierType(names) => r := VisitIdentifierType(names);
      case Struct(_, _) => r := VisitBlock(node);
      case Union(_, _) => r := VisitBlock(node);
      case Enum(_, _) => r := VisitEnum(node);
      case TypeDecl(_, _) => r := VisitTypeDecl(node);
      case Decl(_, _) => r := VisitDecl(node);
      case FuncDecl(_, _) => r := VisitFuncDecl(node);
      case PtrDecl(_) => r := VisitPtrDecl(node);
      case ArrayDecl(_, _) => r := VisitArrayDecl(node);
      case Typedef(_, _) => r := VisitTypedef(node);
    }

    /** `generic_visit`: visit every child in order. */
    method GenericVisit(node: Node) returns (r: Result<()>)
      modifies this
      decreases node, 0, 0
      ensures Lift(r, Snapshot()) == VisitChildrenF(old(Snapshot()), node, 0)
    {
      var children := Children(node);
      var i := 0;
      while i < |children|
        invariant 0 <= i <= |children|
        invariant VisitChildrenF(old(Snapshot()), node, 0) == VisitChildrenF(Snapshot(), node, i)
      {
        var _ :- Visit(children[i]);
        i := i + 1;
      }
      return Ok(());
    }

    method Collect(node: Node) returns (r: Result<seq<Item>>)
      modifies this
      decreases node, 1, 0
      ensures LiftCollected(r, Snapshot()) == CollectF(old(Snapshot()), node)
    {
      declStack := declStack + [[]];
      var height := |declStack|;
      var _ :- GenericVisit(node);
      if |declStack| == 0 {
        return Err(IndexError);
      }
      var decls := Last(declStack);
      if |declStack| != height {
        return Err(StackAssertion);
      }
      declStack := DropLast(declStack);
      return Ok(decls);
    }

    method Append(it: Item) returns (r: Result<()>)
      modifies this
      ensures Lift(r, Snapshot()) == AppendF(old(Snapshot()), it)
    {
      if |declStack| == 0 {
        return Err(IndexError);
      }
      declStack := DropLast(declStack) + [Last(declStack) + [it]];
      return Ok(());
    }

    /** `self.decl_stack[0].append(x)` */
    method AppendTopLevel(it: Item) returns (r: Result<()>)
      modifies this
      ensures Lift(r, Snapshot()) == HoistF(old(Snapshot()), it)
    {
      if |declStack| == 0 {
        return Err(IndexError);
      }
      declStack := [declStack[0] + [it]] + declStack[1..];
      return Ok(());
    }

    method PathName(tag: Option<string>) returns (r: string)
      ensures r == PathNameF(visitStack, tag)
    {
      var ancestors := if |visitStack| >= 2 then visitStack[..|visitStack| - 2] else [];
      var names: seq<string> := [];
      var i := 0;
      while i < |ancestors|
        invariant 0 <= i <= |ancestors|
        invariant names == PathNames(ancestors[..i])
      {
        var seg := PathSegment(ancestors[i]);
        assert ancestors[..i + 1][..i] == ancestors[..i];
        if seg.Some? {
          names := names + [seg.value];
        }
        i := i + 1;
      }
      assert ancestors[..i] == ancestors;
      if tag.None? {
        r := Join(names, "_");
      } else {
        r := "_" + Join(names, "_") + "_" + tag.value;
      }
    }

    method ChildOf(kind: Kind, index: Option<Depth>) returns (r: Result<bool>)
      ensures r == ChildOfF(visitStack, kind, index)
    {
      if index.None? {
        var i := |visitStack|;
        while i > 0
          invariant 0 <= i <= |visitStack|
          invariant forall j :: i <= j < |visitStack| ==> KindOf(visitStack[j]) != kind
        {
          i := i - 1;
          if KindOf(visitStack[i]) == kind {
            return Ok(true);
          }
        }
        return Ok(false);
      }
      var k := index.value;
      if k > |visitStack| {
        return Err(IndexError);
      }
      return Ok(KindOf(visitStack[|visitStack| - k]) == kind);
    }

    method VisitIdentifierType(names: seq<string>) returns (r: Result<()>)
      modifies this
      ensures Lift(r, Snapshot()) == VisitIdentifierTypeF(old(Snapshot()), names)
    {
      var i := 0;
      while i < |names|
        invariant 0 <= i <= |names|
        invariant Snapshot() == old(Snapshot()).(stdintDeclarations := stdintDeclarations)
        invariant RecordStdint(stdintDeclarations, names[i..]) == RecordStdint(old(stdintDeclarations), names)
      {
        var name := names[i];
        if name in STDINT_DECLARATIONS && name !in stdintDeclarations {
          stdintDeclarations := stdintDeclarations + [name];
        }
        assert names[i..][1..] == names[i + 1..];
        i := i + 1;
      }
      r := Append(Str(Join(names, " ")));
    }

    /** The two `child_of` tests `visit_Block` and `visit_Enum` start with. */
    method DeclaratorPlacement() returns (r: Result<(bool, bool)>)
      ensures r == DeclaratorContext(visitStack)
    {
      var typeDecl :- ChildOf(KTypeDecl, Some(2));
      var typeDef := false;
      if typeDecl {
        typeDef :- ChildOf(KTypedef, Some(3));
      }
      r := Ok((typeDecl, typeDef));
    }

    /** The naming step of `visit_Block`. */
    method NameBlock(node: Node, typeDef: bool) returns (name: string)
      requires node.Struct? || node.Union?
      ensures name == BlockName(visitStack, node, typeDef)
    {
      if Truthy(node.name) {
        name := node.name.value;
      } else if typeDef {
        name := PathName(None);
      } else {
        name := PathName(Some(BlockKind(node)[..1]));
      }
    }

    method VisitBlock(node: Node) returns (r: Result<()>)
      requires node.Struct? || node.Union?
      modifies this
      decreases node, 2, 0
      ensures Lift(r, Snapshot()) == VisitBlockF(old(Snapshot()), node)
    {
      var kind := BlockKind(node);
      var ctx :- DeclaratorPlacement();
      var typeDecl := ctx.0;
      var typeDef := ctx.1;
      var name := NameBlock(node, typeDef);
      if |node.decls| == 0 {
        if typeDecl {
          r := Append(Str(name));
        } else {
          r := Ok(());
        }
        return;
      }
      var fields :- Collect(node);
      r := DefineBlock(Block(name, fields, kind, "cdef"), typeDef && node.name.None?, typeDecl);
    }

    method DefineBlock(block: PxdNode, anonymousTypedef: bool, inline: bool) returns (r: Result<()>)
      requires block.Block?
      modifies this
      ensures Lift(r, Snapshot()) == DefineBlockF(old(Snapshot()), block, anonymousTypedef, inline)
    {
      if anonymousTypedef {
        r := AppendTopLevel(Node(Block(block.blockName, block.fields, block.kind, "ctypedef")));
      } else {
        var _ :- AppendTopLevel(Node(block));
        if inline {
          r := Append(Str(block.blockName));
        } else {
          r := Ok(());
        }
      }
    }

    /** The enumerator loop of `visit_Enum`: a running counter, each
        enumerator's value recorded in `constants`, the names returned in order. */
    method NumberValues(values: seq<Enumerator>) returns (r: Result<seq<string>>)
      modifies this
      ensures NumberEnumerators(values, 0, old(constants)) ==
              (if r.Ok? then Ok((r.value, constants)) else Err(r.error))
      ensures r.Ok? ==> Snapshot() == old(Snapshot()).(constants := constants)
    {
      var items: seq<string> := [];
      var value: nat := 0;
      var i := 0;
      assert values[0..] == values;
      var whole := NumberEnumerators(values, 0, constants);
      assert whole.Ok? ==> [] + whole.value.0 == whole.value.0;
      while i < |values|
        invariant 0 <= i <= |values|
        invariant Snapshot() == old(Snapshot()).(constants := constants)
        invariant NumberEnumerators(values, 0, old(constants))
               == PrependItems(items, NumberEnumerators(values[i..], value, constants))
      {
        var item := values[i];
        assert values[i..][1..] == values[i + 1..];
        NumberStep(values[i..], value, constants, items);
        items := items + [item.name];
        if item.value.Some? && item.value.value.Constant? {
          value :- ParseInt(item.value.value.value);
        } else {
          value := value + 1;
        }
        constants := constants[item.name := value];
        i := i + 1;
      }
      assert values[i..] == [];
      assert items + [] == items;
      return Ok(items);
    }

    method VisitEnum(node: Node) returns (r: Result<()>)
      requires node.Enum?
      modifies this
      ensures Lift(r, Snapshot()) == VisitEnumF(old(Snapshot()), node)
    {
      var items :- NumberValues(node.values);
      var ctx :- DeclaratorPlacement();
      var typeDecl := ctx.0;
      var typeDef := ctx.1;
      var name := node.name;
      if !Truthy(name) && typeDef {
        var p := PathName(None);
        name := Some(p);
      }
      r := DefineEnum(name, items, node.name.None? && typeDef, typeDecl);
    }

    method DefineEnum(name: Option<string>, items: seq<string>, anonymousTypedef: bool, inline: bool)
      returns (r: Result<()>)
      modifies this
      ensures Lift(r, Snapshot()) == DefineEnumF(old(Snapshot()), name, items, anonymousTypedef, inline)
    {
      if anonymousTypedef && |items| > 0 {
        r := AppendTopLevel(Node(Pxd.Enum(name, items, "ctypedef")));
      } else {
        if |items| > 0 {
          var _ :- AppendTopLevel(Node(Pxd.Enum(name, items, "cdef")));
        }
        if inline {
          r := Append(OptionItem(name));
        } else {
          r := Ok(());
        }
      }
    }

    /** The common tail of `visit_TypeDecl` and `visit_Decl`. */
    method AttachDeclaredName(decls: seq<Item>, name: Option<string>) returns (r: Result<()>)
      modifies this
      ensures Lift(r, Snapshot()) == AttachName(old(Snapshot()), decls, name)
    {
      if |decls| == 0 {
        return Ok(());
      }
      if |decls| != 1 {
        return Err(AssertionError);
      }
      if decls[0].Str? {
        r := Append(Node(Pxd.IdentifierType(OrEmpty(name), decls[0].s)));
      } else {
        r := Append(decls[0]);
      }
    }

    method VisitTypeDecl(node: Node) returns (r: Result<()>)
      requires node.TypeDecl?
      modifies this
      decreases node, 2, 0
      ensures Lift(r, Snapshot()) == VisitTypeDeclF(old(Snapshot()), node)
    {
      var decls :- Collect(node);
      r := AttachDeclaredName(decls, node.declname);
    }

    method VisitDecl(node: Node) returns (r: Result<()>)
      requires node.Decl?
      modifies this
      decreases node, 2, 0
      ensures Lift(r, Snapshot()) == VisitDeclF(old(Snapshot()), node)
    {
      var decls :- Collect(node);
      r := AttachDeclaredName(decls, node.name);
    }

    /** The test of `visit_FuncDecl` for a function-pointer declaration. */
    method PointerDeclared() returns (r: Result<bool>)
      ensures r == FunctionPointerDeclared(visitStack)
    {
      var underPtr :- ChildOf(KPtrDecl, Some(2));
      var underTypedef := false;
      if underPtr {
        underTypedef :- ChildOf(KTypedef, Some(3));
      }
      return Ok(underPtr && !underTypedef);
    }

    method VisitFuncDecl(node: Node) returns (r: Result<()>)
      requires node.FuncDecl?
      modifies this
      decreases node, 2, 0
      ensures Lift(r, Snapshot()) == VisitFuncDeclF(old(Snapshot()), node)
    {
      var decls :- Collect(node);
      r := DeclareFunction(decls);
    }

    method DeclareFunction(decls: seq<Item>) returns (r: Result<()>)
      modifies this
      ensures Lift(r, Snapshot()) == DeclareFunctionF(old(Snapshot()), decls)
    {
      if |decls| == 0 {
        return Err(IndexError);
      }
      var returnType :- TypeNameAttr(Last(decls));
      var fname :- NameAttr(Last(decls));
      var args :- ElideVoid(DropLast(decls));
      var pointer :- PointerDeclared();
      if pointer {
        var name := PathName(Some("ft"));
        var _ :- AppendTopLevel(Node(Type(Node(Ptr(Node(Function(returnType, Some(name), args)))))));
        r := Append(Str(name));
      } else {
        r := Append(Node(Function(returnType, fname, args)));
      }
    }

    method VisitPtrDecl(node: Node) returns (r: Result<()>)
      requires node.PtrDecl?
      modifies this
      decreases node, 2, 0
      ensures Lift(r, Snapshot()) == VisitPtrDeclF(old(Snapshot()), node)
    {
      var decls :- Collect(node);
      if |decls| != 1 {
        return Err(AssertionError);
      }
      if decls[0].Str? {
        r := Append(decls[0]);
      } else {
        r := Append(Node(Ptr(decls[0])));
      }
    }

    method VisitArrayDecl(node: Node) returns (r: Result<()>)
      requires node.ArrayDecl?
      modifies this
      decreases node, 2, 0
      ensures Lift(r, Snapshot()) == VisitArrayDeclF(old(Snapshot()), node)
    {
      var dim := DimText(node.dim, constants);
      dimensionStack := dimensionStack + [dim];
      var decls :- Collect(node);
      if |decls| != 1 {
        return Err(AssertionError);
      }
      var _ :- Append(Node(Array(decls[0], dimensionStack)));
      dimensionStack := [];
      return Ok(());
    }

    method VisitTypedef(node: Node) returns (r: Result<()>)
      requires node.Typedef?
      modifies this
      decreases node, 2, 0
      ensures Lift(r, Snapshot()) == VisitTypedefF(old(Snapshot()), node)
    {
      var decls :- Collect(node);
      if |decls| != 1 {
        return Ok(());
      }
      var text :- StrOf(decls[0]);
      var names := Split(text);
      if |names| < 2 {
        return Err(IndexError);
      }
      if names[0] != names[1] {
        r := AppendTopLevel(Node(Type(decls[0])));
      } else {
        r := Ok(());
      }
    }

    /** `AutoPxd.lines` */
    method Lines() returns (r: Result<seq<string>>)
      ensures r == AutoPxdLinesF(hdrname, declStack)
    {
      if |declStack| == 0 {
        return Err(IndexError);
      }
      var decls := declStack[0];
      var rv := ["cdef extern from \"" + hdrname + "\":", ""];
      var i := 0;
      assert decls[0..] == decls;
      while i < |decls|
        invariant 0 <= i <= |decls|
        invariant AutoPxdLinesF(hdrname, declStack) == PrependLines(rv, DeclLines(decls[i..]))
      {
        assert decls[i..][1..] == decls[i + 1..];
        DeclLinesStep(decls[i..], rv, Pxd.Lines(decls[i]));
        var ls :- Pxd.Lines(decls[i]);
        rv := rv + IndentAll(ls) + [""];
        i := i + 1;
      }
      assert rv + [] == rv;
      return Ok(rv);
    }
  }
}
