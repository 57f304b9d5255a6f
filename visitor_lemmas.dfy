/** What a walk of the `AutoPxd` visitor guarantees, whatever the tree
    (autopxd/__init__.py:200-205, 340-345): the ancestry it is given is handed
    back unchanged, every result list only grows at its end, no list is left
    pushed, and so neither of the source's stack assertions can fail. */
module VisitorLemmas {
  import opened Results
  import opened PyStr
  import opened CAst
  import opened Pxd
  import opened Declarations
  import opened VisitorSpec
  import opened PxdLemmas

  /** The fixed-width names recorded so far: each a known `stdint.h` name,
      none twice. */
  predicate StdintWellFormed(s: seq<string>) {
    (forall i :: 0 <= i < |s| ==> s[i] in STDINT_DECLARATIONS) &&
    (forall i, j :: 0 <= i < j < |s| ==> s[i] != s[j])
  }

  /** `b` is a state a visit may leave behind when started in `a`: the same
      ancestry, as many result lists, each one extended at its end only, the
      fixed-width names extended and still well formed, no constant forgotten,
      and the pending array dimensions as they were or consumed. */
  predicate Grows(a: State, b: State) {
    && b.visitStack == a.visitStack
    && |b.declStack| == |a.declStack|
    && (forall i :: 0 <= i < |a.declStack| ==> a.declStack[i] <= b.declStack[i])
    && a.stdintDeclarations <= b.stdintDeclarations
    && (StdintWellFormed(a.stdintDeclarations) ==> StdintWellFormed(b.stdintDeclarations))
    && a.constants.Keys <= b.constants.Keys
    && (b.dimensionStack == a.dimensionStack || b.dimensionStack == [])
  }

  /** The outcome of a visit started in `a`: never a failed stack assertion,
      and on success a state that `Grows` from `a`. */
  predicate Disciplined(a: State, r: Result<State>) {
    r != Err(StackAssertion) && (r.Ok? ==> Grows(a, r.value))
  }

  lemma GrowsTransitive(a: State, b: State, c: State)
    requires Grows(a, b) && Grows(b, c)
    ensures Grows(a, c)
  {
    forall i | 0 <= i < |a.declStack|
      ensures a.declStack[i] <= c.declStack[i]
    {
      assert a.declStack[i] <= b.declStack[i] <= c.declStack[i];
    }
  }

  /** The loop of `visit_IdentifierType` keeps what it had and adds at the end. */
  lemma {:induction false} RecordStdintExtends(acc: seq<string>, names: seq<string>)
    ensures acc <= RecordStdint(acc, names)
    decreases names
  {
    if names != [] {
      var acc1 := if names[0] in STDINT_DECLARATIONS && names[0] !in acc then acc + [names[0]] else acc;
      RecordStdintExtends(acc1, names[1..]);
    }
  }

  /** It records exactly the fixed-width names among the words. */
  lemma {:induction false} RecordStdintMembers(acc: seq<string>, names: seq<string>, x: string)
    ensures x in RecordStdint(acc, names) <==> x in acc || (x in names && x in STDINT_DECLARATIONS)
    decreases names
  {
    if names != [] {
      var acc1 := if names[0] in STDINT_DECLARATIONS && names[0] !in acc then acc + [names[0]] else acc;
      RecordStdintMembers(acc1, names[1..], x);
      assert x in names <==> x == names[0] || x in names[1..];
    }
  }

  /** And it never records a name twice. */
  lemma {:induction false} RecordStdintWellFormed(acc: seq<string>, names: seq<string>)
    requires StdintWellFormed(acc)
    ensures StdintWellFormed(RecordStdint(acc, names))
    decreases names
  {
    if names != [] {
      var acc1 := if names[0] in STDINT_DECLARATIONS && names[0] !in acc then acc + [names[0]] else acc;
      if acc1 != acc {
        forall i, j | 0 <= i < j < |acc1|
          ensures acc1[i] != acc1[j]
        {
          if j == |acc| {
            assert acc1[i] in acc;
          }
        }
      }
      RecordStdintWellFormed(acc1, names[1..]);
    }
  }

  lemma AppendGrows(st: State, it: Item)
    ensures AppendF(st, it).Ok? ==> Grows(st, AppendF(st, it).value)
  {
  }

  lemma HoistGrows(st: State, it: Item)
    ensures HoistF(st, it).Ok? ==> Grows(st, HoistF(st, it).value)
  {
  }

  /** Numbering enumerators forgets no constant, and fails only where
      `int()` does. */
  lemma {:induction false} NumberEnumeratorsKeys(es: seq<Enumerator>, counter: nat, consts: map<string, nat>)
    ensures NumberEnumerators(es, counter, consts).Ok? ==>
      consts.Keys <= NumberEnumerators(es, counter, consts).value.1.Keys
    ensures NumberEnumerators(es, counter, consts).Err? ==>
      NumberEnumerators(es, counter, consts).error == ValueError
    decreases es
  {
    if es != [] {
      var v := EnumeratorValue(es[0], counter);
      if v.Ok? {
        NumberEnumeratorsKeys(es[1..], v.value, consts[es[0].name := v.value]);
      }
    }
  }

  lemma {:induction false} VisitDisciplined(st: State, n: Node)
    ensures Disciplined(st, VisitF(st, n))
    decreases n, 4, 0
  {
    HandleDisciplined(st.(visitStack := st.visitStack + [n]), n);
  }

  lemma {:induction false} HandleDisciplined(st: State, n: Node)
    ensures Disciplined(st, HandleF(st, n))
    decreases n, 3, 0
  {
    match n
    case FileAST(_) => ChildrenDisciplined(st, n, 0);
    case ParamList(_) => ChildrenDisciplined(st, n, 0);
    case Typename(_, _) => ChildrenDisciplined(st, n, 0);
    case IdentifierType(names) =>
      RecordStdintExtends(st.stdintDeclarations, names);
      if StdintWellFormed(st.stdintDeclarations) {
        RecordStdintWellFormed(st.stdintDeclarations, names);
      }
      AppendGrows(st.(stdintDeclarations := RecordStdint(st.stdintDeclarations, names)), Str(Join(names, " ")));
    case Struct(_, _) => BlockDisciplined(st, n);
    case Union(_, _) => BlockDisciplined(st, n);
    case Enum(_, _) => EnumDisciplined(st, n);
    case TypeDecl(_, _) => TypeDeclDisciplined(st, n);
    case Decl(_, _) => DeclDisciplined(st, n);
    case FuncDecl(_, _) => FuncDeclDisciplined(st, n);
    case PtrDecl(_) => PtrDeclDisciplined(st, n);
    case ArrayDecl(_, _) => ArrayDeclDisciplined(st, n);
    case Typedef(_, _) => TypedefDisciplined(st, n);
  }

  lemma {:induction false} ChildrenDisciplined(st: State, n: Node, i: nat)
    requires i <= |Children(n)|
    ensures Disciplined(st, VisitChildrenF(st, n, i))
    decreases n, 0, |Children(n)| - i
  {
    if i < |Children(n)| {
      VisitDisciplined(st, Children(n)[i]);
      var r1 := VisitF(st, Children(n)[i]);
      if r1.Ok? {
        ChildrenDisciplined(r1.value, n, i + 1);
        var r2 := VisitChildrenF(r1.value, n, i + 1);
        if r2.Ok? {
          GrowsTransitive(st, r1.value, r2.value);
        }
      }
    }
  }

  /** `collect` pops exactly the list it pushed, so its assertion holds, and
      what it hands back is a state that `Grows` from the one it was given. */
  lemma {:induction false} CollectDisciplined(st: State, n: Node)
    ensures CollectF(st, n) != Err(StackAssertion)
    ensures CollectF(st, n).Ok? ==> Grows(st, CollectF(st, n).value.0)
    decreases n, 1, 0
  {
    var pushed := st.(declStack := st.declStack + [[]]);
    ChildrenDisciplined(pushed, n, 0);
    var r := VisitChildrenF(pushed, n, 0);
    if r.Ok? {
      var popped := r.value.(declStack := DropLast(r.value.declStack));
      forall i | 0 <= i < |st.declStack|
        ensures st.declStack[i] <= popped.declStack[i]
      {
        assert pushed.declStack[i] == st.declStack[i];
      }
    }
  }

  /** A hoist, an append, or a hoist then an append, of any items, made
      after a visit that grew from `st`, still grows from `st`. */
  lemma AfterCollect(st: State, a: State)
    requires Grows(st, a)
    ensures forall it :: HoistF(a, it).Ok? ==> Grows(st, HoistF(a, it).value)
    ensures forall ref :: AppendF(a, ref).Ok? ==> Grows(st, AppendF(a, ref).value)
    ensures forall it, ref :: HoistF(a, it).Ok? && AppendF(HoistF(a, it).value, ref).Ok? ==>
      Grows(st, AppendF(HoistF(a, it).value, ref).value)
  {
    forall it | HoistF(a, it).Ok?
      ensures Grows(st, HoistF(a, it).value)
    {
      HoistGrows(a, it);
      GrowsTransitive(st, a, HoistF(a, it).value);
    }
    forall ref | AppendF(a, ref).Ok?
      ensures Grows(st, AppendF(a, ref).value)
    {
      AppendGrows(a, ref);
      GrowsTransitive(st, a, AppendF(a, ref).value);
    }
    forall it, ref | HoistF(a, it).Ok? && AppendF(HoistF(a, it).value, ref).Ok?
      ensures Grows(st, AppendF(HoistF(a, it).value, ref).value)
    {
      var h := HoistF(a, it).value;
      HoistGrows(a, it);
      AppendGrows(h, ref);
      GrowsTransitive(st, a, h);
      GrowsTransitive(st, h, AppendF(h, ref).value);
    }
  }

  lemma {:induction false} BlockDisciplined(st: State, n: Node)
    requires n.Struct? || n.Union?
    ensures Disciplined(st, VisitBlockF(st, n))
    decreases n, 2, 0
  {
    if |n.decls| == 0 {
      BlockReferenceDisciplined(st, n);
    } else {
      CollectDisciplined(st, n);
      var c := CollectF(st, n);
      if c.Ok? {
        BlockDefinitionDisciplined(st, n, c.value.0);
      }
    }
  }

  /** A struct or union without fields at most leaves a reference. */
  lemma BlockReferenceDisciplined(st: State, n: Node)
    requires n.Struct? || n.Union?
    requires |n.decls| == 0
    ensures Disciplined(st, VisitBlockF(st, n))
  {
    AfterCollect(st, st);
  }

  /** One with fields is hoisted, then maybe referenced, after its fields
      were collected into a state that grew. */
  lemma {:induction false} BlockDefinitionDisciplined(st: State, n: Node, a: State)
    requires n.Struct? || n.Union?
    requires |n.decls| > 0
    requires CollectF(st, n).Ok? && CollectF(st, n).value.0 == a
    requires Grows(st, a)
    ensures Disciplined(st, VisitBlockF(st, n))
  {
    var ctx := DeclaratorContext(st.visitStack);
    if ctx.Ok? {
      var typeDecl := ctx.value.0;
      var typeDef := ctx.value.1;
      var block := Block(BlockName(st.visitStack, n, typeDef), CollectF(st, n).value.1, BlockKind(n), "cdef");
      assert VisitBlockF(st, n) == DefineBlockF(a, block, typeDef && n.name.None?, typeDecl);
      DefineBlockDisciplined(st, a, block, typeDef && n.name.None?, typeDecl);
    }
  }

  /** An item hoisted after a visit that grew from `st`. */
  lemma HoistAfter(st: State, a: State, it: Item)
    requires Grows(st, a)
    ensures Disciplined(st, HoistF(a, it))
  {
    HoistGrows(a, it);
    if HoistF(a, it).Ok? {
      GrowsTransitive(st, a, HoistF(a, it).value);
    }
  }

  /** An item appended after a visit that grew from `st`. */
  lemma AppendAfter(st: State, a: State, it: Item)
    requires Grows(st, a)
    ensures Disciplined(st, AppendF(a, it))
  {
    AppendGrows(a, it);
    if AppendF(a, it).Ok? {
      GrowsTransitive(st, a, AppendF(a, it).value);
    }
  }

  /** An item hoisted, then one appended. */
  lemma HoistAppendAfter(st: State, a: State, it: Item, ref: Item)
    requires Grows(st, a)
    ensures HoistF(a, it).Ok? ==> Disciplined(st, AppendF(HoistF(a, it).value, ref))
  {
    HoistAfter(st, a, it);
    if HoistF(a, it).Ok? {
      AppendAfter(st, HoistF(a, it).value, ref);
    }
  }

  lemma {:induction false} DefineBlockDisciplined(st: State, a: State, block: PxdNode, anonymousTypedef: bool, inline: bool)
    requires block.Block? && Grows(st, a)
    ensures Disciplined(st, DefineBlockF(a, block, anonymousTypedef, inline))
  {
    if anonymousTypedef {
      HoistAfter(st, a, Node(Block(block.blockName, block.fields, block.kind, "ctypedef")));
    } else {
      HoistAfter(st, a, Node(block));
      HoistAppendAfter(st, a, Node(block), Str(block.blockName));
    }
  }

  lemma {:induction false} EnumDisciplined(st: State, n: Node)
    requires n.Enum?
    ensures Disciplined(st, VisitEnumF(st, n))
  {
    NumberEnumeratorsKeys(n.values, 0, st.constants);
    var numbered := NumberEnumerators(n.values, 0, st.constants);
    var ctx := DeclaratorContext(st.visitStack);
    if numbered.Ok? && ctx.Ok? {
      var a := st.(constants := numbered.value.1);
      var typeDef := ctx.value.1;
      var name := if !Truthy(n.name) && typeDef then Some(PathNameF(st.visitStack, None)) else n.name;
      assert VisitEnumF(st, n) == DefineEnumF(a, name, numbered.value.0, n.name.None? && typeDef, ctx.value.0);
      DefineEnumDisciplined(st, a, name, numbered.value.0, n.name.None? && typeDef, ctx.value.0);
    }
  }

  lemma {:induction false} DefineEnumDisciplined(st: State, a: State, name: Option<string>, items: seq<string>,
                                                 anonymousTypedef: bool, inline: bool)
    requires Grows(st, a)
    ensures Disciplined(st, DefineEnumF(a, name, items, anonymousTypedef, inline))
  {
    var kind := if anonymousTypedef then "ctypedef" else "cdef";
    HoistAfter(st, a, Node(Pxd.Enum(name, items, kind)));
    AppendAfter(st, a, OptionItem(name));
    HoistAppendAfter(st, a, Node(Pxd.Enum(name, items, kind)), OptionItem(name));
  }

  lemma AttachNameGrows(st: State, decls: seq<Item>, name: Option<string>)
    ensures Disciplined(st, AttachName(st, decls, name))
  {
    if |decls| == 1 {
      if decls[0].Str? {
        AppendGrows(st, Node(Pxd.IdentifierType(OrEmpty(name), decls[0].s)));
      } else {
        AppendGrows(st, decls[0]);
      }
    }
  }

  lemma {:induction false} TypeDeclDisciplined(st: State, n: Node)
    requires n.TypeDecl?
    ensures Disciplined(st, VisitTypeDeclF(st, n))
    decreases n, 2, 0
  {
    CollectDisciplined(st, n);
    var c := CollectF(st, n);
    if c.Ok? {
      AttachNameGrows(c.value.0, c.value.1, n.declname);
      var r := AttachName(c.value.0, c.value.1, n.declname);
      if r.Ok? {
        GrowsTransitive(st, c.value.0, r.value);
      }
    }
  }

  lemma {:induction false} DeclDisciplined(st: State, n: Node)
    requires n.Decl?
    ensures Disciplined(st, VisitDeclF(st, n))
    decreases n, 2, 0
  {
    CollectDisciplined(st, n);
    var c := CollectF(st, n);
    if c.Ok? {
      AttachNameGrows(c.value.0, c.value.1, n.name);
      var r := AttachName(c.value.0, c.value.1, n.name);
      if r.Ok? {
        GrowsTransitive(st, c.value.0, r.value);
      }
    }
  }

  lemma {:induction false} FuncDeclDisciplined(st: State, n: Node)
    requires n.FuncDecl?
    ensures Disciplined(st, VisitFuncDeclF(st, n))
    decreases n, 2, 0
  {
    CollectDisciplined(st, n);
    var c := CollectF(st, n);
    if c.Ok? {
      DeclareFunctionDisciplined(st, c.value.0, c.value.1);
    }
  }

  lemma {:induction false} DeclareFunctionDisciplined(st: State, a: State, decls: seq<Item>)
    requires Grows(st, a)
    ensures Disciplined(st, DeclareFunctionF(a, decls))
  {
    if |decls| > 0 {
      TypeNameAttrFailure(Last(decls));
      NameAttrFailure(Last(decls));
      if |DropLast(decls)| == 1 {
        TypeNameAttrFailure(DropLast(decls)[0]);
      }
      var returnType := TypeNameAttr(Last(decls));
      var fname := NameAttr(Last(decls));
      var args := ElideVoid(DropLast(decls));
      if returnType.Ok? && fname.Ok? && args.Ok? {
        var name := PathNameF(a.visitStack, Some("ft"));
        var h := Node(Type(Node(Ptr(Node(Function(returnType.value, Some(name), args.value))))));
        HoistAppendAfter(st, a, h, Str(name));
        AppendAfter(st, a, Node(Function(returnType.value, fname.value, args.value)));
      }
    }
  }

  lemma {:induction false} PtrDeclDisciplined(st: State, n: Node)
    requires n.PtrDecl?
    ensures Disciplined(st, VisitPtrDeclF(st, n))
    decreases n, 2, 0
  {
    CollectDisciplined(st, n);
    var c := CollectF(st, n);
    if c.Ok? && |c.value.1| == 1 {
      var it := if c.value.1[0].Str? then c.value.1[0] else Node(Ptr(c.value.1[0]));
      AppendGrows(c.value.0, it);
      if AppendF(c.value.0, it).Ok? {
        GrowsTransitive(st, c.value.0, AppendF(c.value.0, it).value);
      }
    }
  }

  lemma {:induction false} ArrayDeclDisciplined(st: State, n: Node)
    requires n.ArrayDecl?
    ensures Disciplined(st, VisitArrayDeclF(st, n))
    decreases n, 2, 0
  {
    var st1 := st.(dimensionStack := st.dimensionStack + [DimText(n.dim, st.constants)]);
    CollectDisciplined(st1, n);
    var c := CollectF(st1, n);
    if c.Ok? && |c.value.1| == 1 {
      var it := Node(Array(c.value.1[0], c.value.0.dimensionStack));
      AppendGrows(c.value.0, it);
      if AppendF(c.value.0, it).Ok? {
        var b := AppendF(c.value.0, it).value;
        GrowsTransitive(st1, c.value.0, b);
        forall i | 0 <= i < |st.declStack|
          ensures st.declStack[i] <= b.declStack[i]
        {
          assert st1.declStack[i] <= b.declStack[i];
        }
      }
    }
  }

  lemma {:induction false} TypedefDisciplined(st: State, n: Node)
    requires n.Typedef?
    ensures Disciplined(st, VisitTypedefF(st, n))
    decreases n, 2, 0
  {
    CollectDisciplined(st, n);
    var c := CollectF(st, n);
    if c.Ok? && |c.value.1| == 1 {
      StrOfFailure(c.value.1[0]);
      AfterCollect(st, c.value.0);
    }
  }

  /** Every line `lines()` puts after the header is blank or indented, so
      every top-level node sits inside the `cdef extern` block; rendering
      fails only as a node does. */
  lemma {:induction false} DeclLinesShape(decls: seq<Item>)
    ensures DeclLines(decls).Ok? ==> forall i :: 0 <= i < |DeclLines(decls).value| ==>
      DeclLines(decls).value[i] == "" || Indent <= DeclLines(decls).value[i]
    ensures DeclLines(decls).Ok? ==> |DeclLines(decls).value| >= 2 * |decls|
    ensures DeclLines(decls).Err? ==> RenderFailure(DeclLines(decls).error)
  {
    if decls != [] {
      LinesShape(decls[0]);
      DeclLinesShape(decls[1..]);
      var ls := Lines(decls[0]);
      var rest := DeclLines(decls[1..]);
      if ls.Ok? && rest.Ok? {
        var r := IndentAll(ls.value) + [""] + rest.value;
        forall i | 0 <= i < |r|
          ensures r[i] == "" || Indent <= r[i]
        {
          if i < |ls.value| {
            assert r[i] == Indent + ls.value[i];
          } else if i > |ls.value| {
            assert r[i] == rest.value[i - |ls.value| - 1];
          }
        }
      }
    }
  }
}
