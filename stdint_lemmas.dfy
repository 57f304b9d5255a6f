/** What a whole walk records for the `from libc.stdint cimport` line
    (autopxd/__init__.py:206-211, 419-423): the fixed-width names among the
    words of every identifier type the tree holds, each once, in the order a
    walk first meets them. */
module StdintLemmas {
  import opened Results
  import opened PyStr
  import opened CAst
  import opened Pxd
  import opened Declarations
  import opened VisitorSpec
  import opened VisitorLemmas

  /** The words of the tree's identifier types, in the order a walk meets
      them: a node's own words, then those of its children in order. Enum
      values hold no types, so an enum contributes nothing. */
  function TypeWords(n: Node): seq<string>
    decreases n, 1
  {
    (if n.IdentifierType? then n.names else []) + ChildrenTypeWords(n, 0)
  }

  function ChildrenTypeWords(n: Node, i: nat): seq<string>
    requires i <= |Children(n)|
    decreases n, 0, |Children(n)| - i
  {
    if i == |Children(n)| then [] else TypeWords(Children(n)[i]) + ChildrenTypeWords(n, i + 1)
  }

  /** Some word is a fixed-width name. */
  predicate UsesFixedWidth(words: seq<string>) {
    exists w :: w in words && w in STDINT_DECLARATIONS
  }

  /** A step that started in `st` and ended (if at all) with the names of
      `words` recorded, and nothing else. */
  predicate Records(st: State, r: Result<State>, words: seq<string>) {
    r.Ok? ==> r.value.stdintDeclarations == RecordStdint(st.stdintDeclarations, words)
  }

  /** Recording two runs of words one after the other is recording their
      concatenation. */
  lemma {:induction false} RecordStdintConcat(acc: seq<string>, a: seq<string>, b: seq<string>)
    ensures RecordStdint(acc, a + b) == RecordStdint(RecordStdint(acc, a), b)
    decreases a
  {
    if a == [] {
      assert a + b == b;
    } else {
      var acc1 := if a[0] in STDINT_DECLARATIONS && a[0] !in acc then acc + [a[0]] else acc;
      assert (a + b)[0] == a[0];
      assert (a + b)[1..] == a[1..] + b;
      RecordStdintConcat(acc1, a[1..], b);
    }
  }

  /** First-use order: the first time a fixed-width name appears among the
      words, it is recorded right after the names the earlier words gave. */
  lemma {:induction false} RecordStdintFirstUse(names: seq<string>, k: nat)
    requires k < |names| && names[k] in STDINT_DECLARATIONS && names[k] !in names[..k]
    ensures RecordStdint([], names[..k]) + [names[k]] <= RecordStdint([], names)
  {
    var before := RecordStdint([], names[..k]);
    RecordStdintMembers([], names[..k], names[k]);
    assert names[k] !in before;
    assert names == names[..k] + names[k..];
    RecordStdintConcat([], names[..k], names[k..]);
    assert names[k..][0] == names[k];
    RecordStdintExtends(before + [names[k]], names[k..][1..]);
  }

  /** Some name is recorded exactly when some word is a fixed-width name. */
  lemma {:induction false} StdintImportNeeded(words: seq<string>)
    ensures |RecordStdint([], words)| > 0 <==> UsesFixedWidth(words)
  {
    var imports := RecordStdint([], words);
    if |imports| > 0 {
      RecordStdintMembers([], words, imports[0]);
    } else if exists w :: w in words && w in STDINT_DECLARATIONS {
      var w :| w in words && w in STDINT_DECLARATIONS;
      RecordStdintMembers([], words, w);
    }
  }

  lemma {:induction false} VisitRecords(st: State, n: Node)
    ensures Records(st, VisitF(st, n), TypeWords(n))
    decreases n, 4, 0
  {
    HandleRecords(st.(visitStack := st.visitStack + [n]), n);
  }

  lemma {:induction false} HandleRecords(st: State, n: Node)
    ensures Records(st, HandleF(st, n), TypeWords(n))
    decreases n, 3, 0
  {
    if !n.IdentifierType? {
      assert TypeWords(n) == ChildrenTypeWords(n, 0);
    }
    match n
    case IdentifierType(_) =>
      assert ChildrenTypeWords(n, 0) == [];
      assert TypeWords(n) == n.names;
    case FileAST(_) => ChildrenRecords(st, n, 0);
    case ParamList(_) => ChildrenRecords(st, n, 0);
    case Typename(_, _) => ChildrenRecords(st, n, 0);
    case Struct(_, _) => BlockRecords(st, n);
    case Union(_, _) => BlockRecords(st, n);
    case Enum(_, _) => EnumRecords(st, n);
    case _ => DeclaratorRecords(st, n);
  }

  /** The handlers that collect their children and then append or hoist:
      what the children record is all that is recorded. */
  lemma {:induction false} DeclaratorRecords(st: State, n: Node)
    requires n.TypeDecl? || n.Decl? || n.FuncDecl? || n.PtrDecl? || n.ArrayDecl? || n.Typedef?
    ensures Records(st, HandleF(st, n), ChildrenTypeWords(n, 0))
    decreases n, 2, 0
  {
    if n.ArrayDecl? {
      CollectRecords(st.(dimensionStack := st.dimensionStack + [DimText(n.dim, st.constants)]), n);
    } else {
      CollectRecords(st, n);
      if n.FuncDecl? {
        FuncDeclRecords(st, n);
      }
    }
  }

  lemma {:induction false} ChildrenRecords(st: State, n: Node, i: nat)
    requires i <= |Children(n)|
    ensures Records(st, VisitChildrenF(st, n, i), ChildrenTypeWords(n, i))
    decreases n, 0, |Children(n)| - i
  {
    if i < |Children(n)| {
      var c := Children(n)[i];
      VisitRecords(st, c);
      var r1 := VisitF(st, c);
      if r1.Ok? {
        ChildrenRecords(r1.value, n, i + 1);
        RecordStdintConcat(st.stdintDeclarations, TypeWords(c), ChildrenTypeWords(n, i + 1));
      }
    }
  }

  /** `collect` records what its children do. */
  lemma {:induction false} CollectRecords(st: State, n: Node)
    ensures CollectF(st, n).Ok? ==>
      CollectF(st, n).value.0.stdintDeclarations == RecordStdint(st.stdintDeclarations, ChildrenTypeWords(n, 0))
    decreases n, 1, 0
  {
    ChildrenRecords(st.(declStack := st.declStack + [[]]), n, 0);
  }

  lemma {:induction false} BlockRecords(st: State, n: Node)
    requires n.Struct? || n.Union?
    ensures Records(st, VisitBlockF(st, n), ChildrenTypeWords(n, 0))
    decreases n, 2, 0
  {
    if |n.decls| == 0 {
      assert ChildrenTypeWords(n, 0) == [];
    } else {
      CollectRecords(st, n);
      var c := CollectF(st, n);
      var ctx := DeclaratorContext(st.visitStack);
      if c.Ok? && ctx.Ok? {
        var typeDef := ctx.value.1;
        var name := BlockName(st.visitStack, n, typeDef);
        DefineBlockKeeps(c.value.0, Block(name, c.value.1, BlockKind(n), "cdef"), typeDef && n.name.None?, ctx.value.0);
      }
    }
  }

  lemma {:induction false} EnumRecords(st: State, n: Node)
    requires n.Enum?
    ensures Records(st, VisitEnumF(st, n), ChildrenTypeWords(n, 0))
  {
    assert ChildrenTypeWords(n, 0) == [];
    var numbered := NumberEnumerators(n.values, 0, st.constants);
    var ctx := DeclaratorContext(st.visitStack);
    if numbered.Ok? && ctx.Ok? {
      var vs := st.visitStack;
      var typeDef := ctx.value.1;
      var name := if !Truthy(n.name) && typeDef then Some(PathNameF(vs, None)) else n.name;
      DefineEnumKeeps(st.(constants := numbered.value.1), name, numbered.value.0, n.name.None? && typeDef, ctx.value.0);
    }
  }

  lemma {:induction false} FuncDeclRecords(st: State, n: Node)
    requires n.FuncDecl?
    ensures CollectF(st, n).Ok? ==> Records(CollectF(st, n).value.0, VisitFuncDeclF(st, n), [])
  {
    var c := CollectF(st, n);
    if c.Ok? {
      DeclareFunctionKeeps(c.value.0, c.value.1);
    }
  }

  /** The tails of the handlers append and hoist, and leave the recorded
      names alone. */
  lemma {:induction false} DefineBlockKeeps(st: State, block: PxdNode, anonymousTypedef: bool, inline: bool)
    requires block.Block?
    ensures Records(st, DefineBlockF(st, block, anonymousTypedef, inline), [])
  {
  }

  lemma {:induction false} DefineEnumKeeps(st: State, name: Option<string>, items: seq<string>,
                                           anonymousTypedef: bool, inline: bool)
    ensures Records(st, DefineEnumF(st, name, items, anonymousTypedef, inline), [])
  {
  }

  lemma {:induction false} DeclareFunctionKeeps(st: State, decls: seq<Item>)
    ensures Records(st, DeclareFunctionF(st, decls), [])
  {
  }
}
