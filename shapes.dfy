/** What the visitor produces for the declaration shapes its handlers are
    written for (autopxd/__init__.py:207-338), walked through from the
    parser's tree to the items left on the result lists. */
module DeclarationShapes {
  import opened Results
  import opened PyStr
  import opened CAst
  import opened Pxd
  import opened Declarations
  import opened VisitorSpec
  import opened HandlerLemmas

  /** The name `path_name` makes for a node under a declarator `td` under a
      declaration or typedef `d` named `v`: the enclosing names, then `v`. */
  lemma {:induction false} PathUnderNamed(vs: seq<Node>, d: Node, v: string, td: Node, n: Node, tag: Option<string>)
    requires PathNames([d]) == [v]
    ensures var names := PathNames(vs) + [v];
      PathNameF(vs + [d] + [td] + [n], tag) ==
        (if tag.None? then Join(names, "_") else "_" + Join(names, "_") + "_" + tag.value)
  {
    PathNameSkipsNodeAndParent(vs + [d], td, n, tag);
    assert vs + [d] + [td] + [n] == (vs + [d]) + [td, n];
    PathNamesAppend(vs, [d]);
  }

  // ---------------------------------------------------------------------
  // Unfolding one step of the walk

  lemma {:induction false} VisitStep(st: State, n: Node, after: State)
    requires HandleF(st.(visitStack := st.visitStack + [n]), n) == Ok(after)
    requires after.visitStack == st.visitStack + [n]
    ensures VisitF(st, n) == Ok(after.(visitStack := st.visitStack))
  {
  }

  lemma {:induction false} CollectSingle(st: State, n: Node, after: State)
    requires |Children(n)| == 1
    requires VisitF(st.(declStack := st.declStack + [[]]), Children(n)[0]) == Ok(after)
    requires |after.declStack| == |st.declStack| + 1
    ensures CollectF(st, n) == Ok((after.(declStack := DropLast(after.declStack)), Last(after.declStack)))
  {
    assert VisitChildrenF(after, n, 1) == Ok(after);
  }

  // ---------------------------------------------------------------------
  // Plain types and declarators

  /** A type specifier leaves its words joined by spaces and records the
      fixed-width names among them. */
  lemma {:induction false} VisitTypeWords(st: State, names: seq<string>)
    requires |st.declStack| >= 1
    ensures VisitF(st, CAst.IdentifierType(names)) ==
      AppendF(st.(stdintDeclarations := RecordStdint(st.stdintDeclarations, names)), Str(Join(names, " ")))
  {
    var n := CAst.IdentifierType(names);
    var pushed := st.(visitStack := st.visitStack + [n]);
    assert HandleF(pushed, n) == VisitIdentifierTypeF(pushed, names);
    var after := AppendF(pushed.(stdintDeclarations := RecordStdint(st.stdintDeclarations, names)), Str(Join(names, " "))).value;
    VisitStep(st, n, after);
  }

  /** `collect` over a node whose one child appends one item, leaving the
      rest of the state as `upd`, hands back `upd` and that item. */
  lemma {:induction false} CollectOne(st: State, n: Node, upd: State, item: Item)
    requires |Children(n)| == 1
    requires upd.declStack == st.declStack
    requires VisitF(st.(declStack := st.declStack + [[]]), Children(n)[0]) ==
      AppendF(upd.(declStack := st.declStack + [[]]), item)
    ensures CollectF(st, n) == Ok((upd, [item]))
  {
    var s3 := upd.(declStack := st.declStack + [[]]);
    assert DropLast(s3.declStack) == st.declStack;
    assert Last(s3.declStack) + [item] == [item];
    var a := upd.(declStack := st.declStack + [[item]]);
    assert AppendF(s3, item) == Ok(a);
    CollectSingle(st, n, a);
    assert DropLast(a.declStack) == st.declStack;
  }

  /** `int x`: a declarator over a plain type becomes a named
      `IdentifierType` node. */
  lemma {:induction false} VisitNamedType(st: State, declname: Option<string>, names: seq<string>)
    requires |st.declStack| >= 1
    ensures VisitF(st, TypeDecl(declname, CAst.IdentifierType(names))) ==
      AppendF(st.(stdintDeclarations := RecordStdint(st.stdintDeclarations, names)),
              Node(Pxd.IdentifierType(OrEmpty(declname), Join(names, " "))))
  {
    var n := TypeDecl(declname, CAst.IdentifierType(names));
    var s1 := st.(visitStack := st.visitStack + [n]);
    var c0 := s1.(stdintDeclarations := RecordStdint(st.stdintDeclarations, names));
    var words := Str(Join(names, " "));
    VisitTypeWords(s1.(declStack := s1.declStack + [[]]), names);
    assert c0.(declStack := s1.declStack + [[]]) ==
      s1.(declStack := s1.declStack + [[]]).(stdintDeclarations := RecordStdint(st.stdintDeclarations, names));
    CollectOne(s1, n, c0, words);
    var item := Node(Pxd.IdentifierType(OrEmpty(declname), Join(names, " ")));
    assert HandleF(s1, n) == AppendF(c0, item);
    VisitStep(st, n, AppendF(c0, item).value);
  }

  /** `int a;` as a declaration or a struct member: the `IdentifierType`
      node its declarator makes is passed up unchanged. */
  lemma {:induction false} VisitPlainDecl(st: State, name: Option<string>, declname: Option<string>, names: seq<string>)
    requires |st.declStack| >= 1
    ensures VisitF(st, Decl(name, TypeDecl(declname, CAst.IdentifierType(names)))) ==
      AppendF(st.(stdintDeclarations := RecordStdint(st.stdintDeclarations, names)),
              Node(Pxd.IdentifierType(OrEmpty(declname), Join(names, " "))))
  {
    var n := Decl(name, TypeDecl(declname, CAst.IdentifierType(names)));
    var s1 := st.(visitStack := st.visitStack + [n]);
    var c0 := s1.(stdintDeclarations := RecordStdint(st.stdintDeclarations, names));
    var item := Node(Pxd.IdentifierType(OrEmpty(declname), Join(names, " ")));
    VisitNamedType(s1.(declStack := s1.declStack + [[]]), declname, names);
    assert c0.(declStack := s1.declStack + [[]]) ==
      s1.(declStack := s1.declStack + [[]]).(stdintDeclarations := RecordStdint(st.stdintDeclarations, names));
    CollectOne(s1, n, c0, item);
    assert HandleF(s1, n) == AppendF(c0, item);
    VisitStep(st, n, AppendF(c0, item).value);
  }

  // ---------------------------------------------------------------------
  // typedef struct x y; (autopxd/__init__.py:213-225, 264-272, 332-338)

  /** A struct without a body under a declarator is a reference: it leaves
      its tag. */
  lemma {:induction false} VisitStructReference(st: State, tag: string)
    requires |st.declStack| >= 1
    requires |st.visitStack| >= 2 && Last(st.visitStack).TypeDecl?
    requires tag != ""
    ensures VisitF(st, Struct(Some(tag), [])) == AppendF(st, Str(tag))
  {
    var n := Struct(Some(tag), []);
    var s1 := st.(visitStack := st.visitStack + [n]);
    assert At(s1.visitStack, 2) == Ok(Last(st.visitStack));
    assert DeclaratorContext(s1.visitStack).Ok? && DeclaratorContext(s1.visitStack).value.0;
    assert BlockName(s1.visitStack, n, DeclaratorContext(s1.visitStack).value.1) == tag;
    assert HandleF(s1, n) == VisitBlockF(s1, n);
    assert VisitBlockF(s1, n) == AppendF(s1, Str(tag));
    VisitStep(st, n, AppendF(s1, Str(tag)).value);
  }

  /** `typedef struct x y;`: the alias `ctypedef x y` is hoisted to the top
      level, except when both names are the same, where Cython needs none. */
  lemma {:induction false} TypedefOfStructTag(st: State, tag: string, alias: string)
    requires |st.declStack| >= 1
    requires tag != "" && alias != "" && NoSpace(tag) && NoSpace(alias)
    ensures VisitF(st, Typedef(Some(alias), TypeDecl(Some(alias), Struct(Some(tag), [])))) ==
      if tag == alias then Ok(st)
      else HoistF(st, Node(Type(Node(Pxd.IdentifierType(alias, tag)))))
  {
    var ref := Struct(Some(tag), []);
    var td := TypeDecl(Some(alias), ref);
    var n := Typedef(Some(alias), td);
    var s1 := st.(visitStack := st.visitStack + [n]);
    var s2 := s1.(declStack := s1.declStack + [[]]);
    var t1 := s2.(visitStack := s2.visitStack + [td]);
    var t2 := t1.(declStack := t1.declStack + [[]]);
    // the struct reference, under the declarator
    VisitStructReference(t2, tag);
    CollectOne(t1, td, t1, Str(tag));
    var item := Node(Pxd.IdentifierType(alias, tag));
    assert HandleF(t1, td) == AppendF(t1, item);
    VisitStep(s2, td, AppendF(t1, item).value);
    // the declarator, under the typedef
    CollectOne(s1, n, s1, item);
    assert StrOf(item) == Ok(tag + " " + alias);
    SplitTwoWords(tag, alias);
    assert HandleF(s1, n) == VisitTypedefF(s1, n);
    if tag == alias {
      assert VisitTypedefF(s1, n) == Ok(s1);
      VisitStep(st, n, s1);
    } else {
      assert VisitTypedefF(s1, n) == HoistF(s1, Node(Type(item)));
      VisitStep(st, n, HoistF(s1, Node(Type(item))).value);
    }
  }
}
