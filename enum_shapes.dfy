/** Enum definitions (autopxd/__init__.py:238-262) in the places C puts
    them, stated as what is hoisted to the top-level list and what is left
    on the innermost one. */
module EnumShapes {
  import opened Results
  import opened PyStr
  import opened CAst
  import opened Pxd
  import opened VisitorSpec
  import opened HandlerLemmas
  import opened DeclarationShapes
  import opened BlockShapes

  /** The enumerator names and the constant table numbering leaves. */
  function Numbered(es: seq<Enumerator>, consts: map<string, nat>): (r: (seq<string>, map<string, nat>))
    requires AllDecimal(es)
    ensures |r.0| == |es| && forall i :: 0 <= i < |es| ==> r.0[i] == es[i].name
  {
    NumberEnumeratorsNames(es, 0, consts);
    NumberEnumerators(es, 0, consts).value
  }

  /** An enum with enumerators, wherever it appears: the enumerators are
      numbered into the constant table; it is hoisted under its own name, or
      as a `ctypedef` under one made from its ancestors when it is the
      anonymous target of a `typedef`; declared inline it leaves its name,
      which for an anonymous enum outside a `typedef` is `None`. */
  lemma {:induction false} VisitEnumDefinition(st: State, name: Option<string>, es: seq<Enumerator>)
    requires |st.declStack| >= 1 && |st.visitStack| >= 2
    requires |es| >= 1 && AllDecimal(es)
    ensures var typeDecl := Last(st.visitStack).TypeDecl?;
      var typeDef := typeDecl && st.visitStack[|st.visitStack| - 2].Typedef?;
      var enumName := if !Truthy(name) && typeDef then Some(PathNameF(st.visitStack + [CAst.Enum(name, es)], None)) else name;
      var anonymousTypedef := typeDef && name.None?;
      var r := Numbered(es, st.constants);
      VisitF(st, CAst.Enum(name, es)) ==
        Ok(Emit(st.(constants := r.1),
                [Node(Pxd.Enum(enumName, r.0, if anonymousTypedef then "ctypedef" else "cdef"))],
                if typeDecl && !anonymousTypedef then [OptionItem(enumName)] else []))
  {
    var n := CAst.Enum(name, es);
    var s1 := st.(visitStack := st.visitStack + [n]);
    var typeDecl := Last(st.visitStack).TypeDecl?;
    var typeDef := typeDecl && st.visitStack[|st.visitStack| - 2].Typedef?;
    var enumName := if !Truthy(name) && typeDef then Some(PathNameF(s1.visitStack, None)) else name;
    var anonymousTypedef := typeDef && name.None?;
    var r := Numbered(es, st.constants);
    NumberEnumeratorsNames(es, 0, st.constants);
    assert NumberEnumerators(es, 0, s1.constants) == Ok(r);
    var u := st.(constants := r.1);
    var u1 := u.(visitStack := s1.visitStack);
    assert At(s1.visitStack, 2) == Ok(Last(st.visitStack));
    assert DeclaratorContext(s1.visitStack) == Ok((typeDecl, typeDef));
    var h := Node(Pxd.Enum(enumName, r.0, if anonymousTypedef then "ctypedef" else "cdef"));
    var left := if typeDecl && !anonymousTypedef then [OptionItem(enumName)] else [];
    assert VisitEnumF(s1, n) == DefineEnumF(u1, enumName, r.0, anonymousTypedef, typeDecl);
    DefineEnumEmit(u1, enumName, r.0, anonymousTypedef, typeDecl);
    assert HandleF(s1, n) == VisitEnumF(s1, n);
    assert VisitEnumF(s1, n) == Ok(Emit(u1, [h], left));
    VisitStep(st, n, Emit(u1, [h], left));
    assert Emit(u1, [h], left).(visitStack := st.visitStack) == Emit(u, [h], left);
  }

  /** The end of `visit_Enum` for an enum with enumerators: one item is
      hoisted, and a reference is left when it is declared inline and not
      the anonymous target of a `typedef`. */
  lemma {:induction false} DefineEnumEmit(u: State, name: Option<string>, items: seq<string>,
                                          anonymousTypedef: bool, inline: bool)
    requires |u.declStack| >= 1 && |items| >= 1
    ensures DefineEnumF(u, name, items, anonymousTypedef, inline) ==
      Ok(Emit(u, [Node(Pxd.Enum(name, items, if anonymousTypedef then "ctypedef" else "cdef"))],
              if inline && !anonymousTypedef then [OptionItem(name)] else []))
  {
    var h := Node(Pxd.Enum(name, items, if anonymousTypedef then "ctypedef" else "cdef"));
    EmitNothing(u);
    HoistEmit(u, [], h);
    assert [] + [h] == [h];
    if inline && !anonymousTypedef {
      AppendEmit(u, [h], [], OptionItem(name));
      assert [] + [OptionItem(name)] == [OptionItem(name)];
    }
  }

  /** `enum e { ... };` and `enum { ... };`: the enum is hoisted under its
      tag, or untagged (rendered `cdef enum:`) when it has none, and the
      statement leaves nothing else. */
  lemma {:induction false} EnumStatement(st: State, name: Option<string>, es: seq<Enumerator>)
    requires |st.declStack| >= 1 && |st.visitStack| >= 1
    requires |es| >= 1 && AllDecimal(es)
    ensures var r := Numbered(es, st.constants);
      VisitF(st, Decl(None, CAst.Enum(name, es))) ==
        Ok(Emit(st.(constants := r.1), [Node(Pxd.Enum(name, r.0, "cdef"))], []))
  {
    var n := CAst.Enum(name, es);
    var d := Decl(None, n);
    var r := Numbered(es, st.constants);
    var inner := st.(visitStack := st.visitStack + [d], declStack := st.declStack + [[]]);
    VisitEnumDefinition(inner, name, es);
    var u := st.(constants := r.1);
    assert inner.(constants := r.1) == u.(visitStack := st.visitStack + [d], declStack := st.declStack + [[]]);
    PassThrough(st, d, u, [Node(Pxd.Enum(name, r.0, "cdef"))], []);
  }

  /** `typedef enum { ... } T;`: the enum is hoisted as a `ctypedef` under
      the name made from the enclosing declarations and `T`, and the typedef
      adds no alias of its own. */
  lemma {:induction false} TypedefOfAnonymousEnum(st: State, alias: string, es: seq<Enumerator>)
    requires |st.declStack| >= 1
    requires alias != "" && |es| >= 1 && AllDecimal(es)
    ensures var r := Numbered(es, st.constants);
      VisitF(st, Typedef(Some(alias), TypeDecl(Some(alias), CAst.Enum(None, es)))) ==
        Ok(Emit(st.(constants := r.1),
                [Node(Pxd.Enum(Some(Join(PathNames(st.visitStack) + [alias], "_")), r.0, "ctypedef"))], []))
  {
    var n := CAst.Enum(None, es);
    var td := TypeDecl(Some(alias), n);
    var t := Typedef(Some(alias), td);
    var r := Numbered(es, st.constants);
    var u := st.(constants := r.1);
    var name := Join(PathNames(st.visitStack) + [alias], "_");
    var hoisted := [Node(Pxd.Enum(Some(name), r.0, "ctypedef"))];
    var s1 := st.(visitStack := st.visitStack + [t], declStack := st.declStack + [[]]);
    var s2 := s1.(visitStack := s1.visitStack + [td], declStack := s1.declStack + [[]]);
    VisitEnumDefinition(s2, None, es);
    assert PathNames([t]) == [alias];
    PathUnderNamed(st.visitStack, t, alias, td, n, None);
    assert PathNameF(s2.visitStack + [n], None) == name;
    var u1 := u.(visitStack := st.visitStack + [t], declStack := st.declStack + [[]]);
    assert s2.(constants := r.1) == u1.(visitStack := s1.visitStack + [td], declStack := s1.declStack + [[]]);
    PassThrough(s1, td, u1, hoisted, []);
    var c := st.(visitStack := st.visitStack + [t]);
    assert s1 == c.(declStack := c.declStack + [[]]);
    var uc := u.(visitStack := c.visitStack);
    assert u1 == uc.(declStack := st.declStack + [[]]);
    CollectEmit(c, t, uc, hoisted, []);
    assert HandleF(c, t) == VisitTypedefF(c, t);
    assert VisitTypedefF(c, t) == Ok(Emit(uc, hoisted, []));
    VisitStep(st, t, Emit(uc, hoisted, []));
    assert Emit(uc, hoisted, []).(visitStack := st.visitStack) == Emit(u, hoisted, []);
  }

  /** `enum { ... } v;`: the untagged enum is hoisted, and `None` is left
      in the declaration's place. */
  lemma {:induction false} InlineAnonymousEnum(st: State, v: string, es: seq<Enumerator>)
    requires |st.declStack| >= 1
    requires |es| >= 1 && AllDecimal(es)
    ensures var r := Numbered(es, st.constants);
      VisitF(st, Decl(Some(v), TypeDecl(Some(v), CAst.Enum(None, es)))) ==
        Ok(Emit(st.(constants := r.1), [Node(Pxd.Enum(None, r.0, "cdef"))], [NoneValue]))
  {
    var n := CAst.Enum(None, es);
    var td := TypeDecl(Some(v), n);
    var d := Decl(Some(v), td);
    var r := Numbered(es, st.constants);
    var u := st.(constants := r.1);
    var hoisted := [Node(Pxd.Enum(None, r.0, "cdef"))];
    var s1 := st.(visitStack := st.visitStack + [d], declStack := st.declStack + [[]]);
    var s2 := s1.(visitStack := s1.visitStack + [td], declStack := s1.declStack + [[]]);
    VisitEnumDefinition(s2, None, es);
    assert OptionItem(None) == NoneValue;
    var u1 := u.(visitStack := st.visitStack + [d], declStack := st.declStack + [[]]);
    assert s2.(constants := r.1) == u1.(visitStack := s1.visitStack + [td], declStack := s1.declStack + [[]]);
    PassThrough(s1, td, u1, hoisted, [NoneValue]);
    assert Attached(NoneValue, Some(v)) == NoneValue;
    PassThrough(st, d, u, hoisted, [NoneValue]);
  }

  /** Once `None` is on the top-level list, rendering the module fails:
      `None` has no `lines()`. */
  lemma {:induction false} NoneValueFailsRendering(decls: seq<Item>)
    requires NoneValue in decls
    ensures DeclLines(decls).Err?
  {
    if decls[0] != NoneValue {
      assert NoneValue in decls[1..];
      NoneValueFailsRendering(decls[1..]);
    }
  }
}
