/** Function declarators (autopxd/__init__.py:293-307): a lone `void`
    parameter means no arguments, a prototype is left where it is declared,
    and the function type behind a pointer is hoisted as a `ctypedef` under a
    name made from the enclosing declarations. */
module FunctionShapes {
  import opened Results
  import opened PyStr
  import opened CAst
  import opened Pxd
  import opened Declarations
  import opened VisitorSpec
  import opened HandlerLemmas
  import opened DeclarationShapes
  import opened BlockShapes

  /** The parameter the parser makes of `(void)`. */
  const VoidParam := Typename(None, TypeDecl(None, CAst.IdentifierType(["void"])))

  /** What the parameter `void` leaves: an unnamed `IdentifierType`. */
  const VoidItem := Node(Pxd.IdentifierType("", "void"))

  /** `void` is not a fixed-width name, so it records nothing. */
  lemma VoidRecordsNothing(acc: seq<string>)
    ensures RecordStdint(acc, ["void"]) == acc
  {
    assert "void" !in STDINT_DECLARATIONS;
    assert ["void"][1..] == [];
  }

  /** A node the generic walk handles, with one child. */
  lemma {:induction false} GenericSingle(st: State, n: Node, after: State)
    requires n.ParamList? || n.Typename?
    requires |Children(n)| == 1
    requires VisitF(st.(visitStack := st.visitStack + [n]), Children(n)[0]) == Ok(after)
    requires after.visitStack == st.visitStack + [n]
    ensures VisitF(st, n) == Ok(after.(visitStack := st.visitStack))
  {
    var s1 := st.(visitStack := st.visitStack + [n]);
    assert VisitChildrenF(after, n, 1) == Ok(after);
    assert HandleF(s1, n) == VisitChildrenF(s1, n, 0);
    VisitStep(st, n, after);
  }

  /** The parameter `void` leaves an unnamed `void`. */
  lemma {:induction false} VisitVoidParam(st: State)
    requires |st.declStack| >= 1
    ensures VisitF(st, VoidParam) == AppendF(st, VoidItem)
  {
    var s1 := st.(visitStack := st.visitStack + [VoidParam]);
    VisitNamedType(s1, None, ["void"]);
    VoidRecordsNothing(st.stdintDeclarations);
    assert s1.(stdintDeclarations := st.stdintDeclarations) == s1;
    assert OrEmpty(None) == "" && Join(["void"], " ") == "void";
    assert Children(VoidParam)[0] == TypeDecl(None, CAst.IdentifierType(["void"]));
    GenericSingle(st, VoidParam, AppendF(s1, VoidItem).value);
  }

  /** `(void)`: the parameter list leaves one unnamed `void`. */
  lemma {:induction false} VisitVoidParams(st: State)
    requires |st.declStack| >= 1
    ensures VisitF(st, ParamList([VoidParam])) == AppendF(st, VoidItem)
  {
    var pl := ParamList([VoidParam]);
    var s1 := st.(visitStack := st.visitStack + [pl]);
    VisitVoidParam(s1);
    GenericSingle(st, pl, AppendF(s1, VoidItem).value);
  }

  /** `(T a, U b)`: one named parameter per argument, in order. */
  lemma {:induction false} VisitNamedParams(st: State, ps: seq<Member>)
    requires |st.declStack| >= 1
    ensures VisitF(st, ParamList(MemberDecls(ps))) ==
      Ok(st.(declStack := DropLast(st.declStack) + [Last(st.declStack) + MemberItems(ps)],
             stdintDeclarations := RecordMembers(st.stdintDeclarations, ps)))
  {
    var pl := ParamList(MemberDecls(ps));
    var s1 := st.(visitStack := st.visitStack + [pl]);
    VisitMembers(s1, pl, ps, 0);
    assert ps[0..] == ps;
    assert HandleF(s1, pl) == VisitChildrenF(s1, pl, 0);
    VisitStep(st, pl, HandleF(s1, pl).value);
  }

  /** `collect` over a function declarator: its parameters' items, then
      the named return type. */
  lemma {:induction false} CollectFuncDecl(s1: State, params: Node, f: string, rt: seq<string>,
                                           args: seq<Item>, recorded: seq<string>)
    requires |s1.declStack| >= 1
    requires VisitF(s1.(declStack := s1.declStack + [[]]), params) ==
      Ok(s1.(declStack := s1.declStack + [args], stdintDeclarations := recorded))
    ensures CollectF(s1, FuncDecl(Some(params), TypeDecl(Some(f), CAst.IdentifierType(rt)))) ==
      Ok((s1.(stdintDeclarations := RecordStdint(recorded, rt)), args + [Node(Pxd.IdentifierType(f, Join(rt, " ")))]))
  {
    var rtDecl := TypeDecl(Some(f), CAst.IdentifierType(rt));
    var n := FuncDecl(Some(params), rtDecl);
    var p := s1.(declStack := s1.declStack + [[]]);
    var p1 := s1.(declStack := s1.declStack + [args], stdintDeclarations := recorded);
    var retItem := Node(Pxd.IdentifierType(f, Join(rt, " ")));
    assert Children(n) == [params, rtDecl];
    VisitNamedType(p1, Some(f), rt);
    var p2 := AppendF(p1.(stdintDeclarations := RecordStdint(recorded, rt)), retItem).value;
    assert VisitChildrenF(p, n, 0) == Ok(p2) by {
      assert VisitChildrenF(p2, n, 2) == Ok(p2);
    }
    assert DropLast(p2.declStack) == s1.declStack;
    assert Last(p2.declStack) == args + [retItem];
  }

  /** `visit_FuncDecl` once its parameters leave `args` and the return-type
      declarator `T f` is walked: behind a pointer that no `typedef` names,
      the function type is hoisted as a pointer `ctypedef` named after the
      enclosing declarations with `_ft`, and that name is left behind;
      anywhere else the function itself is left. Either way a lone `void`
      argument is dropped. */
  lemma {:induction false} VisitFuncDeclWith(st: State, params: Node, f: string, rt: seq<string>,
                                             args: seq<Item>, recorded: seq<string>)
    requires |st.declStack| >= 1 && |st.visitStack| >= 1
    requires Last(st.visitStack).PtrDecl? ==> |st.visitStack| >= 2
    requires ElideVoid(args).Ok?
    requires var n := FuncDecl(Some(params), TypeDecl(Some(f), CAst.IdentifierType(rt)));
      VisitF(st.(visitStack := st.visitStack + [n], declStack := st.declStack + [[]]), params) ==
        Ok(st.(visitStack := st.visitStack + [n], declStack := st.declStack + [args], stdintDeclarations := recorded))
    ensures var n := FuncDecl(Some(params), TypeDecl(Some(f), CAst.IdentifierType(rt)));
      var pointer := Last(st.visitStack).PtrDecl? && !st.visitStack[|st.visitStack| - 2].Typedef?;
      var name := PathNameF(st.visitStack + [n], Some("ft"));
      var u := st.(stdintDeclarations := RecordStdint(recorded, rt));
      VisitF(st, n) ==
        Ok(if pointer
           then Emit(u, [Node(Type(Node(Ptr(Node(Function(Join(rt, " "), Some(name), ElideVoid(args).value))))))], [Str(name)])
           else Emit(u, [], [Node(Function(Join(rt, " "), Some(f), ElideVoid(args).value))]))
  {
    var n := FuncDecl(Some(params), TypeDecl(Some(f), CAst.IdentifierType(rt)));
    var s1 := st.(visitStack := st.visitStack + [n]);
    var u := st.(stdintDeclarations := RecordStdint(recorded, rt));
    var u1 := u.(visitStack := s1.visitStack);
    assert s1.(declStack := s1.declStack + [[]]) ==
      st.(visitStack := st.visitStack + [n], declStack := st.declStack + [[]]);
    CollectFuncDecl(s1, params, f, rt, args, recorded);
    var pointer := Last(st.visitStack).PtrDecl? && !st.visitStack[|st.visitStack| - 2].Typedef?;
    PointerPlacement(st.visitStack, n);
    var name := PathNameF(s1.visitStack, Some("ft"));
    var after := FuncDeclResult(u1, f, rt, args, pointer, name);
    assert HandleF(s1, n) == VisitFuncDeclF(s1, n);
    FuncDeclTail(s1, n, u1, f, rt, args, pointer);
    VisitStep(st, n, after);
    FuncDeclResultAncestry(u, s1.visitStack, f, rt, args, pointer, name);
  }

  /** Whether a function type pushed under `vs` is a function-pointer
      declaration. */
  lemma PointerPlacement(vs: seq<Node>, n: Node)
    requires |vs| >= 1 && (Last(vs).PtrDecl? ==> |vs| >= 2)
    ensures FunctionPointerDeclared(vs + [n]) == Ok(Last(vs).PtrDecl? && !vs[|vs| - 2].Typedef?)
  {
    assert At(vs + [n], 2) == Ok(Last(vs));
    if Last(vs).PtrDecl? {
      assert At(vs + [n], 3) == Ok(vs[|vs| - 2]);
    }
  }

  /** The result of `visit_FuncDecl` does not depend on the ancestry beyond
      the name it was given. */
  lemma FuncDeclResultAncestry(u: State, vs: seq<Node>, f: string, rt: seq<string>, args: seq<Item>,
                               pointer: bool, name: string)
    requires |u.declStack| >= 1 && ElideVoid(args).Ok?
    ensures FuncDeclResult(u.(visitStack := vs), f, rt, args, pointer, name).(visitStack := u.visitStack) ==
      FuncDeclResult(u, f, rt, args, pointer, name)
  {
  }

  /** What `visit_FuncDecl` does with what it collected. */
  lemma {:induction false} FuncDeclTail(s1: State, n: Node, u1: State, f: string, rt: seq<string>,
                                        args: seq<Item>, pointer: bool)
    requires n.FuncDecl? && |u1.declStack| >= 1 && ElideVoid(args).Ok?
    requires u1.visitStack == s1.visitStack
    requires CollectF(s1, n) == Ok((u1, args + [Node(Pxd.IdentifierType(f, Join(rt, " ")))]))
    requires FunctionPointerDeclared(s1.visitStack) == Ok(pointer)
    ensures VisitFuncDeclF(s1, n) == Ok(FuncDeclResult(u1, f, rt, args, pointer, PathNameF(s1.visitStack, Some("ft"))))
  {
    var decls := args + [Node(Pxd.IdentifierType(f, Join(rt, " ")))];
    assert VisitFuncDeclF(s1, n) == DeclareFunctionF(u1, decls);
    DeclareFunctionEmit(u1, f, rt, args, pointer);
  }

  /** The end of `visit_FuncDecl` for parameters `args` and a return type
      `T f`. */
  lemma {:induction false} DeclareFunctionEmit(u: State, f: string, rt: seq<string>, args: seq<Item>, pointer: bool)
    requires |u.declStack| >= 1 && ElideVoid(args).Ok?
    requires FunctionPointerDeclared(u.visitStack) == Ok(pointer)
    ensures DeclareFunctionF(u, args + [Node(Pxd.IdentifierType(f, Join(rt, " ")))]) ==
      Ok(FuncDeclResult(u, f, rt, args, pointer, PathNameF(u.visitStack, Some("ft"))))
  {
    var retItem := Node(Pxd.IdentifierType(f, Join(rt, " ")));
    var decls := args + [retItem];
    assert Last(decls) == retItem && DropLast(decls) == args;
    assert TypeNameAttr(retItem) == Ok(Join(rt, " "));
    assert NameAttr(retItem) == Ok(Some(f));
    var a := ElideVoid(args).value;
    var name := PathNameF(u.visitStack, Some("ft"));
    if pointer {
      var h := Node(Type(Node(Ptr(Node(Function(Join(rt, " "), Some(name), a))))));
      HoistThenAppend(u, h, Str(name));
      assert DeclareFunctionF(u, decls) == AppendF(HoistF(u, h).value, Str(name));
    } else {
      var it := Node(Function(Join(rt, " "), Some(f), a));
      AppendOnce(u, it);
      assert DeclareFunctionF(u, decls) == AppendF(u, it);
    }
  }

  /** One item hoisted, then one appended. */
  lemma {:induction false} HoistThenAppend(u: State, h: Item, it: Item)
    requires |u.declStack| >= 1
    ensures HoistF(u, h).Ok? && AppendF(HoistF(u, h).value, it) == Ok(Emit(u, [h], [it]))
  {
    EmitNothing(u);
    HoistEmit(u, [], h);
    AppendEmit(u, [] + [h], [], it);
    assert [] + [h] == [h] && [] + [it] == [it];
  }

  /** One item appended. */
  lemma {:induction false} AppendOnce(u: State, it: Item)
    requires |u.declStack| >= 1
    ensures AppendF(u, it) == Ok(Emit(u, [], [it]))
  {
    EmitNothing(u);
    AppendEmit(u, [], [], it);
    assert [] + [it] == [it];
  }

  /** The end of `visit_FuncDecl`, as hoisted and left items. */
  function FuncDeclResult(u: State, f: string, rt: seq<string>, args: seq<Item>, pointer: bool, name: string): (r: State)
    requires |u.declStack| >= 1 && ElideVoid(args).Ok?
    ensures r.visitStack == u.visitStack
  {
    if pointer
    then Emit(u, [Node(Type(Node(Ptr(Node(Function(Join(rt, " "), Some(name), ElideVoid(args).value))))))], [Str(name)])
    else Emit(u, [], [Node(Function(Join(rt, " "), Some(f), ElideVoid(args).value))])
  }

  /** The parameter list leaves `args` on a freshly pushed list. */
  lemma ParamsLeave(st: State, params: Node, args: seq<Item>, recorded: seq<string>)
    requires |st.declStack| >= 1
    requires VisitF(st.(declStack := st.declStack + [[]]), params) ==
      Ok(st.(declStack := DropLast(st.declStack + [[]]) + [Last(st.declStack + [[]]) + args],
             stdintDeclarations := recorded))
    ensures VisitF(st.(declStack := st.declStack + [[]]), params) ==
      Ok(st.(declStack := st.declStack + [args], stdintDeclarations := recorded))
  {
    assert DropLast(st.declStack + [[]]) == st.declStack;
    assert Last(st.declStack + [[]]) + args == args;
  }

  /** A pointer whose target leaves a bare name passes that name up. */
  lemma {:induction false} PointerLeavesName(st: State, pd: Node, upd: State, hoisted: seq<Item>, name: string)
    requires pd.PtrDecl?
    requires |st.declStack| >= 1 && upd.declStack == st.declStack && upd.visitStack == st.visitStack
    requires VisitF(st.(visitStack := st.visitStack + [pd], declStack := st.declStack + [[]]), pd.ty) ==
      Ok(Emit(upd.(visitStack := st.visitStack + [pd], declStack := st.declStack + [[]]), hoisted, [Str(name)]))
    ensures VisitF(st, pd) == Ok(Emit(upd, hoisted, [Str(name)]))
  {
    var p := st.(visitStack := st.visitStack + [pd]);
    var up := upd.(visitStack := p.visitStack);
    assert st.(visitStack := st.visitStack + [pd], declStack := st.declStack + [[]]) == p.(declStack := p.declStack + [[]]);
    assert upd.(visitStack := st.visitStack + [pd], declStack := st.declStack + [[]]) == up.(declStack := st.declStack + [[]]);
    CollectEmit(p, pd, up, hoisted, [Str(name)]);
    AppendEmit(up, hoisted, [], Str(name));
    assert [] + [Str(name)] == [Str(name)];
    assert HandleF(p, pd) == VisitPtrDeclF(p, pd);
    assert VisitPtrDeclF(p, pd) == Ok(Emit(up, hoisted, [Str(name)]));
    VisitStep(st, pd, Emit(up, hoisted, [Str(name)]));
    assert Emit(up, hoisted, [Str(name)]).(visitStack := st.visitStack) == Emit(upd, hoisted, [Str(name)]);
  }

  /** `rt (void)` as the target of a pointer that no `typedef` names: the
      pointer type is hoisted as a `ctypedef` under the `_ft` path name, and
      that name is left. */
  lemma {:induction false} VoidFunctionType(s2: State, f: string, rt: seq<string>)
    requires |s2.declStack| >= 1 && |s2.visitStack| >= 2
    requires Last(s2.visitStack).PtrDecl? && !s2.visitStack[|s2.visitStack| - 2].Typedef?
    ensures var fd := FuncDecl(Some(ParamList([VoidParam])), TypeDecl(Some(f), CAst.IdentifierType(rt)));
      var name := PathNameF(s2.visitStack + [fd], Some("ft"));
      VisitF(s2, fd) ==
        Ok(Emit(s2.(stdintDeclarations := RecordStdint(s2.stdintDeclarations, rt)),
                [Node(Type(Node(Ptr(Node(Function(Join(rt, " "), Some(name), []))))))], [Str(name)]))
  {
    var params := ParamList([VoidParam]);
    var fd := FuncDecl(Some(params), TypeDecl(Some(f), CAst.IdentifierType(rt)));
    var s3 := s2.(visitStack := s2.visitStack + [fd]);
    VisitVoidParams(s3.(declStack := s3.declStack + [[]]));
    ParamsLeave(s3, params, [VoidItem], s3.stdintDeclarations);
    assert s3.(declStack := s2.declStack + [[VoidItem]], stdintDeclarations := s2.stdintDeclarations) ==
      s2.(visitStack := s2.visitStack + [fd], declStack := s2.declStack + [[VoidItem]], stdintDeclarations := s2.stdintDeclarations);
    assert ElideVoid([VoidItem]) == Ok([]);
    assert s2.(stdintDeclarations := s2.stdintDeclarations) == s2;
    VisitFuncDeclWith(s2, params, f, rt, [VoidItem], s2.stdintDeclarations);
  }

  /** `rt (*f)(void);`: `ctypedef rt (*_<path>_f_ft)()` is hoisted and the
      declaration is left as a field `_<path>_f_ft f`. */
  lemma {:induction false} VoidFunctionPointer(st: State, f: string, rt: seq<string>)
    requires |st.declStack| >= 1
    requires f != ""
    ensures var name := "_" + Join(PathNames(st.visitStack) + [f], "_") + "_ft";
      VisitF(st, Decl(Some(f), PtrDecl(FuncDecl(Some(ParamList([VoidParam])), TypeDecl(Some(f), CAst.IdentifierType(rt)))))) ==
        Ok(Emit(st.(stdintDeclarations := RecordStdint(st.stdintDeclarations, rt)),
                [Node(Type(Node(Ptr(Node(Function(Join(rt, " "), Some(name), []))))))],
                [Node(Pxd.IdentifierType(f, name))]))
  {
    var params := ParamList([VoidParam]);
    var fd := FuncDecl(Some(params), TypeDecl(Some(f), CAst.IdentifierType(rt)));
    var pd := PtrDecl(fd);
    var d := Decl(Some(f), pd);
    var name := "_" + Join(PathNames(st.visitStack) + [f], "_") + "_ft";
    var h := [Node(Type(Node(Ptr(Node(Function(Join(rt, " "), Some(name), []))))))];
    var u := st.(stdintDeclarations := RecordStdint(st.stdintDeclarations, rt));
    // the function type, under the pointer under the declaration
    var s1 := st.(visitStack := st.visitStack + [d], declStack := st.declStack + [[]]);
    var s2 := s1.(visitStack := s1.visitStack + [pd], declStack := s1.declStack + [[]]);
    VoidFunctionType(s2, f, rt);
    assert PathNames([d]) == [f];
    PathUnderNamed(st.visitStack, d, f, pd, fd, Some("ft"));
    assert PathNameF(s2.visitStack + [fd], Some("ft")) == name;
    var u2 := u.(visitStack := s1.visitStack, declStack := s1.declStack);
    assert s2.(stdintDeclarations := RecordStdint(s2.stdintDeclarations, rt)) ==
      u2.(visitStack := s1.visitStack + [pd], declStack := s1.declStack + [[]]);
    // the pointer passes the name up
    PointerLeavesName(s1, pd, u2, h, name);
    // the declaration attaches its name
    assert u2 == u.(visitStack := st.visitStack + [d], declStack := st.declStack + [[]]);
    PassThrough(st, d, u, h, [Str(name)]);
  }

  /** `rt f(void);`: the prototype is left as `rt f()`. */
  lemma {:induction false} VoidPrototype(st: State, f: string, rt: seq<string>)
    requires |st.declStack| >= 1 && |st.visitStack| >= 1
    ensures VisitF(st, Decl(Some(f), FuncDecl(Some(ParamList([VoidParam])), TypeDecl(Some(f), CAst.IdentifierType(rt))))) ==
      Ok(Emit(st.(stdintDeclarations := RecordStdint(st.stdintDeclarations, rt)), [],
              [Node(Function(Join(rt, " "), Some(f), []))]))
  {
    var params := ParamList([VoidParam]);
    var fd := FuncDecl(Some(params), TypeDecl(Some(f), CAst.IdentifierType(rt)));
    var d := Decl(Some(f), fd);
    var u := st.(stdintDeclarations := RecordStdint(st.stdintDeclarations, rt));
    var s1 := st.(visitStack := st.visitStack + [d], declStack := st.declStack + [[]]);
    var s2 := s1.(visitStack := s1.visitStack + [fd]);
    VisitVoidParams(s2.(declStack := s2.declStack + [[]]));
    ParamsLeave(s2, params, [VoidItem], s2.stdintDeclarations);
    assert ElideVoid([VoidItem]) == Ok([]);
    VisitFuncDeclWith(s1, params, f, rt, [VoidItem], st.stdintDeclarations);
    var it := Node(Function(Join(rt, " "), Some(f), []));
    assert VisitF(s1, fd) == Ok(Emit(u.(visitStack := st.visitStack + [d], declStack := st.declStack + [[]]), [], [it]));
    PassThrough(st, d, u, [], [it]);
  }

  /** `rt f(T1 a1, T2 a2);`: the prototype keeps its named parameters, in order,
      unless the only one is of type `void`. The parameters are plain-typed
      (`Member`); pointer, array and function parameters are not covered here. */
  lemma {:induction false} Prototype(st: State, f: string, rt: seq<string>, ps: seq<Member>)
    requires |st.declStack| >= 1 && |st.visitStack| >= 1
    requires |ps| == 1 ==> Join(ps[0].words, " ") != "void"
    ensures VisitF(st, Decl(Some(f), FuncDecl(Some(ParamList(MemberDecls(ps))), TypeDecl(Some(f), CAst.IdentifierType(rt))))) ==
      Ok(Emit(st.(stdintDeclarations := RecordStdint(RecordMembers(st.stdintDeclarations, ps), rt)), [],
              [Node(Function(Join(rt, " "), Some(f), MemberItems(ps)))]))
  {
    var params := ParamList(MemberDecls(ps));
    var fd := FuncDecl(Some(params), TypeDecl(Some(f), CAst.IdentifierType(rt)));
    var d := Decl(Some(f), fd);
    var recorded := RecordMembers(st.stdintDeclarations, ps);
    var u := st.(stdintDeclarations := RecordStdint(recorded, rt));
    var s1 := st.(visitStack := st.visitStack + [d], declStack := st.declStack + [[]]);
    var s2 := s1.(visitStack := s1.visitStack + [fd]);
    VisitNamedParams(s2.(declStack := s2.declStack + [[]]), ps);
    ParamsLeave(s2, params, MemberItems(ps), recorded);
    assert ElideVoid(MemberItems(ps)) == Ok(MemberItems(ps));
    VisitFuncDeclWith(s1, params, f, rt, MemberItems(ps), recorded);
    var it := Node(Function(Join(rt, " "), Some(f), MemberItems(ps)));
    assert VisitF(s1, fd) == Ok(Emit(u.(visitStack := st.visitStack + [d], declStack := st.declStack + [[]]), [], [it]));
    PassThrough(st, d, u, [], [it]);
  }

  // ---------------------------------------------------------------------
  // What they render as (autopxd/__init__.py:90-137)

  /** The text of one parameter: its type, then its name when it has one. */
  function ParamText(m: Member): string {
    if m.name != "" then Join(m.words, " ") + " " + m.name else Join(m.words, " ")
  }

  function ParamTexts(ps: seq<Member>): (r: seq<string>)
    ensures |r| == |ps|
    ensures forall i :: 0 <= i < |ps| ==> r[i] == ParamText(ps[i])
  {
    if ps == [] then [] else [ParamText(ps[0])] + ParamTexts(ps[1..])
  }

  /** Each parameter renders to exactly its one line. */
  lemma {:induction false} ParamLines(ps: seq<Member>)
    ensures ArgLines(MemberItems(ps)) == Ok(ParamTexts(ps))
  {
    if ps != [] {
      ParamLines(ps[1..]);
      assert MemberItems(ps)[1..] == MemberItems(ps[1..]);
    }
  }

  /** A prototype renders as `rt f(T a, U b)`. */
  lemma {:induction false} PrototypeLines(rt: string, f: string, ps: seq<Member>)
    ensures Lines(Node(Function(rt, Some(f), MemberItems(ps)))) ==
      Ok([rt + " " + f + "(" + Join(ParamTexts(ps), ", ") + ")"])
  {
    ParamLines(ps);
  }

  /** The hoisted pointer typedef renders as `ctypedef rt (*name)(...)`. */
  lemma {:induction false} FunctionPointerTypedefLines(rt: string, name: string, ps: seq<Member>)
    ensures Lines(Node(Type(Node(Ptr(Node(Function(rt, Some(name), MemberItems(ps)))))))) ==
      Ok(["ctypedef " + rt + " (*" + name + ")(" + Join(ParamTexts(ps), ", ") + ")"])
  {
    ParamLines(ps);
    var inner := Node(Ptr(Node(Function(rt, Some(name), MemberItems(ps)))));
    var line := rt + " (*" + name + ")(" + Join(ParamTexts(ps), ", ") + ")";
    assert Lines(inner) == Ok([line]);
    assert [line][1..] == [];
    assert Lines(Node(Type(inner))) == Ok(["ctypedef " + line] + [line][1..]);
    assert ["ctypedef " + line] + [] == ["ctypedef " + line];
    assert "ctypedef " + line == "ctypedef " + rt + " (*" + name + ")(" + Join(ParamTexts(ps), ", ") + ")";
  }
}
