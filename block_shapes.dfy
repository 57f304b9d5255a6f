/** Struct and union definitions (autopxd/__init__.py:213-236, 250-272,
    332-338) in the three places C puts them: as a statement of their own,
    behind a `typedef`, and inline in a declaration. The results are stated
    as what is hoisted to the top-level list and what is left on the
    innermost one. */
module BlockShapes {
  import opened Results
  import opened PyStr
  import opened CAst
  import opened Pxd
  import opened VisitorSpec
  import opened HandlerLemmas
  import opened DeclarationShapes

  // ---------------------------------------------------------------------
  // Hoisting and appending together

  /** The state after `hoisted` went to the end of the top-level list and
      then `appended` to the end of the innermost one. */
  function Emit(st: State, hoisted: seq<Item>, appended: seq<Item>): State
    requires |st.declStack| >= 1
  {
    var ds := [st.declStack[0] + hoisted] + st.declStack[1..];
    st.(declStack := DropLast(ds) + [Last(ds) + appended])
  }

  lemma Unsnoc(s: seq<seq<Item>>)
    requires |s| >= 1
    ensures DropLast(s) + [Last(s) + []] == s
  {
    assert Last(s) + [] == Last(s);
  }

  lemma {:induction false} EmitNothing(st: State)
    requires |st.declStack| >= 1
    ensures Emit(st, [], []) == st
  {
    var ds := [st.declStack[0] + []] + st.declStack[1..];
    assert st.declStack[0] + [] == st.declStack[0];
    assert ds == st.declStack;
    Unsnoc(ds);
  }

  lemma {:induction false} HoistEmit(st: State, hoisted: seq<Item>, it: Item)
    requires |st.declStack| >= 1
    ensures HoistF(Emit(st, hoisted, []), it) == Ok(Emit(st, hoisted + [it], []))
  {
    var ds := [st.declStack[0] + hoisted] + st.declStack[1..];
    Unsnoc(ds);
    var ds2 := [st.declStack[0] + (hoisted + [it])] + st.declStack[1..];
    Unsnoc(ds2);
    assert ds[0] + [it] == st.declStack[0] + (hoisted + [it]);
    assert ds[1..] == st.declStack[1..];
    assert [ds[0] + [it]] + ds[1..] == ds2;
  }

  lemma {:induction false} AppendEmit(st: State, hoisted: seq<Item>, appended: seq<Item>, it: Item)
    requires |st.declStack| >= 1
    ensures AppendF(Emit(st, hoisted, appended), it) == Ok(Emit(st, hoisted, appended + [it]))
  {
    var ds := [st.declStack[0] + hoisted] + st.declStack[1..];
    var e := DropLast(ds) + [Last(ds) + appended];
    assert DropLast(e) == DropLast(ds);
    assert Last(e) + [it] == Last(ds) + (appended + [it]);
  }

  /** Emitting into a freshly pushed list and popping it again. */
  lemma {:induction false} EmitPushed(st: State, hoisted: seq<Item>, appended: seq<Item>)
    requires |st.declStack| >= 1
    ensures var e := Emit(st.(declStack := st.declStack + [[]]), hoisted, appended);
      |e.declStack| == |st.declStack| + 1 &&
      DropLast(e.declStack) == Emit(st, hoisted, []).declStack &&
      Last(e.declStack) == appended
  {
    var ds := [st.declStack[0] + hoisted] + st.declStack[1..];
    var pushed := st.declStack + [[]];
    var dsp := [pushed[0] + hoisted] + pushed[1..];
    assert dsp == ds + [[]];
    assert DropLast(dsp) == ds;
    Unsnoc(ds);
  }

  /** `collect` over a node whose one child hoists `hoisted` and leaves
      `appended`, changing the rest of the state to `upd`. */
  lemma {:induction false} CollectEmit(st: State, n: Node, upd: State, hoisted: seq<Item>, appended: seq<Item>)
    requires |Children(n)| == 1
    requires |st.declStack| >= 1 && upd.declStack == st.declStack
    requires VisitF(st.(declStack := st.declStack + [[]]), Children(n)[0]) ==
      Ok(Emit(upd.(declStack := st.declStack + [[]]), hoisted, appended))
    ensures CollectF(st, n) == Ok((Emit(upd, hoisted, []), appended))
  {
    var after := Emit(upd.(declStack := st.declStack + [[]]), hoisted, appended);
    EmitPushed(upd, hoisted, appended);
    CollectSingle(st, n, after);
    assert after.(declStack := DropLast(after.declStack)) == Emit(upd, hoisted, []);
  }

  /** The name a declarator attaches to the bare type string it collects. */
  function DeclaredName(n: Node): Option<string>
    requires n.Decl? || n.TypeDecl?
  {
    if n.Decl? then n.name else n.declname
  }

  /** What `visit_Decl` and `visit_TypeDecl` leave for the item they collect. */
  function Attached(x: Item, name: Option<string>): Item {
    if x.Str? then Node(Pxd.IdentifierType(OrEmpty(name), x.s)) else x
  }

  /** A declaration or declarator passes up what its child hoists, and
      attaches its name to what the child leaves. */
  lemma {:induction false} PassThrough(st: State, n: Node, upd: State, hoisted: seq<Item>, appended: seq<Item>)
    requires n.Decl? || n.TypeDecl?
    requires |st.declStack| >= 1 && upd.declStack == st.declStack && upd.visitStack == st.visitStack
    requires |appended| <= 1
    requires VisitF(st.(visitStack := st.visitStack + [n], declStack := st.declStack + [[]]), Children(n)[0]) ==
      Ok(Emit(upd.(visitStack := st.visitStack + [n], declStack := st.declStack + [[]]), hoisted, appended))
    ensures VisitF(st, n) ==
      Ok(Emit(upd, hoisted, if appended == [] then [] else [Attached(appended[0], DeclaredName(n))]))
  {
    var s1 := st.(visitStack := st.visitStack + [n]);
    var u1 := upd.(visitStack := s1.visitStack);
    assert st.(visitStack := st.visitStack + [n], declStack := st.declStack + [[]]) ==
      s1.(declStack := s1.declStack + [[]]);
    assert upd.(visitStack := st.visitStack + [n], declStack := st.declStack + [[]]) ==
      u1.(declStack := s1.declStack + [[]]);
    CollectEmit(s1, n, u1, hoisted, appended);
    var left := if appended == [] then [] else [Attached(appended[0], DeclaredName(n))];
    if appended == [] {
      assert AttachName(Emit(u1, hoisted, []), appended, DeclaredName(n)) == Ok(Emit(u1, hoisted, left));
    } else {
      AppendEmit(u1, hoisted, [], Attached(appended[0], DeclaredName(n)));
      assert [] + left == left;
      assert AttachName(Emit(u1, hoisted, []), appended, DeclaredName(n)) == Ok(Emit(u1, hoisted, left));
    }
    if n.Decl? {
      assert HandleF(s1, n) == VisitDeclF(s1, n);
    } else {
      assert HandleF(s1, n) == VisitTypeDeclF(s1, n);
    }
    VisitStep(st, n, Emit(u1, hoisted, left));
    assert Emit(u1, hoisted, left).(visitStack := st.visitStack) == Emit(upd, hoisted, left);
  }

  // ---------------------------------------------------------------------
  // Members

  /** A member `T name;` whose type is a plain run of type words. The
      member lemmas below, and the block lemmas built on them, are about
      members of this form only; a member that is itself a struct, a
      pointer or an array is covered by the stack discipline and the
      recorded names (visitor_lemmas.dfy, stdint_lemmas.dfy), not by a
      statement of what it hoists and leaves. */
  datatype Member = Member(name: string, words: seq<string>)

  function MemberDecls(ms: seq<Member>): (r: seq<Node>)
    ensures |r| == |ms|
    ensures forall i :: 0 <= i < |ms| ==>
      r[i] == Decl(Some(ms[i].name), TypeDecl(Some(ms[i].name), CAst.IdentifierType(ms[i].words)))
  {
    if ms == [] then []
    else [Decl(Some(ms[0].name), TypeDecl(Some(ms[0].name), CAst.IdentifierType(ms[0].words)))] + MemberDecls(ms[1..])
  }

  /** The fields a block gets: one named `IdentifierType` per member. */
  function MemberItems(ms: seq<Member>): (r: seq<Item>)
    ensures |r| == |ms|
    ensures forall i :: 0 <= i < |ms| ==>
      r[i] == Node(Pxd.IdentifierType(ms[i].name, Join(ms[i].words, " ")))
  {
    if ms == [] then [] else [Node(Pxd.IdentifierType(ms[0].name, Join(ms[0].words, " ")))] + MemberItems(ms[1..])
  }

  /** The fixed-width names recorded over all members, in order. */
  function RecordMembers(acc: seq<string>, ms: seq<Member>): seq<string>
    decreases ms
  {
    if ms == [] then acc else RecordMembers(RecordStdint(acc, ms[0].words), ms[1..])
  }

  /** One member `T name;` appends its field. */
  lemma {:induction false} VisitMember(st: State, m: Member)
    requires |st.declStack| >= 1
    ensures VisitF(st, Decl(Some(m.name), TypeDecl(Some(m.name), CAst.IdentifierType(m.words)))) ==
      Ok(st.(declStack := DropLast(st.declStack) + [Last(st.declStack) + [Node(Pxd.IdentifierType(m.name, Join(m.words, " ")))]],
             stdintDeclarations := RecordStdint(st.stdintDeclarations, m.words)))
  {
    VisitPlainDecl(st, Some(m.name), Some(m.name), m.words);
    assert OrEmpty(Some(m.name)) == m.name;
  }

  /** Walking the members from the `i`-th on appends one field each, in order. */
  lemma {:induction false} VisitMembers(st: State, n: Node, ms: seq<Member>, i: nat)
    requires Children(n) == MemberDecls(ms)
    requires i <= |ms| && |st.declStack| >= 1
    ensures VisitChildrenF(st, n, i) ==
      Ok(st.(declStack := DropLast(st.declStack) + [Last(st.declStack) + MemberItems(ms[i..])],
             stdintDeclarations := RecordMembers(st.stdintDeclarations, ms[i..])))
    decreases |ms| - i
  {
    if i == |ms| {
      assert MemberItems(ms[i..]) == [];
      Unsnoc(st.declStack);
    } else {
      var m := ms[i];
      var rec := RecordStdint(st.stdintDeclarations, m.words);
      var it := Node(Pxd.IdentifierType(m.name, Join(m.words, " ")));
      VisitMember(st, m);
      var st1 := st.(declStack := DropLast(st.declStack) + [Last(st.declStack) + [it]], stdintDeclarations := rec);
      assert Children(n)[i] == Decl(Some(m.name), TypeDecl(Some(m.name), CAst.IdentifierType(m.words)));
      assert VisitF(st, Children(n)[i]) == Ok(st1);
      assert VisitChildrenF(st, n, i) == VisitChildrenF(st1, n, i + 1);
      VisitMembers(st1, n, ms, i + 1);
      MembersFrom(st, ms, i);
    }
  }

  /** The fields and fixed-width names of members `i` on are those of
      member `i` followed by those of the rest. */
  lemma {:induction false} MembersFrom(st: State, ms: seq<Member>, i: nat)
    requires i < |ms| && |st.declStack| >= 1
    ensures var m := ms[i];
      var st1 := st.(declStack := DropLast(st.declStack) + [Last(st.declStack) + [Node(Pxd.IdentifierType(m.name, Join(m.words, " ")))]],
                     stdintDeclarations := RecordStdint(st.stdintDeclarations, m.words));
      st1.(declStack := DropLast(st1.declStack) + [Last(st1.declStack) + MemberItems(ms[i + 1..])],
           stdintDeclarations := RecordMembers(st1.stdintDeclarations, ms[i + 1..])) ==
      st.(declStack := DropLast(st.declStack) + [Last(st.declStack) + MemberItems(ms[i..])],
          stdintDeclarations := RecordMembers(st.stdintDeclarations, ms[i..]))
  {
    var m := ms[i];
    var it := Node(Pxd.IdentifierType(m.name, Join(m.words, " ")));
    var ds1 := DropLast(st.declStack) + [Last(st.declStack) + [it]];
    assert ms[i..][1..] == ms[i + 1..];
    assert MemberItems(ms[i..]) == [it] + MemberItems(ms[i + 1..]);
    assert RecordMembers(st.stdintDeclarations, ms[i..]) ==
      RecordMembers(RecordStdint(st.stdintDeclarations, m.words), ms[i + 1..]);
    assert DropLast(ds1) == DropLast(st.declStack);
    assert Last(ds1) + MemberItems(ms[i + 1..]) == Last(st.declStack) + MemberItems(ms[i..]);
  }

  /** `collect` over a block's members returns one field per member, in order. */
  lemma {:induction false} CollectMembers(st: State, n: Node, ms: seq<Member>)
    requires Children(n) == MemberDecls(ms)
    ensures CollectF(st, n) ==
      Ok((st.(stdintDeclarations := RecordMembers(st.stdintDeclarations, ms)), MemberItems(ms)))
  {
    var pushed := st.(declStack := st.declStack + [[]]);
    VisitMembers(pushed, n, ms, 0);
    assert ms[0..] == ms;
    assert DropLast(pushed.declStack) == st.declStack;
    assert Last(pushed.declStack) + MemberItems(ms) == MemberItems(ms);
  }

  // ---------------------------------------------------------------------
  // Blocks

  function BlockOf(union: bool, name: Option<string>, decls: seq<Node>): (n: Node)
    ensures n.Struct? || n.Union?
  {
    if union then Union(name, decls) else Struct(name, decls)
  }

  /** The end of `visit_Block` as hoisted and left items. */
  lemma {:induction false} DefineBlockEmit(st: State, blockName: string, fields: seq<Item>, kind: string,
                        anonymousTypedef: bool, inline: bool)
    requires |st.declStack| >= 1
    ensures DefineBlockF(st, Block(blockName, fields, kind, "cdef"), anonymousTypedef, inline) ==
      Ok(Emit(st, [Node(Block(blockName, fields, kind, if anonymousTypedef then "ctypedef" else "cdef"))],
              if inline && !anonymousTypedef then [Str(blockName)] else []))
  {
    var hoisted := Node(Block(blockName, fields, kind, if anonymousTypedef then "ctypedef" else "cdef"));
    EmitNothing(st);
    HoistEmit(st, [], hoisted);
    assert [] + [hoisted] == [hoisted];
    if inline && !anonymousTypedef {
      AppendEmit(st, [hoisted], [], Str(blockName));
      assert [] + [Str(blockName)] == [Str(blockName)];
    }
  }

  /** A block with plain-typed members (`Member`), wherever it appears: it is hoisted under its
      own name or one made from its ancestors, as a `ctypedef` when it is
      the anonymous target of a `typedef`, and when declared inline it
      leaves that name behind. */
  lemma {:induction false} VisitBlockDefinition(st: State, union: bool, name: Option<string>, ms: seq<Member>)
    requires |st.declStack| >= 1 && |st.visitStack| >= 2
    requires |ms| >= 1
    ensures var n := BlockOf(union, name, MemberDecls(ms));
      var typeDecl := Last(st.visitStack).TypeDecl?;
      var typeDef := typeDecl && st.visitStack[|st.visitStack| - 2].Typedef?;
      var blockName := BlockName(st.visitStack + [n], n, typeDef);
      var anonymousTypedef := typeDef && name.None?;
      VisitF(st, n) ==
        Ok(Emit(st.(stdintDeclarations := RecordMembers(st.stdintDeclarations, ms)),
                [Node(Block(blockName, MemberItems(ms), BlockKind(n), if anonymousTypedef then "ctypedef" else "cdef"))],
                if typeDecl && !anonymousTypedef then [Str(blockName)] else []))
  {
    var n := BlockOf(union, name, MemberDecls(ms));
    var s1 := st.(visitStack := st.visitStack + [n]);
    var typeDecl := Last(st.visitStack).TypeDecl?;
    var typeDef := typeDecl && st.visitStack[|st.visitStack| - 2].Typedef?;
    var blockName := BlockName(s1.visitStack, n, typeDef);
    var anonymousTypedef := typeDef && name.None?;
    var block := Block(blockName, MemberItems(ms), BlockKind(n), "cdef");
    var u := st.(stdintDeclarations := RecordMembers(st.stdintDeclarations, ms));
    var u1 := u.(visitStack := s1.visitStack);
    CollectMembers(s1, n, ms);
    assert At(s1.visitStack, 2) == Ok(Last(st.visitStack));
    assert DeclaratorContext(s1.visitStack) == Ok((typeDecl, typeDef));
    assert HandleF(s1, n) == VisitBlockF(s1, n);
    assert VisitBlockF(s1, n) == DefineBlockF(u1, block, anonymousTypedef, typeDecl);
    var left := if typeDecl && !anonymousTypedef then [Str(blockName)] else [];
    var hoisted := Node(Block(blockName, MemberItems(ms), BlockKind(n), if anonymousTypedef then "ctypedef" else "cdef"));
    DefineBlockEmit(u1, blockName, MemberItems(ms), BlockKind(n), anonymousTypedef, typeDecl);
    VisitStep(st, n, Emit(u1, [hoisted], left));
    assert Emit(u1, [hoisted], left).(visitStack := st.visitStack) == Emit(u, [hoisted], left);
  }

  /** `struct tag { ... };`: the block is hoisted under its tag and the
      statement leaves nothing else. */
  lemma {:induction false} BlockStatement(st: State, union: bool, tag: string, ms: seq<Member>)
    requires |st.declStack| >= 1 && |st.visitStack| >= 1
    requires tag != "" && |ms| >= 1
    ensures var n := BlockOf(union, Some(tag), MemberDecls(ms));
      VisitF(st, Decl(None, n)) ==
        Ok(Emit(st.(stdintDeclarations := RecordMembers(st.stdintDeclarations, ms)),
                [Node(Block(tag, MemberItems(ms), BlockKind(n), "cdef"))], []))
  {
    var n := BlockOf(union, Some(tag), MemberDecls(ms));
    var d := Decl(None, n);
    var inner := st.(visitStack := st.visitStack + [d], declStack := st.declStack + [[]]);
    VisitBlockDefinition(inner, union, Some(tag), ms);
    var u := st.(stdintDeclarations := RecordMembers(st.stdintDeclarations, ms));
    assert inner.(stdintDeclarations := RecordMembers(inner.stdintDeclarations, ms)) ==
      u.(visitStack := st.visitStack + [d], declStack := st.declStack + [[]]);
    PassThrough(st, d, u, [Node(Block(tag, MemberItems(ms), BlockKind(n), "cdef"))], []);
  }

  /** `typedef struct { ... } T;`: the block is hoisted as a `ctypedef`
      under the name made from the enclosing declarations and `T`, and the
      typedef adds no alias of its own. */
  lemma {:induction false} TypedefOfAnonymousBlock(st: State, union: bool, alias: string, ms: seq<Member>)
    requires |st.declStack| >= 1
    requires alias != "" && |ms| >= 1
    ensures var n := BlockOf(union, None, MemberDecls(ms));
      VisitF(st, Typedef(Some(alias), TypeDecl(Some(alias), n))) ==
        Ok(Emit(st.(stdintDeclarations := RecordMembers(st.stdintDeclarations, ms)),
                [Node(Block(Join(PathNames(st.visitStack) + [alias], "_"), MemberItems(ms), BlockKind(n), "ctypedef"))], []))
  {
    var n := BlockOf(union, None, MemberDecls(ms));
    var td := TypeDecl(Some(alias), n);
    var t := Typedef(Some(alias), td);
    var u := st.(stdintDeclarations := RecordMembers(st.stdintDeclarations, ms));
    var name := Join(PathNames(st.visitStack) + [alias], "_");
    var hoisted := [Node(Block(name, MemberItems(ms), BlockKind(n), "ctypedef"))];
    // the block, under the declarator under the typedef
    var s1 := st.(visitStack := st.visitStack + [t], declStack := st.declStack + [[]]);
    var s2 := s1.(visitStack := s1.visitStack + [td], declStack := s1.declStack + [[]]);
    VisitBlockDefinition(s2, union, None, ms);
    assert PathNames([t]) == [alias];
    PathUnderNamed(st.visitStack, t, alias, td, n, None);
    assert BlockName(s2.visitStack + [n], n, true) == name;
    var u1 := u.(visitStack := st.visitStack + [t], declStack := st.declStack + [[]]);
    assert s2.(stdintDeclarations := RecordMembers(s2.stdintDeclarations, ms)) ==
      u1.(visitStack := s1.visitStack + [td], declStack := s1.declStack + [[]]);
    PassThrough(s1, td, u1, hoisted, []);
    // the typedef: nothing collected, so no alias
    var c := st.(visitStack := st.visitStack + [t]);
    assert s1 == c.(declStack := c.declStack + [[]]);
    var uc := u.(visitStack := c.visitStack);
    assert u1 == uc.(declStack := st.declStack + [[]]);
    CollectEmit(c, t, uc, hoisted, []);
    assert HandleF(c, t) == VisitTypedefF(c, t);
    assert VisitTypedefF(c, t) == Ok(Emit(uc, hoisted, []));
    VisitStep(st, t, Emit(uc, hoisted, []));
    assert Emit(uc, hoisted, []).(visitStack := st.visitStack) == Emit(u, hoisted, []);
  }

  /** `struct { ... } v;`: the block is hoisted as `_<path>_v_s` (`_u` for a
      union) and the declaration is left as a field of that type. */
  lemma {:induction false} InlineAnonymousBlock(st: State, union: bool, v: string, ms: seq<Member>)
    requires |st.declStack| >= 1
    requires v != "" && |ms| >= 1
    ensures var n := BlockOf(union, None, MemberDecls(ms));
      var name := "_" + Join(PathNames(st.visitStack) + [v], "_") + "_" + BlockKind(n)[..1];
      VisitF(st, Decl(Some(v), TypeDecl(Some(v), n))) ==
        Ok(Emit(st.(stdintDeclarations := RecordMembers(st.stdintDeclarations, ms)),
                [Node(Block(name, MemberItems(ms), BlockKind(n), "cdef"))],
                [Node(Pxd.IdentifierType(v, name))]))
  {
    var n := BlockOf(union, None, MemberDecls(ms));
    var td := TypeDecl(Some(v), n);
    var d := Decl(Some(v), td);
    var u := st.(stdintDeclarations := RecordMembers(st.stdintDeclarations, ms));
    var name := "_" + Join(PathNames(st.visitStack) + [v], "_") + "_" + BlockKind(n)[..1];
    var hoisted := [Node(Block(name, MemberItems(ms), BlockKind(n), "cdef"))];
    var s1 := st.(visitStack := st.visitStack + [d], declStack := st.declStack + [[]]);
    var s2 := s1.(visitStack := s1.visitStack + [td], declStack := s1.declStack + [[]]);
    VisitBlockDefinition(s2, union, None, ms);
    assert PathNames([d]) == [v];
    PathUnderNamed(st.visitStack, d, v, td, n, Some(BlockKind(n)[..1]));
    assert BlockName(s2.visitStack + [n], n, false) == name;
    var u1 := u.(visitStack := st.visitStack + [d], declStack := st.declStack + [[]]);
    assert s2.(stdintDeclarations := RecordMembers(s2.stdintDeclarations, ms)) ==
      u1.(visitStack := s1.visitStack + [td], declStack := s1.declStack + [[]]);
    PassThrough(s1, td, u1, hoisted, [Str(name)]);
    assert Attached(Str(name), Some(v)) == Node(Pxd.IdentifierType(v, name));
    PassThrough(st, d, u, hoisted, [Node(Pxd.IdentifierType(v, name))]);
  }

  // ---------------------------------------------------------------------
  // Ordering and references

  /** A struct or union without fields that is not the type of a
      declarator (`struct s;` on its own) yields nothing at all. */
  lemma {:induction false} BareBlockReference(st: State, union: bool, name: Option<string>)
    requires |st.visitStack| >= 1 && !Last(st.visitStack).TypeDecl?
    ensures VisitF(st, BlockOf(union, name, [])) == Ok(st)
  {
    var n := BlockOf(union, name, []);
    var s1 := st.(visitStack := st.visitStack + [n]);
    assert At(s1.visitStack, 2) == Ok(Last(st.visitStack));
    assert DeclaratorContext(s1.visitStack) == Ok((false, false));
    assert HandleF(s1, n) == VisitBlockF(s1, n);
    assert VisitBlockF(s1, n) == Ok(s1);
    VisitStep(st, n, s1);
    assert s1.(visitStack := st.visitStack) == st;
  }

  /** Appending to the innermost list keeps the top-level list as a prefix. */
  lemma AppendKeepsTopLevel(st: State, it: Item)
    requires AppendF(st, it).Ok?
    ensures st.declStack[0] <= AppendF(st, it).value.declStack[0]
  {
    if |st.declStack| > 1 {
      assert AppendF(st, it).value.declStack[0] == DropLast(st.declStack)[0];
    }
  }

  /** A struct or union with fields goes onto the top-level list after its
      fields are collected, so whatever its fields hoisted comes first and
      the block itself follows it immediately. */
  lemma {:induction false} BlockHoistedAfterFields(st: State, n: Node)
    requires n.Struct? || n.Union?
    requires |n.decls| > 0
    requires VisitBlockF(st, n).Ok?
    ensures CollectF(st, n).Ok? && DeclaratorContext(st.visitStack).Ok?
    ensures var c := CollectF(st, n).value;
      var typeDef := DeclaratorContext(st.visitStack).value.1;
      var statement := if typeDef && n.name.None? then "ctypedef" else "cdef";
      |c.0.declStack| >= 1 &&
      c.0.declStack[0] + [Node(Block(BlockName(st.visitStack, n, typeDef), c.1, BlockKind(n), statement))]
        <= VisitBlockF(st, n).value.declStack[0]
  {
    var c := CollectF(st, n).value;
    var ctx := DeclaratorContext(st.visitStack).value;
    var typeDef := ctx.1;
    var name := BlockName(st.visitStack, n, typeDef);
    var block := Block(name, c.1, BlockKind(n), "cdef");
    var r := VisitBlockF(st, n);
    assert r == DefineBlockF(c.0, block, typeDef && n.name.None?, ctx.0);
    if typeDef && n.name.None? {
      var h := Node(Block(name, c.1, BlockKind(n), "ctypedef"));
      assert r == HoistF(c.0, h);
    } else {
      var h := HoistF(c.0, Node(block));
      assert h.Ok?;
      assert h.value.declStack[0] == c.0.declStack[0] + [Node(block)];
      if ctx.0 {
        assert r == AppendF(h.value, Str(name));
        AppendKeepsTopLevel(h.value, Str(name));
      }
    }
  }
}
