/** Array declarators (autopxd/__init__.py:318-330): `int m[2][3]` is parsed
    as an array declarator of an array declarator, the outermost dimension
    first. Each level pushes its dimension text; the innermost `Array` node
    takes the whole list and every outer level gets an empty one. */
module ArrayShapes {
  import opened Results
  import opened PyStr
  import opened CAst
  import opened Pxd
  import opened VisitorSpec
  import opened DeclarationShapes

  /** The declarator the parser builds for `core[d0][d1]...`. */
  function ArrayDeclarator(dims: seq<Option<Expr>>, core: Node): Node
    decreases |dims|
  {
    if dims == [] then core else ArrayDecl(ArrayDeclarator(dims[1..], core), dims[0])
  }

  /** The dimension texts, in source order. */
  function DimTexts(dims: seq<Option<Expr>>, consts: map<string, nat>): (r: seq<string>)
    ensures |r| == |dims|
    ensures forall i :: 0 <= i < |dims| ==> r[i] == DimText(dims[i], consts)
    decreases |dims|
  {
    if dims == [] then [] else [DimText(dims[0], consts)] + DimTexts(dims[1..], consts)
  }

  /** `k` dimensionless `Array` nodes around `inner`. */
  function WrapArrays(k: nat, inner: PxdNode): PxdNode {
    if k == 0 then inner else Array(Node(WrapArrays(k - 1, inner)), [])
  }

  /** `T x[d0]...[dk]`: the innermost `Array` holds the dimensions still
      pending on the stack followed by all of this declarator's, in source
      order; the outer levels hold none, and the stack is empty afterwards. */
  lemma {:induction false} VisitArrayOfNamedType(st: State, dims: seq<Option<Expr>>,
                                                 declname: Option<string>, names: seq<string>)
    requires |st.declStack| >= 1
    requires |dims| >= 1
    ensures VisitF(st, ArrayDeclarator(dims, TypeDecl(declname, CAst.IdentifierType(names)))) ==
      AppendF(st.(stdintDeclarations := RecordStdint(st.stdintDeclarations, names), dimensionStack := []),
              Node(WrapArrays(|dims| - 1,
                Array(Node(Pxd.IdentifierType(OrEmpty(declname), Join(names, " "))),
                      st.dimensionStack + DimTexts(dims, st.constants)))))
    decreases |dims|
  {
    var core := TypeDecl(declname, CAst.IdentifierType(names));
    var n := ArrayDeclarator(dims, core);
    assert n == ArrayDecl(ArrayDeclarator(dims[1..], core), dims[0]);
    var dim := DimText(dims[0], st.constants);
    var rec := RecordStdint(st.stdintDeclarations, names);
    var base := Node(Pxd.IdentifierType(OrEmpty(declname), Join(names, " ")));
    var allDims := st.dimensionStack + DimTexts(dims, st.constants);
    assert allDims == st.dimensionStack + [dim] + DimTexts(dims[1..], st.constants);
    var s1 := st.(visitStack := st.visitStack + [n]);
    var s1d := s1.(dimensionStack := st.dimensionStack + [dim]);
    var inner := s1d.(declStack := s1d.declStack + [[]]);
    var c0: State;
    var x: Item;
    if |dims| == 1 {
      assert ArrayDeclarator(dims[1..], core) == core;
      c0 := s1d.(stdintDeclarations := rec);
      x := base;
      VisitNamedType(inner, declname, names);
      assert inner.(stdintDeclarations := rec) == c0.(declStack := s1d.declStack + [[]]);
      assert allDims == c0.dimensionStack;
    } else {
      c0 := s1d.(stdintDeclarations := rec, dimensionStack := []);
      x := Node(WrapArrays(|dims| - 2, Array(base, allDims)));
      VisitArrayOfNamedType(inner, dims[1..], declname, names);
      assert inner.dimensionStack + DimTexts(dims[1..], inner.constants) == allDims;
      assert inner.(stdintDeclarations := rec, dimensionStack := []) == c0.(declStack := s1d.declStack + [[]]);
    }
    CollectOne(s1d, n, c0, x);
    var item := Node(Array(x, c0.dimensionStack));
    assert item == Node(WrapArrays(|dims| - 1, Array(base, allDims)));
    var after := AppendF(c0, item).value.(dimensionStack := []);
    assert HandleF(s1, n) == VisitArrayDeclF(s1, n);
    assert VisitArrayDeclF(s1, n) == Ok(after);
    VisitStep(st, n, after);
  }

  /** `T x[d0]...[dk];` as a declaration or member: the array node is passed
      up unchanged. */
  lemma {:induction false} VisitArrayDecl(st: State, name: Option<string>, dims: seq<Option<Expr>>,
                                          declname: Option<string>, names: seq<string>)
    requires |st.declStack| >= 1
    requires |dims| >= 1
    ensures VisitF(st, Decl(name, ArrayDeclarator(dims, TypeDecl(declname, CAst.IdentifierType(names))))) ==
      AppendF(st.(stdintDeclarations := RecordStdint(st.stdintDeclarations, names), dimensionStack := []),
              Node(WrapArrays(|dims| - 1,
                Array(Node(Pxd.IdentifierType(OrEmpty(declname), Join(names, " "))),
                      st.dimensionStack + DimTexts(dims, st.constants)))))
  {
    var a := ArrayDeclarator(dims, TypeDecl(declname, CAst.IdentifierType(names)));
    var n := Decl(name, a);
    var s1 := st.(visitStack := st.visitStack + [n]);
    var item := Node(WrapArrays(|dims| - 1,
      Array(Node(Pxd.IdentifierType(OrEmpty(declname), Join(names, " "))),
            st.dimensionStack + DimTexts(dims, st.constants))));
    var c0 := s1.(stdintDeclarations := RecordStdint(st.stdintDeclarations, names), dimensionStack := []);
    VisitArrayOfNamedType(s1.(declStack := s1.declStack + [[]]), dims, declname, names);
    assert WrapArrays(|dims| - 1, Array(Node(Pxd.IdentifierType(OrEmpty(declname), Join(names, " "))),
      st.dimensionStack + DimTexts(dims, st.constants))).Array?;
    CollectOne(s1, n, c0, item);
    assert HandleF(s1, n) == AppendF(c0, item);
    VisitStep(st, n, AppendF(c0, item).value);
  }

  /** With no dimensions pending, a two-dimensional member `T x[a][b]`
      renders as `T x[a][b]`: the outer node forwards name and type to the
      inner one, which carries both dimensions. */
  lemma {:induction false} TwoDimensionalLines(declname: string, typeName: string, a: string, b: string)
    requires declname != ""
    ensures Lines(Node(WrapArrays(1, Array(Node(Pxd.IdentifierType(declname, typeName)), [a, b])))) ==
      Ok([typeName + " " + declname + "[" + a + "][" + b + "]"])
  {
    var inner := Node(Array(Node(Pxd.IdentifierType(declname, typeName)), [a, b]));
    assert [a, b][1..] == [b];
    assert Join([a, b], "][") == a + "][" + b;
    assert declname + "[" + Join([a, b], "][") + "]" == declname + "[" + a + "][" + b + "]";
    assert NameAttr(inner) == Ok(Some(declname + "[" + a + "][" + b + "]"));
    assert TypeNameAttr(inner) == Ok(typeName);
    assert WrapArrays(0, inner.node) == inner.node;
    var outer := Node(WrapArrays(1, inner.node));
    assert outer == Node(Array(inner, []));
    assert NameAttr(outer) == NameAttr(inner);
    assert TypeNameAttr(outer) == TypeNameAttr(inner);
    var full := declname + "[" + a + "][" + b + "]";
    assert Lines(outer) == Ok(IdentLines(Some(full), typeName));
    assert typeName + " " + full == typeName + " " + declname + "[" + a + "][" + b + "]";
  }
}
