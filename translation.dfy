/** The two entry points around the visitor: the declaration filter of
    `parse` (autopxd/__init__.py:396-401) and `translate` once the source has
    been preprocessed and parsed (autopxd/__init__.py:417-423). */
module Translation {
  import opened Results
  import opened PyStr
  import opened CAst
  import opened Declarations
  import opened VisitorSpec
  import opened AutoPxdImpl
  import opened PxdLemmas
  import opened VisitorLemmas
  import opened StdintLemmas

  method FilterDeclarations(ext: seq<External>, whitelist: seq<string>) returns (decls: seq<Node>)
    ensures decls == FilterF(ext, whitelist)
  {
    decls := [];
    var i := 0;
    while i < |ext|
      invariant 0 <= i <= |ext|
      invariant decls == FilterF(ext[..i], whitelist)
    {
      assert ext[..i + 1][..i] == ext[..i];
      var e := ext[i];
      var nm := NameAttribute(e.decl);
      if nm.Some? && (nm.value.None? || nm.value.value !in IGNORE_DECLARATIONS) {
        if |whitelist| == 0 || e.file in whitelist {
          decls := decls + [e.decl];
        }
      }
      i := i + 1;
    }
    assert ext[..|ext|] == ext;
  }

  method Translate(hdrname: string, ext: seq<External>, whitelist: seq<string>) returns (r: Result<string>)
    ensures r == TranslateF(hdrname, ext, whitelist)
  {
    var decls := FilterDeclarations(ext, whitelist);
    var p := new AutoPxd(hdrname);
    var _ :- p.Visit(FileAST(decls));
    ghost var st := p.Snapshot();
    assert VisitF(Initial, FileAST(decls)) == Ok(st);
    var ls :- p.Lines();
    assert AutoPxdLinesF(hdrname, st.declStack) == Ok(ls);
    var pxd := "";
    if |p.stdintDeclarations| > 0 {
      pxd := pxd + "from libc.stdint cimport " + Join(p.stdintDeclarations, ", ") + "\n\n";
    }
    assert pxd == StdintPrefix(st.stdintDeclarations);
    pxd := pxd + Join(ls, "\n");
    return Ok(pxd);
  }

  /** Filtering a concatenation filters each part: the filter keeps the
      declarations it accepts in their original order. */
  lemma {:induction false} FilterAppend(a: seq<External>, b: seq<External>, whitelist: seq<string>)
    ensures FilterF(a + b, whitelist) == FilterF(a, whitelist) + FilterF(b, whitelist)
    decreases |b|
  {
    if b == [] {
      assert a + b == a;
    } else {
      assert DropLast(a + b) == a + DropLast(b);
      FilterAppend(a, DropLast(b), whitelist);
    }
  }

  /** A declaration survives exactly when some external declaration carrying
      it is accepted by `Keep`. */
  lemma {:induction false} FilterMembers(ext: seq<External>, whitelist: seq<string>, d: Node)
    ensures d in FilterF(ext, whitelist) <==>
      exists i :: 0 <= i < |ext| && Keep(ext[i], whitelist) && ext[i].decl == d
  {
    if ext != [] {
      FilterMembers(DropLast(ext), whitelist, d);
      if d in FilterF(DropLast(ext), whitelist) {
        var i :| 0 <= i < |DropLast(ext)| && Keep(DropLast(ext)[i], whitelist) && DropLast(ext)[i].decl == d;
        assert ext[i] == DropLast(ext)[i];
      }
      if exists i :: 0 <= i < |ext| && Keep(ext[i], whitelist) && ext[i].decl == d {
        var i :| 0 <= i < |ext| && Keep(ext[i], whitelist) && ext[i].decl == d;
        if i < |ext| - 1 {
          assert DropLast(ext)[i] == ext[i];
        }
      }
    }
  }

  lemma JoinStartsWithFirst(parts: seq<string>, sep: string)
    requires |parts| > 0
    ensures parts[0] <= Join(parts, sep)
  {
  }

  /** `translate` never trips a stack assertion, and after a successful
      walk the visitor is back at the root with the single top-level list, no
      array dimension pending, and the fixed-width names of the kept
      declarations' types recorded once each, in first-use order. */
  lemma {:induction false} TranslateWalk(hdrname: string, ext: seq<External>, whitelist: seq<string>)
    ensures TranslateF(hdrname, ext, whitelist) != Err(StackAssertion)
    ensures var st := VisitF(Initial, FileAST(FilterF(ext, whitelist)));
      st.Ok? ==>
        && st.value.visitStack == []
        && |st.value.declStack| == 1
        && st.value.dimensionStack == []
        && StdintWellFormed(st.value.stdintDeclarations)
        && st.value.stdintDeclarations == RecordStdint([], TypeWords(FileAST(FilterF(ext, whitelist))))
  {
    var st := VisitF(Initial, FileAST(FilterF(ext, whitelist)));
    VisitDisciplined(Initial, FileAST(FilterF(ext, whitelist)));
    VisitRecords(Initial, FileAST(FilterF(ext, whitelist)));
    if st.Ok? {
      DeclLinesShape(st.value.declStack[0]);
    }
  }

  /** Rendered lines after the import prefix: the import is there exactly
      when names were recorded, and the header follows it. */
  lemma {:induction false} PrefixedLines(imports: seq<string>, ls: seq<string>, hdrname: string)
    requires |ls| > 0 && ls[0] == "cdef extern from \"" + hdrname + "\":"
    ensures var out := StdintPrefix(imports) + Join(ls, "\n");
      && StdintPrefix(imports) + ls[0] <= out
      && (("from libc.stdint cimport " <= out) <==> |imports| > 0)
  {
    JoinStartsWithFirst(ls, "\n");
    var out := StdintPrefix(imports) + Join(ls, "\n");
    if |imports| == 0 {
      assert out[0] == 'c';
    }
  }

  /** A successful `translate` is the import prefix of the names the walk
      recorded, then the rendered lines, the header first. */
  lemma {:induction false} TranslateParts(hdrname: string, tree: Node, out: string) returns (ls: seq<string>)
    requires (var st :- VisitF(Initial, tree);
              var ls :- AutoPxdLinesF(hdrname, st.declStack);
              Ok(StdintPrefix(st.stdintDeclarations) + Join(ls, "\n"))) == Ok(out)
    ensures VisitF(Initial, tree).Ok?
    ensures |ls| > 0 && ls[0] == "cdef extern from \"" + hdrname + "\":"
    ensures out == StdintPrefix(VisitF(Initial, tree).value.stdintDeclarations) + Join(ls, "\n")
  {
    var st := VisitF(Initial, tree).value;
    ls := AutoPxdLinesF(hdrname, st.declStack).value;
  }

  /** The output opens with the import of the fixed-width names among the
      kept declarations' type words, recorded from the words in order, then
      the `cdef extern` header; the import is there exactly when some kept
      declaration uses a fixed-width name. */
  lemma {:induction false} TranslateOutput(hdrname: string, ext: seq<External>, whitelist: seq<string>)
    ensures var words := TypeWords(FileAST(FilterF(ext, whitelist)));
      var out := TranslateF(hdrname, ext, whitelist);
      out.Ok? ==>
        && StdintPrefix(RecordStdint([], words)) + "cdef extern from \"" + hdrname + "\":" <= out.value
        && (("from libc.stdint cimport " <= out.value) <==> UsesFixedWidth(words))
  {
    var tree := FileAST(FilterF(ext, whitelist));
    var words := TypeWords(tree);
    var r := TranslateF(hdrname, ext, whitelist);
    if r.Ok? {
      var ls := TranslateParts(hdrname, tree, r.value);
      VisitRecords(Initial, tree);
      var imports := RecordStdint([], words);
      assert VisitF(Initial, tree).value.stdintDeclarations == imports;
      PrefixedLines(imports, ls, hdrname);
      StdintImportNeeded(words);
    }
  }
}
