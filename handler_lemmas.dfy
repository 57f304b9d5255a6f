/** Properties of the individual `visit_*` handlers
    (autopxd/__init__.py:207-338): how enumerators are numbered, what
    `path_name` collects, and what the handlers produce for the declaration
    shapes they exist for. */
module HandlerLemmas {
  import opened Results
  import opened PyStr
  import opened CAst
  import opened Pxd
  import opened VisitorSpec

  // ---------------------------------------------------------------------
  // Enumerator numbering (autopxd/__init__.py:238-248)

  /** An enumerator written with a literal value (`A = 5`). */
  predicate HasLiteral(e: Enumerator) {
    e.value.Some? && e.value.value.Constant?
  }

  /** Every literal value reads as a decimal integer. */
  predicate AllDecimal(es: seq<Enumerator>) {
    forall i :: 0 <= i < |es| && HasLiteral(es[i]) ==> ParseInt(es[i].value.value.value).Ok?
  }

  /** The value of the `i`-th enumerator, by position: its own literal, else
      one more than the value before it, where the value before the first is
      `counter`. */
  function ValueAt(es: seq<Enumerator>, counter: nat, i: nat): nat
    requires i < |es| && AllDecimal(es)
    decreases i
  {
    var before := if i == 0 then counter else ValueAt(es, counter, i - 1);
    if HasLiteral(es[i]) then ParseInt(es[i].value.value.value).value else before + 1
  }

  /** Dropping the first enumerator and starting from its value shifts
      every position by one. */
  lemma {:induction false} ValueAtTail(es: seq<Enumerator>, counter: nat, i: nat)
    requires i + 1 < |es| && AllDecimal(es)
    ensures AllDecimal(es[1..])
    ensures ValueAt(es[1..], ValueAt(es, counter, 0), i) == ValueAt(es, counter, i + 1)
    decreases i
  {
    assert AllDecimal(es[1..]) by {
      forall j | 0 <= j < |es[1..]| && HasLiteral(es[1..][j])
        ensures ParseInt(es[1..][j].value.value.value).Ok?
      {
        assert es[1..][j] == es[j + 1];
      }
    }
    if i > 0 {
      ValueAtTail(es, counter, i - 1);
    }
  }

  /** Numbering succeeds exactly when every literal is decimal. */
  lemma {:induction false} NumberEnumeratorsOk(es: seq<Enumerator>, counter: nat, consts: map<string, nat>)
    ensures NumberEnumerators(es, counter, consts).Ok? <==> AllDecimal(es)
    decreases es
  {
    if es != [] {
      var v := EnumeratorValue(es[0], counter);
      if v.Ok? {
        NumberEnumeratorsOk(es[1..], v.value, consts[es[0].name := v.value]);
        if AllDecimal(es[1..]) {
          forall i | 0 <= i < |es| && HasLiteral(es[i])
            ensures ParseInt(es[i].value.value.value).Ok?
          {
            if i > 0 {
              assert es[i] == es[1..][i - 1];
            }
          }
        } else {
          var j :| 0 <= j < |es[1..]| && HasLiteral(es[1..][j]) && !ParseInt(es[1..][j].value.value.value).Ok?;
          assert es[j + 1] == es[1..][j];
        }
      }
    }
  }

  /** The first step of a successful numbering, spelled out. */
  lemma NumberFirst(es: seq<Enumerator>, counter: nat, consts: map<string, nat>)
    requires es != [] && AllDecimal(es)
    ensures AllDecimal(es[1..])
    ensures NumberEnumerators(es, counter, consts).Ok?
    ensures NumberEnumerators(es[1..], ValueAt(es, counter, 0), consts[es[0].name := ValueAt(es, counter, 0)]).Ok?
    ensures var rest := NumberEnumerators(es[1..], ValueAt(es, counter, 0), consts[es[0].name := ValueAt(es, counter, 0)]).value;
      NumberEnumerators(es, counter, consts).value == ([es[0].name] + rest.0, rest.1)
  {
    NumberEnumeratorsOk(es, counter, consts);
    var v := ValueAt(es, counter, 0);
    assert EnumeratorValue(es[0], counter) == Ok(v);
    if |es| > 1 {
      ValueAtTail(es, counter, 0);
    } else {
      assert AllDecimal(es[1..]);
    }
    NumberEnumeratorsOk(es[1..], v, consts[es[0].name := v]);
  }

  /** On success the names come out in declaration order. */
  lemma {:induction false} NumberEnumeratorsNames(es: seq<Enumerator>, counter: nat, consts: map<string, nat>)
    requires AllDecimal(es)
    ensures NumberEnumerators(es, counter, consts).Ok?
    ensures var r := NumberEnumerators(es, counter, consts).value;
      |r.0| == |es| && forall i :: 0 <= i < |es| ==> r.0[i] == es[i].name
    decreases es
  {
    NumberEnumeratorsOk(es, counter, consts);
    if es != [] {
      NumberFirst(es, counter, consts);
      var v := ValueAt(es, counter, 0);
      NumberEnumeratorsNames(es[1..], v, consts[es[0].name := v]);
    }
  }

  /** Each name takes the value of its last occurrence. */
  lemma {:induction false} NumberEnumeratorsValues(es: seq<Enumerator>, counter: nat, consts: map<string, nat>, i: nat)
    requires AllDecimal(es)
    requires i < |es|
    requires forall j :: i < j < |es| ==> es[j].name != es[i].name
    ensures NumberEnumerators(es, counter, consts).Ok?
    ensures var r := NumberEnumerators(es, counter, consts).value;
      es[i].name in r.1 && r.1[es[i].name] == ValueAt(es, counter, i)
    decreases es
  {
    NumberFirst(es, counter, consts);
    var v := ValueAt(es, counter, 0);
    var consts1 := consts[es[0].name := v];
    if i > 0 {
      assert es[i] == es[1..][i - 1];
      forall j | i - 1 < j < |es[1..]|
        ensures es[1..][j].name != es[1..][i - 1].name
      {
        assert es[1..][j] == es[j + 1];
      }
      ValueAtTail(es, counter, i - 1);
      NumberEnumeratorsValues(es[1..], v, consts1, i - 1);
    } else {
      NumberEnumeratorsKeeps(es[1..], v, consts1, es[0].name);
    }
  }

  /** A constant none of the enumerators names keeps its value. */
  lemma {:induction false} NumberEnumeratorsKeeps(es: seq<Enumerator>, counter: nat, consts: map<string, nat>, x: string)
    requires AllDecimal(es)
    requires x in consts
    requires forall i :: 0 <= i < |es| ==> es[i].name != x
    ensures NumberEnumerators(es, counter, consts).Ok?
    ensures var r := NumberEnumerators(es, counter, consts).value;
      x in r.1 && r.1[x] == consts[x]
    decreases es
  {
    NumberEnumeratorsOk(es, counter, consts);
    if es != [] {
      NumberFirst(es, counter, consts);
      var v := ValueAt(es, counter, 0);
      forall i | 0 <= i < |es[1..]|
        ensures es[1..][i].name != x
      {
        assert es[1..][i] == es[i + 1];
      }
      assert es[0].name != x;
      NumberEnumeratorsKeeps(es[1..], v, consts[es[0].name := v], x);
    }
  }

  /** With no literal values the enumerators count up from 1, not from 0:
      the first is 1, the next 2, and so on. */
  lemma {:induction false} ImplicitValuesFromOne(es: seq<Enumerator>, i: nat)
    requires i < |es|
    requires forall j :: 0 <= j < |es| ==> !HasLiteral(es[j])
    ensures AllDecimal(es)
    ensures ValueAt(es, 0, i) == i + 1
    decreases i
  {
    if i > 0 {
      ImplicitValuesFromOne(es, i - 1);
    }
  }

  /** After a literal, counting resumes from it: `A = 5, B` gives `B` the value 6. */
  lemma AfterLiteral(es: seq<Enumerator>, counter: nat, i: nat)
    requires i + 1 < |es| && AllDecimal(es)
    requires HasLiteral(es[i]) && !HasLiteral(es[i + 1])
    ensures ValueAt(es, counter, i + 1) == ParseInt(es[i].value.value.value).value + 1
  {
  }

  // ---------------------------------------------------------------------
  // path_name (autopxd/__init__.py:347-357)

  /** The names of a run of ancestors are the names of each part, in order. */
  lemma {:induction false} PathNamesAppend(a: seq<Node>, b: seq<Node>)
    ensures PathNames(a + b) == PathNames(a) + PathNames(b)
    decreases |b|
  {
    if b == [] {
      assert a + b == a;
    } else {
      assert DropLast(a + b) == a + DropLast(b);
      assert Last(a + b) == Last(b);
      PathNamesAppend(a, DropLast(b));
    }
  }

  /** Every name collected is the non-empty `declname` or `name` of some
      ancestor, and no ancestor gives more than one. */
  lemma {:induction false} PathNamesFromAncestors(vs: seq<Node>)
    ensures |PathNames(vs)| <= |vs|
    ensures forall i :: 0 <= i < |PathNames(vs)| ==>
      (PathNames(vs)[i] != "" && exists j :: 0 <= j < |vs| && PathSegment(vs[j]) == Some(PathNames(vs)[i]))
  {
    if vs != [] {
      PathNamesFromAncestors(DropLast(vs));
      var names := PathNames(vs);
      var front := PathNames(DropLast(vs));
      forall i | 0 <= i < |names|
        ensures names[i] != "" && exists j :: 0 <= j < |vs| && PathSegment(vs[j]) == Some(names[i])
      {
        if i < |front| {
          var j :| 0 <= j < |DropLast(vs)| && PathSegment(DropLast(vs)[j]) == Some(front[i]);
          assert vs[j] == DropLast(vs)[j];
          assert names[i] == front[i];
        } else {
          assert PathSegment(vs[|vs| - 1]) == Some(names[i]);
        }
      }
    }
  }

  /** The node being visited and its parent never contribute to the name:
      whatever they are, the name is made from the ancestors above them. */
  lemma PathNameSkipsNodeAndParent(ancestors: seq<Node>, parent: Node, node: Node, tag: Option<string>)
    ensures PathNameF(ancestors + [parent, node], tag) ==
      (if tag.None? then Join(PathNames(ancestors), "_")
       else "_" + Join(PathNames(ancestors), "_") + "_" + tag.value)
  {
    assert (ancestors + [parent, node])[..|ancestors|] == ancestors;
  }
}
