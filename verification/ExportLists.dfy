/** The export block of a normal form, told from the elements of the export lists: which specifier
    stands there how often, what may move between the lists without a trace, and what may not. */
module ExportLists {
  import opened Wrappers
  import opened Texts
  import opened Selections
  import opened ExportRecords
  import opened ApiSurface

  // ---- Reading the block off a normal form ----

  /** The lines below the last `exports:` line. */
  function BelowLast(lines: seq<Text>, marker: Text): seq<Text> {
    if lines == [] || lines[|lines| - 1] == marker then []
    else BelowLast(lines[..|lines| - 1], marker) + [lines[|lines| - 1]]
  }

  function ExportLines(normal: Text): seq<Text> {
    BelowLast(Split(normal), EXPORTS)
  }

  lemma {:induction false} BelowMarker(h: seq<Text>, marker: Text, b: seq<Text>)
    requires marker !in b
    ensures BelowLast(h + [marker] + b, marker) == b
    decreases |b|
  {
    var lines := h + [marker] + b;
    if b == [] {
      assert lines == h + [marker];
    } else {
      assert lines[..|lines| - 1] == h + [marker] + b[..|b| - 1];
      assert lines[|lines| - 1] == b[|b| - 1];
      BelowMarker(h, marker, b[..|b| - 1]);
    }
  }

  lemma LinesOfBlock(f: File)
    ensures ExportLines(NormalText(f)) == Split(Block(Exports(f.statements))) + [[]]
  {
    NormalLines(f);
    NoMarkerInBlock(Exports(f.statements));
    BelowMarker(Split(Header(f)), EXPORTS, BlockTail(Exports(f.statements)));
  }

  lemma CountOfBlock(es: seq<Export>, e: Export)
    ensures multiset(Split(Block(es)) + [[]])[Record(e)] == multiset(es)[e]
  {
    BlockLines(es);
    SortedIsSorting(Records(es));
    RecordCounts(es, e);
    RecordIsOneLine(e);
    SnocCount(Split(Block(es)), [], Record(e));
    if es == [] {
      assert Split(Block(es)) == [[]];
      SnocCount([], [], Record(e));
    }
  }

  // ---- Which specifiers it holds ----

  /** Element `j` of statement `i` exports `local` as `exported`, as a type only or not. */
  predicate ExportsAt(sts: seq<Statement>, i: int, j: int, typeOnly: bool, local: Text, exported: Text) {
    && 0 <= i < |sts| && sts[i].LocalExport? && 0 <= j < |sts[i].elements|
    && var e := sts[i].elements[j];
       && typeOnly == (sts[i].typeOnly || e.typeOnly)
       && (if e.propertyName.Some? then local == e.propertyName.value else local == e.name)
       && exported == e.name
  }

  ghost function Places(sts: seq<Statement>, typeOnly: bool, local: Text, exported: Text): set<(int, int)> {
    set i: int, j: int | 0 <= i < |sts| && 0 <= j < (if sts[i].LocalExport? then |sts[i].elements| else 0)
                         && ExportsAt(sts, i, j, typeOnly, local, exported) :: (i, j)
  }

  /** The places in the last statement alone. */
  ghost function Row(n: int, sts: seq<Statement>, count: nat, typeOnly: bool, local: Text, exported: Text):
    set<(int, int)>
  {
    set j: int | 0 <= j < count && ExportsAt(sts, n, j, typeOnly, local, exported) :: (n, j)
  }

  lemma ExportedAs(sts: seq<Statement>, n: int, j: int, typeOnly: bool, local: Text, exported: Text)
    requires 0 <= n < |sts| && sts[n].LocalExport? && 0 <= j < |sts[n].elements|
    ensures ExportsAt(sts, n, j, typeOnly, local, exported) <==>
              ExportOf(sts[n].typeOnly, sts[n].elements[j]) == Export(typeOnly, local, exported)
  {
  }

  lemma RowGrows(n: int, sts: seq<Statement>, k: nat, typeOnly: bool, local: Text, exported: Text)
    ensures var rest := Row(n, sts, k, typeOnly, local, exported);
            |Row(n, sts, k + 1, typeOnly, local, exported)|
            == |rest| + if ExportsAt(sts, n, k, typeOnly, local, exported) then 1 else 0
  {
    var rest := Row(n, sts, k, typeOnly, local, exported);
    assert (n, k) !in rest;
    assert Row(n, sts, k + 1, typeOnly, local, exported)
        == if ExportsAt(sts, n, k, typeOnly, local, exported) then rest + {(n, k)} else rest;
  }

  /** How often the first `k` elements of a list export `e`. */
  function Listed(typeOnly: bool, elements: seq<Element>, k: nat, e: Export): nat
    requires k <= |elements|
  {
    multiset(ListExports(typeOnly, elements[..k]))[e]
  }

  lemma ListGrows(typeOnly: bool, elements: seq<Element>, k: nat, e: Export)
    requires k < |elements|
    ensures Listed(typeOnly, elements, k + 1, e)
         == Listed(typeOnly, elements, k, e) + if ExportOf(typeOnly, elements[k]) == e then 1 else 0
  {
    assert elements[..k + 1][..k] == elements[..k];
    SnocCount(ListExports(typeOnly, elements[..k]), ExportOf(typeOnly, elements[k]), e);
  }

  lemma RowStep(n: int, sts: seq<Statement>, k: nat, e: Export)
    requires 0 <= n < |sts| && sts[n].LocalExport? && k < |sts[n].elements|
    ensures |Row(n, sts, k + 1, e.typeOnly, e.local, e.exported)| - |Row(n, sts, k, e.typeOnly, e.local, e.exported)|
         == Listed(sts[n].typeOnly, sts[n].elements, k + 1, e) - Listed(sts[n].typeOnly, sts[n].elements, k, e)
  {
    RowGrows(n, sts, k, e.typeOnly, e.local, e.exported);
    ExportedAs(sts, n, k, e.typeOnly, e.local, e.exported);
    ListGrows(sts[n].typeOnly, sts[n].elements, k, e);
  }

  lemma {:induction false} RowCounts(n: int, sts: seq<Statement>, k: nat, e: Export)
    requires 0 <= n < |sts| && sts[n].LocalExport? && k <= |sts[n].elements|
    ensures |Row(n, sts, k, e.typeOnly, e.local, e.exported)| == Listed(sts[n].typeOnly, sts[n].elements, k, e)
    decreases k
  {
    if k == 0 {
      assert Row(n, sts, 0, e.typeOnly, e.local, e.exported) == {};
      assert sts[n].elements[..0] == [];
    } else {
      RowCounts(n, sts, k - 1, e);
      RowStep(n, sts, k - 1, e);
    }
  }

  lemma PlacesOfLast(sts: seq<Statement>, typeOnly: bool, local: Text, exported: Text)
    requires sts != []
    ensures var n := |sts| - 1;
            var front := Places(sts[..n], typeOnly, local, exported);
            var row := if sts[n].LocalExport? then Row(n, sts, |sts[n].elements|, typeOnly, local, exported) else {};
            Places(sts, typeOnly, local, exported) == front + row && front !! row
  {
    var n := |sts| - 1;
    forall i, j ensures ExportsAt(sts[..n], i, j, typeOnly, local, exported)
                   <==> i < n && ExportsAt(sts, i, j, typeOnly, local, exported) {
    }
  }

  lemma {:induction false} PlacesCount(sts: seq<Statement>, typeOnly: bool, local: Text, exported: Text)
    ensures |Places(sts, typeOnly, local, exported)| == multiset(Exports(sts))[Export(typeOnly, local, exported)]
  {
    if sts == [] {
      assert Places(sts, typeOnly, local, exported) == {};
    } else {
      var n := |sts| - 1;
      PlacesCount(sts[..n], typeOnly, local, exported);
      PlacesOfLast(sts, typeOnly, local, exported);
      if sts[n].LocalExport? {
        RowCounts(n, sts, |sts[n].elements|, Export(typeOnly, local, exported));
        assert sts[n].elements[..|sts[n].elements|] == sts[n].elements;
      }
    }
  }

  /** Below the `exports:` line of a normal form, a specifier stands exactly as often as there are
      elements in the export lists that mean it: type-only if its list or it itself is, under the
      name it had before `as`, or else its own. */
  lemma SpecifierStandsAt(f: File, typeOnly: bool, local: Text, exported: Text)
    ensures multiset(ExportLines(NormalText(f)))[Record(Export(typeOnly, local, exported))]
         == |Places(f.statements, typeOnly, local, exported)|
  {
    LinesOfBlock(f);
    CountOfBlock(Exports(f.statements), Export(typeOnly, local, exported));
    PlacesCount(f.statements, typeOnly, local, exported);
  }

  // ---- What the normal form does not see, and what it does ----

  /** The file with statement `i` replaced. */
  function With(f: File, i: nat, st: Statement): File
    requires i < |f.statements|
  {
    f.(statements := f.statements[i := st])
  }

  lemma {:induction false} SameExports(sts: seq<Statement>, i: nat, st: Statement)
    requires i < |sts| && sts[i].LocalExport? && st.LocalExport? && ExportsOf(st) == ExportsOf(sts[i])
    ensures Exports(sts[i := st]) == Exports(sts) && Kept(sts[i := st]) == Kept(sts)
  {
    var n, sts' := |sts| - 1, sts[i := st];
    if i < n {
      assert sts'[..n] == sts[..n][i := st];
      SameExports(sts[..n], i, st);
    } else {
      assert sts'[..n] == sts[..n];
    }
  }

  function AllTypeOnly(elements: seq<Element>): seq<Element> {
    seq(|elements|, j requires 0 <= j < |elements| => elements[j].(typeOnly := true))
  }

  lemma {:induction false} TypeOnEach(elements: seq<Element>)
    ensures ListExports(false, AllTypeOnly(elements)) == ListExports(true, elements)
  {
    if elements != [] {
      var n := |elements| - 1;
      TypeOnEach(elements[..n]);
      assert AllTypeOnly(elements)[..n] == AllTypeOnly(elements[..n]);
    }
  }

  /** `export type { a, b }` and `export { type a, type b }` print alike. */
  lemma TypeMovesInward(f: File, i: nat)
    requires i < |f.statements| && f.statements[i].LocalExport? && f.statements[i].typeOnly
    ensures NormalText(With(f, i, LocalExport(false, AllTypeOnly(f.statements[i].elements)))) == NormalText(f)
  {
    var elements := f.statements[i].elements;
    TypeOnEach(elements);
    SameExports(f.statements, i, LocalExport(false, AllTypeOnly(elements)));
  }

  /** `x as x` and `x` print alike. */
  lemma OwnNameIsNoName(f: File, i: nat, j: nat)
    requires i < |f.statements| && f.statements[i].LocalExport? && j < |f.statements[i].elements|
    requires f.statements[i].elements[j].propertyName == Some(f.statements[i].elements[j].name)
    ensures var st := f.statements[i];
            var short := st.elements[j := st.elements[j].(propertyName := None)];
            NormalText(With(f, i, st.(elements := short))) == NormalText(f)
  {
    var st := f.statements[i];
    var short := st.elements[j := st.elements[j].(propertyName := None)];
    SameElements(st.typeOnly, st.elements, short);
    SameExports(f.statements, i, st.(elements := short));
  }

  lemma {:induction false} SameElements(typeOnly: bool, xs: seq<Element>, ys: seq<Element>)
    requires |xs| == |ys| && forall j :: 0 <= j < |xs| ==> ExportOf(typeOnly, xs[j]) == ExportOf(typeOnly, ys[j])
    ensures ListExports(typeOnly, xs) == ListExports(typeOnly, ys)
  {
    if xs != [] {
      SameElements(typeOnly, xs[..|xs| - 1], ys[..|ys| - 1]);
    }
  }

  /** The list without its own `type`. */
  function Untyped(f: File, i: nat): File
    requires i < |f.statements| && f.statements[i].LocalExport?
  {
    With(f, i, f.statements[i].(typeOnly := false))
  }

  lemma FewerPlaces(f: File, i: nat, j: nat)
    requires i < |f.statements| && f.statements[i].LocalExport? && f.statements[i].typeOnly
    requires j < |f.statements[i].elements| && !f.statements[i].elements[j].typeOnly
    ensures var e := f.statements[i].elements[j];
            var local := if e.propertyName.Some? then e.propertyName.value else e.name;
            |Places(Untyped(f, i).statements, true, local, e.name)| < |Places(f.statements, true, local, e.name)|
  {
    var e := f.statements[i].elements[j];
    var local := if e.propertyName.Some? then e.propertyName.value else e.name;
    var fewer := Places(Untyped(f, i).statements, true, local, e.name);
    var places := Places(f.statements, true, local, e.name);
    assert ExportsAt(f.statements, i, j, true, local, e.name);
    assert (i as int, j as int) in places && (i as int, j as int) !in fewer;
    forall p | p in fewer ensures p in places {
      assert ExportsAt(Untyped(f, i).statements, p.0, p.1, true, local, e.name);
      assert ExportsAt(f.statements, p.0, p.1, true, local, e.name);
    }
    Smaller(fewer, places, (i as int, j as int));
  }

  lemma Smaller<T>(x: set<T>, y: set<T>, e: T)
    requires x <= y && e in y && e !in x
    ensures |x| < |y|
  {
    SubsetSize(x, y - {e});
  }

  lemma {:induction false} SubsetSize<T>(x: set<T>, y: set<T>)
    requires x <= y
    ensures |x| <= |y|
  {
    if x != {} {
      var e :| e in x;
      SubsetSize(x - {e}, y - {e});
    }
  }

  /** Dropping `type` from a list goes unseen exactly if every element of the list is type-only by
      itself. Otherwise, and so whenever a name becomes a value or stops being one, the normal
      forms differ. */
  lemma TypeDropIsSeenIff(f: File, i: nat)
    requires i < |f.statements| && f.statements[i].LocalExport? && f.statements[i].typeOnly
    ensures NormalText(Untyped(f, i)) == NormalText(f) <==>
              forall j :: 0 <= j < |f.statements[i].elements| ==> f.statements[i].elements[j].typeOnly
  {
    var st := f.statements[i];
    if j :| 0 <= j < |st.elements| && !st.elements[j].typeOnly {
      var e := st.elements[j];
      var local := if e.propertyName.Some? then e.propertyName.value else e.name;
      FewerPlaces(f, i, j);
      SpecifierStandsAt(f, true, local, e.name);
      SpecifierStandsAt(Untyped(f, i), true, local, e.name);
    } else {
      TypedAnyway(st.elements);
      SameExports(f.statements, i, st.(typeOnly := false));
    }
  }

  lemma {:induction false} TypedAnyway(elements: seq<Element>)
    requires forall j :: 0 <= j < |elements| ==> elements[j].typeOnly
    ensures ListExports(false, elements) == ListExports(true, elements)
  {
    if elements != [] {
      TypedAnyway(elements[..|elements| - 1]);
    }
  }

  // ---- The other statements ----

  predicate IsOther(st: Statement) {
    st.Other?
  }

  lemma {:induction false} KeptAtIndices(sts: seq<Statement>)
    ensures |Kept(sts)| == |Indices(IsOther, sts)|
    ensures forall k :: 0 <= k < |Kept(sts)| ==>
              Indices(IsOther, sts)[k] < |sts| && Kept(sts)[k] == sts[Indices(IsOther, sts)[k]]
  {
    if sts != [] {
      KeptAtIndices(sts[..|sts| - 1]);
    }
  }

  /** Every statement that is no export list is kept, once and in source order. */
  lemma KeptAreOthers(sts: seq<Statement>) returns (at: seq<nat>)
    ensures SelectedAt(IsOther, sts, at) && |Kept(sts)| == |at|
    ensures forall k :: 0 <= k < |at| ==> at[k] < |sts| && Kept(sts)[k] == sts[at[k]]
  {
    at := Indices(IsOther, sts);
    KeptAtIndices(sts);
    IndicesSelect(IsOther, sts);
  }
}
