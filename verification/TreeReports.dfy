/** What a report about two trees says, entry by entry: which files it lists, on which side a lone
    file stands, what its diff means and which names it gives. */
module TreeReports {
  import opened Wrappers
  import opened Texts
  import opened Selections
  import opened ExportRecords
  import opened ApiSurface
  import opened ExportLists
  import opened ChangedNames
  import LineDiff

  // ---- What is filed under which name ----

  /** A text filed for statement `i`: its print under its readable name, or the record of one of its
      specifiers under `export ` and the name it exports. */
  ghost predicate FiledFor(sts: seq<Statement>, i: int, x: Filed) {
    && 0 <= i < |sts|
    && match sts[i]
       case Other(name, body) => x == Filed(name, body)
       case LocalExport(_, elements) =>
         exists j, typeOnly, local, exported ::
           && ExportsAt(sts, i, j, typeOnly, local, exported)
           && x == Filed(EXPORT + exported, Record(Export(typeOnly, local, exported)))
  }

  ghost predicate FiledSomewhere(sts: seq<Statement>, x: Filed) {
    exists i :: FiledFor(sts, i, x)
  }

  lemma {:induction false} FiledExportsIff(es: seq<Export>, x: Filed)
    ensures x in FiledExports(es) <==> exists e :: e in es && x == Filed(EXPORT + e.exported, Record(e))
  {
    if es != [] {
      var front, last := es[..|es| - 1], es[|es| - 1];
      FiledExportsIff(front, x);
      assert es == front + [last];
      if x == Filed(EXPORT + last.exported, Record(last)) {
        assert last in es;
      }
      if e :| e in front && x == Filed(EXPORT + e.exported, Record(e)) {
        assert e in es;
      }
    }
  }

  lemma {:induction false} ListedIff(typeOnly: bool, elements: seq<Element>, e: Export)
    ensures e in ListExports(typeOnly, elements) <==>
              exists j :: 0 <= j < |elements| && ExportOf(typeOnly, elements[j]) == e
  {
    if elements != [] {
      var n := |elements| - 1;
      ListedIff(typeOnly, elements[..n], e);
      if j :| 0 <= j < n && ExportOf(typeOnly, elements[..n][j]) == e {
        assert ExportOf(typeOnly, elements[j]) == e;
      }
      if j :| 0 <= j < |elements| && ExportOf(typeOnly, elements[j]) == e {
        assert j < n ==> ExportOf(typeOnly, elements[..n][j]) == e;
      }
    }
  }

  lemma FiledIsExported(sts: seq<Statement>, i: int, x: Filed, e: Export)
    requires 0 <= i < |sts| && sts[i].LocalExport?
    requires e in ExportsOf(sts[i]) && x == Filed(EXPORT + e.exported, Record(e))
    ensures FiledFor(sts, i, x)
  {
    ListedIff(sts[i].typeOnly, sts[i].elements, e);
    var j :| 0 <= j < |sts[i].elements| && ExportOf(sts[i].typeOnly, sts[i].elements[j]) == e;
    ExportedAs(sts, i, j, e.typeOnly, e.local, e.exported);
    assert ExportsAt(sts, i, j, e.typeOnly, e.local, e.exported);
  }

  lemma ExportedIsFiled(sts: seq<Statement>, i: int, j: int, e: Export)
    requires 0 <= i < |sts| && ExportsAt(sts, i, j, e.typeOnly, e.local, e.exported)
    ensures e in ExportsOf(sts[i])
  {
    ListedIff(sts[i].typeOnly, sts[i].elements, e);
    ExportedAs(sts, i, j, e.typeOnly, e.local, e.exported);
  }

  lemma FiledOfIff(sts: seq<Statement>, i: int, x: Filed)
    requires 0 <= i < |sts|
    ensures x in FiledOf(sts[i]) <==> FiledFor(sts, i, x)
  {
    if sts[i].LocalExport? {
      FiledExportsIff(ExportsOf(sts[i]), x);
      if e :| e in ExportsOf(sts[i]) && x == Filed(EXPORT + e.exported, Record(e)) {
        FiledIsExported(sts, i, x, e);
      }
      if j, typeOnly, local, exported :| ExportsAt(sts, i, j, typeOnly, local, exported)
                                         && x == Filed(EXPORT + exported, Record(Export(typeOnly, local, exported))) {
        ExportedIsFiled(sts, i, j, Export(typeOnly, local, exported));
      }
    }
  }

  lemma FiledForFront(sts: seq<Statement>, i: int, x: Filed)
    requires 0 <= i < |sts| - 1
    ensures FiledFor(sts[..|sts| - 1], i, x) == FiledFor(sts, i, x)
  {
    FiledOfIff(sts, i, x);
    FiledOfIff(sts[..|sts| - 1], i, x);
  }

  lemma {:induction false} FiledStatementsIff(sts: seq<Statement>, x: Filed)
    ensures x in FiledStatements(sts) <==> FiledSomewhere(sts, x)
  {
    if sts != [] {
      var n := |sts| - 1;
      FiledStatementsIff(sts[..n], x);
      FiledOfIff(sts, n, x);
      if i :| FiledFor(sts[..n], i, x) {
        FiledForFront(sts, i, x);
      }
      if i :| FiledFor(sts, i, x) {
        if i < n {
          FiledForFront(sts, i, x);
        }
      }
    }
  }

  /** What `declarationsByName` files: the texts of the statements, each under its own name, and the
      directives and the kind under theirs. */
  lemma FiledIff(f: File, x: Filed)
    ensures x in FiledAll(f) <==>
              || FiledSomewhere(f.statements, x)
              || x == Filed(DIRECTIVES, Join(f.directives))
              || x == Filed(KIND, if f.kind == Module then MODULE else SCRIPT)
  {
    FiledStatementsIff(f.statements, x);
  }

  // ---- The entries ----

  /** The text a file has under a name, or none. */
  function TextUnder(f: File, n: Text): Option<Text> {
    Joined(Under(FiledAll(f), n))
  }

  /** What an entry for `name` has to say. */
  ghost predicate Says(before: map<Text, File>, after: map<Text, File>, name: Text, d: Difference) {
    match d
    case OneSided(file, removed) =>
      && file == name
      && if removed then name in before && name !in after else name !in before && name in after
    case Changes(file, diff, changed) =>
      && file == name && name in before && name in after
      && NormalText(before[name]) != NormalText(after[name])
      && LineDiff.Explains(diff, NormalText(before[name]), NormalText(after[name]))
      && forall n :: n in changed <==> TextUnder(before[name], n) != TextUnder(after[name], n)
  }

  lemma DifferenceSays(before: map<Text, File>, after: map<Text, File>, name: Text)
    requires name in before || name in after
    ensures var ds := DifferenceOf(before, after, name);
            if Agrees(before, after, name) then ds == [] else |ds| == 1 && Says(before, after, name, ds[0])
  {
    if name in before && name in after {
      var left, right := before[name], after[name];
      LineDiff.DiffReadsBack(NormalText(left), NormalText(right));
      forall n ensures n in Changed(left, right) <==> TextUnder(left, n) != TextUnder(right, n) {
        ReportedIff(left, right, n);
      }
    }
  }

  ghost function Disagrees(before: map<Text, File>, after: map<Text, File>): Text -> bool {
    (name: Text) => !Agrees(before, after, name)
  }

  /** `at` lists the indices of the names on which the trees do not agree, in order. */
  ghost predicate DisagreesAt(before: map<Text, File>, after: map<Text, File>, names: seq<Text>, at: seq<nat>) {
    SelectedAt(Disagrees(before, after), names, at)
  }

  ghost predicate Entries(before: map<Text, File>, after: map<Text, File>, names: seq<Text>, at: seq<nat>,
                          ds: seq<Difference>)
  {
    && |ds| == |at|
    && forall k :: 0 <= k < |at| ==> at[k] < |names| && Says(before, after, names[at[k]], ds[k])
  }

  lemma EntriesStay(before: map<Text, File>, after: map<Text, File>, names: seq<Text>, at: seq<nat>,
                    ds: seq<Difference>)
    requires names != [] && Entries(before, after, names[..|names| - 1], at, ds)
    ensures Entries(before, after, names, at, ds)
  {
    forall k | 0 <= k < |at| ensures Says(before, after, names[at[k]], ds[k]) {
      assert names[..|names| - 1][at[k]] == names[at[k]];
    }
  }

  lemma EntriesGrow(before: map<Text, File>, after: map<Text, File>, names: seq<Text>, at: seq<nat>,
                    ds: seq<Difference>, n: nat, d: Difference)
    requires n < |names| && Entries(before, after, names, at, ds) && Says(before, after, names[n], d)
    ensures Entries(before, after, names, at + [n], ds + [d])
  {
  }

  lemma ReportGrows(before: map<Text, File>, after: map<Text, File>, names: seq<Text>, front: seq<nat>)
    requires names != [] && (names[|names| - 1] in before || names[|names| - 1] in after)
    requires Entries(before, after, names[..|names| - 1], front, Differences(before, after, names[..|names| - 1]))
    ensures var n := |names| - 1;
            Entries(before, after, names, if Agrees(before, after, names[n]) then front else front + [n],
                    Differences(before, after, names))
  {
    var n := |names| - 1;
    var ds, last := Differences(before, after, names[..n]), DifferenceOf(before, after, names[n]);
    DifferenceSays(before, after, names[n]);
    EntriesStay(before, after, names, front, ds);
    if Agrees(before, after, names[n]) {
      assert ds + last == ds;
    } else {
      EntriesGrow(before, after, names, front, ds, n, last[0]);
      assert ds + last == ds + [last[0]];
    }
  }

  lemma {:induction false} EntriesAre(before: map<Text, File>, after: map<Text, File>, names: seq<Text>)
    requires forall n :: n in names ==> n in before || n in after
    ensures Entries(before, after, names, Indices(Disagrees(before, after), names), Differences(before, after, names))
  {
    if names != [] {
      var n := |names| - 1;
      assert names == names[..n] + [names[n]];
      EntriesAre(before, after, names[..n]);
      ReportGrows(before, after, names, Indices(Disagrees(before, after), names[..n]));
    }
  }

  /** The report has one entry for each listed file on which the trees do not agree, in the order of
      the listing: a file on one side only is said to be removed or added as it was, and any other
      comes with a diff that explains the old normal form by its `- ` lines and the new one by its
      `+ ` lines, and with exactly the names under which the two files hold different text. */
  lemma ReportSays(before: map<Text, File>, after: map<Text, File>, names: seq<Text>) returns (at: seq<nat>)
    requires forall n :: n in names ==> n in before || n in after
    ensures DisagreesAt(before, after, names, at)
    ensures Entries(before, after, names, at, Differences(before, after, names))
  {
    at := Indices(Disagrees(before, after), names);
    EntriesAre(before, after, names);
    IndicesSelect(Disagrees(before, after), names);
  }

  // ---- A type that becomes a value ----

  lemma SoleRecord(f: File, e: Export)
    requires Tidy(f) && e in Exports(f.statements)
    ensures TextUnder(f, EXPORT + e.exported) == Some(Record(e))
  {
    var k :| 0 <= k < |Exports(f.statements)| && Exports(f.statements)[k] == e;
    UnderExportName(f, f, k);
  }

  lemma ExportedSomewhere(f: File, i: nat, j: nat)
    requires i < |f.statements| && f.statements[i].LocalExport? && j < |f.statements[i].elements|
    ensures ExportOf(f.statements[i].typeOnly, f.statements[i].elements[j]) in Exports(f.statements)
  {
    var st := f.statements[i];
    var e := ExportOf(st.typeOnly, st.elements[j]);
    PlacesCount(f.statements, e.typeOnly, e.local, e.exported);
    assert ExportsAt(f.statements, i, j, e.typeOnly, e.local, e.exported);
    assert (i as int, j as int) in Places(f.statements, e.typeOnly, e.local, e.exported);
  }

  /** When a list drops its `type`, every name in it that is not type-only by itself is reported. */
  lemma TypeDropIsReported(f: File, i: nat, j: nat)
    requires i < |f.statements| && f.statements[i].LocalExport? && f.statements[i].typeOnly
    requires j < |f.statements[i].elements| && !f.statements[i].elements[j].typeOnly
    requires Tidy(f) && Tidy(Untyped(f, i))
    ensures EXPORT + f.statements[i].elements[j].name in Changed(f, Untyped(f, i))
  {
    var g, e := Untyped(f, i), f.statements[i].elements[j];
    ExportedSomewhere(f, i, j);
    ExportedSomewhere(g, i, j);
    SoleRecord(f, ExportOf(true, e));
    SoleRecord(g, ExportOf(false, e));
    SameRecord(ExportOf(true, e), ExportOf(false, e));
    ReportedIff(f, g, EXPORT + e.name);
  }
}
