/** Naming what changed between two declaration files, against their normal forms, and the
    comparison of two `dist/` trees. */
module ChangedNames {
  import opened Wrappers
  import opened JsMaps
  import opened Texts
  import opened ExportRecords
  import opened ApiSurface
  import LineDiff

  /** A name and one text filed under it. */
  datatype Filed = Filed(name: Text, body: Text)

  function ExportName(x: Text): Text {
    EXPORT + x
  }

  function FiledExports(es: seq<Export>): seq<Filed> {
    if es == [] then []
    else FiledExports(es[..|es| - 1]) + [Filed(ExportName(es[|es| - 1].exported), Record(es[|es| - 1]))]
  }

  function FiledOf(st: Statement): seq<Filed> {
    match st
    case Other(name, body) => [Filed(name, body)]
    case LocalExport(_, _) => FiledExports(ExportsOf(st))
  }

  function FiledStatements(sts: seq<Statement>): seq<Filed> {
    if sts == [] then [] else FiledStatements(sts[..|sts| - 1]) + FiledOf(sts[|sts| - 1])
  }

  /** Everything `declarationsByName` files, in the order it files it. */
  function FiledAll(f: File): seq<Filed> {
    FiledStatements(f.statements) + [Filed(DIRECTIVES, Join(f.directives)), Filed(KIND, KindText(f.kind))]
  }

  /** A text filed under a name that has one already is appended on a new line. */
  function Add(m: JsMap<Text, Text>, x: Filed): JsMap<Text, Text> {
    Set(m, x.name, if Has(m, x.name) then Get(m, x.name).value + [NL] + x.body else x.body)
  }

  function ByName(xs: seq<Filed>): JsMap<Text, Text> {
    if xs == [] then [] else Add(ByName(xs[..|xs| - 1]), xs[|xs| - 1])
  }

  method FileAll(m: JsMap<Text, Text>, xs: seq<Filed>, ghost before: seq<Filed>) returns (m': JsMap<Text, Text>)
    requires m == ByName(before)
    ensures m' == ByName(before + xs)
  {
    m' := m;
    assert before + xs[..0] == before;
    for i := 0 to |xs|
      invariant m' == ByName(before + xs[..i])
    {
      assert (before + xs[..i + 1])[..|before| + i] == before + xs[..i];
      m' := Add(m', xs[i]);
    }
    assert xs[..|xs|] == xs;
  }

  /** `declarationsByName`. */
  method DeclarationsByName(f: File) returns (m: JsMap<Text, Text>)
    ensures m == ByName(FiledAll(f))
  {
    m := [];
    for i := 0 to |f.statements|
      invariant m == ByName(FiledStatements(f.statements[..i]))
    {
      assert f.statements[..i + 1][..i] == f.statements[..i];
      m := FileAll(m, FiledOf(f.statements[i]), FiledStatements(f.statements[..i]));
    }
    assert f.statements[..|f.statements|] == f.statements;
    var pseudo := [Filed(DIRECTIVES, Join(f.directives)), Filed(KIND, KindText(f.kind))];
    m := FileAll(m, pseudo, FiledStatements(f.statements));
  }

  /** The texts filed under `n`, in order. */
  function Under(xs: seq<Filed>, n: Text): seq<Text> {
    if xs == [] then []
    else Under(xs[..|xs| - 1], n) + if xs[|xs| - 1].name == n then [xs[|xs| - 1].body] else []
  }

  function Joined(bodies: seq<Text>): Option<Text> {
    if bodies == [] then None else Some(Join(bodies))
  }

  lemma GetAfterSet<V>(m: JsMap<Text, V>, k: Text, v: V, q: Text)
    ensures Get(Set(m, k, v), q) == if q == k then Some(v) else Get(m, q)
  {
    var m' := Set(m, k, v);
    assert forall i :: 0 <= i < |m| && i != Find(m, k) ==> m'[i] == m[i];
    assert m'[Find(m, k)] == Full(k, v);
  }

  /** What the map holds under a name is the texts filed there, joined by line feeds. */
  lemma {:induction false} ByNameHolds(xs: seq<Filed>, n: Text)
    ensures Get(ByName(xs), n) == Joined(Under(xs, n))
  {
    if xs != [] {
      var front, last := xs[..|xs| - 1], xs[|xs| - 1];
      ByNameHolds(front, n);
      ByNameHolds(front, last.name);
      var m := ByName(front);
      GetAfterSet(m, last.name, if Has(m, last.name) then Get(m, last.name).value + [NL] + last.body else last.body, n);
      if last.name == n && Under(front, n) != [] {
        JoinSnoc(Under(front, n), last.body);
      } else {
        assert Under(xs, n) == if last.name == n then [last.body] else Under(front, n);
      }
    }
  }

  // ---- The reported names ----

  function Differing(names: seq<Text>, l: JsMap<Text, Text>, r: JsMap<Text, Text>): seq<Text> {
    if names == [] then []
    else
      var rest := Differing(names[1..], l, r);
      if Get(l, names[0]) != Get(r, names[0]) then [names[0]] + rest else rest
  }

  function Missing(names: seq<Text>, m: JsMap<Text, Text>): seq<Text> {
    if names == [] then []
    else if Has(m, names[0]) then Missing(names[1..], m)
    else [names[0]] + Missing(names[1..], m)
  }

  /** `changedNames` over the two maps: the names of either, each once, that differ. */
  function ChangedIn(l: JsMap<Text, Text>, r: JsMap<Text, Text>): seq<Text> {
    Differing(Keys(l) + Missing(Keys(r), l), l, r)
  }

  function Changed(f: File, g: File): seq<Text> {
    ChangedIn(ByName(FiledAll(f)), ByName(FiledAll(g)))
  }

  lemma {:induction false} DifferingHolds(names: seq<Text>, l: JsMap<Text, Text>, r: JsMap<Text, Text>, n: Text)
    ensures n in Differing(names, l, r) <==> n in names && Get(l, n) != Get(r, n)
  {
    if names != [] {
      DifferingHolds(names[1..], l, r, n);
      assert names == [names[0]] + names[1..];
    }
  }

  lemma {:induction false} MissingHolds(names: seq<Text>, m: JsMap<Text, Text>, n: Text)
    ensures n in Missing(names, m) <==> n in names && !Has(m, n)
  {
    if names != [] {
      MissingHolds(names[1..], m, n);
      assert names == [names[0]] + names[1..];
    }
  }

  lemma {:induction false} KeysHold(m: JsMap<Text, Text>, n: Text)
    ensures n in Keys(m) <==> exists i :: 0 <= i < |m| && m[i].Full? && m[i].key == n
  {
    if m != [] {
      var k := |m| - 1;
      KeysHold(m[..k], n);
      if i :| 0 <= i < |m| && m[i].Full? && m[i].key == n {
        assert i < k ==> m[..k][i] == m[i];
      }
      if i :| 0 <= i < k && m[..k][i].Full? && m[..k][i].key == n {
        assert m[i] == m[..k][i];
      }
    }
  }

  /** A name is reported exactly when the two files do not have the same text under it. */
  lemma ReportedIff(f: File, g: File, n: Text)
    ensures n in Changed(f, g) <==> Joined(Under(FiledAll(f), n)) != Joined(Under(FiledAll(g), n))
  {
    var l, r := ByName(FiledAll(f)), ByName(FiledAll(g));
    ByNameHolds(FiledAll(f), n);
    ByNameHolds(FiledAll(g), n);
    KeysHold(l, n);
    KeysHold(r, n);
    MissingHolds(Keys(r), l, n);
    DifferingHolds(Keys(l) + Missing(Keys(r), l), l, r, n);
  }

  // ---- Against the normal form ----

  /** The statements other than export lists, filed in source order. */
  function FiledKept(sts: seq<Statement>): seq<Filed> {
    if sts == [] then []
    else
      var last := sts[|sts| - 1];
      FiledKept(sts[..|sts| - 1]) + if last.Other? then [Filed(last.name, last.body)] else []
  }

  /** The text of the statements named `n`, in source order. */
  function KeptText(f: File, n: Text): Option<Text> {
    Joined(Under(FiledKept(f.statements), n))
  }

  function NamesIn(xs: seq<Filed>): set<Text> {
    if xs == [] then {} else NamesIn(xs[..|xs| - 1]) + {xs[|xs| - 1].name}
  }

  function KeptNames(f: File): set<Text> {
    NamesIn(FiledKept(f.statements))
  }

  /** The pseudo-names of the export records. */
  function ExportNames(f: File): set<Text> {
    NamesIn(FiledExports(Exports(f.statements)))
  }

  ghost predicate DistinctExports(es: seq<Export>) {
    forall i, j :: 0 <= i < j < |es| ==> es[i].exported != es[j].exported
  }

  /** A file that exports no name twice, in which no statement bears a pseudo-name of that file or
      prints with a bracket in front, as only the export records do. */
  ghost predicate Tidy(f: File) {
    && DistinctExports(Exports(f.statements))
    && KeptNames(f) !! (ExportNames(f) + {DIRECTIVES, KIND})
    && forall i :: 0 <= i < |f.statements| && f.statements[i].Other? ==> !Bracketed(f.statements[i].body)
  }

  predicate Bracketed(t: Text) {
    t != [] && t[0] == OPEN
  }

  /** No statement of one file bears a pseudo-name of either. */
  ghost predicate Apart(f: File, g: File) {
    && DistinctExports(Exports(f.statements)) && DistinctExports(Exports(g.statements))
    && (KeptNames(f) + KeptNames(g)) !! (ExportNames(f) + ExportNames(g) + {DIRECTIVES, KIND})
  }

  lemma {:induction false} UnderConcat(xs: seq<Filed>, ys: seq<Filed>, n: Text)
    ensures Under(xs + ys, n) == Under(xs, n) + Under(ys, n)
    ensures NamesIn(xs + ys) == NamesIn(xs) + NamesIn(ys)
    decreases |ys|
  {
    if ys == [] {
      assert xs + ys == xs;
    } else {
      assert (xs + ys)[..|xs + ys| - 1] == xs + ys[..|ys| - 1];
      UnderConcat(xs, ys[..|ys| - 1], n);
    }
  }

  lemma {:induction false} UnderNothing(xs: seq<Filed>, n: Text)
    ensures Under(xs, n) == [] <==> n !in NamesIn(xs)
  {
    if xs != [] {
      UnderNothing(xs[..|xs| - 1], n);
    }
  }

  lemma {:induction false} FiledExportsConcat(xs: seq<Export>, ys: seq<Export>)
    ensures FiledExports(xs + ys) == FiledExports(xs) + FiledExports(ys)
    decreases |ys|
  {
    if ys == [] {
      assert xs + ys == xs;
    } else {
      assert (xs + ys)[..|xs + ys| - 1] == xs + ys[..|ys| - 1];
      FiledExportsConcat(xs, ys[..|ys| - 1]);
    }
  }

  /** What the last statement adds to the filed texts, the kept ones and the export records. */
  lemma LastStatement(sts: seq<Statement>, n: Text)
    requires sts != []
    ensures var front, last := sts[..|sts| - 1], sts[|sts| - 1];
            var kept, exports := FiledExports([]), FiledExports(ExportsOf(last));
            && Under(FiledStatements(sts), n) == Under(FiledStatements(front), n) + Under(FiledOf(last), n)
            && Under(FiledExports(Exports(sts)), n) == Under(FiledExports(Exports(front)), n) + Under(exports, n)
            && NamesIn(FiledExports(Exports(sts))) == NamesIn(FiledExports(Exports(front))) + NamesIn(exports)
  {
    var front, last := sts[..|sts| - 1], sts[|sts| - 1];
    UnderConcat(FiledStatements(front), FiledOf(last), n);
    FiledExportsConcat(Exports(front), ExportsOf(last));
    UnderConcat(FiledExports(Exports(front)), FiledExports(ExportsOf(last)), n);
  }

  /** Under a name no export record bears, the texts filed are those of the kept statements. */
  lemma {:induction false} UnderKept(sts: seq<Statement>, n: Text)
    requires n !in NamesIn(FiledExports(Exports(sts)))
    ensures Under(FiledStatements(sts), n) == Under(FiledKept(sts), n)
  {
    if sts != [] {
      var front, last := sts[..|sts| - 1], sts[|sts| - 1];
      LastStatement(sts, n);
      UnderKept(front, n);
      if last.Other? {
        UnderConcat(FiledKept(front), [Filed(last.name, last.body)], n);
      } else {
        UnderNothing(FiledExports(ExportsOf(last)), n);
        assert FiledKept(sts) == FiledKept(front);
      }
    }
  }

  /** Under a name no kept statement bears, they are the export records. */
  lemma {:induction false} UnderExports(sts: seq<Statement>, n: Text)
    requires n !in NamesIn(FiledKept(sts))
    ensures Under(FiledStatements(sts), n) == Under(FiledExports(Exports(sts)), n)
  {
    if sts != [] {
      var front, last := sts[..|sts| - 1], sts[|sts| - 1];
      LastStatement(sts, n);
      if last.Other? {
        UnderConcat(FiledKept(front), [Filed(last.name, last.body)], n);
        UnderNothing([Filed(last.name, last.body)], n);
      } else {
        assert FiledKept(sts) == FiledKept(front);
      }
      UnderExports(front, n);
    }
  }

  lemma UnderTwo(xs: seq<Filed>, x: Filed, y: Filed, n: Text)
    ensures Under(xs + [x, y], n)
         == Under(xs, n) + (if n == x.name then [x.body] else []) + (if n == y.name then [y.body] else [])
  {
    assert (xs + [x, y])[..|xs| + 1] == xs + [x];
    assert (xs + [x])[..|xs|] == xs;
  }

  lemma PseudoNamesDiffer(x: Text)
    ensures ExportName(x) != DIRECTIVES && ExportName(x) != KIND && DIRECTIVES != KIND
  {
    assert ExportName(x)[0] == 101 && DIRECTIVES[0] == 114 && KIND[0] == 109;
  }

  lemma UnderAll(f: File, n: Text)
    ensures n != DIRECTIVES && n != KIND ==> Under(FiledAll(f), n) == Under(FiledStatements(f.statements), n)
    ensures n !in KeptNames(f) && n !in ExportNames(f) ==>
              && (n == DIRECTIVES ==> Under(FiledAll(f), n) == [Join(f.directives)])
              && (n == KIND ==> Under(FiledAll(f), n) == [KindText(f.kind)])
  {
    PseudoNamesDiffer([]);
    UnderTwo(FiledStatements(f.statements), Filed(DIRECTIVES, Join(f.directives)), Filed(KIND, KindText(f.kind)), n);
    if n !in KeptNames(f) && n !in ExportNames(f) {
      UnderKept(f.statements, n);
      UnderNothing(FiledKept(f.statements), n);
    }
  }

  lemma ExportNameIsInjective(x: Text, y: Text)
    ensures ExportName(x) == ExportName(y) <==> x == y
  {
    assert ExportName(x)[|EXPORT|..] == x && ExportName(y)[|EXPORT|..] == y;
  }

  lemma {:induction false} ExportIsNamed(es: seq<Export>, i: nat)
    requires i < |es|
    ensures ExportName(es[i].exported) in NamesIn(FiledExports(es))
  {
    var m := |es| - 1;
    if i < m {
      ExportIsNamed(es[..m], i);
    }
  }

  lemma {:induction false} NamedExport(es: seq<Export>, n: Text) returns (i: nat)
    requires n in NamesIn(FiledExports(es))
    ensures i < |es| && n == ExportName(es[i].exported)
  {
    var m := |es| - 1;
    if n == ExportName(es[m].exported) {
      i := m;
    } else {
      i := NamedExport(es[..m], n);
    }
  }

  /** Under the pseudo-name of an export there is its record alone. */
  lemma {:induction false} UnderOwn(es: seq<Export>, k: nat)
    requires DistinctExports(es) && k < |es|
    ensures Under(FiledExports(es), ExportName(es[k].exported)) == [Record(es[k])]
    decreases |es|
  {
    var n := |es| - 1;
    var name := ExportName(es[k].exported);
    if k < n {
      ExportNameIsInjective(es[k].exported, es[n].exported);
      UnderOwn(es[..n], k);
    } else {
      UnderNothing(FiledExports(es[..n]), name);
      if name in NamesIn(FiledExports(es[..n])) {
        var i := NamedExport(es[..n], name);
        ExportNameIsInjective(es[i].exported, es[n].exported);
      }
    }
  }

  // ---- What an empty report means ----

  lemma UnderExportName(f: File, g: File, k: nat)
    requires Apart(f, g) && k < |Exports(f.statements)|
    ensures var n := ExportName(Exports(f.statements)[k].exported);
            Under(FiledAll(f), n) == [Record(Exports(f.statements)[k])]
            && Under(FiledAll(g), n) == Under(FiledExports(Exports(g.statements)), n)
  {
    var es := Exports(f.statements);
    var n := ExportName(es[k].exported);
    PseudoNamesDiffer(es[k].exported);
    ExportIsNamed(es, k);
    UnderAll(f, n);
    UnderAll(g, n);
    UnderExports(f.statements, n);
    UnderExports(g.statements, n);
    UnderOwn(es, k);
  }

  lemma DirectivesFromText(f: File, g: File)
    requires DirectivesOk(f) && DirectivesOk(g) && Join(f.directives) == Join(g.directives)
    ensures f.directives == g.directives
  {
    DirectiveLines(f);
    DirectiveLines(g);
    assert f.directives != [] ==> f.directives[0] != [];
    assert g.directives != [] ==> g.directives[0] != [];
  }

  lemma RecordUnder(es: seq<Export>, e: Export)
    requires DistinctExports(es) && Joined(Under(FiledExports(es), ExportName(e.exported))) == Some(Record(e))
    ensures e in es
  {
    var n := ExportName(e.exported);
    UnderNothing(FiledExports(es), n);
    var i := NamedExport(es, n);
    UnderOwn(es, i);
    SameRecord(es[i], e);
  }

  lemma ExportCarriesOver(f: File, g: File, k: nat)
    requires Apart(f, g) && Changed(f, g) == [] && k < |Exports(f.statements)|
    ensures Exports(f.statements)[k] in Exports(g.statements)
  {
    var e := Exports(f.statements)[k];
    UnderExportName(f, g, k);
    ReportedIff(f, g, ExportName(e.exported));
    RecordUnder(Exports(g.statements), e);
  }

  lemma ExportsCarryOver(f: File, g: File)
    requires Apart(f, g) && Changed(f, g) == []
    ensures forall e :: e in Exports(f.statements) ==> e in Exports(g.statements)
  {
    forall k | 0 <= k < |Exports(f.statements)| ensures Exports(f.statements)[k] in Exports(g.statements) {
      ExportCarriesOver(f, g, k);
    }
  }

  lemma {:induction false} DistinctCount(es: seq<Export>, e: Export)
    requires DistinctExports(es)
    ensures multiset(es)[e] == if e in es then 1 else 0
  {
    if es != [] {
      var n := |es| - 1;
      DistinctCount(es[..n], e);
      assert es == es[..n] + [es[n]];
      SnocCount(es[..n], es[n], e);
    }
  }

  lemma ReportIsSymmetric(f: File, g: File)
    ensures Changed(f, g) == [] <==> Changed(g, f) == []
  {
    forall n ensures n in Changed(f, g) <==> n in Changed(g, f) {
      ReportedIff(f, g, n);
      ReportedIff(g, f, n);
    }
    assert Changed(f, g) != [] ==> Changed(f, g)[0] in Changed(g, f);
    assert Changed(g, f) != [] ==> Changed(g, f)[0] in Changed(f, g);
  }

  /** The part of the normal form a report can see. */
  ghost predicate SameByName(f: File, g: File) {
    && f.directives == g.directives && f.kind == g.kind
    && multiset(Exports(f.statements)) == multiset(Exports(g.statements))
    && forall n :: KeptText(f, n) == KeptText(g, n)
  }

  lemma NoNameMeansSamePseudo(f: File, g: File)
    requires DirectivesOk(f) && DirectivesOk(g) && Apart(f, g) && Changed(f, g) == []
    ensures f.directives == g.directives && f.kind == g.kind
  {
    PseudoNamesDiffer([]);
    ReportedIff(f, g, DIRECTIVES);
    ReportedIff(f, g, KIND);
    PseudoNamesAreFree(f, g);
    UnderAll(f, DIRECTIVES);
    UnderAll(g, DIRECTIVES);
    UnderAll(f, KIND);
    UnderAll(g, KIND);
    DirectivesFromText(f, g);
    assert MODULE[0] != SCRIPT[0];
  }

  lemma NoNameMeansSame(f: File, g: File)
    requires DirectivesOk(f) && DirectivesOk(g) && Apart(f, g) && Changed(f, g) == []
    ensures SameByName(f, g)
  {
    ReportIsSymmetric(f, g);
    NoNameMeansSamePseudo(f, g);
    ExportsCarryOver(f, g);
    ExportsCarryOver(g, f);
    forall e ensures multiset(Exports(f.statements))[e] == multiset(Exports(g.statements))[e] {
      DistinctCount(Exports(f.statements), e);
      DistinctCount(Exports(g.statements), e);
    }
    forall n ensures KeptText(f, n) == KeptText(g, n) {
      KeptTextUnder(f, g, n);
      ReportedIff(f, g, n);
    }
  }

  lemma NotAnExportName(es: seq<Export>)
    ensures DIRECTIVES !in NamesIn(FiledExports(es)) && KIND !in NamesIn(FiledExports(es))
  {
    if DIRECTIVES in NamesIn(FiledExports(es)) {
      var i := NamedExport(es, DIRECTIVES);
      PseudoNamesDiffer(es[i].exported);
    }
    if KIND in NamesIn(FiledExports(es)) {
      var i := NamedExport(es, KIND);
      PseudoNamesDiffer(es[i].exported);
    }
  }

  lemma PseudoNamesAreFree(f: File, g: File)
    requires Apart(f, g)
    ensures DIRECTIVES !in KeptNames(f) + KeptNames(g) + ExportNames(f) + ExportNames(g)
    ensures KIND !in KeptNames(f) + KeptNames(g) + ExportNames(f) + ExportNames(g)
  {
    NotAnExportName(Exports(f.statements));
    NotAnExportName(Exports(g.statements));
  }

  lemma KeptTextUnder(f: File, g: File, n: Text)
    requires Apart(f, g)
    ensures n in KeptNames(f) + KeptNames(g) ==>
              && Under(FiledAll(f), n) == Under(FiledKept(f.statements), n)
              && Under(FiledAll(g), n) == Under(FiledKept(g.statements), n)
    ensures n !in KeptNames(f) + KeptNames(g) ==> KeptText(f, n) == None && KeptText(g, n) == None
  {
    UnderNothing(FiledKept(f.statements), n);
    UnderNothing(FiledKept(g.statements), n);
    if n in KeptNames(f) + KeptNames(g) {
      UnderAll(f, n);
      UnderAll(g, n);
      UnderKept(f.statements, n);
      UnderKept(g.statements, n);
    }
  }

  lemma SameUnderName(f: File, g: File, n: Text)
    requires Apart(f, g) && SameByName(f, g)
    ensures Joined(Under(FiledAll(f), n)) == Joined(Under(FiledAll(g), n))
  {
    PseudoNamesAreFree(f, g);
    UnderAll(f, n);
    UnderAll(g, n);
    if n in KeptNames(f) + KeptNames(g) {
      KeptTextUnder(f, g, n);
      assert KeptText(f, n) == KeptText(g, n);
    } else if n != DIRECTIVES && n != KIND {
      UnderExports(f.statements, n);
      UnderExports(g.statements, n);
      SameUnderExports(Exports(f.statements), Exports(g.statements), n);
    }
  }

  lemma SameMeansNoName(f: File, g: File)
    requires Apart(f, g) && SameByName(f, g)
    ensures Changed(f, g) == []
  {
    if Changed(f, g) != [] {
      var n := Changed(f, g)[0];
      ReportedIff(f, g, n);
      SameUnderName(f, g, n);
    }
  }

  lemma SameNames(es: seq<Export>, es': seq<Export>, n: Text)
    requires multiset(es) == multiset(es') && n in NamesIn(FiledExports(es))
    ensures n in NamesIn(FiledExports(es'))
  {
    var i := NamedExport(es, n);
    assert es[i] in multiset(es');
    var j :| 0 <= j < |es'| && es'[j] == es[i];
    ExportIsNamed(es', j);
  }

  lemma SameUnderExports(es: seq<Export>, es': seq<Export>, n: Text)
    requires DistinctExports(es) && DistinctExports(es') && multiset(es) == multiset(es')
    ensures Under(FiledExports(es), n) == Under(FiledExports(es'), n)
  {
    UnderNothing(FiledExports(es), n);
    UnderNothing(FiledExports(es'), n);
    if n in NamesIn(FiledExports(es)) {
      var i := NamedExport(es, n);
      UnderOwn(es, i);
      assert es[i] in multiset(es');
      var j :| 0 <= j < |es'| && es'[j] == es[i];
      UnderOwn(es', j);
    } else if n in NamesIn(FiledExports(es')) {
      SameNames(es', es, n);
    }
  }

  ghost predicate NoneBracketed(bodies: seq<Text>) {
    forall i :: 0 <= i < |bodies| ==> !Bracketed(bodies[i])
  }

  lemma {:induction false} KeptBodiesOf(sts: seq<Statement>, n: Text)
    requires forall i :: 0 <= i < |sts| && sts[i].Other? ==> !Bracketed(sts[i].body)
    ensures NoneBracketed(Under(FiledKept(sts), n))
  {
    if sts != [] {
      var front, last := sts[..|sts| - 1], sts[|sts| - 1];
      KeptBodiesOf(front, n);
      if last.Other? {
        UnderConcat(FiledKept(front), [Filed(last.name, last.body)], n);
        UnderSingle(Filed(last.name, last.body), n);
      } else {
        assert FiledKept(sts) == FiledKept(front);
      }
    }
  }

  lemma UnderSingle(x: Filed, n: Text)
    ensures Under([x], n) == if x.name == n then [x.body] else []
    ensures NamesIn([x]) == {x.name}
  {
    assert [x][..0] == [];
  }

  lemma JoinKeepsFirst(bodies: seq<Text>)
    requires bodies != [] && !Bracketed(bodies[0])
    ensures !Bracketed(Join(bodies))
  {
  }

  /** A name that is a statement of one file and an export of the other is reported. */
  lemma CrossIsReported(f: File, g: File, n: Text)
    requires Tidy(f) && Tidy(g) && n in KeptNames(f) && n in ExportNames(g)
    ensures n in Changed(f, g)
  {
    UnderAll(f, n);
    UnderAll(g, n);
    UnderKept(f.statements, n);
    UnderExports(g.statements, n);
    KeptBodiesOf(f.statements, n);
    UnderNothing(FiledKept(f.statements), n);
    JoinKeepsFirst(Under(FiledKept(f.statements), n));
    var k := NamedExport(Exports(g.statements), n);
    UnderOwn(Exports(g.statements), k);
    RecordIsOneLine(Exports(g.statements)[k]);
    PseudoNamesDiffer(Exports(g.statements)[k].exported);
    ReportedIff(f, g, n);
  }

  lemma NothingReportedCrosses(f: File, g: File)
    requires Tidy(f) && Tidy(g) && Changed(f, g) == []
    ensures forall n :: n in KeptNames(f) ==> n !in ExportNames(g)
  {
    forall n | n in KeptNames(f) ensures n !in ExportNames(g) {
      if n in ExportNames(g) {
        CrossIsReported(f, g, n);
      }
    }
  }

  lemma NothingReportedIsApart(f: File, g: File)
    requires Tidy(f) && Tidy(g) && Changed(f, g) == []
    ensures Apart(f, g)
  {
    ReportIsSymmetric(f, g);
    NothingReportedCrosses(f, g);
    NothingReportedCrosses(g, f);
  }

  lemma SameIsApart(f: File, g: File)
    requires Tidy(f) && Tidy(g) && SameByName(f, g)
    ensures Apart(f, g)
  {
    forall n ensures n in KeptNames(f) <==> n in KeptNames(g) {
      UnderNothing(FiledKept(f.statements), n);
      UnderNothing(FiledKept(g.statements), n);
      assert KeptText(f, n) == KeptText(g, n);
    }
    forall n ensures n in ExportNames(f) <==> n in ExportNames(g) {
      if n in ExportNames(f) {
        SameNames(Exports(f.statements), Exports(g.statements), n);
      }
      if n in ExportNames(g) {
        SameNames(Exports(g.statements), Exports(f.statements), n);
      }
    }
  }

  /** For tidy files no name is reported exactly when they have the same directives, kind and
      export specifiers, and under every statement name the same text: what a report cannot see
      is the relative order of differently named statements. */
  lemma NoNameReportedIff(f: File, g: File)
    requires DirectivesOk(f) && DirectivesOk(g) && Tidy(f) && Tidy(g)
    ensures Changed(f, g) == [] <==> SameByName(f, g)
  {
    if Changed(f, g) == [] {
      NothingReportedIsApart(f, g);
      NoNameMeansSame(f, g);
    }
    if SameByName(f, g) {
      SameIsApart(f, g);
      SameMeansNoName(f, g);
    }
  }

  /** A statement's name can be read off its print. */
  ghost predicate NamedBy(sts: seq<Statement>, naming: Text -> Text) {
    forall i :: 0 <= i < |sts| && sts[i].Other? ==> sts[i].name == naming(sts[i].body)
  }

  function FiledBodies(bodies: seq<Text>, naming: Text -> Text): seq<Filed> {
    seq(|bodies|, i requires 0 <= i < |bodies| => Filed(naming(bodies[i]), bodies[i]))
  }

  lemma {:induction false} FiledByBodies(sts: seq<Statement>, naming: Text -> Text)
    requires NamedBy(sts, naming)
    ensures FiledKept(sts) == FiledBodies(Bodies(Kept(sts)), naming)
  {
    if sts != [] {
      FiledByBodies(sts[..|sts| - 1], naming);
    }
  }

  /** When the normal forms agree part by part, no name is reported. */
  lemma SamePartsReportNothing(f: File, g: File, naming: Text -> Text)
    requires DirectivesOk(f) && DirectivesOk(g) && Tidy(f) && Tidy(g)
    requires NamedBy(f.statements, naming) && NamedBy(g.statements, naming)
    requires f.directives == g.directives && f.kind == g.kind
    requires Bodies(Kept(f.statements)) == Bodies(Kept(g.statements))
    requires multiset(Exports(f.statements)) == multiset(Exports(g.statements))
    ensures Changed(f, g) == []
  {
    FiledByBodies(f.statements, naming);
    FiledByBodies(g.statements, naming);
    NoNameReportedIff(f, g);
  }

  lemma TwoStatements(a: Statement, b: Statement)
    requires a.Other? && b.Other?
    ensures FiledKept([a, b]) == [Filed(a.name, a.body), Filed(b.name, b.body)]
    ensures Bodies(Kept([a, b])) == [a.body, b.body] && Exports([a, b]) == []
  {
    assert [a, b][..1] == [a] && [a][..0] == [];
    assert Kept([a]) == [a] && Exports([a]) == [] && FiledKept([a]) == [Filed(a.name, a.body)];
    assert Kept([a, b]) == [a, b];
  }

  lemma TwoFiled(x: Filed, y: Filed, n: Text)
    requires x.name != y.name
    ensures NamesIn([x, y]) == {x.name, y.name}
    ensures Under([x, y], n) == if n == x.name then [x.body] else if n == y.name then [y.body] else []
  {
    UnderTwo([], x, y, n);
    assert [] + [x, y] == [x, y] && [x, y][..1] == [x] && [x][..0] == [];
    assert NamesIn([x]) == {x.name};
  }

  lemma SwapFiled(x: Filed, y: Filed, n: Text)
    requires x.name != y.name
    ensures Under([x, y], n) == Under([y, x], n)
    ensures NamesIn([x, y]) == {x.name, y.name} && NamesIn([y, x]) == {x.name, y.name}
  {
    TwoFiled(x, y, n);
    TwoFiled(y, x, n);
  }

  lemma SwapKeepsTexts(a: Statement, b: Statement, n: Text)
    requires a.Other? && b.Other? && a.name != b.name
    ensures Under(FiledKept([a, b]), n) == Under(FiledKept([b, a]), n)
    ensures NamesIn(FiledKept([a, b])) == NamesIn(FiledKept([b, a])) == {a.name, b.name}
  {
    var x, y := Filed(a.name, a.body), Filed(b.name, b.body);
    TwoStatements(a, b);
    TwoStatements(b, a);
    assert FiledKept([a, b]) == [x, y] && FiledKept([b, a]) == [y, x];
    SwapFiled(x, y, n);
  }

  lemma SwapIsApart(a: Statement, b: Statement)
    requires a.Other? && b.Other? && a.name != b.name && {a.name, b.name} !! {DIRECTIVES, KIND}
    ensures Apart(File([], Module, [a, b]), File([], Module, [b, a]))
  {
    SwapKeepsTexts(a, b, a.name);
    TwoStatements(a, b);
    TwoStatements(b, a);
    assert NamesIn(FiledExports([])) == {};
  }

  lemma SwapIsSameByName(a: Statement, b: Statement)
    requires a.Other? && b.Other? && a.name != b.name
    ensures SameByName(File([], Module, [a, b]), File([], Module, [b, a]))
  {
    var f, g := File([], Module, [a, b]), File([], Module, [b, a]);
    TwoStatements(a, b);
    TwoStatements(b, a);
    forall n ensures KeptText(f, n) == KeptText(g, n) {
      SwapKeepsTexts(a, b, n);
    }
  }

  lemma SwapChangesText(a: Text, b: Text)
    requires a != b && OneLine(a) && OneLine(b)
    ensures Join([a, b]) != Join([b, a])
  {
    SplitJoin([a, b]);
    SplitJoin([b, a]);
    assert [a, b][0] != [b, a][0];
  }

  /** Swapping two differently named statements with different one-line texts changes the normal
      form, and no name is reported. */
  lemma OrderIsNotNamed(a: Statement, b: Statement)
    requires a.Other? && b.Other? && a.name != b.name && a.body != b.body && OneLine(a.body) && OneLine(b.body)
    requires {a.name, b.name} !! {DIRECTIVES, KIND}
    ensures var f, g := File([], Module, [a, b]), File([], Module, [b, a]);
            NormalText(f) != NormalText(g) && Changed(f, g) == []
  {
    var f, g := File([], Module, [a, b]), File([], Module, [b, a]);
    SwapIsApart(a, b);
    SwapIsSameByName(a, b);
    SameMeansNoName(f, g);
    TwoStatements(a, b);
    TwoStatements(b, a);
    SwapChangesText(a.body, b.body);
    NormalFormIff(f, g);
  }

  // ---- Comparing two trees ----

  datatype Difference =
    | OneSided(file: Text, removed: bool)
    | Changes(file: Text, diff: Text, names: seq<Text>)

  /** The entries for `names`, in that order. */
  function Differences(before: map<Text, File>, after: map<Text, File>, names: seq<Text>): seq<Difference> {
    if names == [] then []
    else Differences(before, after, names[..|names| - 1]) + DifferenceOf(before, after, names[|names| - 1])
  }

  function DifferenceOf(before: map<Text, File>, after: map<Text, File>, name: Text): seq<Difference> {
    if name !in before || name !in after then [OneSided(name, name in before)]
    else
      var left, right := NormalText(before[name]), NormalText(after[name]);
      if left == right then []
      else
        [Changes(name, Join(LineDiff.RenderedAll(LineDiff.Script(Split(left), Split(right)))),
                 Changed(before[name], after[name]))]
  }

  lemma OneMoreName(before: map<Text, File>, after: map<Text, File>, names: seq<Text>, i: nat)
    requires i < |names|
    ensures Differences(before, after, names[..i + 1]) ==
            Differences(before, after, names[..i]) + DifferenceOf(before, after, names[i])
  {
    assert names[..i + 1][..i] == names[..i];
  }

  /** `compareDist` over the files named in the sorted union of both listings. */
  method CompareDist(before: map<Text, File>, after: map<Text, File>, names: seq<Text>)
    returns (differences: seq<Difference>)
    ensures differences == Differences(before, after, names)
  {
    differences := [];
    for i := 0 to |names|
      invariant differences == Differences(before, after, names[..i])
    {
      OneMoreName(before, after, names, i);
      var name := names[i];
      if name !in before || name !in after {
        differences := differences + [OneSided(name, name in before)];
      } else {
        var left := Normalize(before[name]);
        var right := Normalize(after[name]);
        if left != right {
          var diff := LineDiff.DiffLines(left, right);
          var l := DeclarationsByName(before[name]);
          var r := DeclarationsByName(after[name]);
          differences := differences + [Changes(name, diff, ChangedIn(l, r))];
        }
      }
    }
    assert names[..|names|] == names;
  }

  ghost predicate Agrees(before: map<Text, File>, after: map<Text, File>, name: Text) {
    name in before && name in after && NormalText(before[name]) == NormalText(after[name])
  }

  lemma AgreesIff(before: map<Text, File>, after: map<Text, File>, name: Text)
    ensures DifferenceOf(before, after, name) == [] <==> Agrees(before, after, name)
  {
  }

  lemma {:induction false} NoDifferencesIff(before: map<Text, File>, after: map<Text, File>, names: seq<Text>)
    ensures Differences(before, after, names) == [] <==> forall n :: n in names ==> Agrees(before, after, n)
  {
    if names != [] {
      var front, last := names[..|names| - 1], names[|names| - 1];
      NoDifferencesIff(before, after, front);
      AgreesIff(before, after, last);
      assert names == front + [last];
    }
  }

  ghost predicate SameSurface(f: File, g: File) {
    && f.directives == g.directives && f.kind == g.kind
    && Join(Bodies(Kept(f.statements))) == Join(Bodies(Kept(g.statements)))
    && multiset(Exports(f.statements)) == multiset(Exports(g.statements))
  }

  /** The gate finds no difference exactly when both trees hold the same files and each has, on
      both sides, the same directives, kind, statement texts and export specifiers. */
  lemma TreesAgreeIff(before: map<Text, File>, after: map<Text, File>, names: seq<Text>)
    requires forall n :: n in names <==> n in before || n in after
    requires forall n :: n in before ==> DirectivesOk(before[n])
    requires forall n :: n in after ==> DirectivesOk(after[n])
    ensures Differences(before, after, names) == [] <==>
              forall n :: n in before || n in after ==> n in before && n in after && SameSurface(before[n], after[n])
  {
    NoDifferencesIff(before, after, names);
    forall n | n in before && n in after ensures Agrees(before, after, n) <==> SameSurface(before[n], after[n]) {
      NormalFormIff(before[n], after[n]);
    }
  }
}
