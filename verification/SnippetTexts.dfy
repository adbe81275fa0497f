/** The text a snippet is compiled as: which wrapper it gets, and what becomes of its imports. */
module SnippetTexts {
  import opened Wrappers
  import opened Texts
  import opened Selections
  import opened ReadmeSnippets

  /** Imported name `i` is the first that some snippet exports. */
  ghost predicate FirstExported(imported: seq<Text>, exporters: map<Text, Text>, i: int) {
    0 <= i < |imported| && imported[i] in exporters && forall k :: 0 <= k < i ==> imported[k] !in exporters
  }

  lemma {:induction false} FirstExporterIff(imported: seq<Text>, exporters: map<Text, Text>)
    ensures FirstExporter(imported, exporters) == None <==> forall n :: n in imported ==> n !in exporters
    ensures forall i :: FirstExported(imported, exporters, i) ==>
                          FirstExporter(imported, exporters) == Some(exporters[imported[i]])
  {
    if imported != [] {
      var rest := imported[1..];
      FirstExporterIff(rest, exporters);
      assert imported == [imported[0]] + rest;
      forall i | FirstExported(imported, exporters, i)
        ensures FirstExporter(imported, exporters) == Some(exporters[imported[i]])
      {
        if i > 0 {
          assert imported[0] !in exporters;
          assert forall k :: 0 <= k < i - 1 ==> rest[k] == imported[k + 1];
          assert FirstExported(rest, exporters, i - 1);
        }
      }
    }
  }

  /** A relative import points at the file of the first of its names that some snippet exports, and
      is otherwise as it was written; an import of a package, or one that no snippet satisfies, is
      left alone. */
  lemma ResolvedPoints(p: Piece, exporters: map<Text, Text>)
    requires p.Import? && WellCut(p)
    ensures p.specifier.NotRelative? ==> Resolved(p, exporters) == p.text
    ensures p.specifier.Relative? && (forall n :: n in p.specifier.imported ==> n !in exporters) ==>
              Resolved(p, exporters) == p.text
    ensures p.specifier.Relative? ==> forall i :: FirstExported(p.specifier.imported, exporters, i) ==>
              var r, file, start := Resolved(p, exporters), exporters[p.specifier.imported[i]], p.specifier.start;
              && |r| == |p.text| - (p.specifier.end - start) + 2 + |file|
              && r[..start] == p.text[..start] && r[start..start + 2] == HERE
              && r[start + 2..start + 2 + |file|] == file && r[start + 2 + |file|..] == p.text[p.specifier.end..]
  {
    if p.specifier.Relative? {
      FirstExporterIff(p.specifier.imported, exporters);
    }
  }

  /** A decorated method is put in a class that extends the context, statements in a function whose
      `this` is the context, and both are closed again; a snippet that declares something at its top
      level is left as written below its header. */
  lemma WrapperChoice(ps: seq<Piece>, exporters: map<Text, Text>, missing: Text, decorated: bool, declares: bool)
    ensures var header := Header(ps, exporters, missing);
            var text := Prefix(ps, exporters, missing, decorated, declares) + Body(ps) + Suffix(decorated, declares);
            && (decorated ==>
                  text == header + Units("class SnippetController extends SnippetBase {") + [NL]
                          + Body(ps) + Units("}") + [NL])
            && (!decorated && !declares ==>
                  text == header + Units("async function snippet(this: SnippetContext) {") + [NL]
                          + Body(ps) + Units("}") + [NL])
            && (!decorated && declares ==> text == header + Body(ps))
  {
    var header, body, close := Header(ps, exporters, missing), Body(ps), Units("}");
    Reassociate(header, Units("class SnippetController extends SnippetBase {"), body, close);
    Reassociate(header, Units("async function snippet(this: SnippetContext) {"), body, close);
  }

  lemma Reassociate(h: Text, open: Text, body: Text, close: Text)
    ensures h + (open + [NL]) + body + (close + [NL]) == h + open + [NL] + body + close + [NL]
    ensures h + [] + body + [] == h + body
  {
  }

  predicate IsImport(p: Piece) {
    p.Import?
  }

  /** `at` lists the imports of the snippet, in order. */
  ghost predicate ImportsAt(ps: seq<Piece>, at: seq<nat>) {
    SelectedAt(IsImport, ps, at)
  }

  function Concat(texts: seq<Text>): Text {
    if texts == [] then [] else Concat(texts[..|texts| - 1]) + texts[|texts| - 1]
  }

  lemma ConcatGrows(texts: seq<Text>, last: Text)
    ensures Concat(texts + [last]) == Concat(texts) + last
  {
    assert (texts + [last])[..|texts|] == texts;
  }

  predicate AreImports(ps: seq<Piece>, at: seq<nat>) {
    forall k :: 0 <= k < |at| ==> at[k] < |ps| && ps[at[k]].Import?
  }

  function ResolvedAt(ps: seq<Piece>, exporters: map<Text, Text>, at: seq<nat>): seq<Text>
    requires AreImports(ps, at)
  {
    seq(|at|, k requires 0 <= k < |at| => Resolved(ps[at[k]], exporters))
  }

  lemma ResolvedStay(ps: seq<Piece>, exporters: map<Text, Text>, at: seq<nat>)
    requires ps != [] && AreImports(ps[..|ps| - 1], at)
    ensures AreImports(ps, at) && ResolvedAt(ps, exporters, at) == ResolvedAt(ps[..|ps| - 1], exporters, at)
  {
  }

  lemma ResolvedAdd(ps: seq<Piece>, exporters: map<Text, Text>, at: seq<nat>, n: nat)
    requires n < |ps| && ps[n].Import? && AreImports(ps, at)
    ensures AreImports(ps, at + [n])
    ensures Concat(ResolvedAt(ps, exporters, at + [n]))
         == Concat(ResolvedAt(ps, exporters, at)) + Resolved(ps[n], exporters)
  {
    assert ResolvedAt(ps, exporters, at + [n]) == ResolvedAt(ps, exporters, at) + [Resolved(ps[n], exporters)];
    ConcatGrows(ResolvedAt(ps, exporters, at), Resolved(ps[n], exporters));
  }

  lemma {:induction false} ImportsResolved(ps: seq<Piece>, exporters: map<Text, Text>)
    ensures AreImports(ps, Indices(IsImport, ps))
    ensures Imports(ps, exporters) == Concat(ResolvedAt(ps, exporters, Indices(IsImport, ps)))
  {
    if ps != [] {
      var n := |ps| - 1;
      var front := Indices(IsImport, ps[..n]);
      ImportsResolved(ps[..n], exporters);
      ResolvedStay(ps, exporters, front);
      if ps[n].Import? {
        ResolvedAdd(ps, exporters, front, n);
      }
    }
  }

  /** The header ends with every import of the snippet, resolved, in the order they are written. */
  lemma HeaderHoldsImports(ps: seq<Piece>, exporters: map<Text, Text>) returns (at: seq<nat>)
    ensures ImportsAt(ps, at) && AreImports(ps, at)
    ensures Imports(ps, exporters) == Concat(ResolvedAt(ps, exporters, at))
  {
    at := Indices(IsImport, ps);
    ImportsResolved(ps, exporters);
    IndicesSelect(IsImport, ps);
  }
}
