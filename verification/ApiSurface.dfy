/** The normal form of a declaration file, the names reported as changed between two files, and
    the comparison of two `dist/` trees built on both. A parsed file is its reference directives,
    its kind and its statements as the TypeScript printer prints them. */
module ApiSurface {
  import opened Wrappers
  import opened Texts
  import opened ExportRecords

  datatype Element = Element(typeOnly: bool, propertyName: Option<Text>, name: Text)

  /** A local `export { … }` list, or any other statement with its readable name and its print. */
  datatype Statement = LocalExport(typeOnly: bool, elements: seq<Element>) | Other(name: Text, body: Text)

  datatype Kind = Module | Script

  datatype File = File(directives: seq<Text>, kind: Kind, statements: seq<Statement>)

  const SLASH: CodeUnit := 47
  const MODULE: Text := [109, 111, 100, 117, 108, 101]
  const SCRIPT: Text := [115, 99, 114, 105, 112, 116]
  /** The line `exports:`. */
  const EXPORTS: Text := [101, 120, 112, 111, 114, 116, 115, 58]
  /** The pseudo-name prefix `export ` and the pseudo-names of the directives and the kind. */
  const EXPORT: Text := [101, 120, 112, 111, 114, 116, 32]
  const DIRECTIVES: Text :=
    [114, 101, 102, 101, 114, 101, 110, 99, 101, 32, 100, 105, 114, 101, 99, 116, 105, 118, 101, 115]
  const KIND: Text :=
    [109, 111, 100, 117, 108, 101, 32, 111, 114, 32, 115, 99, 114, 105, 112, 116, 32, 107, 105, 110, 100]

  /** A directive is one comment line that starts with a slash. */
  ghost predicate DirectivesOk(f: File) {
    forall i :: 0 <= i < |f.directives| ==>
                  OneLine(f.directives[i]) && f.directives[i] != [] && f.directives[i][0] == SLASH
  }

  function KindText(k: Kind): Text {
    if k == Module then MODULE else SCRIPT
  }

  function ExportOf(typeOnly: bool, e: Element): Export {
    Export(typeOnly || e.typeOnly, if e.propertyName.Some? then e.propertyName.value else e.name, e.name)
  }

  function ListExports(typeOnly: bool, elements: seq<Element>): seq<Export> {
    if elements == [] then []
    else ListExports(typeOnly, elements[..|elements| - 1]) + [ExportOf(typeOnly, elements[|elements| - 1])]
  }

  function ExportsOf(st: Statement): seq<Export> {
    if st.LocalExport? then ListExports(st.typeOnly, st.elements) else []
  }

  /** Every specifier the local export lists hold, in source order. */
  function Exports(sts: seq<Statement>): seq<Export> {
    if sts == [] then [] else Exports(sts[..|sts| - 1]) + ExportsOf(sts[|sts| - 1])
  }

  function KeptOf(st: Statement): seq<Statement> {
    if st.Other? then [st] else []
  }

  /** Every other statement, in source order. */
  function Kept(sts: seq<Statement>): (kept: seq<Statement>)
    ensures forall i :: 0 <= i < |kept| ==> kept[i].Other?
  {
    if sts == [] then [] else Kept(sts[..|sts| - 1]) + KeptOf(sts[|sts| - 1])
  }

  function Bodies(kept: seq<Statement>): seq<Text>
    requires forall i :: 0 <= i < |kept| ==> kept[i].Other?
  {
    seq(|kept|, i requires 0 <= i < |kept| => kept[i].body)
  }

  // ---- The normal form ----

  function Header(f: File): Text {
    Join(f.directives) + [NL] + (KindText(f.kind) + [NL] + Join(Bodies(Kept(f.statements))))
  }

  function NormalText(f: File): Text {
    Header(f) + [NL] + (EXPORTS + [NL] + (Block(Exports(f.statements)) + [NL] + []))
  }

  method ListRecords(typeOnly: bool, elements: seq<Element>) returns (records: seq<Text>)
    ensures records == Records(ListExports(typeOnly, elements))
  {
    records := [];
    for j := 0 to |elements|
      invariant records == Records(ListExports(typeOnly, elements[..j]))
    {
      assert elements[..j + 1][..j] == elements[..j];
      records := records + [Record(ExportOf(typeOnly, elements[j]))];
    }
    assert elements[..|elements|] == elements;
  }

  lemma RecordsConcat(xs: seq<Export>, ys: seq<Export>)
    ensures Records(xs + ys) == Records(xs) + Records(ys)
  {
  }

  /** `normalizeDeclarations`. */
  method Normalize(f: File) returns (t: Text)
    ensures t == NormalText(f)
  {
    var specifiers: seq<Text> := [];
    var kept: seq<Text> := [];
    for i := 0 to |f.statements|
      invariant specifiers == Records(Exports(f.statements[..i]))
      invariant kept == Bodies(Kept(f.statements[..i]))
    {
      var st := f.statements[i];
      assert f.statements[..i + 1][..i] == f.statements[..i];
      RecordsConcat(Exports(f.statements[..i]), ExportsOf(st));
      if st.LocalExport? {
        var records := ListRecords(st.typeOnly, st.elements);
        specifiers := specifiers + records;
      } else {
        kept := kept + [st.body];
      }
    }
    assert f.statements[..|f.statements|] == f.statements;
    t := Join(f.directives) + [NL] + (KindText(f.kind) + [NL] + Join(kept));
    t := t + [NL] + (EXPORTS + [NL] + (Join(Sorted(specifiers)) + [NL] + []));
  }

  lemma LineBetween(x: Text, line: Text, y: Text)
    requires OneLine(line)
    ensures Split(x + [NL] + (line + [NL] + y)) == Split(x) + [line] + Split(y)
  {
    SplitAtFeed(x, line + [NL] + y);
    SplitAtFeed(line, y);
    SplitOneLine(line);
    assert Split(x) + ([line] + Split(y)) == Split(x) + [line] + Split(y);
  }

  lemma NormalLines(f: File)
    ensures Split(NormalText(f)) == Split(Header(f)) + [EXPORTS] + (Split(Block(Exports(f.statements))) + [[]])
  {
    var block := Block(Exports(f.statements));
    LineBetween(Header(f), EXPORTS, block + [NL] + []);
    SplitAtFeed(block, []);
  }

  lemma HeaderLines(f: File)
    ensures Split(Header(f))
         == Split(Join(f.directives)) + [KindText(f.kind)] + Split(Join(Bodies(Kept(f.statements))))
  {
    LineBetween(Join(f.directives), KindText(f.kind), Join(Bodies(Kept(f.statements))));
  }

  /** Of two ways to cut a list at a marker, the shorter one leaves a marker behind the cut. */
  lemma MarkerBehind<T>(h: seq<T>, b: seq<T>, h': seq<T>, b': seq<T>, m: T)
    requires h + [m] + b == h' + [m] + b'
    ensures |h| < |h'| ==> m in b
  {
    assert (h' + [m] + b')[|h'|] == m;
    assert |h| < |h'| ==> (h + [m] + b)[|h'|] == b[|h'| - |h| - 1];
  }

  lemma SameCut<T>(h: seq<T>, m: T, b: seq<T>, h': seq<T>, m': T, b': seq<T>)
    requires h + [m] + b == h' + [m'] + b' && |h| == |h'|
    ensures h == h' && m == m' && b == b'
  {
    assert (h + [m] + b)[..|h|] == h && (h + [m] + b)[|h|] == m && (h + [m] + b)[|h| + 1..] == b;
    assert (h' + [m'] + b')[..|h|] == h' && (h' + [m'] + b')[|h|] == m' && (h' + [m'] + b')[|h| + 1..] == b';
  }

  lemma LastMarker(h: seq<Text>, b: seq<Text>, h': seq<Text>, b': seq<Text>, m: Text)
    requires h + [m] + b == h' + [m] + b' && m !in b && m !in b'
    ensures h == h' && b == b'
  {
    MarkerBehind(h, b, h', b', m);
    MarkerBehind(h', b', h, b, m);
    SameCut(h, m, b, h', m, b');
  }

  ghost predicate Slashed(t: Text) {
    t != [] && t[0] == SLASH
  }

  ghost predicate AllSlashed(d: seq<Text>) {
    forall i :: 0 <= i < |d| ==> Slashed(d[i])
  }

  lemma SlashedBefore(d: seq<Text>, k: Text, x: seq<Text>, d': seq<Text>, k': Text, x': seq<Text>)
    requires d + [k] + x == d' + [k'] + x' && AllSlashed(d')
    ensures |d| < |d'| ==> Slashed(k)
  {
    assert (d + [k] + x)[|d|] == k;
    assert |d| < |d'| ==> (d' + [k'] + x')[|d|] == d'[|d|];
  }

  lemma FirstMarker(d: seq<Text>, k: Text, x: seq<Text>, d': seq<Text>, k': Text, x': seq<Text>)
    requires d + [k] + x == d' + [k'] + x'
    requires AllSlashed(d) && AllSlashed(d') && !Slashed(k) && !Slashed(k')
    ensures d == d' && k == k' && x == x'
  {
    SlashedBefore(d, k, x, d', k', x');
    SlashedBefore(d', k', x', d, k, x);
    SameCut(d, k, x, d', k', x');
  }

  /** The directives can be read off their joined lines: an empty first line means none. */
  lemma DirectiveLines(f: File)
    requires DirectivesOk(f)
    ensures Split(Join(f.directives)) == if f.directives == [] then [[]] else f.directives
  {
    if f.directives != [] {
      SplitJoin(f.directives);
    }
  }

  lemma SameHeader(f: File, g: File)
    requires DirectivesOk(f) && DirectivesOk(g) && Header(f) == Header(g)
    ensures f.directives == g.directives && f.kind == g.kind
    ensures Join(Bodies(Kept(f.statements))) == Join(Bodies(Kept(g.statements)))
  {
    HeaderLines(f);
    HeaderLines(g);
    DirectiveLines(f);
    DirectiveLines(g);
    var x, y := Join(Bodies(Kept(f.statements))), Join(Bodies(Kept(g.statements)));
    JoinSplit(x);
    JoinSplit(y);
    assert Split(Header(f))[0] == (if f.directives == [] then [] else f.directives[0]);
    assert Split(Header(g))[0] == (if g.directives == [] then [] else g.directives[0]);
    if f.directives == [] {
      assert g.directives == [];
      assert Split(Header(f))[1] == KindText(f.kind) && Split(Header(g))[1] == KindText(g.kind);
      assert Split(Header(f))[2..] == Split(x) && Split(Header(g))[2..] == Split(y);
    } else {
      FirstMarker(f.directives, KindText(f.kind), Split(x), g.directives, KindText(g.kind), Split(y));
    }
  }

  function BlockTail(es: seq<Export>): seq<Text> {
    Split(Block(es)) + [[]]
  }

  lemma NoMarkerInBlock(es: seq<Export>)
    ensures EXPORTS !in BlockTail(es)
  {
    BlockLines(es);
  }

  lemma SplitIsInjective(x: Text, y: Text)
    requires Split(x) == Split(y)
    ensures x == y
  {
    JoinSplit(x);
    JoinSplit(y);
  }

  lemma SameTail(xs: seq<Export>, ys: seq<Export>)
    requires BlockTail(xs) == BlockTail(ys)
    ensures Block(xs) == Block(ys)
  {
    var n := |BlockTail(xs)| - 1;
    assert BlockTail(xs)[..n] == Split(Block(xs)) && BlockTail(ys)[..n] == Split(Block(ys));
    SplitIsInjective(Block(xs), Block(ys));
  }

  lemma SameNormalText(f: File, g: File)
    requires NormalText(f) == NormalText(g)
    ensures Header(f) == Header(g) && Block(Exports(f.statements)) == Block(Exports(g.statements))
  {
    var xs, ys := Exports(f.statements), Exports(g.statements);
    NormalLines(f);
    NormalLines(g);
    NoMarkerInBlock(xs);
    NoMarkerInBlock(ys);
    LastMarker(Split(Header(f)), BlockTail(xs), Split(Header(g)), BlockTail(ys), EXPORTS);
    SplitIsInjective(Header(f), Header(g));
    SameTail(xs, ys);
  }

  /** Two files have the same normal form exactly when their directives, their kind, the text of
      their other statements in order, and their export specifiers with multiplicity are the same. */
  lemma NormalFormIff(f: File, g: File)
    requires DirectivesOk(f) && DirectivesOk(g)
    ensures NormalText(f) == NormalText(g) <==>
              && f.directives == g.directives && f.kind == g.kind
              && Join(Bodies(Kept(f.statements))) == Join(Bodies(Kept(g.statements)))
              && multiset(Exports(f.statements)) == multiset(Exports(g.statements))
  {
    BlockIsCanonical(Exports(f.statements), Exports(g.statements));
    if NormalText(f) == NormalText(g) {
      SameNormalText(f, g);
      SameHeader(f, g);
    }
  }
}
