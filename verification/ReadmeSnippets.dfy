/** The README snippet gate: receivers are bound and imports move into a generated header, and the
    diagnostics of the compiled text still point at the README's lines. */
module ReadmeSnippets {
  import opened Wrappers
  import opened Texts

  // ---- Lines as the compiler counts them ----

  const CR: CodeUnit := 13
  const LS: CodeUnit := 0x2028
  const PS: CodeUnit := 0x2029

  /** Whether the code unit at `i` ends a line, by section 12.3 of ECMA-262: a carriage return
      before a line feed ends it only together with that line feed. */
  predicate IsBreak(t: Text, i: nat)
    requires i < |t|
  {
    t[i] == NL || t[i] == LS || t[i] == PS || (t[i] == CR && !(i + 1 < |t| && t[i + 1] == NL))
  }

  /** The zero-based line of position `p`. */
  function Line(t: Text, p: nat): nat
    requires p <= |t|
  {
    if p == 0 then 0 else Line(t, p - 1) + if IsBreak(t, p - 1) then 1 else 0
  }

  ghost predicate Plain(t: Text) {
    CR !in t && LS !in t && PS !in t
  }

  predicate EndsInCr(t: Text) {
    t != [] && t[|t| - 1] == CR
  }

  ghost predicate Merges(x: Text, y: Text) {
    EndsInCr(x) && y != [] && y[0] == NL
  }

  lemma {:induction false} LineLeft(x: Text, y: Text, p: nat)
    requires p < |x| || (p == |x| && !Merges(x, y))
    ensures Line(x + y, p) == Line(x, p)
  {
    if p > 0 {
      LineLeft(x, y, p - 1);
      assert (x + y)[p - 1] == x[p - 1];
    }
  }

  /** Lines add up over a concatenation, but for a carriage return that meets a line feed. */
  lemma {:induction false} LineConcat(x: Text, y: Text, q: nat)
    requires q <= |y|
    ensures Line(x + y, |x| + q) == Line(x, |x|) - (if Merges(x, y) then 1 else 0) + Line(y, q)
  {
    if q > 0 {
      LineConcat(x, y, q - 1);
      assert (x + y)[|x| + q - 1] == y[q - 1];
    } else if |x| > 0 {
      LineLeft(x, y, |x| - 1);
    }
  }

  lemma {:induction false} FeedsOfPrefix(t: Text, p: nat)
    requires p < |t|
    ensures Feeds(t[..p + 1]) == Feeds(t[..p]) + if t[p] == NL then 1 else 0
  {
    assert t[..p + 1] == t[..p] + [t[p]];
    FeedsConcat(t[..p], [t[p]]);
    assert [t[p]][1..] == [];
    assert Split([]) == [[]];
  }

  /** Every line feed ends a line, and in a text without other terminators nothing else does. */
  lemma {:induction false} LineFeeds(t: Text, p: nat)
    requires p <= |t|
    ensures Line(t, p) >= Feeds(t[..p])
    ensures Plain(t) ==> Line(t, p) == Feeds(t[..p])
  {
    if p > 0 {
      LineFeeds(t, p - 1);
      FeedsOfPrefix(t, p - 1);
    }
  }

  /** The line ends of a text that are no line feeds. */
  function Extra(t: Text): int {
    Line(t, |t|) - Feeds(t)
  }

  lemma ExtraOf(t: Text)
    ensures Extra(t) >= 0 && (Plain(t) ==> Extra(t) == 0)
  {
    LineFeeds(t, |t|);
    assert t[..|t|] == t;
  }

  /** No line ends but at a line feed. */
  ghost predicate OnlyFeeds(t: Text) {
    forall i :: 0 <= i < |t| && IsBreak(t, i) ==> t[i] == NL
  }

  lemma {:induction false} ExtraUpTo(t: Text, p: nat)
    requires p <= |t|
    ensures Line(t, p) == Feeds(t[..p]) <==> forall i :: 0 <= i < p && IsBreak(t, i) ==> t[i] == NL
  {
    if p > 0 {
      ExtraUpTo(t, p - 1);
      FeedsOfPrefix(t, p - 1);
      LineFeeds(t, p - 1);
    }
  }

  lemma ExtraIff(t: Text)
    ensures Extra(t) == 0 <==> OnlyFeeds(t)
  {
    ExtraUpTo(t, |t|);
    assert t[..|t|] == t;
  }

  // ---- Receivers ----

  predicate IsWord(c: CodeUnit) {
    65 <= c <= 90 || 97 <= c <= 122 || 48 <= c <= 57 || c == 95
  }

  predicate IsLower(c: CodeUnit) {
    97 <= c <= 122
  }

  predicate AllWord(t: Text) {
    forall i :: 0 <= i < |t| ==> IsWord(t[i])
  }

  /** `this.` */
  const THIS: Text := [116, 104, 105, 115, 46]

  predicate Occurs(t: Text, i: nat, part: Text)
    decreases part
  {
    part == [] || (i < |t| && t[i] == part[0] && Occurs(t, i + 1, part[1..]))
  }

  predicate BoundaryBefore(t: Text, i: nat)
    requires i <= |t|
  {
    i == 0 || !IsWord(t[i - 1])
  }

  predicate BoundaryAfter(t: Text, i: nat) {
    i >= |t| || !IsWord(t[i])
  }

  /** `this.<name>` between word boundaries. */
  predicate MatchAt(t: Text, i: nat, name: Text) {
    && i <= |t| && BoundaryBefore(t, i)
    && Occurs(t, i, THIS + name) && BoundaryAfter(t, i + |THIS| + |name|)
  }

  /** The text from `i` on, with `to` for the `len` code units at every hit of the scan. */
  function Scan(t: Text, i: nat, hit: nat -> bool, len: nat, to: Text): Text
    requires len > 0
    decreases if i < |t| then |t| - i else 0
  {
    if i >= |t| then []
    else if hit(i) then to + Scan(t, i + len, hit, len, to)
    else [t[i]] + Scan(t, i + 1, hit, len, to)
  }

  function Matches(t: Text, name: Text): nat -> bool {
    (i: nat) => MatchAt(t, i, name)
  }

  /** The text with every match of the receiver replaced. */
  function Replaced(t: Text, name: Text, to: Text): Text {
    Scan(t, 0, Matches(t, name), |THIS| + |name|, to)
  }

  function WordEnd(t: Text, i: nat): (end: nat)
    requires i <= |t|
    ensures i <= end <= |t| && AllWord(t[i..end]) && BoundaryAfter(t, end)
    decreases |t| - i
  {
    if i == |t| || !IsWord(t[i]) then i
    else
      var end := WordEnd(t, i + 1);
      assert t[i..end] == [t[i]] + t[i + 1..end];
      end
  }

  /** The receivers the text names, from `i` on. */
  function NamesFrom(t: Text, i: nat): (names: seq<Text>)
    requires i <= |t|
    ensures forall k :: 0 <= k < |names| ==> names[k] != [] && AllWord(names[k]) && IsLower(names[k][0])
    decreases |t| - i
  {
    if i == |t| then []
    else if BoundaryBefore(t, i) && Occurs(t, i, THIS) && i + |THIS| < |t| && IsLower(t[i + |THIS|]) then
      var end := WordEnd(t, i + |THIS|);
      [t[i + |THIS|..end]] + NamesFrom(t, end)
    else NamesFrom(t, i + 1)
  }

  /** The names in the order a set of them is filled. */
  function Distinct(names: seq<Text>): seq<Text> {
    if names == [] then []
    else
      var front, last := Distinct(names[..|names| - 1]), names[|names| - 1];
      if last in front then front else front + [last]
  }

  lemma {:induction false} DistinctHolds(names: seq<Text>, n: Text)
    ensures n in Distinct(names) <==> n in names
  {
    if names != [] {
      DistinctHolds(names[..|names| - 1], n);
      assert names == names[..|names| - 1] + [names[|names| - 1]];
    }
  }

  function ClassOf(name: Text): Text
    requires name != [] && IsLower(name[0])
  {
    [name[0] - 32] + name[1..]
  }

  /** The receivers that are bound: named by an exported class and not declared by the snippet. */
  predicate Binds(name: Text, classes: set<Text>, declared: set<Text>) {
    name != [] && AllWord(name) && IsLower(name[0]) && ClassOf(name) in classes && name !in declared
  }

  const CTX: Text := [95, 95, 99, 116, 120, 95]

  function Constant(slot: Text, name: Text): Text {
    CTX + slot + [95] + name
  }

  /** The text with the bound ones among `names` replaced, one name after the other. */
  function Bound(t: Text, names: seq<Text>, classes: set<Text>, declared: set<Text>, slot: Text): Text {
    if names == [] then t
    else
      var before, name := Bound(t, names[..|names| - 1], classes, declared, slot), names[|names| - 1];
      if Binds(name, classes, declared) then Replaced(before, name, Constant(slot, name)) else before
  }

  /** `bindReceivers`; `declared` is what the parser finds declared or assigned in the snippet. */
  method BindReceivers(code: Text, classes: set<Text>, declared: set<Text>, slot: Text)
    returns (rewritten: Text, bound: map<Text, Text>)
    ensures rewritten == Bound(code, Distinct(NamesFrom(code, 0)), classes, declared, slot)
    ensures forall n :: n in bound <==> n in NamesFrom(code, 0) && Binds(n, classes, declared)
    ensures forall n :: n in bound ==> bound[n] == ClassOf(n)
  {
    var names := Distinct(NamesFrom(code, 0));
    forall n ensures n in names <==> n in NamesFrom(code, 0) {
      DistinctHolds(NamesFrom(code, 0), n);
    }
    rewritten, bound := code, map[];
    for i := 0 to |names|
      invariant rewritten == Bound(code, names[..i], classes, declared, slot)
      invariant forall n :: n in bound <==> n in names[..i] && Binds(n, classes, declared)
      invariant forall n :: n in bound ==> bound[n] == ClassOf(n)
    {
      assert names[..i + 1] == names[..i] + [names[i]] && names[..i + 1][..i] == names[..i];
      var name := names[i];
      assert name in names;
      var cls := ClassOf(name);
      if cls in classes && name !in declared {
        bound := bound[name := cls];
        rewritten := Replaced(rewritten, name, Constant(slot, name));
      }
    }
    assert names[..|names|] == names;
  }

  // ---- Binding works line by line ----

  lemma NoMatchAtFeed(t: Text, i: nat, name: Text)
    requires i < |t| && t[i] == NL
    ensures !MatchAt(t, i, name)
  {
    assert (THIS + name)[0] == 116;
  }

  lemma {:induction false} OccursAfter(whole: Text, k: nat, j: nat, part: Text)
    requires k + j <= |whole|
    ensures Occurs(whole, k + j, part) == Occurs(whole[k..], j, part)
    decreases part
  {
    if part != [] && k + j < |whole| {
      OccursAfter(whole, k, j + 1, part[1..]);
    }
  }

  /** What follows a line feed is matched as a text of its own. */
  lemma MatchAfterFeed(whole: Text, k: nat, j: nat, name: Text)
    requires 0 < k && k + j <= |whole| && whole[k - 1] == NL
    ensures MatchAt(whole, k + j, name) == MatchAt(whole[k..], j, name)
  {
    OccursAfter(whole, k, j, THIS + name);
    assert j > 0 ==> whole[k + j - 1] == whole[k..][j - 1];
  }

  lemma {:induction false} OccursBefore(x: Text, y: Text, i: nat, part: Text)
    requires i <= |x| && NL !in part
    ensures Occurs(x + [NL] + y, i, part) == Occurs(x, i, part)
    decreases part
  {
    var whole := x + [NL] + y;
    if part != [] {
      assert part[0] in part;
      if i < |x| {
        assert whole[i] == x[i];
        OccursBefore(x, y, i + 1, part[1..]);
      } else {
        assert whole[i] == NL;
      }
    }
  }

  lemma {:induction false} OccursFits(t: Text, i: nat, part: Text)
    requires i <= |t|
    ensures Occurs(t, i, part) ==> i + |part| <= |t|
    decreases part
  {
    if part != [] && i < |t| {
      OccursFits(t, i + 1, part[1..]);
    }
  }

  lemma MatchBeforeFeed(x: Text, y: Text, i: nat, name: Text)
    requires i < |x| && AllWord(name)
    ensures MatchAt(x + [NL] + y, i, name) == MatchAt(x, i, name)
  {
    var whole := x + [NL] + y;
    assert NL !in THIS + name;
    OccursBefore(x, y, i, THIS + name);
    OccursFits(x, i, THIS + name);
    var end := i + |THIS + name|;
    assert end < |x| ==> whole[end] == x[end];
    assert whole[|x|] == NL;
    assert i > 0 ==> whole[i - 1] == x[i - 1];
  }

  lemma {:induction false} ScanOfRest(whole: Text, k: nat, y: Text, j: nat,
                                      hit: nat -> bool, hit': nat -> bool, len: nat, to: Text)
    requires len > 0 && k <= |whole| && y == whole[k..]
    requires forall i: nat :: i < |y| ==> hit'(i) == hit(k + i)
    ensures Scan(whole, k + j, hit, len, to) == Scan(y, j, hit', len, to)
    decreases if j < |y| then |y| - j else 0
  {
    if j < |y| {
      assert hit'(j) == hit(k + j);
      ScanOfRest(whole, k, y, j + len, hit, hit', len, to);
      ScanOfRest(whole, k, y, j + 1, hit, hit', len, to);
    }
  }

  lemma {:induction false} ScanUpTo(whole: Text, x: Text, i: nat,
                                    hit: nat -> bool, hit': nat -> bool, len: nat, to: Text)
    requires len > 0 && i <= |x| && x <= whole
    requires forall i: nat :: i < |x| ==> hit'(i) == hit(i) && (hit'(i) ==> i + len <= |x|)
    ensures Scan(whole, i, hit, len, to) == Scan(x, i, hit', len, to) + Scan(whole, |x|, hit, len, to)
    decreases |x| - i
  {
    if i < |x| {
      assert hit'(i) == hit(i);
      ScanUpTo(whole, x, if hit'(i) then i + len else i + 1, hit, hit', len, to);
    }
  }

  lemma MatchEnds(t: Text, i: nat, name: Text)
    ensures MatchAt(t, i, name) ==> i + (|THIS| + |name|) <= |t|
  {
    if i <= |t| {
      OccursFits(t, i, THIS + name);
    }
  }

  lemma ScanBeforeFeed(x: Text, y: Text, name: Text, to: Text)
    requires AllWord(name)
    ensures var whole, len := x + [NL] + y, |THIS| + |name|;
            Replaced(whole, name, to) == Replaced(x, name, to) + Scan(whole, |x|, Matches(whole, name), len, to)
  {
    var whole, len := x + [NL] + y, |THIS| + |name|;
    var hit, hit' := Matches(whole, name), Matches(x, name);
    forall i: nat | i < |x| ensures hit'(i) == hit(i) && (hit'(i) ==> i + len <= |x|) {
      MatchBeforeFeed(x, y, i, name);
      MatchEnds(x, i, name);
    }
    ScanUpTo(whole, x, 0, hit, hit', len, to);
  }

  lemma ScanAtFeed(t: Text, i: nat, name: Text, to: Text)
    requires i < |t| && t[i] == NL
    ensures var hit, len := Matches(t, name), |THIS| + |name|;
            Scan(t, i, hit, len, to) == [NL] + Scan(t, i + 1, hit, len, to)
  {
    NoMatchAtFeed(t, i, name);
  }

  lemma ScanAfterFeed(whole: Text, k: nat, name: Text, to: Text)
    requires 0 < k <= |whole| && whole[k - 1] == NL
    ensures Scan(whole, k, Matches(whole, name), |THIS| + |name|, to) == Replaced(whole[k..], name, to)
  {
    var y := whole[k..];
    var hit, hit' := Matches(whole, name), Matches(y, name);
    forall i: nat | i < |y| ensures hit'(i) == hit(k + i) {
      MatchAfterFeed(whole, k, i, name);
    }
    ScanOfRest(whole, k, y, 0, hit, hit', |THIS| + |name|, to);
  }

  /** Replacing works on both sides of a line feed by itself. */
  lemma ReplacedAcrossFeed(x: Text, y: Text, name: Text, to: Text)
    requires AllWord(name)
    ensures Replaced(x + [NL] + y, name, to) == Replaced(x, name, to) + [NL] + Replaced(y, name, to)
  {
    var whole := x + [NL] + y;
    ScanBeforeFeed(x, y, name, to);
    ScanAtFeed(whole, |x|, name, to);
    ScanAfterFeed(whole, |x| + 1, name, to);
    assert whole[|x| + 1..] == y;
  }

  lemma {:induction false} ScanStaysOneLine(t: Text, i: nat, hit: nat -> bool, len: nat, to: Text)
    requires len > 0 && OneLine(t) && OneLine(to)
    ensures OneLine(Scan(t, i, hit, len, to))
    decreases if i < |t| then |t| - i else 0
  {
    if i < |t| {
      ScanStaysOneLine(t, if hit(i) then i + len else i + 1, hit, len, to);
      assert t[i] in t;
    }
  }

  function ReplacedEach(lines: seq<Text>, name: Text, to: Text): seq<Text> {
    seq(|lines|, k requires 0 <= k < |lines| => Replaced(lines[k], name, to))
  }

  lemma {:induction false} ReplacedLines(lines: seq<Text>, name: Text, to: Text)
    requires lines != [] && AllOneLine(lines) && AllWord(name) && OneLine(to)
    ensures Split(Replaced(Join(lines), name, to)) == ReplacedEach(lines, name, to)
  {
    ScanStaysOneLine(lines[0], 0, Matches(lines[0], name), |THIS| + |name|, to);
    SplitOneLine(Replaced(lines[0], name, to));
    if |lines| > 1 {
      ReplacedLines(lines[1..], name, to);
      ReplacedAcrossFeed(lines[0], Join(lines[1..]), name, to);
      SplitAtFeed(Replaced(lines[0], name, to), Replaced(Join(lines[1..]), name, to));
      assert ReplacedEach(lines, name, to) == [Replaced(lines[0], name, to)] + ReplacedEach(lines[1..], name, to);
    }
  }

  function BoundEach(lines: seq<Text>, names: seq<Text>, classes: set<Text>, declared: set<Text>, slot: Text):
    seq<Text>
  {
    seq(|lines|, k requires 0 <= k < |lines| => Bound(lines[k], names, classes, declared, slot))
  }

  /** Binding keeps every line where it is: line `k` of the result is line `k` of the snippet with
      its own receivers bound. */
  lemma {:induction false} BindingIsLineByLine(t: Text, names: seq<Text>, classes: set<Text>, declared: set<Text>,
                                               slot: Text)
    requires AllWord(slot)
    ensures Split(Bound(t, names, classes, declared, slot)) == BoundEach(Split(t), names, classes, declared, slot)
  {
    if names != [] {
      var front, name := names[..|names| - 1], names[|names| - 1];
      BindingIsLineByLine(t, front, classes, declared, slot);
      var before := Bound(t, front, classes, declared, slot);
      if Binds(name, classes, declared) {
        JoinSplit(before);
        SplitIsClean(before);
        ReplacedLines(Split(before), name, Constant(slot, name));
      }
    }
  }

  // ---- Preparing a snippet ----

  /** How an import names its module, and the names it imports. */
  datatype Specifier = NotRelative | Relative(start: nat, end: nat, imported: seq<Text>)

  /** A snippet cut at its imports. */
  datatype Piece = Kept(text: Text) | Import(text: Text, specifier: Specifier)

  /** `import` */
  const IMPORT: Text := [105, 109, 112, 111, 114, 116]

  /** What the import pattern guarantees of a match: it opens with the keyword, ends in a line feed,
      and a quote closes its specifier before that. */
  ghost predicate WellCut(p: Piece) {
    p.Import? ==>
      && |p.text| > |IMPORT| && p.text[..|IMPORT|] == IMPORT && p.text[|p.text| - 1] == NL
      && (p.specifier.Relative? ==> p.specifier.start <= p.specifier.end < |p.text|)
  }

  ghost predicate AllWellCut(ps: seq<Piece>) {
    forall k :: 0 <= k < |ps| ==> WellCut(ps[k])
  }

  function Source(ps: seq<Piece>): Text {
    if ps == [] then [] else Source(ps[..|ps| - 1]) + ps[|ps| - 1].text
  }

  function Blank(n: nat): Text {
    seq(n, i => NL)
  }

  function BodyOf(p: Piece): Text {
    if p.Kept? then p.text else Blank(Feeds(p.text))
  }

  /** The snippet with every import replaced by as many line feeds as it has. */
  function Body(ps: seq<Piece>): Text {
    if ps == [] then [] else Body(ps[..|ps| - 1]) + BodyOf(ps[|ps| - 1])
  }

  function FirstExporter(imported: seq<Text>, exporters: map<Text, Text>): Option<Text> {
    if imported == [] then None
    else if imported[0] in exporters then Some(exporters[imported[0]])
    else FirstExporter(imported[1..], exporters)
  }

  /** `./` */
  const HERE: Text := [46, 47]

  /** `resolveRelativeImports`: the specifier points at the snippet that exports an imported name. */
  function Resolved(p: Piece, exporters: map<Text, Text>): Text
    requires p.Import?
  {
    match p.specifier
    case NotRelative => p.text
    case Relative(start, end, imported) =>
      match FirstExporter(imported, exporters)
      case None => p.text
      case Some(file) =>
        if start <= end <= |p.text| then p.text[..start] + HERE + file + p.text[end..] else p.text
  }

  function Imports(ps: seq<Piece>, exporters: map<Text, Text>): Text {
    if ps == [] then []
    else
      var last := ps[|ps| - 1];
      Imports(ps[..|ps| - 1], exporters) + if last.Import? then Resolved(last, exporters) else []
  }

  /** The code units of a literal of printable characters. */
  function Units(s: string): (t: Text)
    ensures |t| == |s| && forall i :: 0 <= i < |t| ==> 32 <= t[i] <= 126
  {
    seq(|s|, i requires 0 <= i < |s| => if ' ' <= s[i] <= '~' then s[i] as int else 32)
  }

  function Header(ps: seq<Piece>, exporters: map<Text, Text>, missing: Text): Text {
    (if missing != [] then missing + [NL] else []) + Imports(ps, exporters)
  }

  /** The line that opens a wrapper: a class for a decorated method, a function for statements. */
  function Opening(decorated: bool, declares: bool): Text {
    if decorated then Units("class SnippetController extends SnippetBase {") + [NL]
    else if !declares then Units("async function snippet(this: SnippetContext) {") + [NL]
    else []
  }

  function Prefix(ps: seq<Piece>, exporters: map<Text, Text>, missing: Text, decorated: bool, declares: bool): Text {
    Header(ps, exporters, missing) + Opening(decorated, declares)
  }

  function Suffix(decorated: bool, declares: bool): Text {
    if decorated || !declares then Units("}") + [NL] else []
  }

  /** `prepareSnippet`; `missing` is the generated import of public names, `decorated` and
      `declares` what the two patterns find in the body. */
  method PrepareSnippet(ps: seq<Piece>, exporters: map<Text, Text>, missing: Text, decorated: bool, declares: bool)
    returns (text: Text, offset: nat)
    ensures text == Prefix(ps, exporters, missing, decorated, declares) + Body(ps) + Suffix(decorated, declares)
    ensures offset == Feeds(Prefix(ps, exporters, missing, decorated, declares))
  {
    var imports: Text, body: Text := [], [];
    for i := 0 to |ps|
      invariant imports == Imports(ps[..i], exporters) && body == Body(ps[..i])
    {
      assert ps[..i + 1][..i] == ps[..i];
      if ps[i].Import? {
        imports := imports + Resolved(ps[i], exporters);
        body := body + Blank(Feeds(ps[i].text));
      } else {
        body := body + ps[i].text;
      }
    }
    assert ps[..|ps|] == ps;
    var header := (if missing != [] then missing + [NL] else []) + imports;
    var prefix, suffix: Text := header, [];
    if decorated {
      prefix := header + (Units("class SnippetController extends SnippetBase {") + [NL]);
      suffix := Units("}") + [NL];
    } else if !declares {
      prefix := header + (Units("async function snippet(this: SnippetContext) {") + [NL]);
      suffix := Units("}") + [NL];
    } else {
      assert header + [] == header;
    }
    text, offset := prefix + body + suffix, Feeds(prefix);
  }

  /** Where a diagnostic is reported: nowhere in the README, or on a one-based line. */
  datatype Position = InHeader | OnLine(line: int)

  /** The mapping in `compileGate`, for a diagnostic at `p` of a compiled text. */
  function Reported(text: Text, offset: nat, p: nat): Position
    requires p <= |text|
  {
    if Line(text, p) < offset then InHeader else OnLine(Line(text, p) + 1 - offset)
  }

  // ---- The mapping ----

  ghost predicate ClosedLine(t: Text) {
    t == [] || t[|t| - 1] == NL
  }

  lemma ResolvedEndsInFeed(p: Piece, exporters: map<Text, Text>)
    requires p.Import? && WellCut(p)
    ensures Resolved(p, exporters) != [] && Resolved(p, exporters)[|Resolved(p, exporters)| - 1] == NL
  {
  }

  lemma {:induction false} ImportsClosed(ps: seq<Piece>, exporters: map<Text, Text>)
    requires AllWellCut(ps)
    ensures ClosedLine(Imports(ps, exporters))
  {
    if ps != [] {
      ImportsClosed(ps[..|ps| - 1], exporters);
      if ps[|ps| - 1].Import? {
        ResolvedEndsInFeed(ps[|ps| - 1], exporters);
      }
    }
  }

  /** The generated prefix is empty or ends in a line feed. */
  lemma PrefixClosed(ps: seq<Piece>, exporters: map<Text, Text>, missing: Text, decorated: bool, declares: bool)
    requires AllWellCut(ps)
    ensures ClosedLine(Prefix(ps, exporters, missing, decorated, declares))
  {
    ImportsClosed(ps, exporters);
  }

  lemma {:induction false} BlankLines(n: nat)
    ensures Line(Blank(n), n) == n && Feeds(Blank(n)) == n
  {
    if n > 0 {
      BlankLines(n - 1);
      assert Blank(n) == Blank(n - 1) + [NL];
      LineLeft(Blank(n - 1), [NL], n - 1);
      FeedsOfPrefix(Blank(n), n - 1);
      assert Blank(n)[..n - 1] == Blank(n - 1) && Blank(n)[..n] == Blank(n);
    }
  }

  lemma ImportHasFeed(t: Text)
    requires t != [] && t[|t| - 1] == NL
    ensures Feeds(t) >= 1
  {
    FeedsOfPrefix(t, |t| - 1);
    assert t[..|t|] == t;
  }

  /** The line ends that blanking the imports loses: those inside an import that are no line feeds,
      and a carriage return before an import, which then meets a line feed. */
  function Lost(ps: seq<Piece>): int {
    if ps == [] then 0
    else
      var front, last := ps[..|ps| - 1], ps[|ps| - 1];
      Lost(front) + if last.Kept? then 0 else Extra(last.text) + if EndsInCr(Source(front)) then 1 else 0
  }

  lemma KeptPieceLines(front: Text, front': Text, t: Text)
    requires EndsInCr(front) <==> EndsInCr(front')
    ensures Line(front + t, |front + t|) - Line(front, |front|)
         == Line(front' + t, |front' + t|) - Line(front', |front'|)
    ensures EndsInCr(front + t) <==> EndsInCr(front' + t)
  {
    LineConcat(front, t, |t|);
    LineConcat(front', t, |t|);
  }

  lemma ImportLines(front: Text, t: Text)
    requires t != [] && t[0] == IMPORT[0] && t[|t| - 1] == NL
    ensures Line(front + t, |front + t|) == Line(front, |front|) + Line(t, |t|) && !EndsInCr(front + t)
  {
    LineConcat(front, t, |t|);
  }

  lemma BlankedLines(front: Text, n: nat)
    requires n > 0
    ensures Line(front + Blank(n), |front + Blank(n)|) == Line(front, |front|) + n - (if EndsInCr(front) then 1 else 0)
    ensures !EndsInCr(front + Blank(n))
  {
    BlankLines(n);
    LineConcat(front, Blank(n), n);
  }

  lemma PieceLines(front: Text, front': Text, p: Piece)
    requires WellCut(p) && (EndsInCr(front) <==> EndsInCr(front'))
    ensures Line(front + p.text, |front + p.text|) - Line(front, |front|)
         == Line(front' + BodyOf(p), |front' + BodyOf(p)|) - Line(front', |front'|)
          + if p.Kept? then 0 else Extra(p.text) + if EndsInCr(front) then 1 else 0
    ensures EndsInCr(front + p.text) <==> EndsInCr(front' + BodyOf(p))
  {
    if p.Kept? {
      KeptPieceLines(front, front', p.text);
    } else {
      ImportHasFeed(p.text);
      assert p.text[0] == p.text[..|IMPORT|][0];
      ImportLines(front, p.text);
      BlankedLines(front', Feeds(p.text));
    }
  }

  lemma {:induction false} BodyLines(ps: seq<Piece>)
    requires AllWellCut(ps)
    ensures Line(Source(ps), |Source(ps)|) == Line(Body(ps), |Body(ps)|) + Lost(ps)
    ensures EndsInCr(Source(ps)) <==> EndsInCr(Body(ps))
  {
    if ps != [] {
      var front, last := ps[..|ps| - 1], ps[|ps| - 1];
      BodyLines(front);
      PieceLines(Source(front), Body(front), last);
    }
  }

  lemma Regroup(a: Text, b: Text, c: Text, d: Text)
    ensures a + (b + c) + d == a + (b + (c + d))
  {
  }

  /** The text around piece `m`, before and after blanking. */
  lemma {:induction false} Around(ps: seq<Piece>, m: nat) returns (after: Text, after': Text)
    requires m < |ps|
    ensures Source(ps) == Source(ps[..m]) + (ps[m].text + after)
    ensures Body(ps) == Body(ps[..m]) + (BodyOf(ps[m]) + after')
  {
    var n := |ps| - 1;
    if m == n {
      after, after' := [], [];
    } else {
      var rest, rest' := Around(ps[..n], m);
      after, after' := rest + ps[n].text, rest' + BodyOf(ps[n]);
      assert ps[..n][..m] == ps[..m];
      Regroup(Source(ps[..m]), ps[m].text, rest, ps[n].text);
      Regroup(Body(ps[..m]), BodyOf(ps[m]), rest', BodyOf(ps[n]));
    }
  }

  /** The line of a position inside a text that stands between two others. */
  lemma {:induction false} LineWithin(x: Text, y: Text, z: Text, q: nat)
    requires q < |y|
    ensures Line(x + (y + z), |x| + q) == Line(x, |x|) - (if Merges(x, y) then 1 else 0) + Line(y, q)
  {
    LineConcat(x, y + z, q);
    LineLeft(y, z, q);
  }

  lemma {:induction false} PrefixLines(prefix: Text, body: Text)
    requires ClosedLine(prefix)
    ensures Line(prefix + body, |prefix + body|) == Line(prefix, |prefix|) + Line(body, |body|)
    ensures EndsInCr(prefix + body) <==> EndsInCr(body)
  {
    LineConcat(prefix, body, |body|);
  }

  /** Position `q` of kept piece `m`: where it is in the snippet and where in the compiled text. */
  function InSource(ps: seq<Piece>, m: nat, q: nat): nat
    requires m < |ps|
  {
    |Source(ps[..m])| + q
  }

  function InCompiled(prefix: Text, ps: seq<Piece>, m: nat, q: nat): nat
    requires m < |ps|
  {
    |prefix| + |Body(ps[..m])| + q
  }

  lemma {:induction false} KeptInSource(ps: seq<Piece>, m: nat, q: nat)
    requires m < |ps| && q < |ps[m].text|
    ensures InSource(ps, m, q) < |Source(ps)| && Source(ps)[InSource(ps, m, q)] == ps[m].text[q]
    ensures var before := Source(ps[..m]);
            Line(Source(ps), InSource(ps, m, q))
            == Line(before, |before|) - (if Merges(before, ps[m].text) then 1 else 0) + Line(ps[m].text, q)
  {
    var before := Source(ps[..m]);
    var after, _ := Around(ps, m);
    var text := before + (ps[m].text + after);
    LineWithin(before, ps[m].text, after, q);
    assert text[|before| + q] == ps[m].text[q];
  }

  lemma {:induction false} KeptInCompiled(prefix: Text, ps: seq<Piece>, suffix: Text, m: nat, q: nat)
    requires ClosedLine(prefix) && m < |ps| && ps[m].Kept? && q < |ps[m].text|
    ensures InCompiled(prefix, ps, m, q) < |prefix + Body(ps) + suffix|
    ensures (prefix + Body(ps) + suffix)[InCompiled(prefix, ps, m, q)] == ps[m].text[q]
    ensures var before := Body(ps[..m]);
            Line(prefix + Body(ps) + suffix, InCompiled(prefix, ps, m, q))
            == Line(prefix, |prefix|) + Line(before, |before|)
             - (if Merges(before, ps[m].text) then 1 else 0) + Line(ps[m].text, q)
  {
    var before := Body(ps[..m]);
    var _, after := Around(ps, m);
    RegroupCompiled(prefix, before, ps[m].text, after, suffix);
    LineWithinPrefixed(prefix, before, ps[m].text, after + suffix, q);
  }

  lemma LineWithinPrefixed(prefix: Text, before: Text, kept: Text, tail: Text, q: nat)
    requires ClosedLine(prefix) && q < |kept|
    ensures var text, p := prefix + before + (kept + tail), |prefix| + |before| + q;
            && text[p] == kept[q]
            && Line(text, p)
               == Line(prefix, |prefix|) + Line(before, |before|)
                - (if Merges(before, kept) then 1 else 0) + Line(kept, q)
  {
    var text := prefix + before + (kept + tail);
    LineWithin(prefix + before, kept, tail, q);
    PrefixLines(prefix, before);
    assert text[|prefix + before| + q] == kept[q];
  }

  lemma RegroupCompiled(prefix: Text, before: Text, kept: Text, after: Text, suffix: Text)
    ensures prefix + (before + (kept + after)) + suffix == prefix + before + (kept + (after + suffix))
  {
  }

  /** Kept text is carried over as it stands, down by the prefix's lines and up by the lost ones. */
  lemma KeptLine(prefix: Text, ps: seq<Piece>, suffix: Text, m: nat, q: nat)
    requires AllWellCut(ps) && ClosedLine(prefix) && m < |ps| && ps[m].Kept? && q < |ps[m].text|
    ensures InSource(ps, m, q) < |Source(ps)| && InCompiled(prefix, ps, m, q) < |prefix + Body(ps) + suffix|
    ensures (prefix + Body(ps) + suffix)[InCompiled(prefix, ps, m, q)] == Source(ps)[InSource(ps, m, q)]
    ensures Line(prefix + Body(ps) + suffix, InCompiled(prefix, ps, m, q))
         == Line(Source(ps), InSource(ps, m, q)) + Line(prefix, |prefix|) - Lost(ps[..m])
  {
    KeptInSource(ps, m, q);
    KeptInCompiled(prefix, ps, suffix, m, q);
    BodyLines(ps[..m]);
  }

  lemma AfterPrefix(prefix: Text, ps: seq<Piece>, suffix: Text, m: nat, q: nat)
    requires ClosedLine(prefix) && m < |ps| && InCompiled(prefix, ps, m, q) <= |prefix + Body(ps) + suffix|
    ensures Line(prefix + Body(ps) + suffix, InCompiled(prefix, ps, m, q)) >= Line(prefix, |prefix|)
  {
    var rest := Body(ps) + suffix;
    assert prefix + Body(ps) + suffix == prefix + rest;
    LineConcat(prefix, rest, InCompiled(prefix, ps, m, q) - |prefix|);
  }

  /** A diagnostic on kept text is never taken for one in the header, and is reported off by the
      prefix's line ends that are no line feeds, less those the blanked imports before it lost. */
  lemma KeptIsReported(prefix: Text, ps: seq<Piece>, suffix: Text, m: nat, q: nat)
    requires AllWellCut(ps) && ClosedLine(prefix) && m < |ps| && ps[m].Kept? && q < |ps[m].text|
    ensures InSource(ps, m, q) < |Source(ps)| && InCompiled(prefix, ps, m, q) < |prefix + Body(ps) + suffix|
    ensures Reported(prefix + Body(ps) + suffix, Feeds(prefix), InCompiled(prefix, ps, m, q))
         == OnLine(Line(Source(ps), InSource(ps, m, q)) + 1 + Extra(prefix) - Lost(ps[..m]))
  {
    KeptLine(prefix, ps, suffix, m, q);
    ExtraOf(prefix);
    BodyLines(ps[..m]);
    AfterPrefix(prefix, ps, suffix, m, q);
  }

  /** It is reported on its own line exactly when those two numbers agree. */
  lemma OwnLineIff(prefix: Text, ps: seq<Piece>, suffix: Text, m: nat, q: nat)
    requires AllWellCut(ps) && ClosedLine(prefix) && m < |ps| && ps[m].Kept? && q < |ps[m].text|
    ensures InSource(ps, m, q) < |Source(ps)| && InCompiled(prefix, ps, m, q) < |prefix + Body(ps) + suffix|
    ensures var position := Reported(prefix + Body(ps) + suffix, Feeds(prefix), InCompiled(prefix, ps, m, q));
            position == OnLine(Line(Source(ps), InSource(ps, m, q)) + 1) <==> Extra(prefix) == Lost(ps[..m])
  {
    KeptIsReported(prefix, ps, suffix, m, q);
  }

  lemma {:induction false} SeparatorsCount(t: Text, i: nat, p: nat)
    requires i < p <= |t| && (t[i] == LS || t[i] == PS)
    ensures Line(t, p) > Feeds(t[..p])
    decreases p
  {
    FeedsOfPrefix(t, p - 1);
    if i == p - 1 {
      LineFeeds(t, p - 1);
    } else {
      SeparatorsCount(t, i, p - 1);
    }
  }

  /** A separator anywhere in the prefix is one line end too many. */
  lemma SeparatorIsExtra(t: Text, i: nat)
    requires i < |t| && (t[i] == LS || t[i] == PS)
    ensures Extra(t) > 0
  {
    SeparatorsCount(t, i, |t|);
    assert t[..|t|] == t;
  }

  /** `import '\u2028'` and a line feed. */
  const SEPARATING: Text := IMPORT + [32, 39, LS, 39, NL]

  /** The one-line snippet `x` with that import below it. */
  const SNIPPET: seq<Piece> := [Kept([120, NL]), Import(SEPARATING, NotRelative)]

  lemma SeparatorIsInPrefix(exporters: map<Text, Text>, missing: Text, decorated: bool, declares: bool)
    ensures Extra(Prefix(SNIPPET, exporters, missing, decorated, declares)) > 0
  {
    var prefix := Prefix(SNIPPET, exporters, missing, decorated, declares);
    var front := if missing != [] then missing + [NL] else [];
    assert SNIPPET[..1] == [Kept([120, NL])] && SNIPPET[..1][..0] == [];
    assert Imports(SNIPPET[..1], exporters) == [];
    assert Imports(SNIPPET, exporters) == SEPARATING;
    var at := |front| + |IMPORT| + 2;
    assert (front + SEPARATING)[at] == LS;
    SeparatorIsExtra(prefix, at);
  }

  /** An import that holds a line separator moves the text above it off its line: whatever wraps
      the snippet and whatever names are imported for it, a diagnostic on `x` is not reported on
      line 1. */
  lemma SeparatorMovesTheLine(exporters: map<Text, Text>, missing: Text, decorated: bool, declares: bool)
    ensures var prefix, suffix :=
              Prefix(SNIPPET, exporters, missing, decorated, declares), Suffix(decorated, declares);
            var text := prefix + Body(SNIPPET) + suffix;
            && AllWellCut(SNIPPET) && InCompiled(prefix, SNIPPET, 0, 0) <= |text|
            && Reported(text, Feeds(prefix), InCompiled(prefix, SNIPPET, 0, 0)) != OnLine(1)
  {
    var prefix, suffix := Prefix(SNIPPET, exporters, missing, decorated, declares), Suffix(decorated, declares);
    assert WellCut(SNIPPET[0]) && WellCut(SNIPPET[1]);
    PrefixClosed(SNIPPET, exporters, missing, decorated, declares);
    SeparatorIsInPrefix(exporters, missing, decorated, declares);
    assert SNIPPET[..0] == [];
    assert Source(SNIPPET[..0]) == [] && Lost(SNIPPET[..0]) == 0;
    KeptIsReported(prefix, SNIPPET, suffix, 0, 0);
  }

  /** A diagnostic inside a prefix without other line ends is reported as in the header. */
  lemma PrefixIsHeader(prefix: Text, rest: Text, p: nat)
    requires ClosedLine(prefix) && Extra(prefix) == 0 && p < |prefix|
    ensures Reported(prefix + rest, Feeds(prefix), p) == InHeader
  {
    var n := |prefix| - 1;
    LineLeft(prefix, rest, p);
    LineIsMonotone(prefix, p, n);
    assert Line(prefix, |prefix|) == Line(prefix, n) + 1;
  }

  lemma {:induction false} LineIsMonotone(t: Text, p: nat, q: nat)
    requires p <= q <= |t|
    ensures Line(t, p) <= Line(t, q)
    decreases q
  {
    if p < q {
      LineIsMonotone(t, p, q - 1);
    }
  }

  lemma PastPrefixIsNotHeader(prefix: Text, rest: Text, p: nat)
    requires ClosedLine(prefix) && |prefix| <= p <= |prefix + rest|
    ensures Reported(prefix + rest, Feeds(prefix), p).OnLine?
  {
    LineConcat(prefix, rest, p - |prefix|);
    ExtraOf(prefix);
  }

  // ---- Snippets whose only line ends are line feeds ----

  ghost predicate PlainPieces(ps: seq<Piece>, exporters: map<Text, Text>, missing: Text) {
    && Plain(Source(ps)) && Plain(missing)
    && forall name :: name in exporters ==> Plain(exporters[name])
  }

  lemma {:induction false} FirstExporterIsOne(imported: seq<Text>, exporters: map<Text, Text>)
    requires forall name :: name in exporters ==> Plain(exporters[name])
    ensures FirstExporter(imported, exporters).Some? ==> Plain(FirstExporter(imported, exporters).value)
  {
    if imported != [] {
      FirstExporterIsOne(imported[1..], exporters);
    }
  }

  lemma ResolvedIsPlain(p: Piece, exporters: map<Text, Text>)
    requires p.Import? && Plain(p.text)
    requires forall name :: name in exporters ==> Plain(exporters[name])
    ensures Plain(Resolved(p, exporters))
  {
    if p.specifier.Relative? {
      FirstExporterIsOne(p.specifier.imported, exporters);
    }
  }

  lemma PlainEndsNotInCr(t: Text)
    requires Plain(t)
    ensures !EndsInCr(t)
  {
    assert t != [] ==> t[|t| - 1] in t;
  }

  lemma {:induction false} PlainParts(ps: seq<Piece>, exporters: map<Text, Text>)
    requires Plain(Source(ps))
    requires forall name :: name in exporters ==> Plain(exporters[name])
    ensures Lost(ps) == 0 && Plain(Imports(ps, exporters))
  {
    if ps != [] {
      var front, last := ps[..|ps| - 1], ps[|ps| - 1];
      assert forall c :: c in Source(front) || c in last.text ==> c in Source(ps);
      PlainParts(front, exporters);
      ExtraOf(last.text);
      PlainEndsNotInCr(Source(front));
      if last.Import? {
        ResolvedIsPlain(last, exporters);
      }
    }
  }

  lemma {:induction false} SourceFront(ps: seq<Piece>, m: nat)
    requires m <= |ps| && Plain(Source(ps))
    ensures Plain(Source(ps[..m]))
    decreases |ps|
  {
    if m == |ps| {
      assert ps[..m] == ps;
    } else {
      var front := ps[..|ps| - 1];
      assert forall c :: c in Source(front) ==> c in Source(ps);
      SourceFront(front, m);
      assert front[..m] == ps[..m];
    }
  }

  lemma PlainPrefix(ps: seq<Piece>, exporters: map<Text, Text>, missing: Text, decorated: bool, declares: bool)
    requires PlainPieces(ps, exporters, missing)
    ensures Plain(Prefix(ps, exporters, missing, decorated, declares))
  {
    PlainParts(ps, exporters);
    assert Plain(Header(ps, exporters, missing));
    assert Plain(Opening(decorated, declares));
  }

  /** The round trip: when line feeds are the only line ends, a diagnostic on kept text is reported
      on the line the text has in the snippet. */
  lemma DiagnosticsMapBack(ps: seq<Piece>, exporters: map<Text, Text>, missing: Text, decorated: bool, declares: bool,
                           m: nat, q: nat)
    requires AllWellCut(ps) && PlainPieces(ps, exporters, missing)
    requires m < |ps| && ps[m].Kept? && q < |ps[m].text|
    ensures var prefix, suffix := Prefix(ps, exporters, missing, decorated, declares), Suffix(decorated, declares);
            var text, offset := prefix + Body(ps) + suffix, Feeds(prefix);
            && InSource(ps, m, q) < |Source(ps)| && InCompiled(prefix, ps, m, q) < |text|
            && text[InCompiled(prefix, ps, m, q)] == Source(ps)[InSource(ps, m, q)]
            && Reported(text, offset, InCompiled(prefix, ps, m, q))
               == OnLine(Feeds(Source(ps)[..InSource(ps, m, q)]) + 1)
  {
    var prefix, suffix := Prefix(ps, exporters, missing, decorated, declares), Suffix(decorated, declares);
    PrefixClosed(ps, exporters, missing, decorated, declares);
    PlainPrefix(ps, exporters, missing, decorated, declares);
    PlainMapsBack(prefix, ps, suffix, exporters, m, q);
  }

  lemma PlainMapsBack(prefix: Text, ps: seq<Piece>, suffix: Text, exporters: map<Text, Text>, m: nat, q: nat)
    requires AllWellCut(ps) && ClosedLine(prefix) && Plain(prefix) && Plain(Source(ps))
    requires forall name :: name in exporters ==> Plain(exporters[name])
    requires m < |ps| && ps[m].Kept? && q < |ps[m].text|
    ensures InSource(ps, m, q) < |Source(ps)| && InCompiled(prefix, ps, m, q) < |prefix + Body(ps) + suffix|
    ensures (prefix + Body(ps) + suffix)[InCompiled(prefix, ps, m, q)] == Source(ps)[InSource(ps, m, q)]
    ensures Reported(prefix + Body(ps) + suffix, Feeds(prefix), InCompiled(prefix, ps, m, q))
         == OnLine(Feeds(Source(ps)[..InSource(ps, m, q)]) + 1)
  {
    ExtraOf(prefix);
    SourceFront(ps, m);
    PlainParts(ps[..m], exporters);
    KeptLine(prefix, ps, suffix, m, q);
    KeptIsReported(prefix, ps, suffix, m, q);
    LineFeeds(Source(ps), InSource(ps, m, q));
  }

  /** Exactly the positions of the prefix are reported as in the header. */
  ghost predicate HeaderIsPrefix(prefix: Text, rest: Text) {
    forall p :: 0 <= p <= |prefix + rest| ==>
                  (Reported(prefix + rest, Feeds(prefix), p) == InHeader <==> p < |prefix|)
  }

  lemma HeaderIsPrefixIff(prefix: Text, rest: Text)
    requires ClosedLine(prefix)
    ensures HeaderIsPrefix(prefix, rest) <==> Extra(prefix) == 0
  {
    ExtraOf(prefix);
    if Extra(prefix) == 0 {
      forall p | 0 <= p <= |prefix + rest|
        ensures Reported(prefix + rest, Feeds(prefix), p) == InHeader <==> p < |prefix|
      {
        if p < |prefix| {
          PrefixIsHeader(prefix, rest, p);
        } else {
          PastPrefixIsNotHeader(prefix, rest, p);
        }
      }
    } else {
      var last := |prefix| - 1;
      LineLeft(prefix, rest, last);
      assert Line(prefix, |prefix|) == Line(prefix, last) + 1;
      assert Reported(prefix + rest, Feeds(prefix), last) != InHeader;
    }
  }

  /** The header half of the mapping: for any snippet, exactly the positions of the generated prefix
      are reported as in the header if and only if the prefix has no line end but line feeds. */
  lemma HeaderIff(ps: seq<Piece>, exporters: map<Text, Text>, missing: Text, decorated: bool, declares: bool)
    requires AllWellCut(ps)
    ensures var prefix := Prefix(ps, exporters, missing, decorated, declares);
            HeaderIsPrefix(prefix, Body(ps) + Suffix(decorated, declares)) <==> OnlyFeeds(prefix)
  {
    var prefix := Prefix(ps, exporters, missing, decorated, declares);
    PrefixClosed(ps, exporters, missing, decorated, declares);
    HeaderIsPrefixIff(prefix, Body(ps) + Suffix(decorated, declares));
    ExtraIff(prefix);
  }

  /** In particular for every snippet whose only line ends are line feeds. */
  lemma PlainHeader(ps: seq<Piece>, exporters: map<Text, Text>, missing: Text, decorated: bool, declares: bool)
    requires AllWellCut(ps) && PlainPieces(ps, exporters, missing)
    ensures HeaderIsPrefix(Prefix(ps, exporters, missing, decorated, declares), Body(ps) + Suffix(decorated, declares))
  {
    var prefix := Prefix(ps, exporters, missing, decorated, declares);
    PrefixClosed(ps, exporters, missing, decorated, declares);
    PlainPrefix(ps, exporters, missing, decorated, declares);
    ExtraOf(prefix);
    HeaderIsPrefixIff(prefix, Body(ps) + Suffix(decorated, declares));
  }

  /** The reported line of the bound text is the same line of the README's own, its receivers bound. */
  lemma LineOfOriginal(code: Text, ps: seq<Piece>, names: seq<Text>, classes: set<Text>, declared: set<Text>,
                       slot: Text, at: nat)
    requires AllWord(slot) && Source(ps) == Bound(code, names, classes, declared, slot) && at <= |Source(ps)|
    ensures var k := Feeds(Source(ps)[..at]);
            && k < |Split(code)| == |Split(Source(ps))|
            && Split(Source(ps))[k] == Bound(Split(code)[k], names, classes, declared, slot)
  {
    BindingIsLineByLine(code, names, classes, declared, slot);
    assert Source(ps) == Source(ps)[..at] + Source(ps)[at..];
    FeedsConcat(Source(ps)[..at], Source(ps)[at..]);
  }
}
