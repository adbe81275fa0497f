/** The line diff of the API-surface gate: a table of longest-common-subsequence lengths and a
    greedy walk over it, proved minimal against all common subsequences. */
module LineDiff {
  import opened Texts

  // ---- Common subsequences, by index ----

  /** `f` picks the elements of `c` out of `a`, in order. */
  ghost predicate Picks<T>(f: seq<nat>, c: seq<T>, a: seq<T>) {
    && |f| == |c|
    && (forall i :: 0 <= i < |f| ==> f[i] < |a| && a[f[i]] == c[i])
    && (forall i, j :: 0 <= i < j < |f| ==> f[i] < f[j])
  }

  ghost predicate IsSubsequence<T>(c: seq<T>, a: seq<T>) {
    exists f :: Picks(f, c, a)
  }

  ghost predicate IsCommon<T>(c: seq<T>, a: seq<T>, b: seq<T>) {
    IsSubsequence(c, a) && IsSubsequence(c, b)
  }

  /** The same notion, deciding head by head. */
  predicate Sub<T(==)>(c: seq<T>, a: seq<T>)
    decreases |a|
  {
    c == [] || (a != [] && ((c[0] == a[0] && Sub(c[1..], a[1..])) || Sub(c, a[1..])))
  }

  function Shifted(f: seq<nat>, from: nat): seq<nat>
    requires from <= |f| && forall i :: from <= i < |f| ==> f[i] > 0
  {
    seq(|f| - from, i requires 0 <= i < |f| - from => f[from + i] - 1)
  }

  lemma {:induction false} PickedIsSub<T(!new)>(f: seq<nat>, c: seq<T>, a: seq<T>)
    requires Picks(f, c, a)
    ensures Sub(c, a)
    decreases |a|
  {
    if c != [] {
      assert f[0] < |a|;
      if f[0] == 0 {
        PickedIsSub(Shifted(f, 1), c[1..], a[1..]);
      } else {
        assert forall i :: 0 <= i < |f| ==> f[i] > 0;
        PickedIsSub(Shifted(f, 0), c, a[1..]);
      }
    }
  }

  lemma {:induction false} SubIsPicked<T(!new)>(c: seq<T>, a: seq<T>) returns (f: seq<nat>)
    requires Sub(c, a)
    ensures Picks(f, c, a)
    decreases |a|
  {
    if c == [] {
      f := [];
    } else if c[0] == a[0] && Sub(c[1..], a[1..]) {
      var g := SubIsPicked(c[1..], a[1..]);
      f := [0] + seq(|g|, i requires 0 <= i < |g| => g[i] + 1);
    } else {
      var g := SubIsPicked(c, a[1..]);
      f := seq(|g|, i requires 0 <= i < |g| => g[i] + 1);
    }
  }

  lemma SubIsSubsequence<T(!new)>(c: seq<T>, a: seq<T>)
    ensures Sub(c, a) <==> IsSubsequence(c, a)
  {
    if Sub(c, a) {
      var f := SubIsPicked(c, a);
    }
    if IsSubsequence(c, a) {
      var f :| Picks(f, c, a);
      PickedIsSub(f, c, a);
    }
  }

  // ---- The table ----

  function Max(x: nat, y: nat): nat {
    if x >= y then x else y
  }

  /** What the recurrence of the table computes for a pair of suffixes. */
  function Lcs<T(==)>(a: seq<T>, b: seq<T>): nat
    decreases |a| + |b|
  {
    if a == [] || b == [] then 0
    else if a[0] == b[0] then Lcs(a[1..], b[1..]) + 1
    else Max(Lcs(a[1..], b), Lcs(a, b[1..]))
  }

  lemma {:induction false} SubTail<T>(c: seq<T>, a: seq<T>)
    requires c != [] && Sub(c, a)
    ensures a != [] && Sub(c[1..], a[1..])
    decreases |a|
  {
    if !(c[0] == a[0] && Sub(c[1..], a[1..])) {
      SubTail(c, a[1..]);
      SubWider(c[1..], a[1..][1..], a[1]);
      assert [a[1]] + a[1..][1..] == a[1..];
    }
  }

  lemma SubWider<T>(c: seq<T>, a: seq<T>, x: T)
    requires Sub(c, a)
    ensures Sub(c, [x] + a)
  {
    assert ([x] + a)[1..] == a;
  }

  lemma {:induction false} NoneLonger<T>(c: seq<T>, a: seq<T>, b: seq<T>)
    requires Sub(c, a) && Sub(c, b)
    ensures |c| <= Lcs(a, b)
    decreases |a| + |b|
  {
    if c != [] {
      SubTail(c, a);
      SubTail(c, b);
      if a[0] == b[0] {
        NoneLonger(c[1..], a[1..], b[1..]);
      } else if Sub(c, a[1..]) {
        NoneLonger(c, a[1..], b);
      } else {
        NoneLonger(c, a, b[1..]);
      }
    }
  }

  /** The common subsequence the walk keeps. */
  function Kept<T(==)>(a: seq<T>, b: seq<T>): seq<T>
    decreases |a| + |b|
  {
    if a == [] || b == [] then []
    else if a[0] == b[0] then [a[0]] + Kept(a[1..], b[1..])
    else if Lcs(a, b[1..]) >= Lcs(a[1..], b) then Kept(a, b[1..])
    else Kept(a[1..], b)
  }

  lemma {:induction false} KeptIsLongest<T>(a: seq<T>, b: seq<T>)
    ensures |Kept(a, b)| == Lcs(a, b) && Sub(Kept(a, b), a) && Sub(Kept(a, b), b)
    decreases |a| + |b|
  {
    if a != [] && b != [] {
      if a[0] == b[0] {
        KeptIsLongest(a[1..], b[1..]);
      } else if Lcs(a, b[1..]) >= Lcs(a[1..], b) {
        KeptIsLongest(a, b[1..]);
      } else {
        KeptIsLongest(a[1..], b);
      }
    }
  }

  /** Each cell is the length of a longest common subsequence of its two suffixes: one of that
      length exists and none is longer. */
  lemma CellIsLongestCommon<T(!new)>(a: seq<T>, b: seq<T>)
    ensures exists c :: IsCommon(c, a, b) && |c| == Lcs(a, b)
    ensures forall c :: IsCommon(c, a, b) ==> |c| <= Lcs(a, b)
  {
    KeptIsLongest(a, b);
    SubIsSubsequence(Kept(a, b), a);
    SubIsSubsequence(Kept(a, b), b);
    assert IsCommon(Kept(a, b), a, b);
    forall c | IsCommon(c, a, b) ensures |c| <= Lcs(a, b) {
      SubIsSubsequence(c, a);
      SubIsSubsequence(c, b);
      NoneLonger(c, a, b);
    }
  }

  type Table = map<(nat, nat), nat>

  function Cell(t: Table, i: nat, j: nat): nat {
    if (i, j) in t then t[(i, j)] else 0
  }

  predicate Within(t: Table, rows: nat, columns: nat) {
    forall cell :: cell in t ==> cell.0 < rows && cell.1 < columns
  }

  /** Row `i` is filled from column `j` on. */
  ghost predicate RowFrom<T>(t: Table, a: seq<T>, b: seq<T>, i: nat, j: nat)
    requires i <= |a|
  {
    forall j' :: j <= j' <= |b| ==> Cell(t, i, j') == Lcs(a[i..], b[j'..])
  }

  ghost predicate RowsFrom<T>(t: Table, a: seq<T>, b: seq<T>, i: nat) {
    forall i' :: i <= i' <= |a| ==> RowFrom(t, a, b, i', 0)
  }

  lemma LcsTurn<T>(a: seq<T>, b: seq<T>, i: nat, j: nat)
    requires i < |a| && j < |b|
    ensures Lcs(a[i..], b[j..])
         == if a[i] == b[j] then Lcs(a[i + 1..], b[j + 1..]) + 1
            else Max(Lcs(a[i + 1..], b[j..]), Lcs(a[i..], b[j + 1..]))
  {
    assert a[i..][1..] == a[i + 1..] && b[j..][1..] == b[j + 1..];
  }

  method FillRow<T(==)>(a: seq<T>, b: seq<T>, rows: Table, i: nat) returns (t: Table)
    requires i < |a| && Within(rows, |a|, |b|) && RowFrom(rows, a, b, i + 1, 0)
    requires forall j :: 0 <= j < |b| ==> (i, j) !in rows
    ensures Within(t, |a|, |b|) && RowFrom(t, a, b, i, 0)
    ensures forall i', j' :: i' != i ==> Cell(t, i', j') == Cell(rows, i', j')
    ensures forall i', j' :: (i', j') in t ==> i' == i || (i', j') in rows
  {
    t := rows;
    var j := |b|;
    while j > 0
      invariant 0 <= j <= |b|
      invariant Within(t, |a|, |b|) && RowFrom(t, a, b, i, j)
      invariant forall i', j' :: i' != i ==> Cell(t, i', j') == Cell(rows, i', j')
      invariant forall i', j' :: (i', j') in t ==> i' == i || (i', j') in rows
    {
      j := j - 1;
      LcsTurn(a, b, i, j);
      var best := if a[i] == b[j] then Cell(t, i + 1, j + 1) + 1 else Max(Cell(t, i + 1, j), Cell(t, i, j + 1));
      t := t[(i, j) := best];
    }
  }

  method FillTable<T(==)>(a: seq<T>, b: seq<T>) returns (t: Table)
    ensures RowsFrom(t, a, b, 0)
  {
    t := map[];
    var i := |a|;
    while i > 0
      invariant 0 <= i <= |a|
      invariant Within(t, |a|, |b|) && RowsFrom(t, a, b, i)
      invariant forall i', j' :: (i', j') in t ==> i' >= i
    {
      i := i - 1;
      var rows := t;
      t := FillRow(a, b, rows, i);
      assert forall i' :: i < i' <= |a| && RowFrom(rows, a, b, i', 0) ==> RowFrom(t, a, b, i', 0);
    }
  }

  // ---- The walk ----

  datatype Line = Added(line: Text) | Removed(line: Text)

  /** The lines the walk emits from a pair of suffixes. */
  function Script(a: seq<Text>, b: seq<Text>): seq<Line>
    decreases |a| + |b|
  {
    if a == [] && b == [] then []
    else if a != [] && b != [] && a[0] == b[0] then Script(a[1..], b[1..])
    else if b != [] && (a == [] || Lcs(a, b[1..]) >= Lcs(a[1..], b)) then [Added(b[0])] + Script(a, b[1..])
    else [Removed(a[0])] + Script(a[1..], b)
  }

  function Lines(script: seq<Line>, added: bool): seq<Text> {
    if script == [] then []
    else (if script[0].Added? == added then [script[0].line] else []) + Lines(script[1..], added)
  }

  /** `whole` is an order-preserving merge of `c` and `d`. */
  predicate Merges<T(==)>(whole: seq<T>, c: seq<T>, d: seq<T>)
    decreases |whole|
  {
    if whole == [] then c == [] && d == []
    else
      || (c != [] && c[0] == whole[0] && Merges(whole[1..], c[1..], d))
      || (d != [] && d[0] == whole[0] && Merges(whole[1..], c, d[1..]))
  }

  lemma {:induction false} MergeSizes<T>(whole: seq<T>, c: seq<T>, d: seq<T>)
    requires Merges(whole, c, d)
    ensures |whole| == |c| + |d| && Sub(c, whole)
    decreases |whole|
  {
    if whole != [] {
      if c != [] && c[0] == whole[0] && Merges(whole[1..], c[1..], d) {
        MergeSizes(whole[1..], c[1..], d);
      } else {
        MergeSizes(whole[1..], c, d[1..]);
      }
    }
  }

  lemma {:induction false} ScriptMerges(a: seq<Text>, b: seq<Text>)
    ensures Merges(a, Kept(a, b), Lines(Script(a, b), false))
    ensures Merges(b, Kept(a, b), Lines(Script(a, b), true))
    ensures |Lines(Script(a, b), false)| + |Lines(Script(a, b), true)| == |Script(a, b)|
    decreases |a| + |b|
  {
    if a != [] && b != [] && a[0] == b[0] {
      ScriptMerges(a[1..], b[1..]);
      assert Kept(a, b)[1..] == Kept(a[1..], b[1..]);
    } else if b != [] && (a == [] || Lcs(a, b[1..]) >= Lcs(a[1..], b)) {
      ScriptMerges(a, b[1..]);
      ScriptHead(a, b, Added(b[0]), Script(a, b[1..]));
    } else if a != [] {
      ScriptMerges(a[1..], b);
      ScriptHead(a, b, Removed(a[0]), Script(a[1..], b));
    }
  }

  lemma ScriptHead(a: seq<Text>, b: seq<Text>, head: Line, rest: seq<Line>)
    ensures Lines([head] + rest, head.Added?) == [head.line] + Lines(rest, head.Added?)
    ensures Lines([head] + rest, !head.Added?) == Lines(rest, !head.Added?)
  {
    assert ([head] + rest)[1..] == rest;
  }

  /** The emitted script is faithful and minimal. For one longest common subsequence, the old
      text is a merge of it with the `-` lines and the new text with the `+` lines; the script has
      `|a| + |b| - 2 Lcs(a, b)` lines, and no other way to explain the two texts by kept, removed
      and added lines has fewer. */
  lemma ScriptIsMinimal(a: seq<Text>, b: seq<Text>)
    ensures Merges(a, Kept(a, b), Lines(Script(a, b), false)) && Merges(b, Kept(a, b), Lines(Script(a, b), true))
    ensures IsCommon(Kept(a, b), a, b) && |Kept(a, b)| == Lcs(a, b)
    ensures |Script(a, b)| == |a| + |b| - 2 * Lcs(a, b)
    ensures forall c, removed, added :: Merges(a, c, removed) && Merges(b, c, added)
                                        ==> |Script(a, b)| <= |removed| + |added|
  {
    ScriptMerges(a, b);
    KeptIsLongest(a, b);
    SubIsSubsequence(Kept(a, b), a);
    SubIsSubsequence(Kept(a, b), b);
    MergeSizes(a, Kept(a, b), Lines(Script(a, b), false));
    MergeSizes(b, Kept(a, b), Lines(Script(a, b), true));
    forall c, removed, added | Merges(a, c, removed) && Merges(b, c, added)
      ensures |Script(a, b)| <= |removed| + |added|
    {
      MergeSizes(a, c, removed);
      MergeSizes(b, c, added);
      NoneLonger(c, a, b);
    }
  }

  lemma {:induction false} ScriptOfEqual(a: seq<Text>)
    ensures Script(a, a) == []
  {
    if a != [] {
      ScriptOfEqual(a[1..]);
    }
  }

  lemma {:induction false} EmptyScript(a: seq<Text>, b: seq<Text>)
    ensures Script(a, b) == [] <==> a == b
    decreases |a| + |b|
  {
    ScriptOfEqual(a);
    if a != [] && b != [] && a[0] == b[0] {
      EmptyScript(a[1..], b[1..]);
      assert a == [a[0]] + a[1..] && b == [b[0]] + b[1..];
    }
  }

  // ---- The text of a diff ----

  const PLUS: CodeUnit := 43
  const MINUS: CodeUnit := 45
  const SPACE: CodeUnit := 32

  function Rendered(l: Line): Text {
    [if l.Added? then PLUS else MINUS, SPACE] + l.line
  }

  function RenderedAll(script: seq<Line>): seq<Text> {
    seq(|script|, i requires 0 <= i < |script| => Rendered(script[i]))
  }

  lemma ScriptTurn(a: seq<Text>, b: seq<Text>, i: nat, j: nat)
    requires i <= |a| && j <= |b| && (i < |a| || j < |b|)
    ensures Script(a[i..], b[j..])
         == if i < |a| && j < |b| && a[i] == b[j] then Script(a[i + 1..], b[j + 1..])
            else if j < |b| && (i == |a| || Lcs(a[i..], b[j + 1..]) >= Lcs(a[i + 1..], b[j..])) then
              [Added(b[j])] + Script(a[i..], b[j + 1..])
            else [Removed(a[i])] + Script(a[i + 1..], b[j..])
  {
    assert i < |a| ==> a[i..][1..] == a[i + 1..];
    assert j < |b| ==> b[j..][1..] == b[j + 1..];
  }

  lemma EmitHead(emitted: seq<Line>, head: Line, rest: seq<Line>)
    ensures RenderedAll(emitted + [head]) == RenderedAll(emitted) + [Rendered(head)]
    ensures emitted + [head] + rest == emitted + ([head] + rest)
  {
  }

  lemma RenderHead(head: Line, rest: seq<Line>)
    ensures RenderedAll([head] + rest) == [Rendered(head)] + RenderedAll(rest)
  {
  }

  lemma {:induction false} ScriptIsClean(a: seq<Text>, b: seq<Text>)
    requires AllOneLine(a) && AllOneLine(b)
    ensures AllOneLine(RenderedAll(Script(a, b)))
    decreases |a| + |b|
  {
    if a != [] && b != [] && a[0] == b[0] {
      ScriptIsClean(a[1..], b[1..]);
    } else if b != [] && (a == [] || Lcs(a, b[1..]) >= Lcs(a[1..], b)) {
      ScriptIsClean(a, b[1..]);
      RenderHead(Added(b[0]), Script(a, b[1..]));
    } else if a != [] {
      ScriptIsClean(a[1..], b);
      RenderHead(Removed(a[0]), Script(a[1..], b));
    }
  }

  /** The printed diff is empty exactly when the two texts are equal, and otherwise its lines are
      exactly the rendered lines of the script, so nothing of it is lost in printing. */
  lemma DiffTextIsExact(left: Text, right: Text)
    ensures var script := Script(Split(left), Split(right));
            var diff := Join(RenderedAll(script));
            && (diff == [] <==> left == right)
            && (left != right ==> Split(diff) == RenderedAll(script))
  {
    var script := Script(Split(left), Split(right));
    EmptyScript(Split(left), Split(right));
    JoinSplit(left);
    JoinSplit(right);
    SplitIsClean(left);
    SplitIsClean(right);
    ScriptIsClean(Split(left), Split(right));
    if script != [] {
      SplitJoin(RenderedAll(script));
      assert Split([]) == [[]];
      assert RenderedAll(script)[0] == Rendered(script[0]);
    }
  }

  // ---- Reading a diff ----

  /** A line that starts with this mark and a space. */
  predicate Marked(line: Text, mark: CodeUnit) {
    |line| >= 2 && line[0] == mark && line[1] == SPACE
  }

  /** What follows the mark, for the lines that bear it. */
  function Unmarked(lines: seq<Text>, mark: CodeUnit): seq<Text> {
    if lines == [] then []
    else (if Marked(lines[0], mark) then [lines[0][2..]] else []) + Unmarked(lines[1..], mark)
  }

  ghost predicate IsLongestCommon<T(!new)>(c: seq<T>, a: seq<T>, b: seq<T>) {
    IsCommon(c, a, b) && forall d :: IsCommon(d, a, b) ==> |d| <= |c|
  }

  /** Beside one longest common subsequence, the old lines are made of the ones marked `- ` and the
      new lines of those marked `+ `, in order. */
  ghost predicate Accounts(lines: seq<Text>, a: seq<Text>, b: seq<Text>) {
    exists c :: IsLongestCommon(c, a, b) && Merges(a, c, Unmarked(lines, MINUS)) && Merges(b, c, Unmarked(lines, PLUS))
  }

  ghost predicate AllMarked(lines: seq<Text>) {
    forall i :: 0 <= i < |lines| ==> Marked(lines[i], MINUS) || Marked(lines[i], PLUS)
  }

  /** Read as it is printed, the diff explains both texts; unless they are equal every line of it
      bears a mark, and if they are it is empty. */
  ghost predicate Explains(diff: Text, left: Text, right: Text) {
    && Accounts(Split(diff), Split(left), Split(right))
    && (if left == right then diff == [] else AllMarked(Split(diff)))
  }

  lemma {:induction false} UnmarkedOfRendered(script: seq<Line>)
    ensures Unmarked(RenderedAll(script), PLUS) == Lines(script, true)
    ensures Unmarked(RenderedAll(script), MINUS) == Lines(script, false)
  {
    if script != [] {
      UnmarkedOfRendered(script[1..]);
      RenderHead(script[0], script[1..]);
      assert [script[0]] + script[1..] == script;
      assert Rendered(script[0])[2..] == script[0].line;
      assert RenderedAll(script)[1..] == RenderedAll(script[1..]);
    }
  }

  lemma KeptIsLongestCommon(a: seq<Text>, b: seq<Text>)
    ensures IsLongestCommon(Kept(a, b), a, b)
  {
    ScriptIsMinimal(a, b);
    CellIsLongestCommon(a, b);
  }

  lemma NothingUnmarked()
    ensures Unmarked(Split([]), PLUS) == [] && Unmarked(Split([]), MINUS) == []
  {
    assert Split([]) == [[]];
  }

  lemma ScriptAccounts(a: seq<Text>, b: seq<Text>, lines: seq<Text>)
    requires Unmarked(lines, MINUS) == Lines(Script(a, b), false)
    requires Unmarked(lines, PLUS) == Lines(Script(a, b), true)
    ensures Accounts(lines, a, b)
  {
    KeptIsLongestCommon(a, b);
    ScriptIsMinimal(a, b);
  }

  lemma RenderedIsMarked(script: seq<Line>)
    ensures AllMarked(RenderedAll(script))
  {
  }

  lemma DiffReadsBack(left: Text, right: Text)
    ensures Explains(Join(RenderedAll(Script(Split(left), Split(right)))), left, right)
  {
    var a, b := Split(left), Split(right);
    var script := Script(a, b);
    DiffTextIsExact(left, right);
    UnmarkedOfRendered(script);
    RenderedIsMarked(script);
    if left == right {
      EmptyScript(a, b);
      NothingUnmarked();
      ScriptAccounts(a, b, Split([]));
    } else {
      ScriptAccounts(a, b, RenderedAll(script));
    }
  }

  /** `lineDiff`. */
  method DiffLines(left: Text, right: Text) returns (diff: Text)
    ensures Explains(diff, left, right)
    ensures diff == Join(RenderedAll(Script(Split(left), Split(right))))
  {
    var a, b := Split(left), Split(right);
    var t := FillTable(a, b);
    var lines: seq<Text> := [];
    ghost var emitted: seq<Line> := [];
    var i, j := 0, 0;
    while i < |a| || j < |b|
      invariant i <= |a| && j <= |b|
      invariant emitted + Script(a[i..], b[j..]) == Script(a, b)
      invariant lines == RenderedAll(emitted)
      decreases (|a| - i) + (|b| - j)
    {
      ScriptTurn(a, b, i, j);
      assert RowFrom(t, a, b, i, 0) && (i < |a| ==> RowFrom(t, a, b, i + 1, 0));
      if i < |a| && j < |b| && a[i] == b[j] {
        i, j := i + 1, j + 1;
      } else if j < |b| && (i == |a| || Cell(t, i, j + 1) >= Cell(t, i + 1, j)) {
        EmitHead(emitted, Added(b[j]), Script(a[i..], b[j + 1..]));
        lines := lines + [[PLUS, SPACE] + b[j]];
        emitted := emitted + [Added(b[j])];
        j := j + 1;
      } else {
        EmitHead(emitted, Removed(a[i]), Script(a[i + 1..], b[j..]));
        lines := lines + [[MINUS, SPACE] + a[i]];
        emitted := emitted + [Removed(a[i])];
        i := i + 1;
      }
    }
    assert emitted == Script(a, b);
    diff := Join(lines);
    DiffReadsBack(left, right);
  }
}
