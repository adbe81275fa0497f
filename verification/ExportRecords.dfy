/** One export specifier as the JSON record the gate prints for it, and the sorted block of all of
    them: a text that is the same exactly when the same specifiers are exported. */
module ExportRecords {
  import opened Wrappers
  import opened Texts

  const QUOTE: CodeUnit := 34
  const COMMA: CodeUnit := 44
  const OPEN: CodeUnit := 91
  const BACKSLASH: CodeUnit := 92
  const CLOSE: CodeUnit := 93
  const LETTER_U: CodeUnit := 117

  const TRUE: Text := [116, 114, 117, 101]
  const FALSE: Text := [102, 97, 108, 115, 101]

  // ---- JSON string quoting, ECMA-262 section 25.5.2.3 (QuoteJSONString) ----

  predicate High(u: CodeUnit) {
    0xD800 <= u <= 0xDBFF
  }

  predicate Low(u: CodeUnit) {
    0xDC00 <= u <= 0xDFFF
  }

  /** The letter after the backslash for a unit that has a two-character escape. */
  function ShortEscape(u: CodeUnit): Option<CodeUnit> {
    if u == 8 then Some(98)
    else if u == 9 then Some(116)
    else if u == 10 then Some(110)
    else if u == 12 then Some(102)
    else if u == 13 then Some(114)
    else if u == QUOTE || u == BACKSLASH then Some(u)
    else None
  }

  function HexDigit(d: int): CodeUnit
    requires 0 <= d < 16
  {
    if d < 10 then 48 + d else 87 + d
  }

  /** The lowest `n` hexadecimal digits of `u`. */
  function Hex(u: nat, n: nat): (t: Text)
    ensures |t| == n && NL !in t
  {
    if n == 0 then [] else Hex(u / 16, n - 1) + [HexDigit(u % 16)]
  }

  function EscapeUnit(u: CodeUnit): Text {
    if ShortEscape(u).Some? then [BACKSLASH, ShortEscape(u).value]
    else if u < 32 || High(u) || Low(u) then [BACKSLASH, LETTER_U] + Hex(u, 4)
    else [u]
  }

  /** A surrogate pair is one code point and stays as it is; a lone surrogate is escaped. */
  function Escape(t: Text): Text
    decreases |t|
  {
    if t == [] then []
    else if |t| > 1 && High(t[0]) && Low(t[1]) then [t[0], t[1]] + Escape(t[2..])
    else EscapeUnit(t[0]) + Escape(t[1..])
  }

  /** The rest of a quoted string from its content on: `t` escaped, the closing quote, `rest`. */
  function Content(t: Text, rest: Text): Text {
    Escape(t) + [QUOTE] + rest
  }

  /** Text without control characters, quotes, backslashes and surrogates is quoted as it is. */
  lemma {:induction false} PlainIsNotEscaped(t: Text)
    requires forall i :: 0 <= i < |t| ==> t[i] >= 32 && t[i] != QUOTE && t[i] != BACKSLASH && !High(t[i]) && !Low(t[i])
    ensures Escape(t) == t
  {
    if t != [] {
      PlainIsNotEscaped(t[1..]);
    }
  }

  // ---- Reading a quoted string back ----

  function DigitValue(c: CodeUnit): int {
    if c < 58 then c - 48 else c - 87
  }

  function HexValue(t: Text): int {
    if t == [] then 0 else HexValue(t[..|t| - 1]) * 16 + DigitValue(t[|t| - 1])
  }

  function LongEscape(c: CodeUnit): CodeUnit {
    if c == 98 then 8
    else if c == 116 then 9
    else if c == 110 then 10
    else if c == 102 then 12
    else if c == 114 then 13
    else c
  }

  function Prefixed(u: int, r: Option<(Text, Text)>): Option<(Text, Text)> {
    if 0 <= u < 0x1_0000 && r.Some? then Some(([u] + r.value.0, r.value.1)) else None
  }

  /** What a reader inside a quoted string meets next. */
  datatype Token = End(rest: Text) | Unit(value: int, rest: Text) | Malformed

  function Next(t: Text): (k: Token)
    ensures !k.Malformed? ==> |k.rest| < |t|
  {
    if t == [] then Malformed
    else if t[0] == QUOTE then End(t[1..])
    else if t[0] != BACKSLASH then Unit(t[0], t[1..])
    else if |t| < 2 then Malformed
    else if t[1] != LETTER_U then Unit(LongEscape(t[1]), t[2..])
    else if |t| < 6 then Malformed
    else Unit(HexValue(t[2..6]), t[6..])
  }

  /** The string up to the first unescaped quote, and what follows that quote. */
  function Unquote(t: Text): Option<(Text, Text)>
    decreases |t|
  {
    match Next(t)
    case End(rest) => Some(([], rest))
    case Unit(value, rest) => Prefixed(value, Unquote(rest))
    case Malformed => None
  }

  function Pow16(n: nat): nat {
    if n == 0 then 1 else 16 * Pow16(n - 1)
  }

  lemma {:induction false} HexRoundTrip(u: nat, n: nat)
    requires u < Pow16(n)
    ensures HexValue(Hex(u, n)) == u
  {
    if n > 0 {
      HexRoundTrip(u / 16, n - 1);
      assert Hex(u, n)[..n - 1] == Hex(u / 16, n - 1);
    }
  }

  lemma NextOfEscape(u: CodeUnit, tail: Text)
    ensures Next(EscapeUnit(u) + tail) == Unit(u, tail)
  {
    var t := EscapeUnit(u) + tail;
    if ShortEscape(u).Some? {
      assert t[2..] == tail;
    } else if u < 32 || High(u) || Low(u) {
      assert Pow16(4) == 0x1_0000;
      HexRoundTrip(u, 4);
      assert t[2..6] == Hex(u, 4) && t[6..] == tail;
    } else {
      assert t[1..] == tail;
    }
  }

  lemma NextOfPair(u: CodeUnit, v: CodeUnit, tail: Text)
    requires High(u) && Low(v)
    ensures Next([u, v] + tail) == Unit(u, [v] + tail) && Next([v] + tail) == Unit(v, tail)
  {
    assert ([u, v] + tail)[1..] == [v] + tail && ([v] + tail)[1..] == tail;
  }

  lemma ContentPair(t: Text, rest: Text)
    requires |t| > 1 && High(t[0]) && Low(t[1])
    ensures Content(t, rest) == [t[0], t[1]] + Content(t[2..], rest)
    ensures [t[0]] + ([t[1]] + t[2..]) == t
  {
    assert Escape(t) == [t[0], t[1]] + Escape(t[2..]);
  }

  lemma ContentUnit(t: Text, rest: Text)
    requires t != [] && !(|t| > 1 && High(t[0]) && Low(t[1]))
    ensures Content(t, rest) == EscapeUnit(t[0]) + Content(t[1..], rest)
    ensures [t[0]] + t[1..] == t
  {
    assert Escape(t) == EscapeUnit(t[0]) + Escape(t[1..]);
  }

  /** Reading back what was quoted gives the string that was quoted. */
  lemma {:induction false} UnquoteContent(t: Text, rest: Text)
    ensures Unquote(Content(t, rest)) == Some((t, rest))
    decreases |t|
  {
    if t == [] {
      assert Content(t, rest)[1..] == rest;
    } else if |t| > 1 && High(t[0]) && Low(t[1]) {
      UnquoteContent(t[2..], rest);
      ContentPair(t, rest);
      NextOfPair(t[0], t[1], Content(t[2..], rest));
    } else {
      UnquoteContent(t[1..], rest);
      ContentUnit(t, rest);
      NextOfEscape(t[0], Content(t[1..], rest));
    }
  }

  lemma {:induction false} EscapeIsOneLine(t: Text)
    ensures OneLine(Escape(t))
    decreases |t|
  {
    if t != [] {
      if |t| > 1 && High(t[0]) && Low(t[1]) {
        EscapeIsOneLine(t[2..]);
      } else {
        EscapeIsOneLine(t[1..]);
      }
    }
  }

  // ---- Records ----

  datatype Export = Export(typeOnly: bool, local: Text, exported: Text)

  /** `JSON.stringify([typeOnly, local, exported])`. */
  function Record(e: Export): Text {
    [OPEN] + Flag(e) + ([COMMA, QUOTE] + Content(e.local, [COMMA, QUOTE] + Content(e.exported, [CLOSE])))
  }

  function Flag(e: Export): Text {
    if e.typeOnly then TRUE else FALSE
  }

  lemma DropFront<T>(front: seq<T>, x: seq<T>, y: seq<T>)
    requires front + x == front + y
    ensures x == y
  {
    assert (front + x)[|front|..] == x && (front + y)[|front|..] == y;
  }

  /** Two specifiers with one record are the same specifier. */
  lemma RecordIsInjective(d: Export, e: Export)
    requires Record(d) == Record(e)
    ensures d == e
  {
    assert Record(d)[1] == (if d.typeOnly then 116 else 102) && Record(e)[1] == if e.typeOnly then 116 else 102;
    var x, y := [COMMA, QUOTE] + Content(d.exported, [CLOSE]), [COMMA, QUOTE] + Content(e.exported, [CLOSE]);
    DropFront([OPEN] + Flag(d), [COMMA, QUOTE] + Content(d.local, x), [COMMA, QUOTE] + Content(e.local, y));
    DropFront([COMMA, QUOTE], Content(d.local, x), Content(e.local, y));
    UnquoteContent(d.local, x);
    UnquoteContent(e.local, y);
    DropFront([COMMA, QUOTE], Content(d.exported, [CLOSE]), Content(e.exported, [CLOSE]));
    UnquoteContent(d.exported, [CLOSE]);
    UnquoteContent(e.exported, [CLOSE]);
  }

  /** A record reads back as JSON: a bracket, `true` or `false`, and the two names as quoted strings. */
  lemma RecordReadsBack(e: Export) returns (rest: Text)
    ensures var open := [OPEN] + (if e.typeOnly then TRUE else FALSE) + [COMMA, QUOTE];
            && open <= Record(e) && Unquote(Record(e)[|open|..]) == Some((e.local, [COMMA, QUOTE] + rest))
            && Unquote(rest) == Some((e.exported, [CLOSE]))
  {
    var open := [OPEN] + (if e.typeOnly then TRUE else FALSE) + [COMMA, QUOTE];
    rest := Content(e.exported, [CLOSE]);
    var content := Content(e.local, [COMMA, QUOTE] + rest);
    assert Record(e) == open + content;
    UnquoteContent(e.local, [COMMA, QUOTE] + rest);
    UnquoteContent(e.exported, [CLOSE]);
  }

  lemma RecordIsOneLine(e: Export)
    ensures OneLine(Record(e)) && Record(e)[0] == OPEN
  {
    EscapeIsOneLine(e.local);
    EscapeIsOneLine(e.exported);
  }

  function Records(es: seq<Export>): seq<Text> {
    seq(|es|, i requires 0 <= i < |es| => Record(es[i]))
  }

  // ---- Sorting by code units ----

  predicate Leq(x: Text, y: Text)
    decreases |x|
  {
    x == [] || (y != [] && (x[0] < y[0] || (x[0] == y[0] && Leq(x[1..], y[1..]))))
  }

  /** The order of JavaScript's default sort: a prefix comes first, and otherwise the first code
      unit in which two strings differ decides. */
  lemma {:induction false} LeqIsCodeUnitOrder(x: Text, y: Text)
    ensures Leq(x, y) <==> x <= y || exists k :: 0 <= k < |x| && k < |y| && x[..k] == y[..k] && x[k] < y[k]
    decreases |x|
  {
    if x != [] && y != [] && x[0] == y[0] {
      var a, b := x[1..], y[1..];
      LeqIsCodeUnitOrder(a, b);
      if k :| 0 <= k < |a| && k < |b| && a[..k] == b[..k] && a[k] < b[k] {
        assert x[..k + 1] == [x[0]] + a[..k] && y[..k + 1] == [y[0]] + b[..k];
        assert x[k + 1] < y[k + 1];
      }
      if k :| 0 <= k < |x| && k < |y| && x[..k] == y[..k] && x[k] < y[k] {
        assert k > 0 && a[..k - 1] == x[..k][1..] && b[..k - 1] == y[..k][1..];
        assert a[k - 1] < b[k - 1];
      }
      assert x == [x[0]] + a && y == [y[0]] + b;
    } else if x != [] && y != [] {
      assert x[..0] == y[..0];
    }
  }

  lemma {:induction false} LeqTotal(x: Text, y: Text)
    ensures Leq(x, y) || Leq(y, x)
    ensures Leq(x, y) && Leq(y, x) ==> x == y
    decreases |x|
  {
    if x != [] && y != [] && x[0] == y[0] {
      LeqTotal(x[1..], y[1..]);
      assert x == [x[0]] + x[1..] && y == [y[0]] + y[1..];
    }
  }

  lemma {:induction false} LeqTransitive(x: Text, y: Text, z: Text)
    requires Leq(x, y) && Leq(y, z)
    ensures Leq(x, z)
    decreases |x|
  {
    if x != [] && x[0] == y[0] && y[0] == z[0] {
      LeqTransitive(x[1..], y[1..], z[1..]);
    }
  }

  ghost predicate Ascending(xs: seq<Text>) {
    forall i, j :: 0 <= i < j < |xs| ==> Leq(xs[i], xs[j])
  }

  /** `r` is `xs` sorted. */
  ghost predicate IsSorting(xs: seq<Text>, r: seq<Text>) {
    multiset(r) == multiset(xs) && Ascending(r)
  }

  function Inserted(x: Text, xs: seq<Text>): seq<Text> {
    if xs == [] then [x]
    else if Leq(x, xs[0]) then [x] + xs
    else [xs[0]] + Inserted(x, xs[1..])
  }

  function Sorted(xs: seq<Text>): seq<Text> {
    if xs == [] then [] else Inserted(xs[0], Sorted(xs[1..]))
  }

  lemma {:induction false} InsertedHolds(x: Text, xs: seq<Text>)
    ensures multiset(Inserted(x, xs)) == multiset{x} + multiset(xs)
  {
    if xs != [] && !Leq(x, xs[0]) {
      InsertedHolds(x, xs[1..]);
      assert xs == [xs[0]] + xs[1..];
    }
  }

  lemma {:induction false} InsertedAscends(x: Text, xs: seq<Text>)
    requires Ascending(xs)
    ensures Ascending(Inserted(x, xs))
  {
    if xs != [] {
      LeqTotal(x, xs[0]);
      if Leq(x, xs[0]) {
        forall j | 1 <= j < |xs| ensures Leq(x, xs[j]) {
          LeqTransitive(x, xs[0], xs[j]);
        }
      } else {
        InsertedAscends(x, xs[1..]);
        InsertedHolds(x, xs[1..]);
        var rest := Inserted(x, xs[1..]);
        forall j | 0 <= j < |rest| ensures Leq(xs[0], rest[j]) {
          assert rest[j] in multiset(rest);
          assert rest[j] == x || rest[j] in xs[1..];
        }
      }
    }
  }

  lemma {:induction false} SortedIsSorting(xs: seq<Text>)
    ensures IsSorting(xs, Sorted(xs))
  {
    if xs != [] {
      SortedIsSorting(xs[1..]);
      InsertedHolds(xs[0], Sorted(xs[1..]));
      InsertedAscends(xs[0], Sorted(xs[1..]));
      assert xs == [xs[0]] + xs[1..];
    }
  }

  lemma LeastIsFirst(q: seq<Text>, r: seq<Text>)
    requires multiset(q) == multiset(r) && Ascending(q) && Ascending(r) && q != [] && r != []
    ensures q[0] == r[0]
  {
    assert q[0] in multiset(r) && r[0] in multiset(q);
    var i :| 0 <= i < |r| && r[i] == q[0];
    var j :| 0 <= j < |q| && q[j] == r[0];
    LeqTotal(q[0], r[0]);
    assert i > 0 ==> Leq(r[0], r[i]);
    assert j > 0 ==> Leq(q[0], q[j]);
  }

  /** Sorting has one result, so which algorithm `sort` uses does not matter. */
  lemma {:induction false} SortingIsUnique(q: seq<Text>, r: seq<Text>)
    requires multiset(q) == multiset(r) && Ascending(q) && Ascending(r)
    ensures q == r
    decreases |q|
  {
    assert |q| == |r| by {
      assert |multiset(q)| == |multiset(r)|;
    }
    if q != [] {
      LeastIsFirst(q, r);
      assert q == [q[0]] + q[1..] && r == [r[0]] + r[1..];
      assert multiset(q[1..]) == multiset(q) - multiset{q[0]};
      assert multiset(r[1..]) == multiset(r) - multiset{r[0]};
      SortingIsUnique(q[1..], r[1..]);
    }
  }

  // ---- The block ----

  /** The lines below `exports:`. */
  function Block(es: seq<Export>): Text {
    Join(Sorted(Records(es)))
  }

  lemma SnocCount<T>(xs: seq<T>, last: T, x: T)
    ensures multiset(xs + [last])[x] == multiset(xs)[x] + if last == x then 1 else 0
  {
  }

  lemma SameRecord(d: Export, e: Export)
    ensures Record(d) == Record(e) <==> d == e
  {
    if Record(d) == Record(e) {
      RecordIsInjective(d, e);
    }
  }

  lemma LastCount<T>(xs: seq<T>, x: T)
    requires xs != []
    ensures var n := |xs| - 1; multiset(xs)[x] == multiset(xs[..n])[x] + if xs[n] == x then 1 else 0
  {
    var n := |xs| - 1;
    assert xs == xs[..n] + [xs[n]];
    SnocCount(xs[..n], xs[n], x);
  }

  function Mapped<T, U>(f: T -> U, xs: seq<T>): seq<U> {
    seq(|xs|, i requires 0 <= i < |xs| => f(xs[i]))
  }

  /** A map that tells `x` from everything else keeps its count. */
  lemma {:induction false} MappedCount<T(!new), U>(f: T -> U, xs: seq<T>, x: T)
    requires forall y :: f(y) == f(x) <==> y == x
    ensures multiset(Mapped(f, xs))[f(x)] == multiset(xs)[x]
  {
    if xs != [] {
      var n := |xs| - 1;
      MappedCount(f, xs[..n], x);
      LastCount(xs, x);
      LastCount(Mapped(f, xs), f(x));
      assert Mapped(f, xs)[..n] == Mapped(f, xs[..n]);
    }
  }

  lemma RecordCounts(es: seq<Export>, e: Export)
    ensures multiset(Records(es))[Record(e)] == multiset(es)[e]
  {
    var f := (d: Export) => Record(d);
    forall d ensures f(d) == f(e) <==> d == e {
      SameRecord(d, e);
    }
    MappedCount(f, es, e);
    assert Records(es) == Mapped(f, es);
  }

  lemma RecordCarriesOver(xs: seq<Export>, ys: seq<Export>, t: Text)
    requires multiset(xs) == multiset(ys) && t in multiset(Records(xs))
    ensures multiset(Records(xs))[t] == multiset(Records(ys))[t]
  {
    var i :| 0 <= i < |xs| && Records(xs)[i] == t;
    RecordCounts(xs, xs[i]);
    RecordCounts(ys, xs[i]);
  }

  lemma SameRecordsIff(xs: seq<Export>, ys: seq<Export>)
    ensures multiset(Records(xs)) == multiset(Records(ys)) <==> multiset(xs) == multiset(ys)
  {
    if multiset(Records(xs)) == multiset(Records(ys)) {
      forall e ensures multiset(xs)[e] == multiset(ys)[e] {
        RecordCounts(xs, e);
        RecordCounts(ys, e);
      }
    }
    if multiset(xs) == multiset(ys) {
      forall t ensures multiset(Records(xs))[t] == multiset(Records(ys))[t] {
        if t in multiset(Records(xs)) {
          RecordCarriesOver(xs, ys, t);
        }
        if t in multiset(Records(ys)) {
          RecordCarriesOver(ys, xs, t);
        }
      }
    }
  }

  /** The lines of a block are records, or one empty line when nothing is exported. */
  lemma BlockLines(es: seq<Export>)
    ensures Split(Block(es)) == if es == [] then [[]] else Sorted(Records(es))
    ensures forall i :: 0 <= i < |Split(Block(es))| ==> Split(Block(es))[i] == [] || Split(Block(es))[i][0] == OPEN
  {
    var lines := Sorted(Records(es));
    SortedIsSorting(Records(es));
    assert |multiset(lines)| == |multiset(Records(es))|;
    forall i | 0 <= i < |lines| ensures OneLine(lines[i]) && lines[i] != [] && lines[i][0] == OPEN {
      assert lines[i] in multiset(Records(es));
      var k :| 0 <= k < |es| && Records(es)[k] == lines[i];
      RecordIsOneLine(es[k]);
    }
    if es != [] {
      SplitJoin(lines);
    }
  }

  /** Two files print the same block exactly when they export the same specifiers, each as many
      times: how the specifiers are grouped into lists, and in which order, never matters. */
  lemma BlockIsCanonical(xs: seq<Export>, ys: seq<Export>)
    ensures Block(xs) == Block(ys) <==> multiset(xs) == multiset(ys)
  {
    SameRecordsIff(xs, ys);
    SortedIsSorting(Records(xs));
    SortedIsSorting(Records(ys));
    if multiset(xs) == multiset(ys) {
      SortingIsUnique(Sorted(Records(xs)), Sorted(Records(ys)));
    }
    if Block(xs) == Block(ys) {
      BlockLines(xs);
      BlockLines(ys);
      assert |multiset(Sorted(Records(xs)))| == |xs| && |multiset(Sorted(Records(ys)))| == |ys|;
      if xs == [] {
        assert ys == [] || Sorted(Records(ys)) == [[]];
      }
    }
  }
}
