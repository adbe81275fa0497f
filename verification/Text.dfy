/** Strings as the scripts handle them: sequences of UTF-16 code units, split at and joined by
    line feeds. */
module Texts {
  type CodeUnit = x: int | 0 <= x < 0x1_0000

  type Text = seq<CodeUnit>

  const NL: CodeUnit := 10

  ghost predicate OneLine(t: Text) {
    NL !in t
  }

  ghost predicate AllOneLine(lines: seq<Text>) {
    forall i :: 0 <= i < |lines| ==> OneLine(lines[i])
  }

  /** `text.split('\n')`. */
  function Split(t: Text): (lines: seq<Text>)
    ensures |lines| >= 1
  {
    if t == [] then [[]]
    else
      var rest := Split(t[1..]);
      if t[0] == NL then [[]] + rest else [[t[0]] + rest[0]] + rest[1..]
  }

  /** `lines.join('\n')`. */
  function Join(lines: seq<Text>): Text {
    if lines == [] then []
    else if |lines| == 1 then lines[0]
    else lines[0] + [NL] + Join(lines[1..])
  }

  /** The number of line feeds, `text.split('\n').length - 1`. */
  function Feeds(t: Text): nat {
    |Split(t)| - 1
  }

  lemma {:induction false} SplitIsClean(t: Text)
    ensures AllOneLine(Split(t))
  {
    if t != [] {
      SplitIsClean(t[1..]);
      var rest := Split(t[1..]);
      assert OneLine(rest[0]);
    }
  }

  lemma {:induction false} SplitOneLine(t: Text)
    requires OneLine(t)
    ensures Split(t) == [t]
  {
    if t != [] {
      SplitOneLine(t[1..]);
      assert [t[0]] + t[1..] == t;
    }
  }

  /** Splitting distributes over a line feed. */
  lemma {:induction false} SplitAtFeed(x: Text, y: Text)
    ensures Split(x + [NL] + y) == Split(x) + Split(y)
  {
    var whole := x + [NL] + y;
    if x == [] {
      assert whole[1..] == y;
    } else {
      assert whole[1..] == x[1..] + [NL] + y;
      SplitAtFeed(x[1..], y);
    }
  }

  lemma {:induction false} JoinSplit(t: Text)
    ensures Join(Split(t)) == t
  {
    if t != [] {
      JoinSplit(t[1..]);
      var rest, all := Split(t[1..]), Split(t);
      if t[0] == NL {
        assert all[1..] == rest;
      } else if |rest| > 1 {
        assert all[1..] == rest[1..];
      }
    }
  }

  lemma {:induction false} SplitJoin(lines: seq<Text>)
    requires lines != [] && AllOneLine(lines)
    ensures Split(Join(lines)) == lines
  {
    SplitOneLine(lines[0]);
    if |lines| > 1 {
      SplitJoin(lines[1..]);
      SplitAtFeed(lines[0], Join(lines[1..]));
    }
  }

  lemma {:induction false} JoinSnoc(lines: seq<Text>, last: Text)
    requires lines != []
    ensures Join(lines + [last]) == Join(lines) + [NL] + last
  {
    if |lines| > 1 {
      JoinSnoc(lines[1..], last);
      assert (lines + [last])[1..] == lines[1..] + [last];
    } else {
      assert (lines + [last])[1..] == [last];
    }
  }

  lemma FeedsConcat(x: Text, y: Text)
    ensures Feeds(x + y) == Feeds(x) + Feeds(y)
  {
    if x == [] {
      assert x + y == y;
    } else {
      assert (x + y)[1..] == x[1..] + y;
      FeedsConcat(x[1..], y);
    }
  }
}
