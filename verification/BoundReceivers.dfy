/** Binding the receivers of a snippet one name after the other is replacing them all at once, so
    the order in which the names are met does not matter; unless `this` itself is among them. */
module BoundReceivers {
  import opened Wrappers
  import opened Texts
  import opened ReadmeSnippets

  /** `this` */
  const SELF: Text := [116, 104, 105, 115]

  /** The receiver named at `i`: the word after `this.`, if a word boundary stands before it. */
  function Receiver(t: Text, i: nat): Option<Text> {
    if i + |THIS| <= |t| && BoundaryBefore(t, i) && Occurs(t, i, THIS)
    then Some(t[i + |THIS|..WordEnd(t, i + |THIS|)])
    else None
  }

  predicate NamedIn(t: Text, i: nat, names: set<Text>) {
    Receiver(t, i).Some? && Receiver(t, i).value in names
  }

  /** All the receivers among `names` replaced in one pass from `i` on. */
  function Together(t: Text, i: nat, names: set<Text>, slot: Text): Text
    decreases if i < |t| then |t| - i else 0
  {
    if i >= |t| then []
    else if NamedIn(t, i, names) then
      var name := Receiver(t, i).value;
      Constant(slot, name) + Together(t, i + |THIS| + |name|, names, slot)
    else [t[i]] + Together(t, i + 1, names, slot)
  }

  // ---- Matches are receivers ----

  lemma {:induction false} OccursSlice(t: Text, i: nat, part: Text)
    requires i <= |t|
    ensures Occurs(t, i, part) <==> i + |part| <= |t| && t[i..i + |part|] == part
    decreases part
  {
    if part != [] && i < |t| {
      OccursSlice(t, i + 1, part[1..]);
      if i + |part| <= |t| {
        assert t[i..i + |part|] == [t[i]] + t[i + 1..i + 1 + |part[1..]|];
        assert part == [part[0]] + part[1..];
      }
    }
  }

  lemma {:induction false} OccursConcat(t: Text, i: nat, x: Text, y: Text)
    ensures Occurs(t, i, x + y) <==> Occurs(t, i, x) && Occurs(t, i + |x|, y)
    decreases x
  {
    if x == [] {
      assert x + y == y;
    } else {
      assert (x + y)[1..] == x[1..] + y;
      OccursConcat(t, i + 1, x[1..], y);
    }
  }

  lemma {:induction false} WordEndIs(t: Text, i: nat, end: nat)
    requires i <= end <= |t| && AllWord(t[i..end]) && BoundaryAfter(t, end)
    ensures WordEnd(t, i) == end
    decreases end - i
  {
    if i < end {
      assert t[i..end][0] == t[i] && t[i + 1..end] == t[i..end][1..];
      WordEndIs(t, i + 1, end);
    }
  }

  lemma MatchIsReceiver(t: Text, i: nat, name: Text)
    requires AllWord(name)
    ensures MatchAt(t, i, name) <==> Receiver(t, i) == Some(name)
  {
    if i + |THIS| <= |t| {
      OccursConcat(t, i, THIS, name);
      OccursSlice(t, i + |THIS|, name);
      var at, end := i + |THIS|, i + |THIS| + |name|;
      if end <= |t| && t[at..end] == name && BoundaryAfter(t, end) {
        WordEndIs(t, at, end);
      }
    } else {
      MatchEnds(t, i, name);
    }
  }

  // ---- Where a receiver cannot stand ----

  lemma NoneAfterWord(t: Text, i: nat)
    requires 0 < i <= |t| && IsWord(t[i - 1])
    ensures Receiver(t, i) == None
  {
  }

  /** Right after `this.` a receiver stands only if the name there is `this`. */
  lemma ThisAfterThis(t: Text, i: nat)
    requires Receiver(t, i).Some? && Receiver(t, i + |THIS|).Some?
    ensures Receiver(t, i).value == SELF
  {
    var j := i + |THIS|;
    OccursSlice(t, j, THIS);
    assert t[j..j + 4] == t[j..j + 5][..4] && t[j..j + 5][4] == 46;
    WordEndIs(t, j, j + 4);
  }

  lemma ReceiverSlice(t: Text, i: nat)
    requires Receiver(t, i).Some?
    ensures var name := Receiver(t, i).value;
            && i + |THIS| + |name| <= |t| && t[i..i + |THIS| + |name|] == THIS + name && AllWord(name)
            && BoundaryAfter(t, i + |THIS| + |name|)
  {
    OccursSlice(t, i, THIS);
    var end := WordEnd(t, i + |THIS|);
    assert t[i..end] == t[i..i + |THIS|] + t[i + |THIS|..end];
  }

  /** Inside a receiver other than `this`, no receiver begins. */
  lemma NoneInside(t: Text, i: nat, j: nat)
    requires Receiver(t, i).Some? && Receiver(t, i).value != SELF
    requires i < j < i + |THIS| + |Receiver(t, i).value|
    ensures Receiver(t, j) == None
  {
    var whole := THIS + Receiver(t, i).value;
    ReceiverSlice(t, i);
    if j == i + |THIS| {
      if Receiver(t, j).Some? {
        ThisAfterThis(t, i);
      }
    } else {
      assert t[j - 1] == t[i..i + |whole|][j - 1 - i] == whole[j - 1 - i];
      NoneAfterWord(t, j);
    }
  }

  // ---- One name more ----

  ghost predicate ProperNames(names: set<Text>) {
    forall n :: n in names ==> n != [] && AllWord(n) && IsLower(n[0]) && n != SELF
  }

  /** What has been emitted ends like what has been read. */
  predicate Aligned(done: Text, t: Text, i: nat) {
    && i <= |t| && (done == [] <==> i == 0)
    && (i > 0 && done != [] ==> IsWord(done[|done| - 1]) == IsWord(t[i - 1]))
  }

  lemma OneMore(t: Text, i: nat, q: nat, rest: Text)
    requires q > 0 && i + q <= |t|
    ensures [t[i]] + (t[i + 1..i + 1 + (q - 1)] + rest) == t[i..i + q] + rest
  {
  }

  lemma {:induction false} Walks(t: Text, i: nat, q: nat, names: set<Text>, slot: Text)
    requires i + q <= |t| && forall j: nat :: i <= j < i + q ==> !NamedIn(t, j, names)
    ensures Together(t, i, names, slot) == t[i..i + q] + Together(t, i + q, names, slot)
    decreases q
  {
    if q > 0 {
      assert !NamedIn(t, i, names);
      Walks(t, i + 1, q - 1, names, slot);
      OneMore(t, i, q, Together(t, i + q, names, slot));
    }
  }

  ghost predicate NoHits(hit: nat -> bool, i: nat, q: nat) {
    forall j: nat :: i <= j < i + q ==> !hit(j)
  }

  lemma {:induction false} ScanCopies(t: Text, i: nat, q: nat, hit: nat -> bool, len: nat, to: Text)
    requires len > 0 && i + q <= |t| && NoHits(hit, i, q)
    ensures Scan(t, i, hit, len, to) == t[i..i + q] + Scan(t, i + q, hit, len, to)
    decreases q
  {
    if q > 0 {
      assert !hit(i);
      ScanCopies(t, i + 1, q - 1, hit, len, to);
      OneMore(t, i, q, Scan(t, i + q, hit, len, to));
    }
  }

  /** No receiver begins inside a constant. */
  lemma NoneInConstant(t: Text, i: nat, slot: Text, name: Text, j: nat)
    requires AllWord(slot) && AllWord(name)
    requires i + |Constant(slot, name)| <= |t| && t[i..i + |Constant(slot, name)|] == Constant(slot, name)
    requires i <= j < i + |Constant(slot, name)|
    ensures Receiver(t, j) == None
  {
    var c := Constant(slot, name);
    assert t[j] == t[i..i + |c|][j - i] == c[j - i];
    if j == i {
      OccursSlice(t, j, THIS);
      assert j + |THIS| <= |t| ==> t[j..j + |THIS|][0] == t[j];
      assert c[0] == 95;
    } else {
      assert t[j - 1] == t[i..i + |c|][j - 1 - i] == c[j - 1 - i];
      NoneAfterWord(t, j);
    }
  }

  // ---- A match in the text so far is a receiver of the original ----

  lemma FirstEmitted(t: Text, i: nat, names: set<Text>, slot: Text)
    requires i <= |t|
    ensures NamedIn(t, i, names) ==> Together(t, i, names, slot) != [] && Together(t, i, names, slot)[0] == 95
    ensures !NamedIn(t, i, names) && i < |t| ==>
              Together(t, i, names, slot) != [] && Together(t, i, names, slot)[0] == t[i]
    ensures i == |t| ==> Together(t, i, names, slot) == []
  {
    if NamedIn(t, i, names) {
      ReceiverSlice(t, i);
    }
  }

  /** As far as `this.<name>` occurs in what follows, it occurs in the original. */
  lemma {:induction false} OccursInOriginal(t: Text, i: nat, names: set<Text>, slot: Text, name: Text, q: nat)
    requires i <= |t| && !NamedIn(t, i, names) && ProperNames({name}) && q <= |THIS + name|
    requires |Together(t, i, names, slot)| >= |THIS + name|
    requires Together(t, i, names, slot)[..|THIS + name|] == THIS + name
    ensures i + q <= |t| && t[i..i + q] == (THIS + name)[..q]
    ensures forall j: nat :: i <= j < i + q ==> !NamedIn(t, j, names)
  {
    if q > 0 {
      OccursInOriginal(t, i, names, slot, name, q - 1);
      NextInOriginal(t, i, names, slot, name, q - 1);
    }
  }

  lemma RestContinues(t: Text, i: nat, q: nat, names: set<Text>, slot: Text, pattern: Text)
    requires i + q <= |t| && forall j: nat :: i <= j < i + q ==> !NamedIn(t, j, names)
    requires q < |pattern| <= |Together(t, i, names, slot)| && Together(t, i, names, slot)[..|pattern|] == pattern
    ensures Together(t, i + q, names, slot) != [] && Together(t, i + q, names, slot)[0] == pattern[q]
  {
    Walks(t, i, q, names, slot);
    assert Together(t, i, names, slot)[..|pattern|][q] == pattern[q];
  }

  lemma Extends(t: Text, i: nat, q: nat, pattern: Text)
    requires i + q < |t| && q < |pattern| && t[i..i + q] == pattern[..q] && t[i + q] == pattern[q]
    ensures t[i..i + (q + 1)] == pattern[..q + 1]
  {
    assert pattern[..q + 1] == pattern[..q] + [pattern[q]];
    assert t[i..i + (q + 1)] == t[i..i + q] + [t[i + q]];
  }

  lemma NextInOriginal(t: Text, i: nat, names: set<Text>, slot: Text, name: Text, q: nat)
    requires i <= |t| && !NamedIn(t, i, names) && ProperNames({name}) && q < |THIS + name|
    requires |Together(t, i, names, slot)| >= |THIS + name|
    requires Together(t, i, names, slot)[..|THIS + name|] == THIS + name
    requires i + q <= |t| && t[i..i + q] == (THIS + name)[..q]
    requires forall j: nat :: i <= j < i + q ==> !NamedIn(t, j, names)
    ensures i + (q + 1) <= |t| && t[i..i + (q + 1)] == (THIS + name)[..q + 1]
    ensures !NamedIn(t, i + q, names)
  {
    RestContinues(t, i, q, names, slot, THIS + name);
    FirstEmitted(t, i + q, names, slot);
    assert name in {name};
    NotNamedNext(t, i, names, name, q);
    Extends(t, i, q, THIS + name);
  }

  /** After a part of `this.<name>`, a receiver could only begin where the name does. */
  lemma NotNamedNext(t: Text, i: nat, names: set<Text>, name: Text, q: nat)
    requires i + q <= |t| && !NamedIn(t, i, names) && name != [] && AllWord(name) && q < |THIS + name|
    requires t[i..i + q] == (THIS + name)[..q]
    ensures NamedIn(t, i + q, names) ==> q == |THIS| && (THIS + name)[q] == name[0]
  {
    if 0 < q != |THIS| {
      assert t[i + q - 1] == t[i..i + q][q - 1] == (THIS + name)[..q][q - 1] == (THIS + name)[q - 1];
      NoneAfterWord(t, i + q);
    }
  }

  lemma {:induction false} PatternInOriginal(t: Text, i: nat, done: Text, names: set<Text>, slot: Text, name: Text)
    requires i < |t| && !NamedIn(t, i, names) && ProperNames({name})
    requires Occurs(done + Together(t, i, names, slot), |done|, THIS + name)
    ensures i + |THIS + name| <= |t| && t[i..i + |THIS + name|] == THIS + name && Occurs(t, i, THIS + name)
    ensures forall j: nat :: i <= j < i + |THIS + name| ==> !NamedIn(t, j, names)
  {
    assert name in {name};
    OccursInRest(done, Together(t, i, names, slot), THIS + name);
    OccursInOriginal(t, i, names, slot, name, |THIS + name|);
    OccursSlice(t, i, THIS + name);
  }

  lemma EndsInWord(t: Text, i: nat, name: Text)
    requires name != [] && AllWord(name) && i + |THIS + name| <= |t| && t[i..i + |THIS + name|] == THIS + name
    ensures IsWord(t[i + |THIS + name| - 1])
  {
    assert t[i + |THIS + name| - 1] == t[i..i + |THIS + name|][|THIS + name| - 1];
  }

  /** The text so far: what has been emitted, and the rest of the original with its receivers
      replaced. A match of another name at the seam is a receiver of the original there. */
  lemma {:induction false} MatchCarries(t: Text, i: nat, done: Text, names: set<Text>, slot: Text, name: Text)
    requires Aligned(done, t, i) && i < |t| && !NamedIn(t, i, names) && ProperNames({name})
    requires MatchAt(done + Together(t, i, names, slot), |done|, name)
    ensures Receiver(t, i) == Some(name)
  {
    assert name in {name};
    PatternInOriginal(t, i, done, names, slot, name);
    EndsInWord(t, i, name);
    SeamBefore(t, i, done, Together(t, i, names, slot));
    EndCarries(t, i, |THIS + name|, done, names, slot);
    MatchIsReceiver(t, i, name);
  }

  lemma {:induction false} OccursInRest(done: Text, rest: Text, part: Text)
    requires Occurs(done + rest, |done|, part)
    ensures |part| <= |rest| && rest[..|part|] == part
  {
    OccursSlice(done + rest, |done|, part);
    assert (done + rest)[|done|..|done| + |part|] == rest[..|part|];
  }

  lemma SeamBefore(t: Text, i: nat, done: Text, rest: Text)
    requires Aligned(done, t, i)
    ensures BoundaryBefore(done + rest, |done|) == BoundaryBefore(t, i)
  {
    assert done != [] ==> (done + rest)[|done| - 1] == done[|done| - 1];
  }

  /** A word ends in the text so far where it ends in the original. */
  lemma EndCarries(t: Text, i: nat, q: nat, done: Text, names: set<Text>, slot: Text)
    requires 0 < q && i + q <= |t| && IsWord(t[i + q - 1])
    requires forall j: nat :: i <= j < i + q ==> !NamedIn(t, j, names)
    ensures BoundaryAfter(done + Together(t, i, names, slot), |done| + q) == BoundaryAfter(t, i + q)
  {
    var rest := Together(t, i + q, names, slot);
    Walks(t, i, q, names, slot);
    NoneAfterWord(t, i + q);
    FirstEmitted(t, i + q, names, slot);
    var out := done + (t[i..i + q] + rest);
    assert rest != [] ==> out[|done| + q] == rest[0];
  }

  lemma NoneOfTheOthers(t: Text, i: nat, names: set<Text>, name: Text)
    requires Receiver(t, i) == Some(name) && name !in names && name != SELF
    ensures forall j: nat :: i <= j < i + |THIS + name| ==> !NamedIn(t, j, names)
  {
    forall j: nat | i <= j < i + |THIS + name| ensures !NamedIn(t, j, names) {
      if j > i {
        NoneInside(t, i, j);
      }
    }
  }

  lemma ReceiverStays(t: Text, i: nat, names: set<Text>, slot: Text, name: Text)
    requires name !in names && name != SELF && Receiver(t, i) == Some(name)
    ensures i + |THIS + name| <= |t|
    ensures Together(t, i, names, slot) == THIS + name + Together(t, i + |THIS + name|, names, slot)
  {
    ReceiverSlice(t, i);
    NoneOfTheOthers(t, i, names, name);
    Walks(t, i, |THIS + name|, names, slot);
  }

  lemma OccursAtSeam(done: Text, part: Text, rest: Text)
    ensures Occurs(done + (part + rest), |done|, part)
  {
    var out := done + (part + rest);
    assert out[|done|..|done| + |part|] == part;
    OccursSlice(out, |done|, part);
  }

  lemma {:induction false} ReceiverCarries(t: Text, i: nat, done: Text, names: set<Text>, slot: Text, name: Text)
    requires Aligned(done, t, i) && name !in names && ProperNames({name}) && Receiver(t, i) == Some(name)
    ensures MatchAt(done + Together(t, i, names, slot), |done|, name)
  {
    var pattern := THIS + name;
    assert name in {name};
    ReceiverSlice(t, i);
    ReceiverStays(t, i, names, slot, name);
    OccursAtSeam(done, pattern, Together(t, i + |pattern|, names, slot));
    SeamBefore(t, i, done, Together(t, i, names, slot));
    assert t[i + |pattern| - 1] == t[i..i + |pattern|][|pattern| - 1];
    NoneOfTheOthers(t, i, names, name);
    EndCarries(t, i, |pattern|, done, names, slot);
  }

  lemma ConstantAligned(t: Text, i: nat, done: Text, slot: Text)
    requires Receiver(t, i).Some? && Receiver(t, i).value != [] && Aligned(done, t, i)
    ensures var name := Receiver(t, i).value;
            Aligned(done + Constant(slot, name), t, i + |THIS| + |name|)
  {
    var name := Receiver(t, i).value;
    var whole, next := THIS + name, i + |THIS| + |name|;
    ReceiverSlice(t, i);
    assert t[next - 1] == t[i..next][|whole| - 1] == whole[|whole| - 1] == name[|name| - 1];
    assert Constant(slot, name)[|Constant(slot, name)| - 1] == name[|name| - 1];
  }

  lemma NameAligned(t: Text, i: nat, done: Text, name: Text)
    requires Receiver(t, i) == Some(name) && name != [] && Aligned(done, t, i)
    ensures Aligned(done + (THIS + name), t, i + |THIS + name|)
  {
    var whole := THIS + name;
    ReceiverSlice(t, i);
    assert t[i + |whole| - 1] == t[i..i + |whole|][|whole| - 1];
  }

  lemma NoHitsInConstant(out: Text, i: nat, slot: Text, bound: Text, name: Text)
    requires AllWord(slot) && AllWord(bound) && AllWord(name)
    requires i + |Constant(slot, bound)| <= |out| && out[i..i + |Constant(slot, bound)|] == Constant(slot, bound)
    ensures NoHits(Matches(out, name), i, |Constant(slot, bound)|)
  {
    forall j: nat | i <= j < i + |Constant(slot, bound)| ensures !Matches(out, name)(j) {
      NoneInConstant(out, i, slot, bound, j);
      MatchIsReceiver(out, j, name);
    }
  }

  lemma TogetherAtNamed(t: Text, i: nat, names: set<Text>, slot: Text)
    requires NamedIn(t, i, names)
    ensures var bound := Receiver(t, i).value;
            && i + |THIS| + |bound| <= |t| && AllWord(bound)
            && Together(t, i, names, slot) == Constant(slot, bound) + Together(t, i + |THIS| + |bound|, names, slot)
  {
    ReceiverSlice(t, i);
  }

  /** A constant holds no match, so it is copied. */
  lemma ConstantIsCopied(out: Text, k: nat, slot: Text, bound: Text, name: Text)
    requires AllWord(slot) && AllWord(bound) && AllWord(name)
    requires k + |Constant(slot, bound)| <= |out| && out[k..k + |Constant(slot, bound)|] == Constant(slot, bound)
    ensures var c, hit, len, to := Constant(slot, bound), Matches(out, name), |THIS| + |name|, Constant(slot, name);
            Scan(out, k, hit, len, to) == c + Scan(out, k + |c|, hit, len, to)
  {
    NoHitsInConstant(out, k, slot, bound, name);
    ScanCopies(out, k, |Constant(slot, bound)|, Matches(out, name), |THIS| + |name|, Constant(slot, name));
  }

  lemma ScanHits(t: Text, i: nat, hit: nat -> bool, len: nat, to: Text)
    requires len > 0 && i < |t| && hit(i)
    ensures Scan(t, i, hit, len, to) == to + Scan(t, i + len, hit, len, to)
  {
  }

  lemma AddsOneElsewhere(t: Text, i: nat, done: Text, names: set<Text>, slot: Text, name: Text)
    requires Aligned(done, t, i) && i < |t| && ProperNames(names + {name})
    requires !NamedIn(t, i, names) && Receiver(t, i) != Some(name)
    ensures var out := done + Together(t, i, names, slot);
            var hit, len, to := Matches(out, name), |THIS| + |name|, Constant(slot, name);
            && Scan(out, |done|, hit, len, to) == [t[i]] + Scan(out, |done| + 1, hit, len, to)
            && Aligned(done + [t[i]], t, i + 1)
  {
    var out := done + Together(t, i, names, slot);
    assert name in names + {name};
    if MatchAt(out, |done|, name) {
      MatchCarries(t, i, done, names, slot, name);
    }
    FirstEmitted(t, i, names, slot);
    assert out[|done|] == t[i];
  }

  /** At the seam, one name more is replaced together with the others. */
  ghost predicate OneMoreIsTogether(t: Text, i: nat, done: Text, names: set<Text>, slot: Text, name: Text) {
    var out := done + Together(t, i, names, slot);
    Scan(out, |done|, Matches(out, name), |THIS| + |name|, Constant(slot, name)) == Together(t, i, names + {name}, slot)
  }

  lemma SameText(x: Text, y: Text, z: Text)
    ensures x + (y + z) == x + y + z
  {
  }

  lemma SliceBetween(x: Text, y: Text, z: Text)
    ensures (x + y + z)[|x|..|x| + |y|] == y
  {
  }

  lemma ConstantStays(t: Text, i: nat, done: Text, names: set<Text>, slot: Text, i': nat, done': Text)
    requires NamedIn(t, i, names)
    requires i' == i + |THIS| + |Receiver(t, i).value| && done' == done + Constant(slot, Receiver(t, i).value)
    ensures done + Together(t, i, names, slot) == done' + Together(t, i', names, slot)
  {
    TogetherAtNamed(t, i, names, slot);
    SameText(done, Constant(slot, Receiver(t, i).value), Together(t, i', names, slot));
  }

  lemma SliceAfter(done: Text, c: Text, rest: Text, out: Text)
    requires out == done + c + rest
    ensures |done| + |c| <= |out| && out[|done|..|done| + |c|] == c
  {
    SliceBetween(done, c, rest);
  }

  lemma ConstantPasses(out: Text, k: nat, k': nat, slot: Text, bound: Text, name: Text)
    requires AllWord(slot) && AllWord(bound) && AllWord(name) && k' == k + |Constant(slot, bound)| <= |out|
    requires out[k..k + |Constant(slot, bound)|] == Constant(slot, bound)
    ensures var c, len, to := Constant(slot, bound), |THIS| + |name|, Constant(slot, name);
            Scan(out, k, Matches(out, name), len, to) == c + Scan(out, k', Matches(out, name), len, to)
  {
    ConstantIsCopied(out, k, slot, bound, name);
  }

  /** One step at the seam: both sides emit `c`, and agree behind it. */
  lemma {:induction false} SeamMoves(t: Text, i: nat, done: Text, names: set<Text>, slot: Text, name: Text,
                                     i': nat, done': Text, c: Text)
    requires done + Together(t, i, names, slot) == done' + Together(t, i', names, slot)
    requires Together(t, i, names + {name}, slot) == c + Together(t, i', names + {name}, slot)
    requires var out, len, to := done' + Together(t, i', names, slot), |THIS| + |name|, Constant(slot, name);
             Scan(out, |done|, Matches(out, name), len, to) == c + Scan(out, |done'|, Matches(out, name), len, to)
    requires OneMoreIsTogether(t, i', done', names, slot, name)
    ensures OneMoreIsTogether(t, i, done, names, slot, name)
  {
  }

  lemma NamedNow(t: Text, i: nat, names: set<Text>, slot: Text, name: Text, i': nat)
    requires Receiver(t, i) == Some(name) && i' == i + |THIS + name|
    ensures Together(t, i, names + {name}, slot) == Constant(slot, name) + Together(t, i', names + {name}, slot)
  {
    assert name in names + {name};
    TogetherAtNamed(t, i, names + {name}, slot);
  }

  lemma NamedAlso(t: Text, i: nat, names: set<Text>, slot: Text, name: Text, i': nat)
    requires NamedIn(t, i, names) && i' == i + |THIS| + |Receiver(t, i).value|
    ensures Together(t, i, names + {name}, slot)
         == Constant(slot, Receiver(t, i).value) + Together(t, i', names + {name}, slot)
  {
    TogetherAtNamed(t, i, names + {name}, slot);
  }

  lemma {:induction false} FromConstant(t: Text, i: nat, done: Text, names: set<Text>, slot: Text, name: Text,
                                        i': nat, done': Text)
    requires AllWord(slot) && AllWord(name) && NamedIn(t, i, names)
    requires i' == i + |THIS| + |Receiver(t, i).value| && done' == done + Constant(slot, Receiver(t, i).value)
    requires OneMoreIsTogether(t, i', done', names, slot, name)
    ensures OneMoreIsTogether(t, i, done, names, slot, name)
  {
    ReceiverSlice(t, i);
    ConstantStays(t, i, done, names, slot, i', done');
    var bound, rest := Receiver(t, i).value, Together(t, i', names, slot);
    SliceAfter(done, Constant(slot, bound), rest, done' + rest);
    ConstantPasses(done' + rest, |done|, |done'|, slot, bound, name);
    NamedAlso(t, i, names, slot, name, i');
    SeamMoves(t, i, done, names, slot, name, i', done', Constant(slot, bound));
  }

  lemma NameStays(t: Text, i: nat, done: Text, names: set<Text>, slot: Text, name: Text)
    requires name !in names && name != SELF && Receiver(t, i) == Some(name) && i + |THIS + name| <= |t|
    ensures done + Together(t, i, names, slot) == done + (THIS + name) + Together(t, i + |THIS + name|, names, slot)
  {
    ReceiverStays(t, i, names, slot, name);
    SameText(done, THIS + name, Together(t, i + |THIS + name|, names, slot));
  }

  /** A match at the seam is replaced, and the scan goes on behind it. */
  lemma NameIsReplaced(done: Text, whole: Text, rest: Text, hit: nat -> bool, to: Text)
    requires whole != [] && hit(|done|)
    ensures Scan(done + whole + rest, |done|, hit, |whole|, to)
         == to + Scan(done + whole + rest, |done + whole|, hit, |whole|, to)
  {
    ScanHits(done + whole + rest, |done|, hit, |whole|, to);
  }

  lemma {:induction false} NamePasses(t: Text, i: nat, done: Text, names: set<Text>, slot: Text, name: Text,
                                      i': nat, done': Text)
    requires Aligned(done, t, i) && name !in names && ProperNames({name}) && Receiver(t, i) == Some(name)
    requires i' == i + |THIS + name| <= |t| && done' == done + (THIS + name)
    ensures done + Together(t, i, names, slot) == done' + Together(t, i', names, slot)
    ensures var out, len, to := done' + Together(t, i', names, slot), |THIS| + |name|, Constant(slot, name);
            Scan(out, |done|, Matches(out, name), len, to) == to + Scan(out, |done'|, Matches(out, name), len, to)
  {
    var rest := Together(t, i', names, slot);
    assert name in {name};
    NameStays(t, i, done, names, slot, name);
    ReceiverCarries(t, i, done, names, slot, name);
    NameIsReplaced(done, THIS + name, rest, Matches(done' + rest, name), Constant(slot, name));
  }

  lemma {:induction false} FromName(t: Text, i: nat, done: Text, names: set<Text>, slot: Text, name: Text,
                                    i': nat, done': Text)
    requires Aligned(done, t, i) && name !in names && ProperNames({name}) && Receiver(t, i) == Some(name)
    requires i' == i + |THIS + name| <= |t| && done' == done + (THIS + name)
    requires OneMoreIsTogether(t, i', done', names, slot, name)
    ensures OneMoreIsTogether(t, i, done, names, slot, name)
  {
    NamePasses(t, i, done, names, slot, name, i', done');
    NamedNow(t, i, names, slot, name, i');
    SeamMoves(t, i, done, names, slot, name, i', done', Constant(slot, name));
  }

  lemma FromElsewhere(t: Text, i: nat, done: Text, names: set<Text>, slot: Text, name: Text,
                      i': nat, done': Text)
    requires Aligned(done, t, i) && i < |t| && ProperNames(names + {name})
    requires !NamedIn(t, i, names) && Receiver(t, i) != Some(name)
    requires i' == i + 1 && done' == done + [t[i]]
    requires OneMoreIsTogether(t, i', done', names, slot, name)
    ensures OneMoreIsTogether(t, i, done, names, slot, name)
  {
    AddsOneElsewhere(t, i, done, names, slot, name);
    SameText(done, [t[i]], Together(t, i + 1, names, slot));
  }

  /** Where the seam is next, and what has been emitted by then. */
  function NextSeam(t: Text, i: nat, done: Text, names: set<Text>, slot: Text, name: Text): (nat, Text)
    requires i < |t|
  {
    if NamedIn(t, i, names) then
      (i + |THIS| + |Receiver(t, i).value|, done + Constant(slot, Receiver(t, i).value))
    else if Receiver(t, i) == Some(name) then (i + |THIS + name|, done + (THIS + name))
    else (i + 1, done + [t[i]])
  }

  lemma StepAligned(t: Text, i: nat, done: Text)
    requires Aligned(done, t, i) && i < |t|
    ensures Aligned(done + [t[i]], t, i + 1)
  {
  }

  lemma {:induction false} SeamAdvances(t: Text, i: nat, done: Text, names: set<Text>, slot: Text, name: Text,
                                        i': nat, done': Text)
    requires Aligned(done, t, i) && i < |t| && [] !in names + {name}
    requires (i', done') == NextSeam(t, i, done, names, slot, name)
    ensures Aligned(done', t, i') && i < i'
  {
    if NamedIn(t, i, names) {
      assert Receiver(t, i).value in names + {name};
      ConstantAligned(t, i, done, slot);
    } else if Receiver(t, i) == Some(name) {
      assert name in names + {name};
      NameAligned(t, i, done, name);
    } else {
      StepAligned(t, i, done);
    }
  }

  lemma {:induction false} FromNextSeam(t: Text, i: nat, done: Text, names: set<Text>, slot: Text, name: Text,
                                        i': nat, done': Text)
    requires Aligned(done, t, i) && i < |t| && AllWord(slot) && name !in names && ProperNames(names + {name})
    requires (i', done') == NextSeam(t, i, done, names, slot, name)
    requires OneMoreIsTogether(t, i', done', names, slot, name)
    ensures OneMoreIsTogether(t, i, done, names, slot, name)
  {
    if NamedIn(t, i, names) {
      assert name in names + {name};
      FromConstant(t, i, done, names, slot, name, i', done');
    } else if Receiver(t, i) == Some(name) {
      assert name in names + {name};
      ReceiverSlice(t, i);
      FromName(t, i, done, names, slot, name, i', done');
    } else {
      FromElsewhere(t, i, done, names, slot, name, i', done');
    }
  }

  lemma AtTheEnd(t: Text, done: Text, names: set<Text>, slot: Text, name: Text)
    ensures OneMoreIsTogether(t, |t|, done, names, slot, name)
  {
  }

  /** Replacing one name more in the text so far, from the seam on, is replacing it together with
      the others in the original. */
  lemma {:induction false} AddsOne(t: Text, i: nat, done: Text, names: set<Text>, slot: Text, name: Text)
    requires Aligned(done, t, i) && AllWord(slot) && name !in names && ProperNames(names + {name})
    ensures OneMoreIsTogether(t, i, done, names, slot, name)
    decreases |t| - i
  {
    if i == |t| {
      AtTheEnd(t, done, names, slot, name);
    } else {
      var (i', done') := NextSeam(t, i, done, names, slot, name);
      SeamAdvances(t, i, done, names, slot, name, i', done');
      AddsOne(t, i', done', names, slot, name);
      FromNextSeam(t, i, done, names, slot, name, i', done');
    }
  }

  // ---- The whole binding ----

  function BoundNames(names: seq<Text>, classes: set<Text>, declared: set<Text>): set<Text> {
    set n | n in names && Binds(n, classes, declared)
  }

  lemma {:induction false} NothingTogether(t: Text, i: nat, slot: Text)
    requires i <= |t|
    ensures Together(t, i, {}, slot) == t[i..]
    decreases |t| - i
  {
    if i < |t| {
      NothingTogether(t, i + 1, slot);
    }
  }

  ghost predicate NoRepeats(names: seq<Text>) {
    forall i, j :: 0 <= i < j < |names| ==> names[i] != names[j]
  }

  /** Binding name after name replaces all the bound receivers at once, in whatever order the names
      come, as long as `this` is not a receiver that is bound. */
  lemma {:induction false} BoundIsTogether(t: Text, names: seq<Text>, classes: set<Text>, declared: set<Text>,
                                           slot: Text)
    requires AllWord(slot) && NoRepeats(names) && !(SELF in names && Binds(SELF, classes, declared))
    ensures Bound(t, names, classes, declared, slot) == Together(t, 0, BoundNames(names, classes, declared), slot)
  {
    if names == [] {
      assert BoundNames(names, classes, declared) == {};
      NothingTogether(t, 0, slot);
    } else {
      var front, name := names[..|names| - 1], names[|names| - 1];
      var before, after := BoundNames(front, classes, declared), BoundNames(names, classes, declared);
      assert names == front + [name];
      BoundIsTogether(t, front, classes, declared, slot);
      if Binds(name, classes, declared) {
        assert after == before + {name} && name !in before;
        AddsOne(t, 0, [], before, slot, name);
        assert [] + Together(t, 0, before, slot) == Together(t, 0, before, slot);
      } else {
        assert after == before;
      }
    }
  }

  /** So the order does not matter. */
  lemma OrderDoesNotMatter(t: Text, names: seq<Text>, names': seq<Text>, classes: set<Text>, declared: set<Text>,
                           slot: Text)
    requires AllWord(slot) && NoRepeats(names) && NoRepeats(names') && forall n :: n in names <==> n in names'
    requires !(SELF in names && Binds(SELF, classes, declared))
    ensures Bound(t, names, classes, declared, slot) == Bound(t, names', classes, declared, slot)
  {
    BoundIsTogether(t, names, classes, declared, slot);
    BoundIsTogether(t, names', classes, declared, slot);
    assert BoundNames(names, classes, declared) == BoundNames(names', classes, declared);
  }

  lemma {:induction false} DistinctHasNoRepeats(names: seq<Text>)
    ensures NoRepeats(Distinct(names))
  {
    if names != [] {
      DistinctHasNoRepeats(names[..|names| - 1]);
    }
  }

  /** The rewritten snippet is the snippet with all its bound receivers replaced at once. */
  lemma SnippetIsTogether(code: Text, classes: set<Text>, declared: set<Text>, slot: Text)
    requires AllWord(slot) && !(SELF in NamesFrom(code, 0) && Binds(SELF, classes, declared))
    ensures Bound(code, Distinct(NamesFrom(code, 0)), classes, declared, slot)
         == Together(code, 0, BoundNames(NamesFrom(code, 0), classes, declared), slot)
  {
    var met := NamesFrom(code, 0);
    DistinctHasNoRepeats(met);
    forall n ensures n in Distinct(met) <==> n in met {
      DistinctHolds(met, n);
    }
    BoundIsTogether(code, Distinct(met), classes, declared, slot);
    assert BoundNames(Distinct(met), classes, declared) == BoundNames(met, classes, declared);
  }

  // ---- When `this` is bound ----

  /** `this.this.a`, where both `this` and `a` could be taken for the receiver. */
  const CHAIN: Text := THIS + SELF + [46, 97]
  const A: Text := [97]

  lemma StartsOtherwise(t: Text, name: Text, to: Text)
    requires t != [] && !MatchAt(t, 0, name)
    ensures Replaced(t, name, to) != [] && Replaced(t, name, to)[0] == t[0]
  {
  }

  /** With `this` first, the chain begins with a constant. */
  lemma SelfFirst(slot: Text)
    ensures var t := Replaced(Replaced(CHAIN, SELF, Constant(slot, SELF)), A, Constant(slot, A));
            t != [] && t[0] == 95
  {
    var t := Replaced(CHAIN, SELF, Constant(slot, SELF));
    OccursSlice(CHAIN, 0, THIS + SELF);
    assert CHAIN[0..9] == THIS + SELF;
    assert MatchAt(CHAIN, 0, SELF);
    assert t[0] == 95;
    OccursSlice(t, 0, THIS + A);
    assert |THIS + A| <= |t| ==> t[0..|THIS + A|][0] == t[0];
    StartsOtherwise(t, A, Constant(slot, A));
  }

  /** With `a` first, it begins as it did. */
  lemma SelfLast(slot: Text)
    ensures var t := Replaced(Replaced(CHAIN, A, Constant(slot, A)), SELF, Constant(slot, SELF));
            t != [] && t[0] == 116
  {
    var hit, len, to := Matches(CHAIN, A), |THIS| + |A|, Constant(slot, A);
    var t := Replaced(CHAIN, A, to);
    forall j: nat | j < 5 ensures !hit(j) {
      OccursSlice(CHAIN, j, THIS + A);
      assert CHAIN[j..j + 6][5] == CHAIN[j + 5];
      assert j > 0 ==> CHAIN[j..j + 6][0] == CHAIN[j];
    }
    ScanCopies(CHAIN, 0, 5, hit, len, to);
    OccursSlice(CHAIN, 5, THIS + A);
    assert CHAIN[5..11] == THIS + A;
    assert hit(5);
    assert t == THIS + (to + Scan(CHAIN, 11, hit, len, to));
    assert t[5] == 95 && t[0] == 116;
    OccursSlice(t, 0, THIS + SELF);
    assert 9 <= |t| ==> t[0..9][5] == t[5];
    StartsOtherwise(t, SELF, Constant(slot, SELF));
  }

  /** If `this` is itself a bound receiver, the order of the names does matter. */
  lemma OrderMattersForThis(slot: Text)
    ensures var classes := {ClassOf(SELF), ClassOf(A)};
            Bound(CHAIN, [SELF, A], classes, {}, slot) != Bound(CHAIN, [A, SELF], classes, {}, slot)
  {
    var classes := {ClassOf(SELF), ClassOf(A)};
    assert Binds(SELF, classes, {}) && Binds(A, classes, {});
    assert [SELF, A][..1] == [SELF] && [A, SELF][..1] == [A] && [SELF][..0] == [] && [A][..0] == [];
    SelfFirst(slot);
    SelfLast(slot);
    assert Bound(CHAIN, [SELF], classes, {}, slot) == Replaced(CHAIN, SELF, Constant(slot, SELF));
    assert Bound(CHAIN, [A], classes, {}, slot) == Replaced(CHAIN, A, Constant(slot, A));
  }
}
