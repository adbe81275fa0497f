/** Which receivers a snippet is found to name: every `this.<name>` between word boundaries, but for
    those the scan has read past as the name of another, which happens in a chain `this.this.<name>`
    alone. */
module ReceiverNames {
  import opened Wrappers
  import opened Texts
  import opened ReadmeSnippets
  import opened BoundReceivers

  /** `this.<name>` stands at `i`, and the name starts with a small letter. */
  predicate Names(t: Text, i: nat, name: Text) {
    Receiver(t, i) == Some(name) && name != [] && IsLower(name[0])
  }

  predicate SomeName(t: Text, i: nat) {
    Receiver(t, i).Some? && Names(t, i, Receiver(t, i).value)
  }

  /** How many `this.` stand in a row right before `i`. */
  function Chain(t: Text, i: nat): nat {
    if i >= |THIS| && Receiver(t, i - |THIS|).Some? then 1 + Chain(t, i - |THIS|) else 0
  }

  /** In a chain every other `this.` is read as a name. */
  predicate ReadPast(t: Text, i: nat) {
    Chain(t, i) % 2 == 1
  }

  function End(t: Text, i: nat): nat
    requires Receiver(t, i).Some?
  {
    i + |THIS| + |Receiver(t, i).value|
  }

  /** The scan is behind everything it has to read before `j`. */
  ghost predicate Behind(t: Text, j: nat) {
    forall i: nat :: i < j && SomeName(t, i) && !ReadPast(t, i) ==> End(t, i) <= j
  }

  lemma SelfIsName(t: Text, i: nat)
    requires i >= |THIS| && Receiver(t, i - |THIS|).Some? && Receiver(t, i).Some?
    ensures Names(t, i - |THIS|, SELF) && End(t, i - |THIS|) == i + 4
  {
    ThisAfterThis(t, i - |THIS|);
  }

  lemma NotReadPast(t: Text, j: nat)
    requires Behind(t, j) && SomeName(t, j)
    ensures !ReadPast(t, j)
  {
    if Chain(t, j) > 0 {
      SelfIsName(t, j);
      assert SomeName(t, j - |THIS|);
    }
  }

  lemma NoneInSelf(t: Text, j: nat, i: nat)
    requires Receiver(t, j) == Some(SELF) && j < i < j + |THIS + SELF|
    ensures i == j + |THIS| || Receiver(t, i) == None
  {
    var whole := THIS + SELF;
    ReceiverSlice(t, j);
    assert t[i - 1] == t[j..j + |whole|][i - 1 - j] == whole[i - 1 - j];
    if i != j + |THIS| {
      NoneAfterWord(t, i);
    }
  }

  /** Inside a name that is read, only `this.` of a chain can stand. */
  lemma InsideIsReadPast(t: Text, j: nat, i: nat)
    requires SomeName(t, j) && !ReadPast(t, j) && j < i < End(t, j) && SomeName(t, i)
    ensures ReadPast(t, i)
  {
    if Receiver(t, j).value != SELF {
      NoneInside(t, j, i);
    } else {
      NoneInSelf(t, j, i);
    }
  }

  lemma BehindName(t: Text, j: nat)
    requires Behind(t, j) && SomeName(t, j)
    ensures Behind(t, End(t, j))
  {
    NotReadPast(t, j);
    forall i: nat | i < End(t, j) && SomeName(t, i) && !ReadPast(t, i) ensures End(t, i) <= End(t, j) {
      if i > j {
        InsideIsReadPast(t, j, i);
      }
    }
  }

  lemma ScanSees(t: Text, i: nat)
    requires i < |t|
    ensures BoundaryBefore(t, i) && Occurs(t, i, THIS) && i + |THIS| < |t| && IsLower(t[i + |THIS|]) <==> SomeName(t, i)
    ensures SomeName(t, i) ==> End(t, i) == WordEnd(t, i + |THIS|) <= |t|
  {
    if i + |THIS| <= |t| {
      var end := WordEnd(t, i + |THIS|);
      assert end > i + |THIS| ==> t[i + |THIS|..end][0] == t[i + |THIS|];
    }
  }

  ghost predicate NamedFrom(t: Text, j: nat, name: Text) {
    exists i: nat :: j <= i && Names(t, i, name) && !ReadPast(t, i)
  }

  lemma NoneAtEnd(t: Text, i: nat)
    requires i >= |t|
    ensures !SomeName(t, i)
  {
  }

  lemma AfterName(t: Text, j: nat, name: Text)
    requires Behind(t, j) && SomeName(t, j)
    ensures NamedFrom(t, j, name) <==> name == Receiver(t, j).value || NamedFrom(t, End(t, j), name)
  {
    NotReadPast(t, j);
    if name == Receiver(t, j).value {
      assert Names(t, j, name);
    }
    if i: nat :| j <= i && Names(t, i, name) && !ReadPast(t, i) {
      assert SomeName(t, i);
      if j < i < End(t, j) {
        InsideIsReadPast(t, j, i);
      }
    }
    if i: nat :| End(t, j) <= i && Names(t, i, name) && !ReadPast(t, i) {
      assert j <= i;
    }
  }

  lemma {:induction false} ListedFrom(t: Text, j: nat, name: Text)
    requires j <= |t| && Behind(t, j)
    ensures name in NamesFrom(t, j) <==> NamedFrom(t, j, name)
    decreases |t| - j
  {
    if j == |t| {
      if i: nat :| j <= i && Names(t, i, name) && !ReadPast(t, i) {
        NoneAtEnd(t, i);
      }
    } else {
      ScanSees(t, j);
      if SomeName(t, j) {
        BehindName(t, j);
        AfterName(t, j, name);
        ListedFrom(t, End(t, j), name);
      } else {
        ListedFrom(t, j + 1, name);
        assert forall i: nat :: j <= i && Names(t, i, name) ==> SomeName(t, i);
      }
    }
  }

  /** A name is listed exactly if `this.<name>` stands somewhere between word boundaries, the name
      starts with a small letter, and an even number of `this.` stand in a row before it. */
  lemma ListedIff(t: Text, name: Text)
    ensures name in NamesFrom(t, 0) <==> exists i: nat :: Names(t, i, name) && Chain(t, i) % 2 == 0
  {
    ListedFrom(t, 0, name);
    if i: nat :| 0 <= i && Names(t, i, name) && !ReadPast(t, i) {
      assert Names(t, i, name) && Chain(t, i) % 2 == 0;
    }
    if i: nat :| Names(t, i, name) && Chain(t, i) % 2 == 0 {
      assert !ReadPast(t, i);
    }
  }

  /** So in a snippet that never says `this.this.`, exactly the names that occur are listed. */
  lemma PlainListedIff(t: Text, name: Text)
    requires forall i: nat :: !MatchAt(t, i, SELF)
    ensures name in NamesFrom(t, 0) <==>
              name != [] && IsLower(name[0]) && AllWord(name) && exists i: nat :: MatchAt(t, i, name)
  {
    ListedIff(t, name);
    if i: nat :| Names(t, i, name) && Chain(t, i) % 2 == 0 {
      ReceiverSlice(t, i);
      MatchIsReceiver(t, i, name);
    }
    if AllWord(name) && name != [] && IsLower(name[0]) {
      if i: nat :| MatchAt(t, i, name) {
        MatchIsReceiver(t, i, name);
        if i >= |THIS| && Receiver(t, i - |THIS|).Some? {
          SelfIsName(t, i);
          MatchIsReceiver(t, i - |THIS|, SELF);
        }
        assert Chain(t, i) == 0;
      }
    }
  }

  /** `this.this.a` has `this.a` between word boundaries, and yet `a` is not listed. */
  lemma ChainIsReadPast()
    ensures MatchAt(CHAIN, |THIS|, A) && A !in NamesFrom(CHAIN, 0)
  {
    OccursSlice(CHAIN, 5, THIS + A);
    assert CHAIN[5..11] == THIS + A;
    MatchIsReceiver(CHAIN, 5, A);
    OccursSlice(CHAIN, 0, THIS + SELF);
    assert CHAIN[0..9] == THIS + SELF;
    MatchIsReceiver(CHAIN, 0, SELF);
    assert Chain(CHAIN, 5) == 1;
    ListedIff(CHAIN, A);
    forall i: nat | Names(CHAIN, i, A) ensures i == 5 {
      ReceiverSlice(CHAIN, i);
      assert CHAIN[i..i + 6][5] == CHAIN[i + 5];
    }
  }

  lemma ListedStartsSmall(t: Text, name: Text)
    requires name in NamesFrom(t, 0)
    ensures name != [] && AllWord(name) && IsLower(name[0])
  {
    var k :| 0 <= k < |NamesFrom(t, 0)| && NamesFrom(t, 0)[k] == name;
  }

  /** A listed receiver is bound exactly if its class is exported and the snippet does not declare it. */
  lemma BoundIff(t: Text, classes: set<Text>, declared: set<Text>, name: Text)
    ensures name in BoundNames(NamesFrom(t, 0), classes, declared) <==>
              && name in NamesFrom(t, 0) && name !in declared
              && name != [] && IsLower(name[0]) && ClassOf(name) in classes
  {
    if name in NamesFrom(t, 0) {
      ListedStartsSmall(t, name);
    }
  }

  // ---- The class and the constant of a receiver ----

  /** `metricsService` and `MetricsService`. */
  const SERVICE: Text := [101, 116, 114, 105, 99, 115, 83, 101, 114, 118, 105, 99, 101]

  /** The class of a receiver is its name with the first letter made a capital, as the
      documentation has it for `this.metricsService`; different receivers have different classes. */
  lemma ClassOfReceiver(name: Text, other: Text)
    requires name != [] && IsLower(name[0]) && other != [] && IsLower(other[0])
    ensures ClassOf([109] + SERVICE) == [77] + SERVICE
    ensures ClassOf(name) == ClassOf(other) ==> name == other
    ensures 65 <= ClassOf(name)[0] <= 90 && ClassOf(name)[1..] == name[1..]
  {
    assert ([109] + SERVICE)[1..] == SERVICE;
    assert ClassOf(name)[0] == name[0] - 32 && ClassOf(other)[0] == other[0] - 32;
    assert ClassOf(other)[1..] == other[1..];
    assert name == [name[0]] + name[1..] && other == [other[0]] + other[1..];
  }

  predicate AllDigits(t: Text) {
    forall i :: 0 <= i < |t| ==> 48 <= t[i] <= 57
  }

  /** Where a number ends and an underscore follows, it can be cut in one way only. */
  lemma DigitsEnd(x: Text, y: Text, x': Text, y': Text)
    requires AllDigits(x) && AllDigits(x') && x + [95] + y == x' + [95] + y'
    ensures x == x' && y == y'
  {
    var whole := x + [95] + y;
    assert whole[|x|] == 95 && (x' + [95] + y')[|x'|] == 95;
    assert forall k :: 0 <= k < |x| ==> whole[k] == x[k];
    assert forall k :: 0 <= k < |x'| ==> (x' + [95] + y')[k] == x'[k];
    assert whole[..|x|] == x && (x' + [95] + y')[..|x'|] == x';
    assert whole[|x| + 1..] == y && (x' + [95] + y')[|x'| + 1..] == y';
  }

  /** No two snippets share a constant, and within one each receiver has its own: slots are
      decimal numbers. */
  lemma ConstantsDiffer(slot: Text, name: Text, slot': Text, name': Text)
    requires AllDigits(slot) && AllDigits(slot') && Constant(slot, name) == Constant(slot', name')
    ensures slot == slot' && name == name'
  {
    var rest, rest' := slot + [95] + name, slot' + [95] + name';
    assert Constant(slot, name) == CTX + rest && Constant(slot', name') == CTX + rest';
    assert (CTX + rest)[|CTX|..] == rest && (CTX + rest')[|CTX|..] == rest';
    DigitsEnd(slot, name, slot', name');
  }
}
