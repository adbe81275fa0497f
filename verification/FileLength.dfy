/** The file-length gate: a tracked source file over the limit must be on a baseline that records
    its exact length, and a baseline may only lose or lower entries of the one before it. */
module FileLength {
  import opened Wrappers
  import opened JsMaps
  import opened Texts

  const LIMIT := 800

  /** A parsed JSON value; an object's members are in text order, repeated names included. */
  datatype Json =
    | Null
    | Boolean(truth: bool)
    | Number(value: real)
    | String(text: Text)
    | Array(items: seq<Json>)
    | Object(members: seq<Member>)

  datatype Member = Member(name: Text, value: Json)

  /** What stands at the baseline's path in a revision. */
  datatype BaselineFile = Missing | Malformed | Parsed(json: Json)

  /** The tracked paths, the text of those that can be read, and the baseline. */
  datatype Revision = Revision(listing: seq<Text>, disk: map<Text, Text>, baseline: BaselineFile)

  type Table = JsMap<Text, int>

  datatype Failure = NoBaseline | NotJson | NotATable | BadLength(file: Text) | Unreadable(path: Text)

  datatype Problem =
    | Unlisted(file: Text, length: int)
    | Grew(file: Text, recorded: int, length: int)
    | Shrank(file: Text, length: int, recorded: int)
    | Stale(file: Text)
    | NewEntry(file: Text)
    | Raised(file: Text, length: int, inBase: int)

  // ---- Line counts ----

  function LineCount(t: Text): nat {
    if t == [] then 0 else if t[|t| - 1] == NL then Feeds(t) else Feeds(t) + 1
  }

  /** The lines, each ended by a line feed. */
  function Terminated(lines: seq<Text>): Text {
    if lines == [] then [] else lines[0] + [NL] + Terminated(lines[1..])
  }

  lemma {:induction false} FeedsOfTerminated(lines: seq<Text>)
    requires AllOneLine(lines)
    ensures Feeds(Terminated(lines)) == |lines|
    ensures lines != [] ==> Terminated(lines) != [] && Terminated(lines)[|Terminated(lines)| - 1] == NL
  {
    if lines != [] {
      FeedsOfTerminated(lines[1..]);
      SplitOneLine(lines[0]);
      SplitAtFeed(lines[0], Terminated(lines[1..]));
    }
  }

  /** The count is the number of lines, whether or not the last one ends in a line feed. */
  lemma LineCountCountsLines(lines: seq<Text>, last: Text)
    requires AllOneLine(lines) && OneLine(last)
    ensures LineCount(Terminated(lines)) == |lines|
    ensures last != [] ==> LineCount(Terminated(lines) + last) == |lines| + 1
  {
    FeedsOfTerminated(lines);
    if last != [] {
      FeedsConcat(Terminated(lines), last);
      SplitOneLine(last);
      assert last[|last| - 1] in last;
    }
  }

  // ---- Files over the limit ----

  predicate EndsWith(t: Text, suffix: Text) {
    |suffix| <= |t| && t[|t| - |suffix|..] == suffix
  }

  const DOT: CodeUnit := 46
  const C: CodeUnit := 99
  const J: CodeUnit := 106
  const M: CodeUnit := 109
  const S: CodeUnit := 115
  const T: CodeUnit := 116
  const X: CodeUnit := 120

  const EXTENSIONS: seq<Text> :=
    [[DOT, J, S], [DOT, T, S], [DOT, C, J, S], [DOT, C, T, S],
     [DOT, M, J, S], [DOT, M, T, S], [DOT, J, S, X], [DOT, T, S, X]]

  predicate IsSource(path: Text) {
    exists i :: 0 <= i < |EXTENSIONS| && EndsWith(path, EXTENSIONS[i])
  }

  /** `[cm]?[jt]s` or `[jt]sx`. */
  predicate SourceExtension(ext: Text) {
    || (|ext| == 2 && JsOrTs(ext[0]) && ext[1] == S)
    || (|ext| == 3 && (ext[0] == C || ext[0] == M) && JsOrTs(ext[1]) && ext[2] == S)
    || (|ext| == 3 && JsOrTs(ext[0]) && ext[1] == S && ext[2] == X)
  }

  predicate JsOrTs(c: CodeUnit) {
    c == J || c == T
  }

  lemma ExtensionListed(ext: Text)
    ensures SourceExtension(ext) <==> [DOT] + ext in EXTENSIONS
  {
    assert EXTENSIONS[0][1..] == [J, S] && EXTENSIONS[1][1..] == [T, S];
    assert EXTENSIONS[2][1..] == [C, J, S] && EXTENSIONS[3][1..] == [C, T, S];
    assert EXTENSIONS[4][1..] == [M, J, S] && EXTENSIONS[5][1..] == [M, T, S];
    assert EXTENSIONS[6][1..] == [J, S, X] && EXTENSIONS[7][1..] == [T, S, X];
    if SourceExtension(ext) {
      assert exists k :: 0 <= k < |EXTENSIONS| && ext == EXTENSIONS[k][1..];
      var k :| 0 <= k < |EXTENSIONS| && ext == EXTENSIONS[k][1..];
      assert [DOT] + ext == EXTENSIONS[k];
    }
    if [DOT] + ext in EXTENSIONS {
      var k :| 0 <= k < |EXTENSIONS| && EXTENSIONS[k] == [DOT] + ext;
      assert ext == EXTENSIONS[k][1..];
    }
  }

  lemma CutExtension(path: Text, k: nat) returns (stem: Text, ext: Text)
    requires k < |EXTENSIONS| && EndsWith(path, EXTENSIONS[k])
    ensures path == stem + [DOT] + ext && SourceExtension(ext)
  {
    var n := |path| - |EXTENSIONS[k]|;
    stem, ext := path[..n], path[n + 1..];
    assert path[n..] == EXTENSIONS[k];
    assert ext == EXTENSIONS[k][1..] && EXTENSIONS[k] == [DOT] + ext;
    ExtensionListed(ext);
  }

  lemma WithExtension(stem: Text, ext: Text)
    requires SourceExtension(ext)
    ensures IsSource(stem + [DOT] + ext)
  {
    var path := stem + [DOT] + ext;
    ExtensionListed(ext);
    var k :| 0 <= k < |EXTENSIONS| && EXTENSIONS[k] == [DOT] + ext;
    assert path[|path| - |[DOT] + ext|..] == [DOT] + ext;
    assert EndsWith(path, EXTENSIONS[k]);
  }

  /** A path is source exactly when it ends in a dot and an extension the pattern accepts. */
  lemma SourceIff(path: Text)
    ensures IsSource(path) <==> exists stem, ext :: path == stem + [DOT] + ext && SourceExtension(ext)
  {
    if IsSource(path) {
      var k :| 0 <= k < |EXTENSIONS| && EndsWith(path, EXTENSIONS[k]);
      var stem, ext := CutExtension(path, k);
    }
    if stem, ext :| path == stem + [DOT] + ext && SourceExtension(ext) {
      WithExtension(stem, ext);
    }
  }

  function FirstUnreadable(listing: seq<Text>, disk: map<Text, Text>): Option<Text> {
    if listing == [] then None
    else if IsSource(listing[0]) && listing[0] !in disk then Some(listing[0])
    else FirstUnreadable(listing[1..], disk)
  }

  function OversizeIn(listing: seq<Text>, disk: map<Text, Text>): Table {
    if listing == [] then []
    else
      var lengths, path := OversizeIn(listing[..|listing| - 1], disk), listing[|listing| - 1];
      if IsSource(path) && path in disk && LineCount(disk[path]) > LIMIT
      then Set(lengths, path, LineCount(disk[path]))
      else lengths
  }

  lemma {:induction false} FirstUnreadableAt(listing: seq<Text>, disk: map<Text, Text>, i: nat)
    requires i < |listing|
    requires forall k :: 0 <= k < i ==> IsSource(listing[k]) ==> listing[k] in disk
    requires IsSource(listing[i]) && listing[i] !in disk
    ensures FirstUnreadable(listing, disk) == Some(listing[i])
  {
    if i > 0 {
      FirstUnreadableAt(listing[1..], disk, i - 1);
    }
  }

  lemma {:induction false} AllReadable(listing: seq<Text>, disk: map<Text, Text>)
    ensures FirstUnreadable(listing, disk) == None <==>
              forall k :: 0 <= k < |listing| && IsSource(listing[k]) ==> listing[k] in disk
  {
    if listing != [] {
      AllReadable(listing[1..], disk);
      assert forall k :: 0 < k < |listing| ==> listing[k] == listing[1..][k - 1];
    }
  }

  /** `oversize`. */
  method Oversize(listing: seq<Text>, disk: map<Text, Text>) returns (r: Result<Table, Failure>)
    ensures r == match FirstUnreadable(listing, disk)
                 case Some(path) => Err(Unreadable(path))
                 case None => Ok(OversizeIn(listing, disk))
  {
    var lengths: Table := [];
    for i := 0 to |listing|
      invariant lengths == OversizeIn(listing[..i], disk)
      invariant forall k :: 0 <= k < i ==> IsSource(listing[k]) ==> listing[k] in disk
    {
      assert listing[..i + 1][..i] == listing[..i];
      var path := listing[i];
      if IsSource(path) {
        if path !in disk {
          FirstUnreadableAt(listing, disk, i);
          return Err(Unreadable(path));
        }
        var length := LineCount(disk[path]);
        if length > LIMIT {
          lengths := Set(lengths, path, length);
        }
      }
    }
    assert listing[..|listing|] == listing;
    AllReadable(listing, disk);
    r := Ok(lengths);
  }

  /** The length a tracked source file has when it is over the limit. */
  function OversizeLength(rev: Revision, path: Text): Option<int> {
    if path in rev.listing && IsSource(path) && path in rev.disk && LineCount(rev.disk[path]) > LIMIT
    then Some(LineCount(rev.disk[path]))
    else None
  }

  lemma SetKeepsUnique<V(!new)>(m: JsMap<Text, V>, k: Text, v: V)
    requires UniqueKeys(m)
    ensures UniqueKeys(Set(m, k, v))
    ensures forall q :: Get(Set(m, k, v), q) == if q == k then Some(v) else Get(m, q)
  {
    var m' := Set(m, k, v);
    var at := Find(m, k);
    assert m'[at] == Full(k, v) && forall i :: 0 <= i < |m| && i != at ==> m'[i] == m[i];
    forall q ensures Get(m', q) == if q == k then Some(v) else Get(m, q) {
      assert Find(m', q) < |m'| ==> m'[Find(m', q)].key == q;
    }
  }

  /** The table holds exactly the tracked source files over the limit, with their lengths. */
  lemma {:induction false} OversizeHolds(rev: Revision)
    ensures UniqueKeys(OversizeIn(rev.listing, rev.disk))
    ensures forall p :: Get(OversizeIn(rev.listing, rev.disk), p) == OversizeLength(rev, p)
    decreases |rev.listing|
  {
    if rev.listing != [] {
      var n := |rev.listing| - 1;
      var before := rev.(listing := rev.listing[..n]);
      OversizeHolds(before);
      var path := rev.listing[n];
      assert rev.listing == rev.listing[..n] + [path];
      if path in rev.disk {
        SetKeepsUnique(OversizeIn(before.listing, rev.disk), path, LineCount(rev.disk[path]));
      }
    }
  }

  // ---- The baseline ----

  const FILES: Text := [102, 105, 108, 101, 115]

  /** An object's own properties: a repeated name keeps its place and takes the last value. */
  function Properties(members: seq<Member>): JsMap<Text, Json> {
    if members == [] then []
    else
      var last := members[|members| - 1];
      Set(Properties(members[..|members| - 1]), last.name, last.value)
  }

  predicate IsLength(j: Json) {
    j.Number? && j.value == j.value.Floor as real && j.value > LIMIT as real
  }

  predicate BadSlot(s: Slot<Text, Json>) {
    s.Full? && !IsLength(s.value)
  }

  function FirstBad(m: JsMap<Text, Json>): Option<Text> {
    if m == [] then None
    else if BadSlot(m[0]) then Some(m[0].key)
    else FirstBad(m[1..])
  }

  function LengthSlot(s: Slot<Text, Json>): Slot<Text, int> {
    if s.Full? && s.value.Number? then Full(s.key, s.value.value.Floor) else Empty
  }

  function Lengths(m: JsMap<Text, Json>): Table {
    seq(|m|, i requires 0 <= i < |m| => LengthSlot(m[i]))
  }

  /** The properties of the `files` object, when there is one. */
  function FilesIn(j: Json): Option<JsMap<Text, Json>> {
    if !j.Object? then None
    else
      match Get(Properties(j.members), FILES)
      case None => None
      case Some(files) => if files.Object? then Some(Properties(files.members)) else None
  }

  function Parse(file: BaselineFile): Result<Table, Failure> {
    match file
    case Missing => Err(NoBaseline)
    case Malformed => Err(NotJson)
    case Parsed(json) =>
      match FilesIn(json)
      case None => Err(NotATable)
      case Some(files) =>
        match FirstBad(files)
        case Some(bad) => Err(BadLength(bad))
        case None => Ok(Lengths(files))
  }

  lemma {:induction false} FirstBadAt(m: JsMap<Text, Json>, i: nat)
    requires i < |m| && BadSlot(m[i]) && forall k :: 0 <= k < i ==> !BadSlot(m[k])
    ensures FirstBad(m) == Some(m[i].key)
  {
    if i > 0 {
      FirstBadAt(m[1..], i - 1);
    }
  }

  lemma {:induction false} NoneBad(m: JsMap<Text, Json>)
    ensures FirstBad(m) == None <==> forall k :: 0 <= k < |m| ==> !BadSlot(m[k])
  {
    if m != [] {
      NoneBad(m[1..]);
      assert forall k :: 0 < k < |m| ==> m[k] == m[1..][k - 1];
    }
  }

  /** `parseBaseline`. */
  method ParseBaseline(file: BaselineFile) returns (r: Result<Table, Failure>)
    ensures r == Parse(file)
  {
    if !file.Parsed? {
      return if file.Missing? then Err(NoBaseline) else Err(NotJson);
    }
    var files := FilesIn(file.json);
    if files.None? {
      return Err(NotATable);
    }
    var table := files.value;
    for i := 0 to |table|
      invariant forall k :: 0 <= k < i ==> !BadSlot(table[k])
    {
      if table[i].Full? && !IsLength(table[i].value) {
        FirstBadAt(table, i);
        return Err(BadLength(table[i].key));
      }
    }
    NoneBad(table);
    r := Ok(Lengths(table));
  }

  lemma {:induction false} PropertiesAreUnique(members: seq<Member>)
    ensures UniqueKeys(Properties(members))
  {
    if members != [] {
      var last := members[|members| - 1];
      PropertiesAreUnique(members[..|members| - 1]);
      SetKeepsUnique(Properties(members[..|members| - 1]), last.name, last.value);
    }
  }

  /** `member` `i` is the last one of its name. */
  ghost predicate LastOfName(members: seq<Member>, i: int, name: Text) {
    && 0 <= i < |members| && members[i].name == name
    && forall j :: i < j < |members| ==> members[j].name != name
  }

  /** A property holds the value of the last member of that name. */
  lemma {:induction false} PropertyIsLast(members: seq<Member>, name: Text, v: Json)
    ensures Get(Properties(members), name) == Some(v) <==>
              exists i :: LastOfName(members, i, name) && members[i].value == v
  {
    if members != [] {
      var n := |members| - 1;
      var front, last := members[..n], members[n];
      PropertyIsLast(front, name, v);
      PropertiesAreUnique(front);
      SetKeepsUnique(Properties(front), last.name, last.value);
      if last.name == name {
        assert LastOfName(members, n, name);
      } else {
        assert forall i :: LastOfName(members, i, name) ==> i < n;
        assert forall i :: 0 <= i < n ==> (LastOfName(members, i, name) <==> LastOfName(front, i, name));
      }
    }
  }

  function NumberOf(n: int): Json {
    Number(n as real)
  }

  /** An integer above the limit. */
  ghost predicate RecordsLength(j: Json) {
    exists n: int :: n > LIMIT && j == NumberOf(n)
  }

  lemma LengthIff(j: Json)
    ensures IsLength(j) <==> RecordsLength(j)
  {
    if IsLength(j) {
      var n := j.value.Floor;
      assert j == NumberOf(n);
    }
  }

  /** Which failure a baseline that is not accepted causes: the first property that records no
      integer above the limit is the one named. */
  lemma {:induction false} FirstBadIs(m: JsMap<Text, Json>, path: Text)
    ensures FirstBad(m) == Some(path) <==>
              exists i :: && 0 <= i < |m| && m[i].Full? && m[i].key == path && !RecordsLength(m[i].value)
                          && forall k :: 0 <= k < i && m[k].Full? ==> RecordsLength(m[k].value)
  {
    forall j ensures IsLength(j) <==> RecordsLength(j) {
      LengthIff(j);
    }
    NoneBad(m);
    if FirstBad(m) == Some(path) {
      var i := FirstBadIndex(m);
      assert m[i].key == path;
    }
    if i :| && 0 <= i < |m| && m[i].Full? && m[i].key == path && !RecordsLength(m[i].value)
            && forall k :: 0 <= k < i && m[k].Full? ==> RecordsLength(m[k].value) {
      FirstBadAt(m, i);
    }
  }

  lemma {:induction false} FirstBadIndex(m: JsMap<Text, Json>) returns (i: nat)
    requires FirstBad(m).Some?
    ensures i < |m| && BadSlot(m[i]) && FirstBad(m) == Some(m[i].key)
    ensures forall k :: 0 <= k < i ==> !BadSlot(m[k])
  {
    if BadSlot(m[0]) {
      i := 0;
    } else {
      var k := FirstBadIndex(m[1..]);
      i := k + 1;
      assert forall k :: 0 < k < |m| ==> m[k] == m[1..][k - 1];
    }
  }

  lemma FindLength(m: JsMap<Text, Json>, k: Text)
    requires FirstBad(m) == None
    ensures Find(Lengths(m), k) == Find(m, k)
  {
    NoneBad(m);
    var t := Lengths(m);
    assert forall i :: 0 <= i < |m| ==> t[i].Full? == m[i].Full? && (m[i].Full? ==> t[i].key == m[i].key);
    assert Find(m, k) < |m| ==> t[Find(m, k)].Full?;
    assert Find(t, k) < |m| ==> m[Find(t, k)].Full?;
  }

  /** A baseline is accepted exactly when it is an object whose `files` is one that records an
      integer above the limit for every path, and the table then holds those integers. */
  lemma ParseIff(file: BaselineFile)
    ensures Parse(file).Ok? <==>
              && file.Parsed? && FilesIn(file.json).Some?
              && forall k :: Get(FilesIn(file.json).value, k).Some? ==>
                               RecordsLength(Get(FilesIn(file.json).value, k).value)
    ensures Parse(file).Ok? ==>
              && UniqueKeys(Parse(file).value)
              && (forall k, n :: Get(Parse(file).value, k) == Some(n)
                                 <==> Get(FilesIn(file.json).value, k) == Some(Number(n as real)))
              && forall k :: Get(Parse(file).value, k).Some? ==> Get(Parse(file).value, k).value > LIMIT
    ensures file.Parsed? && FilesIn(file.json).Some? <==>
              file.Parsed? && exists members, files :: file.json == Object(members)
                                && Get(Properties(members), FILES) == Some(Object(files))
  {
    forall j ensures IsLength(j) <==> RecordsLength(j) {
      LengthIff(j);
    }
    if file.Parsed? && FilesIn(file.json).Some? {
      var files := FilesIn(file.json).value;
      PropertiesAreUnique(Get(Properties(file.json.members), FILES).value.members);
      NoneBad(files);
      if FirstBad(files) == None {
        ParsedLengths(files);
      } else {
        var i := FirstBadIndex(files);
        SlotIsEntry(files, i);
      }
    }
  }

  lemma SlotIsEntry<V(!new)>(m: JsMap<Text, V>, i: nat)
    requires UniqueKeys(m) && i < |m| && m[i].Full?
    ensures Get(m, m[i].key) == Some(m[i].value)
  {
    assert Find(m, m[i].key) <= i;
  }

  lemma ParsedLengths(files: JsMap<Text, Json>)
    requires UniqueKeys(files) && FirstBad(files) == None
    ensures UniqueKeys(Lengths(files))
    ensures forall k :: Get(files, k).Some? ==> IsLength(Get(files, k).value)
    ensures forall k, n :: Get(Lengths(files), k) == Some(n) <==> Get(files, k) == Some(Number(n as real))
    ensures forall k :: Get(Lengths(files), k).Some? ==> Get(Lengths(files), k).value > LIMIT
  {
    NoneBad(files);
    forall k
      ensures Get(files, k).Some? ==>
                && IsLength(Get(files, k).value)
                && Get(Lengths(files), k) == Some(Get(files, k).value.value.Floor)
      ensures Get(files, k) == None ==> Get(Lengths(files), k) == None
    {
      FindLength(files, k);
    }
  }

  // ---- Problems ----

  function OverProblem(s: Slot<Text, int>, baseline: Table): seq<Problem> {
    if s.Empty? then []
    else
      match Get(baseline, s.key)
      case None => [Unlisted(s.key, s.value)]
      case Some(recorded) =>
        if s.value > recorded then [Grew(s.key, recorded, s.value)]
        else if s.value < recorded then [Shrank(s.key, s.value, recorded)]
        else []
  }

  function StaleProblem(s: Slot<Text, int>, over: Table): seq<Problem> {
    if s.Full? && !Has(over, s.key) then [Stale(s.key)] else []
  }

  function WideningProblem(s: Slot<Text, int>, base: Table): seq<Problem> {
    if s.Empty? then []
    else
      match Get(base, s.key)
      case None => [NewEntry(s.key)]
      case Some(inBase) => if s.value > inBase then [Raised(s.key, s.value, inBase)] else []
  }

  /** What `f` yields for each slot of `m`, in order. */
  function Each(f: Slot<Text, int> -> seq<Problem>, m: Table): seq<Problem> {
    if m == [] then [] else Each(f, m[..|m| - 1]) + f(m[|m| - 1])
  }

  function Problems(over: Table, baseline: Table): seq<Problem> {
    Each(s => OverProblem(s, baseline), over) + Each(s => StaleProblem(s, over), baseline)
  }

  function WideningProblems(baseline: Table, base: Table): seq<Problem> {
    Each(s => WideningProblem(s, base), baseline)
  }

  lemma {:induction false} EachHolds(f: Slot<Text, int> -> seq<Problem>, m: Table, p: Problem)
    ensures p in Each(f, m) <==> exists i :: 0 <= i < |m| && p in f(m[i])
  {
    if m != [] {
      var n := |m| - 1;
      EachHolds(f, m[..n], p);
      if i :| 0 <= i < |m| && p in f(m[i]) {
        assert i < n ==> m[..n][i] == m[i];
      }
      if i :| 0 <= i < n && p in f(m[..n][i]) {
        assert m[i] == m[..n][i];
      }
    }
  }

  /** `problemsOf`. */
  method ProblemsOf(over: Table, baseline: Table) returns (problems: seq<Problem>)
    ensures problems == Problems(over, baseline)
  {
    problems := [];
    for i := 0 to |over|
      invariant problems == Each(s => OverProblem(s, baseline), over[..i])
    {
      assert over[..i + 1][..i] == over[..i];
      if over[i].Full? {
        var file, length, recorded := over[i].key, over[i].value, Get(baseline, over[i].key);
        if recorded.None? {
          problems := problems + [Unlisted(file, length)];
        } else if length > recorded.value {
          problems := problems + [Grew(file, recorded.value, length)];
        } else if length < recorded.value {
          problems := problems + [Shrank(file, length, recorded.value)];
        }
      }
    }
    assert over[..|over|] == over;
    ghost var first := problems;
    for i := 0 to |baseline|
      invariant problems == first + Each(s => StaleProblem(s, over), baseline[..i])
    {
      assert baseline[..i + 1][..i] == baseline[..i];
      if baseline[i].Full? && !Has(over, baseline[i].key) {
        problems := problems + [Stale(baseline[i].key)];
      }
    }
    assert baseline[..|baseline|] == baseline;
  }

  /** `widening`. */
  method Widening(baseline: Table, base: Table) returns (problems: seq<Problem>)
    ensures problems == WideningProblems(baseline, base)
  {
    problems := [];
    for i := 0 to |baseline|
      invariant problems == Each(s => WideningProblem(s, base), baseline[..i])
    {
      assert baseline[..i + 1][..i] == baseline[..i];
      if baseline[i].Full? {
        var file, length, inBase := baseline[i].key, baseline[i].value, Get(base, baseline[i].key);
        if inBase.None? {
          problems := problems + [NewEntry(file)];
        } else if length > inBase.value {
          problems := problems + [Raised(file, length, inBase.value)];
        }
      }
    }
    assert baseline[..|baseline|] == baseline;
  }

  /** What each message says about the two tables. */
  ghost predicate Describes(p: Problem, over: Table, baseline: Table) {
    match p
    case Unlisted(file, length) => Get(over, file) == Some(length) && Get(baseline, file) == None
    case Grew(file, recorded, length) =>
      Get(over, file) == Some(length) && Get(baseline, file) == Some(recorded) && recorded < length
    case Shrank(file, length, recorded) =>
      Get(over, file) == Some(length) && Get(baseline, file) == Some(recorded) && length < recorded
    case Stale(file) => Get(over, file) == None && Get(baseline, file).Some?
    case NewEntry(_) => false
    case Raised(_, _, _) => false
  }

  lemma OverProblemHolds(s: Slot<Text, int>, over: Table, baseline: Table, p: Problem)
    requires s.Full? && Get(over, s.key) == Some(s.value)
    ensures p in OverProblem(s, baseline) <==> !p.Stale? && Describes(p, over, baseline) && p.file == s.key
  {
  }

  lemma OverProblemsHold(over: Table, baseline: Table, p: Problem)
    requires UniqueKeys(over)
    ensures p in Each(s => OverProblem(s, baseline), over) <==> !p.Stale? && Describes(p, over, baseline)
  {
    EachHolds(s => OverProblem(s, baseline), over, p);
    forall i | 0 <= i < |over| && over[i].Full?
      ensures p in OverProblem(over[i], baseline) <==>
                !p.Stale? && Describes(p, over, baseline) && p.file == over[i].key
    {
      SlotIsEntry(over, i);
      OverProblemHolds(over[i], over, baseline, p);
    }
    if !p.Stale? && Describes(p, over, baseline) {
      assert over[Find(over, p.file)].key == p.file;
    }
  }

  lemma StaleProblemsHold(over: Table, baseline: Table, p: Problem)
    ensures p in Each(s => StaleProblem(s, over), baseline) <==> p.Stale? && Describes(p, over, baseline)
  {
    EachHolds(s => StaleProblem(s, over), baseline, p);
    if p.Stale? {
      forall i | 0 <= i < |baseline| && baseline[i].Full? && baseline[i].key == p.file ensures Has(baseline, p.file) {
        assert Find(baseline, p.file) <= i;
      }
      if Has(baseline, p.file) {
        assert baseline[Find(baseline, p.file)].key == p.file;
      }
    }
  }

  /** A message is given exactly when it is true of the two tables. */
  lemma ProblemsHold(over: Table, baseline: Table, p: Problem)
    requires UniqueKeys(over)
    ensures p in Problems(over, baseline) <==> Describes(p, over, baseline)
  {
    OverProblemsHold(over, baseline, p);
    StaleProblemsHold(over, baseline, p);
  }

  lemma ProblemAt(over: Table, baseline: Table, file: Text)
    ensures Get(over, file) != Get(baseline, file) <==>
              exists p: Problem :: p.file == file && Describes(p, over, baseline)
  {
    match (Get(over, file), Get(baseline, file)) {
      case (None, None) =>
      case (None, Some(recorded)) => assert Describes(Stale(file), over, baseline);
      case (Some(length), None) => assert Describes(Unlisted(file, length), over, baseline);
      case (Some(length), Some(recorded)) =>
        assert length > recorded ==> Describes(Grew(file, recorded, length), over, baseline);
        assert length < recorded ==> Describes(Shrank(file, length, recorded), over, baseline);
    }
  }

  /** There is no problem exactly when the oversize files are the baseline. */
  lemma NoProblemsIff(over: Table, baseline: Table)
    requires UniqueKeys(over)
    ensures Problems(over, baseline) == [] <==> forall file :: Get(over, file) == Get(baseline, file)
  {
    if Problems(over, baseline) == [] {
      forall file ensures Get(over, file) == Get(baseline, file) {
        ProblemAt(over, baseline, file);
        if p: Problem :| p.file == file && Describes(p, over, baseline) {
          ProblemsHold(over, baseline, p);
        }
      }
    } else {
      var p := Problems(over, baseline)[0];
      ProblemsHold(over, baseline, p);
      ProblemAt(over, baseline, p.file);
    }
  }

  ghost predicate Narrows(m: Table, base: Table) {
    forall file :: Get(m, file).Some? ==> Get(base, file).Some? && Get(m, file).value <= Get(base, file).value
  }

  /** What each message says about the two baselines. */
  ghost predicate SaysWider(p: Problem, baseline: Table, base: Table) {
    match p
    case NewEntry(file) => Get(baseline, file).Some? && Get(base, file) == None
    case Raised(file, length, inBase) =>
      Get(baseline, file) == Some(length) && Get(base, file) == Some(inBase) && length > inBase
    case _ => false
  }

  /** A widening is reported exactly when the baseline has an entry that the base's has not, or has
      a higher one. */
  lemma WideningHolds(baseline: Table, base: Table, p: Problem)
    requires UniqueKeys(baseline)
    ensures p in WideningProblems(baseline, base) <==> SaysWider(p, baseline, base)
  {
    EachHolds(s => WideningProblem(s, base), baseline, p);
    forall i | 0 <= i < |baseline| && baseline[i].Full?
      ensures p in WideningProblem(baseline[i], base) <==> SaysWider(p, baseline, base) && p.file == baseline[i].key
    {
      SlotIsEntry(baseline, i);
    }
    if SaysWider(p, baseline, base) {
      assert baseline[Find(baseline, p.file)].key == p.file;
    }
  }

  lemma NoWideningIff(baseline: Table, base: Table)
    requires UniqueKeys(baseline)
    ensures WideningProblems(baseline, base) == [] <==> Narrows(baseline, base)
  {
    var f := s => WideningProblem(s, base);
    if WideningProblems(baseline, base) == [] {
      forall file | Has(baseline, file)
        ensures Get(base, file).Some? && Get(baseline, file).value <= Get(base, file).value
      {
        var s := baseline[Find(baseline, file)];
        if f(s) != [] {
          EachHolds(f, baseline, f(s)[0]);
        }
      }
    } else {
      var p := WideningProblems(baseline, base)[0];
      EachHolds(f, baseline, p);
      var i :| 0 <= i < |baseline| && p in f(baseline[i]);
      SlotIsEntry(baseline, i);
      assert Has(baseline, baseline[i].key);
    }
  }

  // ---- The verdict ----

  /** What a run reports: the problems, or the failure it stops with. No `--base` and a base
      without a baseline file both impose nothing. */
  function Verdict(rev: Revision, base: BaselineFile): Result<seq<Problem>, Failure> {
    match Parse(rev.baseline)
    case Err(e) => Err(e)
    case Ok(table) =>
      if !base.Missing? && Parse(base).Err? then Err(Parse(base).error)
      else
        match FirstUnreadable(rev.listing, rev.disk)
        case Some(path) => Err(Unreadable(path))
        case None =>
          Ok(Problems(OversizeIn(rev.listing, rev.disk), table)
             + if base.Missing? then [] else WideningProblems(table, Parse(base).value))
  }

  method Check(rev: Revision, base: BaselineFile) returns (r: Result<seq<Problem>, Failure>)
    ensures r == Verdict(rev, base)
  {
    var baseline := ParseBaseline(rev.baseline);
    if baseline.Err? {
      return Err(baseline.error);
    }
    var before: Option<Table> := None;
    if !base.Missing? {
      var parsed := ParseBaseline(base);
      if parsed.Err? {
        return Err(parsed.error);
      }
      before := Some(parsed.value);
    }
    var over := Oversize(rev.listing, rev.disk);
    if over.Err? {
      return Err(over.error);
    }
    var problems := ProblemsOf(over.value, baseline.value);
    if before.Some? {
      var widened := Widening(baseline.value, before.value);
      problems := problems + widened;
    } else {
      assert problems + [] == problems;
    }
    r := Ok(problems);
  }

  predicate Accepted(rev: Revision, base: BaselineFile) {
    Verdict(rev, base) == Ok([])
  }

  ghost predicate Readable(rev: Revision) {
    forall k :: 0 <= k < |rev.listing| && IsSource(rev.listing[k]) ==> rev.listing[k] in rev.disk
  }

  /** The baseline records exactly the files over the limit, with their lengths. */
  ghost predicate Exact(rev: Revision) {
    Parse(rev.baseline).Ok? && forall p :: Get(Parse(rev.baseline).value, p) == OversizeLength(rev, p)
  }

  lemma AcceptedIff(rev: Revision, base: BaselineFile)
    ensures Accepted(rev, base) <==>
              && Readable(rev) && Exact(rev)
              && (base.Missing? || (Parse(base).Ok? && Narrows(Parse(rev.baseline).value, Parse(base).value)))
  {
    AllReadable(rev.listing, rev.disk);
    OversizeHolds(rev);
    ParseIff(rev.baseline);
    if Parse(rev.baseline).Ok? {
      var table := Parse(rev.baseline).value;
      NoProblemsIff(OversizeIn(rev.listing, rev.disk), table);
      if Parse(base).Ok? {
        NoWideningIff(table, Parse(base).value);
      }
    }
  }

  // ---- Histories ----

  /** Every revision was accepted against the one before it; the first against no baseline. */
  ghost predicate Chain(history: seq<Revision>) {
    && (history != [] ==> Accepted(history[0], Missing))
    && forall i :: 0 < i < |history| ==> Accepted(history[i], history[i - 1].baseline)
  }

  /** Every file oversize in `later` was oversize in `earlier`, and no shorter. */
  ghost predicate OnlyShrank(earlier: Revision, later: Revision) {
    forall p :: OversizeLength(later, p).Some? ==>
                  OversizeLength(earlier, p).Some? && OversizeLength(later, p).value <= OversizeLength(earlier, p).value
  }

  lemma ChainIsExact(history: seq<Revision>, i: nat)
    requires Chain(history) && i < |history|
    ensures Exact(history[i])
  {
    AcceptedIff(history[i], if i == 0 then Missing else history[i - 1].baseline);
  }

  lemma StepOnlyShrinks(history: seq<Revision>, i: nat)
    requires Chain(history) && 0 < i < |history|
    ensures OnlyShrank(history[i - 1], history[i])
  {
    ChainIsExact(history, i - 1);
    ChainIsExact(history, i);
    AcceptedIff(history[i], history[i - 1].baseline);
  }

  lemma OnlyShrankIsTransitive(a: Revision, b: Revision, c: Revision)
    requires OnlyShrank(a, b) && OnlyShrank(b, c)
    ensures OnlyShrank(a, c)
  {
    forall p | OversizeLength(c, p).Some?
      ensures OversizeLength(a, p).Some? && OversizeLength(c, p).value <= OversizeLength(a, p).value
    {
      assert OversizeLength(b, p).Some?;
    }
  }

  lemma {:induction false} StepsOnlyShrink(history: seq<Revision>, i: nat, j: nat)
    requires i <= j < |history| && forall k :: 0 < k < |history| ==> OnlyShrank(history[k - 1], history[k])
    ensures OnlyShrank(history[i], history[j])
    decreases j - i
  {
    if i < j {
      StepsOnlyShrink(history, i, j - 1);
      OnlyShrankIsTransitive(history[i], history[j - 1], history[j]);
    }
  }

  /** Along any chain of accepted revisions, every oversize file was oversize at every earlier
      revision with a length no smaller. */
  lemma ChainOnlyShrinks(history: seq<Revision>, i: nat, j: nat)
    requires Chain(history) && i <= j < |history|
    ensures OnlyShrank(history[i], history[j])
  {
    forall k | 0 < k < |history| ensures OnlyShrank(history[k - 1], history[k]) {
      StepOnlyShrinks(history, k);
    }
    StepsOnlyShrink(history, i, j);
  }

  /** A file that was once within the limit, or not tracked, is never oversize afterwards. */
  lemma OnceWithinAlwaysWithin(history: seq<Revision>, i: nat, j: nat, path: Text)
    requires Chain(history) && i <= j < |history| && OversizeLength(history[i], path) == None
    ensures OversizeLength(history[j], path) == None
  {
    ChainOnlyShrinks(history, i, j);
  }

  /** The lines over the limit, over all the files of a table. */
  function Excess(m: Table): int {
    if m == [] then 0
    else Excess(m[..|m| - 1]) + if m[|m| - 1].Full? then m[|m| - 1].value - LIMIT else 0
  }

  ghost predicate AboveLimit(m: Table) {
    forall i :: 0 <= i < |m| && m[i].Full? ==> m[i].value > LIMIT
  }

  lemma {:induction false} ExcessIsPositive(m: Table)
    requires AboveLimit(m)
    ensures Excess(m) >= 0
  {
    if m != [] {
      ExcessIsPositive(m[..|m| - 1]);
    }
  }

  lemma {:induction false} ExcessWithout(m: Table, i: nat)
    requires i < |m| && m[i].Full?
    ensures Excess(m) == Excess(m[i := Empty]) + m[i].value - LIMIT
  {
    var n := |m| - 1;
    if i < n {
      ExcessWithout(m[..n], i);
      assert m[i := Empty][..n] == m[..n][i := Empty];
    } else {
      assert m[i := Empty][..n] == m[..n];
    }
  }

  lemma GetWithout(m: Table, i: nat, q: Text)
    requires UniqueKeys(m) && i < |m| && m[i].Full?
    ensures Get(m[i := Empty], q) == if q == m[i].key then None else Get(m, q)
  {
    var m' := m[i := Empty];
    SlotIsEntry(m, i);
    assert Find(m', q) < |m| ==> m'[Find(m', q)] == m[Find(m', q)];
    if q != m[i].key && Find(m, q) < |m| {
      assert m'[Find(m, q)] == m[Find(m, q)];
    }
  }

  /** A table that narrows another has no more excess. */
  lemma {:induction false} NarrowingLowersExcess(m: Table, base: Table)
    requires UniqueKeys(m) && UniqueKeys(base) && AboveLimit(m) && AboveLimit(base) && Narrows(m, base)
    ensures Excess(m) <= Excess(base)
    decreases |m|
  {
    if m == [] {
      ExcessIsPositive(base);
    } else {
      var n := |m| - 1;
      forall q ensures Get(m[..n], q) == if m[n].Full? && q == m[n].key then None else Get(m, q) {
        FrontGet(m, q);
      }
      if m[n].Empty? {
        NarrowingLowersExcess(m[..n], base);
      } else {
        var k := m[n].key;
        SlotIsEntry(m, n);
        var i := Find(base, k);
        assert Get(m, k).Some?;
        ExcessWithout(base, i);
        forall q ensures Get(base[i := Empty], q) == if q == k then None else Get(base, q) {
          GetWithout(base, i, q);
        }
        NarrowingLowersExcess(m[..n], base[i := Empty]);
      }
    }
  }

  lemma FrontGet(m: Table, q: Text)
    requires UniqueKeys(m) && m != []
    ensures Get(m[..|m| - 1], q) == if m[|m| - 1].Full? && q == m[|m| - 1].key then None else Get(m, q)
  {
    var n := |m| - 1;
    assert Find(m[..n], q) < n ==> m[Find(m[..n], q)] == m[..n][Find(m[..n], q)];
    assert Find(m, q) < n ==> m[..n][Find(m, q)] == m[Find(m, q)];
  }

  function TotalExcess(rev: Revision): int {
    Excess(OversizeIn(rev.listing, rev.disk))
  }

  lemma OversizeAboveLimit(rev: Revision)
    ensures AboveLimit(OversizeIn(rev.listing, rev.disk))
  {
    var over := OversizeIn(rev.listing, rev.disk);
    OversizeHolds(rev);
    forall i | 0 <= i < |over| && over[i].Full? ensures over[i].value > LIMIT {
      SlotIsEntry(over, i);
    }
  }

  /** The total excess never rises along a chain. */
  lemma ChainNeverGrows(history: seq<Revision>, i: nat, j: nat)
    requires Chain(history) && i <= j < |history|
    ensures TotalExcess(history[j]) <= TotalExcess(history[i])
  {
    ChainOnlyShrinks(history, i, j);
    OversizeHolds(history[i]);
    OversizeHolds(history[j]);
    OversizeAboveLimit(history[i]);
    OversizeAboveLimit(history[j]);
    var earlier, later := history[i], history[j];
    NarrowingLowersExcess(OversizeIn(later.listing, later.disk), OversizeIn(earlier.listing, earlier.disk));
  }

  // ---- Why the base is needed ----

  function Encoded(m: Table): seq<Member> {
    if m == [] then []
    else
      var last := m[|m| - 1];
      Encoded(m[..|m| - 1]) + if last.Full? then [Member(last.key, Number(last.value as real))] else []
  }

  /** The baseline file that records a table. */
  function Recorded(m: Table): BaselineFile {
    Parsed(Object([Member(FILES, Object(Encoded(m)))]))
  }

  lemma {:induction false} EncodedHolds(m: Table, q: Text)
    requires UniqueKeys(m)
    ensures Get(Properties(Encoded(m)), q) ==
              match Get(m, q)
              case None => None
              case Some(n) => Some(NumberOf(n))
  {
    if m != [] {
      var n := |m| - 1;
      EncodedHolds(m[..n], q);
      FrontGet(m, q);
      if m[n].Full? {
        SlotIsEntry(m, n);
        PropertiesAreUnique(Encoded(m[..n]));
        var front := Encoded(m[..n]);
        var last := Member(m[n].key, Number(m[n].value as real));
        assert (front + [last])[..|front|] == front;
        SetKeepsUnique(Properties(front), last.name, last.value);
      } else {
        assert Encoded(m) == Encoded(m[..n]);
      }
    }
  }

  /** Reading back a recorded table gives the same lengths. */
  lemma RecordedParses(m: Table)
    requires UniqueKeys(m) && AboveLimit(m)
    ensures Parse(Recorded(m)).Ok? && forall q :: Get(Parse(Recorded(m)).value, q) == Get(m, q)
  {
    var members := [Member(FILES, Object(Encoded(m)))];
    assert members[..0] == [];
    assert Properties(members) == [Full(FILES, Object(Encoded(m)))];
    assert FilesIn(Object(members)) == Some(Properties(Encoded(m)));
    forall q ensures Get(Properties(Encoded(m)), q) ==
                       match Get(m, q)
                       case None => None
                       case Some(n) => Some(NumberOf(n)) {
      EncodedHolds(m, q);
    }
    ParseIff(Recorded(m));
    forall q ensures Get(Parse(Recorded(m)).value, q) == Get(m, q) {
      assert forall n :: Get(Parse(Recorded(m)).value, q) == Some(n) <==> Get(m, q) == Some(n);
    }
  }

  /** On its own a run admits any tree: recording its oversize files is enough. Against a base, the
      same baseline is accepted exactly when it narrows the base's. */
  lemma OwnBaselineIsAcceptedIff(listing: seq<Text>, disk: map<Text, Text>, base: BaselineFile)
    requires forall k :: 0 <= k < |listing| && IsSource(listing[k]) ==> listing[k] in disk
    ensures var over := OversizeIn(listing, disk);
            var rev := Revision(listing, disk, Recorded(over));
            Accepted(rev, base) <==> base.Missing? || (Parse(base).Ok? && Narrows(over, Parse(base).value))
  {
    var over := OversizeIn(listing, disk);
    var rev := Revision(listing, disk, Recorded(over));
    OversizeHolds(rev);
    OversizeAboveLimit(rev);
    RecordedParses(over);
    AcceptedIff(rev, base);
  }
}
