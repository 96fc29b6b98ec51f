/** The canonical text of a Git index: what `git ls-files --stage -z` prints, in one fixed order. */
module GitIndex {
  import opened Wrappers
  import opened Texts
  import opened Sorting
  import EgressPaths

  const NUL: CodeUnit := 0
  const TAB: CodeUnit := 0x09
  const SPACE: CodeUnit := 0x20
  const COLON: CodeUnit := 0x3A

  const MAX_PATH := 4096

  datatype IndexEntry = IndexEntry(mode: Text, objectId: Text, stage: int, path: Text)

  datatype IndexError = BadMode | BadObjectId | BadStage | BadPath | DuplicateStage(path: Text, stage: int)

  // ----- The schemas of the four fields

  const MODES: seq<Text> := [Ascii("100644"), Ascii("100755"), Ascii("120000"), Ascii("160000")]

  predicate IsHex(u: CodeUnit) {
    0x30 <= u <= 0x39 || 0x61 <= u <= 0x66
  }

  predicate IsObjectId(id: Text) {
    (|id| == 40 || |id| == 64) && forall i :: 0 <= i < |id| ==> IsHex(id[i])
  }

  /** What `String.prototype.trim` removes. */
  predicate IsBlank(u: CodeUnit) {
    0x09 <= u <= 0x0D || u in {0x20, 0xA0, 0x1680, 0x2028, 0x2029, 0x202F, 0x205F, 0x3000, 0xFEFF} || 0x2000 <= u <= 0x200A
  }

  predicate IsControl(u: CodeUnit) {
    u <= 0x1F || u == 0x7F
  }

  predicate IsLetter(u: CodeUnit) {
    0x41 <= u <= 0x5A || 0x61 <= u <= 0x7A
  }

  predicate IsPathSegment(segment: Text) {
    && segment != [] && segment != [EgressPaths.DOT] && segment != [EgressPaths.DOT, EgressPaths.DOT]
    && forall i :: 0 <= i < |segment| ==> !IsControl(segment[i])
  }

  predicate IsChangePath(path: Text) {
    && 0 < |path| <= MAX_PATH
    && !IsBlank(path[0]) && !IsBlank(path[|path| - 1])
    && NUL !in path && EgressPaths.BACKSLASH !in path && path[0] != EgressPaths.SLASH
    && !(|path| >= 3 && IsLetter(path[0]) && path[1] == COLON && path[2] == EgressPaths.SLASH)
    && forall segment :: segment in EgressPaths.Split(path) ==> IsPathSegment(segment)
  }

  function Check(entry: IndexEntry): Outcome<IndexError> {
    if entry.mode !in MODES then Fail(BadMode)
    else if !IsObjectId(entry.objectId) then Fail(BadObjectId)
    else if !(0 <= entry.stage <= 3) then Fail(BadStage)
    else if !IsChangePath(entry.path) then Fail(BadPath)
    else Pass
  }

  ghost predicate AllPass(entries: seq<IndexEntry>) {
    forall i :: 0 <= i < |entries| ==> Check(entries[i]).Pass?
  }

  // ----- The order and the records

  function CompareEntries(left: IndexEntry, right: IndexEntry): int {
    var order := CompareText(left.path, right.path);
    if order != 0 then order else left.stage - right.stage
  }

  predicate SamePlace(left: IndexEntry, right: IndexEntry) {
    left.path == right.path && left.stage == right.stage
  }

  /** No two records share a path and a stage. */
  ghost predicate OnePerPlace(entries: seq<IndexEntry>) {
    forall i, j :: 0 <= i < j < |entries| ==> !SamePlace(entries[i], entries[j])
  }

  /** What a record holds after its object id. */
  function StageThen(entry: IndexEntry, rest: Text): Text
    requires 0 <= entry.stage <= 3
  {
    [0x30 + entry.stage] + ([TAB] + (entry.path + ([NUL] + rest)))
  }

  /** One record, `mode SP objectId SP stage TAB path NUL`, and what follows it. */
  function RecordThen(entry: IndexEntry, rest: Text): Text
    requires Check(entry).Pass?
  {
    entry.mode + ([SPACE] + (entry.objectId + ([SPACE] + StageThen(entry, rest))))
  }

  function Written(entries: seq<IndexEntry>): Text
    requires AllPass(entries)
  {
    if entries == [] then [] else RecordThen(entries[0], Written(entries[1..]))
  }

  lemma EntriesAreOrdered()
    ensures Orders(CompareEntries)
  {
    forall a, b ensures CompareEntries(a, b) < 0 <==> CompareEntries(b, a) > 0 {
      CompareIsAntisymmetric(a.path, b.path);
    }
    forall a, b, c | CompareEntries(a, b) <= 0 && CompareEntries(b, c) <= 0 ensures CompareEntries(a, c) <= 0 {
      CompareIsTransitive(a.path, b.path, c.path);
      CompareIsAntisymmetric(a.path, b.path);
      CompareIsAntisymmetric(b.path, c.path);
      CompareIsAntisymmetric(a.path, c.path);
      if a.path == c.path {
        CompareIsTransitive(b.path, c.path, a.path);
      }
    }
  }

  lemma TiesShareAPlace(a: IndexEntry, b: IndexEntry)
    ensures SamePlace(a, b) <==> CompareEntries(a, b) <= 0 && CompareEntries(b, a) <= 0
  {
    CompareIsAntisymmetric(a.path, b.path);
  }

  // ----- Duplicates

  /** A permutation does not change whether two records share a place. */
  lemma PlacesOfPermutation(a: seq<IndexEntry>, b: seq<IndexEntry>)
    requires multiset(a) == multiset(b) && OnePerPlace(a)
    ensures OnePerPlace(b)
  {
    forall i, j | 0 <= i < j < |b| ensures !SamePlace(b[i], b[j]) {
      if b[i] == b[j] {
        OccursTwice(b, i, j);
        OccursAtMostOnce(a, b[i]);
      } else {
        MembersOfPermutation(a, b, b[i]);
        MembersOfPermutation(a, b, b[j]);
        var k :| 0 <= k < |a| && a[k] == b[i];
        var l :| 0 <= l < |a| && a[l] == b[j];
        assert !SamePlace(a[k], a[l]) || !SamePlace(a[l], a[k]);
      }
    }
  }

  lemma OccursAtMostOnce(entries: seq<IndexEntry>, x: IndexEntry)
    requires OnePerPlace(entries)
    ensures multiset(entries)[x] <= 1
  {
    if x in entries {
      var i :| 0 <= i < |entries| && entries[i] == x;
      OccursOnce(entries, i);
    }
  }

  lemma BetweenTies(entries: seq<IndexEntry>, i: nat, j: nat)
    requires Sorted(CompareEntries, entries) && i < j < |entries| && SamePlace(entries[i], entries[j])
    ensures SamePlace(entries[i], entries[i + 1])
  {
    EntriesAreOrdered();
    TiesShareAPlace(entries[i], entries[j]);
    TiesShareAPlace(entries[i], entries[i + 1]);
    hide CompareEntries;
    if i + 1 < j {
      assert CompareEntries(entries[i + 1], entries[j]) <= 0;
    }
  }

  /** In the sorted order, records that share a place stand next to each other. */
  lemma NeighboursSuffice(entries: seq<IndexEntry>)
    requires Sorted(CompareEntries, entries)
    requires forall i :: 0 <= i < |entries| - 1 ==> !SamePlace(entries[i], entries[i + 1])
    ensures OnePerPlace(entries)
  {
    forall i, j | 0 <= i < j < |entries| && SamePlace(entries[i], entries[j]) ensures false {
      BetweenTies(entries, i, j);
    }
  }

  /**
   * `canonicalGitIndexStageOutput`: throws on the first record outside the schemas, and then exactly when two records
   * share a path and a stage. Otherwise it writes every record once, in order.
   */
  method CanonicalGitIndexStageOutput(input: seq<IndexEntry>) returns (r: Result<Text, IndexError>)
    ensures r.Success? <==> AllPass(input) && OnePerPlace(input)
    ensures r.Success? ==> AllPass(SortBy(CompareEntries, input)) && r.value == Written(SortBy(CompareEntries, input))
    ensures forall i :: 0 <= i < |input| && Check(input[i]).Fail? && AllPass(input[..i]) ==> r == Failure(Check(input[i]).error)
    ensures AllPass(input) && !OnePerPlace(input) ==>
              r.Failure? && exists i, j :: 0 <= i < j < |input| && SamePlace(input[i], input[j])
                                           && r.error == DuplicateStage(input[i].path, input[i].stage)
  {
    hide SortBy, Written, IsChangePath, CompareEntries;
    for i := 0 to |input|
      invariant AllPass(input[..i])
    {
      var checked := Check(input[i]);
      if checked.Fail? {
        assert forall k :: i < k < |input| ==> input[..k][i] == input[i];
        return Failure(checked.error);
      }
    }
    assert input[..|input|] == input;
    var entries := SortBy(CompareEntries, input);
    SortedRecords(input, entries);
    var index := 1;
    while index < |entries|
      invariant 1 <= index
      invariant forall i :: 0 < i < |entries| && i < index ==> !SamePlace(entries[i - 1], entries[i])
    {
      var previous, current := entries[index - 1], entries[index];
      if previous.path == current.path && previous.stage == current.stage {
        SharedInInput(input, entries, index);
        return Failure(DuplicateStage(current.path, current.stage));
      }
      index := index + 1;
    }
    forall i | 0 <= i < |entries| - 1 ensures !SamePlace(entries[i], entries[i + 1]) {
      assert !SamePlace(entries[i + 1 - 1], entries[i + 1]);
    }
    NeighboursSuffice(entries);
    PlacesOfPermutation(entries, input);
    r := Success(Written(entries));
  }

  lemma SortedRecords(input: seq<IndexEntry>, entries: seq<IndexEntry>)
    requires AllPass(input) && entries == SortBy(CompareEntries, input)
    ensures Sorted(CompareEntries, entries) && multiset(entries) == multiset(input) && |entries| == |input| && AllPass(entries)
  {
    EntriesAreOrdered();
    SortSorts(CompareEntries, input);
    SortPermutes(CompareEntries, input);
    forall i | 0 <= i < |entries| ensures Check(entries[i]).Pass? {
      MembersOfPermutation(entries, input, entries[i]);
    }
  }

  lemma SharedInInput(input: seq<IndexEntry>, entries: seq<IndexEntry>, index: nat)
    requires multiset(entries) == multiset(input) && 0 < index < |entries| && SamePlace(entries[index - 1], entries[index])
    ensures !OnePerPlace(input)
    ensures exists i, j :: 0 <= i < j < |input| && SamePlace(input[i], input[j]) && SamePlace(input[i], entries[index])
  {
    var x, y := entries[index - 1], entries[index];
    MembersOfPermutation(entries, input, x);
    MembersOfPermutation(entries, input, y);
    var k :| 0 <= k < |input| && input[k] == x;
    var l :| 0 <= l < |input| && input[l] == y;
    if x != y {
      assert SamePlace(input[if k < l then k else l], input[if k < l then l else k]);
    } else {
      OccursTwice(entries, index - 1, index);
      if forall m :: 0 <= m < |input| && m != k ==> input[m] != x {
        OccursOnce(input, k);
      } else {
        var m :| 0 <= m < |input| && m != k && input[m] == x;
        assert SamePlace(input[if k < m then k else m], input[if k < m then m else k]);
      }
    }
  }

  // ----- The text decides the records

  lemma StopComesFirst(stop: CodeUnit, a: Text, s: Text)
    requires stop !in a
    ensures (a + ([stop] + s))[0] == stop <==> a == []
  {
    assert a != [] ==> a[0] != stop;
  }

  /** What comes before the first stop, and what comes after it. */
  lemma {:induction false} FirstStop(stop: CodeUnit, a: Text, b: Text, s: Text, t: Text)
    requires stop !in a && stop !in b && a + ([stop] + s) == b + ([stop] + t)
    ensures a == b && s == t
  {
    var left, right := a + ([stop] + s), b + ([stop] + t);
    assert left[0] == right[0];
    StopComesFirst(stop, a, s);
    StopComesFirst(stop, b, t);
    if a == [] {
      assert s == left[1..] && t == right[1..];
    } else {
      assert left[1..] == a[1..] + ([stop] + s) && right[1..] == b[1..] + ([stop] + t);
      FirstStop(stop, a[1..], b[1..], s, t);
      assert a == [a[0]] + a[1..] && b == [b[0]] + b[1..];
    }
  }

  lemma StageDecodes(a: IndexEntry, b: IndexEntry, s: Text, t: Text)
    requires 0 <= a.stage <= 3 && 0 <= b.stage <= 3 && NUL !in a.path && NUL !in b.path && StageThen(a, s) == StageThen(b, t)
    ensures a.stage == b.stage && a.path == b.path && s == t
  {
    FirstStop(TAB, [0x30 + a.stage], [0x30 + b.stage], a.path + ([NUL] + s), b.path + ([NUL] + t));
    assert [0x30 + a.stage][0] == [0x30 + b.stage][0];
    FirstStop(NUL, a.path, b.path, s, t);
  }

  lemma CheckedParts(entry: IndexEntry)
    requires Check(entry).Pass?
    ensures SPACE !in entry.mode && SPACE !in entry.objectId && 0 <= entry.stage <= 3 && NUL !in entry.path
  {
  }

  lemma RecordDecodes(a: IndexEntry, b: IndexEntry, s: Text, t: Text)
    requires Check(a).Pass? && Check(b).Pass? && RecordThen(a, s) == RecordThen(b, t)
    ensures a == b && s == t
  {
    CheckedParts(a);
    CheckedParts(b);
    hide Check;
    var stageA, stageB := StageThen(a, s), StageThen(b, t);
    assert RecordThen(a, s) == a.mode + ([SPACE] + (a.objectId + ([SPACE] + stageA)));
    assert RecordThen(b, t) == b.mode + ([SPACE] + (b.objectId + ([SPACE] + stageB)));
    hide StageThen, RecordThen;
    FirstStop(SPACE, a.mode, b.mode, a.objectId + ([SPACE] + stageA), b.objectId + ([SPACE] + stageB));
    FirstStop(SPACE, a.objectId, b.objectId, stageA, stageB);
    StageDecodes(a, b, s, t);
  }

  lemma {:induction false} WrittenDecodes(a: seq<IndexEntry>, b: seq<IndexEntry>)
    requires AllPass(a) && AllPass(b) && Written(a) == Written(b)
    ensures a == b
  {
    hide Check, RecordThen;
    if a == [] || b == [] {
      WrittenIsEmpty(a);
      WrittenIsEmpty(b);
    } else {
      RecordDecodes(a[0], b[0], Written(a[1..]), Written(b[1..]));
      WrittenDecodes(a[1..], b[1..]);
      assert a == [a[0]] + a[1..] && b == [b[0]] + b[1..];
    }
  }

  lemma WrittenIsEmpty(a: seq<IndexEntry>)
    requires AllPass(a)
    ensures Written(a) == [] <==> a == []
  {
  }

  /**
   * Accepted indexes have the same canonical text exactly when they hold the same records: the text ignores their order
   * and forgets nothing else.
   */
  lemma IndexTextIsExact(a: seq<IndexEntry>, b: seq<IndexEntry>)
    requires AllPass(a) && AllPass(b) && OnePerPlace(a) && OnePerPlace(b)
    ensures AllPass(SortBy(CompareEntries, a)) && AllPass(SortBy(CompareEntries, b))
    ensures Written(SortBy(CompareEntries, a)) == Written(SortBy(CompareEntries, b)) <==> multiset(a) == multiset(b)
  {
    hide SortBy, CompareEntries, Written, OnePerPlace;
    EntriesAreOrdered();
    SortedRecords(a, SortBy(CompareEntries, a));
    SortedRecords(b, SortBy(CompareEntries, b));
    if Written(SortBy(CompareEntries, a)) == Written(SortBy(CompareEntries, b)) {
      WrittenDecodes(SortBy(CompareEntries, a), SortBy(CompareEntries, b));
    }
    if multiset(a) == multiset(b) {
      PlacesDistinguish(a);
      SortIgnoresOrder(CompareEntries, a, b);
    }
  }

  lemma PlacesDistinguish(entries: seq<IndexEntry>)
    requires OnePerPlace(entries)
    ensures Distinguishes(CompareEntries, entries)
  {
    hide CompareEntries;
    forall x, y | x in entries && y in entries && CompareEntries(x, y) <= 0 && CompareEntries(y, x) <= 0 ensures x == y {
      TiesShareAPlace(x, y);
      var i :| 0 <= i < |entries| && entries[i] == x;
      var j :| 0 <= j < |entries| && entries[j] == y;
    }
  }

  /** Whether an index is accepted does not depend on the order of its records. */
  lemma AcceptanceIgnoresOrder(a: seq<IndexEntry>, b: seq<IndexEntry>)
    requires multiset(a) == multiset(b)
    ensures AllPass(a) && OnePerPlace(a) <==> AllPass(b) && OnePerPlace(b)
  {
    hide Check;
    forall x ensures x in a <==> x in b {
      MembersOfPermutation(a, b, x);
    }
    if AllPass(a) && OnePerPlace(a) {
      PlacesOfPermutation(a, b);
      AllPassAlike(a, b);
    }
    if AllPass(b) && OnePerPlace(b) {
      PlacesOfPermutation(b, a);
      AllPassAlike(b, a);
    }
  }

  lemma AllPassAlike(a: seq<IndexEntry>, b: seq<IndexEntry>)
    requires AllPass(a) && forall x :: x in b ==> x in a
    ensures AllPass(b)
  {
    hide Check;
    forall i | 0 <= i < |b| ensures Check(b[i]).Pass? {
      assert b[i] in a;
    }
  }

  // ----- A reader of `git ls-files --stage -z`

  /** A text up to a stop, and after it. */
  datatype Part = Part(before: Text, after: Text)

  function Until(stop: char, x: Text): (part: Option<Part>)
    ensures part.Some? ==> |part.value.after| < |x|
  {
    if x == [] then None
    else if x[0] == stop as int then Some(Part([], x[1..]))
    else
      var later := Until(stop, x[1..]);
      if later.None? then None else Some(Part([x[0]] + later.value.before, later.value.after))
  }

  /** The stage that one digit names. */
  function ReadStage(x: Text): Option<int> {
    if x == Ascii("0") then Some(0)
    else if x == Ascii("1") then Some(1)
    else if x == Ascii("2") then Some(2)
    else if x == Ascii("3") then Some(3)
    else None
  }

  datatype ReadEntry = ReadEntry(entry: IndexEntry, rest: Text)

  /** A mode and an object id with a space after each, a stage with a tab, and a path with a NUL. */
  function ReadRecord(x: Text): (read: Option<ReadEntry>)
    ensures read.Some? ==> |read.value.rest| < |x|
  {
    var mode := Until(' ', x);
    if mode.None? then None
    else
      var id := Until(' ', mode.value.after);
      if id.None? then None
      else
        var stage := Until('\t', id.value.after);
        if stage.None? || ReadStage(stage.value.before).None? then None
        else
          var path := Until('\0', stage.value.after);
          if path.None? then None
          else Some(ReadEntry(IndexEntry(mode.value.before, id.value.before, ReadStage(stage.value.before).value, path.value.before),
                              path.value.after))
  }

  function ReadIndex(x: Text): Option<seq<IndexEntry>>
    decreases |x|
  {
    if x == [] then Some([])
    else
      var first := ReadRecord(x);
      if first.None? then None
      else
        var others := ReadIndex(first.value.rest);
        if others.None? then None else Some([first.value.entry] + others.value)
  }

  lemma {:induction false} UntilStops(stop: char, a: Text, s: Text)
    requires stop < 128 as char && stop as int !in a
    ensures Until(stop, a + ([stop as int] + s)) == Some(Part(a, s))
  {
    var x := a + ([stop as int] + s);
    if a == [] {
      assert x[0] == stop as int && x[1..] == s;
    } else {
      assert x[0] == a[0] && x[1..] == a[1..] + ([stop as int] + s);
      UntilStops(stop, a[1..], s);
      assert a == [a[0]] + a[1..];
    }
  }

  lemma StageReads(stage: int)
    requires 0 <= stage <= 3
    ensures ReadStage([0x30 + stage]) == Some(stage)
  {
    assert Ascii("0") == [0x30] && Ascii("1") == [0x31] && Ascii("2") == [0x32] && Ascii("3") == [0x33];
  }

  lemma RecordReads(entry: IndexEntry, s: Text)
    requires Check(entry).Pass?
    ensures ReadRecord(RecordThen(entry, s)) == Some(ReadEntry(entry, s))
  {
    CheckedParts(entry);
    hide Check, Until, ReadStage;
    var afterPath := [NUL] + s;
    var afterStage := [TAB] + (entry.path + afterPath);
    var afterId := [SPACE] + StageThen(entry, s);
    UntilStops(' ', entry.mode, entry.objectId + afterId);
    UntilStops(' ', entry.objectId, StageThen(entry, s));
    UntilStops('\t', [0x30 + entry.stage], entry.path + afterPath);
    UntilStops('\0', entry.path, s);
    StageReads(entry.stage);
  }

  /** What is written reads back, record by record. */
  lemma {:induction false} WrittenReads(entries: seq<IndexEntry>)
    requires AllPass(entries)
    ensures ReadIndex(Written(entries)) == Some(entries)
    decreases |entries|
  {
    hide Check, RecordThen, ReadRecord;
    if entries != [] {
      RecordReads(entries[0], Written(entries[1..]));
      RecordIsNotEmpty(entries[0], Written(entries[1..]));
      WrittenReads(entries[1..]);
      assert entries == [entries[0]] + entries[1..];
    }
  }

  lemma RecordIsNotEmpty(entry: IndexEntry, s: Text)
    requires Check(entry).Pass?
    ensures RecordThen(entry, s) != []
  {
    hide Check, StageThen;
    assert |RecordThen(entry, s)| >= 1;
  }

  /** Paths in increasing order of code units, and the stages of one path in increasing order. */
  ghost predicate InOrder(entries: seq<IndexEntry>) {
    forall i, j :: 0 <= i < j < |entries| ==>
      CompareText(entries[i].path, entries[j].path) < 0
      || (entries[i].path == entries[j].path && entries[i].stage < entries[j].stage)
  }

  /**
   * The text of an accepted index reads back as exactly its records, in order of path and stage, so every record is in it
   * once and nothing else is.
   */
  lemma IndexReadsBack(input: seq<IndexEntry>)
    requires AllPass(input) && OnePerPlace(input)
    ensures AllPass(SortBy(CompareEntries, input))
    ensures var read := ReadIndex(Written(SortBy(CompareEntries, input)));
            read.Some? && multiset(read.value) == multiset(input) && InOrder(read.value)
  {
    hide SortBy, Written, ReadIndex, Check;
    var entries := SortBy(CompareEntries, input);
    SortedRecords(input, entries);
    WrittenReads(entries);
    PlacesOfPermutation(input, entries);
    forall i, j | 0 <= i < j < |entries|
      ensures CompareText(entries[i].path, entries[j].path) < 0
              || (entries[i].path == entries[j].path && entries[i].stage < entries[j].stage)
    {
      assert CompareEntries(entries[i], entries[j]) <= 0 && !SamePlace(entries[i], entries[j]);
      CompareIsAntisymmetric(entries[i].path, entries[j].path);
    }
  }

  // ----- Which records are accepted

  predicate IsDriveOf(path: Text) {
    |path| >= 3 && ('a' as int <= path[0] <= 'z' as int || 'A' as int <= path[0] <= 'Z' as int)
    && path[1] == ':' as int && path[2] == '/' as int
  }

  /** A relative path with forward slashes, without detours, control characters or blanks at its ends. */
  ghost predicate IsPlainPath(path: Text) {
    && 1 <= |path| <= 4096 && !IsBlank(path[0]) && !IsBlank(path[|path| - 1]) && !IsDriveOf(path)
    && path[0] != '/' as int && (forall u :: u in path ==> u != '\\' as int && u != 0x7F && u >= 0x20)
    && forall segment :: segment in EgressPaths.Split(path) ==>
         segment != [] && segment != Ascii(".") && segment != Ascii("..")
  }

  /** The records that `git ls-files --stage` can print and the change contract admits, in so many words. */
  ghost predicate IsIndexRecord(entry: IndexEntry) {
    && (entry.mode == Ascii("100644") || entry.mode == Ascii("100755") || entry.mode == Ascii("120000") || entry.mode == Ascii("160000"))
    && (|entry.objectId| == 40 || |entry.objectId| == 64)
    && (forall u :: u in entry.objectId ==> '0' as int <= u <= '9' as int || 'a' as int <= u <= 'f' as int)
    && 0 <= entry.stage <= 3 && IsPlainPath(entry.path)
  }

  lemma UnitsOfSegments(path: Text)
    ensures (forall segment, i :: segment in EgressPaths.Split(path) && 0 <= i < |segment| ==> !IsControl(segment[i]))
            <==> forall u :: u in path ==> !IsControl(u)
  {
    forall u ensures u in path && u != EgressPaths.SLASH <==> exists segment :: segment in EgressPaths.Split(path) && u in segment {
      EgressPaths.SplitMembers(path, u);
    }
    if segment, i :| segment in EgressPaths.Split(path) && 0 <= i < |segment| && IsControl(segment[i]) {
      assert segment[i] in segment;
    }
    if u :| u in path && IsControl(u) {
      var segment :| segment in EgressPaths.Split(path) && u in segment;
      var i :| 0 <= i < |segment| && segment[i] == u;
    }
  }

  lemma PlainPaths(path: Text)
    ensures IsChangePath(path) <==> IsPlainPath(path)
  {
    UnitsOfSegments(path);
    assert Ascii(".") == [EgressPaths.DOT] && Ascii("..") == [EgressPaths.DOT, EgressPaths.DOT];
    hide EgressPaths.Split, IsBlank;
    if IsChangePath(path) {
      forall segment, i | segment in EgressPaths.Split(path) && 0 <= i < |segment| ensures !IsControl(segment[i]) {
        assert IsPathSegment(segment);
      }
    }
  }

  /** A record passes the schemas exactly if it is one of those. */
  lemma RecordsAccepted(entry: IndexEntry)
    ensures Check(entry).Pass? <==> IsIndexRecord(entry)
  {
    PlainPaths(entry.path);
    hide IsChangePath, IsPlainPath;
    forall i | 0 <= i < |entry.objectId| ensures entry.objectId[i] in entry.objectId {
    }
  }
}
