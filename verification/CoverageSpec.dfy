/** What the coverage of a change by an evidence set means, entry by entry and as a whole. */
module CoverageSpec {
  import opened Wrappers
  import opened Texts
  import opened Sorting
  import opened ReviewRecords

  // ----- Sorted lists without repeats

  /** The members of a JavaScript `Set` in insertion order. */
  function Unique<T(==)>(items: seq<T>): seq<T> {
    if items == [] then []
    else
      var before := Unique(items[..|items| - 1]);
      if items[|items| - 1] in before then before else before + [items[|items| - 1]]
  }

  /** `canonicalCodes` */
  function CanonicalCodes<T(==)>(compare: (T, T) -> int, codes: seq<T>): seq<T> {
    SortBy(compare, Unique(codes))
  }

  function Only<T>(keep: T -> bool, items: seq<T>): seq<T> {
    if items == [] then []
    else Only(keep, items[..|items| - 1]) + (if keep(items[|items| - 1]) then [items[|items| - 1]] else [])
  }

  lemma {:induction false} UniqueKeeps<T>(items: seq<T>)
    ensures NoRepeats(Unique(items)) && forall x :: x in Unique(items) <==> x in items
  {
    if items != [] {
      UniqueKeeps(items[..|items| - 1]);
      assert items == items[..|items| - 1] + [items[|items| - 1]];
    }
  }

  /** `canonicalCodes` keeps exactly the codes it is given, each once, in increasing order. */
  lemma CanonicalCodesIncrease<T(!new)>(compare: (T, T) -> int, codes: seq<T>)
    requires Orders(compare) && Distinguishes(compare, codes)
    ensures Increasing(compare, CanonicalCodes(compare, codes))
    ensures forall x :: x in CanonicalCodes(compare, codes) <==> x in codes
  {
    var kept, sorted := Unique(codes), CanonicalCodes(compare, codes);
    UniqueKeeps(codes);
    SortSorts(compare, kept);
    SortPermutes(compare, kept);
    forall x ensures x in sorted <==> x in codes {
      MembersOfPermutation(sorted, kept, x);
    }
    hide Unique, SortBy;
    SortedIncreases(compare, kept, sorted);
  }

  lemma SortedIncreases<T(!new)>(compare: (T, T) -> int, kept: seq<T>, sorted: seq<T>)
    requires Orders(compare) && Distinguishes(compare, sorted)
    requires NoRepeats(kept) && multiset(kept) == multiset(sorted) && Sorted(compare, sorted)
    ensures Increasing(compare, sorted)
  {
    forall i, j | 0 <= i < j < |sorted| && sorted[i] == sorted[j] ensures false {
      OccursTwice(sorted, i, j);
      MembersOfPermutation(kept, sorted, sorted[i]);
      var k :| 0 <= k < |kept| && kept[k] == sorted[i];
      OccursOnce(kept, k);
    }
  }

  lemma IncreasingIsSorted<T(!new)>(compare: (T, T) -> int, items: seq<T>)
    requires Orders(compare) && Increasing(compare, items)
    ensures Sorted(compare, items) && NoRepeats(items)
  {
    forall i, j | 0 <= i < j < |items| ensures items[i] != items[j] {
      assert compare(items[i], items[j]) < 0;
    }
  }

  /** Increasing lists with the same members are equal. */
  lemma IncreasingIsUnique<T(!new)>(compare: (T, T) -> int, a: seq<T>, b: seq<T>)
    requires Orders(compare) && Distinguishes(compare, a)
    requires Increasing(compare, a) && Increasing(compare, b) && forall x :: x in a <==> x in b
    ensures a == b
  {
    IncreasingIsSorted(compare, a);
    IncreasingIsSorted(compare, b);
    SameMembersPermute(a, b);
    SortedIsUnique(compare, a, b);
  }

  lemma {:induction false} OnlyKeeps<T(!new)>(keep: T -> bool, compare: (T, T) -> int, items: seq<T>)
    requires Increasing(compare, items)
    ensures Increasing(compare, Only(keep, items)) && forall x :: x in Only(keep, items) <==> x in items && keep(x)
  {
    if items != [] {
      var init, last := items[..|items| - 1], items[|items| - 1];
      OnlyKeeps(keep, compare, init);
      assert items == init + [last];
      forall i | 0 <= i < |Only(keep, init)| ensures compare(Only(keep, init)[i], last) < 0 {
        var x := Only(keep, init)[i];
        assert x in init;
        var k :| 0 <= k < |init| && init[k] == x;
        assert items[k] == x;
      }
    }
  }

  // ----- The order of the codes

  const ALL_CODES: seq<CoverageCode> := [
    ChangeHunkNotRetained, ChangedFileNotFullyRead, CompleteBodyNotRetained,
    ManifestIncomplete, ManifestPathOmitted, PacketEvidenceNotRetained, SnapshotNotRevalidated
  ]

  lemma {:induction false} DiffersAt(left: Text, right: Text, k: nat)
    requires k < |left| && k < |right| && left[..k] == right[..k] && left[k] < right[k]
    ensures CompareText(left, right) < 0
  {
    if k > 0 {
      assert left[0] == left[..k][0] && right[0] == right[..k][0];
      assert left[1..][..k - 1] == left[..k][1..] && right[1..][..k - 1] == right[..k][1..];
      DiffersAt(left[1..], right[1..], k - 1);
    }
  }

  lemma {:induction false} StepsIncrease<T(!new)>(compare: (T, T) -> int, items: seq<T>)
    requires Orders(compare) && forall i :: 0 <= i < |items| - 1 ==> compare(items[i], items[i + 1]) < 0
    ensures Increasing(compare, items)
  {
    if |items| > 1 {
      var init, last := items[..|items| - 1], items[|items| - 1];
      StepsIncrease(compare, init);
      var before := items[|items| - 2];
      assert compare(before, items[|items| - 2 + 1]) < 0;
      forall i | 0 <= i < |items| - 2 ensures compare(items[i], last) < 0 {
        assert compare(init[i], init[|init| - 1]) < 0;
        StrictChain(compare, items[i], before, last);
      }
    }
  }

  lemma StrictChain<T(!new)>(compare: (T, T) -> int, a: T, b: T, c: T)
    requires Orders(compare) && compare(a, b) < 0 && compare(b, c) < 0
    ensures compare(a, c) < 0
  {
    Chains(compare, a, b, c);
    Flips(compare, a, c);
    Flips(compare, b, c);
    Flips(compare, c, a);
    if compare(c, a) <= 0 {
      Chains(compare, c, a, b);
    }
  }

  lemma CoverageCodesAreOrdered()
    ensures Orders(CompareCoverageCodes)
  {
    forall a, b ensures CompareCoverageCodes(a, b) < 0 <==> CompareCoverageCodes(b, a) > 0 {
      CompareIsAntisymmetric(a.Name(), b.Name());
    }
    forall a, b, c | CompareCoverageCodes(a, b) <= 0 && CompareCoverageCodes(b, c) <= 0 ensures CompareCoverageCodes(a, c) <= 0 {
      CompareIsTransitive(a.Name(), b.Name(), c.Name());
    }
  }

  lemma ManifestCodesAreOrdered()
    ensures Orders(CompareManifestCodes)
  {
    forall a, b ensures CompareManifestCodes(a, b) < 0 <==> CompareManifestCodes(b, a) > 0 {
      CompareIsAntisymmetric(a.Name(), b.Name());
    }
    forall a, b, c | CompareManifestCodes(a, b) <= 0 && CompareManifestCodes(b, c) <= 0 ensures CompareManifestCodes(a, c) <= 0 {
      CompareIsTransitive(a.Name(), b.Name(), c.Name());
    }
  }

  lemma HunkBeforeFile()
    ensures CompareCoverageCodes(ChangeHunkNotRetained, ChangedFileNotFullyRead) < 0
  {
    DiffersAt(ChangeHunkNotRetained.Name(), ChangedFileNotFullyRead.Name(), 6);
  }

  lemma FileBeforeBody()
    ensures CompareCoverageCodes(ChangedFileNotFullyRead, CompleteBodyNotRetained) < 0
  {
    DiffersAt(ChangedFileNotFullyRead.Name(), CompleteBodyNotRetained.Name(), 1);
  }

  lemma ManifestBeforePath()
    ensures CompareCoverageCodes(ManifestIncomplete, ManifestPathOmitted) < 0
  {
    DiffersAt(ManifestIncomplete.Name(), ManifestPathOmitted.Name(), 9);
  }

  lemma FirstLettersDiffer()
    ensures CompareCoverageCodes(CompleteBodyNotRetained, ManifestIncomplete) < 0
    ensures CompareCoverageCodes(ManifestPathOmitted, PacketEvidenceNotRetained) < 0
    ensures CompareCoverageCodes(PacketEvidenceNotRetained, SnapshotNotRevalidated) < 0
  {
  }

  lemma AllCodesIncrease()
    ensures Increasing(CompareCoverageCodes, ALL_CODES) && forall code: CoverageCode :: code in ALL_CODES
  {
    hide CompareCoverageCodes;
    CoverageCodesAreOrdered();
    HunkBeforeFile();
    FileBeforeBody();
    ManifestBeforePath();
    FirstLettersDiffer();
    StepsIncrease(CompareCoverageCodes, ALL_CODES);
    forall code: CoverageCode ensures code in ALL_CODES {
      IsListed(code);
    }
  }

  lemma IsListed(code: CoverageCode)
    ensures code in ALL_CODES
  {
    match code
    case ChangeHunkNotRetained => assert ALL_CODES[0] == code;
    case ChangedFileNotFullyRead => assert ALL_CODES[1] == code;
    case CompleteBodyNotRetained => assert ALL_CODES[2] == code;
    case ManifestIncomplete => assert ALL_CODES[3] == code;
    case ManifestPathOmitted => assert ALL_CODES[4] == code;
    case PacketEvidenceNotRetained => assert ALL_CODES[5] == code;
    case SnapshotNotRevalidated => assert ALL_CODES[6] == code;
  }

  lemma IncreasingDistinguishes<T(!new)>(compare: (T, T) -> int, items: seq<T>)
    requires Orders(compare) && Increasing(compare, items)
    ensures Distinguishes(compare, items)
  {
    forall a, b | a in items && b in items && compare(a, b) <= 0 && compare(b, a) <= 0 ensures a == b {
      var i :| 0 <= i < |items| && items[i] == a;
      var j :| 0 <= j < |items| && items[j] == b;
      Flips(compare, a, b);
    }
  }

  /** However the codes were collected, the canonical list of them is the same. */
  lemma CodesDecideTheList(codes: seq<CoverageCode>, keep: CoverageCode -> bool)
    requires forall code :: code in codes <==> keep(code)
    ensures CanonicalCodes(CompareCoverageCodes, codes) == Only(keep, ALL_CODES)
  {
    hide CompareCoverageCodes, CanonicalCodes, Only;
    CoverageCodesAreOrdered();
    AllCodesIncrease();
    IncreasingDistinguishes(CompareCoverageCodes, ALL_CODES);
    DistinguishesAlike(CompareCoverageCodes, ALL_CODES, codes);
    CanonicalCodesIncrease(CompareCoverageCodes, codes);
    OnlyKeeps(keep, CompareCoverageCodes, ALL_CODES);
    DistinguishesAlike(CompareCoverageCodes, ALL_CODES, CanonicalCodes(CompareCoverageCodes, codes));
    IncreasingIsUnique(CompareCoverageCodes, CanonicalCodes(CompareCoverageCodes, codes), Only(keep, ALL_CODES));
  }

  /** Codes that the schema admitted are already canonical. */
  lemma ParsedCodesAreCanonical(codes: seq<ManifestCode>)
    requires Increasing(CompareManifestCodes, codes)
    ensures CanonicalCodes(CompareManifestCodes, codes) == codes
  {
    hide CompareManifestCodes, CanonicalCodes;
    ManifestCodesAreOrdered();
    IncreasingDistinguishes(CompareManifestCodes, codes);
    CanonicalCodesIncrease(CompareManifestCodes, codes);
    IncreasingIsUnique(CompareManifestCodes, codes, CanonicalCodes(CompareManifestCodes, codes));
  }

  // ----- One file

  predicate BodyRequired(kind: ChangeKind) {
    kind.Added? || kind.Deleted? || kind.Untracked?
  }

  function ReadSide(kind: ChangeKind): Side {
    if kind.Deleted? then Base else Working
  }

  /** The content that the entry's required side was admitted with, if it was. */
  function Content(entry: Entry): Option<Text> {
    var side := if entry.kind.Deleted? then entry.base else entry.working;
    if side.Some? then side.value.admittedContent else None
  }

  predicate IsRetained(hunk: Hunk, evidence: EvidenceBody) {
    hunk.sha256 in evidence.hunks
  }

  function RetainedCount(hunks: seq<Hunk>, evidence: EvidenceBody): nat {
    if hunks == [] then 0
    else RetainedCount(hunks[..|hunks| - 1], evidence) + if IsRetained(hunks[|hunks| - 1], evidence) then 1 else 0
  }

  predicate HunksRetained(entry: Entry, evidence: EvidenceBody) {
    forall i :: 0 <= i < |entry.hunks| ==> IsRetained(entry.hunks[i], evidence)
  }

  /** The evidence holds the complete body of the required side, with the admitted content. */
  predicate BodyHeld(entry: Entry, evidence: EvidenceBody) {
    Content(entry).Some? && BodyEvidence(entry.Path(), ReadSide(entry.kind), Content(entry).value) in evidence.bodies
  }

  predicate Reads(observation: Observation, path: Text, content: Text) {
    observation.fullFile && observation.path == path && observation.content == content
  }

  /** The evidence holds a read of the whole file, with the admitted content. */
  predicate WholeFileRead(entry: Entry, evidence: EvidenceBody) {
    && Content(entry).Some?
    && exists i :: 0 <= i < |evidence.observations| && Reads(evidence.observations[i], entry.Path(), Content(entry).value)
  }

  predicate FullyRead(entry: Entry, evidence: EvidenceBody) {
    (BodyRequired(entry.kind) && BodyHeld(entry, evidence)) || WholeFileRead(entry, evidence)
  }

  predicate FileReason(code: CoverageCode, entry: Entry, evidence: EvidenceBody) {
    match code
    case ChangeHunkNotRetained => !HunksRetained(entry, evidence)
    case CompleteBodyNotRetained => BodyRequired(entry.kind) && !BodyHeld(entry, evidence)
    case ChangedFileNotFullyRead => !FullyRead(entry, evidence)
    case ManifestPathOmitted => entry.omissionCodes != []
    case _ => false
  }

  /** Nothing is missing for this entry. */
  predicate Covered(entry: Entry, evidence: EvidenceBody) {
    && entry.omissionCodes == [] && HunksRetained(entry, evidence)
    && (BodyRequired(entry.kind) ==> BodyHeld(entry, evidence)) && FullyRead(entry, evidence)
  }

  function FileOf(entry: Entry, evidence: EvidenceBody): FileCoverage {
    FileCoverage(
      entry.Path(), entry.oldPath, entry.newPath, entry.kind, ReadSide(entry.kind),
      FullyRead(entry, evidence), BodyRequired(entry.kind), BodyRequired(entry.kind) && BodyHeld(entry, evidence),
      |entry.hunks|, RetainedCount(entry.hunks, evidence),
      EitherPath(entry.oldPath, entry.newPath, IsTestPath),
      entry.omissionCodes, Only(code => FileReason(code, entry, evidence), ALL_CODES))
  }

  // ----- The whole change

  predicate NothingOmitted(body: SnapshotBody) {
    && body.omittedPathCount == 0 && body.omittedHunkCount == 0 && body.manifestOmissionCodes == []
    && forall i :: 0 <= i < |body.manifest| ==> body.manifest[i].omissionCodes == []
  }

  predicate Reason(code: CoverageCode, body: SnapshotBody, evidence: EvidenceBody, packet: bool, revalidated: bool) {
    match code
    case ManifestIncomplete => !NothingOmitted(body)
    case ManifestPathOmitted => body.omittedPathCount > 0 || AnyEntry(body.manifest, evidence, ManifestPathOmitted)
    case ChangeHunkNotRetained => body.omittedHunkCount > 0 || AnyEntry(body.manifest, evidence, ChangeHunkNotRetained)
    case CompleteBodyNotRetained => AnyEntry(body.manifest, evidence, CompleteBodyNotRetained)
    case ChangedFileNotFullyRead => AnyEntry(body.manifest, evidence, ChangedFileNotFullyRead)
    case PacketEvidenceNotRetained => !packet
    case SnapshotNotRevalidated => !revalidated
  }

  /** Some entry has this reason. */
  predicate AnyEntry(manifest: seq<Entry>, evidence: EvidenceBody, code: CoverageCode) {
    exists i :: 0 <= i < |manifest| && FileReason(code, manifest[i], evidence)
  }

  /** What a complete review is: nothing omitted, every entry covered, and both gates passed. */
  predicate Complete(body: SnapshotBody, evidence: EvidenceBody, packet: bool, revalidated: bool) {
    && NothingOmitted(body)
    && (forall i :: 0 <= i < |body.manifest| ==> Covered(body.manifest[i], evidence))
    && packet && revalidated
  }

  /** The changed paths of an entry that name tests. */
  function TestPathsOf(entry: Entry): seq<Text> {
    (if entry.oldPath.Some? && IsTestPath(entry.oldPath.value) then [entry.oldPath.value] else [])
    + (if entry.newPath.Some? && IsTestPath(entry.newPath.value) then [entry.newPath.value] else [])
  }

  function TestPaths(manifest: seq<Entry>): seq<Text> {
    if manifest == [] then [] else TestPaths(manifest[..|manifest| - 1]) + TestPathsOf(manifest[|manifest| - 1])
  }

  predicate TouchesRuntime(entry: Entry) {
    EitherPath(entry.oldPath, entry.newPath, IsRuntimePath)
  }

  function Retained(manifest: seq<Entry>, evidence: EvidenceBody): nat {
    if manifest == [] then 0
    else Retained(manifest[..|manifest| - 1], evidence) + RetainedCount(manifest[|manifest| - 1].hunks, evidence)
  }

  function CoveredCount(manifest: seq<Entry>, evidence: EvidenceBody): nat {
    if manifest == [] then 0
    else CoveredCount(manifest[..|manifest| - 1], evidence) + if Covered(manifest[|manifest| - 1], evidence) then 1 else 0
  }

  function FilesOf(manifest: seq<Entry>, evidence: EvidenceBody): (files: seq<FileCoverage>)
    ensures |files| == |manifest| && forall i :: 0 <= i < |files| ==> files[i] == FileOf(manifest[i], evidence)
  {
    seq(|manifest|, i requires 0 <= i < |manifest| => FileOf(manifest[i], evidence))
  }

  function CountsOf(body: SnapshotBody, evidence: EvidenceBody): Counts {
    var paths, covered := |body.manifest| + body.omittedPathCount, CoveredCount(body.manifest, evidence);
    var hunks, retained := HunkTotal(body.manifest) + body.omittedHunkCount, Retained(body.manifest, evidence);
    Counts(paths, covered, paths - covered, hunks, retained, hunks - retained)
  }

  /** The coverage of a snapshot by an evidence set. */
  function CoverageOf(snapshot: Snapshot, evidence: Evidence, packet: bool, revalidated: bool): Coverage {
    var body, e := snapshot.body, evidence.body;
    var tests := CanonicalCodes(CompareText, TestPaths(body.manifest));
    Coverage(
      snapshot.id, evidence.id, Complete(body, e, packet, revalidated), NothingOmitted(body), CountsOf(body, e),
      SortBy(ComparePaths, FilesOf(body.manifest, e)), tests,
      (exists i :: 0 <= i < |body.manifest| && TouchesRuntime(body.manifest[i])) && tests == [],
      packet, revalidated, Only(code => Reason(code, body, e, packet, revalidated), ALL_CODES))
  }
}
