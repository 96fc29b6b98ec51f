/** A derived coverage record always satisfies the rules of its own schema, so the final parse cannot reject it. */
module CoverageSchema {
  import opened Wrappers
  import opened Texts
  import opened Sorting
  import opened ReviewRecords
  import opened CoverageSpec
  import opened CoverageSums
  import opened CoverageTheorems

  // ----- The file records

  lemma {:induction false} EntryHunksCount(manifest: seq<Entry>, i: nat)
    requires i < |manifest|
    ensures |manifest[i].hunks| <= HunkTotal(manifest)
  {
    if i < |manifest| - 1 {
      EntryHunksCount(manifest[..|manifest| - 1], i);
    }
  }

  lemma FileOfParses(body: SnapshotBody, evidence: EvidenceBody, i: nat)
    requires SnapshotParses(body) && i < |body.manifest|
    ensures FileParses(FileOf(body.manifest[i], evidence))
  {
    var entry := body.manifest[i];
    assert EntryParses(entry);
    EntryHunksCount(body.manifest, i);
    EntryRetained(entry, evidence);
    FileCodesAre(entry, evidence);
    hide CompareManifestCodes, CompareCoverageCodes, IsTestPath, Only, BodyHeld, FullyRead, RetainedCount;
  }

  lemma PathsAreOrdered()
    ensures Orders(ComparePaths)
  {
    forall a, b ensures ComparePaths(a, b) < 0 <==> ComparePaths(b, a) > 0 {
      CompareIsAntisymmetric(a.path, b.path);
    }
    forall a, b, c | ComparePaths(a, b) <= 0 && ComparePaths(b, c) <= 0 ensures ComparePaths(a, c) <= 0 {
      CompareIsTransitive(a.path, b.path, c.path);
    }
  }

  lemma SamePathSameFile(unsorted: seq<FileCoverage>, files: seq<FileCoverage>, a: FileCoverage, b: FileCoverage)
    requires multiset(files) == multiset(unsorted) && a in files && b in files && a.path == b.path
    requires forall i, j :: 0 <= i < j < |unsorted| ==> unsorted[i].path != unsorted[j].path
    ensures a == b
  {
    MembersOfPermutation(files, unsorted, a);
    MembersOfPermutation(files, unsorted, b);
    var i :| 0 <= i < |unsorted| && unsorted[i] == a;
    var j :| 0 <= j < |unsorted| && unsorted[j] == b;
    assert i < j ==> unsorted[i].path != unsorted[j].path;
  }

  lemma PathsDistinguish(unsorted: seq<FileCoverage>, files: seq<FileCoverage>)
    requires multiset(files) == multiset(unsorted)
    requires forall i, j :: 0 <= i < j < |unsorted| ==> unsorted[i].path != unsorted[j].path
    ensures Distinguishes(ComparePaths, files)
  {
    forall a, b | a in files && b in files && ComparePaths(a, b) <= 0 && ComparePaths(b, a) <= 0 ensures a == b {
      CompareIsAntisymmetric(a.path, b.path);
      SamePathSameFile(unsorted, files, a, b);
    }
  }

  lemma FilesIncrease(body: SnapshotBody, evidence: EvidenceBody, files: seq<FileCoverage>)
    requires SnapshotParses(body) && files == SortBy(ComparePaths, FilesOf(body.manifest, evidence))
    ensures Increasing(ComparePaths, files)
  {
    var unsorted := FilesOf(body.manifest, evidence);
    DistinctPaths(body, evidence);
    hide *;
    PathsAreOrdered();
    SortPermutes(ComparePaths, unsorted);
    SortSorts(ComparePaths, unsorted);
    PathsDistinguish(unsorted, files);
    SortedIncreases(ComparePaths, unsorted, files);
  }

  lemma DistinctPaths(body: SnapshotBody, evidence: EvidenceBody)
    requires SnapshotParses(body)
    ensures var files := FilesOf(body.manifest, evidence);
            NoRepeats(files) && forall i, j :: 0 <= i < j < |files| ==> files[i].path != files[j].path
  {
    hide EntryParses, HunkTotal, Only, FullyRead, BodyHeld, IsTestPath;
    var files := FilesOf(body.manifest, evidence);
    forall i, j | 0 <= i < j < |files| ensures files[i].path != files[j].path {
      assert body.manifest[i].Path() != body.manifest[j].Path();
    }
  }

  // ----- The changed tests

  predicate Names(entry: Entry, path: Text) {
    entry.oldPath == Some(path) || entry.newPath == Some(path)
  }

  predicate AnyEntryNames(manifest: seq<Entry>, path: Text) {
    exists i :: 0 <= i < |manifest| && Names(manifest[i], path)
  }

  lemma NamesGrow(manifest: seq<Entry>, path: Text)
    requires manifest != []
    ensures AnyEntryNames(manifest, path)
            <==> AnyEntryNames(manifest[..|manifest| - 1], path) || Names(manifest[|manifest| - 1], path)
  {
    hide Names;
    var init := manifest[..|manifest| - 1];
    if AnyEntryNames(init, path) {
      var i :| 0 <= i < |init| && Names(init[i], path);
      assert Names(manifest[i], path);
    }
    if AnyEntryNames(manifest, path) {
      var i :| 0 <= i < |manifest| && Names(manifest[i], path);
      assert i < |init| ==> Names(init[i], path);
    }
  }

  lemma {:induction false} TestPathsAre(manifest: seq<Entry>, path: Text)
    ensures path in TestPaths(manifest)
            <==> IsTestPath(path) && AnyEntryNames(manifest, path)
  {
    hide IsTestPath;
    if manifest != [] {
      var init, last := manifest[..|manifest| - 1], manifest[|manifest| - 1];
      TestPathsAre(init, path);
      assert path in TestPathsOf(last) <==> IsTestPath(path) && Names(last, path);
      NamesGrow(manifest, path);
    }
  }

  lemma ChangedTestsAre(manifest: seq<Entry>)
    ensures var tests := CanonicalCodes(CompareText, TestPaths(manifest));
            && Increasing(CompareText, tests)
            && forall path :: path in tests <==> IsTestPath(path) && AnyEntryNames(manifest, path)
  {
    hide IsTestPath, TestPaths, AnyEntryNames, CanonicalCodes, CompareText;
    TextsAreOrdered();
    TextsAreDistinguished(TestPaths(manifest));
    CanonicalCodesIncrease(CompareText, TestPaths(manifest));
    forall path ensures path in TestPaths(manifest)
                        <==> IsTestPath(path) && AnyEntryNames(manifest, path)
    {
      TestPathsAre(manifest, path);
    }
  }

  // ----- From entries to files

  lemma FileFields(entry: Entry, evidence: EvidenceBody)
    ensures var file := FileOf(entry, evidence);
            && file.oldPath == entry.oldPath && file.newPath == entry.newPath && file.manifestCodes == entry.omissionCodes
            && file.fullRead == FullyRead(entry, evidence) && file.bodyRequired == BodyRequired(entry.kind)
            && file.bodyRetained == (BodyRequired(entry.kind) && BodyHeld(entry, evidence))
  {
  }

  lemma FileOfEntry(manifest: seq<Entry>, evidence: EvidenceBody, files: seq<FileCoverage>, i: nat) returns (k: nat)
    requires files == SortBy(ComparePaths, FilesOf(manifest, evidence)) && i < |manifest|
    ensures k < |files| && files[k] == FileOf(manifest[i], evidence)
  {
    FilesReflectEntries(manifest, evidence, files);
    hide FileOf, SortBy, FilesOf;
    k :| k < |files| && files[k] == FileOf(manifest[i], evidence);
  }

  lemma EntryOfFile(manifest: seq<Entry>, evidence: EvidenceBody, files: seq<FileCoverage>, k: nat) returns (i: nat)
    requires files == SortBy(ComparePaths, FilesOf(manifest, evidence)) && k < |files|
    ensures i < |manifest| && files[k] == FileOf(manifest[i], evidence)
  {
    FilesReflectEntries(manifest, evidence, files);
    hide FileOf, SortBy, FilesOf;
    i :| i < |manifest| && files[k] == FileOf(manifest[i], evidence);
  }

  lemma NamedByFiles(manifest: seq<Entry>, evidence: EvidenceBody, files: seq<FileCoverage>, path: Text)
    requires files == SortBy(ComparePaths, FilesOf(manifest, evidence))
    ensures AnyFileNames(files, path) <==> AnyEntryNames(manifest, path)
  {
    hide FileOf, SortBy, FilesOf;
    if AnyFileNames(files, path) {
      var k :| 0 <= k < |files| && (files[k].oldPath == Some(path) || files[k].newPath == Some(path));
      var i := EntryOfFile(manifest, evidence, files, k);
      FileFields(manifest[i], evidence);
    }
    if AnyEntryNames(manifest, path) {
      var i :| 0 <= i < |manifest| && Names(manifest[i], path);
      var k := FileOfEntry(manifest, evidence, files, i);
      FileFields(manifest[i], evidence);
    }
  }

  lemma RuntimeByFiles(manifest: seq<Entry>, evidence: EvidenceBody, files: seq<FileCoverage>)
    requires files == SortBy(ComparePaths, FilesOf(manifest, evidence))
    ensures AnyFileTouchesRuntime(files) <==> exists i :: 0 <= i < |manifest| && TouchesRuntime(manifest[i])
  {
    hide FileOf, SortBy, FilesOf, EitherPath;
    if AnyFileTouchesRuntime(files) {
      var k :| 0 <= k < |files| && EitherPath(files[k].oldPath, files[k].newPath, IsRuntimePath);
      var i := EntryOfFile(manifest, evidence, files, k);
      FileFields(manifest[i], evidence);
    }
    if exists i :: 0 <= i < |manifest| && TouchesRuntime(manifest[i]) {
      var i :| 0 <= i < |manifest| && TouchesRuntime(manifest[i]);
      var k := FileOfEntry(manifest, evidence, files, i);
      FileFields(manifest[i], evidence);
    }
  }

  // ----- The whole record

  lemma CompletenessAgrees(snapshot: Snapshot, evidence: Evidence, packet: bool, revalidated: bool)
    requires SnapshotParses(snapshot.body)
    ensures CoverageOf(snapshot, evidence, packet, revalidated).complete
            <==> InternallyComplete(CoverageOf(snapshot, evidence, packet, revalidated))
  {
    var body, e := snapshot.body, evidence.body;
    var c := CoverageOf(snapshot, evidence, packet, revalidated);
    CountsReconcile(body, e, packet, revalidated);
    NoCodesIffComplete(body, e, packet, revalidated);
    hide FileOf, Covered, SnapshotParses, SortBy, FilesOf, CountsOf, Only, CanonicalCodes, NothingOmitted, BodyHeld, FullyRead, FullyAdmitted;
    if c.complete {
      forall k | 0 <= k < |c.files|
        ensures c.files[k].fullRead && (c.files[k].bodyRequired ==> c.files[k].bodyRetained) && FullyAdmitted(c.files[k])
      {
        var i := EntryOfFile(body.manifest, e, c.files, k);
        CoveredFile(body.manifest[i], e);
      }
    }
  }

  lemma CoveredFile(entry: Entry, evidence: EvidenceBody)
    requires Covered(entry, evidence)
    ensures var file := FileOf(entry, evidence);
            file.fullRead && (file.bodyRequired ==> file.bodyRetained) && FullyAdmitted(file)
  {
    FileFields(entry, evidence);
    AdmittedIffCovered(entry, evidence);
    hide FileOf, HunksRetained, BodyHeld, FullyRead;
  }

  /** The rules on the figures: they reconcile with the file records, and none is too large for a JavaScript integer. */
  lemma FiguresParse(snapshot: Snapshot, evidence: Evidence, packet: bool, revalidated: bool)
    requires SnapshotParses(snapshot.body)
    ensures var c := CoverageOf(snapshot, evidence, packet, revalidated);
            && CountsParse(c.counts)
            && Sum(HunkCountOf, c.files) <= c.counts.changedHunks
            && Sum(RetainedCountOf, c.files) == c.counts.admittedHunks
            && |c.files| <= c.counts.changedPaths
            && Sum(Admission, c.files) == c.counts.admittedPaths
            && (c.manifestComplete ==> c.counts.changedPaths == |c.files| && forall k :: 0 <= k < |c.files| ==> c.files[k].manifestCodes == [])
  {
    var body, e := snapshot.body, evidence.body;
    var c := CoverageOf(snapshot, evidence, packet, revalidated);
    CountsReconcile(body, e, packet, revalidated);
    SortedFileSums(body.manifest, e, c.files);
    hide FileOf, SnapshotParses, SortBy, FilesOf, Only, CanonicalCodes, Complete, CountsParse, Sum;
    if c.manifestComplete {
      forall k | 0 <= k < |c.files| ensures c.files[k].manifestCodes == [] {
        var i := EntryOfFile(body.manifest, e, c.files, k);
        FileFields(body.manifest[i], e);
      }
    }
  }

  lemma FilesParse(snapshot: Snapshot, evidence: Evidence, packet: bool, revalidated: bool)
    requires SnapshotParses(snapshot.body)
    ensures var c := CoverageOf(snapshot, evidence, packet, revalidated);
            && (forall k :: 0 <= k < |c.files| ==> FileParses(c.files[k]))
            && Increasing(ComparePaths, c.files)
  {
    var body, e := snapshot.body, evidence.body;
    var c := CoverageOf(snapshot, evidence, packet, revalidated);
    FilesIncrease(body, e, c.files);
    hide FileOf, FileParses, SnapshotParses, SortBy, FilesOf, Only, CanonicalCodes, Complete;
    forall k | 0 <= k < |c.files| ensures FileParses(c.files[k]) {
      var i := EntryOfFile(body.manifest, e, c.files, k);
      FileOfParses(body, e, i);
    }
  }

  /** Whatever the evidence and the gates, the derived record satisfies every rule of the coverage schema. */
  lemma DerivedCoverageParses(snapshot: Snapshot, evidence: Evidence, packet: bool, revalidated: bool)
    requires SnapshotParses(snapshot.body)
    ensures CoverageParses(CoverageOf(snapshot, evidence, packet, revalidated))
  {
    hide FileOf, FileParses, SnapshotParses, SortBy, FilesOf, Only, CanonicalCodes, Complete, CountsParse, CountsOf, Sum,
         InternallyComplete, Reason, IsTestPath, AnyFileNames, AnyEntryNames, AnyFileTouchesRuntime, TouchesRuntime;
    var body, e := snapshot.body, evidence.body;
    var c := CoverageOf(snapshot, evidence, packet, revalidated);
    FilesParse(snapshot, evidence, packet, revalidated);
    FiguresParse(snapshot, evidence, packet, revalidated);
    CompletenessAgrees(snapshot, evidence, packet, revalidated);
    ChangedTestsAre(body.manifest);
    RuntimeByFiles(body.manifest, e, c.files);
    ReasonsAreListed(body, e, packet, revalidated);
    forall path ensures path in c.changedTestPaths <==> IsTestPath(path) && AnyFileNames(c.files, path) {
      NamedByFiles(body.manifest, e, c.files, path);
    }
  }
}
