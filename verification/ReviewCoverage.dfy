/** Deriving the coverage of a change: the identities are checked first, and every figure is computed from the records. */
module ReviewCoverage {
  import opened Wrappers
  import opened Texts
  import opened Sorting
  import opened ReviewRecords
  import opened CoverageSpec
  import opened CoverageSums
  import CoverageTheorems
  import CoverageSchema

  datatype CoverageError =
    | BadSnapshot
    | HunkIdentity(hunk: Hunk)
    | SnapshotIdentity
    | EvidenceIdentity
    | OtherSnapshot
    | UnknownHunk(sha256: Text)
    | InvalidBody(evidence: BodyEvidence)

  // ----- What the identity checks admit

  predicate HunkAdmitted(hunk: Hunk, digests: Digests) {
    hunk.sha256 == digests.hunk(hunk.content)
  }

  ghost predicate SnapshotAdmitted(snapshot: Snapshot, digests: Digests) {
    && SnapshotParses(snapshot.body)
    && (forall i :: 0 <= i < |snapshot.body.manifest| ==> EntryAdmitted(snapshot.body.manifest[i], digests))
    && snapshot.id == digests.snapshot(snapshot.body)
  }

  ghost predicate EntryAdmitted(entry: Entry, digests: Digests) {
    forall j :: 0 <= j < |entry.hunks| ==> HunkAdmitted(entry.hunks[j], digests)
  }

  ghost predicate IsHunkOf(manifest: seq<Entry>, sha256: Text) {
    exists i :: 0 <= i < |manifest| && HasHunk(manifest[i], sha256)
  }

  predicate HasHunk(entry: Entry, sha256: Text) {
    exists j :: 0 <= j < |entry.hunks| && entry.hunks[j].sha256 == sha256
  }

  predicate IsAt(entry: Entry, path: Text, side: Side) {
    (if side.Base? then entry.oldPath else entry.newPath) == Some(path)
  }

  /** The first entry with the path on that side. */
  function FindEntry(manifest: seq<Entry>, path: Text, side: Side): Option<Entry> {
    if manifest == [] then None
    else if IsAt(manifest[0], path, side) then Some(manifest[0])
    else FindEntry(manifest[1..], path, side)
  }

  /** The body is one that the snapshot requires, and it has the content that the snapshot admitted. */
  predicate BodyAllowed(manifest: seq<Entry>, body: BodyEvidence) {
    var entry := FindEntry(manifest, body.path, body.side);
    && entry.Some?
    && (if body.side.Base? then entry.value.kind.Deleted? else entry.value.kind.Added? || entry.value.kind.Untracked?)
    && Content(entry.value) == Some(body.content)
  }

  ghost predicate EvidenceAdmitted(evidence: Evidence, snapshot: Snapshot, digests: Digests) {
    && evidence.id == digests.evidence(evidence.body)
    && evidence.body.snapshotId == snapshot.id
    && (forall k :: 0 <= k < |evidence.body.hunks| ==> IsHunkOf(snapshot.body.manifest, evidence.body.hunks[k]))
    && forall k :: 0 <= k < |evidence.body.bodies| ==> BodyAllowed(snapshot.body.manifest, evidence.body.bodies[k])
  }

  /** The error names a rule that the records break. */
  ghost predicate Explains(error: CoverageError, snapshot: Snapshot, evidence: Evidence, digests: Digests) {
    match error
    case BadSnapshot => !SnapshotParses(snapshot.body)
    case HunkIdentity(hunk) =>
      !HunkAdmitted(hunk, digests) && exists i :: 0 <= i < |snapshot.body.manifest| && hunk in snapshot.body.manifest[i].hunks
    case SnapshotIdentity => snapshot.id != digests.snapshot(snapshot.body)
    case EvidenceIdentity => evidence.id != digests.evidence(evidence.body)
    case OtherSnapshot => evidence.body.snapshotId != snapshot.id
    case UnknownHunk(sha256) => sha256 in evidence.body.hunks && !IsHunkOf(snapshot.body.manifest, sha256)
    case InvalidBody(body) => body in evidence.body.bodies && !BodyAllowed(snapshot.body.manifest, body)
  }

  // ----- The identity checks

  /** `assertChangeSnapshotIdentity` */
  method AssertSnapshotIdentity(snapshot: Snapshot, digests: Digests) returns (r: Outcome<CoverageError>)
    ensures r.Pass? <==> SnapshotAdmitted(snapshot, digests)
    ensures r.Fail? ==> forall evidence: Evidence :: Explains(r.error, snapshot, evidence, digests)
  {
    hide SnapshotParses, HunkAdmitted;
    if !SnapshotParses(snapshot.body) {
      return Fail(BadSnapshot);
    }
    var manifest := snapshot.body.manifest;
    for i := 0 to |manifest|
      invariant forall m :: 0 <= m < i ==> EntryAdmitted(manifest[m], digests)
    {
      var hunks := manifest[i].hunks;
      for j := 0 to |hunks|
        invariant forall n :: 0 <= n < j ==> HunkAdmitted(hunks[n], digests)
      {
        if !HunkAdmitted(hunks[j], digests) {
          assert !EntryAdmitted(manifest[i], digests);
          assert hunks[j] in manifest[i].hunks;
          return Fail(HunkIdentity(hunks[j]));
        }
      }
    }
    if snapshot.id != digests.snapshot(snapshot.body) {
      return Fail(SnapshotIdentity);
    }
    r := Pass;
  }

  /** The identities of all hunks of a snapshot. */
  method SnapshotHunkIds(manifest: seq<Entry>) returns (ids: set<Text>)
    ensures forall sha256 :: sha256 in ids <==> IsHunkOf(manifest, sha256)
  {
    ids := {};
    for i := 0 to |manifest|
      invariant forall sha256 :: sha256 in ids <==> exists m :: 0 <= m < i && HasHunk(manifest[m], sha256)
    {
      var hunks := manifest[i].hunks;
      var own := set j | 0 <= j < |hunks| :: hunks[j].sha256;
      assert forall sha256 :: sha256 in own <==> HasHunk(manifest[i], sha256);
      ids := ids + own;
    }
  }

  /** `assertReviewEvidenceSetIdentity` against a snapshot. */
  method AssertEvidenceIdentity(evidence: Evidence, snapshot: Snapshot, digests: Digests) returns (r: Outcome<CoverageError>)
    ensures r.Pass? <==> SnapshotAdmitted(snapshot, digests) && EvidenceAdmitted(evidence, snapshot, digests)
    ensures r.Fail? ==> Explains(r.error, snapshot, evidence, digests)
  {
    hide BodyAllowed, IsHunkOf, SnapshotAdmitted;
    if evidence.id != digests.evidence(evidence.body) {
      return Fail(EvidenceIdentity);
    }
    r := AssertSnapshotIdentity(snapshot, digests);
    if r.Fail? {
      return;
    }
    if evidence.body.snapshotId != snapshot.id {
      return Fail(OtherSnapshot);
    }
    var allowed := SnapshotHunkIds(snapshot.body.manifest);
    var hunks, bodies := evidence.body.hunks, evidence.body.bodies;
    for k := 0 to |hunks|
      invariant forall m :: 0 <= m < k ==> IsHunkOf(snapshot.body.manifest, hunks[m])
    {
      if hunks[k] !in allowed {
        return Fail(UnknownHunk(hunks[k]));
      }
    }
    for k := 0 to |bodies|
      invariant forall m :: 0 <= m < k ==> BodyAllowed(snapshot.body.manifest, bodies[m])
    {
      if !BodyAllowed(snapshot.body.manifest, bodies[k]) {
        return Fail(InvalidBody(bodies[k]));
      }
    }
  }

  // ----- One file

  method CoverFile(entry: Entry, evidence: EvidenceBody) returns (file: FileCoverage)
    requires Increasing(CompareManifestCodes, entry.omissionCodes)
    ensures file == FileOf(entry, evidence)
  {
    hide CompareManifestCodes, IsTestPath, Only, FullyRead, BodyHeld;
    var retainedHunkCount := RetainedCount(entry.hunks, evidence);
    var bodyRequired := BodyRequired(entry.kind);
    var bodyRetained := bodyRequired && BodyHeld(entry, evidence);
    var fullRead := bodyRetained || WholeFileRead(entry, evidence);
    assert fullRead == FullyRead(entry, evidence) by {
      FullyReadIs(entry, evidence);
    }
    var codes: seq<CoverageCode> := [];
    if |entry.hunks| != retainedHunkCount {
      codes := codes + [ChangeHunkNotRetained];
    }
    if bodyRequired && !bodyRetained {
      codes := codes + [CompleteBodyNotRetained];
    }
    if !fullRead {
      codes := codes + [ChangedFileNotFullyRead];
    }
    if |entry.omissionCodes| > 0 {
      codes := codes + [ManifestPathOmitted];
    }
    EntryRetained(entry, evidence);
    hide RetainedCount, HunksRetained, WholeFileRead;
    CodesDecideTheList(codes, code => FileReason(code, entry, evidence));
    ParsedCodesAreCanonical(entry.omissionCodes);
    hide CanonicalCodes;
    file := FileCoverage(
      entry.Path(), entry.oldPath, entry.newPath, entry.kind, ReadSide(entry.kind), fullRead, bodyRequired, bodyRetained,
      |entry.hunks|, retainedHunkCount, EitherPath(entry.oldPath, entry.newPath, IsTestPath),
      CanonicalCodes(CompareManifestCodes, entry.omissionCodes), CanonicalCodes(CompareCoverageCodes, codes));
  }

  lemma FullyReadIs(entry: Entry, evidence: EvidenceBody)
    ensures FullyRead(entry, evidence)
            <==> (BodyRequired(entry.kind) && BodyHeld(entry, evidence)) || WholeFileRead(entry, evidence)
  {
  }

  // ----- The whole change

  predicate MissesPath(file: FileCoverage) {
    file.manifestCodes != []
  }

  predicate MissesBody(file: FileCoverage) {
    !file.bodyRetained && file.bodyRequired
  }

  predicate MissesRead(file: FileCoverage) {
    !file.fullRead
  }

  method CoverFiles(manifest: seq<Entry>, evidence: EvidenceBody) returns (files: seq<FileCoverage>)
    requires forall i :: 0 <= i < |manifest| ==> EntryParses(manifest[i])
    ensures files == SortBy(ComparePaths, FilesOf(manifest, evidence))
  {
    hide FileOf, SortBy, CompareManifestCodes;
    files := [];
    for i := 0 to |manifest|
      invariant files == FilesOf(manifest[..i], evidence)
    {
      ParsedCodesIncrease(manifest[i]);
      var file := CoverFile(manifest[i], evidence);
      files := files + [file];
    }
    assert manifest[..|manifest|] == manifest;
    files := SortBy(ComparePaths, files);
  }

  lemma ParsedCodesIncrease(entry: Entry)
    requires EntryParses(entry)
    ensures Increasing(CompareManifestCodes, entry.omissionCodes)
  {
    hide CompareManifestCodes;
  }

  lemma SumsOfNone(files: seq<FileCoverage>)
    ensures Sum(HunkCountOf, files[..0]) == Sum(RetainedCountOf, files[..0]) == Sum(Admission, files[..0]) == 0
  {
  }

  lemma SumsStep(files: seq<FileCoverage>, k: nat)
    requires k < |files|
    ensures Sum(HunkCountOf, files[..k + 1]) == Sum(HunkCountOf, files[..k]) + files[k].hunkCount
    ensures Sum(RetainedCountOf, files[..k + 1]) == Sum(RetainedCountOf, files[..k]) + files[k].retainedHunkCount
    ensures Sum(Admission, files[..k + 1])
            == Sum(Admission, files[..k]) + if |files[k].manifestCodes| == 0 && |files[k].coverageCodes| == 0 then 1 else 0
  {
    assert files[..k + 1][..k] == files[..k];
  }

  lemma CountsFromSums(body: SnapshotBody, evidence: EvidenceBody, files: seq<FileCoverage>)
    requires files == SortBy(ComparePaths, FilesOf(body.manifest, evidence))
    ensures var paths, hunks := |files| + body.omittedPathCount, Sum(HunkCountOf, files) + body.omittedHunkCount;
            var covered, retained := Sum(Admission, files), Sum(RetainedCountOf, files);
            CountsOf(body, evidence) == Counts(paths, covered, paths - covered, hunks, retained, hunks - retained)
  {
    SortedFileSums(body.manifest, evidence, files);
    hide Sum, SortBy, FilesOf;
  }

  /** The figures, from the file records. */
  method CountFiles(body: SnapshotBody, evidence: EvidenceBody, files: seq<FileCoverage>) returns (counts: Counts)
    requires files == SortBy(ComparePaths, FilesOf(body.manifest, evidence))
    ensures counts == CountsOf(body, evidence)
  {
    hide *;
    var known, admitted, fullyAdmitted := 0, 0, 0;
    SumsOfNone(files);
    for k := 0 to |files|
      invariant known == Sum(HunkCountOf, files[..k]) && admitted == Sum(RetainedCountOf, files[..k])
      invariant fullyAdmitted == Sum(Admission, files[..k])
    {
      SumsStep(files, k);
      known := known + files[k].hunkCount;
      admitted := admitted + files[k].retainedHunkCount;
      if |files[k].manifestCodes| == 0 && |files[k].coverageCodes| == 0 {
        fullyAdmitted := fullyAdmitted + 1;
      }
    }
    assert files[..|files|] == files;
    var changedPaths := |files| + body.omittedPathCount;
    var changedHunks := known + body.omittedHunkCount;
    counts := Counts(changedPaths, fullyAdmitted, changedPaths - fullyAdmitted, changedHunks, admitted, changedHunks - admitted);
    CountsFromSums(body, evidence, files);
  }

  lemma FileFlags(entry: Entry, evidence: EvidenceBody)
    ensures MissesPath(FileOf(entry, evidence)) <==> FileReason(ManifestPathOmitted, entry, evidence)
    ensures MissesBody(FileOf(entry, evidence)) <==> FileReason(CompleteBodyNotRetained, entry, evidence)
    ensures MissesRead(FileOf(entry, evidence)) <==> FileReason(ChangedFileNotFullyRead, entry, evidence)
  {
    hide BodyHeld, FullyRead, Only, IsTestPath;
  }

  lemma FlagsReflectReasons(body: SnapshotBody, evidence: EvidenceBody, files: seq<FileCoverage>)
    requires files == SortBy(ComparePaths, FilesOf(body.manifest, evidence))
    ensures AnyFile(files, MissesPath) <==> AnyEntry(body.manifest, evidence, ManifestPathOmitted)
    ensures AnyFile(files, MissesBody) <==> AnyEntry(body.manifest, evidence, CompleteBodyNotRetained)
    ensures AnyFile(files, MissesRead) <==> AnyEntry(body.manifest, evidence, ChangedFileNotFullyRead)
    ensures CountsOf(body, evidence).omittedHunks > 0 <==>
            body.omittedHunkCount > 0 || AnyEntry(body.manifest, evidence, ChangeHunkNotRetained)
    ensures NothingOmitted(body) <==> body.omittedPathCount == 0 && body.omittedHunkCount == 0
                                      && |body.manifestOmissionCodes| == 0 && !AnyFile(files, MissesPath)
  {
    AllRetained(body.manifest, evidence);
    hide FileOf, FileReason, SortBy, FilesOf, AnyFile, MissesPath, MissesBody, MissesRead;
    forall i | 0 <= i < |body.manifest|
      ensures MissesPath(FileOf(body.manifest[i], evidence)) <==> FileReason(ManifestPathOmitted, body.manifest[i], evidence)
      ensures MissesBody(FileOf(body.manifest[i], evidence)) <==> FileReason(CompleteBodyNotRetained, body.manifest[i], evidence)
      ensures MissesRead(FileOf(body.manifest[i], evidence)) <==> FileReason(ChangedFileNotFullyRead, body.manifest[i], evidence)
    {
      FileFlags(body.manifest[i], evidence);
    }
    AnyFileIsAnyEntry(body.manifest, evidence, files, MissesPath, ManifestPathOmitted);
    AnyFileIsAnyEntry(body.manifest, evidence, files, MissesBody, CompleteBodyNotRetained);
    AnyFileIsAnyEntry(body.manifest, evidence, files, MissesRead, ChangedFileNotFullyRead);
    PathReasons(body, evidence);
  }

  lemma PathReasons(body: SnapshotBody, evidence: EvidenceBody)
    ensures AnyEntry(body.manifest, evidence, ManifestPathOmitted)
            <==> exists i :: 0 <= i < |body.manifest| && body.manifest[i].omissionCodes != []
  {
    if exists i :: 0 <= i < |body.manifest| && body.manifest[i].omissionCodes != [] {
      var i :| 0 <= i < |body.manifest| && body.manifest[i].omissionCodes != [];
      assert FileReason(ManifestPathOmitted, body.manifest[i], evidence);
    }
  }

  /** The conditions that the method below tests, as the reasons they stand for. */
  lemma FlagsAreReasons(body: SnapshotBody, evidence: EvidenceBody, files: seq<FileCoverage>, packet: bool, revalidated: bool)
    requires files == SortBy(ComparePaths, FilesOf(body.manifest, evidence))
    ensures NothingOmitted(body) <==> body.omittedPathCount == 0 && body.omittedHunkCount == 0
                                      && |body.manifestOmissionCodes| == 0 && !AnyFile(files, MissesPath)
    ensures Reason(ManifestIncomplete, body, evidence, packet, revalidated) <==> !NothingOmitted(body)
    ensures Reason(ManifestPathOmitted, body, evidence, packet, revalidated)
            <==> body.omittedPathCount > 0 || AnyFile(files, MissesPath)
    ensures Reason(ChangeHunkNotRetained, body, evidence, packet, revalidated) <==> CountsOf(body, evidence).omittedHunks > 0
    ensures Reason(CompleteBodyNotRetained, body, evidence, packet, revalidated) <==> AnyFile(files, MissesBody)
    ensures Reason(ChangedFileNotFullyRead, body, evidence, packet, revalidated) <==> AnyFile(files, MissesRead)
    ensures Reason(PacketEvidenceNotRetained, body, evidence, packet, revalidated) <==> !packet
    ensures Reason(SnapshotNotRevalidated, body, evidence, packet, revalidated) <==> !revalidated
  {
    FlagsReflectReasons(body, evidence, files);
    hide SortBy, FilesOf, CountsOf, AnyFile, AnyEntry, NothingOmitted;
  }

  /** `if (condition) codes.push(code)` */
  function Push(codes: seq<CoverageCode>, condition: bool, code: CoverageCode): (pushed: seq<CoverageCode>)
    ensures forall c :: c in pushed <==> c in codes || (condition && c == code)
  {
    if condition then codes + [code] else codes
  }

  /** The codes with a reason, in the order of the checks. */
  function Collected(reason: CoverageCode -> bool): seq<CoverageCode>
  {
    var c1 := Push([], reason(ManifestIncomplete), ManifestIncomplete);
    var c2 := Push(c1, reason(ManifestPathOmitted), ManifestPathOmitted);
    var c3 := Push(c2, reason(ChangeHunkNotRetained), ChangeHunkNotRetained);
    var c4 := Push(c3, reason(CompleteBodyNotRetained), CompleteBodyNotRetained);
    var c5 := Push(c4, reason(ChangedFileNotFullyRead), ChangedFileNotFullyRead);
    var c6 := Push(c5, reason(PacketEvidenceNotRetained), PacketEvidenceNotRetained);
    Push(c6, reason(SnapshotNotRevalidated), SnapshotNotRevalidated)
  }

  lemma CollectedHasReason(reason: CoverageCode -> bool, code: CoverageCode)
    ensures code in Collected(reason) <==> reason(code)
  {
    hide Push;
    match code
    case ChangeHunkNotRetained =>
    case ChangedFileNotFullyRead =>
    case CompleteBodyNotRetained =>
    case ManifestIncomplete =>
    case ManifestPathOmitted =>
    case PacketEvidenceNotRetained =>
    case SnapshotNotRevalidated =>
  }

  /** The reasons of incompleteness, collected in the order of the checks and then made canonical. */
  method OmissionCodes(body: SnapshotBody, evidence: EvidenceBody, files: seq<FileCoverage>, omittedHunks: int,
                       packet: bool, revalidated: bool)
    returns (manifestComplete: bool, canonical: seq<CoverageCode>)
    requires files == SortBy(ComparePaths, FilesOf(body.manifest, evidence))
    requires omittedHunks == CountsOf(body, evidence).omittedHunks
    ensures manifestComplete == NothingOmitted(body)
    ensures canonical == Only(code => Reason(code, body, evidence, packet, revalidated), ALL_CODES)
  {
    FlagsAreReasons(body, evidence, files, packet, revalidated);
    hide SortBy, FilesOf, CountsOf, AnyFile, NothingOmitted, Only, CanonicalCodes, Reason, Push, CompareCoverageCodes, MissesPath, MissesBody, MissesRead;
    manifestComplete := && body.omittedPathCount == 0 && body.omittedHunkCount == 0 && |body.manifestOmissionCodes| == 0
                        && !AnyFile(files, MissesPath);
    var codes: seq<CoverageCode> := [];
    codes := Push(codes, !manifestComplete, ManifestIncomplete);
    codes := Push(codes, body.omittedPathCount > 0 || AnyFile(files, MissesPath), ManifestPathOmitted);
    codes := Push(codes, omittedHunks > 0, ChangeHunkNotRetained);
    codes := Push(codes, AnyFile(files, MissesBody), CompleteBodyNotRetained);
    codes := Push(codes, AnyFile(files, MissesRead), ChangedFileNotFullyRead);
    codes := Push(codes, !packet, PacketEvidenceNotRetained);
    codes := Push(codes, !revalidated, SnapshotNotRevalidated);
    ghost var reason := code => Reason(code, body, evidence, packet, revalidated);
    assert codes == Collected(reason);
    forall code ensures code in codes <==> reason(code) {
      CollectedHasReason(reason, code);
    }
    CodesDecideTheList(codes, reason);
    canonical := CanonicalCodes(CompareCoverageCodes, codes);
  }

  /** The changed paths that name tests, each once and in order. */
  method ChangedTests(manifest: seq<Entry>) returns (tests: seq<Text>)
    ensures tests == CanonicalCodes(CompareText, TestPaths(manifest))
  {
    hide IsTestPath, CanonicalCodes, CompareText;
    var paths: seq<Text> := [];
    for i := 0 to |manifest|
      invariant paths == TestPaths(manifest[..i])
    {
      assert manifest[..i + 1][..i] == manifest[..i];
      paths := paths + TestPathsOf(manifest[i]);
    }
    assert manifest[..|manifest|] == manifest;
    tests := CanonicalCodes(CompareText, paths);
  }

  /**
   * `deriveReviewCoverageV1`: refuses exactly the records whose identities do not hold together, and otherwise derives the
   * coverage, which its own schema always admits.
   */
  method DeriveReviewCoverage(snapshot: Snapshot, evidence: Evidence, packet: bool, revalidated: bool, digests: Digests)
    returns (r: Result<Coverage, CoverageError>)
    ensures r.Success? <==> SnapshotAdmitted(snapshot, digests) && EvidenceAdmitted(evidence, snapshot, digests)
    ensures r.Failure? ==> Explains(r.error, snapshot, evidence, digests)
    ensures r.Success? ==> r.value == CoverageOf(snapshot, evidence, packet, revalidated) && CoverageParses(r.value)
  {
    hide Explains, EvidenceAdmitted, SnapshotParses, CoverageParses, CountsOf, SortBy, FilesOf, Only, Reason, Complete,
         NothingOmitted, CanonicalCodes, TouchesRuntime;
    var first := AssertSnapshotIdentity(snapshot, digests);
    if first.Fail? {
      return Failure(first.error);
    }
    var second := AssertEvidenceIdentity(evidence, snapshot, digests);
    if second.Fail? {
      return Failure(second.error);
    }
    var manifest := snapshot.body.manifest;
    ManifestParses(snapshot.body);
    var files := CoverFiles(manifest, evidence.body);
    var counts := CountFiles(snapshot.body, evidence.body, files);
    var manifestComplete, canonicalOmissions :=
      OmissionCodes(snapshot.body, evidence.body, files, counts.omittedHunks, packet, revalidated);
    var changedTestPaths := ChangedTests(manifest);
    var runtime := exists i :: 0 <= i < |manifest| && TouchesRuntime(manifest[i]);
    CoverageTheorems.NoCodesIffComplete(snapshot.body, evidence.body, packet, revalidated);
    CoverageSchema.DerivedCoverageParses(snapshot, evidence, packet, revalidated);
    r := Success(Coverage(
      snapshot.id, evidence.id, |canonicalOmissions| == 0, manifestComplete, counts, files, changedTestPaths,
      runtime && |changedTestPaths| == 0, packet, revalidated, canonicalOmissions));
  }

  lemma ManifestParses(body: SnapshotBody)
    requires SnapshotParses(body)
    ensures forall i :: 0 <= i < |body.manifest| ==> EntryParses(body.manifest[i])
  {
    hide EntryParses;
  }
}
