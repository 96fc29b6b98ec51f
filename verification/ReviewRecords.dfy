/** Change snapshots, evidence sets and the coverage records derived from them. */
module ReviewRecords {
  import opened Wrappers
  import opened Texts
  import opened Sorting

  // ----- Names

  datatype ChangeKind = Added | Modified | Deleted | Renamed | TypeChanged | Untracked {
    function Name(): Text {
      match this
      case Added => Ascii("added")
      case Modified => Ascii("modified")
      case Deleted => Ascii("deleted")
      case Renamed => Ascii("renamed")
      case TypeChanged => Ascii("type_changed")
      case Untracked => Ascii("untracked")
    }
  }

  datatype Side = Base | Working {
    function Name(): Text {
      if Base? then Ascii("base") else Ascii("working")
    }
  }

  /** Why a part of a change is not in the manifest. */
  datatype ManifestCode =
    | Binary | FileCountLimit | HunkCountLimit | Oversized | StagedUnstagedOverlap | Submodule
    | Symlink | TotalByteLimit | Truncated | Unreadable | UnsafePath
  {
    function Name(): Text {
      match this
      case Binary => Ascii("binary")
      case FileCountLimit => Ascii("file_count_limit")
      case HunkCountLimit => Ascii("hunk_count_limit")
      case Oversized => Ascii("oversized")
      case StagedUnstagedOverlap => Ascii("staged_unstaged_overlap")
      case Submodule => Ascii("submodule")
      case Symlink => Ascii("symlink")
      case TotalByteLimit => Ascii("total_byte_limit")
      case Truncated => Ascii("truncated")
      case Unreadable => Ascii("unreadable")
      case UnsafePath => Ascii("unsafe_path")
    }
  }

  /** Why a review does not cover a change completely. */
  datatype CoverageCode =
    | ChangeHunkNotRetained | ChangedFileNotFullyRead | CompleteBodyNotRetained
    | ManifestIncomplete | ManifestPathOmitted | PacketEvidenceNotRetained | SnapshotNotRevalidated
  {
    function Name(): Text {
      match this
      case ChangeHunkNotRetained => Ascii("change_hunk_not_retained")
      case ChangedFileNotFullyRead => Ascii("changed_file_not_fully_read")
      case CompleteBodyNotRetained => Ascii("complete_body_not_retained")
      case ManifestIncomplete => Ascii("manifest_incomplete")
      case ManifestPathOmitted => Ascii("manifest_path_omitted")
      case PacketEvidenceNotRetained => Ascii("packet_evidence_not_retained")
      case SnapshotNotRevalidated => Ascii("snapshot_not_revalidated")
    }
  }

  function CompareManifestCodes(a: ManifestCode, b: ManifestCode): int {
    CompareText(a.Name(), b.Name())
  }

  function CompareCoverageCodes(a: CoverageCode, b: CoverageCode): int {
    CompareText(a.Name(), b.Name())
  }

  /** Strictly increasing: sorted, and nothing twice. */
  ghost predicate Increasing<T>(compare: (T, T) -> int, items: seq<T>) {
    forall i, j :: 0 <= i < j < |items| ==> compare(items[i], items[j]) < 0
  }

  // ----- Snapshots

  /** A hunk: its identity, and the record that the identity is the hash of. */
  datatype Hunk = Hunk(sha256: Text, content: Text)

  datatype SideIdentity = SideIdentity(mode: Text, sizeBytes: nat, admittedContent: Option<Text>)

  datatype Entry = Entry(
    kind: ChangeKind,
    oldPath: Option<Text>,
    newPath: Option<Text>,
    base: Option<SideIdentity>,
    working: Option<SideIdentity>,
    omissionCodes: seq<ManifestCode>,
    hunks: seq<Hunk>
  ) {
    /** `changeManifestEntryPath` */
    function Path(): Text {
      newPath.GetOr(oldPath.GetOr([]))
    }
  }

  datatype SnapshotBody = SnapshotBody(
    baseCommit: Text,
    indexSha256: Text,
    discoverySha256: Text,
    manifest: seq<Entry>,
    omittedPathCount: nat,
    omittedHunkCount: nat,
    manifestOmissionCodes: seq<ManifestCode>
  )

  datatype Snapshot = Snapshot(id: Text, body: SnapshotBody)

  // ----- Evidence

  datatype BodyEvidence = BodyEvidence(path: Text, side: Side, content: Text)

  /** One read of the repository: a whole file, or one matched line of it. */
  datatype Observation = Observation(id: Text, fullFile: bool, path: Text, line: Option<nat>, lineCount: Option<nat>, content: Text)

  datatype EvidenceBody = EvidenceBody(
    snapshotId: Text,
    hunks: seq<Text>,
    bodies: seq<BodyEvidence>,
    observations: seq<Observation>
  )

  datatype Evidence = Evidence(id: Text, body: EvidenceBody)

  /** SHA-256 over the canonical text of each record without its own identity. */
  datatype Digests = Digests(hunk: Text -> Text, snapshot: SnapshotBody -> Text, evidence: EvidenceBody -> Text)

  // ----- Coverage

  datatype FileCoverage = FileCoverage(
    path: Text,
    oldPath: Option<Text>,
    newPath: Option<Text>,
    kind: ChangeKind,
    side: Side,
    fullRead: bool,
    bodyRequired: bool,
    bodyRetained: bool,
    hunkCount: nat,
    retainedHunkCount: nat,
    changedTest: bool,
    manifestCodes: seq<ManifestCode>,
    coverageCodes: seq<CoverageCode>
  )

  datatype Counts = Counts(
    changedPaths: int,
    admittedPaths: int,
    omittedPaths: int,
    changedHunks: int,
    admittedHunks: int,
    omittedHunks: int
  )

  datatype Coverage = Coverage(
    snapshotId: Text,
    evidenceSetId: Text,
    complete: bool,
    manifestComplete: bool,
    counts: Counts,
    files: seq<FileCoverage>,
    changedTestPaths: seq<Text>,
    runtimeCodeChangedWithoutChangedTest: bool,
    packetRetainedEvidenceSet: bool,
    snapshotRevalidated: bool,
    omissionCodes: seq<CoverageCode>
  )

  // ----- The snapshot schema

  const MAX_SAFE_INTEGER := 0x1F_FFFF_FFFF_FFFF
  const MAX_PATHS := 200
  const MAX_HUNKS := 200

  predicate RequiresOld(kind: ChangeKind) {
    kind.Modified? || kind.Deleted? || kind.Renamed? || kind.TypeChanged?
  }

  predicate RequiresNew(kind: ChangeKind) {
    !kind.Deleted?
  }

  predicate EntryParses(entry: Entry) {
    && (entry.oldPath.Some? <==> RequiresOld(entry.kind))
    && (entry.newPath.Some? <==> RequiresNew(entry.kind))
    && (entry.kind.Modified? || entry.kind.TypeChanged? ==> entry.oldPath == entry.newPath)
    && (entry.kind.Renamed? ==> entry.oldPath != entry.newPath)
    && forall i, j :: 0 <= i < j < |entry.omissionCodes| ==>
                        CompareManifestCodes(entry.omissionCodes[i], entry.omissionCodes[j]) < 0
  }

  function HunkTotal(manifest: seq<Entry>): nat {
    if manifest == [] then 0 else HunkTotal(manifest[..|manifest| - 1]) + |manifest[|manifest| - 1].hunks|
  }

  /** The rules of the snapshot schema that coverage depends on. */
  predicate SnapshotParses(body: SnapshotBody) {
    && |body.manifest| <= MAX_PATHS && HunkTotal(body.manifest) <= MAX_HUNKS
    && body.omittedPathCount <= MAX_SAFE_INTEGER - MAX_PATHS
    && body.omittedHunkCount <= MAX_SAFE_INTEGER - MAX_HUNKS
    && (body.omittedPathCount > 0 || body.omittedHunkCount > 0 ==> body.manifestOmissionCodes != [])
    && (forall i :: 0 <= i < |body.manifest| ==> EntryParses(body.manifest[i]))
    && forall i, j :: 0 <= i < j < |body.manifest| ==> body.manifest[i].Path() != body.manifest[j].Path()
  }

  // ----- The coverage schema

  predicate IsTestPath(path: Text) {
    exists i :: 0 <= i < |path| && TestSuffixAt(path, i)
  }

  /** `.test.` or `.spec.` and at least one more character, none of them a slash. */
  predicate TestSuffixAt(path: Text, i: nat)
    requires i < |path|
  {
    && |path| > i + 6
    && (path[i..i + 6] == Ascii(".test.") || path[i..i + 6] == Ascii(".spec."))
    && forall j :: i + 6 <= j < |path| ==> path[j] != 0x2F
  }

  predicate IsRuntimePath(path: Text) {
    Ascii("src/") <= path
  }

  predicate EitherPath(oldPath: Option<Text>, newPath: Option<Text>, p: Text -> bool) {
    (oldPath.Some? && p(oldPath.value)) || (newPath.Some? && p(newPath.value))
  }

  ghost predicate FileParses(file: FileCoverage) {
    && (file.oldPath.Some? <==> RequiresOld(file.kind))
    && (file.newPath.Some? <==> RequiresNew(file.kind))
    && (file.kind.Modified? || file.kind.TypeChanged? ==> file.oldPath == file.newPath)
    && (file.kind.Renamed? ==> file.oldPath != file.newPath)
    && file.path == file.newPath.GetOr(file.oldPath.GetOr([]))
    && file.retainedHunkCount <= file.hunkCount <= MAX_SAFE_INTEGER
    && (!file.bodyRequired ==> !file.bodyRetained)
    && Increasing(CompareManifestCodes, file.manifestCodes)
    && Increasing(CompareCoverageCodes, file.coverageCodes)
    && file.side == (if file.kind.Deleted? then Base else Working)
    && (file.bodyRequired <==> file.kind.Added? || file.kind.Deleted? || file.kind.Untracked?)
    && (file.changedTest <==> EitherPath(file.oldPath, file.newPath, IsTestPath))
  }

  ghost predicate CountsParse(c: Counts) {
    && 0 <= c.changedPaths <= MAX_SAFE_INTEGER && 0 <= c.admittedPaths && 0 <= c.omittedPaths
    && 0 <= c.changedHunks <= MAX_SAFE_INTEGER && 0 <= c.admittedHunks && 0 <= c.omittedHunks
    && c.admittedPaths + c.omittedPaths == c.changedPaths
    && c.admittedHunks + c.omittedHunks == c.changedHunks
  }

  function Sum<T>(f: T -> nat, items: seq<T>): nat {
    if items == [] then 0 else Sum(f, items[..|items| - 1]) + f(items[|items| - 1])
  }

  predicate FullyAdmitted(file: FileCoverage) {
    file.manifestCodes == [] && file.coverageCodes == []
  }

  function HunkCountOf(file: FileCoverage): nat {
    file.hunkCount
  }

  function RetainedCountOf(file: FileCoverage): nat {
    file.retainedHunkCount
  }

  function Admission(file: FileCoverage): nat {
    if FullyAdmitted(file) then 1 else 0
  }

  /** What the record says of itself when nothing is missing. */
  predicate InternallyComplete(c: Coverage) {
    && c.manifestComplete && c.counts.omittedPaths == 0 && c.counts.omittedHunks == 0
    && (forall i :: 0 <= i < |c.files| ==>
          c.files[i].fullRead && (c.files[i].bodyRequired ==> c.files[i].bodyRetained) && FullyAdmitted(c.files[i]))
    && c.packetRetainedEvidenceSet && c.snapshotRevalidated && c.omissionCodes == []
  }

  function ComparePaths(left: FileCoverage, right: FileCoverage): int {
    CompareText(left.path, right.path)
  }

  predicate AnyFileNames(files: seq<FileCoverage>, path: Text) {
    exists k :: 0 <= k < |files| && (files[k].oldPath == Some(path) || files[k].newPath == Some(path))
  }

  predicate AnyFileTouchesRuntime(files: seq<FileCoverage>) {
    exists k :: 0 <= k < |files| && EitherPath(files[k].oldPath, files[k].newPath, IsRuntimePath)
  }

  /** The rules of the coverage schema. */
  ghost predicate CoverageParses(c: Coverage) {
    && (forall i :: 0 <= i < |c.files| ==> FileParses(c.files[i]))
    && CountsParse(c.counts)
    && Increasing(ComparePaths, c.files)
    && Increasing(CompareText, c.changedTestPaths)
    && Increasing(CompareCoverageCodes, c.omissionCodes)
    && (forall path :: path in c.changedTestPaths <==> IsTestPath(path) && AnyFileNames(c.files, path))
    && (c.runtimeCodeChangedWithoutChangedTest <==> AnyFileTouchesRuntime(c.files) && c.changedTestPaths == [])
    && Sum(HunkCountOf, c.files) <= c.counts.changedHunks
    && Sum(RetainedCountOf, c.files) == c.counts.admittedHunks
    && |c.files| <= c.counts.changedPaths
    && Sum(Admission, c.files) == c.counts.admittedPaths
    && (c.manifestComplete ==> c.counts.changedPaths == |c.files| && forall i :: 0 <= i < |c.files| ==> c.files[i].manifestCodes == [])
    && (c.complete <==> InternallyComplete(c))
  }
}
