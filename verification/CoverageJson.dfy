/** Checking a coverage record: its canonical text must be that of the record the host derives itself. */
module CoverageJson {
  import opened Wrappers
  import opened Texts
  import opened Sorting
  import opened CanonicalJson
  import opened JsonRecords
  import opened ReviewRecords
  import opened CoverageSpec
  import opened ReviewCoverage
  import CanonicalTheorems

  // ----- The keys

  const COUNT_KEYS: seq<Text> := [
    Ascii("changedPaths"), Ascii("admittedPaths"), Ascii("omittedPaths"),
    Ascii("changedHunks"), Ascii("admittedHunks"), Ascii("omittedHunks")
  ]

  const FILE_KEYS: seq<Text> := [
    Ascii("path"), Ascii("oldPath"), Ascii("newPath"), Ascii("changeKind"), Ascii("requiredReadSide"), Ascii("fullRead"),
    Ascii("completeBodyRequired"), Ascii("completeBodyRetained"), Ascii("hunkCount"), Ascii("retainedHunkCount"),
    Ascii("changedTest"), Ascii("manifestOmissionCodes"), Ascii("coverageOmissionCodes")
  ]

  const COVERAGE_KEYS: seq<Text> := [
    Ascii("schemaVersion"), Ascii("snapshotId"), Ascii("evidenceSetId"), Ascii("status"), Ascii("manifestStatus"),
    Ascii("counts"), Ascii("files"), Ascii("changedTestPaths"), Ascii("runtimeCodeChangedWithoutChangedTest"),
    Ascii("packetRetainedEvidenceSet"), Ascii("snapshotRevalidated"), Ascii("omissionCodes")
  ]

  /** Keys that differ pairwise in length, or at one place. */
  lemma CountKeysDiffer()
    ensures NoRepeats(COUNT_KEYS)
  {
    var k := COUNT_KEYS;
    assert |k[0]| == 12 && |k[1]| == 13 && |k[2]| == 12 && |k[3]| == 12 && |k[4]| == 13 && |k[5]| == 12;
    assert k[0][0] != k[2][0] && k[0][7] != k[3][7] && k[0][0] != k[5][0] && k[2][0] != k[3][0] && k[2][7] != k[5][7];
    assert k[3][0] != k[5][0] && k[1][8] != k[4][8];
  }

  lemma FileKeysDiffer()
    ensures NoRepeats(FILE_KEYS)
  {
    var k := FILE_KEYS;
    assert |k[0]| == 4 && |k[1]| == 7 && |k[2]| == 7 && |k[3]| == 10 && |k[4]| == 16 && |k[5]| == 8 && |k[6]| == 20;
    assert |k[7]| == 20 && |k[8]| == 9 && |k[9]| == 17 && |k[10]| == 11 && |k[11]| == 21 && |k[12]| == 21;
    assert k[1][0] != k[2][0] && k[6][15] != k[7][15] && k[11][0] != k[12][0];
  }

  lemma CoverageKeysDiffer()
    ensures NoRepeats(COVERAGE_KEYS)
  {
    var k := COVERAGE_KEYS;
    assert |k[0]| == 13 && |k[1]| == 10 && |k[2]| == 13 && |k[3]| == 6 && |k[4]| == 14 && |k[5]| == 6 && |k[6]| == 5;
    assert |k[7]| == 16 && |k[8]| == 36 && |k[9]| == 25 && |k[10]| == 19 && |k[11]| == 13;
    assert k[0][0] != k[2][0] && k[0][0] != k[11][0] && k[2][0] != k[11][0] && k[3][0] != k[5][0];
  }

  // ----- The records as values

  function TextOrNull(text: Option<Text>): Value {
    match text
    case None => Null
    case Some(t) => Str(t)
  }

  function ManifestCodeValue(code: ManifestCode): Value {
    Str(code.Name())
  }

  function CoverageCodeValue(code: CoverageCode): Value {
    Str(code.Name())
  }

  function TextValue(text: Text): Value {
    Str(text)
  }

  function CompletenessValue(complete: bool): Value {
    Str(Ascii(if complete then "complete" else "incomplete"))
  }

  function FileValues(file: FileCoverage): (values: seq<Value>)
    ensures |values| == 13
  {
    [Str(file.path), TextOrNull(file.oldPath), TextOrNull(file.newPath), Str(file.kind.Name()), Str(file.side.Name()),
     Bool(file.fullRead), Bool(file.bodyRequired), Bool(file.bodyRetained), Integer(file.hunkCount),
     Integer(file.retainedHunkCount), Bool(file.changedTest), ListOf(ManifestCodeValue, file.manifestCodes),
     ListOf(CoverageCodeValue, file.coverageCodes)]
  }

  function FileValue(file: FileCoverage): Value {
    Record(FILE_KEYS, FileValues(file))
  }

  function CountValues(c: Counts): (values: seq<Value>)
    ensures |values| == 6
  {
    [Integer(c.changedPaths), Integer(c.admittedPaths), Integer(c.omittedPaths),
     Integer(c.changedHunks), Integer(c.admittedHunks), Integer(c.omittedHunks)]
  }

  function CountsValue(c: Counts): Value {
    Record(COUNT_KEYS, CountValues(c))
  }

  function CoverageValues(c: Coverage): (values: seq<Value>)
    ensures |values| == 12
  {
    [Str(Ascii("review-coverage-v1")), Str(c.snapshotId), Str(c.evidenceSetId), CompletenessValue(c.complete),
     CompletenessValue(c.manifestComplete), CountsValue(c.counts), ListOf(FileValue, c.files),
     ListOf(TextValue, c.changedTestPaths), Bool(c.runtimeCodeChangedWithoutChangedTest),
     Bool(c.packetRetainedEvidenceSet), Bool(c.snapshotRevalidated), ListOf(CoverageCodeValue, c.omissionCodes)]
  }

  /** The coverage record as the JavaScript object it is. */
  function CoverageValue(c: Coverage): Value {
    Record(COVERAGE_KEYS, CoverageValues(c))
  }

  // ----- Equal values come from equal records

  /** A name gives its code back: the length and the first letter are enough. */
  function CoverageCodeNamed(name: Text): CoverageCode
    requires name != []
  {
    match |name|
    case 27 => ChangedFileNotFullyRead
    case 26 => CompleteBodyNotRetained
    case 19 => ManifestIncomplete
    case 21 => ManifestPathOmitted
    case 28 => PacketEvidenceNotRetained
    case _ => if name[0] == 0x63 then ChangeHunkNotRetained else SnapshotNotRevalidated
  }

  lemma CoverageCodeReturns(code: CoverageCode)
    ensures code.Name() != [] && CoverageCodeNamed(code.Name()) == code
  {
  }

  function ManifestCodeNamed(name: Text): ManifestCode
    requires name != []
  {
    match |name|
    case 6 => Binary
    case 7 => Symlink
    case 10 => Unreadable
    case 11 => UnsafePath
    case 23 => StagedUnstagedOverlap
    case 9 => if name[0] == 0x6F then Oversized else if name[0] == 0x73 then Submodule else Truncated
    case _ => if name[0] == 0x66 then FileCountLimit else if name[0] == 0x68 then HunkCountLimit else TotalByteLimit
  }

  lemma ManifestCodeReturns(code: ManifestCode)
    ensures code.Name() != [] && ManifestCodeNamed(code.Name()) == code
  {
  }

  function KindNamed(name: Text): ChangeKind
    requires name != []
  {
    match |name|
    case 5 => Added
    case 8 => Modified
    case 12 => TypeChanged
    case 9 => Untracked
    case _ => if name[0] == 0x64 then Deleted else Renamed
  }

  lemma KindReturns(kind: ChangeKind)
    ensures kind.Name() != [] && KindNamed(kind.Name()) == kind
  {
  }

  predicate IsScalar(v: Value) {
    !v.Arr? && !v.Obj?
  }

  lemma ScalarsDecide(v: Value, w: Value)
    requires Same(v, w) && IsScalar(v)
    ensures v == w
  {
  }

  lemma KindDecides(a: ChangeKind, b: ChangeKind)
    requires a.Name() == b.Name()
    ensures a == b
  {
    KindReturns(a);
    KindReturns(b);
    hide ChangeKind.Name;
  }

  lemma SideDecides(a: Side, b: Side)
    requires a.Name() == b.Name()
    ensures a == b
  {
    assert |a.Name()| == (if a.Base? then 4 else 7) && |b.Name()| == (if b.Base? then 4 else 7);
  }

  /** The first eleven values are scalars, and decide the first eleven fields. */
  lemma FileScalarsDecide(f: FileCoverage, g: FileCoverage)
    requires forall i :: 0 <= i < 11 ==> FileValues(f)[i] == FileValues(g)[i]
    ensures g.(manifestCodes := f.manifestCodes, coverageCodes := f.coverageCodes) == f
  {
    hide ChangeKind.Name, Side.Name, ListOf, ManifestCodeValue, CoverageCodeValue;
    var v, w := FileValues(f), FileValues(g);
    assert v[0] == w[0] && v[1] == w[1] && v[2] == w[2] && v[3] == w[3] && v[4] == w[4] && v[5] == w[5];
    assert v[6] == w[6] && v[7] == w[7] && v[8] == w[8] && v[9] == w[9] && v[10] == w[10];
    KindDecides(f.kind, g.kind);
    SideDecides(f.side, g.side);
  }

  lemma FileListsDecide(f: FileCoverage, g: FileCoverage)
    requires Same(FileValues(f)[11], FileValues(g)[11]) && Same(FileValues(f)[12], FileValues(g)[12])
    ensures f.manifestCodes == g.manifestCodes && f.coverageCodes == g.coverageCodes
  {
    assert FileValues(f)[11] == ListOf(ManifestCodeValue, f.manifestCodes) && FileValues(f)[12] == ListOf(CoverageCodeValue, f.coverageCodes);
    assert FileValues(g)[11] == ListOf(ManifestCodeValue, g.manifestCodes) && FileValues(g)[12] == ListOf(CoverageCodeValue, g.coverageCodes);
    hide ManifestCodeValue, CoverageCodeValue, Same, FileValues, ListOf;
    forall x, y | Same(ManifestCodeValue(x), ManifestCodeValue(y)) ensures x == y {
      ManifestValueDecides(x, y);
    }
    forall x, y | Same(CoverageCodeValue(x), CoverageCodeValue(y)) ensures x == y {
      CoverageCodeValueDecides(x, y);
    }
    ListSame(ManifestCodeValue, f.manifestCodes, g.manifestCodes);
    ListSame(CoverageCodeValue, f.coverageCodes, g.coverageCodes);
  }

  lemma FileValuesAreScalars(file: FileCoverage)
    ensures forall i :: 0 <= i < 11 ==> IsScalar(FileValues(file)[i])
  {
    hide ChangeKind.Name, Side.Name;
  }

  lemma ManifestValueDecides(x: ManifestCode, y: ManifestCode)
    requires Same(ManifestCodeValue(x), ManifestCodeValue(y))
    ensures x == y
  {
    ManifestCodeReturns(x);
    ManifestCodeReturns(y);
    hide ManifestCode.Name;
  }

  lemma CoverageCodeValueDecides(x: CoverageCode, y: CoverageCode)
    requires Same(CoverageCodeValue(x), CoverageCodeValue(y))
    ensures x == y
  {
    CoverageCodeReturns(x);
    CoverageCodeReturns(y);
    hide CoverageCode.Name;
  }

  lemma FileValueDecides(f: FileCoverage, g: FileCoverage)
    requires Same(FileValue(f), FileValue(g))
    ensures f == g
  {
    hide FileValues, Same;
    FileKeysDiffer();
    RecordSame(FILE_KEYS, FileValues(f), FileValues(g));
    FileValuesAreScalars(f);
    forall i | 0 <= i < 11 ensures FileValues(f)[i] == FileValues(g)[i] {
      ScalarsDecide(FileValues(f)[i], FileValues(g)[i]);
    }
    FileScalarsDecide(f, g);
    FileListsDecide(f, g);
  }

  lemma CountsDecide(a: Counts, b: Counts)
    requires Same(CountsValue(a), CountsValue(b))
    ensures a == b
  {
    var v, w := CountValues(a), CountValues(b);
    CountKeysDiffer();
    RecordSame(COUNT_KEYS, v, w);
    assert forall i :: 0 <= i < 6 ==> v[i].Integer?;
    forall i | 0 <= i < 6 ensures v[i] == w[i] {
      ScalarsDecide(v[i], w[i]);
    }
    hide Same, Record;
    assert v[0] == w[0] && v[1] == w[1] && v[2] == w[2] && v[3] == w[3] && v[4] == w[4] && v[5] == w[5];
  }

  lemma CompletenessDecides(a: bool, b: bool)
    requires CompletenessValue(a) == CompletenessValue(b)
    ensures a == b
  {
    assert |CompletenessValue(a).text| == (if a then 8 else 10) && |CompletenessValue(b).text| == (if b then 8 else 10);
  }

  lemma CoverageScalars(c: Coverage)
    ensures forall i :: 0 <= i < 12 && i !in {5, 6, 7, 11} ==> IsScalar(CoverageValues(c)[i])
  {
  }

  /** The scalar values of two coverage records decide their scalar fields. */
  lemma CoverageScalarsDecide(a: Coverage, b: Coverage)
    requires forall i :: 0 <= i < 12 && i !in {5, 6, 7, 11} ==> CoverageValues(a)[i] == CoverageValues(b)[i]
    ensures b.(counts := a.counts, files := a.files, changedTestPaths := a.changedTestPaths, omissionCodes := a.omissionCodes) == a
  {
    hide CompletenessValue, CountsValue, FileValue;
    var v, w := CoverageValues(a), CoverageValues(b);
    assert v[1] == w[1] && v[2] == w[2] && v[3] == w[3] && v[4] == w[4] && v[8] == w[8] && v[9] == w[9] && v[10] == w[10];
    CompletenessDecides(a.complete, b.complete);
    CompletenessDecides(a.manifestComplete, b.manifestComplete);
  }

  lemma CoverageListsDecide(a: Coverage, b: Coverage)
    requires Same(ListOf(FileValue, a.files), ListOf(FileValue, b.files))
    requires Same(ListOf(TextValue, a.changedTestPaths), ListOf(TextValue, b.changedTestPaths))
    requires Same(ListOf(CoverageCodeValue, a.omissionCodes), ListOf(CoverageCodeValue, b.omissionCodes))
    ensures a.files == b.files && a.changedTestPaths == b.changedTestPaths && a.omissionCodes == b.omissionCodes
  {
    forall x, y | Same(TextValue(x), TextValue(y)) ensures x == y {
      ScalarsDecide(TextValue(x), TextValue(y));
    }
    hide FileValue, TextValue, CoverageCodeValue, Same, ListOf;
    forall x, y | Same(FileValue(x), FileValue(y)) ensures x == y {
      FileValueDecides(x, y);
    }
    forall x, y | Same(CoverageCodeValue(x), CoverageCodeValue(y)) ensures x == y {
      CoverageCodeValueDecides(x, y);
    }
    ListSame(FileValue, a.files, b.files);
    ListSame(TextValue, a.changedTestPaths, b.changedTestPaths);
    ListSame(CoverageCodeValue, a.omissionCodes, b.omissionCodes);
  }

  lemma CoverageValuesAre(c: Coverage)
    ensures CoverageValues(c)[5] == CountsValue(c.counts) && CoverageValues(c)[6] == ListOf(FileValue, c.files)
    ensures CoverageValues(c)[7] == ListOf(TextValue, c.changedTestPaths)
    ensures CoverageValues(c)[11] == ListOf(CoverageCodeValue, c.omissionCodes)
  {
  }

  /** Coverage values that are equal up to key order come from equal records. */
  lemma CoverageDecides(a: Coverage, b: Coverage)
    requires Same(CoverageValue(a), CoverageValue(b))
    ensures a == b
  {
    hide Same, CoverageValues;
    CoverageKeysDiffer();
    RecordSame(COVERAGE_KEYS, CoverageValues(a), CoverageValues(b));
    CoverageValuesAre(a);
    CoverageValuesAre(b);
    hide Record, CountsValue, ListOf;
    CoverageScalars(a);
    forall i | 0 <= i < 12 && i !in {5, 6, 7, 11} ensures CoverageValues(a)[i] == CoverageValues(b)[i] {
      ScalarsDecide(CoverageValues(a)[i], CoverageValues(b)[i]);
    }
    CoverageScalarsDecide(a, b);
    CountsDecide(a.counts, b.counts);
    CoverageListsDecide(a, b);
  }

  // ----- The values are well formed and canonical

  lemma FileValueIsAdmitted(file: FileCoverage)
    ensures WellFormed(FileValue(file))
    ensures file.retainedHunkCount <= file.hunkCount <= ReviewRecords.MAX_SAFE_INTEGER ==> Admitted(FileValue(file))
  {
    FileKeysDiffer();
    var v := FileValues(file);
    ListIsAdmitted(ManifestCodeValue, file.manifestCodes);
    ListIsAdmitted(CoverageCodeValue, file.coverageCodes);
    hide ListOf, ChangeKind.Name, Side.Name, ManifestCode.Name, CoverageCode.Name, Record;
    forall i | 0 <= i < 13 ensures WellFormed(v[i]) {
    }
    RecordIsWellFormed(FILE_KEYS, v);
    if file.retainedHunkCount <= file.hunkCount <= ReviewRecords.MAX_SAFE_INTEGER {
      forall i | 0 <= i < 13 ensures Admitted(v[i]) {
      }
      RecordIsAdmitted(FILE_KEYS, v);
    }
  }

  lemma CountsValueIsAdmitted(c: Counts)
    ensures WellFormed(CountsValue(c))
    ensures CountsParse(c) ==> Admitted(CountsValue(c))
  {
    CountKeysDiffer();
    RecordIsWellFormed(COUNT_KEYS, CountValues(c));
  }

  lemma CoverageValueIsWellFormed(c: Coverage)
    ensures WellFormed(CoverageValue(c))
  {
    CoverageKeysDiffer();
    CountsValueIsAdmitted(c.counts);
    forall i | 0 <= i < |c.files| ensures WellFormed(FileValue(c.files[i])) {
      FileValueIsAdmitted(c.files[i]);
    }
    ListIsAdmitted(FileValue, c.files);
    ListIsAdmitted(TextValue, c.changedTestPaths);
    ListIsAdmitted(CoverageCodeValue, c.omissionCodes);
    CoverageScalars(c);
    var v := CoverageValues(c);
    CoverageValuesAre(c);
    hide ListOf, FileValue, CountsValue, CoverageCode.Name, CompletenessValue, CoverageValues, Record;
    forall i | 0 <= i < 12 ensures WellFormed(v[i]) {
    }
    RecordIsWellFormed(COVERAGE_KEYS, v);
  }

  lemma CoverageValueIsAdmitted(c: Coverage)
    requires CoverageParses(c)
    ensures Admitted(CoverageValue(c))
  {
    CountsValueIsAdmitted(c.counts);
    forall i | 0 <= i < |c.files| ensures Admitted(FileValue(c.files[i])) {
      assert FileParses(c.files[i]);
      FileValueIsAdmitted(c.files[i]);
    }
    ListIsAdmitted(FileValue, c.files);
    ListIsAdmitted(TextValue, c.changedTestPaths);
    ListIsAdmitted(CoverageCodeValue, c.omissionCodes);
    var v := CoverageValues(c);
    hide CoverageParses, ListOf, FileValue, CountsValue, CoverageCode.Name, Record;
    forall i | 0 <= i < 12 ensures Admitted(v[i]) {
    }
    RecordIsAdmitted(COVERAGE_KEYS, v);
  }

  // ----- Checking a record

  datatype CheckError = NotDerived(error: CoverageError) | NotCanonical | Mismatch

  /**
   * `assertReviewCoverageV1`: accepts a record exactly when it is, field for field, the coverage that the host derives from
   * the verified snapshot, the verified evidence and the two gates.
   */
  method AssertReviewCoverage(candidate: Coverage, snapshot: Snapshot, evidence: Evidence, packet: bool, revalidated: bool,
                              digests: Digests)
    returns (r: Result<Coverage, CheckError>)
    ensures r.Success? <==> && SnapshotAdmitted(snapshot, digests) && EvidenceAdmitted(evidence, snapshot, digests)
                            && candidate == CoverageOf(snapshot, evidence, packet, revalidated)
    ensures r.Success? ==> r.value == candidate
  {
    hide SnapshotAdmitted, EvidenceAdmitted, CoverageOf, CoverageParses, CoverageValue, Canonical, Explains;
    var expected := DeriveReviewCoverage(snapshot, evidence, packet, revalidated, digests);
    if expected.Failure? {
      return Failure(NotDerived(expected.error));
    }
    CoverageValueIsWellFormed(candidate);
    CoverageValueIsWellFormed(expected.value);
    CoverageValueIsAdmitted(expected.value);
    var derived := Canonical(CoverageValue(expected.value));
    CanonicalIffAdmitted(CoverageValue(expected.value));
    var actual := Canonical(CoverageValue(candidate));
    if actual.Failure? {
      return Failure(NotCanonical);
    }
    if actual.value != derived.value {
      return Failure(Mismatch);
    }
    CanonicalTheorems.TextsDecode(CoverageValue(candidate), CoverageValue(expected.value), [], []);
    CoverageDecides(candidate, expected.value);
    r := Success(candidate);
  }
}
