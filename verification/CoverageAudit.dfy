/** What a coverage record says, told from the snapshot and the evidence alone. */
module CoverageAudit {
  import opened Wrappers
  import opened Texts
  import opened Sorting
  import opened ReviewRecords
  import opened CoverageSpec
  import opened CoverageTheorems
  import opened CoverageSchema

  /** The path a changed file is reviewed under: its new one, or its old one if it is gone. */
  predicate GoesBy(entry: Entry, path: Text) {
    entry.newPath == Some(path) || (entry.newPath.None? && entry.oldPath == Some(path))
  }

  /** The content that has to be read: of the base for a deleted file, of the working tree for any other. */
  predicate Shows(entry: Entry, content: Text) {
    if entry.kind.Deleted? then entry.base.Some? && entry.base.value.admittedContent == Some(content)
    else entry.working.Some? && entry.working.value.admittedContent == Some(content)
  }

  /** The complete body of the file, on the side to be read. */
  ghost predicate HasBody(entry: Entry, evidence: EvidenceBody) {
    exists path, content :: GoesBy(entry, path) && Shows(entry, content)
                            && BodyEvidence(path, if entry.kind.Deleted? then Base else Working, content) in evidence.bodies
  }

  /** A read of the whole file, and of the content that was admitted. */
  ghost predicate HasWholeRead(entry: Entry, evidence: EvidenceBody) {
    exists o, path, content :: o in evidence.observations && o.fullFile && GoesBy(entry, path) && o.path == path
                               && Shows(entry, content) && o.content == content
  }

  /** Files without a counterpart on the other side, whose whole body has to be kept. */
  predicate HasOneSide(entry: Entry) {
    entry.kind.Added? || entry.kind.Deleted? || entry.kind.Untracked?
  }

  ghost predicate HunksKept(entry: Entry, evidence: EvidenceBody) {
    forall hunk :: hunk in entry.hunks ==> hunk.sha256 in evidence.hunks
  }

  /** Nothing of one changed file is missing: not its hunks, not its body if it has one side only, and not its reading. */
  ghost predicate Reviewed(entry: Entry, evidence: EvidenceBody) {
    && entry.omissionCodes == [] && HunksKept(entry, evidence)
    && if HasOneSide(entry) then HasBody(entry, evidence) else HasWholeRead(entry, evidence)
  }

  /** A complete review, in so many words. */
  ghost predicate CompletelyReviewed(body: SnapshotBody, evidence: EvidenceBody, packet: bool, revalidated: bool) {
    && packet && revalidated && body.omittedPathCount == 0 && body.omittedHunkCount == 0 && body.manifestOmissionCodes == []
    && forall entry :: entry in body.manifest ==> Reviewed(entry, evidence)
  }

  lemma PathOfEntry(entry: Entry)
    requires EntryParses(entry)
    ensures forall path :: GoesBy(entry, path) <==> path == entry.Path()
  {
  }

  lemma ContentOfEntry(entry: Entry)
    ensures forall content :: Shows(entry, content) <==> Content(entry) == Some(content)
  {
  }

  lemma BodyIsHeld(entry: Entry, evidence: EvidenceBody)
    requires EntryParses(entry)
    ensures HasBody(entry, evidence) <==> BodyHeld(entry, evidence)
  {
    PathOfEntry(entry);
    ContentOfEntry(entry);
    hide EntryParses, GoesBy, Shows, Content, Entry.Path;
    if BodyHeld(entry, evidence) {
      assert GoesBy(entry, entry.Path()) && Shows(entry, Content(entry).value);
    }
  }

  lemma ReadIsWhole(entry: Entry, evidence: EvidenceBody)
    requires EntryParses(entry)
    ensures HasWholeRead(entry, evidence) <==> WholeFileRead(entry, evidence)
  {
    PathOfEntry(entry);
    ContentOfEntry(entry);
    hide EntryParses, GoesBy, Shows, Content, Entry.Path;
    if HasWholeRead(entry, evidence) {
      var o, path, content :| o in evidence.observations && o.fullFile && GoesBy(entry, path) && o.path == path
                              && Shows(entry, content) && o.content == content;
      var i :| 0 <= i < |evidence.observations| && evidence.observations[i] == o;
      assert Reads(evidence.observations[i], entry.Path(), Content(entry).value);
    }
    if WholeFileRead(entry, evidence) {
      var i :| 0 <= i < |evidence.observations| && Reads(evidence.observations[i], entry.Path(), Content(entry).value);
      assert evidence.observations[i] in evidence.observations && GoesBy(entry, entry.Path())
             && Shows(entry, Content(entry).value);
    }
  }

  lemma HunksAreKept(entry: Entry, evidence: EvidenceBody)
    ensures HunksKept(entry, evidence) <==> HunksRetained(entry, evidence)
  {
    if HunksRetained(entry, evidence) {
      forall hunk | hunk in entry.hunks ensures hunk.sha256 in evidence.hunks {
        var i :| 0 <= i < |entry.hunks| && entry.hunks[i] == hunk;
        assert IsRetained(entry.hunks[i], evidence);
      }
    }
    if HunksKept(entry, evidence) {
      forall i | 0 <= i < |entry.hunks| ensures IsRetained(entry.hunks[i], evidence) {
        assert entry.hunks[i] in entry.hunks;
      }
    }
  }

  lemma ReviewedIsCovered(entry: Entry, evidence: EvidenceBody)
    requires EntryParses(entry)
    ensures Covered(entry, evidence) <==> Reviewed(entry, evidence)
    ensures Reviewed(entry, evidence) ==> entry.omissionCodes == []
  {
    BodyIsHeld(entry, evidence);
    ReadIsWhole(entry, evidence);
    HunksAreKept(entry, evidence);
    hide HasBody, HasWholeRead, BodyHeld, WholeFileRead, HunksKept, HunksRetained, EntryParses;
  }

  /**
   * A coverage record is complete, and has no omission code, exactly if the review is: both gates hold, the snapshot omits
   * nothing, and every changed file has its hunks in the evidence and was read whole under its path, in the content that
   * was admitted.
   */
  lemma CompleteMeansReviewed(snapshot: Snapshot, evidence: Evidence, packet: bool, revalidated: bool)
    requires SnapshotParses(snapshot.body)
    ensures var c := CoverageOf(snapshot, evidence, packet, revalidated);
            && (c.complete <==> CompletelyReviewed(snapshot.body, evidence.body, packet, revalidated))
            && (c.omissionCodes == [] <==> c.complete)
  {
    var body, e := snapshot.body, evidence.body;
    NoCodesIffComplete(body, e, packet, revalidated);
    hide Covered, Reviewed, EntryParses, FileOf, SortBy, CountsOf, Only, CanonicalCodes, TouchesRuntime;
    forall i | 0 <= i < |body.manifest|
      ensures Covered(body.manifest[i], e) <==> Reviewed(body.manifest[i], e)
      ensures Reviewed(body.manifest[i], e) ==> body.manifest[i].omissionCodes == []
    {
      ReviewedIsCovered(body.manifest[i], e);
    }
    forall entry | entry in body.manifest && Complete(body, e, packet, revalidated) ensures Reviewed(entry, e) {
      var i :| 0 <= i < |body.manifest| && body.manifest[i] == entry;
    }
  }

  // ----- Each omission code

  /** Some changed file has lost a hunk, its body, its reading or a part of the manifest. */
  ghost predicate LosesHunk(manifest: seq<Entry>, evidence: EvidenceBody) {
    exists entry :: entry in manifest && !HunksKept(entry, evidence)
  }

  ghost predicate LosesBody(manifest: seq<Entry>, evidence: EvidenceBody) {
    exists entry :: entry in manifest && HasOneSide(entry) && !HasBody(entry, evidence)
  }

  ghost predicate LosesReading(manifest: seq<Entry>, evidence: EvidenceBody) {
    exists entry :: entry in manifest && !(HasOneSide(entry) && HasBody(entry, evidence)) && !HasWholeRead(entry, evidence)
  }

  ghost predicate LosesPart(manifest: seq<Entry>) {
    exists entry :: entry in manifest && entry.omissionCodes != []
  }

  lemma ReasonOfEntry(entry: Entry, evidence: EvidenceBody)
    requires EntryParses(entry)
    ensures FileReason(ChangeHunkNotRetained, entry, evidence) <==> !HunksKept(entry, evidence)
    ensures FileReason(CompleteBodyNotRetained, entry, evidence) <==> HasOneSide(entry) && !HasBody(entry, evidence)
    ensures FileReason(ChangedFileNotFullyRead, entry, evidence)
            <==> !(HasOneSide(entry) && HasBody(entry, evidence)) && !HasWholeRead(entry, evidence)
    ensures FileReason(ManifestPathOmitted, entry, evidence) <==> entry.omissionCodes != []
  {
    BodyIsHeld(entry, evidence);
    ReadIsWhole(entry, evidence);
    HunksAreKept(entry, evidence);
    hide HasBody, HasWholeRead, BodyHeld, WholeFileRead, HunksKept, HunksRetained, EntryParses;
  }

  lemma ReasonOfSome(manifest: seq<Entry>, evidence: EvidenceBody)
    requires forall i :: 0 <= i < |manifest| ==> EntryParses(manifest[i])
    ensures AnyEntry(manifest, evidence, ChangeHunkNotRetained) <==> LosesHunk(manifest, evidence)
    ensures AnyEntry(manifest, evidence, CompleteBodyNotRetained) <==> LosesBody(manifest, evidence)
    ensures AnyEntry(manifest, evidence, ChangedFileNotFullyRead) <==> LosesReading(manifest, evidence)
    ensures AnyEntry(manifest, evidence, ManifestPathOmitted) <==> LosesPart(manifest)
  {
    hide FileReason, HasBody, HasWholeRead, HunksKept, EntryParses, HasOneSide;
    forall i | 0 <= i < |manifest|
      ensures FileReason(ChangeHunkNotRetained, manifest[i], evidence) <==> !HunksKept(manifest[i], evidence)
      ensures FileReason(CompleteBodyNotRetained, manifest[i], evidence)
              <==> HasOneSide(manifest[i]) && !HasBody(manifest[i], evidence)
      ensures FileReason(ChangedFileNotFullyRead, manifest[i], evidence)
              <==> !(HasOneSide(manifest[i]) && HasBody(manifest[i], evidence)) && !HasWholeRead(manifest[i], evidence)
      ensures FileReason(ManifestPathOmitted, manifest[i], evidence) <==> manifest[i].omissionCodes != []
    {
      ReasonOfEntry(manifest[i], evidence);
    }
    assert forall entry :: entry in manifest ==> exists i :: 0 <= i < |manifest| && manifest[i] == entry;
    assert forall i :: 0 <= i < |manifest| ==> manifest[i] in manifest;
  }

  /** Each omission code is listed exactly when the thing it names is missing. */
  lemma CodesSayWhatIsMissing(snapshot: Snapshot, evidence: Evidence, packet: bool, revalidated: bool)
    requires SnapshotParses(snapshot.body)
    ensures var codes, body, e := CoverageOf(snapshot, evidence, packet, revalidated).omissionCodes, snapshot.body, evidence.body;
            && (ManifestIncomplete in codes
                <==> body.omittedPathCount > 0 || body.omittedHunkCount > 0 || body.manifestOmissionCodes != [] || LosesPart(body.manifest))
            && (ManifestPathOmitted in codes <==> body.omittedPathCount > 0 || LosesPart(body.manifest))
            && (ChangeHunkNotRetained in codes <==> body.omittedHunkCount > 0 || LosesHunk(body.manifest, e))
            && (CompleteBodyNotRetained in codes <==> LosesBody(body.manifest, e))
            && (ChangedFileNotFullyRead in codes <==> LosesReading(body.manifest, e))
            && (PacketEvidenceNotRetained in codes <==> !packet)
            && (SnapshotNotRevalidated in codes <==> !revalidated)
  {
    hide *;
    hide SnapshotParses, LosesHunk, LosesBody, LosesReading, LosesPart;
    CodesAreReasons(snapshot, evidence, packet, revalidated);
    ReasonsSayWhatIsMissing(snapshot.body, evidence.body, packet, revalidated);
  }

  lemma CodesAreReasons(snapshot: Snapshot, evidence: Evidence, packet: bool, revalidated: bool)
    ensures forall code :: code in CoverageOf(snapshot, evidence, packet, revalidated).omissionCodes
                           <==> Reason(code, snapshot.body, evidence.body, packet, revalidated)
  {
    ReasonsAreListed(snapshot.body, evidence.body, packet, revalidated);
    hide Reason, FileOf, SortBy, CountsOf, Only, CanonicalCodes, TouchesRuntime, Complete;
  }

  lemma ReasonsSayWhatIsMissing(body: SnapshotBody, e: EvidenceBody, packet: bool, revalidated: bool)
    requires SnapshotParses(body)
    ensures Reason(ManifestIncomplete, body, e, packet, revalidated)
            <==> body.omittedPathCount > 0 || body.omittedHunkCount > 0 || body.manifestOmissionCodes != [] || LosesPart(body.manifest)
    ensures Reason(ManifestPathOmitted, body, e, packet, revalidated) <==> body.omittedPathCount > 0 || LosesPart(body.manifest)
    ensures Reason(ChangeHunkNotRetained, body, e, packet, revalidated)
            <==> body.omittedHunkCount > 0 || LosesHunk(body.manifest, e)
    ensures Reason(CompleteBodyNotRetained, body, e, packet, revalidated) <==> LosesBody(body.manifest, e)
    ensures Reason(ChangedFileNotFullyRead, body, e, packet, revalidated) <==> LosesReading(body.manifest, e)
    ensures Reason(PacketEvidenceNotRetained, body, e, packet, revalidated) <==> !packet
    ensures Reason(SnapshotNotRevalidated, body, e, packet, revalidated) <==> !revalidated
  {
    ReasonOfSome(body.manifest, e);
    OmissionOfSome(body.manifest);
    hide AnyEntry, LosesHunk, LosesBody, LosesReading, LosesPart, EntryParses;
  }

  lemma OmissionOfSome(manifest: seq<Entry>)
    ensures LosesPart(manifest) <==> !forall i :: 0 <= i < |manifest| ==> manifest[i].omissionCodes == []
  {
    if i :| 0 <= i < |manifest| && manifest[i].omissionCodes != [] {
      assert manifest[i] in manifest;
    }
    if entry :| entry in manifest && entry.omissionCodes != [] {
      var i :| 0 <= i < |manifest| && manifest[i] == entry;
    }
  }

  // ----- Tests and runtime code

  /** The text reads `literal` from `i` on. */
  predicate ReadsAt(text: Text, i: nat, literal: string) {
    i + |literal| <= |text| && forall j :: 0 <= j < |literal| ==> text[i + j] == literal[j] as int
  }

  /** The last part of the path has `.test.` or `.spec.` in it, with something before its end. */
  predicate IsTestName(path: Text, i: nat) {
    (ReadsAt(path, i, ".test.") || ReadsAt(path, i, ".spec.")) && i + 6 < |path|
    && forall j :: i + 6 <= j < |path| ==> path[j] != '/' as int
  }

  ghost predicate NamesTest(path: Text) {
    exists i: nat :: IsTestName(path, i)
  }

  /** The entry's file has, or had, this path. */
  predicate HasPath(entry: Entry, path: Text) {
    entry.oldPath == Some(path) || entry.newPath == Some(path)
  }

  ghost predicate Changes(manifest: seq<Entry>, path: Text) {
    exists entry :: entry in manifest && HasPath(entry, path)
  }

  lemma LiteralAt(text: Text, i: nat, literal: string)
    requires forall k :: 0 <= k < |literal| ==> literal[k] < 128 as char
    ensures ReadsAt(text, i, literal) <==> i + |literal| <= |text| && text[i..i + |literal|] == Ascii(literal)
  {
    if ReadsAt(text, i, literal) {
      assert forall k :: 0 <= k < |literal| ==> text[i..i + |literal|][k] == Ascii(literal)[k];
    }
  }

  lemma TestNames(path: Text)
    ensures NamesTest(path) <==> IsTestPath(path)
  {
    hide ReadsAt;
    assert |".test."| == 6 && |".spec."| == 6;
    forall i: nat ensures IsTestName(path, i) <==> i < |path| && TestSuffixAt(path, i) {
      LiteralAt(path, i, ".test.");
      LiteralAt(path, i, ".spec.");
    }
  }

  lemma RuntimeNames(path: Text)
    ensures ReadsAt(path, 0, "src/") <==> IsRuntimePath(path)
  {
    LiteralAt(path, 0, "src/");
    assert |"src/"| == 4;
    if 4 <= |path| {
      assert path[0..4] == path[..4];
    }
  }

  lemma PathsOfEntries(manifest: seq<Entry>, path: Text)
    ensures AnyEntryNames(manifest, path) <==> Changes(manifest, path)
  {
    if AnyEntryNames(manifest, path) {
      var i :| 0 <= i < |manifest| && Names(manifest[i], path);
      assert manifest[i] in manifest && HasPath(manifest[i], path);
    }
    if Changes(manifest, path) {
      var entry :| entry in manifest && HasPath(entry, path);
      var i :| 0 <= i < |manifest| && manifest[i] == entry;
      assert Names(manifest[i], path);
    }
  }

  lemma RuntimeOfEntries(manifest: seq<Entry>)
    ensures (exists i :: 0 <= i < |manifest| && TouchesRuntime(manifest[i]))
            <==> exists path :: Changes(manifest, path) && ReadsAt(path, 0, "src/")
  {
    hide ReadsAt;
    forall path ensures ReadsAt(path, 0, "src/") <==> IsRuntimePath(path) {
      RuntimeNames(path);
    }
    if i :| 0 <= i < |manifest| && TouchesRuntime(manifest[i]) {
      var entry := manifest[i];
      var path := if entry.oldPath.Some? && IsRuntimePath(entry.oldPath.value) then entry.oldPath.value else entry.newPath.value;
      assert entry in manifest && HasPath(entry, path) && ReadsAt(path, 0, "src/");
      assert Changes(manifest, path);
    }
    if path :| Changes(manifest, path) && ReadsAt(path, 0, "src/") {
      var entry :| entry in manifest && HasPath(entry, path);
      var i :| 0 <= i < |manifest| && manifest[i] == entry;
      assert TouchesRuntime(manifest[i]);
    }
  }

  /**
   * The changed test paths are exactly the changed paths that name a test, each once and in order; and runtime code counts
   * as changed without a test exactly if some path under `src/` changed and no test path did.
   */
  lemma TestsAndRuntime(snapshot: Snapshot, evidence: Evidence, packet: bool, revalidated: bool)
    ensures var c, manifest := CoverageOf(snapshot, evidence, packet, revalidated), snapshot.body.manifest;
            && (forall path :: path in c.changedTestPaths <==> NamesTest(path) && Changes(manifest, path))
            && Increasing(CompareText, c.changedTestPaths)
            && (c.runtimeCodeChangedWithoutChangedTest
                <==> && (exists path :: Changes(manifest, path) && ReadsAt(path, 0, "src/"))
                     && forall path :: Changes(manifest, path) ==> !NamesTest(path))
  {
    var manifest := snapshot.body.manifest;
    var tests := CanonicalCodes(CompareText, TestPaths(manifest));
    ChangedTestsAre(manifest);
    RuntimeOfEntries(manifest);
    hide NamesTest, IsTestPath, Changes, AnyEntryNames, ReadsAt, FileOf, SortBy, CountsOf, Only, CanonicalCodes, TouchesRuntime,
         Complete, Reason, CompareText, TestPaths, NothingOmitted;
    forall path ensures path in tests <==> NamesTest(path) && Changes(manifest, path) {
      TestNames(path);
      PathsOfEntries(manifest, path);
    }
    assert tests != [] ==> tests[0] in tests;
  }
}
