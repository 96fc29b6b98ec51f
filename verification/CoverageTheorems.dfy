/** What a coverage record proves about the review, and what more evidence can and cannot change. */
module CoverageTheorems {
  import opened Texts
  import opened Sorting
  import opened ReviewRecords
  import opened CoverageSpec
  import opened CoverageSums

  // ----- Complete means that nothing is missing

  lemma ReasonsAreListed(body: SnapshotBody, evidence: EvidenceBody, packet: bool, revalidated: bool)
    ensures var codes := Only(code => Reason(code, body, evidence, packet, revalidated), ALL_CODES);
            Increasing(CompareCoverageCodes, codes) && forall code :: code in codes <==> Reason(code, body, evidence, packet, revalidated)
  {
    hide CompareCoverageCodes, Reason;
    AllCodesIncrease();
    OnlyKeeps(code => Reason(code, body, evidence, packet, revalidated), CompareCoverageCodes, ALL_CODES);
  }

  lemma CoveredHasNoReason(entry: Entry, evidence: EvidenceBody)
    ensures Covered(entry, evidence) <==> forall code :: !FileReason(code, entry, evidence)
  {
    hide HunksRetained, BodyHeld, FullyRead;
    if forall code :: !FileReason(code, entry, evidence) {
      assert !FileReason(ChangeHunkNotRetained, entry, evidence) && !FileReason(CompleteBodyNotRetained, entry, evidence);
      assert !FileReason(ChangedFileNotFullyRead, entry, evidence) && !FileReason(ManifestPathOmitted, entry, evidence);
    }
  }

  /** An entry's reason is a reason of the whole. */
  lemma EntryReason(body: SnapshotBody, evidence: EvidenceBody, packet: bool, revalidated: bool, i: nat, code: CoverageCode)
    requires i < |body.manifest| && FileReason(code, body.manifest[i], evidence)
    ensures Reason(code, body, evidence, packet, revalidated)
  {
    hide HunksRetained, BodyHeld, FullyRead, NothingOmitted;
    assert AnyEntry(body.manifest, evidence, code);
  }

  lemma NoReasonMeansComplete(body: SnapshotBody, evidence: EvidenceBody, packet: bool, revalidated: bool)
    requires forall code :: !Reason(code, body, evidence, packet, revalidated)
    ensures Complete(body, evidence, packet, revalidated)
  {
    assert !Reason(ManifestIncomplete, body, evidence, packet, revalidated);
    assert !Reason(PacketEvidenceNotRetained, body, evidence, packet, revalidated);
    assert !Reason(SnapshotNotRevalidated, body, evidence, packet, revalidated);
    hide Covered, FileReason, NothingOmitted;
    forall i | 0 <= i < |body.manifest| ensures Covered(body.manifest[i], evidence) {
      forall code | FileReason(code, body.manifest[i], evidence) ensures false {
        EntryReason(body, evidence, packet, revalidated, i, code);
      }
      CoveredHasNoReason(body.manifest[i], evidence);
    }
  }

  lemma CompleteMeansNoReason(body: SnapshotBody, evidence: EvidenceBody, packet: bool, revalidated: bool, code: CoverageCode)
    requires Complete(body, evidence, packet, revalidated)
    ensures !Reason(code, body, evidence, packet, revalidated)
  {
    hide Covered, FileReason;
    if AnyEntry(body.manifest, evidence, code) {
      var i :| 0 <= i < |body.manifest| && FileReason(code, body.manifest[i], evidence);
      CoveredHasNoReason(body.manifest[i], evidence);
    }
  }

  /**
   * The record has no omission code exactly when the manifest omits nothing, every hunk is retained, every added, deleted
   * or untracked file has its complete body, every changed file is fully read, and both gates hold.
   */
  lemma NoCodesIffComplete(body: SnapshotBody, evidence: EvidenceBody, packet: bool, revalidated: bool)
    ensures Only(code => Reason(code, body, evidence, packet, revalidated), ALL_CODES) == []
            <==> Complete(body, evidence, packet, revalidated)
  {
    hide Reason, Complete;
    var codes := Only(code => Reason(code, body, evidence, packet, revalidated), ALL_CODES);
    ReasonsAreListed(body, evidence, packet, revalidated);
    if codes == [] {
      NoReasonMeansComplete(body, evidence, packet, revalidated);
    }
    if Complete(body, evidence, packet, revalidated) {
      assert codes != [] ==> codes[0] in codes;
      forall code | code in codes ensures false {
        CompleteMeansNoReason(body, evidence, packet, revalidated, code);
      }
    }
  }

  // ----- The figures

  /** Nothing is lost between admitted and omitted, and a complete review omits nothing. */
  lemma CountsReconcile(body: SnapshotBody, evidence: EvidenceBody, packet: bool, revalidated: bool)
    requires SnapshotParses(body)
    ensures CountsParse(CountsOf(body, evidence))
    ensures CountsOf(body, evidence).omittedPaths == 0
            <==> body.omittedPathCount == 0 && forall i :: 0 <= i < |body.manifest| ==> Covered(body.manifest[i], evidence)
    ensures CountsOf(body, evidence).omittedHunks == 0
            <==> body.omittedHunkCount == 0 && forall i :: 0 <= i < |body.manifest| ==> HunksRetained(body.manifest[i], evidence)
    ensures Complete(body, evidence, packet, revalidated)
            ==> CountsOf(body, evidence).omittedPaths == 0 && CountsOf(body, evidence).omittedHunks == 0
  {
    AllRetained(body.manifest, evidence);
    CoveredAreSome(body.manifest, evidence);
    HunkReasons(body.manifest, evidence);
    CoveredRetains(body.manifest, evidence);
    hide Covered, HunksRetained, EntryParses;
  }

  lemma HunkReasons(manifest: seq<Entry>, evidence: EvidenceBody)
    ensures !AnyEntry(manifest, evidence, ChangeHunkNotRetained)
            <==> forall i :: 0 <= i < |manifest| ==> HunksRetained(manifest[i], evidence)
  {
    hide HunksRetained;
    if !AnyEntry(manifest, evidence, ChangeHunkNotRetained) {
      forall i | 0 <= i < |manifest| ensures HunksRetained(manifest[i], evidence) {
        assert !FileReason(ChangeHunkNotRetained, manifest[i], evidence);
      }
    }
  }

  lemma CoveredRetains(manifest: seq<Entry>, evidence: EvidenceBody)
    ensures forall i :: 0 <= i < |manifest| && Covered(manifest[i], evidence) ==> HunksRetained(manifest[i], evidence)
  {
    hide HunksRetained, BodyHeld, FullyRead;
  }

  // ----- More evidence

  /** `more` holds everything that `less` holds. */
  ghost predicate Extends(more: EvidenceBody, less: EvidenceBody) {
    && (forall hunk :: hunk in less.hunks ==> hunk in more.hunks)
    && (forall body :: body in less.bodies ==> body in more.bodies)
    && forall observation :: observation in less.observations ==> observation in more.observations
  }

  lemma MoreEvidenceReads(entry: Entry, less: EvidenceBody, more: EvidenceBody)
    requires Extends(more, less) && WholeFileRead(entry, less)
    ensures WholeFileRead(entry, more)
  {
    var i :| 0 <= i < |less.observations| && Reads(less.observations[i], entry.Path(), Content(entry).value);
    assert less.observations[i] in less.observations;
    var k :| 0 <= k < |more.observations| && more.observations[k] == less.observations[i];
    assert Reads(more.observations[k], entry.Path(), Content(entry).value);
  }

  lemma MoreEvidenceForAFile(entry: Entry, less: EvidenceBody, more: EvidenceBody, code: CoverageCode)
    requires Extends(more, less) && FileReason(code, entry, more)
    ensures FileReason(code, entry, less)
  {
    if WholeFileRead(entry, less) {
      MoreEvidenceReads(entry, less, more);
    }
    hide WholeFileRead;
  }

  lemma MoreEvidenceCovers(entry: Entry, less: EvidenceBody, more: EvidenceBody)
    requires Extends(more, less) && Covered(entry, less)
    ensures Covered(entry, more)
  {
    hide FileReason, Covered, Extends;
    CoveredHasNoReason(entry, less);
    CoveredHasNoReason(entry, more);
    if !Covered(entry, more) {
      var code :| FileReason(code, entry, more);
      MoreEvidenceForAFile(entry, less, more, code);
    }
  }

  lemma {:induction false} MoreEvidenceRetains(hunks: seq<Hunk>, less: EvidenceBody, more: EvidenceBody)
    requires Extends(more, less)
    ensures RetainedCount(hunks, less) <= RetainedCount(hunks, more)
  {
    if hunks != [] {
      MoreEvidenceRetains(hunks[..|hunks| - 1], less, more);
    }
  }

  lemma {:induction false} MoreEvidenceCounts(manifest: seq<Entry>, less: EvidenceBody, more: EvidenceBody)
    requires Extends(more, less)
    ensures Retained(manifest, less) <= Retained(manifest, more)
    ensures CoveredCount(manifest, less) <= CoveredCount(manifest, more)
  {
    hide Extends, Covered, RetainedCount;
    if manifest != [] {
      var init, last := manifest[..|manifest| - 1], manifest[|manifest| - 1];
      MoreEvidenceCounts(init, less, more);
      MoreEvidenceRetains(last.hunks, less, more);
      if Covered(last, less) {
        MoreEvidenceCovers(last, less, more);
      }
    }
  }

  lemma MoreEvidenceReason(body: SnapshotBody, less: EvidenceBody, more: EvidenceBody, packet: bool, revalidated: bool, code: CoverageCode)
    requires Extends(more, less) && Reason(code, body, more, packet, revalidated)
    ensures Reason(code, body, less, packet, revalidated)
  {
    hide FileReason, Extends, NothingOmitted;
    if AnyEntry(body.manifest, more, code) {
      var i :| 0 <= i < |body.manifest| && FileReason(code, body.manifest[i], more);
      MoreEvidenceForAFile(body.manifest[i], less, more, code);
      assert AnyEntry(body.manifest, less, code);
    }
  }

  /**
   * Enlarging the evidence for the same snapshot never adds an omission code, for the whole or for any file, never lowers
   * an admitted figure, and never makes a complete review incomplete.
   */
  lemma MoreEvidenceNeverHurts(snapshot: Snapshot, less: Evidence, more: Evidence, packet: bool, revalidated: bool)
    requires Extends(more.body, less.body)
    ensures var before, after := CoverageOf(snapshot, less, packet, revalidated), CoverageOf(snapshot, more, packet, revalidated);
            && (forall code :: code in after.omissionCodes ==> code in before.omissionCodes)
            && before.counts.admittedPaths <= after.counts.admittedPaths
            && before.counts.admittedHunks <= after.counts.admittedHunks
            && before.counts.changedPaths == after.counts.changedPaths
            && before.counts.changedHunks == after.counts.changedHunks
            && (before.complete ==> after.complete)
    ensures forall i, code :: 0 <= i < |snapshot.body.manifest|
                              && code in FileOf(snapshot.body.manifest[i], more.body).coverageCodes
                              ==> code in FileOf(snapshot.body.manifest[i], less.body).coverageCodes
  {
    var body := snapshot.body;
    hide Reason, FileOf, Complete, Extends, FileReason, SortBy, FilesOf, CanonicalCodes;
    MoreEvidenceCounts(body.manifest, less.body, more.body);
    ReasonsAreListed(body, less.body, packet, revalidated);
    ReasonsAreListed(body, more.body, packet, revalidated);
    forall code | Reason(code, body, more.body, packet, revalidated) ensures Reason(code, body, less.body, packet, revalidated) {
      MoreEvidenceReason(body, less.body, more.body, packet, revalidated, code);
    }
    NoCodesIffComplete(body, less.body, packet, revalidated);
    NoCodesIffComplete(body, more.body, packet, revalidated);
    var after := Only(code => Reason(code, body, more.body, packet, revalidated), ALL_CODES);
    assert after != [] ==> after[0] in after;
    forall i, code | 0 <= i < |body.manifest| && code in FileOf(body.manifest[i], more.body).coverageCodes
      ensures code in FileOf(body.manifest[i], less.body).coverageCodes
    {
      FileCodesAre(body.manifest[i], less.body);
      FileCodesAre(body.manifest[i], more.body);
      MoreEvidenceForAFile(body.manifest[i], less.body, more.body, code);
    }
  }
}
