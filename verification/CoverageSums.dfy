/** The sums over the file records are the totals over the manifest, in whatever order the files are listed. */
module CoverageSums {
  import opened Texts
  import opened Sorting
  import opened ReviewRecords
  import opened CoverageSpec

  // ----- Sorting keeps sums and members

  lemma {:induction false} SumOfConcatenation<T>(f: T -> nat, a: seq<T>, b: seq<T>)
    ensures Sum(f, a + b) == Sum(f, a) + Sum(f, b)
  {
    if b == [] {
      assert a + b == a;
    } else {
      assert (a + b)[..|a + b| - 1] == a + b[..|b| - 1];
      SumOfConcatenation(f, a, b[..|b| - 1]);
    }
  }

  lemma {:induction false} InsertKeepsSum<T>(f: T -> nat, compare: (T, T) -> int, items: seq<T>, x: T)
    ensures Sum(f, Insert(compare, items, x)) == Sum(f, items) + f(x)
  {
    assert Sum(f, [x]) == f(x) by {
      assert [x][..0] == [];
    }
    if items != [] {
      if compare(x, items[0]) < 0 {
        SumOfConcatenation(f, [x], items);
      } else {
        InsertKeepsSum(f, compare, items[1..], x);
        SumOfConcatenation(f, [items[0]], Insert(compare, items[1..], x));
        SumOfConcatenation(f, [items[0]], items[1..]);
        assert items == [items[0]] + items[1..];
      }
    }
  }

  lemma {:induction false} SortKeepsSum<T>(f: T -> nat, compare: (T, T) -> int, items: seq<T>)
    ensures Sum(f, SortBy(compare, items)) == Sum(f, items)
  {
    if items != [] {
      SortKeepsSum(f, compare, items[..|items| - 1]);
      InsertKeepsSum(f, compare, SortBy(compare, items[..|items| - 1]), items[|items| - 1]);
    }
  }

  // ----- One entry

  lemma {:induction false} RetainedAreSome(hunks: seq<Hunk>, evidence: EvidenceBody)
    ensures RetainedCount(hunks, evidence) <= |hunks|
    ensures RetainedCount(hunks, evidence) == |hunks| <==> forall i :: 0 <= i < |hunks| ==> IsRetained(hunks[i], evidence)
  {
    if hunks != [] {
      var init := hunks[..|hunks| - 1];
      RetainedAreSome(init, evidence);
      assert forall i :: 0 <= i < |init| ==> init[i] == hunks[i];
    }
  }

  lemma FileCodesAre(entry: Entry, evidence: EvidenceBody)
    ensures Increasing(CompareCoverageCodes, FileOf(entry, evidence).coverageCodes)
    ensures forall code :: code in FileOf(entry, evidence).coverageCodes <==> FileReason(code, entry, evidence)
  {
    hide CompareCoverageCodes, FileReason;
    AllCodesIncrease();
    OnlyKeeps(code => FileReason(code, entry, evidence), CompareCoverageCodes, ALL_CODES);
  }

  /** A file record has no code of either kind exactly when nothing is missing for its entry. */
  lemma AdmittedIffCovered(entry: Entry, evidence: EvidenceBody)
    ensures FullyAdmitted(FileOf(entry, evidence)) <==> Covered(entry, evidence)
  {
    FileCodesAre(entry, evidence);
    var codes := FileOf(entry, evidence).coverageCodes;
    hide Only, BodyHeld, FullyRead, HunksRetained, CompareCoverageCodes;
    if codes != [] {
      assert codes[0] in codes;
    } else {
      assert forall code :: !FileReason(code, entry, evidence);
      assert !FileReason(ChangeHunkNotRetained, entry, evidence) && !FileReason(CompleteBodyNotRetained, entry, evidence);
      assert !FileReason(ChangedFileNotFullyRead, entry, evidence);
    }
  }

  // ----- The whole manifest

  lemma {:induction false} FileSums(manifest: seq<Entry>, evidence: EvidenceBody)
    ensures Sum(HunkCountOf, FilesOf(manifest, evidence)) == HunkTotal(manifest)
    ensures Sum(RetainedCountOf, FilesOf(manifest, evidence)) == Retained(manifest, evidence)
    ensures Sum(Admission, FilesOf(manifest, evidence)) == CoveredCount(manifest, evidence)
  {
    hide FileOf, Covered, FullyAdmitted, RetainedCount;
    if manifest != [] {
      var init, last := manifest[..|manifest| - 1], manifest[|manifest| - 1];
      FileSums(init, evidence);
      assert FilesOf(manifest, evidence)[..|manifest| - 1] == FilesOf(init, evidence);
      AdmittedIffCovered(last, evidence);
      FileCounts(last, evidence);
    }
  }

  lemma FileCounts(entry: Entry, evidence: EvidenceBody)
    ensures FileOf(entry, evidence).hunkCount == |entry.hunks|
    ensures FileOf(entry, evidence).retainedHunkCount == RetainedCount(entry.hunks, evidence)
  {
  }

  lemma SortedFileSums(manifest: seq<Entry>, evidence: EvidenceBody, files: seq<FileCoverage>)
    requires files == SortBy(ComparePaths, FilesOf(manifest, evidence))
    ensures |files| == |manifest|
    ensures Sum(HunkCountOf, files) == HunkTotal(manifest)
    ensures Sum(RetainedCountOf, files) == Retained(manifest, evidence)
    ensures Sum(Admission, files) == CoveredCount(manifest, evidence)
  {
    var unsorted := FilesOf(manifest, evidence);
    SortPermutes(ComparePaths, unsorted);
    SortKeepsSum(HunkCountOf, ComparePaths, unsorted);
    SortKeepsSum(RetainedCountOf, ComparePaths, unsorted);
    SortKeepsSum(Admission, ComparePaths, unsorted);
    FileSums(manifest, evidence);
  }

  /** The file records are those of the entries. */
  lemma FilesReflectEntries(manifest: seq<Entry>, evidence: EvidenceBody, files: seq<FileCoverage>)
    requires files == SortBy(ComparePaths, FilesOf(manifest, evidence))
    ensures forall i :: 0 <= i < |manifest| ==> FileOf(manifest[i], evidence) in files
    ensures forall k :: 0 <= k < |files| ==> exists i :: 0 <= i < |manifest| && files[k] == FileOf(manifest[i], evidence)
  {
    hide FileOf, SortBy;
    var unsorted := FilesOf(manifest, evidence);
    SortPermutes(ComparePaths, unsorted);
    forall i | 0 <= i < |manifest| ensures FileOf(manifest[i], evidence) in files {
      MembersOfPermutation(files, unsorted, unsorted[i]);
    }
    forall k | 0 <= k < |files| ensures exists i :: 0 <= i < |manifest| && files[k] == FileOf(manifest[i], evidence) {
      MembersOfPermutation(files, unsorted, files[k]);
      var i :| 0 <= i < |unsorted| && unsorted[i] == files[k];
    }
  }

  predicate AnyFile(files: seq<FileCoverage>, p: FileCoverage -> bool) {
    exists k :: 0 <= k < |files| && p(files[k])
  }

  lemma AnyFileIsAnyEntry(manifest: seq<Entry>, evidence: EvidenceBody, files: seq<FileCoverage>,
                          p: FileCoverage -> bool, code: CoverageCode)
    requires files == SortBy(ComparePaths, FilesOf(manifest, evidence))
    requires forall i :: 0 <= i < |manifest| ==> (p(FileOf(manifest[i], evidence)) <==> FileReason(code, manifest[i], evidence))
    ensures AnyFile(files, p) <==> AnyEntry(manifest, evidence, code)
  {
    hide FileOf, FileReason, SortBy, FilesOf;
    FilesReflectEntries(manifest, evidence, files);
    if AnyFile(files, p) {
      var k :| 0 <= k < |files| && p(files[k]);
      var i :| 0 <= i < |manifest| && files[k] == FileOf(manifest[i], evidence);
    }
    if AnyEntry(manifest, evidence, code) {
      var i :| 0 <= i < |manifest| && FileReason(code, manifest[i], evidence);
      assert FileOf(manifest[i], evidence) in files;
    }
  }

  /** As many hunks are retained as there are exactly when every entry retains all of its hunks. */
  lemma {:induction false} AllRetained(manifest: seq<Entry>, evidence: EvidenceBody)
    ensures Retained(manifest, evidence) <= HunkTotal(manifest)
    ensures Retained(manifest, evidence) == HunkTotal(manifest) <==> !AnyEntry(manifest, evidence, ChangeHunkNotRetained)
  {
    hide HunksRetained, RetainedCount, IsRetained;
    if manifest != [] {
      var init, last := manifest[..|manifest| - 1], manifest[|manifest| - 1];
      AllRetained(init, evidence);
      EntryRetained(last, evidence);
      assert forall i :: 0 <= i < |init| ==> init[i] == manifest[i];
      assert FileReason(ChangeHunkNotRetained, last, evidence) <==> !HunksRetained(last, evidence);
      if AnyEntry(manifest, evidence, ChangeHunkNotRetained) && HunksRetained(last, evidence) {
        var i :| 0 <= i < |manifest| && FileReason(ChangeHunkNotRetained, manifest[i], evidence);
        assert FileReason(ChangeHunkNotRetained, init[i], evidence);
      }
      if AnyEntry(init, evidence, ChangeHunkNotRetained) {
        var i :| 0 <= i < |init| && FileReason(ChangeHunkNotRetained, init[i], evidence);
        assert FileReason(ChangeHunkNotRetained, manifest[i], evidence);
      }
    }
  }

  lemma EntryRetained(entry: Entry, evidence: EvidenceBody)
    ensures RetainedCount(entry.hunks, evidence) <= |entry.hunks|
    ensures RetainedCount(entry.hunks, evidence) == |entry.hunks| <==> HunksRetained(entry, evidence)
  {
    RetainedAreSome(entry.hunks, evidence);
  }

  lemma {:induction false} CoveredAreSome(manifest: seq<Entry>, evidence: EvidenceBody)
    ensures CoveredCount(manifest, evidence) <= |manifest|
    ensures CoveredCount(manifest, evidence) == |manifest| <==> forall i :: 0 <= i < |manifest| ==> Covered(manifest[i], evidence)
  {
    hide Covered;
    if manifest != [] {
      var init := manifest[..|manifest| - 1];
      CoveredAreSome(init, evidence);
      assert forall i :: 0 <= i < |init| ==> init[i] == manifest[i];
    }
  }
}
