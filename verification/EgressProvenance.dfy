/** Provenance binding: whether every message is partitioned exactly by its attributed slices. */
module EgressProvenance {
  import opened Texts
  import opened Sorting

  datatype Source = Artifact(admitted: bool) | Host | User | WorkspaceFile(relativePath: Text, pathAdmitted: bool)

  datatype Entry = Entry(messageIndex: nat, start: nat, end: nat, sha256: Text, source: Source, sourceId: Text)

  datatype BindingReason = ProvenanceIncomplete | ProvenanceBindingInvalid

  /** The alphabetical rank of a source kind's name. */
  function KindRank(source: Source): nat {
    match source
    case Artifact(_) => 0
    case Host => 1
    case User => 2
    case WorkspaceFile(_, _) => 3
  }

  /** The comparison segments are sorted by. */
  function CompareEntries(a: Entry, b: Entry): int {
    if a.start != b.start then a.start - b.start
    else if a.end != b.end then a.end - b.end
    else if CompareText(a.sha256, b.sha256) != 0 then CompareText(a.sha256, b.sha256)
    else if KindRank(a.source) != KindRank(b.source) then KindRank(a.source) - KindRank(b.source)
    else CompareText(a.sourceId, b.sourceId)
  }

  predicate SplitsSurrogatePair(content: Text, offset: nat) {
    0 < offset < |content| && IsHighSurrogate(content[offset - 1]) && IsLowSurrogate(content[offset])
  }

  // ----- Exact partitions, whatever the order of their entries

  /** A nonempty slice of the content, on whole surrogate pairs, with its own hash. */
  predicate SliceFits(e: Entry, content: Text, sha256: Text -> Text) {
    && e.start < e.end <= |content| && !SplitsSurrogatePair(content, e.start) && !SplitsSurrogatePair(content, e.end)
    && e.sha256 == sha256(content[e.start..e.end])
  }

  predicate Covers(e: Entry, k: nat) {
    e.start <= k < e.end
  }

  ghost predicate CoveredOnce(entries: multiset<Entry>, k: nat) {
    exists e :: e in entries && Covers(e, k) && entries[e] == 1 && forall d :: d in entries && Covers(d, k) ==> d == e
  }

  ghost predicate ExactPartition(entries: multiset<Entry>, content: Text, sha256: Text -> Text) {
    if content == [] then
      exists e :: entries == multiset{e} && e.start == 0 && e.end == 0 && e.sha256 == sha256([])
    else
      && (forall e :: e in entries ==> SliceFits(e, content, sha256))
      && (forall k :: 0 <= k < |content| ==> CoveredOnce(entries, k))
  }

  // ----- Which reason a message gives

  /** Some entry starts beyond the content, or some code unit has no entry. */
  ghost predicate LeavesGap(entries: multiset<Entry>, content: Text) {
    (exists e :: e in entries && e.start > |content|)
    || exists k: nat :: k < |content| && Uncovered(entries, k)
  }

  ghost predicate Uncovered(entries: multiset<Entry>, k: nat) {
    forall e :: e in entries ==> !Covers(e, k)
  }

  /** Some code unit has two entries. */
  ghost predicate CoveredTwice(entries: multiset<Entry>, k: nat) {
    exists e, d :: e in entries && d in entries && Covers(e, k) && Covers(d, k) && (e != d || entries[e] > 1)
  }

  /** Some entry is no fitting slice, or two entries overlap. */
  ghost predicate Conflicts(entries: multiset<Entry>, content: Text, sha256: Text -> Text) {
    (exists e :: e in entries && !SliceFits(e, content, sha256)) || exists k: nat :: CoveredTwice(entries, k)
  }

  ghost predicate IncompleteFor(entries: multiset<Entry>, content: Text) {
    entries == multiset{} || (content != [] && LeavesGap(entries, content))
  }

  ghost predicate InvalidFor(entries: multiset<Entry>, content: Text, sha256: Text -> Text) {
    entries != multiset{} && if content == [] then !ExactPartition(entries, [], sha256) else Conflicts(entries, content, sha256)
  }

  /** A message gives no reason exactly when it is partitioned. */
  lemma PartitionIffNoReason(entries: multiset<Entry>, content: Text, sha256: Text -> Text)
    ensures ExactPartition(entries, content, sha256)
            <==> !IncompleteFor(entries, content) && !InvalidFor(entries, content, sha256)
  {
    hide SliceFits;
    if content == [] {
      if e :| entries == multiset{e} {
        assert e in entries;
      }
    } else {
      if ExactPartition(entries, content, sha256) {
        PartitionGivesNoReason(entries, content, sha256);
      } else if !IncompleteFor(entries, content) && !InvalidFor(entries, content, sha256) {
        NoReasonIsPartition(entries, content, sha256);
      }
    }
  }

  lemma PartitionGivesNoReason(entries: multiset<Entry>, content: Text, sha256: Text -> Text)
    requires content != [] && ExactPartition(entries, content, sha256)
    ensures !IncompleteFor(entries, content) && !InvalidFor(entries, content, sha256)
  {
    hide SplitsSurrogatePair;
    assert CoveredOnce(entries, 0);
    forall k: nat ensures !CoveredTwice(entries, k) {
      if k < |content| {
        assert CoveredOnce(entries, k);
      }
    }
    forall k: nat | k < |content| ensures !Uncovered(entries, k) {
      assert CoveredOnce(entries, k);
    }
  }

  lemma NoReasonIsPartition(entries: multiset<Entry>, content: Text, sha256: Text -> Text)
    requires content != [] && !IncompleteFor(entries, content) && !InvalidFor(entries, content, sha256)
    ensures ExactPartition(entries, content, sha256)
  {
    hide SliceFits;
    forall k: nat | k < |content| ensures CoveredOnce(entries, k) {
      assert !Uncovered(entries, k);
      var e :| e in entries && Covers(e, k);
      assert !CoveredTwice(entries, k);
    }
  }

  // ----- What the sweep over sorted segments checks

  function EndOf(segments: seq<Entry>): nat {
    if segments == [] then 0 else segments[|segments| - 1].end
  }

  /** Fitting slices, each starting where the one before it ends. */
  predicate Chained(segments: seq<Entry>, content: Text, sha256: Text -> Text) {
    forall i :: 0 <= i < |segments| ==> segments[i].start == EndOf(segments[..i]) && SliceFits(segments[i], content, sha256)
  }

  lemma PrefixesAgree(segments: seq<Entry>, i: nat)
    requires i < |segments|
    ensures forall j :: 0 <= j <= i ==> segments[..i + 1][..j] == segments[..j] && segments[..i + 1][j] == segments[j]
    ensures forall j :: 0 <= j < i ==> segments[..i][..j] == segments[..j] && segments[..i][j] == segments[j]
  {
  }

  lemma EndOfPrefix(segments: seq<Entry>, i: nat)
    requires i < |segments|
    ensures EndOf(segments[..i + 1]) == segments[i].end
  {
  }

  lemma ChainedNext(segments: seq<Entry>, content: Text, sha256: Text -> Text, i: nat)
    requires i < |segments|
    ensures Chained(segments[..i + 1], content, sha256)
            <==> Chained(segments[..i], content, sha256) && segments[i].start == EndOf(segments[..i])
                 && SliceFits(segments[i], content, sha256)
    ensures EndOf(segments[..i + 1]) == segments[i].end
  {
    hide SliceFits, EndOf;
    var longer, shorter := segments[..i + 1], segments[..i];
    PrefixesAgree(segments, i);
    EndOfPrefix(segments, i);
  }

  lemma {:induction false} ChainOrders(segments: seq<Entry>, content: Text, sha256: Text -> Text, i: nat, j: nat)
    requires Chained(segments, content, sha256) && i < j < |segments|
    ensures segments[i].end <= segments[j].start
    decreases j
  {
    assert segments[j].start == EndOf(segments[..j]) == segments[j - 1].end;
    if i < j - 1 {
      ChainOrders(segments, content, sha256, i, j - 1);
    }
  }

  /** A chain covers everything up to its end. */
  lemma {:induction false} ChainReaches(segments: seq<Entry>, content: Text, sha256: Text -> Text, k: nat) returns (i: nat)
    requires Chained(segments, content, sha256) && k < EndOf(segments)
    ensures i < |segments| && Covers(segments[i], k)
    decreases |segments|
  {
    var last := |segments| - 1;
    if segments[last].start <= k {
      i := last;
    } else {
      var shorter := segments[..last];
      assert segments[..last + 1] == segments;
      ChainedNext(segments, content, sha256, last);
      i := ChainReaches(shorter, content, sha256, k);
    }
  }

  lemma ChainIsPartition(segments: seq<Entry>, content: Text, sha256: Text -> Text)
    requires content != [] && Chained(segments, content, sha256) && EndOf(segments) == |content|
    ensures ExactPartition(multiset(segments), content, sha256)
  {
    hide SliceFits;
    forall k: nat | k < |content| ensures CoveredOnce(multiset(segments), k) {
      var i := ChainReaches(segments, content, sha256, k);
      forall j | 0 <= j < |segments| && j != i ensures !Covers(segments[j], k) {
        if j < i {
          ChainOrders(segments, content, sha256, j, i);
        } else {
          ChainOrders(segments, content, sha256, i, j);
        }
      }
      OccursOnce(segments, i);
      assert segments[i] in multiset(segments);
    }
  }

  /** Sorted segments of a partition start where the ones before them end. */
  lemma {:induction false} PartitionIsChain(segments: seq<Entry>, content: Text, sha256: Text -> Text, n: nat)
    requires content != [] && ExactPartition(multiset(segments), content, sha256) && n <= |segments|
    requires forall i, j :: 0 <= i < j < |segments| ==> segments[i].start <= segments[j].start
    ensures Chained(segments[..n], content, sha256)
  {
    hide SliceFits;
    if n > 0 {
      var i := n - 1;
      PartitionIsChain(segments, content, sha256, i);
      assert segments[i] in multiset(segments);
      NextStartsAtEnd(segments, content, sha256, i);
      ChainedNext(segments, content, sha256, i);
    }
  }

  lemma NextStartsAtEnd(segments: seq<Entry>, content: Text, sha256: Text -> Text, i: nat)
    requires content != [] && ExactPartition(multiset(segments), content, sha256) && i < |segments|
    requires forall i, j :: 0 <= i < j < |segments| ==> segments[i].start <= segments[j].start
    requires Chained(segments[..i], content, sha256)
    ensures segments[i].start == EndOf(segments[..i])
  {
    hide ExactPartition, Chained, EndOf;
    NextStartsNoSooner(segments, content, sha256, i);
    NextStartsNoLater(segments, content, sha256, i);
  }

  lemma NextStartsNoSooner(segments: seq<Entry>, content: Text, sha256: Text -> Text, i: nat)
    requires content != [] && ExactPartition(multiset(segments), content, sha256) && i < |segments|
    requires Chained(segments[..i], content, sha256)
    ensures EndOf(segments[..i]) <= segments[i].start
  {
    hide SplitsSurrogatePair, Chained, EndOf;
    var e := segments[i];
    assert e in multiset(segments) && SliceFits(e, content, sha256);
    if e.start < EndOf(segments[..i]) {
      assert CoveredOnce(multiset(segments), e.start);
      var j := ChainReaches(segments[..i], content, sha256, e.start);
      assert segments[j] in multiset(segments) && Covers(segments[j], e.start) && Covers(e, e.start);
      OccursTwice(segments, j, i);
    }
  }

  lemma NextStartsNoLater(segments: seq<Entry>, content: Text, sha256: Text -> Text, i: nat)
    requires content != [] && ExactPartition(multiset(segments), content, sha256) && i < |segments|
    requires forall i, j :: 0 <= i < j < |segments| ==> segments[i].start <= segments[j].start
    requires Chained(segments[..i], content, sha256)
    ensures segments[i].start <= EndOf(segments[..i])
  {
    hide SplitsSurrogatePair, Chained, EndOf;
    var e, p := segments[i], EndOf(segments[..i]);
    assert e in multiset(segments) && SliceFits(e, content, sha256);
    if p < e.start {
      assert CoveredOnce(multiset(segments), p) by { EndOfChain(segments[..i], content, sha256); }
      var d :| d in multiset(segments) && Covers(d, p);
      var m :| 0 <= m < |segments| && segments[m] == d;
      if m < i {
        PrefixEndsBefore(segments[..i], content, sha256, m);
      }
    }
  }

  lemma EndOfChain(segments: seq<Entry>, content: Text, sha256: Text -> Text)
    requires Chained(segments, content, sha256)
    ensures 0 <= EndOf(segments) <= |content|
  {
  }

  lemma PrefixEndsBefore(prefix: seq<Entry>, content: Text, sha256: Text -> Text, m: nat)
    requires Chained(prefix, content, sha256) && m < |prefix|
    ensures prefix[m].end <= EndOf(prefix)
  {
    if m < |prefix| - 1 {
      ChainOrders(prefix, content, sha256, m, |prefix| - 1);
    }
  }

  lemma PartitionReachesEnd(segments: seq<Entry>, content: Text, sha256: Text -> Text)
    requires content != [] && ExactPartition(multiset(segments), content, sha256) && Chained(segments, content, sha256)
    ensures EndOf(segments) == |content|
  {
    hide SplitsSurrogatePair;
    var p := EndOf(segments);
    if segments != [] {
      assert segments[|segments| - 1] in multiset(segments);
    }
    if p < |content| {
      assert CoveredOnce(multiset(segments), p);
      var d :| d in multiset(segments) && Covers(d, p);
      var m :| 0 <= m < |segments| && segments[m] == d;
      PrefixEndsBefore(segments, content, sha256, m);
    }
  }

  /** Over sorted segments, the sweep's chain and the exact partition are the same condition. */
  lemma ChainIffPartition(segments: seq<Entry>, content: Text, sha256: Text -> Text)
    requires content != [] && forall i, j :: 0 <= i < j < |segments| ==> segments[i].start <= segments[j].start
    ensures Chained(segments, content, sha256) && EndOf(segments) == |content|
            <==> ExactPartition(multiset(segments), content, sha256)
  {
    hide Chained, ExactPartition;
    if Chained(segments, content, sha256) && EndOf(segments) == |content| {
      ChainIsPartition(segments, content, sha256);
    }
    if ExactPartition(multiset(segments), content, sha256) {
      PartitionIsChain(segments, content, sha256, |segments|);
      assert segments[..|segments|] == segments;
      PartitionReachesEnd(segments, content, sha256);
    }
  }

  function Concatenated(segments: seq<Entry>, content: Text): Text
    requires forall e :: e in segments ==> e.start <= e.end <= |content|
  {
    if segments == [] then []
    else
      var last := segments[|segments| - 1];
      Concatenated(segments[..|segments| - 1], content) + content[last.start..last.end]
  }

  /** The slices of an exact partition, in order, concatenate to the content. */
  lemma {:induction false} ChainConcatenates(segments: seq<Entry>, content: Text, sha256: Text -> Text)
    requires Chained(segments, content, sha256)
    ensures forall e :: e in segments ==> e.start <= e.end <= |content|
    ensures EndOf(segments) <= |content| && Concatenated(segments, content) == content[..EndOf(segments)]
    decreases |segments|
  {
    if segments != [] {
      var last := |segments| - 1;
      assert segments[..last + 1] == segments;
      ChainedNext(segments, content, sha256, last);
      ChainConcatenates(segments[..last], content, sha256);
    }
  }

  lemma PartitionConcatenates(segments: seq<Entry>, content: Text, sha256: Text -> Text)
    requires content != [] && ExactPartition(multiset(segments), content, sha256)
    requires forall i, j :: 0 <= i < j < |segments| ==> segments[i].start <= segments[j].start
    ensures forall e :: e in segments ==> e.start <= e.end <= |content|
    ensures Concatenated(segments, content) == content
  {
    hide ExactPartition, Concatenated, Chained;
    ChainIffPartition(segments, content, sha256);
    ChainConcatenates(segments, content, sha256);
  }

  // ----- The comparison is an order

  lemma CompareEntriesFlips(a: Entry, b: Entry)
    ensures CompareEntries(a, b) < 0 <==> CompareEntries(b, a) > 0
  {
    CompareIsAntisymmetric(a.sha256, b.sha256);
    CompareIsAntisymmetric(a.sourceId, b.sourceId);
  }

  lemma CompareEntriesChains(a: Entry, b: Entry, c: Entry)
    requires CompareEntries(a, b) <= 0 && CompareEntries(b, c) <= 0
    ensures CompareEntries(a, c) <= 0
  {
    CompareIsAntisymmetric(a.sha256, b.sha256);
    CompareIsAntisymmetric(b.sha256, c.sha256);
    CompareIsAntisymmetric(a.sha256, c.sha256);
    if CompareText(a.sha256, b.sha256) <= 0 && CompareText(b.sha256, c.sha256) <= 0 {
      CompareIsTransitive(a.sha256, b.sha256, c.sha256);
    }
    if CompareText(a.sha256, c.sha256) == 0 && CompareText(b.sha256, c.sha256) <= 0 && CompareText(a.sha256, b.sha256) <= 0 {
      assert a.sha256 == b.sha256 == c.sha256 by {
        CompareIsTransitive(b.sha256, c.sha256, a.sha256);
      }
    }
    if CompareText(a.sourceId, b.sourceId) <= 0 && CompareText(b.sourceId, c.sourceId) <= 0 {
      CompareIsTransitive(a.sourceId, b.sourceId, c.sourceId);
    }
  }

  lemma EntriesAreOrdered()
    ensures Orders(CompareEntries)
  {
    hide CompareEntries;
    forall a: Entry, b: Entry ensures CompareEntries(a, b) < 0 <==> CompareEntries(b, a) > 0 {
      CompareEntriesFlips(a, b);
    }
    forall a: Entry, b: Entry, c: Entry | CompareEntries(a, b) <= 0 && CompareEntries(b, c) <= 0
      ensures CompareEntries(a, c) <= 0
    {
      CompareEntriesChains(a, b, c);
    }
  }

  lemma SortedByStart(segments: seq<Entry>)
    requires Sorted(CompareEntries, segments)
    ensures forall i, j :: 0 <= i < j < |segments| ==> segments[i].start <= segments[j].start
  {
  }

  // ----- The sweep

  /** The entries of one message, in manifest order. */
  function EntriesFor(entries: seq<Entry>, message: nat): seq<Entry> {
    if entries == [] then []
    else
      var last := entries[|entries| - 1];
      EntriesFor(entries[..|entries| - 1], message) + if last.messageIndex == message then [last] else []
  }

  method GroupByMessage(messages: nat, entries: seq<Entry>) returns (groups: seq<seq<Entry>>)
    requires forall e :: e in entries ==> e.messageIndex < messages
    ensures |groups| == messages && forall m :: 0 <= m < messages ==> groups[m] == EntriesFor(entries, m)
  {
    groups := seq(messages, _ => []);
    for i := 0 to |entries|
      invariant |groups| == messages && forall m :: 0 <= m < messages ==> groups[m] == EntriesFor(entries[..i], m)
    {
      assert entries[..i + 1][..i] == entries[..i];
      assert entries[i] in entries;
      var m := entries[i].messageIndex;
      groups := groups[m := groups[m] + [entries[i]]];
    }
    assert entries[..|entries|] == entries;
  }

  /** The sweep over one empty message. */
  method SweepEmpty(segments: seq<Entry>, sha256: Text -> Text, before: set<BindingReason>) returns (reasons: set<BindingReason>)
    requires segments != []
    ensures ProvenanceIncomplete in reasons <==> ProvenanceIncomplete in before
    ensures ProvenanceBindingInvalid in reasons
            <==> ProvenanceBindingInvalid in before || !ExactPartition(multiset(segments), [], sha256)
  {
    hide ExactPartition;
    reasons := before;
    if |segments| != 1 {
      reasons := reasons + {ProvenanceBindingInvalid};
    }
    for i := 0 to |segments|
      invariant ProvenanceIncomplete in reasons <==> ProvenanceIncomplete in before
      invariant ProvenanceBindingInvalid in reasons
                <==> ProvenanceBindingInvalid in before || |segments| != 1
                     || exists j :: 0 <= j < i && (segments[j].start != 0 || segments[j].end != 0 || segments[j].sha256 != sha256([]))
    {
      if segments[i].start != 0 || segments[i].end != 0 || segments[i].sha256 != sha256([]) {
        reasons := reasons + {ProvenanceBindingInvalid};
      }
    }
    SingletonPartition(segments, sha256);
  }

  lemma SingletonPartition(segments: seq<Entry>, sha256: Text -> Text)
    ensures ExactPartition(multiset(segments), [], sha256)
            <==> |segments| == 1 && segments[0].start == 0 && segments[0].end == 0 && segments[0].sha256 == sha256([])
  {
    assert |multiset(segments)| == |segments|;
    if |segments| == 1 {
      assert segments == [segments[0]];
      assert multiset(segments) == multiset{segments[0]};
      if e :| multiset(segments) == multiset{e} {
        assert segments[0] in multiset{e};
      }
    } else {
      forall e: Entry ensures multiset(segments) != multiset{e} {
        assert |multiset{e}| == 1;
      }
    }
  }

  function Max(a: int, b: int): int {
    if a >= b then a else b
  }

  function Min(a: int, b: int): int {
    if a <= b then a else b
  }

  // What is known of the first `n` of the sorted segments when the sweep stands at `until`.

  predicate SortedStarts(segments: seq<Entry>) {
    forall i, j :: 0 <= i < j < |segments| ==> segments[i].start <= segments[j].start
  }

  /** No gap so far: everything up to `until` is covered, and nothing beyond it. */
  ghost predicate Filled(segments: seq<Entry>, content: Text, n: nat, until: int)
    requires n <= |segments|
  {
    && 0 <= until <= |content|
    && (forall j :: 0 <= j < n ==> segments[j].start <= |content| && (segments[j].end <= until || until == |content|))
    && forall k: nat :: k < until ==> CoveredBefore(segments, n, k)
  }

  ghost predicate CoveredBefore(segments: seq<Entry>, n: nat, k: nat)
    requires n <= |segments|
  {
    exists j :: 0 <= j < n && Covers(segments[j], k)
  }

  /** No conflict so far: fitting slices, none overlapping another, and the last one ends at `until`. */
  ghost predicate Apart(segments: seq<Entry>, content: Text, sha256: Text -> Text, n: nat, until: int)
    requires n <= |segments|
  {
    && until == (if n == 0 then 0 else segments[n - 1].end)
    && (forall j :: 0 <= j < n ==> SliceFits(segments[j], content, sha256))
    && forall i, j :: 0 <= i < j < n ==> segments[i].end <= segments[j].start
  }

  lemma GapFound(segments: seq<Entry>, content: Text, n: nat, until: int)
    requires SortedStarts(segments) && n <= |segments| && Filled(segments, content, n, until)
    requires if n < |segments| then segments[n].start > until else until < |content|
    ensures LeavesGap(multiset(segments), content)
  {
    if until == |content| {
      assert segments[n] in multiset(segments);
    } else {
      forall e | e in multiset(segments) ensures !Covers(e, until) {
        var j :| 0 <= j < |segments| && segments[j] == e;
      }
      assert Uncovered(multiset(segments), until);
    }
  }

  lemma NoGapFound(segments: seq<Entry>, content: Text)
    requires Filled(segments, content, |segments|, |content|)
    ensures !LeavesGap(multiset(segments), content)
  {
    forall k: nat | k < |content| ensures !Uncovered(multiset(segments), k) {
      assert CoveredBefore(segments, |segments|, k);
      var j :| 0 <= j < |segments| && Covers(segments[j], k);
      assert segments[j] in multiset(segments);
    }
  }

  lemma FilledNext(segments: seq<Entry>, content: Text, n: nat, until: int)
    requires n < |segments| && Filled(segments, content, n, until) && segments[n].start <= until
    ensures Filled(segments, content, n + 1, Max(until, Min(segments[n].end, |content|)))
  {
    var m, next := n + 1, Max(until, Min(segments[n].end, |content|));
    forall k: nat | k < next ensures CoveredBefore(segments, m, k) {
      if k < until {
        assert CoveredBefore(segments, n, k);
      } else {
        assert Covers(segments[n], k);
      }
    }
  }

  lemma MisfitFound(segments: seq<Entry>, content: Text, sha256: Text -> Text, n: nat)
    requires n < |segments| && !SliceFits(segments[n], content, sha256)
    ensures Conflicts(multiset(segments), content, sha256)
  {
    hide SliceFits;
    assert segments[n] in multiset(segments);
  }

  lemma OverlapFound(segments: seq<Entry>, content: Text, sha256: Text -> Text, n: nat, until: int)
    requires SortedStarts(segments) && n < |segments| && Apart(segments, content, sha256, n, until)
    requires segments[n].start < until
    ensures Conflicts(multiset(segments), content, sha256)
  {
    hide SplitsSurrogatePair;
    var e, d := segments[n - 1], segments[n];
    assert e in multiset(segments) && d in multiset(segments);
    if SliceFits(d, content, sha256) {
      if e == d {
        OccursTwice(segments, n - 1, n);
      }
      assert CoveredTwice(multiset(segments), d.start);
    }
  }

  lemma NoConflictFound(segments: seq<Entry>, content: Text, sha256: Text -> Text, until: int)
    requires Apart(segments, content, sha256, |segments|, until)
    ensures !Conflicts(multiset(segments), content, sha256)
  {
    hide SplitsSurrogatePair;
    forall k: nat ensures !CoveredTwice(multiset(segments), k) {
      forall e, d | e in multiset(segments) && d in multiset(segments) && Covers(e, k) && Covers(d, k)
        ensures e == d && multiset(segments)[e] == 1
      {
        var i :| 0 <= i < |segments| && segments[i] == e;
        var j :| 0 <= j < |segments| && segments[j] == d;
        OccursOnce(segments, i);
      }
    }
  }

  /** The sweep over one nonempty message. */
  method Sweep(content: Text, segments: seq<Entry>, sha256: Text -> Text, before: set<BindingReason>)
    returns (reasons: set<BindingReason>)
    requires content != [] && SortedStarts(segments)
    ensures ProvenanceIncomplete in reasons <==> ProvenanceIncomplete in before || LeavesGap(multiset(segments), content)
    ensures ProvenanceBindingInvalid in reasons
            <==> ProvenanceBindingInvalid in before || Conflicts(multiset(segments), content, sha256)
  {
    hide SplitsSurrogatePair, LeavesGap, Conflicts, Filled, SortedStarts;
    reasons := before;
    var coveredUntil := 0;
    ghost var gap, conflict := false, false;
    assert Filled(segments, content, 0, 0) by { SweepStarts(segments, content); }
    for i := 0 to |segments|
      invariant ProvenanceIncomplete in reasons <==> ProvenanceIncomplete in before || gap
      invariant ProvenanceBindingInvalid in reasons <==> ProvenanceBindingInvalid in before || conflict
      invariant if gap then LeavesGap(multiset(segments), content) else Filled(segments, content, i, coveredUntil)
      invariant if conflict then Conflicts(multiset(segments), content, sha256)
                else Apart(segments, content, sha256, i, coveredUntil)
    {
      var start, end := segments[i].start, segments[i].end;
      if start > coveredUntil {
        reasons := reasons + {ProvenanceIncomplete};
        if !gap {
          GapFound(segments, content, i, coveredUntil);
        }
        gap := true;
      } else if !gap {
        FilledNext(segments, content, i, coveredUntil);
      }
      var overlaps := start < coveredUntil;
      if overlaps {
        reasons := reasons + {ProvenanceBindingInvalid};
        if !conflict {
          OverlapFound(segments, content, sha256, i, coveredUntil);
        }
        conflict := true;
      }
      var invalidRange := end <= start || start > |content| || end > |content|
                          || SplitsSurrogatePair(content, start) || SplitsSurrogatePair(content, end);
      if invalidRange {
        reasons := reasons + {ProvenanceBindingInvalid};
        MisfitFound(segments, content, sha256, i);
        conflict := true;
      } else if !overlaps && segments[i].sha256 != sha256(content[start..end]) {
        reasons := reasons + {ProvenanceBindingInvalid};
        MisfitFound(segments, content, sha256, i);
        conflict := true;
      }
      if start <= coveredUntil {
        coveredUntil := Max(coveredUntil, Min(end, |content|));
      } else {
        coveredUntil := Min(end, |content|);
      }
    }
    if coveredUntil < |content| {
      reasons := reasons + {ProvenanceIncomplete};
      if !gap {
        GapFound(segments, content, |segments|, coveredUntil);
      }
      gap := true;
    }
    SweepEnds(segments, content, sha256, coveredUntil, gap, conflict);
  }

  lemma SweepStarts(segments: seq<Entry>, content: Text)
    ensures Filled(segments, content, 0, 0)
  {
  }

  lemma SweepEnds(segments: seq<Entry>, content: Text, sha256: Text -> Text, until: int, gap: bool, conflict: bool)
    requires if gap then LeavesGap(multiset(segments), content)
             else Filled(segments, content, |segments|, until) && until >= |content|
    requires if conflict then Conflicts(multiset(segments), content, sha256)
             else Apart(segments, content, sha256, |segments|, until)
    ensures gap <==> LeavesGap(multiset(segments), content)
    ensures conflict <==> Conflicts(multiset(segments), content, sha256)
  {
    hide LeavesGap, Conflicts, Apart;
    if !gap {
      NoGapFound(segments, content);
    }
    if !conflict {
      NoConflictFound(segments, content, sha256, until);
    }
  }

  /** Whether every message is partitioned exactly by its entries, in whatever order they are listed. */
  ghost predicate AllPartitioned(messages: seq<Text>, entries: seq<Entry>, sha256: Text -> Text) {
    forall m :: 0 <= m < |messages| ==> ExactPartition(EntriesOf(entries, m), messages[m], sha256)
  }

  /** The entries of one message, without their order. */
  ghost function EntriesOf(entries: seq<Entry>, m: nat): multiset<Entry> {
    multiset(EntriesFor(entries, m))
  }

  /**
   * `evaluateProvenanceBinding`: incomplete exactly when some message lacks entries or has a gap, invalid exactly when
   * some message's entries do not fit or overlap, and neither exactly when every message is partitioned exactly.
   */
  method EvaluateProvenanceBinding(messages: seq<Text>, entries: seq<Entry>, sha256: Text -> Text)
    returns (reasons: set<BindingReason>)
    requires forall e :: e in entries ==> e.messageIndex < |messages|
    ensures ProvenanceIncomplete in reasons
            <==> exists m :: 0 <= m < |messages| && IncompleteFor(EntriesOf(entries, m), messages[m])
    ensures ProvenanceBindingInvalid in reasons
            <==> exists m :: 0 <= m < |messages| && InvalidFor(EntriesOf(entries, m), messages[m], sha256)
    ensures reasons == {} <==> AllPartitioned(messages, entries, sha256)
  {
    hide ExactPartition, CompareEntries, EntriesFor, SortBy, LeavesGap, Conflicts, AllPartitioned;
    reasons := {};
    var groups := GroupByMessage(|messages|, entries);
    for m := 0 to |messages|
      invariant ProvenanceIncomplete in reasons
                <==> exists k :: 0 <= k < m && IncompleteFor(EntriesOf(entries, k), messages[k])
      invariant ProvenanceBindingInvalid in reasons
                <==> exists k :: 0 <= k < m && InvalidFor(EntriesOf(entries, k), messages[k], sha256)
    {
      var segments := SortBy(CompareEntries, groups[m]);
      SortedSegments(entries, m);
      if segments == [] {
        reasons := reasons + {ProvenanceIncomplete};
      } else if messages[m] == [] {
        reasons := SweepEmpty(segments, sha256, reasons);
      } else {
        reasons := Sweep(messages[m], segments, sha256, reasons);
      }
    }
    NoReasonAnywhere(messages, entries, sha256);
    NoReasons(reasons);
  }

  lemma SortedSegments(entries: seq<Entry>, m: nat)
    ensures multiset(SortBy(CompareEntries, EntriesFor(entries, m))) == EntriesOf(entries, m)
    ensures SortedStarts(SortBy(CompareEntries, EntriesFor(entries, m)))
    ensures SortBy(CompareEntries, EntriesFor(entries, m)) == [] <==> EntriesOf(entries, m) == multiset{}
  {
    hide EntriesFor;
    var group := EntriesFor(entries, m);
    SortPermutes(CompareEntries, group);
    EntriesAreOrdered();
    SortSorts(CompareEntries, group);
    SortedByStart(SortBy(CompareEntries, group));
    assert |multiset(SortBy(CompareEntries, group))| == |SortBy(CompareEntries, group)|;
  }

  lemma NoReasonAnywhere(messages: seq<Text>, entries: seq<Entry>, sha256: Text -> Text)
    ensures AllPartitioned(messages, entries, sha256)
            <==> forall m :: 0 <= m < |messages| ==> !IncompleteFor(EntriesOf(entries, m), messages[m])
                                                      && !InvalidFor(EntriesOf(entries, m), messages[m], sha256)
  {
    hide ExactPartition, IncompleteFor, InvalidFor, EntriesFor;
    forall m: nat | m < |messages|
      ensures ExactPartition(EntriesOf(entries, m), messages[m], sha256)
              <==> !IncompleteFor(EntriesOf(entries, m), messages[m]) && !InvalidFor(EntriesOf(entries, m), messages[m], sha256)
    {
      PartitionIffNoReason(EntriesOf(entries, m), messages[m], sha256);
    }
  }

  lemma NoReasons(reasons: set<BindingReason>)
    ensures reasons == {} <==> ProvenanceIncomplete !in reasons && ProvenanceBindingInvalid !in reasons
  {
    if reasons != {} {
      var r :| r in reasons;
      assert r == ProvenanceIncomplete || r == ProvenanceBindingInvalid;
    }
  }
}
