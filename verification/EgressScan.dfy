/** The bounded closure of a text under normalisation, escape decoding and path comparison. */
module EgressScan {
  import opened EgressPaths
  import opened Texts

  const MAX_DEPTH := 8

  /** NFKC and escape decoding, as they come from the Unicode and regular expression libraries. */
  datatype Transforms = Transforms(nfkc: Text -> Text, decode: Text -> Text) {
    function Compare(x: Text): Text {
      PathView(nfkc(x))
    }
  }

  /** The candidates one text yields, in the order they are tried; the text itself is the first. */
  function Candidates(t: Transforms, x: Text): (candidates: seq<Text>)
    ensures |candidates| == 5 && candidates[0] == x
  {
    [x, t.nfkc(x), t.decode(x), t.decode(t.nfkc(x)), t.Compare(x)]
  }

  function CandidateSet(t: Transforms, x: Text): set<Text> {
    set c | c in Candidates(t, x)
  }

  // ----- What the scan is meant to compute

  /** The texts that at most `steps` transforms lead to. */
  ghost function Within(t: Transforms, x: Text, steps: nat): set<Text> {
    if steps == 0 then {x}
    else
      var before := Within(t, x, steps - 1);
      set w, y | w in before && y in CandidateSet(t, w) :: y
  }

  ghost predicate Reachable(t: Transforms, x: Text, y: Text) {
    exists steps: nat :: y in Within(t, x, steps)
  }

  /** Closed under every transform. */
  ghost predicate Closed(t: Transforms, texts: set<Text>) {
    forall w, y :: w in texts && y in CandidateSet(t, w) ==> y in texts
  }

  /** The views of a text: what nine transforms reach, and the comparison view of each. */
  ghost function Views(t: Transforms, x: Text): set<Text> {
    Within(t, x, MAX_DEPTH + 1) + set w | w in Within(t, x, MAX_DEPTH + 1) :: t.Compare(w)
  }

  /** Some text is reached by nine transforms and not by eight. */
  ghost predicate Exhausts(t: Transforms, x: Text) {
    Within(t, x, MAX_DEPTH + 1) != Within(t, x, MAX_DEPTH)
  }

  // ----- Reachability facts

  lemma WithinStart(t: Transforms, x: Text)
    ensures Within(t, x, 0) == {x}
  {
  }

  lemma WithinStep(t: Transforms, x: Text, steps: nat, w: Text, y: Text)
    requires w in Within(t, x, steps) && y in CandidateSet(t, w)
    ensures y in Within(t, x, steps + 1)
  {
    hide CandidateSet;
  }

  lemma WithinBack(t: Transforms, x: Text, steps: nat, y: Text) returns (w: Text)
    requires y in Within(t, x, steps + 1)
    ensures w in Within(t, x, steps) && y in CandidateSet(t, w)
  {
    hide CandidateSet;
    w :| w in Within(t, x, steps) && y in CandidateSet(t, w);
  }

  lemma CandidatesHoldSelf(t: Transforms, w: Text)
    ensures w in CandidateSet(t, w)
  {
    assert Candidates(t, w)[0] == w;
  }

  lemma CandidatesHoldCompared(t: Transforms, w: Text)
    ensures t.Compare(w) in CandidateSet(t, w)
  {
    assert Candidates(t, w)[4] == t.Compare(w);
  }

  lemma {:induction false} WithinGrows(t: Transforms, x: Text, few: nat, many: nat)
    requires few <= many
    ensures Within(t, x, few) <= Within(t, x, many)
    decreases many
  {
    hide Within, CandidateSet;
    if few < many {
      WithinGrows(t, x, few, many - 1);
      forall w | w in Within(t, x, many - 1) ensures w in Within(t, x, many) {
        CandidatesHoldSelf(t, w);
        WithinStep(t, x, many - 1, w, w);
      }
    }
  }

  /** When a step reaches nothing new, no number of steps does. */
  lemma {:induction false} StableFrom(t: Transforms, x: Text, n: nat, steps: nat)
    requires Within(t, x, n + 1) == Within(t, x, n)
    ensures Within(t, x, steps) <= Within(t, x, n)
    decreases steps
  {
    hide Within, CandidateSet;
    if steps == 0 {
      WithinGrows(t, x, 0, n);
    } else {
      StableFrom(t, x, n, steps - 1);
      forall y | y in Within(t, x, steps) ensures y in Within(t, x, n) {
        var w := WithinBack(t, x, steps - 1, y);
        WithinStep(t, x, n, w, y);
      }
    }
  }

  lemma {:induction false} WithinAnyClosed(t: Transforms, x: Text, texts: set<Text>, steps: nat)
    requires x in texts && Closed(t, texts)
    ensures Within(t, x, steps) <= texts
    decreases steps
  {
    hide Within, CandidateSet;
    if steps == 0 {
      WithinStart(t, x);
    } else {
      WithinAnyClosed(t, x, texts, steps - 1);
      forall y | y in Within(t, x, steps) ensures y in texts {
        var _ := WithinBack(t, x, steps - 1, y);
      }
    }
  }

  /** `exhausted` says exactly that some reachable text is more than eight transforms away. */
  lemma ExhaustedMeansFar(t: Transforms, x: Text)
    ensures Exhausts(t, x) <==> exists y :: Reachable(t, x, y) && y !in Within(t, x, MAX_DEPTH)
  {
    hide Within;
    WithinGrows(t, x, MAX_DEPTH, MAX_DEPTH + 1);
    if Exhausts(t, x) {
      var y :| y in Within(t, x, MAX_DEPTH + 1) && y !in Within(t, x, MAX_DEPTH);
      assert Reachable(t, x, y);
    } else {
      forall y | Reachable(t, x, y) ensures y in Within(t, x, MAX_DEPTH) {
        var steps: nat :| y in Within(t, x, steps);
        StableFrom(t, x, MAX_DEPTH, steps);
      }
    }
  }

  /** What an unexhausted scan reaches is closed under every transform. */
  lemma UnexhaustedIsClosed(t: Transforms, x: Text)
    requires !Exhausts(t, x)
    ensures Closed(t, Within(t, x, MAX_DEPTH)) && x in Within(t, x, MAX_DEPTH)
    ensures Views(t, x) == Within(t, x, MAX_DEPTH)
  {
    hide Within, CandidateSet;
    WithinStart(t, x);
    WithinGrows(t, x, 0, MAX_DEPTH);
    var reached := Within(t, x, MAX_DEPTH);
    forall w, y | w in reached && y in CandidateSet(t, w) ensures y in reached {
      WithinStep(t, x, MAX_DEPTH, w, y);
    }
    forall w | w in reached ensures t.Compare(w) in reached {
      CandidatesHoldCompared(t, w);
    }
  }

  /** An unexhausted scan returns the least set that holds the text and is closed under every transform. */
  lemma UnexhaustedViewsAreLeastClosed(t: Transforms, x: Text, texts: set<Text>)
    requires !Exhausts(t, x)
    ensures x in Views(t, x) && Closed(t, Views(t, x))
    ensures forall y :: y in Views(t, x) <==> Reachable(t, x, y)
    ensures x in texts && Closed(t, texts) ==> Views(t, x) <= texts
  {
    hide Within, Views, Closed;
    UnexhaustedIsClosed(t, x);
    forall y ensures y in Within(t, x, MAX_DEPTH) <==> Reachable(t, x, y) {
      if Reachable(t, x, y) {
        var steps: nat :| y in Within(t, x, steps);
        StableFrom(t, x, MAX_DEPTH, steps);
      }
    }
    if x in texts && Closed(t, texts) {
      WithinAnyClosed(t, x, texts, MAX_DEPTH);
    }
  }

  // ----- The worklist

  datatype Item = Item(value: Text, depth: nat)

  /** What processing a queue entry may still cost: itself and up to four entries one level deeper. */
  function Weight(depth: nat): (w: nat)
    ensures w >= 1
    decreases if depth < MAX_DEPTH then MAX_DEPTH - depth else 0
  {
    if depth >= MAX_DEPTH then 1 else 1 + 4 * Weight(depth + 1)
  }

  /** The potential of the unprocessed part of the queue. */
  function Potential(queue: seq<Item>): nat {
    if queue == [] then 0 else Weight(queue[0].depth) + Potential(queue[1..])
  }

  lemma {:induction false} PotentialOfPushed(queue: seq<Item>, e: Item)
    ensures Potential(queue + [e]) == Potential(queue) + Weight(e.depth)
  {
    if queue == [] {
      assert [e][1..] == [];
    } else {
      assert (queue + [e])[1..] == queue[1..] + [e];
      PotentialOfPushed(queue[1..], e);
    }
  }

  /** Depths never fall along the queue, stay within the limit and count transforms from `x`. */
  ghost predicate QueueSound(t: Transforms, x: Text, queue: seq<Item>) {
    && queue != [] && queue[0] == Item(x, 0)
    && (forall i, j :: 0 <= i < j < |queue| ==> queue[i].depth <= queue[j].depth)
    && (forall i :: 0 <= i < |queue| ==> queue[i].depth <= MAX_DEPTH && queue[i].value in Within(t, x, queue[i].depth))
  }

  ghost predicate Holds(queue: seq<Item>, y: Text, depth: nat) {
    exists n :: 0 <= n < |queue| && queue[n].value == y && queue[n].depth <= depth
  }

  /** Everything one transform away from the first `n` entries is in the queue, or lay beyond the limit. */
  ghost predicate Expanded(t: Transforms, queue: seq<Item>, n: nat, exhausted: bool)
    requires n <= |queue|
  {
    forall m, y :: 0 <= m < n && y in CandidateSet(t, queue[m].value) ==> Met(queue, y, queue[m].depth, exhausted)
  }

  /** A candidate of an entry at `depth` is enqueued one level deeper at most, or lay beyond the limit. */
  ghost predicate Met(queue: seq<Item>, c: Text, depth: nat, exhausted: bool) {
    if depth < MAX_DEPTH then Holds(queue, c, depth + 1) else exhausted || Holds(queue, c, MAX_DEPTH)
  }

  /** An exhausted scan missed a text nine transforms away, and nothing is enqueued any more. */
  ghost predicate Missed(t: Transforms, x: Text, queue: seq<Item>, depth: nat) {
    depth >= MAX_DEPTH && exists c :: c in Within(t, x, MAX_DEPTH + 1) && !Holds(queue, c, MAX_DEPTH)
  }

  /** The views the first `n` entries contribute. */
  ghost function ViewsOf(t: Transforms, queue: seq<Item>, n: nat): set<Text>
    requires n <= |queue|
  {
    if n == 0 then {} else ViewsOf(t, queue, n - 1) + ViewsAt(t, queue[n - 1].value, 5)
  }

  /** The views the first `k` candidates of a text contribute. */
  ghost function ViewsAt(t: Transforms, w: Text, k: nat): set<Text>
    requires k <= 5
  {
    (set c | c in Candidates(t, w)[..k]) + (set c | c in Candidates(t, w)[..k] :: t.Compare(c))
  }

  lemma ViewsAtNext(t: Transforms, w: Text, k: nat)
    requires k < 5
    ensures ViewsAt(t, w, k + 1) == ViewsAt(t, w, k) + {Candidates(t, w)[k], t.Compare(Candidates(t, w)[k])}
  {
    hide Candidates;
    assert Candidates(t, w)[..k + 1] == Candidates(t, w)[..k] + [Candidates(t, w)[k]];
  }

  lemma {:induction false} ViewsOfPushed(t: Transforms, queue: seq<Item>, e: Item, n: nat)
    requires n <= |queue|
    ensures ViewsOf(t, queue + [e], n) == ViewsOf(t, queue, n)
    decreases n
  {
    hide ViewsAt;
    if n > 0 {
      ViewsOfPushed(t, queue, e, n - 1);
    }
  }

  lemma {:induction false} ViewsOfMembers(t: Transforms, queue: seq<Item>, n: nat, y: Text)
    requires n <= |queue|
    ensures y in ViewsOf(t, queue, n)
            <==> exists m :: 0 <= m < n && y in ViewsAt(t, queue[m].value, 5)
    decreases n
  {
    hide ViewsAt;
    if n > 0 {
      ViewsOfMembers(t, queue, n - 1, y);
    }
  }

  /** Breadth-first order: what `d` transforms reach is in the queue at depth `d` or less. */
  lemma {:induction false} LayersAreQueued(t: Transforms, x: Text, queue: seq<Item>, exhausted: bool, d: nat, y: Text)
    requires QueueSound(t, x, queue) && Expanded(t, queue, |queue|, exhausted)
    requires d <= MAX_DEPTH && y in Within(t, x, d)
    ensures Holds(queue, y, d)
    decreases d
  {
    hide Within, CandidateSet;
    if d == 0 {
      WithinStart(t, x);
      assert queue[0].value == y;
    } else {
      var w := WithinBack(t, x, d - 1, y);
      LayersAreQueued(t, x, queue, exhausted, d - 1, w);
      var n :| 0 <= n < |queue| && queue[n].value == w && queue[n].depth <= d - 1;
      assert y in CandidateSet(t, queue[n].value);
      assert Met(queue, y, queue[n].depth, exhausted);
      HoldsDeeper(queue, y, queue[n].depth + 1, d);
    }
  }

  lemma HoldsDeeper(queue: seq<Item>, y: Text, depth: nat, deeper: nat)
    requires Holds(queue, y, depth) && depth <= deeper
    ensures Holds(queue, y, deeper)
  {
    var n :| 0 <= n < |queue| && queue[n].value == y && queue[n].depth <= depth;
    assert queue[n].depth <= deeper;
  }

  lemma QueuedIsWithin(t: Transforms, x: Text, queue: seq<Item>, y: Text)
    requires QueueSound(t, x, queue) && Holds(queue, y, MAX_DEPTH)
    ensures y in Within(t, x, MAX_DEPTH)
  {
    hide Within;
    var n :| 0 <= n < |queue| && queue[n].value == y && queue[n].depth <= MAX_DEPTH;
    WithinGrows(t, x, queue[n].depth, MAX_DEPTH);
  }

  /** A finished scan has queued exactly what eight transforms reach. */
  lemma QueueIsWithin(t: Transforms, x: Text, queue: seq<Item>, exhausted: bool, y: Text)
    requires QueueSound(t, x, queue) && Expanded(t, queue, |queue|, exhausted)
    ensures Holds(queue, y, MAX_DEPTH) <==> y in Within(t, x, MAX_DEPTH)
  {
    hide Within, QueueSound, Expanded;
    if y in Within(t, x, MAX_DEPTH) {
      LayersAreQueued(t, x, queue, exhausted, MAX_DEPTH, y);
    }
    if Holds(queue, y, MAX_DEPTH) {
      QueuedIsWithin(t, x, queue, y);
    }
  }

  lemma FinishedExhaustion(t: Transforms, x: Text, queue: seq<Item>, exhausted: bool)
    requires QueueSound(t, x, queue) && Expanded(t, queue, |queue|, exhausted)
    requires exhausted ==> Missed(t, x, queue, MAX_DEPTH)
    ensures exhausted <==> Exhausts(t, x)
  {
    hide Within, CandidateSet, QueueSound;
    if exhausted {
      var c :| c in Within(t, x, MAX_DEPTH + 1) && !Holds(queue, c, MAX_DEPTH);
      QueueIsWithin(t, x, queue, exhausted, c);
    } else {
      forall y | y in Within(t, x, MAX_DEPTH + 1) ensures y in Within(t, x, MAX_DEPTH) {
        var w := WithinBack(t, x, MAX_DEPTH, y);
        QueueIsWithin(t, x, queue, exhausted, w);
        var n :| 0 <= n < |queue| && queue[n].value == w && queue[n].depth <= MAX_DEPTH;
        assert y in CandidateSet(t, queue[n].value);
        QueueIsWithin(t, x, queue, exhausted, y);
      }
      WithinGrows(t, x, MAX_DEPTH, MAX_DEPTH + 1);
    }
  }

  lemma CandidateViews(t: Transforms, w: Text, y: Text)
    ensures y in ViewsAt(t, w, 5) <==> exists c :: c in CandidateSet(t, w) && (y == c || y == t.Compare(c))
  {
    assert Candidates(t, w)[..5] == Candidates(t, w);
  }

  lemma FinishedViews(t: Transforms, x: Text, queue: seq<Item>, exhausted: bool)
    requires QueueSound(t, x, queue) && Expanded(t, queue, |queue|, exhausted)
    ensures ViewsOf(t, queue, |queue|) == Views(t, x)
  {
    hide Within, Expanded, CandidateSet, ViewsAt, ViewsOf, QueueSound;
    forall y ensures y in ViewsOf(t, queue, |queue|) <==> y in Views(t, x) {
      ViewsOfMembers(t, queue, |queue|, y);
      if y in ViewsOf(t, queue, |queue|) {
        ScannedIsView(t, x, queue, exhausted, y);
      }
      if y in Views(t, x) {
        ViewIsScanned(t, x, queue, exhausted, y);
      }
    }
  }

  lemma ScannedIsView(t: Transforms, x: Text, queue: seq<Item>, exhausted: bool, y: Text)
    requires QueueSound(t, x, queue) && Expanded(t, queue, |queue|, exhausted)
    requires exists m :: 0 <= m < |queue| && y in ViewsAt(t, queue[m].value, 5)
    ensures y in Views(t, x)
  {
    hide Within, Expanded, CandidateSet, ViewsAt;
    var m :| 0 <= m < |queue| && y in ViewsAt(t, queue[m].value, 5);
    var w := queue[m].value;
    CandidateViews(t, w, y);
    assert Holds(queue, w, MAX_DEPTH);
    QueueIsWithin(t, x, queue, exhausted, w);
    var c :| c in CandidateSet(t, w) && (y == c || y == t.Compare(c));
    WithinStep(t, x, MAX_DEPTH, w, c);
  }

  lemma ViewIsScanned(t: Transforms, x: Text, queue: seq<Item>, exhausted: bool, y: Text)
    requires QueueSound(t, x, queue) && Expanded(t, queue, |queue|, exhausted)
    requires y in Views(t, x)
    ensures exists m :: 0 <= m < |queue| && y in ViewsAt(t, queue[m].value, 5)
  {
    hide Within, Expanded, CandidateSet, ViewsAt, QueueSound;
    var c := y;
    if y !in Within(t, x, MAX_DEPTH + 1) {
      c :| c in Within(t, x, MAX_DEPTH + 1) && y == t.Compare(c);
    }
    var w := WithinBack(t, x, MAX_DEPTH, c);
    QueueIsWithin(t, x, queue, exhausted, w);
    var m :| 0 <= m < |queue| && queue[m].value == w && queue[m].depth <= MAX_DEPTH;
    CandidateViews(t, queue[m].value, y);
  }

  lemma ScanStarts(t: Transforms, x: Text)
    ensures var queue := [Item(x, 0)];
            QueueSound(t, x, queue) && Expanded(t, queue, 0, false) && ViewsOf(t, queue, 0) == {}
  {
  }

  lemma MissedAtLimit(t: Transforms, x: Text, queue: seq<Item>, i: nat)
    requires QueueSound(t, x, queue) && i < |queue| && Missed(t, x, queue, queue[i].depth)
    ensures Missed(t, x, queue, MAX_DEPTH)
  {
    hide Within, Holds;
  }

  // ----- One turn of the worklist

  /** What holds while the candidates of the entry at `index` are tried, `k` of them so far. */
  ghost predicate Turning(t: Transforms, x: Text, index: nat, k: nat, queue0: seq<Item>, queue: seq<Item>, exhausted: bool) {
    && index < |queue0| && queue0 <= queue && QueueSound(t, x, queue) && k <= 5
    && (forall i :: 0 <= i < |queue| ==> queue[i].depth <= queue[index].depth + 1)
    && Expanded(t, queue, index, exhausted)
    && (forall j :: 0 <= j < k ==> Met(queue, Candidates(t, queue[index].value)[j], queue[index].depth, exhausted))
    && (exhausted ==> Missed(t, x, queue, if k == 0 && index > 0 then queue[index - 1].depth else queue[index].depth))
  }

  lemma HoldsPushed(queue: seq<Item>, e: Item, y: Text, depth: nat)
    ensures Holds(queue, y, depth) ==> Holds(queue + [e], y, depth)
    ensures e.value == y && e.depth <= depth ==> Holds(queue + [e], y, depth)
    ensures Holds(queue + [e], y, depth) ==> Holds(queue, y, depth) || e.value == y
  {
    var longer := queue + [e];
    if Holds(queue, y, depth) {
      var n :| 0 <= n < |queue| && queue[n].value == y && queue[n].depth <= depth;
      assert longer[n] == queue[n];
    }
    assert longer[|queue|] == e;
  }

  lemma ExpandedPushed(t: Transforms, queue: seq<Item>, e: Item, n: nat, exhausted: bool)
    requires n <= |queue| && Expanded(t, queue, n, exhausted)
    ensures Expanded(t, queue + [e], n, exhausted)
  {
    hide Holds, CandidateSet;
    forall m, y | 0 <= m < n && y in CandidateSet(t, (queue + [e])[m].value)
      ensures Met(queue + [e], y, (queue + [e])[m].depth, exhausted)
    {
      assert (queue + [e])[m] == queue[m];
      HoldsPushed(queue, e, y, queue[m].depth + 1);
      HoldsPushed(queue, e, y, MAX_DEPTH);
    }
  }

  lemma TurnPushes(t: Transforms, x: Text, index: nat, k: nat, queue0: seq<Item>, queue: seq<Item>)
    requires Turning(t, x, index, k, queue0, queue, false) && k < 5 && queue[index].depth < MAX_DEPTH
    ensures var c := Candidates(t, queue[index].value)[k];
            Turning(t, x, index, k + 1, queue0, queue + [Item(c, queue[index].depth + 1)], false)
  {
    hide Within, CandidateSet, Candidates, Holds;
    var w, depth := queue[index].value, queue[index].depth;
    var c := Candidates(t, w)[k];
    var e := Item(c, depth + 1);
    CandidateIsWithin(t, x, w, depth, k);
    ExpandedPushed(t, queue, e, index, false);
    forall j | 0 <= j < k + 1 ensures Met(queue + [e], Candidates(t, w)[j], depth, false) {
      HoldsPushed(queue, e, Candidates(t, w)[j], depth + 1);
    }
  }

  lemma CandidateIsWithin(t: Transforms, x: Text, w: Text, depth: nat, k: nat)
    requires k < 5 && w in Within(t, x, depth)
    ensures Candidates(t, w)[k] in Within(t, x, depth + 1)
  {
    hide Within, Candidates;
    WithinStep(t, x, depth, w, Candidates(t, w)[k]);
  }

  /** A candidate that is already enqueued, or is the entry itself. */
  lemma TurnSkips(t: Transforms, x: Text, index: nat, k: nat, queue0: seq<Item>, queue: seq<Item>, exhausted: bool)
    requires Turning(t, x, index, k, queue0, queue, exhausted) && k < 5
    requires exists e :: e in queue && e.value == Candidates(t, queue[index].value)[k]
    ensures Turning(t, x, index, k + 1, queue0, queue, exhausted)
  {
    hide Within, CandidateSet, Candidates;
    var e :| e in queue && e.value == Candidates(t, queue[index].value)[k];
    var n :| 0 <= n < |queue| && queue[n] == e;
    assert Met(queue, e.value, queue[index].depth, exhausted);
  }

  /** A new candidate beyond the limit. */
  lemma TurnExhausts(t: Transforms, x: Text, index: nat, k: nat, queue0: seq<Item>, queue: seq<Item>, exhausted: bool)
    requires Turning(t, x, index, k, queue0, queue, exhausted) && k < 5 && queue[index].depth >= MAX_DEPTH
    requires forall e :: e in queue ==> e.value != Candidates(t, queue[index].value)[k]
    ensures Turning(t, x, index, k + 1, queue0, queue, true)
  {
    hide Within, CandidateSet, Candidates;
    var c := Candidates(t, queue[index].value)[k];
    CandidateIsWithin(t, x, queue[index].value, queue[index].depth, k);
    assert c in Within(t, x, MAX_DEPTH + 1) && !Holds(queue, c, MAX_DEPTH);
    forall j | 0 <= j < k + 1 ensures Met(queue, Candidates(t, queue[index].value)[j], queue[index].depth, true) {
    }
  }

  lemma CandidateHasIndex(t: Transforms, w: Text, y: Text) returns (j: nat)
    requires y in CandidateSet(t, w)
    ensures j < 5 && Candidates(t, w)[j] == y
  {
    hide Candidates;
    j :| 0 <= j < 5 && Candidates(t, w)[j] == y;
  }

  lemma TurnStarts(t: Transforms, x: Text, index: nat, queue: seq<Item>, exhausted: bool)
    requires index < |queue| && QueueSound(t, x, queue)
    requires forall i :: 0 <= i < |queue| ==> queue[i].depth <= queue[index].depth + 1
    requires Expanded(t, queue, index, exhausted)
    requires exhausted ==> index > 0 && Missed(t, x, queue, queue[index - 1].depth)
    ensures Turning(t, x, index, 0, queue, queue, exhausted) && (exhausted ==> queue[index].depth >= MAX_DEPTH)
  {
    hide Within, Holds, Candidates, CandidateSet;
  }

  lemma TurnEnds(t: Transforms, x: Text, index: nat, queue0: seq<Item>, queue: seq<Item>, exhausted: bool)
    requires Turning(t, x, index, 5, queue0, queue, exhausted)
    ensures Expanded(t, queue, index + 1, exhausted) && QueueSound(t, x, queue)
    ensures forall i :: 0 <= i < |queue| && index + 1 < |queue| ==> queue[i].depth <= queue[index + 1].depth + 1
    ensures exhausted ==> Missed(t, x, queue, queue[index].depth)
  {
    hide Within, Holds, Candidates, CandidateSet, Missed;
    forall m, y | 0 <= m < index + 1 && y in CandidateSet(t, queue[m].value) ensures Met(queue, y, queue[m].depth, exhausted) {
      if m == index {
        var j := CandidateHasIndex(t, queue[m].value, y);
      }
    }
  }

  /** Pushing a candidate spends part of its parent's weight. */
  lemma PushedPotential(queue: seq<Item>, e: Item, n: nat)
    requires n <= |queue|
    ensures Potential((queue + [e])[n..]) == Potential(queue[n..]) + Weight(e.depth)
  {
    hide Potential, Weight;
    PotentialOfPushed(queue[n..], e);
    assert (queue + [e])[n..] == queue[n..] + [e];
  }

  lemma PotentialOfTail(queue: seq<Item>, index: nat)
    requires index < |queue|
    ensures Potential(queue[index..]) == Weight(queue[index].depth) + Potential(queue[index + 1..])
  {
    hide Weight;
    assert queue[index..][1..] == queue[index + 1..];
  }

  lemma ValuesPushed(queue: seq<Item>, e: Item)
    ensures (set d | d in queue + [e] :: d.value) == (set d | d in queue :: d.value) + {e.value}
  {
  }

  lemma ViewsOfNext(t: Transforms, queue: seq<Item>, index: nat)
    requires index < |queue|
    ensures ViewsOf(t, queue, index + 1) == ViewsOf(t, queue, index) + ViewsAt(t, queue[index].value, 5)
    ensures ViewsAt(t, queue[index].value, 0) == {}
  {
  }

  /** Every candidate of the entry at `index` is viewed, and enqueued if it is new and within the limit. */
  method ExpandEntry(t: Transforms, x: Text, index: nat, views0: set<Text>, enqueued0: set<Text>, queue0: seq<Item>, exhausted0: bool)
    returns (views: set<Text>, enqueued: set<Text>, queue: seq<Item>, exhausted: bool)
    requires index < |queue0| && QueueSound(t, x, queue0)
    requires forall i :: 0 <= i < |queue0| ==> queue0[i].depth <= queue0[index].depth + 1
    requires enqueued0 == set e | e in queue0 :: e.value
    requires Expanded(t, queue0, index, exhausted0)
    requires exhausted0 ==> index > 0 && Missed(t, x, queue0, queue0[index - 1].depth)
    requires views0 == ViewsOf(t, queue0, index)
    ensures queue0 <= queue && QueueSound(t, x, queue)
    ensures forall i :: 0 <= i < |queue| && index + 1 < |queue| ==> queue[i].depth <= queue[index + 1].depth + 1
    ensures enqueued == set e | e in queue :: e.value
    ensures Expanded(t, queue, index + 1, exhausted)
    ensures exhausted ==> Missed(t, x, queue, queue[index].depth)
    ensures views == ViewsOf(t, queue, index + 1)
    ensures Potential(queue[index + 1..]) < Potential(queue0[index..])
  {
    hide Within, CandidateSet, Candidates, Expanded, Missed, Holds, Weight, QueueSound, Turning, Potential, ViewsOf, ViewsAt;
    views, enqueued, queue, exhausted := views0, enqueued0, queue0, exhausted0;
    var current := queue0[index];
    var candidates := Candidates(t, current.value);
    TurnStarts(t, x, index, queue0, exhausted0);
    ViewsOfNext(t, queue0, index);
    for k := 0 to 5
      invariant Turning(t, x, index, k, queue0, queue, exhausted) && queue0 <= queue && queue[index] == current
      invariant enqueued == set e | e in queue :: e.value
      invariant views == ViewsOf(t, queue, index) + ViewsAt(t, current.value, k)
      invariant current.depth < MAX_DEPTH ==> !exhausted
      invariant current.depth >= MAX_DEPTH ==> queue == queue0
      invariant Potential(queue[index + 1..])
                <= Potential(queue0[index + 1..]) + (if k == 0 then 0 else k - 1) * Weight(current.depth + 1)
    {
      var candidate := candidates[k];
      ViewsAtNext(t, current.value, k);
      views := views + {candidate, t.Compare(candidate)};
      if candidate == current.value || candidate in enqueued {
        assert queue[index] in queue;
        TurnSkips(t, x, index, k, queue0, queue, exhausted);
      } else if current.depth >= MAX_DEPTH {
        TurnExhausts(t, x, index, k, queue0, queue, exhausted);
        exhausted := true;
      } else {
        var entry := Item(candidate, current.depth + 1);
        TurnPushes(t, x, index, k, queue0, queue);
        ViewsOfPushed(t, queue, entry, index);
        PushedPotential(queue, entry, index + 1);
        ValuesPushed(queue, entry);
        enqueued := enqueued + {candidate};
        queue := queue + [entry];
      }
    }
    TurnEnds(t, x, index, queue0, queue, exhausted);
    WeightPaysForChildren(current.depth);
    PotentialOfTail(queue0, index);
    ViewsOfNext(t, queue, index);
  }

  lemma WeightPaysForChildren(depth: nat)
    ensures Weight(depth) >= 1 && (depth < MAX_DEPTH ==> Weight(depth) > 4 * Weight(depth + 1))
  {
  }
}
