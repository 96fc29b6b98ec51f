/** The closure of a text told from the transforms themselves: which chains of them the scan follows, and how far. */
module EgressClosure {
  import opened Texts
  import opened EgressPaths
  import opened EgressScan

  /** One step of the scan: normalisation, escape decoding, both, or path comparison of the normalised text. */
  datatype Transform = Normalize | Decode | DecodeNormalized | ComparePath

  function Applied(t: Transforms, step: Transform, x: Text): Text {
    match step
    case Normalize => t.nfkc(x)
    case Decode => t.decode(x)
    case DecodeNormalized => t.decode(t.nfkc(x))
    case ComparePath => PathView(t.nfkc(x))
  }

  /** What a chain of transforms, the first one first, turns a text into. */
  function ChainOf(t: Transforms, chain: seq<Transform>, x: Text): Text {
    if chain == [] then x else Applied(t, chain[|chain| - 1], ChainOf(t, chain[..|chain| - 1], x))
  }

  /** Whatever any transform makes of a member is a member. */
  ghost predicate KeptByTransforms(t: Transforms, texts: set<Text>) {
    forall w :: w in texts ==>
      t.nfkc(w) in texts && t.decode(w) in texts && t.decode(t.nfkc(w)) in texts && PathView(t.nfkc(w)) in texts
  }

  lemma CandidatesAreTransforms(t: Transforms, w: Text, y: Text)
    ensures y in CandidateSet(t, w) <==> y == w || exists step :: y == Applied(t, step, w)
  {
    hide PathView;
    var c := Candidates(t, w);
    assert c[1] == Applied(t, Normalize, w) && c[2] == Applied(t, Decode, w) && c[3] == Applied(t, DecodeNormalized, w)
           && c[4] == Applied(t, ComparePath, w);
  }

  lemma ClosedIffKept(t: Transforms, texts: set<Text>)
    ensures Closed(t, texts) <==> KeptByTransforms(t, texts)
  {
    hide CandidateSet, PathView, Applied;
    forall w, y | w in texts ensures y in CandidateSet(t, w) <==> y == w || exists step :: y == Applied(t, step, w) {
      CandidatesAreTransforms(t, w, y);
    }
    if Closed(t, texts) {
      forall w, step | w in texts ensures Applied(t, step, w) in texts {
        assert Applied(t, step, w) in CandidateSet(t, w);
      }
      AppliedIsKept(t, texts);
    }
    if KeptByTransforms(t, texts) {
      AppliedIsKept(t, texts);
    }
  }

  lemma AppliedIsKept(t: Transforms, texts: set<Text>)
    ensures KeptByTransforms(t, texts) <==> forall w, step :: w in texts ==> Applied(t, step, w) in texts
  {
    hide PathView;
    forall w | w in texts && forall step :: Applied(t, step, w) in texts
      ensures t.nfkc(w) in texts && t.decode(w) in texts && t.decode(t.nfkc(w)) in texts && PathView(t.nfkc(w)) in texts
    {
      assert Applied(t, Normalize, w) in texts && Applied(t, Decode, w) in texts && Applied(t, DecodeNormalized, w) in texts
             && Applied(t, ComparePath, w) in texts;
    }
  }

  lemma {:induction false} ChainIsWithin(t: Transforms, x: Text, chain: seq<Transform>, steps: nat)
    requires |chain| <= steps
    ensures ChainOf(t, chain, x) in Within(t, x, steps)
    decreases |chain|
  {
    hide Within, CandidateSet, Applied;
    if chain == [] {
      WithinStart(t, x);
      WithinGrows(t, x, 0, steps);
    } else {
      var before := ChainOf(t, chain[..|chain| - 1], x);
      ChainIsWithin(t, x, chain[..|chain| - 1], steps - 1);
      CandidatesAreTransforms(t, before, ChainOf(t, chain, x));
      WithinStep(t, x, steps - 1, before, ChainOf(t, chain, x));
    }
  }

  lemma {:induction false} WithinIsChain(t: Transforms, x: Text, steps: nat, y: Text) returns (chain: seq<Transform>)
    requires y in Within(t, x, steps)
    ensures |chain| <= steps && ChainOf(t, chain, x) == y
    decreases steps
  {
    hide Within, CandidateSet, Applied;
    if steps == 0 {
      WithinStart(t, x);
      chain := [];
    } else {
      var w := WithinBack(t, x, steps - 1, y);
      chain := WithinIsChain(t, x, steps - 1, w);
      CandidatesAreTransforms(t, w, y);
      if y != w {
        var step :| y == Applied(t, step, w);
        assert (chain + [step])[..|chain|] == chain;
        chain := chain + [step];
      }
    }
  }

  /** Some chain of at most `steps` transforms turns `x` into `y`. */
  ghost predicate ChainLeads(t: Transforms, x: Text, y: Text, steps: nat) {
    exists chain: seq<Transform> :: |chain| <= steps && ChainOf(t, chain, x) == y
  }

  /** Some chain of transforms, however long, turns `x` into `y`. */
  ghost predicate ChainMakes(t: Transforms, x: Text, y: Text) {
    exists chain: seq<Transform> :: ChainOf(t, chain, x) == y
  }

  /** The texts within `steps` of a text are what chains of at most that many transforms make of it. */
  lemma WithinIsChains(t: Transforms, x: Text, steps: nat, y: Text)
    ensures y in Within(t, x, steps) <==> ChainLeads(t, x, y, steps)
  {
    hide Within, ChainOf;
    if y in Within(t, x, steps) {
      var _ := WithinIsChain(t, x, steps, y);
    }
    if chain: seq<Transform> :| |chain| <= steps && ChainOf(t, chain, x) == y {
      ChainIsWithin(t, x, chain, steps);
    }
  }

  /** The views of a text: what chains of at most nine transforms make of it, and the path view of each such text. */
  lemma ViewsAreChains(t: Transforms, x: Text, y: Text)
    ensures y in Views(t, x)
            <==> ChainLeads(t, x, y, 9) || exists w :: ChainLeads(t, x, w, 9) && y == PathView(t.nfkc(w))
  {
    hide Within, ChainLeads, PathView;
    var reached := Within(t, x, MAX_DEPTH + 1);
    forall w ensures w in reached <==> ChainLeads(t, x, w, 9) {
      WithinIsChains(t, x, 9, w);
    }
    assert Views(t, x) == reached + set w | w in reached :: t.Compare(w);
  }

  /** A scan is exhausted exactly when some chain leads to a text that no chain of at most eight transforms reaches. */
  lemma ExhaustedMeansLongChain(t: Transforms, x: Text)
    ensures Exhausts(t, x) <==> exists chain: seq<Transform> :: !ChainLeads(t, x, ChainOf(t, chain, x), 8)
  {
    hide Within, Exhausts, ChainLeads, ChainOf, Reachable;
    ExhaustedMeansFar(t, x);
    if Exhausts(t, x) {
      var y :| Reachable(t, x, y) && y !in Within(t, x, MAX_DEPTH);
      var chain := ReachableByChain(t, x, y);
      WithinIsChains(t, x, 8, y);
    }
    if chain: seq<Transform> :| !ChainLeads(t, x, ChainOf(t, chain, x), 8) {
      ChainReaches(t, x, chain);
      WithinIsChains(t, x, 8, ChainOf(t, chain, x));
    }
  }

  lemma ReachableByChain(t: Transforms, x: Text, y: Text) returns (chain: seq<Transform>)
    requires Reachable(t, x, y)
    ensures ChainOf(t, chain, x) == y
  {
    hide Within, ChainOf;
    var steps: nat :| y in Within(t, x, steps);
    chain := WithinIsChain(t, x, steps, y);
  }

  lemma ChainReaches(t: Transforms, x: Text, chain: seq<Transform>)
    ensures Reachable(t, x, ChainOf(t, chain, x))
  {
    hide Within, ChainOf;
    ChainIsWithin(t, x, chain, |chain|);
  }

  /**
   * An unexhausted scan returns exactly what chains of transforms of any length make of its text: the least set that
   * holds the text, and with every member its normalisation, its decoding, the decoding of its normalisation and the
   * path view of its normalisation.
   */
  lemma UnexhaustedViewsAreLeastKept(t: Transforms, x: Text, texts: set<Text>)
    requires !Exhausts(t, x)
    ensures x in Views(t, x) && KeptByTransforms(t, Views(t, x))
    ensures forall y :: y in Views(t, x) <==> ChainMakes(t, x, y)
    ensures x in texts && KeptByTransforms(t, texts) ==> Views(t, x) <= texts
  {
    hide Exhausts, Views, Closed, KeptByTransforms, ChainOf, Reachable;
    UnexhaustedViewsAreLeastClosed(t, x, texts);
    ClosedIffKept(t, Views(t, x));
    ClosedIffKept(t, texts);
    forall y ensures y in Views(t, x) <==> ChainMakes(t, x, y) {
      if y in Views(t, x) {
        var _ := ReachableByChain(t, x, y);
      }
      if chain: seq<Transform> :| ChainOf(t, chain, x) == y {
        ChainReaches(t, x, chain);
      }
    }
  }

  // ----- The scan

  /** `scanViews` */
  method ScanViews(t: Transforms, x: Text) returns (views: set<Text>, exhausted: bool)
    ensures views == Views(t, x)
    ensures exhausted <==> Exhausts(t, x)
    ensures forall y :: y in views <==> ChainLeads(t, x, y, 9) || exists w :: ChainLeads(t, x, w, 9) && y == PathView(t.nfkc(w))
    ensures exhausted <==> exists chain: seq<Transform> :: !ChainLeads(t, x, ChainOf(t, chain, x), 8)
  {
    hide PathView, ChainLeads, ChainOf, Within, Candidates, CandidateSet, Views, Exhausts, QueueSound, Expanded, Missed, ViewsOf, Potential;
    views, exhausted := {}, false;
    var enqueued := {x};
    var queue := [Item(x, 0)];
    ScanStarts(t, x);
    var index := 0;
    while index < |queue|
      invariant 0 <= index <= |queue|
      invariant QueueSound(t, x, queue)
      invariant forall i :: 0 <= i < |queue| && index < |queue| ==> queue[i].depth <= queue[index].depth + 1
      invariant enqueued == set e | e in queue :: e.value
      invariant Expanded(t, queue, index, exhausted)
      invariant exhausted ==> index > 0 && Missed(t, x, queue, queue[index - 1].depth)
      invariant views == ViewsOf(t, queue, index)
      decreases Potential(queue[index..])
    {
      views, enqueued, queue, exhausted := ExpandEntry(t, x, index, views, enqueued, queue, exhausted);
      index := index + 1;
    }
    FinishedViews(t, x, queue, exhausted);
    if exhausted {
      MissedAtLimit(t, x, queue, index - 1);
    }
    FinishedExhaustion(t, x, queue, exhausted);
    forall y
      ensures y in Views(t, x) <==> ChainLeads(t, x, y, 9) || exists w :: ChainLeads(t, x, w, 9) && y == PathView(t.nfkc(w))
    {
      ViewsAreChains(t, x, y);
    }
    ExhaustedMeansLongChain(t, x);
  }
}
