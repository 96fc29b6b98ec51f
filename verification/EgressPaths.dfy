/** The comparison view of a path: one spelling for every way of writing the same walk. */
module EgressPaths {
  import opened Texts

  const SLASH: CodeUnit := 0x2F
  const BACKSLASH: CodeUnit := 0x5C
  const DOT: CodeUnit := 0x2E

  // ----- The spelling

  function Forward(x: Text): (y: Text)
    ensures |y| == |x|
    ensures forall i :: 0 <= i < |y| ==> y[i] == if x[i] == BACKSLASH then SLASH else x[i]
  {
    seq(|x|, i requires 0 <= i < |x| => if x[i] == BACKSLASH then SLASH else x[i])
  }

  /** Every run of slashes becomes one slash. */
  function Collapse(x: Text): Text {
    if x == [] then []
    else if |x| >= 2 && x[0] == SLASH && x[1] == SLASH then Collapse(x[1..])
    else [x[0]] + Collapse(x[1..])
  }

  function Split(x: Text): (segments: seq<Text>)
    ensures segments != []
  {
    if x == [] then [[]]
    else if x[0] == SLASH then [[]] + Split(x[1..])
    else
      var rest := Split(x[1..]);
      [[x[0]] + rest[0]] + rest[1..]
  }

  function Join(segments: seq<Text>): Text {
    if segments == [] then []
    else if |segments| == 1 then segments[0]
    else segments[0] + [SLASH] + Join(segments[1..])
  }

  /** The segments of an empty text. */
  const BLANK: seq<Text> := [[]]

  predicate IsAbsolute(x: Text) {
    x != [] && x[0] == SLASH
  }

  predicate IsSkipped(segment: Text) {
    segment == [] || segment == [DOT]
  }

  predicate IsParent(segment: Text) {
    segment == [DOT, DOT]
  }

  /** One turn of the segment stack. */
  function Push(absolute: bool, stack: seq<Text>, segment: Text): seq<Text> {
    if IsSkipped(segment) then stack
    else if IsParent(segment) then
      if stack != [] && !IsParent(stack[|stack| - 1]) then stack[..|stack| - 1]
      else if !absolute then stack + [segment]
      else stack
    else stack + [segment]
  }

  function PushAll(absolute: bool, stack: seq<Text>, segments: seq<Text>): seq<Text> {
    if segments == [] then stack
    else Push(absolute, PushAll(absolute, stack, segments[..|segments| - 1]), segments[|segments| - 1])
  }

  /** `comparisonView` after normalisation to NFKC. */
  function PathView(x: Text): Text {
    var normalized := Collapse(Forward(x));
    (if IsAbsolute(normalized) then [SLASH] else []) + Join(PushAll(IsAbsolute(normalized), [], Split(normalized)))
  }

  lemma ViewOf(x: Text)
    ensures var normalized := Collapse(Forward(x));
            PathView(x) == (if IsAbsolute(normalized) then [SLASH] else [])
                           + Join(PushAll(IsAbsolute(normalized), [], Split(normalized)))
  {
  }

  method ComparisonView(nfkc: Text -> Text, value: Text) returns (view: Text)
    ensures view == PathView(nfkc(value))
  {
    ViewOf(nfkc(value));
    var normalized := Collapse(Forward(nfkc(value)));
    var absolute := IsAbsolute(normalized);
    var parts := Split(normalized);
    var segments: seq<Text> := [];
    hide Collapse, Forward, Split, Join, PathView;
    for i := 0 to |parts|
      invariant segments == PushAll(absolute, [], parts[..i])
    {
      assert parts[..i + 1][..i] == parts[..i];
      if parts[i] == [] || parts[i] == [DOT] {
        continue;
      }
      if parts[i] == [DOT, DOT] {
        if |segments| > 0 && segments[|segments| - 1] != [DOT, DOT] {
          segments := segments[..|segments| - 1];
        } else if !absolute {
          segments := segments + [parts[i]];
        }
        continue;
      }
      segments := segments + [parts[i]];
    }
    assert parts[..|parts|] == parts;
    view := (if absolute then [SLASH] else []) + Join(segments);
  }

  // ----- What a path means: a walk from a directory

  /** Entering one segment from a directory, given by its names from the root. The root is its own parent. */
  function Enter(directory: seq<Text>, segment: Text): seq<Text> {
    if segment == [] || segment == Ascii(".") then directory
    else if segment == Ascii("..") then (if directory == [] then [] else directory[..|directory| - 1])
    else directory + [segment]
  }

  lemma EnteredSegments(segment: Text)
    ensures IsSkipped(segment) <==> segment == [] || segment == Ascii(".")
    ensures IsParent(segment) <==> segment == Ascii("..")
  {
    assert Ascii(".") == [DOT] && Ascii("..") == [DOT, DOT];
  }

  function Walk(directory: seq<Text>, segments: seq<Text>): seq<Text>
    decreases |segments|
  {
    if segments == [] then directory else Walk(Enter(directory, segments[0]), segments[1..])
  }

  /** Where a path with forward slashes leads from `base`. */
  function Leads(base: seq<Text>, x: Text): seq<Text> {
    Walk(if IsAbsolute(x) then [] else base, Split(x))
  }

  lemma {:induction false} WalkAppends(directory: seq<Text>, a: seq<Text>, b: seq<Text>)
    ensures Walk(directory, a + b) == Walk(Walk(directory, a), b)
    decreases |a|
  {
    if a == [] {
      assert a + b == b;
    } else {
      assert (a + b)[1..] == a[1..] + b;
      WalkAppends(Enter(directory, a[0]), a[1..], b);
    }
  }

  lemma WalkOne(directory: seq<Text>, stack: seq<Text>, segment: Text)
    ensures Walk(directory, stack + [segment]) == Enter(Walk(directory, stack), segment)
  {
    WalkAppends(directory, stack, [segment]);
    assert Walk(Walk(directory, stack), [segment]) == Walk(Enter(Walk(directory, stack), segment), []) by {
      assert [segment][1..] == [];
    }
  }

  /** A stack the loop can reach: names, after leading parents if the path is relative. */
  predicate Canonical(absolute: bool, stack: seq<Text>) {
    && (forall i :: 0 <= i < |stack| ==> !IsSkipped(stack[i]) && (IsParent(stack[i]) ==> !absolute))
    && (forall i, j :: 0 <= i < j < |stack| && IsParent(stack[j]) ==> IsParent(stack[i]))
  }

  lemma CanonicalPrefix(absolute: bool, stack: seq<Text>, n: nat)
    requires Canonical(absolute, stack) && n <= |stack|
    ensures Canonical(absolute, stack[..n])
  {
    assert forall i :: 0 <= i < n ==> stack[..n][i] == stack[i];
  }

  lemma CanonicalPushed(absolute: bool, stack: seq<Text>, segment: Text)
    requires Canonical(absolute, stack) && !IsSkipped(segment)
    requires IsParent(segment) ==> !absolute && (stack != [] ==> IsParent(stack[|stack| - 1]))
    ensures Canonical(absolute, stack + [segment])
  {
    var longer := stack + [segment];
    assert longer[|stack|] == segment && forall i :: 0 <= i < |stack| ==> longer[i] == stack[i];
  }

  /** Pushing a segment is walking it. */
  lemma PushWalks(directory: seq<Text>, absolute: bool, stack: seq<Text>, segment: Text)
    requires Canonical(absolute, stack) && (absolute ==> directory == [])
    ensures Canonical(absolute, Push(absolute, stack, segment))
    ensures Walk(directory, Push(absolute, stack, segment)) == Enter(Walk(directory, stack), segment)
  {
    hide Walk, Canonical;
    WalkOne(directory, stack, segment);
    if IsSkipped(segment) {
    } else if IsParent(segment) && stack != [] && !IsParent(stack[|stack| - 1]) {
      var last := stack[|stack| - 1];
      CanonicalPrefix(absolute, stack, |stack| - 1);
      CanonicalHas(absolute, stack, |stack| - 1);
      assert stack == stack[..|stack| - 1] + [last];
      WalkOne(directory, stack[..|stack| - 1], last);
    } else if IsParent(segment) && absolute {
      if stack != [] {
        CanonicalHas(absolute, stack, |stack| - 1);
      }
      WalkNothing(directory);
    } else {
      CanonicalPushed(absolute, stack, segment);
    }
  }

  lemma WalkNothing(directory: seq<Text>)
    ensures Walk(directory, []) == directory
  {
  }

  lemma CanonicalHas(absolute: bool, stack: seq<Text>, i: nat)
    requires Canonical(absolute, stack) && i < |stack|
    ensures !IsSkipped(stack[i]) && (absolute ==> !IsParent(stack[i])) && (i > 0 && IsParent(stack[i]) ==> IsParent(stack[i - 1]))
  {
  }

  lemma {:induction false} PushAllWalks(directory: seq<Text>, absolute: bool, segments: seq<Text>)
    requires absolute ==> directory == []
    ensures Canonical(absolute, PushAll(absolute, [], segments))
    ensures Walk(directory, PushAll(absolute, [], segments)) == Walk(directory, segments)
  {
    if segments != [] {
      var shorter, last := segments[..|segments| - 1], segments[|segments| - 1];
      PushAllWalks(directory, absolute, shorter);
      PushWalks(directory, absolute, PushAll(absolute, [], shorter), last);
      assert segments == shorter + [last];
      WalkOne(directory, shorter, last);
    }
  }

  // ----- Splitting and joining

  predicate SlashFree(segment: Text) {
    forall i :: 0 <= i < |segment| ==> segment[i] != SLASH
  }

  lemma {:induction false} SplitIsSlashFree(x: Text)
    ensures forall s :: s in Split(x) ==> SlashFree(s)
  {
    if x != [] {
      SplitIsSlashFree(x[1..]);
      assert Split(x[1..])[0] in Split(x[1..]);
    }
  }

  lemma {:induction false} SplitOfSlashFree(segment: Text)
    requires SlashFree(segment)
    ensures Split(segment) == [segment]
  {
    if segment != [] {
      SplitOfSlashFree(segment[1..]);
      assert [segment[0]] + segment[1..] == segment;
    }
  }

  lemma {:induction false} SplitAtSlash(segment: Text, rest: Text)
    requires SlashFree(segment)
    ensures Split(segment + [SLASH] + rest) == [segment] + Split(rest)
  {
    if segment == [] {
      assert segment + [SLASH] + rest == [SLASH] + rest && ([SLASH] + rest)[1..] == rest;
    } else {
      SplitAtSlash(segment[1..], rest);
      assert (segment + [SLASH] + rest)[1..] == segment[1..] + [SLASH] + rest;
      assert [segment[0]] + segment[1..] == segment;
    }
  }

  /** Joining and splitting again gives back the segments. */
  lemma {:induction false} SplitOfJoin(segments: seq<Text>)
    requires segments != [] && forall s :: s in segments ==> SlashFree(s)
    ensures Split(Join(segments)) == segments
  {
    if |segments| == 1 {
      SplitOfSlashFree(segments[0]);
    } else {
      SplitOfJoin(segments[1..]);
      SplitAtSlash(segments[0], Join(segments[1..]));
    }
  }

  lemma {:induction false} StackComesFromSegments(absolute: bool, segments: seq<Text>)
    ensures forall s :: s in PushAll(absolute, [], segments) ==> s in segments
  {
    if segments != [] {
      StackComesFromSegments(absolute, segments[..|segments| - 1]);
    }
  }

  // ----- Collapsing slashes changes no walk

  lemma {:induction false} CollapseSplits(x: Text)
    ensures Split(Collapse(x))[0] == Split(x)[0]
    ensures forall directory :: Walk(directory, Split(Collapse(x))[1..]) == Walk(directory, Split(x)[1..])
  {
    if x != [] {
      CollapseSplits(x[1..]);
      forall directory ensures Walk(directory, Split(Collapse(x))[1..]) == Walk(directory, Split(x)[1..]) {
        CollapseStep(x, directory);
      }
    }
  }

  lemma CollapseStep(x: Text, directory: seq<Text>)
    requires x != []
    requires Split(Collapse(x[1..]))[0] == Split(x[1..])[0]
    requires forall d :: Walk(d, Split(Collapse(x[1..]))[1..]) == Walk(d, Split(x[1..])[1..])
    ensures Walk(directory, Split(Collapse(x))[1..]) == Walk(directory, Split(x)[1..])
  {
    var rest := x[1..];
    var collapsed := Collapse(rest);
    if |x| >= 2 && x[0] == SLASH && x[1] == SLASH {
      WalkFromHead(directory, Split(rest));
      assert Split(x)[1..] == Split(rest) && Split(rest)[0] == [];
    } else if x[0] == SLASH {
      assert Collapse(x)[1..] == collapsed;
      assert Split(Collapse(x))[1..] == Split(collapsed) && Split(x)[1..] == Split(rest);
      WalkFromHead(directory, Split(collapsed));
      WalkFromHead(directory, Split(rest));
    } else {
      assert Collapse(x)[1..] == collapsed;
      assert Split(Collapse(x))[1..] == Split(collapsed)[1..] && Split(x)[1..] == Split(rest)[1..];
    }
  }

  lemma WalkFromHead(directory: seq<Text>, segments: seq<Text>)
    requires segments != []
    ensures Walk(directory, segments) == Walk(Enter(directory, segments[0]), segments[1..])
  {
  }

  lemma {:induction false} CollapseKeepsFirst(x: Text)
    ensures IsAbsolute(Collapse(x)) == IsAbsolute(x)
  {
    if |x| >= 2 && x[0] == SLASH && x[1] == SLASH {
      CollapseKeepsFirst(x[1..]);
    }
  }

  lemma CollapseLeads(base: seq<Text>, x: Text)
    ensures Leads(base, Collapse(x)) == Leads(base, x)
  {
    hide Split, Collapse;
    CollapseKeepsFirst(x);
    CollapseSplits(x);
    var start := if IsAbsolute(x) then [] else base;
    WalkFromHead(start, Split(x));
    WalkFromHead(start, Split(Collapse(x)));
  }

  // ----- The view keeps the walk and is canonical

  /** The text of a canonical stack leads where the stack walks. */
  lemma JoinedLeads(base: seq<Text>, absolute: bool, stack: seq<Text>)
    requires Canonical(absolute, stack) && forall s :: s in stack ==> SlashFree(s)
    ensures var view := (if absolute then [SLASH] else []) + Join(stack);
            && IsAbsolute(view) == absolute
            && Leads(base, view) == Walk(if absolute then [] else base, stack)
            && Split(view) == (if absolute then BLANK else []) + (if stack == [] then BLANK else stack)
  {
    var joined := Join(stack);
    var view := (if absolute then [SLASH] else []) + joined;
    if stack != [] {
      SplitOfJoin(stack);
      JoinStartsWithFirst(stack);
    }
    if absolute {
      assert view[1..] == joined;
      WalkFromHead([], Split(view));
    } else {
      assert view == joined;
    }
    var start := if absolute then [] else base;
    assert Walk(start, BLANK) == Walk(Enter(start, []), []) by {
      assert BLANK[1..] == [];
    }
  }

  lemma JoinStartsWithFirst(stack: seq<Text>)
    requires stack != [] && stack[0] != []
    ensures Join(stack) != [] && Join(stack)[0] == stack[0][0]
  {
  }

  /** From every directory, the comparison view leads to the same place as the path it stands for. */
  lemma ViewKeepsTheWalk(base: seq<Text>, x: Text)
    ensures Leads(base, PathView(x)) == Leads(base, Forward(x))
  {
    hide Split, Collapse, Join, PushAll;
    var normalized := Collapse(Forward(x));
    var absolute := IsAbsolute(normalized);
    var stack := PushAll(absolute, [], Split(normalized));
    PushAllWalks(if absolute then [] else base, absolute, Split(normalized));
    StackComesFromSegments(absolute, Split(normalized));
    SplitIsSlashFree(normalized);
    JoinedLeads(base, absolute, stack);
    CollapseLeads(base, Forward(x));
  }

  lemma {:induction false} CanonicalIsFixed(absolute: bool, stack: seq<Text>)
    requires Canonical(absolute, stack)
    ensures PushAll(absolute, [], stack) == stack
  {
    if stack != [] {
      hide Canonical;
      var shorter := stack[..|stack| - 1];
      CanonicalPrefix(absolute, stack, |stack| - 1);
      CanonicalHas(absolute, stack, |stack| - 1);
      CanonicalIsFixed(absolute, shorter);
      assert stack == shorter + [stack[|stack| - 1]];
    }
  }

  /** A text without backslashes and without two slashes in a row. */
  predicate Tidy(x: Text) {
    && (forall i :: 0 <= i < |x| ==> x[i] != BACKSLASH)
    && (forall i :: 0 <= i < |x| - 1 ==> !(x[i] == SLASH && x[i + 1] == SLASH))
  }

  lemma {:induction false} TidyIsKept(x: Text)
    requires Tidy(x)
    ensures Collapse(x) == x && Forward(x) == x
  {
    if x != [] {
      TidyIsKept(x[1..]);
      assert x == [x[0]] + x[1..];
    }
  }

  predicate BackslashFree(segment: Text) {
    forall i :: 0 <= i < |segment| ==> segment[i] != BACKSLASH
  }

  lemma {:induction false} JoinIsTidy(stack: seq<Text>)
    requires forall s :: s in stack ==> s != [] && SlashFree(s) && BackslashFree(s)
    ensures Tidy(Join(stack)) && (stack != [] ==> Join(stack) != [] && Join(stack)[0] != SLASH)
  {
    if |stack| > 1 {
      assert forall s :: s in stack[1..] ==> s in stack;
      JoinIsTidy(stack[1..]);
      var head, rest := stack[0], Join(stack[1..]);
      var joined := head + [SLASH] + rest;
      assert head in stack;
      forall i | 0 <= i < |joined| - 1 ensures !(joined[i] == SLASH && joined[i + 1] == SLASH) {
        if i > |head| {
          assert joined[i] == rest[i - |head| - 1] && joined[i + 1] == rest[i - |head|];
        }
      }
    } else if |stack| == 1 {
      assert stack[0] in stack;
    }
  }

  lemma {:induction false} SplitIsBackslashFree(x: Text)
    requires BackslashFree(x)
    ensures forall s :: s in Split(x) ==> BackslashFree(s)
  {
    if x != [] {
      SplitIsBackslashFree(x[1..]);
      assert Split(x[1..])[0] in Split(x[1..]);
    }
  }

  lemma {:induction false} CollapseIsBackslashFree(x: Text)
    requires BackslashFree(x)
    ensures BackslashFree(Collapse(x))
  {
    if x != [] {
      CollapseIsBackslashFree(x[1..]);
    }
  }

  lemma ViewIsTidy(x: Text)
    ensures Tidy(PathView(x))
  {
    hide Split, Collapse, Join, PushAll;
    var normalized := Collapse(Forward(x));
    var absolute := IsAbsolute(normalized);
    var stack := PushAll(absolute, [], Split(normalized));
    CollapseIsBackslashFree(Forward(x));
    SplitIsBackslashFree(normalized);
    SplitIsSlashFree(normalized);
    StackComesFromSegments(absolute, Split(normalized));
    PushAllWalks([], absolute, Split(normalized));
    forall s | s in stack ensures s != [] {
      var i :| 0 <= i < |stack| && stack[i] == s;
    }
    JoinIsTidy(stack);
    if stack == [] {
      JoinOfNothing();
    }
  }

  lemma JoinOfNothing()
    ensures Join([]) == []
  {
  }

  /** The comparison view of a comparison view is itself. */
  lemma ViewIsIdempotent(x: Text)
    ensures PathView(PathView(x)) == PathView(x)
  {
    hide Split, Collapse, Join, PushAll;
    var normalized := Collapse(Forward(x));
    var absolute := IsAbsolute(normalized);
    var stack := PushAll(absolute, [], Split(normalized));
    PushAllWalks([], absolute, Split(normalized));
    StackComesFromSegments(absolute, Split(normalized));
    SplitIsSlashFree(normalized);
    JoinedLeads([], absolute, stack);
    ViewIsTidy(x);
    TidyIsKept(PathView(x));
    StackOfView(absolute, stack);
  }

  lemma StackOfView(absolute: bool, stack: seq<Text>)
    requires Canonical(absolute, stack)
    ensures PushAll(absolute, [], (if absolute then BLANK else []) + (if stack == [] then BLANK else stack)) == stack
  {
    var parts := if stack == [] then BLANK else stack;
    CanonicalIsFixed(absolute, stack);
    assert PushAll(absolute, [], BLANK) == [] by {
      assert BLANK[..0] == [];
    }
    assert PushAll(absolute, [], parts) == stack;
    if absolute {
      SkippedHead(absolute, parts);
    } else {
      assert [] + parts == parts;
    }
  }

  lemma {:induction false} SkippedHead(absolute: bool, parts: seq<Text>)
    ensures PushAll(absolute, [], BLANK + parts) == PushAll(absolute, [], parts)
  {
    if parts == [] {
      assert BLANK + parts == BLANK && BLANK[..0] == [];
    } else {
      SkippedHead(absolute, parts[..|parts| - 1]);
      assert (BLANK + parts)[..|parts|] == BLANK + parts[..|parts| - 1];
    }
  }

  // ----- What a view looks like

  lemma JoinAfterSlash(segments: seq<Text>)
    requires segments != []
    ensures Join([[]] + segments) == [SLASH] + Join(segments)
  {
    assert ([[]] + segments)[1..] == segments;
    hide Join;
    assert Join([[]] + segments) == [] + [SLASH] + Join(segments) by {
      JoinUnfolds([[]] + segments);
    }
  }

  lemma JoinUnfolds(segments: seq<Text>)
    requires |segments| > 1
    ensures Join(segments) == segments[0] + [SLASH] + Join(segments[1..])
  {
  }

  lemma JoinWithUnit(u: CodeUnit, segments: seq<Text>)
    requires segments != []
    ensures Join([[u] + segments[0]] + segments[1..]) == [u] + Join(segments)
  {
    var head, rest := segments[0], segments[1..];
    var longer := [[u] + head] + rest;
    assert longer[1..] == rest && longer[0] == [u] + head;
    if rest != [] {
      JoinUnfolds(longer);
      JoinUnfolds(segments);
      hide Join;
      Regroup(u, head, Join(rest));
    }
  }

  lemma Regroup(u: CodeUnit, head: Text, rest: Text)
    ensures ([u] + head) + [SLASH] + rest == [u] + (head + [SLASH] + rest)
  {
  }

  /** Splitting takes a text apart at its slashes, and nothing else. */
  lemma {:induction false} SplitIsExact(x: Text)
    ensures Join(Split(x)) == x && forall s :: s in Split(x) ==> SlashFree(s)
  {
    SplitIsSlashFree(x);
    if x != [] {
      SplitIsExact(x[1..]);
      hide Join;
      assert x == [x[0]] + x[1..];
      if x[0] == SLASH {
        JoinAfterSlash(Split(x[1..]));
      } else {
        JoinWithUnit(x[0], Split(x[1..]));
      }
    } else {
      JoinOfBlank();
    }
  }

  lemma JoinOfBlank()
    ensures Join([[]]) == []
  {
  }

  /** What stands between slashes stands in some segment. */
  lemma {:induction false} SplitMembers(x: Text, u: CodeUnit)
    ensures u in x && u != SLASH <==> exists s :: s in Split(x) && u in s
  {
    if x != [] {
      SplitMembers(x[1..], u);
      var rest, all := Split(x[1..]), Split(x);
      assert x == [x[0]] + x[1..];
      if x[0] == SLASH {
        assert all == [[]] + rest;
        assert forall s :: s in all <==> s == [] || s in rest;
      } else {
        assert all[0] == [x[0]] + rest[0] && all[1..] == rest[1..];
        assert forall s :: s in all <==> s == all[0] || s in rest[1..];
        assert forall s :: s in rest <==> s == rest[0] || s in rest[1..];
        assert u in all[0] <==> u == x[0] || u in rest[0];
      }
    }
  }

  /** The segments of a view, without the empty one in front of an absolute path's first slash. */
  function SegmentsOf(view: Text): seq<Text> {
    if IsAbsolute(view) then Split(view)[1..] else Split(view)
  }

  /** Nothing to skip, and steps up only where a relative path begins. */
  predicate IsDirect(absolute: bool, segments: seq<Text>) {
    && (forall i :: 0 <= i < |segments| ==>
          segments[i] != [] && segments[i] != Ascii(".") && (segments[i] == Ascii("..") ==> !absolute))
    && forall i, j :: 0 <= i < j < |segments| && segments[j] == Ascii("..") ==> segments[i] == Ascii("..")
  }

  /**
   * A view is absolute exactly if its path is, has no backslash and no slash after a slash, and its segments go straight to
   * where it leads; only the path to nowhere has a segment that is empty.
   */
  lemma ViewIsDirect(x: Text)
    ensures var view := PathView(x);
            && (IsAbsolute(view) <==> IsAbsolute(Forward(x)))
            && (forall i :: 0 <= i < |view| ==> view[i] != '\\' as int)
            && (forall i :: 0 <= i < |view| - 1 ==> !(view[i] == '/' as int && view[i + 1] == '/' as int))
            && (SegmentsOf(view) == [[]] || IsDirect(IsAbsolute(view), SegmentsOf(view)))
  {
    hide Split, Collapse, Join, PushAll;
    var normalized := Collapse(Forward(x));
    var absolute := IsAbsolute(normalized);
    var stack := PushAll(absolute, [], Split(normalized));
    CollapseKeepsFirst(Forward(x));
    PushAllWalks([], absolute, Split(normalized));
    StackComesFromSegments(absolute, Split(normalized));
    SplitIsSlashFree(normalized);
    JoinedLeads([], absolute, stack);
    ViewIsTidy(x);
    CanonicalIsDirect(absolute, stack);
    hide Canonical, IsDirect;
    assert SegmentsOf(PathView(x)) == if stack == [] then BLANK else stack;
  }

  lemma CanonicalIsDirect(absolute: bool, stack: seq<Text>)
    requires Canonical(absolute, stack)
    ensures IsDirect(absolute, stack)
  {
    hide IsSkipped, IsParent;
    forall i | 0 <= i < |stack| ensures IsSkipped(stack[i]) <==> stack[i] == [] || stack[i] == Ascii(".")
      ensures IsParent(stack[i]) <==> stack[i] == Ascii("..")
    {
      EnteredSegments(stack[i]);
    }
  }
}
