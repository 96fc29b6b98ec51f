/** Admission of one tool-free cloud request: which reasons deny it, and what a pass promises. */
module EgressPolicy {
  import opened Texts
  import opened EgressPaths
  import opened EgressScan
  import opened EgressClosure
  import opened EgressProvenance
  import opened EgressMessages

  datatype Input = Input(
    messages: seq<Message>, entries: seq<Entry>, consentGranted: bool, toolDefinitions: bool,
    workspaceRoot: Text, homeRoot: Text, secrets: seq<Text>)

  /** Libraries and patterns the policy relies on. */
  datatype Host = Host(
    transforms: Transforms, sha256: Text -> Text, lower: Text -> Text, deniesPath: Text -> bool,
    holdsToken: Text -> bool, holdsPrivateKey: Text -> bool)

  datatype Reason =
    | AbsoluteHomePath | AbsoluteWorkspacePath | DeniedPathProvenance | EncodingTransformLimit | EgressConsentMissing
    | KnownSecretValue | PrivateKeyMaterial | BindingInvalid | Incomplete | RecognizedApiToken | ToolDefinitionsPresent
    | ToolProtocolPresent | UnadmittedArtifactProvenance

  /** Whether `needle` occurs in `text`. */
  predicate Includes(text: Text, needle: Text) {
    exists i :: 0 <= i <= |text| && OccursAt(text, needle, i)
  }

  predicate OccursAt(text: Text, needle: Text, i: nat) {
    i + |needle| <= |text| && text[i..i + |needle|] == needle
  }

  predicate MatchesIn(host: Host, view: Text, needle: Text, ignoreCase: bool) {
    if ignoreCase then Includes(host.lower(view), host.lower(needle)) else Includes(view, needle)
  }

  /** Some view of a text contains some view of the needle. */
  ghost predicate ContainsNormalized(host: Host, text: Text, needle: Text, ignoreCase: bool) {
    exists v, n :: v in Views(host.transforms, text) && n in Views(host.transforms, needle) && MatchesIn(host, v, n, ignoreCase)
  }

  predicate EntryDenied(host: Host, e: Entry) {
    e.source.WorkspaceFile? && (!e.source.pathAdmitted || host.deniesPath(e.source.relativePath))
  }

  predicate EntryUnadmitted(e: Entry) {
    e.source.Artifact? && !e.source.admitted
  }

  // ----- When each reason applies

  ghost predicate Applies(host: Host, input: Input, reason: Reason) {
    var scanned := Scanned(input.messages);
    match reason
    case DeniedPathProvenance => exists e :: e in input.entries && EntryDenied(host, e)
    case UnadmittedArtifactProvenance => exists e :: e in input.entries && EntryUnadmitted(e)
    case EgressConsentMissing => !input.consentGranted
    case ToolDefinitionsPresent => input.toolDefinitions
    case ToolProtocolPresent => exists m :: m in input.messages && UsesToolProtocol(m)
    case EncodingTransformLimit => exists x :: x in scanned && Exhausts(host.transforms, x)
    case AbsoluteWorkspacePath => exists x :: x in scanned && ContainsNormalized(host, x, input.workspaceRoot, true)
    case AbsoluteHomePath => exists x :: x in scanned && ContainsNormalized(host, x, input.homeRoot, true)
    case KnownSecretValue =>
      exists x, s :: x in scanned && s in input.secrets && ContainsNormalized(host, x, s, false)
    case RecognizedApiToken => exists x, v :: x in scanned && v in Views(host.transforms, x) && host.holdsToken(v)
    case PrivateKeyMaterial => exists x, v :: x in scanned && v in Views(host.transforms, x) && host.holdsPrivateKey(v)
    case Incomplete =>
      exists m :: 0 <= m < |input.messages| && IncompleteFor(EntriesOf(input.entries, m), Contents(input.messages)[m])
    case BindingInvalid =>
      exists m ::
        0 <= m < |input.messages| && InvalidFor(EntriesOf(input.entries, m), Contents(input.messages)[m], host.sha256)
  }

  // ----- The evaluation

  /** The views of all scanned texts, and whether any scan hit the transform limit. */
  method ScanAll(host: Host, texts: seq<Text>) returns (views: set<Text>, exhausted: bool)
    ensures forall v :: v in views <==> exists x :: x in texts && v in Views(host.transforms, x)
    ensures exhausted <==> exists x :: x in texts && Exhausts(host.transforms, x)
  {
    hide Views, Exhausts;
    views, exhausted := {}, false;
    for i := 0 to |texts|
      invariant forall v :: v in views <==> exists x :: x in texts[..i] && v in Views(host.transforms, x)
      invariant exhausted <==> exists x :: x in texts[..i] && Exhausts(host.transforms, x)
    {
      var found, far := ScanViews(host.transforms, texts[i]);
      assert texts[..i + 1] == texts[..i] + [texts[i]];
      views := views + found;
      exhausted := exhausted || far;
    }
    assert texts[..|texts|] == texts;
  }

  method NeedleOccurs(host: Host, views: set<Text>, needle: Text, ignoreCase: bool, ghost texts: seq<Text>) returns (occurs: bool)
    requires forall v :: v in views <==> exists x :: x in texts && v in Views(host.transforms, x)
    ensures occurs <==> exists x :: x in texts && ContainsNormalized(host, x, needle, ignoreCase)
  {
    hide Views, Exhausts, MatchesIn;
    var needleViews, _ := ScanViews(host.transforms, needle);
    occurs := exists v, n :: v in views && n in needleViews && MatchesIn(host, v, n, ignoreCase);
    if occurs {
      var v, n :| v in views && n in needleViews && MatchesIn(host, v, n, ignoreCase);
      ghost var x :| x in texts && v in Views(host.transforms, x);
      assert ContainsNormalized(host, x, needle, ignoreCase);
    }
  }

  method SecretOccurs(host: Host, views: set<Text>, secrets: seq<Text>, ghost texts: seq<Text>) returns (occurs: bool)
    requires forall v :: v in views <==> exists x :: x in texts && v in Views(host.transforms, x)
    ensures occurs <==> exists x, s :: x in texts && s in secrets && ContainsNormalized(host, x, s, false)
  {
    hide Views, ContainsNormalized;
    occurs := false;
    for i := 0 to |secrets|
      invariant occurs <==> exists x, s :: x in texts && s in secrets[..i] && ContainsNormalized(host, x, s, false)
    {
      assert secrets[..i + 1] == secrets[..i] + [secrets[i]];
      var found := NeedleOccurs(host, views, secrets[i], false, texts);
      occurs := occurs || found;
    }
    assert secrets[..|secrets|] == secrets;
  }

  /** The reasons that search the views for host paths and secrets. */
  method NeedleReasons(host: Host, input: Input, views: set<Text>, ghost texts: seq<Text>) returns (reasons: set<Reason>)
    requires texts == Scanned(input.messages)
    requires forall v :: v in views <==> exists x :: x in texts && v in Views(host.transforms, x)
    ensures forall r :: r in reasons ==> r.AbsoluteWorkspacePath? || r.AbsoluteHomePath? || r.KnownSecretValue?
    ensures AbsoluteWorkspacePath in reasons <==> Applies(host, input, AbsoluteWorkspacePath)
    ensures AbsoluteHomePath in reasons <==> Applies(host, input, AbsoluteHomePath)
    ensures KnownSecretValue in reasons <==> Applies(host, input, KnownSecretValue)
  {
    hide Views, ContainsNormalized, Exhausts;
    var workspace := NeedleOccurs(host, views, input.workspaceRoot, true, texts);
    var home := NeedleOccurs(host, views, input.homeRoot, true, texts);
    var secret := SecretOccurs(host, views, input.secrets, texts);
    reasons := (if workspace then {AbsoluteWorkspacePath} else {}) + (if home then {AbsoluteHomePath} else {})
               + (if secret then {KnownSecretValue} else {});
  }

  /** The reasons that look at single views. */
  method ViewReasons(host: Host, input: Input, views: set<Text>, exhausted: bool, ghost texts: seq<Text>) returns (reasons: set<Reason>)
    requires texts == Scanned(input.messages)
    requires forall v :: v in views <==> exists x :: x in texts && v in Views(host.transforms, x)
    requires exhausted <==> exists x :: x in texts && Exhausts(host.transforms, x)
    ensures forall r :: r in reasons ==> r.EncodingTransformLimit? || r.RecognizedApiToken? || r.PrivateKeyMaterial?
    ensures EncodingTransformLimit in reasons <==> Applies(host, input, EncodingTransformLimit)
    ensures RecognizedApiToken in reasons <==> Applies(host, input, RecognizedApiToken)
    ensures PrivateKeyMaterial in reasons <==> Applies(host, input, PrivateKeyMaterial)
  {
    hide Views, ContainsNormalized, Exhausts;
    var token := exists v :: v in views && host.holdsToken(v);
    var privateKey := exists v :: v in views && host.holdsPrivateKey(v);
    reasons := (if exhausted then {EncodingTransformLimit} else {}) + (if token then {RecognizedApiToken} else {})
               + (if privateKey then {PrivateKeyMaterial} else {});
  }

  predicate IsScanReason(reason: Reason) {
    reason.EncodingTransformLimit? || reason.AbsoluteWorkspacePath? || reason.AbsoluteHomePath? || reason.KnownSecretValue?
    || reason.RecognizedApiToken? || reason.PrivateKeyMaterial?
  }

  predicate IsEnvelopeReason(reason: Reason) {
    reason.DeniedPathProvenance? || reason.UnadmittedArtifactProvenance? || reason.EgressConsentMissing?
    || reason.ToolDefinitionsPresent? || reason.ToolProtocolPresent?
  }

  /** The reasons the scan of the canonical messages adds. */
  method ScanReasons(host: Host, input: Input) returns (reasons: set<Reason>)
    ensures forall r :: r in reasons <==> IsScanReason(r) && Applies(host, input, r)
  {
    hide Views, ContainsNormalized, Exhausts, Applies;
    var texts := Scanned(input.messages);
    var views, exhausted := ScanAll(host, texts);
    var needles := NeedleReasons(host, input, views, texts);
    var viewed := ViewReasons(host, input, views, exhausted, texts);
    reasons := needles + viewed;
  }

  /** The reasons the manifest's attributions add. */
  method AttributionReasons(host: Host, input: Input) returns (reasons: set<Reason>)
    ensures forall r :: r in reasons ==> r.DeniedPathProvenance? || r.UnadmittedArtifactProvenance?
    ensures DeniedPathProvenance in reasons <==> Applies(host, input, DeniedPathProvenance)
    ensures UnadmittedArtifactProvenance in reasons <==> Applies(host, input, UnadmittedArtifactProvenance)
  {
    hide EntryDenied, EntryUnadmitted;
    reasons := {};
    for i := 0 to |input.entries|
      invariant forall r :: r in reasons ==> r.DeniedPathProvenance? || r.UnadmittedArtifactProvenance?
      invariant DeniedPathProvenance in reasons <==> exists e :: e in input.entries[..i] && EntryDenied(host, e)
      invariant UnadmittedArtifactProvenance in reasons <==> exists e :: e in input.entries[..i] && EntryUnadmitted(e)
    {
      var e := input.entries[i];
      assert input.entries[..i + 1] == input.entries[..i] + [e];
      if EntryDenied(host, e) {
        reasons := reasons + {DeniedPathProvenance};
      }
      if EntryUnadmitted(e) {
        reasons := reasons + {UnadmittedArtifactProvenance};
      }
    }
    assert input.entries[..|input.entries|] == input.entries;
  }

  /** The reasons the request envelope and the manifest's attributions add. */
  method EnvelopeReasons(host: Host, input: Input) returns (reasons: set<Reason>)
    ensures forall r :: r in reasons <==> IsEnvelopeReason(r) && Applies(host, input, r)
  {
    hide EntryDenied, EntryUnadmitted, UsesToolProtocol;
    reasons := AttributionReasons(host, input);
    if !input.consentGranted {
      reasons := reasons + {EgressConsentMissing};
    }
    if input.toolDefinitions {
      reasons := reasons + {ToolDefinitionsPresent};
    }
    if exists m :: m in input.messages && UsesToolProtocol(m) {
      reasons := reasons + {ToolProtocolPresent};
    }
  }

  predicate IsBindingReason(reason: Reason) {
    reason.BindingInvalid? || reason.Incomplete?
  }

  /** The reasons the provenance binding adds. */
  method BindingReasons(host: Host, input: Input) returns (reasons: set<Reason>)
    requires forall e :: e in input.entries ==> e.messageIndex < |input.messages|
    ensures forall r :: r in reasons <==> IsBindingReason(r) && Applies(host, input, r)
    ensures reasons == {} <==> AllPartitioned(Contents(input.messages), input.entries, host.sha256)
  {
    hide AllPartitioned, Contents, IncompleteFor, InvalidFor, EntriesOf;
    var binding := EvaluateProvenanceBinding(Contents(input.messages), input.entries, host.sha256);
    reasons := (if ProvenanceIncomplete in binding then {Incomplete} else {})
               + (if ProvenanceBindingInvalid in binding then {BindingInvalid} else {});
    NoReasons(binding);
    if reasons == {} {
      assert ProvenanceIncomplete !in binding by { assert Incomplete !in reasons; }
      assert ProvenanceBindingInvalid !in binding by { assert BindingInvalid !in reasons; }
    }
  }

  /** Nothing denies the request. */
  ghost predicate Admissible(host: Host, input: Input) {
    forall reason :: !Applies(host, input, reason)
  }

  /**
   * `evaluateCloudEgressPolicyV1`: every reason is given exactly when it applies, and the request passes exactly when
   * none applies, which takes an exact partition of every message.
   */
  method Evaluate(host: Host, input: Input) returns (pass: bool, reasons: set<Reason>)
    requires forall e :: e in input.entries ==> e.messageIndex < |input.messages|
    ensures forall reason :: reason in reasons <==> Applies(host, input, reason)
    ensures pass <==> reasons == {}
    ensures pass <==> Admissible(host, input)
    ensures pass ==> AllPartitioned(Contents(input.messages), input.entries, host.sha256)
  {
    hide AllPartitioned, Contents, Applies;
    var envelope := EnvelopeReasons(host, input);
    var bound := BindingReasons(host, input);
    var found := ScanReasons(host, input);
    reasons := envelope + bound + found;
    pass := reasons == {};
    NoReasonApplies(host, input, reasons);
  }

  lemma NoReasonApplies(host: Host, input: Input, reasons: set<Reason>)
    requires forall r :: r in reasons <==> Applies(host, input, r)
    ensures reasons == {} <==> Admissible(host, input)
  {
    hide Applies;
    if reasons == {} {
      forall r ensures !Applies(host, input, r) {
        assert r !in reasons;
      }
    }
  }

  lemma AdmissibleIsPartitioned(host: Host, input: Input)
    requires Admissible(host, input)
    ensures AllPartitioned(Contents(input.messages), input.entries, host.sha256)
  {
    hide IncompleteFor, InvalidFor, EntriesOf;
    assert !Applies(host, input, Incomplete) && !Applies(host, input, BindingInvalid);
    NoReasonAnywhere(Contents(input.messages), input.entries, host.sha256);
  }

  // ----- What a pass promises

  /** After a pass, whatever a chain of transforms makes of a scanned text is one of its views. */
  lemma PassScansEverything(host: Host, input: Input, x: Text, chain: seq<Transform>)
    requires Admissible(host, input) && x in Scanned(input.messages)
    ensures ChainOf(host.transforms, chain, x) in Views(host.transforms, x)
  {
    hide Views, Scanned, ChainOf, KeptByTransforms;
    assert !Applies(host, input, EncodingTransformLimit);
    hide Exhausts;
    UnexhaustedViewsAreLeastKept(host.transforms, x, {});
    assert ChainMakes(host.transforms, x, ChainOf(host.transforms, chain, x));
  }

  /**
   * After a pass, no chain of transforms, however long, turns a scanned text into one that contains what a chain of at
   * most nine transforms makes of a known secret.
   */
  lemma PassKeepsSecretsIn(host: Host, input: Input, x: Text, chain: seq<Transform>, secret: Text, forming: seq<Transform>)
    requires Admissible(host, input) && x in Scanned(input.messages) && secret in input.secrets && |forming| <= 9
    ensures !Includes(ChainOf(host.transforms, chain, x), ChainOf(host.transforms, forming, secret))
  {
    hide Views, Scanned, ChainOf;
    var y, form := ChainOf(host.transforms, chain, x), ChainOf(host.transforms, forming, secret);
    PassScansEverything(host, input, x, chain);
    ViewsAreChains(host.transforms, secret, form);
    assert ChainLeads(host.transforms, secret, form, 9);
    assert !Applies(host, input, KnownSecretValue);
    assert !ContainsNormalized(host, x, secret, false);
    assert !MatchesIn(host, y, form, false);
  }

  /** The same for what a message says, and for the serialized request itself. */
  lemma PassKeepsSecretsOutOfMessages(host: Host, input: Input, m: nat, chain: seq<Transform>, secret: Text,
                                      forming: seq<Transform>)
    requires Admissible(host, input) && m < |input.messages| && secret in input.secrets && |forming| <= 9
    ensures Content(input.messages[m]) != [] ==>
              !Includes(ChainOf(host.transforms, chain, Content(input.messages[m])), ChainOf(host.transforms, forming, secret))
    ensures !Includes(ChainOf(host.transforms, chain, Serialized(input.messages)), ChainOf(host.transforms, forming, secret))
  {
    hide Serialized, ChainOf, Admissible, Includes;
    PassKeepsSecretsIn(host, input, Serialized(input.messages), chain, secret, forming);
    if Content(input.messages[m]) != [] {
      ContentsAreScanned(input.messages, m);
      PassKeepsSecretsIn(host, input, Content(input.messages[m]), chain, secret, forming);
    }
  }

  /** Conversely a secret that at most nine transforms bring to light, in a scanned text and in itself, denies the request. */
  lemma HiddenSecretIsFound(host: Host, input: Input, x: Text, chain: seq<Transform>, secret: Text, forming: seq<Transform>)
    requires x in Scanned(input.messages) && secret in input.secrets && |chain| <= 9 && |forming| <= 9
    requires Includes(ChainOf(host.transforms, chain, x), ChainOf(host.transforms, forming, secret))
    ensures Applies(host, input, KnownSecretValue) && !Admissible(host, input)
  {
    hide Views, Scanned, ChainOf, Includes;
    var y, form := ChainOf(host.transforms, chain, x), ChainOf(host.transforms, forming, secret);
    ViewsAreChains(host.transforms, x, y);
    ViewsAreChains(host.transforms, secret, form);
    assert ChainLeads(host.transforms, x, y, 9) && ChainLeads(host.transforms, secret, form, 9);
    assert MatchesIn(host, y, form, false);
    assert ContainsNormalized(host, x, secret, false);
  }

  /**
   * The same for host paths, in whatever letter case, for API tokens and for private keys: no chain of transforms turns a
   * message's content or the serialized request into a text that shows one.
   */
  lemma PassShowsNoHost(host: Host, input: Input, x: Text, chain: seq<Transform>, forming: seq<Transform>)
    requires Admissible(host, input) && |forming| <= 9
    requires x == Serialized(input.messages)
             || exists m :: 0 <= m < |input.messages| && x == Content(input.messages[m]) != []
    ensures var y := ChainOf(host.transforms, chain, x);
            && !host.holdsToken(y) && !host.holdsPrivateKey(y)
            && !Includes(host.lower(y), host.lower(ChainOf(host.transforms, forming, input.workspaceRoot)))
            && !Includes(host.lower(y), host.lower(ChainOf(host.transforms, forming, input.homeRoot)))
  {
    hide Views, Serialized, ChainOf, Includes;
    var y := ChainOf(host.transforms, chain, x);
    if m :| 0 <= m < |input.messages| && x == Content(input.messages[m]) != [] {
      ContentsAreScanned(input.messages, m);
    }
    assert x in Scanned(input.messages);
    PassScansEverything(host, input, x, chain);
    hide Scanned;
    assert !Applies(host, input, RecognizedApiToken) && !Applies(host, input, PrivateKeyMaterial);
    assert !Applies(host, input, AbsoluteWorkspacePath) && !Applies(host, input, AbsoluteHomePath);
    HidesRoot(host, x, y, input.workspaceRoot, forming);
    HidesRoot(host, x, y, input.homeRoot, forming);
  }

  lemma HidesRoot(host: Host, x: Text, y: Text, root: Text, forming: seq<Transform>)
    requires !ContainsNormalized(host, x, root, true) && y in Views(host.transforms, x) && |forming| <= 9
    ensures !Includes(host.lower(y), host.lower(ChainOf(host.transforms, forming, root)))
  {
    hide Views, ChainOf, Includes;
    var form := ChainOf(host.transforms, forming, root);
    ViewsAreChains(host.transforms, root, form);
    assert ChainLeads(host.transforms, root, form, 9);
    assert !MatchesIn(host, y, form, true);
  }

  /** A request that passes was consented to, offers no tools, and neither calls tools nor carries their results. */
  lemma PassIsPlain(host: Host, input: Input)
    requires Admissible(host, input)
    ensures input.consentGranted && !input.toolDefinitions
    ensures forall m :: m in input.messages ==> !m.ToolMessage? && (m.AssistantMessage? ==> m.toolCalls.None?)
  {
    assert !Applies(host, input, EgressConsentMissing) && !Applies(host, input, ToolDefinitionsPresent);
    assert !Applies(host, input, ToolProtocolPresent);
  }

  /** No surrogate pair straddles this offset. */
  predicate IsWhole(content: Text, offset: nat) {
    0 < offset < |content| ==> !(0xD800 <= content[offset - 1] <= 0xDBFF && 0xDC00 <= content[offset] <= 0xDFFF)
  }

  /** A slice of the content, on whole surrogate pairs and with its own hash, from a source that is admitted and not denied. */
  predicate Vouches(host: Host, content: Text, e: Entry) {
    && e.start < e.end <= |content| && IsWhole(content, e.start) && IsWhole(content, e.end)
    && e.sha256 == host.sha256(content[e.start..e.end])
    && (e.source.WorkspaceFile? ==> e.source.pathAdmitted && !host.deniesPath(e.source.relativePath))
    && (e.source.Artifact? ==> e.source.admitted)
  }

  lemma FittingEntryVouches(host: Host, content: Text, e: Entry)
    requires SliceFits(e, content, host.sha256) && !EntryDenied(host, e) && !EntryUnadmitted(e)
    ensures Vouches(host, content, e)
  {
  }

  lemma NoEntryIsDenied(host: Host, input: Input, e: Entry)
    requires Admissible(host, input) && e in input.entries
    ensures !EntryDenied(host, e) && !EntryUnadmitted(e)
  {
    assert !Applies(host, input, DeniedPathProvenance) && !Applies(host, input, UnadmittedArtifactProvenance);
  }

  /** Every code unit of every admitted message is vouched for by exactly one entry, and by no denied file or artifact. */
  lemma PassAttributesEverything(host: Host, input: Input, m: nat, k: nat)
    requires Admissible(host, input) && m < |input.messages| && k < |Content(input.messages[m])|
    ensures exists e :: && e in EntriesFor(input.entries, m) && Covers(e, k) && Vouches(host, Content(input.messages[m]), e)
                        && forall d :: d in EntriesFor(input.entries, m) && Covers(d, k) ==> d == e
  {
    AdmissibleIsPartitioned(host, input);
    var content, entries := Contents(input.messages)[m], EntriesFor(input.entries, m);
    assert ExactPartition(multiset(entries), content, host.sha256);
    hide EntriesFor, SliceFits, Vouches, EntryDenied, EntryUnadmitted, Admissible;
    assert CoveredOnce(multiset(entries), k);
    var e :| e in multiset(entries) && Covers(e, k) && forall d :: d in multiset(entries) && Covers(d, k) ==> d == e;
    EntriesComeFromManifest(input.entries, m);
    NoEntryIsDenied(host, input, e);
    FittingEntryVouches(host, content, e);
  }

  lemma {:induction false} EntriesComeFromManifest(entries: seq<Entry>, m: nat)
    ensures forall e :: e in EntriesFor(entries, m) ==> e in entries
  {
    if entries != [] {
      EntriesComeFromManifest(entries[..|entries| - 1], m);
    }
  }
}
