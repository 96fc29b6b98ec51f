/** The vocabulary of one coding episode: policies, states, actions, evidence and decision records. */
module RouterTypes {
  import opened Wrappers

  const FINISH_RESERVE := 2
  const LOCAL_CALL_LIMIT := 24
  const DUPLICATE_LIMIT := 3
  const FAILED_CHECK_LIMIT := 2
  const MAX_HELP_BYTES := 1024
  const MAX_SAFE_INTEGER := 0x1F_FFFF_FFFF_FFFF

  datatype Policy = LocalOnly | LocalFirst | CloudPlanLocal | CloudPlanLocalReview | LocalCriticRepair
  datatype Schedule = FinalOnly | RepairWindow | HostRepairWindow
  datatype State = Planner | Local | Checkpoint | Cloud | Critic | Submitted | Stopped
  datatype Phase = Draft | Repair
  datatype Action = RunCommand | RunVisibleChecks | SubmitTask | RequestHelp
  datatype Verdict = Continue | Checkpointed | Submit | Escalate | Stop
  datatype CriticVerdict = Acceptable | RepairRequired | InsufficientContext | Unrecognized

  datatype Reason =
    | Initialized | CloudPlanRequired | CloudPlanCompleted | LocalRequestStarted
    | CommandObserved | FinishRequired | VisibleCheckPassed | VisibleCheckFailed
    | VisibleCheckTreeChanged | RepeatedObservation | VisibleChecksFailed | ExplicitHelp
    | LocalCallLimit | FinishReserveExhausted | FreshVisibleCheck | HandoffConfirmed
    | LocalOnlyCheckpoint | Cancelled | UnknownOutcome | ProtocolFailure | CheckTimeout
    | EpisodeDeadline | AccountingFailure | ExecutionFailure | InsufficientModelCalls
    | InsufficientHandoffTime | ReviewRequired | ReviewTimeReserve | HostCheckStarted
    | PlannerCheckFailed | PlannerCheckInvalid
    | CriticRequired | CriticRequestStarted | CriticAcceptable | CriticRepairRequired
    | CriticInsufficientContext | CriticTimeReserve | CriticPolicyCheckpoint

  /** The reasons a host may pass to `stop`. */
  predicate IsStopReason(reason: Reason) {
    reason.Cancelled? || reason.UnknownOutcome? || reason.ProtocolFailure? || reason.CheckTimeout?
    || reason.EpisodeDeadline? || reason.AccountingFailure? || reason.ExecutionFailure? || reason.LocalOnlyCheckpoint?
    || reason.PlannerCheckInvalid? || reason.CriticPolicyCheckpoint?
  }

  datatype RouterError =
    | BadText | BadSourceHash | BadInteger | BadTimeBudget | BadCriticProfile | BadLocalCallLimitPolicy
    | BadCheckScheduleBudgetOrPolicy | EventReused | NotLocal | RequestPending | HostCheckPending | HostCheckNotDue
    | HostCheckRequired | NoPendingRequest | ActionNotAllowed | NoPendingHostCheck | VisibleCommandMismatch
    | HostCheckSourceMismatch | PlannerCheckSourceMismatch | PlannerCheckUnexpected | PlannerCheckRequired
    | PlannerCheckArtifactMismatch | PlannerCheckPassInvalid | SubmissionRequiresFreshCheck | CriticReused
    | CriticNotAvailable | CriticSourceMismatch | CriticNotPending | CriticRequestMismatch | BadCriticVerdict
    | NotPlanner | PlannerCheckPolicy | CriticCloudHandoffDenied | NoHandoffCheckpoint | Terminal | BadStopReason

  /** SHA-256 of a text, kept as its preimage: distinct texts have distinct digests. */
  datatype TextDigest = TextDigest(preimage: string)

  /** SHA-256 over the canonical observation (command, output, return code and tree). */
  datatype Signature = Signature(command: TextDigest, output: TextDigest, returncode: int, source: string)

  datatype PlannerCheck = PlannerCheck(
    artifact: string, source: string, sourceAfter: string, passed: bool, completed: bool, timedOut: bool)

  datatype TimeBudget = TimeBudget(
    remainingSeconds: real, requestTimeoutSeconds: real, checkReserveSeconds: real, remainingModelCalls: int)

  /** The reserve a local request must leave for a second model phase, in whole milliseconds. */
  datatype Reserve = Reserve(remainingMs: int, requestMs: int, checkMs: int, requiredMs: int, remainingModelCalls: int)

  /** What one decision was taken on. */
  datatype Fact =
    | NoFact
    | InitialFact(visibleCommand: TextDigest, maxLocalCalls: int)
    | HostCheckFact(visibleCommand: TextDigest)
    | ReserveFact(reserve: Reserve)
    | RequestFact(requestId: string)
    | CommandFact(signature: Signature, sourceChanged: bool)
    | CheckFact(command: TextDigest, output: TextDigest, returncode: int, before: string, after: string,
                completed: bool, timedOut: bool, planner: Option<PlannerCheck>)
    | HelpFact(message: string)
    | SubmissionFact(checkSource: string)
    | CriticStartFact(requestId: string, source: string, patch: string, bundle: string, body: string)
    | CriticCompleteFact(requestId: string, settled: bool, cancelled: bool, receipt: string,
                         verdict: CriticVerdict, source: string)
    | PlanFact(settled: bool, cancelled: bool)
    | HandoffFact(settled: bool, cancelled: bool, remainingModelCalls: int, remainingMs: int,
                  requestMs: int, checkMs: int, checkpoint: Option<EvidenceId>)

  datatype CriticEvidence = CriticEvidence(
    phase: Phase, phaseLocalCalls: int, phaseLocalLimit: int, criticUsed: bool,
    repairStart: Option<int>, receipt: Option<string>)

  datatype Evidence = Evidence(
    fact: Fact, schedule: Schedule, hostCheckUsed: Option<bool>,
    plannerChecks: Option<string>, critic: Option<CriticEvidence>)

  datatype Record = Record(
    sequence: nat, eventId: string, previous: Option<EvidenceId>, verdict: Verdict, reason: Reason,
    policy: Policy, state: State, localCalls: int, remainingLocalCalls: int, source: string,
    checkSource: Option<string>, failedChecks: int, duplicates: int, handoffUsed: bool,
    handoffCandidate: bool, allowedActions: seq<Action>, evidence: Evidence)

  /** SHA-256 of a canonical decision record, kept as its preimage. */
  datatype EvidenceId = EvidenceId(preimage: Record)

  datatype Decision = Decision(record: Record, evidenceId: EvidenceId)

  /** The characters Python's `str.strip` removes. */
  predicate IsSpace(c: char) {
    var u := c as int;
    9 <= u <= 13 || 28 <= u <= 32 || u == 0x85 || u == 0xA0 || u == 0x1680 || 0x2000 <= u <= 0x200A
    || u == 0x2028 || u == 0x2029 || u == 0x202F || u == 0x205F || u == 0x3000
  }

  function Utf8Size(text: string): nat {
    if text == "" then 0
    else
      var u := text[0] as int;
      (if u < 0x80 then 1 else if u < 0x800 then 2 else if u < 0x1_0000 then 3 else 4) + Utf8Size(text[1..])
  }

  predicate IsText(text: string, limit: nat, nonblank: bool) {
    Utf8Size(text) <= limit && (nonblank ==> exists i :: 0 <= i < |text| && !IsSpace(text[i]))
  }

  /** A lower-case hexadecimal SHA-256 digest of a source tree or artifact. */
  predicate IsHash(text: string) {
    |text| == 64 && forall i :: 0 <= i < 64 ==> '0' <= text[i] <= '9' || 'a' <= text[i] <= 'f'
  }

  predicate IsReturncode(code: int) {
    -0x8000_0000 <= code <= 0x7FFF_FFFF
  }

  function Ceiling(x: real): int {
    -(-x).Floor
  }

  /** Available time is rounded down to milliseconds and required reserves are rounded up. */
  function Milliseconds(seconds: real, positive: bool): Result<int, RouterError> {
    if seconds < 0.0 || seconds > MAX_SAFE_INTEGER as real / 1000.0 || (positive && seconds <= 0.0) then
      Failure(BadTimeBudget)
    else
      var ms := if positive then Ceiling(seconds * 1000.0) else (seconds * 1000.0).Floor;
      if ms > MAX_SAFE_INTEGER then Failure(BadTimeBudget) else Success(ms)
  }
}
