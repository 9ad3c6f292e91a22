/** The documents that travel between the stages (src/model.rs) and the error type (src/error.rs).

    Fields no modelled operation reads (toolchains, environment and redaction policies, artifacts,
    annotations, non-hermetic inputs of a receipt) are left out. */
module Model {
  import opened Basics

  const RECEIPT_SCHEMA_VERSION: string := "taskattest.receipt.v1"

  datatype CheckKind = Format | Lint | Test | TypeCheck | Build | Custom

  datatype Confidence = High | Medium | Explicit

  datatype CommandSpec = CommandSpec(program: string, args: seq<string>, workingDirectory: string)

  datatype DiscoverySource = DiscoverySource(path: string, sha256: string, evidence: string)

  datatype CheckDefinition = CheckDefinition(
    id: string, displayLabel: string, kind: CheckKind, command: CommandSpec, reason: string,
    sources: seq<DiscoverySource>, confidence: Confidence, coveragePaths: seq<string>,
    passEnvironment: seq<string>, nonHermeticInputs: seq<string>, replacesWorkflowSteps: seq<string>)

  datatype CheckSelection = CheckSelection(checkId: string, selected: bool, reason: string)

  datatype SourceIdentity = SourceIdentity(
    gitCommit: Option<string>, gitRef: Option<string>, dirty: bool, statusSha256: string,
    workspaceSha256: string, workspaceFileCount: nat, changedPaths: seq<string>)

  datatype WorkflowClassification = MatchedCheck | DiscoveredCheck | UnmodeledVerification | ReplacedByExplicitCheck

  datatype WorkflowObservation = WorkflowObservation(
    id: string, source: DiscoverySource, job: string, step: string, runSha256: string, runSummary: string,
    classification: WorkflowClassification, checkId: Option<string>, reason: string)

  datatype DiscoveryReport = DiscoveryReport(
    source: SourceIdentity, checks: seq<CheckDefinition>, selection: seq<CheckSelection>,
    coverageGaps: seq<string>, configurationFiles: seq<DiscoverySource>,
    workflowObservations: seq<WorkflowObservation>)

  datatype Invocation = Invocation(
    changedOnly: bool, requestedChecks: seq<string>, failFast: bool, maxRuntimeMs: nat, maxLogBytes: nat)

  datatype LogReference = LogReference(
    algorithm: string, digest: string, bytes: nat, handle: string, contentEncoding: string, sensitivity: string)

  datatype CheckOutcome = Passed | Failed | TimedOut | Cancelled | LogLimitExceeded | SpawnFailed | Skipped

  datatype CheckExecution = CheckExecution(
    check: CheckDefinition, startedUnixMs: nat, completedUnixMs: nat, durationMs: nat, outcome: CheckOutcome,
    exitCode: Option<int>, stdout: Option<LogReference>, stderr: Option<LogReference>,
    summariesTruncated: bool)

  datatype ReceiptOutcome = ReceiptPassed | ReceiptFailed | ReceiptIncomplete | ReceiptCancelled

  datatype ReceiptPayload = ReceiptPayload(
    schemaVersion: string, source: SourceIdentity, sourceAfter: SourceIdentity, sourceUnchanged: bool,
    invocation: Invocation, discovery: DiscoveryReport, startedUnixMs: nat, completedUnixMs: nat,
    durationMs: nat, outcome: ReceiptOutcome, checks: seq<CheckExecution>, coverageGaps: seq<string>)

  datatype Receipt = Receipt(receiptId: string, canonicalDigest: string, payload: ReceiptPayload)

  datatype ProgressState = CheckStarted | CheckFinished | ReceiptStored

  datatype ProgressEvent = ProgressEvent(
    sequence: nat, unixMs: nat, state: ProgressState, checkId: Option<string>,
    outcome: Option<CheckOutcome>, receiptId: Option<string>)

  datatype Recovery = Recovery(receiptId: string, receiptPersisted: bool, publicationErrorCode: string)

  datatype TaskError = TaskError(code: string, exitCode: nat, recovery: Option<Recovery>)

  function NewError(code: string, exitCode: nat): TaskError {
    TaskError(code, exitCode, None)
  }

  /** An error that carries no recovery document; none of these uses exit code 7. */
  predicate Plain(e: TaskError) {
    e.recovery.None? && e.exitCode in {3, 4, 5, 6}
  }

  const IO_ERROR: TaskError := NewError("io_failed", 6)

  const GIT_ERROR: TaskError := NewError("git_failed", 3)

  const DISCOVERY_ERROR: TaskError := NewError("discovery_failed", 3)

  const CONFIGURATION_ERROR: TaskError := NewError("configuration_invalid", 3)

  const EXECUTION_ERROR: TaskError := NewError("execution_failed", 4)

  const RECEIPT_ERROR: TaskError := NewError("receipt_invalid", 5)

  const OUTPUT_EXISTS_ERROR: TaskError := NewError("output_already_exists", 4)

  /** The error of a run whose receipt is stored but whose requested copy could not be published. */
  function PublicationError(receiptId: string, cause: TaskError): TaskError {
    TaskError("receipt_publication_failed_after_execution", 7, Some(Recovery(receiptId, true, cause.code)))
  }
}
