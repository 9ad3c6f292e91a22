/** What a receipt looks like as a JSON value, member by member.

    That data is read back as it was written does not tell which value stands under which name. Here every member of
    the records that make up a receipt is named with its value. A record is a list of values in declaration order; the
    value of its i-th field is emitted under the name of that field, because no record repeats a name.

    The texts of enumerations are those of the published schema. Lists and nested records are given as emissions of
    their own data. */
module Wire {
  import opened Basics
  import opened Model
  import opened Json
  import opened StrictReader
  import opened Records
  import opened ReceiptRecords
  import opened ReceiptCodec

  function NameAt(fields: Fields, i: nat): string
    requires i < Length(fields)
  {
    if i == 0 then fields.name else NameAt(fields.rest, i - 1)
  }

  lemma {:induction false} NameIsListed(fields: Fields, i: nat)
    requires i < Length(fields)
    ensures NameAt(fields, i) in Names(fields)
  {
    if i > 0 {
      NameIsListed(fields.rest, i - 1);
    }
  }

  /** The i-th value is emitted under the i-th name. */
  lemma {:induction false} EmittedMember(fields: Fields, ds: seq<Data>, i: nat)
    requires WellFormedFields(fields) && FieldsHaveType(fields, ListOf(ds)) && i < |ds| == Length(fields)
    ensures NameAt(fields, i) in Names(fields) && HasType(SchemaAt(fields, i), ds[i])
    ensures EmitFields(fields, ListOf(ds))[NameAt(fields, i)] == Emit(SchemaAt(fields, i), ds[i])
  {
    NameIsListed(fields, i);
    if i > 0 {
      EmittedMember(fields.rest, ds[1..], i - 1);
      NameIsListed(fields.rest, i - 1);
      AbsentMeans(fields.name, fields.rest);
    }
  }

  /** The emission of `d` has this member with this value. */
  ghost predicate Member(s: Schema, d: Data, name: string, value: Value) {
    && s.SRecord? && HasType(s, d) && name in Names(s.fields)
    && Emit(s, d) == VObject(EmitFields(s.fields, d.items)) && EmitFields(s.fields, d.items)[name] == value
  }

  lemma RecordMember(fields: Fields, ds: seq<Data>, i: nat, name: string)
    requires WellFormedFields(fields) && HasType(SRecord(fields), Record(ds)) && i < |ds| == Length(fields)
    requires NameAt(fields, i) == name
    ensures HasType(SchemaAt(fields, i), ds[i])
    ensures Member(SRecord(fields), Record(ds), name, Emit(SchemaAt(fields, i), ds[i]))
  {
    EmittedMember(fields, ds, i);
  }

  function Optional(text: Option<string>): Value {
    match text case None => VNull case Some(t) => VText(t)
  }

  lemma OptionalText(text: Option<string>)
    ensures HasType(SOption(SText), MaybeData(text, TextData))
    ensures Emit(SOption(SText), MaybeData(text, TextData)) == Optional(text)
  {
  }

  function ExitValue(code: Option<int>): Value {
    match code case None => VNull case Some(n) => VNumber(n)
  }

  lemma ExitEmitted(code: Option<int>)
    requires code.Some? ==> -0x8000_0000 <= code.value <= 0x7fff_ffff
    ensures HasType(SOption(I32Schema()), MaybeData(code, IntData))
    ensures Emit(SOption(I32Schema()), MaybeData(code, IntData)) == ExitValue(code)
  {
  }

  /** The texts of the published enumerations. */
  lemma EnumerationTexts()
    ensures OutcomeText(Passed) == "passed" && OutcomeText(Failed) == "failed" && OutcomeText(TimedOut) == "timed_out"
    ensures OutcomeText(Cancelled) == "cancelled" && OutcomeText(LogLimitExceeded) == "log_limit_exceeded"
    ensures OutcomeText(SpawnFailed) == "spawn_failed" && OutcomeText(Skipped) == "skipped"
    ensures ReceiptOutcomeText(ReceiptPassed) == "passed" && ReceiptOutcomeText(ReceiptFailed) == "failed"
    ensures ReceiptOutcomeText(ReceiptIncomplete) == "incomplete" && ReceiptOutcomeText(ReceiptCancelled) == "cancelled"
    ensures ClassificationText(MatchedCheck) == "matched_check" && ClassificationText(DiscoveredCheck) == "discovered_check"
    ensures ClassificationText(UnmodeledVerification) == "unmodeled_verification"
    ensures ClassificationText(ReplacedByExplicitCheck) == "replaced_by_explicit_check"
    ensures KindText(Format) == "format" && KindText(Lint) == "lint" && KindText(Test) == "test"
    ensures KindText(TypeCheck) == "type_check" && KindText(Build) == "build" && KindText(Custom) == "custom"
    ensures ConfidenceText(High) == "high" && ConfidenceText(Medium) == "medium" && ConfidenceText(Explicit) == "explicit"
  {
  }

  lemma LogWire(log: LogReference)
    requires LogFits(log)
    ensures var s, d := LogSchema(), LogData(log);
            && Member(s, d, "algorithm", VText(log.algorithm)) && Member(s, d, "digest", VText(log.digest))
            && Member(s, d, "bytes", VNumber(log.bytes)) && Member(s, d, "handle", VText(log.handle))
            && Member(s, d, "content_encoding", VText(log.contentEncoding))
            && Member(s, d, "sensitivity", VText(log.sensitivity))
  {
    var fields, ds := LogSchema().fields, LogParts(log);
    LogCodec(log);
    LogWellFormed();
    LogSchemas();
    RecordMember(fields, ds, 0, "algorithm");
    RecordMember(fields, ds, 1, "digest");
    RecordMember(fields, ds, 2, "bytes");
    RecordMember(fields, ds, 3, "handle");
    RecordMember(fields, ds, 4, "content_encoding");
    RecordMember(fields, ds, 5, "sensitivity");
  }

  lemma CommandWire(c: CommandSpec)
    ensures var s, d := CommandSchema(), CommandData(c);
            && Member(s, d, "program", VText(c.program)) && Member(s, d, "working_directory", VText(c.workingDirectory))
  {
    var fields, ds := CommandSchema().fields, CommandParts(c);
    CommandCodec(c);
    CommandSchemas();
    RecordMember(fields, ds, 0, "program");
    RecordMember(fields, ds, 2, "working_directory");
  }

  lemma DiscoverySourceWire(x: DiscoverySource)
    ensures var s, d := DiscoverySourceSchema(), DiscoverySourceData(x);
            && Member(s, d, "path", VText(x.path)) && Member(s, d, "sha256", VText(x.sha256))
            && Member(s, d, "evidence", VText(x.evidence))
  {
    var fields, ds := DiscoverySourceSchema().fields, DiscoverySourceParts(x);
    DiscoverySourceCodec(x);
    DiscoverySourceSchemas();
    RecordMember(fields, ds, 0, "path");
    RecordMember(fields, ds, 1, "sha256");
    RecordMember(fields, ds, 2, "evidence");
  }

  lemma SelectionWire(x: CheckSelection)
    ensures var s, d := SelectionSchema(), SelectionData(x);
            && Member(s, d, "check_id", VText(x.checkId)) && Member(s, d, "selected", VBool(x.selected))
            && Member(s, d, "reason", VText(x.reason))
  {
    var fields, ds := SelectionSchema().fields, SelectionParts(x);
    SelectionCodec(x);
    SelectionSchemas();
    RecordMember(fields, ds, 0, "check_id");
    RecordMember(fields, ds, 1, "selected");
    RecordMember(fields, ds, 2, "reason");
  }

  lemma LimitsWire(runtime: nat, bytes: nat)
    requires LimitsFit((runtime, bytes))
    ensures var s, d := LimitsSchema(), LimitsData((runtime, bytes));
            && Member(s, d, "max_runtime_ms_per_check", VNumber(runtime))
            && Member(s, d, "max_log_bytes_per_check", VNumber(bytes))
  {
    var fields, ds := LimitsSchema().fields, LimitsParts((runtime, bytes));
    LimitsCodec((runtime, bytes));
    LimitsSchemas();
    RecordMember(fields, ds, 0, "max_runtime_ms_per_check");
    RecordMember(fields, ds, 1, "max_log_bytes_per_check");
  }

  lemma InvocationWire(x: Invocation)
    requires InvocationFits(x)
    ensures var s, d := InvocationSchema(), InvocationData(x);
            && Member(s, d, "changed_only", VBool(x.changedOnly)) && Member(s, d, "fail_fast", VBool(x.failFast))
            && HasType(LimitsSchema(), LimitsData((x.maxRuntimeMs, x.maxLogBytes)))
            && Member(s, d, "limits", Emit(LimitsSchema(), LimitsData((x.maxRuntimeMs, x.maxLogBytes))))
  {
    var fields, ds := InvocationSchema().fields, InvocationParts(x);
    InvocationCodec(x);
    InvocationSchemas();
    RecordMember(fields, ds, 0, "changed_only");
    RecordMember(fields, ds, 2, "fail_fast");
    RecordMember(fields, ds, 3, "limits");
  }

  lemma SourceGitNames()
    ensures var fields := SourceSchema().fields;
            Length(fields) == 7
            && NameAt(fields, 0) == "git_commit"
            && NameAt(fields, 1) == "git_ref"
            && NameAt(fields, 2) == "dirty"
  {
  }

  lemma SourceGitMembers(fields: Fields, ds: seq<Data>, x: SourceIdentity)
    requires SourceFits(x)
    requires ds == SourceParts(x) && |ds| == Length(fields) && WellFormedFields(fields) && HasType(SRecord(fields), Record(ds))
    requires NameAt(fields, 0) == "git_commit" && SchemaAt(fields, 0) == SOption(SText)
    requires NameAt(fields, 1) == "git_ref" && SchemaAt(fields, 1) == SOption(SText)
    requires NameAt(fields, 2) == "dirty" && SchemaAt(fields, 2) == SBool
    ensures Member(SRecord(fields), Record(ds), "git_commit", Optional(x.gitCommit))
    ensures Member(SRecord(fields), Record(ds), "git_ref", Optional(x.gitRef))
    ensures Member(SRecord(fields), Record(ds), "dirty", VBool(x.dirty))
  {
    OptionalText(x.gitCommit);
    OptionalText(x.gitRef);
    RecordMember(fields, ds, 0, "git_commit");
    RecordMember(fields, ds, 1, "git_ref");
    RecordMember(fields, ds, 2, "dirty");
  }

  lemma SourceGitWire(x: SourceIdentity)
    requires SourceFits(x)
    ensures var s, d := SourceSchema(), SourceData(x);
            && Member(s, d, "git_commit", Optional(x.gitCommit))
            && Member(s, d, "git_ref", Optional(x.gitRef))
            && Member(s, d, "dirty", VBool(x.dirty))
  {
    SourceCodec(x);
    SourceWellFormed();
    SourceSchemas();
    SourceGitNames();
    SourceGitMembers(SourceSchema().fields, SourceParts(x), x);
  }

  lemma SourceDigestsNames()
    ensures var fields := SourceSchema().fields;
            Length(fields) == 7
            && NameAt(fields, 3) == "status_sha256"
            && NameAt(fields, 4) == "workspace_sha256"
            && NameAt(fields, 5) == "workspace_file_count"
  {
  }

  lemma SourceDigestsMembers(fields: Fields, ds: seq<Data>, x: SourceIdentity)
    requires SourceFits(x)
    requires ds == SourceParts(x) && |ds| == Length(fields) && WellFormedFields(fields) && HasType(SRecord(fields), Record(ds))
    requires NameAt(fields, 3) == "status_sha256" && SchemaAt(fields, 3) == SText
    requires NameAt(fields, 4) == "workspace_sha256" && SchemaAt(fields, 4) == SText
    requires NameAt(fields, 5) == "workspace_file_count" && SchemaAt(fields, 5) == U64Schema()
    ensures Member(SRecord(fields), Record(ds), "status_sha256", VText(x.statusSha256))
    ensures Member(SRecord(fields), Record(ds), "workspace_sha256", VText(x.workspaceSha256))
    ensures Member(SRecord(fields), Record(ds), "workspace_file_count", VNumber(x.workspaceFileCount))
  {
    RecordMember(fields, ds, 3, "status_sha256");
    RecordMember(fields, ds, 4, "workspace_sha256");
    RecordMember(fields, ds, 5, "workspace_file_count");
  }

  lemma SourceDigestsWire(x: SourceIdentity)
    requires SourceFits(x)
    ensures var s, d := SourceSchema(), SourceData(x);
            && Member(s, d, "status_sha256", VText(x.statusSha256))
            && Member(s, d, "workspace_sha256", VText(x.workspaceSha256))
            && Member(s, d, "workspace_file_count", VNumber(x.workspaceFileCount))
  {
    SourceCodec(x);
    SourceWellFormed();
    SourceSchemas();
    SourceDigestsNames();
    SourceDigestsMembers(SourceSchema().fields, SourceParts(x), x);
  }

  lemma ObservationStepNames()
    ensures var fields := ObservationSchema().fields;
            Length(fields) == 9
            && NameAt(fields, 0) == "id"
            && NameAt(fields, 2) == "job"
            && NameAt(fields, 3) == "step"
            && NameAt(fields, 8) == "reason"
  {
  }

  lemma ObservationStepMembers(fields: Fields, ds: seq<Data>, x: WorkflowObservation)
    requires ds == ObservationParts(x) && |ds| == Length(fields) && WellFormedFields(fields) && HasType(SRecord(fields), Record(ds))
    requires NameAt(fields, 0) == "id" && SchemaAt(fields, 0) == SText
    requires NameAt(fields, 2) == "job" && SchemaAt(fields, 2) == SText
    requires NameAt(fields, 3) == "step" && SchemaAt(fields, 3) == SText
    requires NameAt(fields, 8) == "reason" && SchemaAt(fields, 8) == SText
    ensures Member(SRecord(fields), Record(ds), "id", VText(x.id))
    ensures Member(SRecord(fields), Record(ds), "job", VText(x.job))
    ensures Member(SRecord(fields), Record(ds), "step", VText(x.step))
    ensures Member(SRecord(fields), Record(ds), "reason", VText(x.reason))
  {
    RecordMember(fields, ds, 0, "id");
    RecordMember(fields, ds, 2, "job");
    RecordMember(fields, ds, 3, "step");
    RecordMember(fields, ds, 8, "reason");
  }

  lemma ObservationStepWire(x: WorkflowObservation)
    ensures var s, d := ObservationSchema(), ObservationData(x);
            && Member(s, d, "id", VText(x.id))
            && Member(s, d, "job", VText(x.job))
            && Member(s, d, "step", VText(x.step))
            && Member(s, d, "reason", VText(x.reason))
  {
    ObservationCodec(x);
    ObservationWellFormed();
    ObservationSchemas();
    ObservationStepNames();
    ObservationStepMembers(ObservationSchema().fields, ObservationParts(x), x);
  }

  lemma ObservationRunNames()
    ensures var fields := ObservationSchema().fields;
            Length(fields) == 9
            && NameAt(fields, 4) == "run_sha256"
            && NameAt(fields, 5) == "run_summary"
  {
  }

  lemma ObservationRunMembers(fields: Fields, ds: seq<Data>, x: WorkflowObservation)
    requires ds == ObservationParts(x) && |ds| == Length(fields) && WellFormedFields(fields) && HasType(SRecord(fields), Record(ds))
    requires NameAt(fields, 4) == "run_sha256" && SchemaAt(fields, 4) == SText
    requires NameAt(fields, 5) == "run_summary" && SchemaAt(fields, 5) == SText
    ensures Member(SRecord(fields), Record(ds), "run_sha256", VText(x.runSha256))
    ensures Member(SRecord(fields), Record(ds), "run_summary", VText(x.runSummary))
  {
    RecordMember(fields, ds, 4, "run_sha256");
    RecordMember(fields, ds, 5, "run_summary");
  }

  lemma ObservationRunWire(x: WorkflowObservation)
    ensures var s, d := ObservationSchema(), ObservationData(x);
            && Member(s, d, "run_sha256", VText(x.runSha256))
            && Member(s, d, "run_summary", VText(x.runSummary))
  {
    ObservationCodec(x);
    ObservationWellFormed();
    ObservationSchemas();
    ObservationRunNames();
    ObservationRunMembers(ObservationSchema().fields, ObservationParts(x), x);
  }

  lemma ObservationResultNames()
    ensures var fields := ObservationSchema().fields;
            Length(fields) == 9
            && NameAt(fields, 6) == "classification"
            && NameAt(fields, 7) == "check_id"
  {
  }

  lemma ObservationResultMembers(fields: Fields, ds: seq<Data>, x: WorkflowObservation)
    requires ds == ObservationParts(x) && |ds| == Length(fields) && WellFormedFields(fields) && HasType(SRecord(fields), Record(ds))
    requires NameAt(fields, 6) == "classification" && SchemaAt(fields, 6) == ClassificationSchema()
    requires NameAt(fields, 7) == "check_id" && SchemaAt(fields, 7) == SOption(SText)
    ensures Member(SRecord(fields), Record(ds), "classification", VText(ClassificationText(x.classification)))
    ensures Member(SRecord(fields), Record(ds), "check_id", Optional(x.checkId))
  {
    OptionalText(x.checkId);
    RecordMember(fields, ds, 6, "classification");
    RecordMember(fields, ds, 7, "check_id");
  }

  lemma ObservationResultWire(x: WorkflowObservation)
    ensures var s, d := ObservationSchema(), ObservationData(x);
            && Member(s, d, "classification", VText(ClassificationText(x.classification)))
            && Member(s, d, "check_id", Optional(x.checkId))
  {
    ObservationCodec(x);
    ObservationWellFormed();
    ObservationSchemas();
    ObservationResultNames();
    ObservationResultMembers(ObservationSchema().fields, ObservationParts(x), x);
  }

  lemma CheckTextsNames()
    ensures var fields := CheckSchema().fields;
            Length(fields) == 11
            && NameAt(fields, 0) == "id"
            && NameAt(fields, 1) == "label"
            && NameAt(fields, 2) == "kind"
            && NameAt(fields, 4) == "reason"
            && NameAt(fields, 6) == "confidence"
  {
  }

  lemma CheckTextsMembers(fields: Fields, ds: seq<Data>, x: CheckDefinition)
    requires ds == CheckParts(x) && |ds| == Length(fields) && WellFormedFields(fields) && HasType(SRecord(fields), Record(ds))
    requires NameAt(fields, 0) == "id" && SchemaAt(fields, 0) == SText
    requires NameAt(fields, 1) == "label" && SchemaAt(fields, 1) == SText
    requires NameAt(fields, 2) == "kind" && SchemaAt(fields, 2) == KindSchema()
    requires NameAt(fields, 4) == "reason" && SchemaAt(fields, 4) == SText
    requires NameAt(fields, 6) == "confidence" && SchemaAt(fields, 6) == ConfidenceSchema()
    ensures Member(SRecord(fields), Record(ds), "id", VText(x.id))
    ensures Member(SRecord(fields), Record(ds), "label", VText(x.displayLabel))
    ensures Member(SRecord(fields), Record(ds), "kind", VText(KindText(x.kind)))
    ensures Member(SRecord(fields), Record(ds), "reason", VText(x.reason))
    ensures Member(SRecord(fields), Record(ds), "confidence", VText(ConfidenceText(x.confidence)))
  {
    RecordMember(fields, ds, 0, "id");
    RecordMember(fields, ds, 1, "label");
    RecordMember(fields, ds, 2, "kind");
    RecordMember(fields, ds, 4, "reason");
    RecordMember(fields, ds, 6, "confidence");
  }

  lemma CheckTextsWire(x: CheckDefinition)
    ensures var s, d := CheckSchema(), CheckData(x);
            && Member(s, d, "id", VText(x.id))
            && Member(s, d, "label", VText(x.displayLabel))
            && Member(s, d, "kind", VText(KindText(x.kind)))
            && Member(s, d, "reason", VText(x.reason))
            && Member(s, d, "confidence", VText(ConfidenceText(x.confidence)))
  {
    CheckCodec(x);
    CheckWellFormed();
    CheckSchemas();
    CheckTextsNames();
    CheckTextsMembers(CheckSchema().fields, CheckParts(x), x);
  }

  function TextsValue(xs: seq<string>): Value {
    TextsCodec(xs);
    Emit(TextsSchema(), TextsData(xs))
  }

  lemma CheckListsNames()
    ensures var fields := CheckSchema().fields;
            Length(fields) == 11
            && NameAt(fields, 7) == "coverage_paths"
            && NameAt(fields, 8) == "pass_environment"
            && NameAt(fields, 9) == "non_hermetic_inputs"
            && NameAt(fields, 10) == "replaces_workflow_steps"
  {
  }

  lemma CheckListsMembers(fields: Fields, ds: seq<Data>, x: CheckDefinition)
    requires ds == CheckParts(x) && |ds| == Length(fields) && WellFormedFields(fields) && HasType(SRecord(fields), Record(ds))
    requires NameAt(fields, 7) == "coverage_paths" && SchemaAt(fields, 7) == TextsSchema()
    requires NameAt(fields, 8) == "pass_environment" && SchemaAt(fields, 8) == TextsSchema()
    requires NameAt(fields, 9) == "non_hermetic_inputs" && SchemaAt(fields, 9) == TextsSchema()
    requires NameAt(fields, 10) == "replaces_workflow_steps" && SchemaAt(fields, 10) == TextsSchema()
    ensures Member(SRecord(fields), Record(ds), "coverage_paths", TextsValue(x.coveragePaths))
    ensures Member(SRecord(fields), Record(ds), "pass_environment", TextsValue(x.passEnvironment))
    ensures Member(SRecord(fields), Record(ds), "non_hermetic_inputs", TextsValue(x.nonHermeticInputs))
    ensures Member(SRecord(fields), Record(ds), "replaces_workflow_steps", TextsValue(x.replacesWorkflowSteps))
  {
    RecordMember(fields, ds, 7, "coverage_paths");
    RecordMember(fields, ds, 8, "pass_environment");
    RecordMember(fields, ds, 9, "non_hermetic_inputs");
    RecordMember(fields, ds, 10, "replaces_workflow_steps");
  }

  lemma CheckListsWire(x: CheckDefinition)
    ensures var s, d := CheckSchema(), CheckData(x);
            && Member(s, d, "coverage_paths", TextsValue(x.coveragePaths))
            && Member(s, d, "pass_environment", TextsValue(x.passEnvironment))
            && Member(s, d, "non_hermetic_inputs", TextsValue(x.nonHermeticInputs))
            && Member(s, d, "replaces_workflow_steps", TextsValue(x.replacesWorkflowSteps))
  {
    CheckCodec(x);
    CheckWellFormed();
    CheckSchemas();
    CheckListsNames();
    CheckListsMembers(CheckSchema().fields, CheckParts(x), x);
  }

  function LogValue(log: Option<LogReference>): Value
    requires log.Some? ==> LogFits(log.value)
  {
    match log
    case None => VNull
    case Some(l) => LogCodec(l); Emit(LogSchema(), LogData(l))
  }

  lemma LogEmitted(log: Option<LogReference>)
    requires log.Some? ==> LogFits(log.value)
    ensures HasType(SOption(LogSchema()), MaybeData(log, LogData))
    ensures Emit(SOption(LogSchema()), MaybeData(log, LogData)) == LogValue(log)
  {
    if log.Some? {
      LogCodec(log.value);
    }
  }

  lemma ExecutionTimesNames()
    ensures var fields := ExecutionSchema().fields;
            Length(fields) == 11
            && NameAt(fields, 1) == "started_unix_ms"
            && NameAt(fields, 2) == "completed_unix_ms"
            && NameAt(fields, 3) == "duration_ms"
            && NameAt(fields, 4) == "outcome"
  {
  }

  lemma ExecutionTimesMembers(fields: Fields, ds: seq<Data>, x: SummarisedExecution)
    requires ExecutionFits(x)
    requires ds == ExecutionParts(x) && |ds| == Length(fields) && WellFormedFields(fields) && HasType(SRecord(fields), Record(ds))
    requires NameAt(fields, 1) == "started_unix_ms" && SchemaAt(fields, 1) == U64Schema()
    requires NameAt(fields, 2) == "completed_unix_ms" && SchemaAt(fields, 2) == U64Schema()
    requires NameAt(fields, 3) == "duration_ms" && SchemaAt(fields, 3) == U64Schema()
    requires NameAt(fields, 4) == "outcome" && SchemaAt(fields, 4) == OutcomeSchema()
    ensures Member(SRecord(fields), Record(ds), "started_unix_ms", VNumber(x.0.startedUnixMs))
    ensures Member(SRecord(fields), Record(ds), "completed_unix_ms", VNumber(x.0.completedUnixMs))
    ensures Member(SRecord(fields), Record(ds), "duration_ms", VNumber(x.0.durationMs))
    ensures Member(SRecord(fields), Record(ds), "outcome", VText(OutcomeText(x.0.outcome)))
  {
    RecordMember(fields, ds, 1, "started_unix_ms");
    RecordMember(fields, ds, 2, "completed_unix_ms");
    RecordMember(fields, ds, 3, "duration_ms");
    RecordMember(fields, ds, 4, "outcome");
  }

  lemma ExecutionTimesWire(x: SummarisedExecution)
    requires ExecutionFits(x)
    ensures var s, d := ExecutionSchema(), ExecutionData(x);
            && Member(s, d, "started_unix_ms", VNumber(x.0.startedUnixMs))
            && Member(s, d, "completed_unix_ms", VNumber(x.0.completedUnixMs))
            && Member(s, d, "duration_ms", VNumber(x.0.durationMs))
            && Member(s, d, "outcome", VText(OutcomeText(x.0.outcome)))
  {
    ExecutionCodec(x);
    ExecutionWellFormed();
    ExecutionSchemas();
    ExecutionTimesNames();
    ExecutionTimesMembers(ExecutionSchema().fields, ExecutionParts(x), x);
  }

  lemma ExecutionLogsNames()
    ensures var fields := ExecutionSchema().fields;
            Length(fields) == 11
            && NameAt(fields, 6) == "stdout"
            && NameAt(fields, 7) == "stderr"
  {
  }

  lemma ExecutionLogsMembers(fields: Fields, ds: seq<Data>, x: SummarisedExecution)
    requires ExecutionFits(x)
    requires ds == ExecutionParts(x) && |ds| == Length(fields) && WellFormedFields(fields) && HasType(SRecord(fields), Record(ds))
    requires NameAt(fields, 6) == "stdout" && SchemaAt(fields, 6) == SOption(LogSchema())
    requires NameAt(fields, 7) == "stderr" && SchemaAt(fields, 7) == SOption(LogSchema())
    ensures Member(SRecord(fields), Record(ds), "stdout", LogValue(x.0.stdout))
    ensures Member(SRecord(fields), Record(ds), "stderr", LogValue(x.0.stderr))
  {
    LogEmitted(x.0.stdout);
    LogEmitted(x.0.stderr);
    RecordMember(fields, ds, 6, "stdout");
    RecordMember(fields, ds, 7, "stderr");
  }

  lemma ExecutionLogsWire(x: SummarisedExecution)
    requires ExecutionFits(x)
    ensures var s, d := ExecutionSchema(), ExecutionData(x);
            && Member(s, d, "stdout", LogValue(x.0.stdout))
            && Member(s, d, "stderr", LogValue(x.0.stderr))
  {
    ExecutionCodec(x);
    ExecutionWellFormed();
    ExecutionSchemas();
    ExecutionLogsNames();
    ExecutionLogsMembers(ExecutionSchema().fields, ExecutionParts(x), x);
  }

  lemma ExecutionSummariesNames()
    ensures var fields := ExecutionSchema().fields;
            Length(fields) == 11
            && NameAt(fields, 8) == "stdout_summary"
            && NameAt(fields, 9) == "stderr_summary"
            && NameAt(fields, 10) == "diagnostic_summaries_truncated"
  {
  }

  lemma ExecutionSummariesMembers(fields: Fields, ds: seq<Data>, x: SummarisedExecution)
    requires ExecutionFits(x)
    requires ds == ExecutionParts(x) && |ds| == Length(fields) && WellFormedFields(fields) && HasType(SRecord(fields), Record(ds))
    requires NameAt(fields, 8) == "stdout_summary" && SchemaAt(fields, 8) == SText
    requires NameAt(fields, 9) == "stderr_summary" && SchemaAt(fields, 9) == SText
    requires NameAt(fields, 10) == "diagnostic_summaries_truncated" && SchemaAt(fields, 10) == SBool
    ensures Member(SRecord(fields), Record(ds), "stdout_summary", VText(x.1.0))
    ensures Member(SRecord(fields), Record(ds), "stderr_summary", VText(x.1.1))
    ensures Member(SRecord(fields), Record(ds), "diagnostic_summaries_truncated", VBool(x.0.summariesTruncated))
  {
    RecordMember(fields, ds, 8, "stdout_summary");
    RecordMember(fields, ds, 9, "stderr_summary");
    RecordMember(fields, ds, 10, "diagnostic_summaries_truncated");
  }

  lemma ExecutionSummariesWire(x: SummarisedExecution)
    requires ExecutionFits(x)
    ensures var s, d := ExecutionSchema(), ExecutionData(x);
            && Member(s, d, "stdout_summary", VText(x.1.0))
            && Member(s, d, "stderr_summary", VText(x.1.1))
            && Member(s, d, "diagnostic_summaries_truncated", VBool(x.0.summariesTruncated))
  {
    ExecutionCodec(x);
    ExecutionWellFormed();
    ExecutionSchemas();
    ExecutionSummariesNames();
    ExecutionSummariesMembers(ExecutionSchema().fields, ExecutionParts(x), x);
  }

  lemma ExecutionExitNames()
    ensures var fields := ExecutionSchema().fields;
            Length(fields) == 11
            && NameAt(fields, 5) == "exit_code"
  {
  }

  lemma ExecutionExitMembers(fields: Fields, ds: seq<Data>, x: SummarisedExecution)
    requires ExecutionFits(x)
    requires ds == ExecutionParts(x) && |ds| == Length(fields) && WellFormedFields(fields) && HasType(SRecord(fields), Record(ds))
    requires NameAt(fields, 5) == "exit_code" && SchemaAt(fields, 5) == SOption(I32Schema())
    ensures Member(SRecord(fields), Record(ds), "exit_code", ExitValue(x.0.exitCode))
  {
    ExitEmitted(x.0.exitCode);
    RecordMember(fields, ds, 5, "exit_code");
  }

  lemma ExecutionExitWire(x: SummarisedExecution)
    requires ExecutionFits(x)
    ensures var s, d := ExecutionSchema(), ExecutionData(x);
            && Member(s, d, "exit_code", ExitValue(x.0.exitCode))
  {
    ExecutionCodec(x);
    ExecutionWellFormed();
    ExecutionSchemas();
    ExecutionExitNames();
    ExecutionExitMembers(ExecutionSchema().fields, ExecutionParts(x), x);
  }

  // The receipt itself, its payload flattened into it.

  lemma {:induction false} AppendAt(a: Fields, b: Fields, i: nat)
    requires i < Length(a) + Length(b)
    ensures Length(Append(a, b)) == Length(a) + Length(b)
    ensures NameAt(Append(a, b), i) == if i < Length(a) then NameAt(a, i) else NameAt(b, i - Length(a))
    ensures SchemaAt(Append(a, b), i) == if i < Length(a) then SchemaAt(a, i) else SchemaAt(b, i - Length(a))
  {
    AppendLength(a, b);
    if a.Field? && i > 0 {
      AppendAt(a.rest, b, i - 1);
    }
  }

  /** Where the groups of fields stand in the flattened record. */
  lemma GroupAt(ids: Fields, source: Fields, discovery: Fields, timing: Fields, execution: Fields, policy: Fields, i: nat)
    requires Length(ids) == 2 && Length(source) == 6 && Length(discovery) == 1 && Length(timing) == 4 && Length(execution) == 1
    ensures var all := Append(ids, Append(source, Append(discovery, Append(Append(timing, execution), policy))));
            && Length(all) == 14 + Length(policy)
            && (i < 2 ==> NameAt(all, i) == NameAt(ids, i) && SchemaAt(all, i) == SchemaAt(ids, i))
            && (i < 6 ==> NameAt(all, 2 + i) == NameAt(source, i) && SchemaAt(all, 2 + i) == SchemaAt(source, i))
            && (i < 4 ==> NameAt(all, 9 + i) == NameAt(timing, i) && SchemaAt(all, 9 + i) == SchemaAt(timing, i))
  {
    var results := Append(timing, execution);
    var third := Append(results, policy);
    var second := Append(discovery, third);
    var first := Append(source, second);
    AppendAt(timing, execution, if i < 4 then i else 0);
    AppendAt(results, policy, if i < 4 then i else 0);
    AppendAt(discovery, third, if i < 4 then 1 + i else 0);
    AppendAt(source, second, if i < 4 then 7 + i else 0);
    AppendAt(ids, first, if i < 4 then 9 + i else 0);
    AppendAt(source, second, if i < 6 then i else 0);
    AppendAt(ids, first, if i < 6 then 2 + i else 0);
    AppendAt(ids, first, if i < 2 then i else 0);
  }

  lemma GroupNames()
    ensures NameAt(IdFields(), 0) == "receipt_id" && NameAt(IdFields(), 1) == "canonical_digest"
    ensures NameAt(SourceFields(), 2) == "source" && NameAt(SourceFields(), 3) == "source_after"
    ensures NameAt(SourceFields(), 4) == "source_unchanged"
    ensures NameAt(TimingFields(), 0) == "started_unix_ms" && NameAt(TimingFields(), 1) == "completed_unix_ms"
    ensures NameAt(TimingFields(), 2) == "duration_ms" && NameAt(TimingFields(), 3) == "outcome"
    ensures SchemaAt(IdFields(), 0) == SText && SchemaAt(IdFields(), 1) == SText
    ensures SchemaAt(SourceFields(), 2) == SourceSchema() && SchemaAt(SourceFields(), 3) == SourceSchema()
    ensures SchemaAt(SourceFields(), 4) == SBool
    ensures SchemaAt(TimingFields(), 0) == U64Schema() && SchemaAt(TimingFields(), 1) == U64Schema()
    ensures SchemaAt(TimingFields(), 2) == U64Schema() && SchemaAt(TimingFields(), 3) == ReceiptOutcomeSchema()
  {
  }

  function SourceValue(x: SourceIdentity): Value
    requires SourceFits(x)
  {
    SourceCodec(x);
    Emit(SourceSchema(), SourceData(x))
  }

  lemma PartsAt(r: Receipt, x: Extras)
    requires Fits(r, x)
    ensures var ds, p := ReceiptParts(r, x), r.payload;
            && |ds| == 21 && ds[0] == DText(r.receiptId) && ds[1] == DText(r.canonicalDigest)
            && ds[4] == SourceData(p.source) && ds[5] == SourceData(p.sourceAfter) && ds[6] == DBool(p.sourceUnchanged)
            && ds[9] == DNumber(p.startedUnixMs) && ds[10] == DNumber(p.completedUnixMs) && ds[11] == DNumber(p.durationMs)
            && ds[12] == DText(ReceiptOutcomeText(p.outcome))
  {
    PolicyTyped(r.payload, x);
  }

  /** The names, schemas and values at nine places of the flattened record. */
  predicate Placed(all: Fields, ds: seq<Data>, r: Receipt) {
    var p := r.payload;
    && Length(all) == |ds| == 21
    && NameAt(all, 0) == "receipt_id" && SchemaAt(all, 0) == SText && ds[0] == DText(r.receiptId)
    && NameAt(all, 1) == "canonical_digest" && SchemaAt(all, 1) == SText && ds[1] == DText(r.canonicalDigest)
    && NameAt(all, 4) == "source" && SchemaAt(all, 4) == SourceSchema() && ds[4] == SourceData(p.source)
    && NameAt(all, 5) == "source_after" && SchemaAt(all, 5) == SourceSchema() && ds[5] == SourceData(p.sourceAfter)
    && NameAt(all, 6) == "source_unchanged" && SchemaAt(all, 6) == SBool && ds[6] == DBool(p.sourceUnchanged)
    && NameAt(all, 9) == "started_unix_ms" && SchemaAt(all, 9) == U64Schema() && ds[9] == DNumber(p.startedUnixMs)
    && NameAt(all, 10) == "completed_unix_ms" && SchemaAt(all, 10) == U64Schema() && ds[10] == DNumber(p.completedUnixMs)
    && NameAt(all, 11) == "duration_ms" && SchemaAt(all, 11) == U64Schema() && ds[11] == DNumber(p.durationMs)
    && NameAt(all, 12) == "outcome" && SchemaAt(all, 12) == ReceiptOutcomeSchema()
    && ds[12] == DText(ReceiptOutcomeText(p.outcome))
  }

  lemma GroupsPlaced(ids: Fields, source: Fields, discovery: Fields, timing: Fields, execution: Fields, policy: Fields)
    requires Length(ids) == 2 && Length(source) == 6 && Length(discovery) == 1 && Length(timing) == 4 && Length(execution) == 1
    requires Length(policy) == 7
    ensures var all := Append(ids, Append(source, Append(discovery, Append(Append(timing, execution), policy))));
            && Length(all) == 21
            && NameAt(all, 0) == NameAt(ids, 0) && SchemaAt(all, 0) == SchemaAt(ids, 0)
            && NameAt(all, 1) == NameAt(ids, 1) && SchemaAt(all, 1) == SchemaAt(ids, 1)
            && NameAt(all, 4) == NameAt(source, 2) && SchemaAt(all, 4) == SchemaAt(source, 2)
            && NameAt(all, 5) == NameAt(source, 3) && SchemaAt(all, 5) == SchemaAt(source, 3)
            && NameAt(all, 6) == NameAt(source, 4) && SchemaAt(all, 6) == SchemaAt(source, 4)
            && NameAt(all, 9) == NameAt(timing, 0) && SchemaAt(all, 9) == SchemaAt(timing, 0)
            && NameAt(all, 10) == NameAt(timing, 1) && SchemaAt(all, 10) == SchemaAt(timing, 1)
            && NameAt(all, 11) == NameAt(timing, 2) && SchemaAt(all, 11) == SchemaAt(timing, 2)
            && NameAt(all, 12) == NameAt(timing, 3) && SchemaAt(all, 12) == SchemaAt(timing, 3)
  {
    GroupAt(ids, source, discovery, timing, execution, policy, 0);
    GroupAt(ids, source, discovery, timing, execution, policy, 1);
    GroupAt(ids, source, discovery, timing, execution, policy, 2);
    GroupAt(ids, source, discovery, timing, execution, policy, 3);
    GroupAt(ids, source, discovery, timing, execution, policy, 4);
  }

  /** The same for any fields, so that the proof does not depend on which they are. */
  lemma PlacedMembers(all: Fields, ds: seq<Data>, r: Receipt)
    requires Placed(all, ds, r) && WellFormedFields(all) && HasType(SRecord(all), Record(ds))
    requires SourceFits(r.payload.source) && SourceFits(r.payload.sourceAfter)
    ensures ReceiptMembers(SRecord(all), Record(ds), r)
  {
    SourceCodec(r.payload.source);
    SourceCodec(r.payload.sourceAfter);
    RecordMember(all, ds, 0, "receipt_id");
    RecordMember(all, ds, 1, "canonical_digest");
    RecordMember(all, ds, 4, "source");
    RecordMember(all, ds, 5, "source_after");
    RecordMember(all, ds, 6, "source_unchanged");
    RecordMember(all, ds, 9, "started_unix_ms");
    RecordMember(all, ds, 10, "completed_unix_ms");
    RecordMember(all, ds, 11, "duration_ms");
    RecordMember(all, ds, 12, "outcome");
  }

  ghost predicate ReceiptMembers(s: Schema, d: Data, r: Receipt)
    requires SourceFits(r.payload.source) && SourceFits(r.payload.sourceAfter)
  {
    var p := r.payload;
    && Member(s, d, "receipt_id", VText(r.receiptId)) && Member(s, d, "canonical_digest", VText(r.canonicalDigest))
    && Member(s, d, "source", SourceValue(p.source)) && Member(s, d, "source_after", SourceValue(p.sourceAfter))
    && Member(s, d, "source_unchanged", VBool(p.sourceUnchanged))
    && Member(s, d, "started_unix_ms", VNumber(p.startedUnixMs))
    && Member(s, d, "completed_unix_ms", VNumber(p.completedUnixMs))
    && Member(s, d, "duration_ms", VNumber(p.durationMs))
    && Member(s, d, "outcome", VText(ReceiptOutcomeText(p.outcome)))
  }

  /** What stands under the names that tell a receipt's identity, its sources, its times and its outcome. */
  lemma ReceiptWire(r: Receipt, x: Extras)
    requires Fits(r, x)
    ensures ReceiptMembers(ReceiptSchema(), ToData(r, x), r)
  {
    ReceiptTyped(r, x);
    ReceiptWellFormed();
    ReceiptPlaced(r, x);
    PlacedMembers(Append(IdFields(), PayloadFields()), ReceiptParts(r, x), r);
  }

  lemma ReceiptPlaced(r: Receipt, x: Extras)
    requires Fits(r, x)
    ensures Placed(Append(IdFields(), PayloadFields()), ReceiptParts(r, x), r)
  {
    GroupLengths();
    GroupNames();
    PolicySchemasAre();
    PartsAt(r, x);
    GroupsPlaced(IdFields(), SourceFields(), DiscoveryFields(), TimingFields(), ExecutionFields(), PolicyFields());
  }
}
