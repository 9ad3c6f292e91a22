/** The records of a receipt (src/model.rs) as data of the strict reader's schema.

    For a record X there are, in this order:
      - XParts and XData, the values of its fields in the order they are declared, and the record of them;
      - XFrom, the X that data stands for, if it has the right shape;
      - XSchemas, the schemas of the fields;
      - XCodec: XData has the schema of X, and XFrom gives X back;
      - XTotal: XFrom succeeds on all data of the schema.
    The two largest records prove XCodec and XTotal in groups of fields. XFits says that every number has the
    width of its field. */
module ReceiptRecords {
  import opened Basics
  import opened Model
  import opened StrictReader
  import opened Records

  // Enumerations.

  function KindText(kind: CheckKind): string {
    match kind
    case Format => "format"
    case Lint => "lint"
    case Test => "test"
    case TypeCheck => "type_check"
    case Build => "build"
    case Custom => "custom"
  }

  function KindFrom(d: Data): Option<CheckKind> {
    if d == DText("format") then Some(Format)
    else if d == DText("lint") then Some(Lint)
    else if d == DText("test") then Some(Test)
    else if d == DText("type_check") then Some(TypeCheck)
    else if d == DText("build") then Some(Build)
    else if d == DText("custom") then Some(Custom)
    else None
  }

  function ConfidenceText(confidence: Confidence): string {
    match confidence case High => "high" case Medium => "medium" case Explicit => "explicit"
  }

  function ConfidenceFrom(d: Data): Option<Confidence> {
    if d == DText("high") then Some(High)
    else if d == DText("medium") then Some(Medium)
    else if d == DText("explicit") then Some(Explicit)
    else None
  }

  function ClassificationText(classification: WorkflowClassification): string {
    match classification
    case MatchedCheck => "matched_check"
    case DiscoveredCheck => "discovered_check"
    case UnmodeledVerification => "unmodeled_verification"
    case ReplacedByExplicitCheck => "replaced_by_explicit_check"
  }

  function ClassificationFrom(d: Data): Option<WorkflowClassification> {
    if d == DText("matched_check") then Some(MatchedCheck)
    else if d == DText("discovered_check") then Some(DiscoveredCheck)
    else if d == DText("unmodeled_verification") then Some(UnmodeledVerification)
    else if d == DText("replaced_by_explicit_check") then Some(ReplacedByExplicitCheck)
    else None
  }

  function OutcomeText(outcome: CheckOutcome): string {
    match outcome
    case Passed => "passed"
    case Failed => "failed"
    case TimedOut => "timed_out"
    case Cancelled => "cancelled"
    case LogLimitExceeded => "log_limit_exceeded"
    case SpawnFailed => "spawn_failed"
    case Skipped => "skipped"
  }

  function OutcomeFrom(d: Data): Option<CheckOutcome> {
    if d == DText("passed") then Some(Passed)
    else if d == DText("failed") then Some(Failed)
    else if d == DText("timed_out") then Some(TimedOut)
    else if d == DText("cancelled") then Some(Cancelled)
    else if d == DText("log_limit_exceeded") then Some(LogLimitExceeded)
    else if d == DText("spawn_failed") then Some(SpawnFailed)
    else if d == DText("skipped") then Some(Skipped)
    else None
  }

  function ReceiptOutcomeText(outcome: ReceiptOutcome): string {
    match outcome
    case ReceiptPassed => "passed"
    case ReceiptFailed => "failed"
    case ReceiptIncomplete => "incomplete"
    case ReceiptCancelled => "cancelled"
  }

  function ReceiptOutcomeFrom(d: Data): Option<ReceiptOutcome> {
    if d == DText("passed") then Some(ReceiptPassed)
    else if d == DText("failed") then Some(ReceiptFailed)
    else if d == DText("incomplete") then Some(ReceiptIncomplete)
    else if d == DText("cancelled") then Some(ReceiptCancelled)
    else None
  }

  lemma KindCodec(kind: CheckKind)
    ensures HasType(KindSchema(), DText(KindText(kind))) && KindFrom(DText(KindText(kind))) == Some(kind)
  {
  }

  lemma ConfidenceCodec(confidence: Confidence)
    ensures HasType(ConfidenceSchema(), DText(ConfidenceText(confidence)))
    ensures ConfidenceFrom(DText(ConfidenceText(confidence))) == Some(confidence)
  {
  }

  lemma ClassificationCodec(classification: WorkflowClassification)
    ensures HasType(ClassificationSchema(), DText(ClassificationText(classification)))
    ensures ClassificationFrom(DText(ClassificationText(classification))) == Some(classification)
  {
  }

  lemma OutcomeCodec(outcome: CheckOutcome)
    ensures HasType(OutcomeSchema(), DText(OutcomeText(outcome)))
    ensures OutcomeFrom(DText(OutcomeText(outcome))) == Some(outcome)
  {
  }

  lemma ReceiptOutcomeCodec(outcome: ReceiptOutcome)
    ensures HasType(ReceiptOutcomeSchema(), DText(ReceiptOutcomeText(outcome)))
    ensures ReceiptOutcomeFrom(DText(ReceiptOutcomeText(outcome))) == Some(outcome)
  {
  }

  lemma KindTotal(d: Data)
    requires HasType(KindSchema(), d)
    ensures KindFrom(d).Some?
  {
  }

  lemma ConfidenceTotal(d: Data)
    requires HasType(ConfidenceSchema(), d)
    ensures ConfidenceFrom(d).Some?
  {
  }

  lemma ClassificationTotal(d: Data)
    requires HasType(ClassificationSchema(), d)
    ensures ClassificationFrom(d).Some?
  {
  }

  lemma OutcomeTotal(d: Data)
    requires HasType(OutcomeSchema(), d)
    ensures OutcomeFrom(d).Some?
  {
  }

  lemma ReceiptOutcomeTotal(d: Data)
    requires HasType(ReceiptOutcomeSchema(), d)
    ensures ReceiptOutcomeFrom(d).Some?
  {
  }

  function IntData(n: int): Data {
    DNumber(n)
  }

  function IntFrom(d: Data): Option<int> {
    if d.DNumber? then Some(d.n) else None
  }

  lemma MaybeIntCodec(x: Option<int>)
    requires x.Some? ==> -0x8000_0000 <= x.value <= 0x7fff_ffff
    ensures HasType(SOption(I32Schema()), MaybeData(x, IntData)) && MaybeFrom(MaybeData(x, IntData), IntFrom) == Some(x)
  {
  }

  lemma MaybeIntTotal(d: Data)
    requires HasType(SOption(I32Schema()), d)
    ensures MaybeFrom(d, IntFrom).Some?
  {
  }

  lemma MaybeTextCodec(x: Option<string>)
    ensures HasType(SOption(SText), MaybeData(x, TextData)) && MaybeFrom(MaybeData(x, TextData), TextFrom) == Some(x)
  {
  }

  lemma MaybeTextTotal(d: Data)
    requires HasType(SOption(SText), d)
    ensures MaybeFrom(d, TextFrom).Some?
  {
  }

  // Records.

  function CommandParts(c: CommandSpec): (ds: seq<Data>)
    ensures |ds| == 3
  {
    [DText(c.program), TextsData(c.args), DText(c.workingDirectory)]
  }

  function CommandData(c: CommandSpec): Data {
    Record(CommandParts(c))
  }

  function CommandFrom(d: Data): Option<CommandSpec> {
    var p := Parts(d);
    if |p| == 3 && p[0].DText? && TextsFrom(p[1]).Some? && p[2].DText?
    then
      Some(CommandSpec(p[0].s, TextsFrom(p[1]).value, p[2].s))
    else None
  }

  lemma CommandSchemas()
    ensures var fields := CommandSchema().fields;
            && Length(fields) == 3
            && SchemaAt(fields, 0) == SText && SchemaAt(fields, 1) == TextsSchema()
            && SchemaAt(fields, 2) == SText
  {
  }

  lemma CommandCodec(c: CommandSpec)
    ensures HasType(CommandSchema(), CommandData(c))
    ensures CommandFrom(CommandData(c)) == Some(c)
  {
    CommandSchemas();
    TextsCodec(c.args);
    RecordTyped(CommandSchema().fields, CommandParts(c));
    RecordParts(CommandParts(c));
  }

  lemma CommandTotal(d: Data)
    requires HasType(CommandSchema(), d)
    ensures CommandFrom(d).Some?
  {
    var fields, p := CommandSchema().fields, Parts(d);
    PartsTyped(fields, d);
    CommandSchemas();
    assert HasType(SText, p[0]);
    assert HasType(TextsSchema(), p[1]);
    TextsTotal(p[1]);
    assert HasType(SText, p[2]);
  }

  function DiscoverySourceParts(s: DiscoverySource): (ds: seq<Data>)
    ensures |ds| == 3
  {
    [DText(s.path), DText(s.sha256), DText(s.evidence)]
  }

  function DiscoverySourceData(s: DiscoverySource): Data {
    Record(DiscoverySourceParts(s))
  }

  function DiscoverySourceFrom(d: Data): Option<DiscoverySource> {
    var p := Parts(d);
    if |p| == 3 && p[0].DText? && p[1].DText? && p[2].DText?
    then
      Some(DiscoverySource(p[0].s, p[1].s, p[2].s))
    else None
  }

  lemma DiscoverySourceSchemas()
    ensures var fields := DiscoverySourceSchema().fields;
            && Length(fields) == 3
            && SchemaAt(fields, 0) == SText && SchemaAt(fields, 1) == SText
            && SchemaAt(fields, 2) == SText
  {
  }

  lemma DiscoverySourceCodec(s: DiscoverySource)
    ensures HasType(DiscoverySourceSchema(), DiscoverySourceData(s))
    ensures DiscoverySourceFrom(DiscoverySourceData(s)) == Some(s)
  {
    DiscoverySourceSchemas();
    RecordTyped(DiscoverySourceSchema().fields, DiscoverySourceParts(s));
    RecordParts(DiscoverySourceParts(s));
  }

  lemma DiscoverySourceTotal(d: Data)
    requires HasType(DiscoverySourceSchema(), d)
    ensures DiscoverySourceFrom(d).Some?
  {
    var fields, p := DiscoverySourceSchema().fields, Parts(d);
    PartsTyped(fields, d);
    DiscoverySourceSchemas();
    assert HasType(SText, p[0]);
    assert HasType(SText, p[1]);
    assert HasType(SText, p[2]);
  }

  lemma DiscoverySourcesCodec(xs: seq<DiscoverySource>)
    ensures HasType(SList(DiscoverySourceSchema()), Many(xs, DiscoverySourceData))
    ensures ManyFrom(Many(xs, DiscoverySourceData), DiscoverySourceFrom) == Some(xs)
  {
    forall i | 0 <= i < |xs|
      ensures HasType(DiscoverySourceSchema(), DiscoverySourceData(xs[i]))
      ensures DiscoverySourceFrom(DiscoverySourceData(xs[i])) == Some(xs[i])
    {
      DiscoverySourceCodec(xs[i]);
    }
    ManyTyped(DiscoverySourceSchema(), xs, DiscoverySourceData);
    ManyBack(xs, DiscoverySourceData, DiscoverySourceFrom);
  }

  lemma DiscoverySourcesTotal(d: Data)
    requires HasType(SList(DiscoverySourceSchema()), d)
    ensures ManyFrom(d, DiscoverySourceFrom).Some?
  {
    ItemsOf(DiscoverySourceSchema(), d);
    var ds := SeqOf(d.items);
    forall i | 0 <= i < |ds| ensures DiscoverySourceFrom(ds[i]).Some? {
      DiscoverySourceTotal(ds[i]);
    }
    CollectTotal(ds, DiscoverySourceFrom);
  }

  function CheckParts(c: CheckDefinition): (ds: seq<Data>)
    ensures |ds| == 11
  {
    [DText(c.id), DText(c.displayLabel), DText(KindText(c.kind)), CommandData(c.command), DText(c.reason),
     Many(c.sources, DiscoverySourceData), DText(ConfidenceText(c.confidence)), TextsData(c.coveragePaths),
     TextsData(c.passEnvironment), TextsData(c.nonHermeticInputs), TextsData(c.replacesWorkflowSteps)]
  }

  function CheckData(c: CheckDefinition): Data {
    Record(CheckParts(c))
  }

  function CheckFrom(d: Data): Option<CheckDefinition> {
    var p := Parts(d);
    if |p| == 11 && p[0].DText? && p[1].DText? && KindFrom(p[2]).Some? && CommandFrom(p[3]).Some? && p[4].DText? &&
       ManyFrom(p[5], DiscoverySourceFrom).Some? && ConfidenceFrom(p[6]).Some? && TextsFrom(p[7]).Some? &&
       TextsFrom(p[8]).Some? && TextsFrom(p[9]).Some? && TextsFrom(p[10]).Some?
    then
      Some(CheckDefinition(p[0].s, p[1].s, KindFrom(p[2]).value, CommandFrom(p[3]).value, p[4].s,
                           ManyFrom(p[5], DiscoverySourceFrom).value, ConfidenceFrom(p[6]).value, TextsFrom(p[7]).value,
                           TextsFrom(p[8]).value, TextsFrom(p[9]).value, TextsFrom(p[10]).value))
    else None
  }

  lemma CheckSchemas()
    ensures var fields := CheckSchema().fields;
            && Length(fields) == 11
            && SchemaAt(fields, 0) == SText && SchemaAt(fields, 1) == SText
            && SchemaAt(fields, 2) == KindSchema() && SchemaAt(fields, 3) == CommandSchema()
            && SchemaAt(fields, 4) == SText && SchemaAt(fields, 5) == SList(DiscoverySourceSchema())
            && SchemaAt(fields, 6) == ConfidenceSchema() && SchemaAt(fields, 7) == TextsSchema()
            && SchemaAt(fields, 8) == TextsSchema() && SchemaAt(fields, 9) == TextsSchema()
            && SchemaAt(fields, 10) == TextsSchema()
  {
  }

  lemma CheckCodec(c: CheckDefinition)
    ensures HasType(CheckSchema(), CheckData(c))
    ensures CheckFrom(CheckData(c)) == Some(c)
  {
    CheckSchemas();
    KindCodec(c.kind);
    CommandCodec(c.command);
    DiscoverySourcesCodec(c.sources);
    ConfidenceCodec(c.confidence);
    TextsCodec(c.coveragePaths);
    TextsCodec(c.passEnvironment);
    TextsCodec(c.nonHermeticInputs);
    TextsCodec(c.replacesWorkflowSteps);
    RecordTyped(CheckSchema().fields, CheckParts(c));
    RecordParts(CheckParts(c));
  }

  lemma CheckTotal(d: Data)
    requires HasType(CheckSchema(), d)
    ensures CheckFrom(d).Some?
  {
    var fields, p := CheckSchema().fields, Parts(d);
    PartsTyped(fields, d);
    CheckSchemas();
    assert HasType(SText, p[0]);
    assert HasType(SText, p[1]);
    assert HasType(KindSchema(), p[2]);
    KindTotal(p[2]);
    assert HasType(CommandSchema(), p[3]);
    CommandTotal(p[3]);
    assert HasType(SText, p[4]);
    assert HasType(SList(DiscoverySourceSchema()), p[5]);
    DiscoverySourcesTotal(p[5]);
    assert HasType(ConfidenceSchema(), p[6]);
    ConfidenceTotal(p[6]);
    assert HasType(TextsSchema(), p[7]);
    TextsTotal(p[7]);
    assert HasType(TextsSchema(), p[8]);
    TextsTotal(p[8]);
    assert HasType(TextsSchema(), p[9]);
    TextsTotal(p[9]);
    assert HasType(TextsSchema(), p[10]);
    TextsTotal(p[10]);
  }

  lemma ChecksCodec(xs: seq<CheckDefinition>)
    ensures HasType(SList(CheckSchema()), Many(xs, CheckData))
    ensures ManyFrom(Many(xs, CheckData), CheckFrom) == Some(xs)
  {
    forall i | 0 <= i < |xs|
      ensures HasType(CheckSchema(), CheckData(xs[i]))
      ensures CheckFrom(CheckData(xs[i])) == Some(xs[i])
    {
      CheckCodec(xs[i]);
    }
    ManyTyped(CheckSchema(), xs, CheckData);
    ManyBack(xs, CheckData, CheckFrom);
  }

  lemma ChecksTotal(d: Data)
    requires HasType(SList(CheckSchema()), d)
    ensures ManyFrom(d, CheckFrom).Some?
  {
    ItemsOf(CheckSchema(), d);
    var ds := SeqOf(d.items);
    forall i | 0 <= i < |ds| ensures CheckFrom(ds[i]).Some? {
      CheckTotal(ds[i]);
    }
    CollectTotal(ds, CheckFrom);
  }

  function SelectionParts(s: CheckSelection): (ds: seq<Data>)
    ensures |ds| == 3
  {
    [DText(s.checkId), DBool(s.selected), DText(s.reason)]
  }

  function SelectionData(s: CheckSelection): Data {
    Record(SelectionParts(s))
  }

  function SelectionFrom(d: Data): Option<CheckSelection> {
    var p := Parts(d);
    if |p| == 3 && p[0].DText? && p[1].DBool? && p[2].DText?
    then
      Some(CheckSelection(p[0].s, p[1].value, p[2].s))
    else None
  }

  lemma SelectionSchemas()
    ensures var fields := SelectionSchema().fields;
            && Length(fields) == 3
            && SchemaAt(fields, 0) == SText && SchemaAt(fields, 1) == SBool
            && SchemaAt(fields, 2) == SText
  {
  }

  lemma SelectionCodec(s: CheckSelection)
    ensures HasType(SelectionSchema(), SelectionData(s))
    ensures SelectionFrom(SelectionData(s)) == Some(s)
  {
    SelectionSchemas();
    RecordTyped(SelectionSchema().fields, SelectionParts(s));
    RecordParts(SelectionParts(s));
  }

  lemma SelectionTotal(d: Data)
    requires HasType(SelectionSchema(), d)
    ensures SelectionFrom(d).Some?
  {
    var fields, p := SelectionSchema().fields, Parts(d);
    PartsTyped(fields, d);
    SelectionSchemas();
    assert HasType(SText, p[0]);
    assert HasType(SBool, p[1]);
    assert HasType(SText, p[2]);
  }

  lemma SelectionsCodec(xs: seq<CheckSelection>)
    ensures HasType(SList(SelectionSchema()), Many(xs, SelectionData))
    ensures ManyFrom(Many(xs, SelectionData), SelectionFrom) == Some(xs)
  {
    forall i | 0 <= i < |xs|
      ensures HasType(SelectionSchema(), SelectionData(xs[i]))
      ensures SelectionFrom(SelectionData(xs[i])) == Some(xs[i])
    {
      SelectionCodec(xs[i]);
    }
    ManyTyped(SelectionSchema(), xs, SelectionData);
    ManyBack(xs, SelectionData, SelectionFrom);
  }

  lemma SelectionsTotal(d: Data)
    requires HasType(SList(SelectionSchema()), d)
    ensures ManyFrom(d, SelectionFrom).Some?
  {
    ItemsOf(SelectionSchema(), d);
    var ds := SeqOf(d.items);
    forall i | 0 <= i < |ds| ensures SelectionFrom(ds[i]).Some? {
      SelectionTotal(ds[i]);
    }
    CollectTotal(ds, SelectionFrom);
  }

  predicate SourceFits(s: SourceIdentity) {
    U64(s.workspaceFileCount)
  }

  function SourceParts(s: SourceIdentity): (ds: seq<Data>)
    ensures |ds| == 7
  {
    [MaybeData(s.gitCommit, TextData), MaybeData(s.gitRef, TextData), DBool(s.dirty), DText(s.statusSha256),
     DText(s.workspaceSha256), DNumber(s.workspaceFileCount), TextsData(s.changedPaths)]
  }

  function SourceData(s: SourceIdentity): Data {
    Record(SourceParts(s))
  }

  function SourceFrom(d: Data): Option<SourceIdentity> {
    var p := Parts(d);
    if |p| == 7 && MaybeFrom(p[0], TextFrom).Some? && MaybeFrom(p[1], TextFrom).Some? && p[2].DBool? && p[3].DText? &&
       p[4].DText? && NatFrom(p[5]).Some? && TextsFrom(p[6]).Some?
    then
      Some(SourceIdentity(MaybeFrom(p[0], TextFrom).value, MaybeFrom(p[1], TextFrom).value, p[2].value, p[3].s, p[4].s,
                          NatFrom(p[5]).value, TextsFrom(p[6]).value))
    else None
  }

  lemma SourceSchemas()
    ensures var fields := SourceSchema().fields;
            && Length(fields) == 7
            && SchemaAt(fields, 0) == SOption(SText) && SchemaAt(fields, 1) == SOption(SText)
            && SchemaAt(fields, 2) == SBool && SchemaAt(fields, 3) == SText
            && SchemaAt(fields, 4) == SText && SchemaAt(fields, 5) == U64Schema()
            && SchemaAt(fields, 6) == TextsSchema()
  {
  }

  lemma SourceCodec(s: SourceIdentity)
    requires SourceFits(s)
    ensures HasType(SourceSchema(), SourceData(s))
    ensures SourceFrom(SourceData(s)) == Some(s)
  {
    SourceSchemas();
    MaybeTextCodec(s.gitCommit);
    MaybeTextCodec(s.gitRef);
    TextsCodec(s.changedPaths);
    RecordTyped(SourceSchema().fields, SourceParts(s));
    RecordParts(SourceParts(s));
  }

  lemma SourceTotal(d: Data)
    requires HasType(SourceSchema(), d)
    ensures SourceFrom(d).Some?
  {
    var fields, p := SourceSchema().fields, Parts(d);
    PartsTyped(fields, d);
    SourceSchemas();
    assert HasType(SOption(SText), p[0]);
    MaybeTextTotal(p[0]);
    assert HasType(SOption(SText), p[1]);
    MaybeTextTotal(p[1]);
    assert HasType(SBool, p[2]);
    assert HasType(SText, p[3]);
    assert HasType(SText, p[4]);
    assert HasType(U64Schema(), p[5]);
    assert HasType(TextsSchema(), p[6]);
    TextsTotal(p[6]);
  }

  function ObservationParts(o: WorkflowObservation): (ds: seq<Data>)
    ensures |ds| == 9
  {
    [DText(o.id), DiscoverySourceData(o.source), DText(o.job), DText(o.step), DText(o.runSha256), DText(o.runSummary),
     DText(ClassificationText(o.classification)), MaybeData(o.checkId, TextData), DText(o.reason)]
  }

  function ObservationData(o: WorkflowObservation): Data {
    Record(ObservationParts(o))
  }

  function ObservationFrom(d: Data): Option<WorkflowObservation> {
    var p := Parts(d);
    if |p| == 9 && p[0].DText? && DiscoverySourceFrom(p[1]).Some? && p[2].DText? && p[3].DText? && p[4].DText? &&
       p[5].DText? && ClassificationFrom(p[6]).Some? && MaybeFrom(p[7], TextFrom).Some? && p[8].DText?
    then
      Some(WorkflowObservation(p[0].s, DiscoverySourceFrom(p[1]).value, p[2].s, p[3].s, p[4].s, p[5].s,
                               ClassificationFrom(p[6]).value, MaybeFrom(p[7], TextFrom).value, p[8].s))
    else None
  }

  lemma ObservationSchemas()
    ensures var fields := ObservationSchema().fields;
            && Length(fields) == 9
            && SchemaAt(fields, 0) == SText && SchemaAt(fields, 1) == DiscoverySourceSchema()
            && SchemaAt(fields, 2) == SText && SchemaAt(fields, 3) == SText
            && SchemaAt(fields, 4) == SText && SchemaAt(fields, 5) == SText
            && SchemaAt(fields, 6) == ClassificationSchema() && SchemaAt(fields, 7) == SOption(SText)
            && SchemaAt(fields, 8) == SText
  {
  }

  lemma ObservationCodec(o: WorkflowObservation)
    ensures HasType(ObservationSchema(), ObservationData(o))
    ensures ObservationFrom(ObservationData(o)) == Some(o)
  {
    ObservationSchemas();
    DiscoverySourceCodec(o.source);
    ClassificationCodec(o.classification);
    MaybeTextCodec(o.checkId);
    RecordTyped(ObservationSchema().fields, ObservationParts(o));
    RecordParts(ObservationParts(o));
  }

  lemma ObservationTotal(d: Data)
    requires HasType(ObservationSchema(), d)
    ensures ObservationFrom(d).Some?
  {
    var fields, p := ObservationSchema().fields, Parts(d);
    PartsTyped(fields, d);
    ObservationSchemas();
    assert HasType(SText, p[0]);
    assert HasType(DiscoverySourceSchema(), p[1]);
    DiscoverySourceTotal(p[1]);
    assert HasType(SText, p[2]);
    assert HasType(SText, p[3]);
    assert HasType(SText, p[4]);
    assert HasType(SText, p[5]);
    assert HasType(ClassificationSchema(), p[6]);
    ClassificationTotal(p[6]);
    assert HasType(SOption(SText), p[7]);
    MaybeTextTotal(p[7]);
    assert HasType(SText, p[8]);
  }

  lemma ObservationsCodec(xs: seq<WorkflowObservation>)
    ensures HasType(SList(ObservationSchema()), Many(xs, ObservationData))
    ensures ManyFrom(Many(xs, ObservationData), ObservationFrom) == Some(xs)
  {
    forall i | 0 <= i < |xs|
      ensures HasType(ObservationSchema(), ObservationData(xs[i]))
      ensures ObservationFrom(ObservationData(xs[i])) == Some(xs[i])
    {
      ObservationCodec(xs[i]);
    }
    ManyTyped(ObservationSchema(), xs, ObservationData);
    ManyBack(xs, ObservationData, ObservationFrom);
  }

  lemma ObservationsTotal(d: Data)
    requires HasType(SList(ObservationSchema()), d)
    ensures ManyFrom(d, ObservationFrom).Some?
  {
    ItemsOf(ObservationSchema(), d);
    var ds := SeqOf(d.items);
    forall i | 0 <= i < |ds| ensures ObservationFrom(ds[i]).Some? {
      ObservationTotal(ds[i]);
    }
    CollectTotal(ds, ObservationFrom);
  }

  /** A report and the schema version it is published with. */
  type VersionedReport = (DiscoveryReport, string)

  predicate DiscoveryFits(r: VersionedReport) {
    SourceFits(r.0.source)
  }

  function DiscoveryParts(r: VersionedReport): (ds: seq<Data>)
    ensures |ds| == 7
  {
    [DText(r.1), SourceData(r.0.source), Many(r.0.checks, CheckData), Many(r.0.selection, SelectionData),
     TextsData(r.0.coverageGaps), Many(r.0.configurationFiles, DiscoverySourceData),
     Many(r.0.workflowObservations, ObservationData)]
  }

  function DiscoveryData(r: VersionedReport): Data {
    Record(DiscoveryParts(r))
  }

  function DiscoveryOf(p: seq<Data>, source: Option<SourceIdentity>, checks: Option<seq<CheckDefinition>>,
                       selection: Option<seq<CheckSelection>>, coverageGaps: Option<seq<string>>,
                       configurationFiles: Option<seq<DiscoverySource>>,
                       workflowObservations: Option<seq<WorkflowObservation>>): Option<VersionedReport> {
    if |p| == 7 && p[0].DText? && source.Some? && checks.Some? && selection.Some? && coverageGaps.Some? &&
       configurationFiles.Some? && workflowObservations.Some?
    then
      Some((DiscoveryReport(source.value, checks.value,
                            selection.value,
                            coverageGaps.value,
                            configurationFiles.value,
                            workflowObservations.value),
            p[0].s))
    else None
  }

  function DiscoveryFrom(d: Data): Option<VersionedReport> {
    var p := Parts(d);
    if |p| != 7 then None
    else DiscoveryOf(p, SourceFrom(p[1]), ManyFrom(p[2], CheckFrom), ManyFrom(p[3], SelectionFrom), TextsFrom(p[4]),
                         ManyFrom(p[5], DiscoverySourceFrom), ManyFrom(p[6], ObservationFrom))
  }

  lemma DiscoverySchemas()
    ensures var fields := DiscoverySchema().fields;
            && Length(fields) == 7
            && SchemaAt(fields, 0) == SText && SchemaAt(fields, 1) == SourceSchema()
            && SchemaAt(fields, 2) == SList(CheckSchema()) && SchemaAt(fields, 3) == SList(SelectionSchema())
            && SchemaAt(fields, 4) == TextsSchema() && SchemaAt(fields, 5) == SList(DiscoverySourceSchema())
            && SchemaAt(fields, 6) == SList(ObservationSchema())
  {
  }

  lemma DiscoveryTypes0(r: VersionedReport)
    requires DiscoveryFits(r)
    ensures HasType(SText, DiscoveryParts(r)[0]) && HasType(SourceSchema(), DiscoveryParts(r)[1])
    ensures HasType(SList(CheckSchema()), DiscoveryParts(r)[2]) && HasType(SList(SelectionSchema()), DiscoveryParts(r)[3])
  {
    SourceCodec(r.0.source);
    ChecksCodec(r.0.checks);
    SelectionsCodec(r.0.selection);
  }

  lemma DiscoveryTypes1(r: VersionedReport)
    requires DiscoveryFits(r)
    ensures HasType(TextsSchema(), DiscoveryParts(r)[4]) && HasType(SList(DiscoverySourceSchema()), DiscoveryParts(r)[5])
    ensures HasType(SList(ObservationSchema()), DiscoveryParts(r)[6])
  {
    TextsCodec(r.0.coverageGaps);
    DiscoverySourcesCodec(r.0.configurationFiles);
    ObservationsCodec(r.0.workflowObservations);
  }

  lemma DiscoveryTyped(r: VersionedReport)
    requires DiscoveryFits(r)
    ensures HasType(DiscoverySchema(), DiscoveryData(r))
  {
    DiscoveryTypes0(r);
    DiscoveryTypes1(r);
    DiscoverySchemas();
    var fields, ds := DiscoverySchema().fields, DiscoveryParts(r);
    DiscoveryPartsFit(fields, ds);
    RecordTyped(fields, ds);
  }

  lemma DiscoveryPartsFit(fields: Fields, ds: seq<Data>)
    requires Length(fields) == |ds| == 7
    requires HasType(SchemaAt(fields, 0), ds[0]) && HasType(SchemaAt(fields, 1), ds[1])
    requires HasType(SchemaAt(fields, 2), ds[2]) && HasType(SchemaAt(fields, 3), ds[3])
    requires HasType(SchemaAt(fields, 4), ds[4]) && HasType(SchemaAt(fields, 5), ds[5])
    requires HasType(SchemaAt(fields, 6), ds[6])
    ensures TypedBy(fields, ds)
  {
  }

  lemma DiscoveryOfParts(r: VersionedReport)
    requires DiscoveryFits(r)
    ensures DiscoveryOf(DiscoveryParts(r),
            Some(r.0.source), Some(r.0.checks), Some(r.0.selection), Some(r.0.coverageGaps), Some(r.0.configurationFiles),
           Some(r.0.workflowObservations)) == Some(r)
  {
  }

  lemma DiscoveryBack(r: VersionedReport)
    requires DiscoveryFits(r)
    ensures DiscoveryFrom(DiscoveryData(r)) == Some(r)
  {
    RecordParts(DiscoveryParts(r));
    DiscoveryOfParts(r);
    SourceCodec(r.0.source);
    ChecksCodec(r.0.checks);
    SelectionsCodec(r.0.selection);
    TextsCodec(r.0.coverageGaps);
    DiscoverySourcesCodec(r.0.configurationFiles);
    ObservationsCodec(r.0.workflowObservations);
  }

  lemma DiscoveryCodec(r: VersionedReport)
    requires DiscoveryFits(r)
    ensures HasType(DiscoverySchema(), DiscoveryData(r))
    ensures DiscoveryFrom(DiscoveryData(r)) == Some(r)
  {
    DiscoveryTyped(r);
    DiscoveryBack(r);
  }

  lemma DiscoveryPartsTyped(d: Data)
    requires HasType(DiscoverySchema(), d)
    ensures |Parts(d)| == 7
    ensures HasType(SText, Parts(d)[0]) && HasType(SourceSchema(), Parts(d)[1])
    ensures HasType(SList(CheckSchema()), Parts(d)[2]) && HasType(SList(SelectionSchema()), Parts(d)[3])
    ensures HasType(TextsSchema(), Parts(d)[4]) && HasType(SList(DiscoverySourceSchema()), Parts(d)[5])
    ensures HasType(SList(ObservationSchema()), Parts(d)[6])
  {
    var fields := DiscoverySchema().fields;
    PartsTyped(fields, d);
    DiscoverySchemas();
    assert forall i :: 0 <= i < 7 ==> HasType(SchemaAt(fields, i), Parts(d)[i]);
  }

  lemma DiscoveryTotal(d: Data)
    requires HasType(DiscoverySchema(), d)
    ensures DiscoveryFrom(d).Some?
  {
    DiscoveryPartsTyped(d);
    var p := Parts(d);
    SourceTotal(p[1]);
    ChecksTotal(p[2]);
    SelectionsTotal(p[3]);
    TextsTotal(p[4]);
    DiscoverySourcesTotal(p[5]);
    ObservationsTotal(p[6]);
  }

  /** Both limits of an invocation. */
  type Limits = (nat, nat)

  predicate LimitsFit(l: Limits) {
    U64(l.0) && U64(l.1)
  }

  function LimitsParts(l: Limits): (ds: seq<Data>)
    ensures |ds| == 2
  {
    [DNumber(l.0), DNumber(l.1)]
  }

  function LimitsData(l: Limits): Data {
    Record(LimitsParts(l))
  }

  function LimitsFrom(d: Data): Option<Limits> {
    var p := Parts(d);
    if |p| == 2 && NatFrom(p[0]).Some? && NatFrom(p[1]).Some?
    then
      Some((NatFrom(p[0]).value, NatFrom(p[1]).value))
    else None
  }

  lemma LimitsSchemas()
    ensures var fields := LimitsSchema().fields;
            && Length(fields) == 2
            && SchemaAt(fields, 0) == U64Schema() && SchemaAt(fields, 1) == U64Schema()
  {
  }

  lemma LimitsCodec(l: Limits)
    requires LimitsFit(l)
    ensures HasType(LimitsSchema(), LimitsData(l))
    ensures LimitsFrom(LimitsData(l)) == Some(l)
  {
    LimitsSchemas();
    RecordTyped(LimitsSchema().fields, LimitsParts(l));
    RecordParts(LimitsParts(l));
  }

  lemma LimitsTotal(d: Data)
    requires HasType(LimitsSchema(), d)
    ensures LimitsFrom(d).Some?
  {
    var fields, p := LimitsSchema().fields, Parts(d);
    PartsTyped(fields, d);
    LimitsSchemas();
    assert HasType(U64Schema(), p[0]);
    assert HasType(U64Schema(), p[1]);
  }

  predicate InvocationFits(i: Invocation) {
    U64(i.maxRuntimeMs) && U64(i.maxLogBytes)
  }

  function InvocationParts(i: Invocation): (ds: seq<Data>)
    ensures |ds| == 4
  {
    [DBool(i.changedOnly), TextsData(i.requestedChecks), DBool(i.failFast), LimitsData((i.maxRuntimeMs, i.maxLogBytes))]
  }

  function InvocationData(i: Invocation): Data {
    Record(InvocationParts(i))
  }

  function InvocationFrom(d: Data): Option<Invocation> {
    var p := Parts(d);
    if |p| == 4 && p[0].DBool? && TextsFrom(p[1]).Some? && p[2].DBool? && LimitsFrom(p[3]).Some?
    then
      Some(Invocation(p[0].value, TextsFrom(p[1]).value, p[2].value, LimitsFrom(p[3]).value.0, LimitsFrom(p[3]).value.1))
    else None
  }

  lemma InvocationSchemas()
    ensures var fields := InvocationSchema().fields;
            && Length(fields) == 4
            && SchemaAt(fields, 0) == SBool && SchemaAt(fields, 1) == TextsSchema()
            && SchemaAt(fields, 2) == SBool && SchemaAt(fields, 3) == LimitsSchema()
  {
  }

  lemma InvocationCodec(i: Invocation)
    requires InvocationFits(i)
    ensures HasType(InvocationSchema(), InvocationData(i))
    ensures InvocationFrom(InvocationData(i)) == Some(i)
  {
    InvocationSchemas();
    TextsCodec(i.requestedChecks);
    LimitsCodec((i.maxRuntimeMs, i.maxLogBytes));
    RecordTyped(InvocationSchema().fields, InvocationParts(i));
    RecordParts(InvocationParts(i));
  }

  lemma InvocationTotal(d: Data)
    requires HasType(InvocationSchema(), d)
    ensures InvocationFrom(d).Some?
  {
    var fields, p := InvocationSchema().fields, Parts(d);
    PartsTyped(fields, d);
    InvocationSchemas();
    assert HasType(SBool, p[0]);
    assert HasType(TextsSchema(), p[1]);
    TextsTotal(p[1]);
    assert HasType(SBool, p[2]);
    assert HasType(LimitsSchema(), p[3]);
    LimitsTotal(p[3]);
  }

  predicate LogFits(log: LogReference) {
    U64(log.bytes)
  }

  function LogParts(log: LogReference): (ds: seq<Data>)
    ensures |ds| == 6
  {
    [DText(log.algorithm), DText(log.digest), DNumber(log.bytes), DText(log.handle), DText(log.contentEncoding),
     DText(log.sensitivity)]
  }

  function LogData(log: LogReference): Data {
    Record(LogParts(log))
  }

  function LogFrom(d: Data): Option<LogReference> {
    var p := Parts(d);
    if |p| == 6 && p[0].DText? && p[1].DText? && NatFrom(p[2]).Some? && p[3].DText? && p[4].DText? && p[5].DText?
    then
      Some(LogReference(p[0].s, p[1].s, NatFrom(p[2]).value, p[3].s, p[4].s, p[5].s))
    else None
  }

  lemma LogSchemas()
    ensures var fields := LogSchema().fields;
            && Length(fields) == 6
            && SchemaAt(fields, 0) == SText && SchemaAt(fields, 1) == SText
            && SchemaAt(fields, 2) == U64Schema() && SchemaAt(fields, 3) == SText
            && SchemaAt(fields, 4) == SText && SchemaAt(fields, 5) == SText
  {
  }

  lemma LogCodec(log: LogReference)
    requires LogFits(log)
    ensures HasType(LogSchema(), LogData(log))
    ensures LogFrom(LogData(log)) == Some(log)
  {
    LogSchemas();
    RecordTyped(LogSchema().fields, LogParts(log));
    RecordParts(LogParts(log));
  }

  lemma LogTotal(d: Data)
    requires HasType(LogSchema(), d)
    ensures LogFrom(d).Some?
  {
    var fields, p := LogSchema().fields, Parts(d);
    PartsTyped(fields, d);
    LogSchemas();
    assert HasType(SText, p[0]);
    assert HasType(SText, p[1]);
    assert HasType(U64Schema(), p[2]);
    assert HasType(SText, p[3]);
    assert HasType(SText, p[4]);
    assert HasType(SText, p[5]);
  }

  lemma MaybeLogCodec(x: Option<LogReference>)
    requires x.Some? ==> LogFits(x.value)
    ensures HasType(SOption(LogSchema()), MaybeData(x, LogData)) && MaybeFrom(MaybeData(x, LogData), LogFrom) == Some(x)
  {
    if x.Some? {
      LogCodec(x.value);
    }
  }

  lemma MaybeLogTotal(d: Data)
    requires HasType(SOption(LogSchema()), d)
    ensures MaybeFrom(d, LogFrom).Some?
  {
    if d.DSome? {
      LogTotal(d.inner);
    }
  }

  /** An execution and the two diagnostic summaries published with it. */
  type SummarisedExecution = (CheckExecution, (string, string))

  predicate ExecutionFits(x: SummarisedExecution) {
    var e := x.0;
    && U64(e.startedUnixMs) && U64(e.completedUnixMs) && U64(e.durationMs)
    && (e.exitCode.Some? ==> -0x8000_0000 <= e.exitCode.value <= 0x7fff_ffff)
    && (e.stdout.Some? ==> LogFits(e.stdout.value)) && (e.stderr.Some? ==> LogFits(e.stderr.value))
  }

  function ExecutionParts(x: SummarisedExecution): (ds: seq<Data>)
    ensures |ds| == 11
  {
    [CheckData(x.0.check), DNumber(x.0.startedUnixMs), DNumber(x.0.completedUnixMs), DNumber(x.0.durationMs),
     DText(OutcomeText(x.0.outcome)), MaybeData(x.0.exitCode, IntData), MaybeData(x.0.stdout, LogData),
     MaybeData(x.0.stderr, LogData), DText(x.1.0), DText(x.1.1), DBool(x.0.summariesTruncated)]
  }

  function ExecutionData(x: SummarisedExecution): Data {
    Record(ExecutionParts(x))
  }

  function ExecutionOf(p: seq<Data>, check: Option<CheckDefinition>, outcome: Option<CheckOutcome>, exitCode: Option<Option<int>>,
                       stdout: Option<Option<LogReference>>, stderr: Option<Option<LogReference>>): Option<SummarisedExecution> {
    if |p| == 11 && check.Some? && NatFrom(p[1]).Some? && NatFrom(p[2]).Some? && NatFrom(p[3]).Some? && outcome.Some? &&
       exitCode.Some? && stdout.Some? && stderr.Some? && p[8].DText? && p[9].DText? && p[10].DBool?
    then
      Some((CheckExecution(check.value, NatFrom(p[1]).value, NatFrom(p[2]).value, NatFrom(p[3]).value, outcome.value,
                           exitCode.value, stdout.value, stderr.value, p[10].value),
            (p[8].s, p[9].s)))
    else None
  }

  function ExecutionFrom(d: Data): Option<SummarisedExecution> {
    var p := Parts(d);
    if |p| != 11 then None
    else ExecutionOf(p, CheckFrom(p[0]), OutcomeFrom(p[4]), MaybeFrom(p[5], IntFrom), MaybeFrom(p[6], LogFrom),
                         MaybeFrom(p[7], LogFrom))
  }

  lemma ExecutionSchemas()
    ensures var fields := ExecutionSchema().fields;
            && Length(fields) == 11
            && SchemaAt(fields, 0) == CheckSchema() && SchemaAt(fields, 1) == U64Schema()
            && SchemaAt(fields, 2) == U64Schema() && SchemaAt(fields, 3) == U64Schema()
            && SchemaAt(fields, 4) == OutcomeSchema() && SchemaAt(fields, 5) == SOption(I32Schema())
            && SchemaAt(fields, 6) == SOption(LogSchema()) && SchemaAt(fields, 7) == SOption(LogSchema())
            && SchemaAt(fields, 8) == SText && SchemaAt(fields, 9) == SText
            && SchemaAt(fields, 10) == SBool
  {
  }

  lemma ExecutionCheck(x: SummarisedExecution)
    requires ExecutionFits(x)
    ensures HasType(CheckSchema(), ExecutionParts(x)[0])
  {
    CheckCodec(x.0.check);
  }

  lemma ExecutionTimes(x: SummarisedExecution)
    requires ExecutionFits(x)
    ensures HasType(U64Schema(), ExecutionParts(x)[1])
    ensures HasType(U64Schema(), ExecutionParts(x)[2]) && HasType(U64Schema(), ExecutionParts(x)[3])
  {
  }

  lemma ExecutionResult(x: SummarisedExecution)
    requires ExecutionFits(x)
    ensures HasType(OutcomeSchema(), ExecutionParts(x)[4]) && HasType(SOption(I32Schema()), ExecutionParts(x)[5])
    ensures HasType(SOption(LogSchema()), ExecutionParts(x)[6]) && HasType(SOption(LogSchema()), ExecutionParts(x)[7])
  {
    OutcomeCodec(x.0.outcome);
    MaybeIntCodec(x.0.exitCode);
    MaybeLogCodec(x.0.stdout);
    MaybeLogCodec(x.0.stderr);
  }

  lemma ExecutionSummaries(x: SummarisedExecution)
    requires ExecutionFits(x)
    ensures HasType(SText, ExecutionParts(x)[8]) && HasType(SText, ExecutionParts(x)[9])
    ensures HasType(SBool, ExecutionParts(x)[10])
  {
  }

  lemma ExecutionTyped(x: SummarisedExecution)
    requires ExecutionFits(x)
    ensures HasType(ExecutionSchema(), ExecutionData(x))
  {
    ExecutionCheck(x);
    ExecutionTimes(x);
    ExecutionResult(x);
    ExecutionSummaries(x);
    ExecutionSchemas();
    var fields, ds := ExecutionSchema().fields, ExecutionParts(x);
    ExecutionPartsFit(fields, ds);
    RecordTyped(fields, ds);
  }

  lemma ExecutionPartsFit(fields: Fields, ds: seq<Data>)
    requires Length(fields) == |ds| == 11
    requires HasType(SchemaAt(fields, 0), ds[0]) && HasType(SchemaAt(fields, 1), ds[1])
    requires HasType(SchemaAt(fields, 2), ds[2]) && HasType(SchemaAt(fields, 3), ds[3])
    requires HasType(SchemaAt(fields, 4), ds[4]) && HasType(SchemaAt(fields, 5), ds[5])
    requires HasType(SchemaAt(fields, 6), ds[6]) && HasType(SchemaAt(fields, 7), ds[7])
    requires HasType(SchemaAt(fields, 8), ds[8]) && HasType(SchemaAt(fields, 9), ds[9])
    requires HasType(SchemaAt(fields, 10), ds[10])
    ensures TypedBy(fields, ds)
  {
  }

  lemma ExecutionOfParts(x: SummarisedExecution)
    requires ExecutionFits(x)
    ensures ExecutionOf(ExecutionParts(x),
            Some(x.0.check), Some(x.0.outcome), Some(x.0.exitCode), Some(x.0.stdout), Some(x.0.stderr)) == Some(x)
  {
  }

  lemma ExecutionBack(x: SummarisedExecution)
    requires ExecutionFits(x)
    ensures ExecutionFrom(ExecutionData(x)) == Some(x)
  {
    RecordParts(ExecutionParts(x));
    ExecutionOfParts(x);
    CheckCodec(x.0.check);
    OutcomeCodec(x.0.outcome);
    MaybeIntCodec(x.0.exitCode);
    MaybeLogCodec(x.0.stdout);
    MaybeLogCodec(x.0.stderr);
  }

  lemma ExecutionCodec(x: SummarisedExecution)
    requires ExecutionFits(x)
    ensures HasType(ExecutionSchema(), ExecutionData(x))
    ensures ExecutionFrom(ExecutionData(x)) == Some(x)
  {
    ExecutionTyped(x);
    ExecutionBack(x);
  }

  lemma ExecutionPartsTyped(d: Data)
    requires HasType(ExecutionSchema(), d)
    ensures |Parts(d)| == 11
    ensures HasType(CheckSchema(), Parts(d)[0]) && HasType(U64Schema(), Parts(d)[1])
    ensures HasType(U64Schema(), Parts(d)[2]) && HasType(U64Schema(), Parts(d)[3])
    ensures HasType(OutcomeSchema(), Parts(d)[4]) && HasType(SOption(I32Schema()), Parts(d)[5])
    ensures HasType(SOption(LogSchema()), Parts(d)[6]) && HasType(SOption(LogSchema()), Parts(d)[7])
    ensures HasType(SText, Parts(d)[8]) && HasType(SText, Parts(d)[9])
    ensures HasType(SBool, Parts(d)[10])
  {
    var fields := ExecutionSchema().fields;
    PartsTyped(fields, d);
    ExecutionSchemas();
    assert forall i :: 0 <= i < 11 ==> HasType(SchemaAt(fields, i), Parts(d)[i]);
  }

  lemma ExecutionTotal(d: Data)
    requires HasType(ExecutionSchema(), d)
    ensures ExecutionFrom(d).Some?
  {
    ExecutionPartsTyped(d);
    var p := Parts(d);
    CheckTotal(p[0]);
    OutcomeTotal(p[4]);
    MaybeIntTotal(p[5]);
    MaybeLogTotal(p[6]);
    MaybeLogTotal(p[7]);
  }

  lemma ExecutionsCodec(xs: seq<SummarisedExecution>)
    requires forall i :: 0 <= i < |xs| ==> ExecutionFits(xs[i])
    ensures HasType(SList(ExecutionSchema()), Many(xs, ExecutionData))
    ensures ManyFrom(Many(xs, ExecutionData), ExecutionFrom) == Some(xs)
  {
    forall i | 0 <= i < |xs|
      ensures HasType(ExecutionSchema(), ExecutionData(xs[i]))
      ensures ExecutionFrom(ExecutionData(xs[i])) == Some(xs[i])
    {
      ExecutionCodec(xs[i]);
    }
    ManyTyped(ExecutionSchema(), xs, ExecutionData);
    ManyBack(xs, ExecutionData, ExecutionFrom);
  }

  lemma ExecutionsTotal(d: Data)
    requires HasType(SList(ExecutionSchema()), d)
    ensures ManyFrom(d, ExecutionFrom).Some?
  {
    ItemsOf(ExecutionSchema(), d);
    var ds := SeqOf(d.items);
    forall i | 0 <= i < |ds| ensures ExecutionFrom(ds[i]).Some? {
      ExecutionTotal(ds[i]);
    }
    CollectTotal(ds, ExecutionFrom);
  }
}
