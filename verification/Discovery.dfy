/** `discover_checks` (src/discover.rs): from the findings of each source to a discovery report. */
module Discovery {
  import opened Basics
  import opened Model
  import opened Names
  import opened Order
  import opened Selection
  import opened Replacement
  import W = Workflow

  /** A valid configuration file: what it disables and the checks it declares, each already validated or refused. */
  datatype Config = Config(disabled: set<string>, configured: seq<Result<CheckDefinition, TaskError>>,
                           source: Option<DiscoverySource>)

  /** What the parts of discovery that read manifests and workflow files report. */
  datatype Inputs = Inputs(config: Result<Config, TaskError>, languages: Result<seq<CheckDefinition>, TaskError>,
                           documents: seq<Result<W.Document, TaskError>>)

  predicate Honest(inputs: Inputs) {
    && (inputs.config.Err? ==> Plain(inputs.config.error))
    && (inputs.languages.Err? ==> Plain(inputs.languages.error))
    && (forall i :: 0 <= i < |inputs.documents| && inputs.documents[i].Err? ==> Plain(inputs.documents[i].error))
    && (inputs.config.Ok? ==>
          forall i :: 0 <= i < |inputs.config.value.configured| && inputs.config.value.configured[i].Err? ==>
            Plain(inputs.config.value.configured[i].error))
  }

  datatype Setting = Setting(heuristics: W.Heuristics, glob: Glob, compiles: seq<string> -> bool)

  datatype Request = Request(source: SourceIdentity, changedOnly: bool, requested: seq<string>)

  // Sorting by id.

  /** Inserts after every check with an id that is not greater, as a stable sort does. */
  function InsertById(sorted: seq<CheckDefinition>, check: CheckDefinition): seq<CheckDefinition> {
    if sorted == [] then [check]
    else if Less(check.id, sorted[|sorted| - 1].id) then
      InsertById(sorted[..|sorted| - 1], check) + [sorted[|sorted| - 1]]
    else sorted + [check]
  }

  /** `checks.sort_by(|left, right| left.id.cmp(&right.id))`. */
  function SortById(checks: seq<CheckDefinition>): seq<CheckDefinition> {
    if checks == [] then [] else InsertById(SortById(checks[..|checks| - 1]), checks[|checks| - 1])
  }

  predicate NonDecreasing(checks: seq<CheckDefinition>) {
    forall i, j :: 0 <= i < j < |checks| ==> !Less(checks[j].id, checks[i].id)
  }

  lemma NotLessTransitive(a: string, b: string, c: string)
    requires !Less(b, a) && !Less(c, b)
    ensures !Less(c, a)
  {
    LessTotal(b, a);
    LessTotal(c, b);
    if Less(c, a) {
      if a != b {
        LessTransitive(c, a, b);
      }
    }
  }

  lemma {:induction false} InsertByIdSorts(sorted: seq<CheckDefinition>, check: CheckDefinition)
    requires NonDecreasing(sorted)
    ensures NonDecreasing(InsertById(sorted, check))
    ensures multiset(InsertById(sorted, check)) == multiset(sorted) + multiset{check}
  {
    if sorted != [] {
      var front, last := sorted[..|sorted| - 1], sorted[|sorted| - 1];
      assert sorted == front + [last];
      if Less(check.id, last.id) {
        InsertByIdSorts(front, check);
        InsertedBelow(front, last, check);
      } else {
        forall i | 0 <= i < |sorted| ensures !Less(check.id, sorted[i].id) {
          LessIrreflexive(last.id);
          NotLessTransitive(sorted[i].id, last.id, check.id);
        }
      }
    }
  }

  lemma InsertedBelow(front: seq<CheckDefinition>, last: CheckDefinition, check: CheckDefinition)
    requires NonDecreasing(front + [last]) && Less(check.id, last.id)
    requires NonDecreasing(InsertById(front, check))
    requires multiset(InsertById(front, check)) == multiset(front) + multiset{check}
    ensures NonDecreasing(InsertById(front, check) + [last])
  {
    var inserted := InsertById(front, check);
    LessTotal(last.id, check.id);
    LessIrreflexive(check.id);
    forall i | 0 <= i < |inserted| ensures !Less(last.id, inserted[i].id) {
      assert inserted[i] in multiset(inserted);
      if inserted[i] == check {
        if Less(last.id, check.id) {
          LessTransitive(check.id, last.id, check.id);
        }
      } else {
        assert inserted[i] in front;
        var j :| 0 <= j < |front| && front[j] == inserted[i];
        assert (front + [last])[j] == front[j] && (front + [last])[|front|] == last;
      }
    }
  }

  lemma {:induction false} SortByIdSorts(checks: seq<CheckDefinition>)
    ensures NonDecreasing(SortById(checks)) && multiset(SortById(checks)) == multiset(checks)
  {
    if checks != [] {
      SortByIdSorts(checks[..|checks| - 1]);
      InsertByIdSorts(SortById(checks[..|checks| - 1]), checks[|checks| - 1]);
      assert checks == checks[..|checks| - 1] + [checks[|checks| - 1]];
    }
  }

  // Validation.

  predicate ValidChecks(compiles: seq<string> -> bool, checks: seq<CheckDefinition>) {
    && (forall i :: 0 <= i < |checks| ==> ValidCheckId(checks[i].id) && compiles(checks[i].coveragePaths))
    && (forall i, j :: 0 <= i < j < |checks| ==> checks[i].id != checks[j].id)
  }

  /** `validate_checks`. */
  method ValidateChecks(compiles: seq<string> -> bool, checks: seq<CheckDefinition>) returns (r: Result<Unit, TaskError>)
    ensures r.Ok? <==> ValidChecks(compiles, checks)
    ensures r.Err? ==> r.error == CONFIGURATION_ERROR
  {
    var ids: set<string> := {};
    for k := 0 to |checks|
      invariant ValidChecks(compiles, checks[..k])
      invariant forall id :: id in ids <==> exists i :: 0 <= i < k && checks[i].id == id
    {
      if !ValidCheckId(checks[k].id) || checks[k].id in ids || !compiles(checks[k].coveragePaths) {
        return Err(CONFIGURATION_ERROR);
      }
      ids := ids + {checks[k].id};
    }
    assert checks[..|checks|] == checks;
    r := Ok(Unit);
  }

  /** Sorted checks that pass validation have strictly increasing ids. */
  lemma SortedValidIds(compiles: seq<string> -> bool, checks: seq<CheckDefinition>)
    requires NonDecreasing(checks) && ValidChecks(compiles, checks)
    ensures StrictlySorted(Ids(checks))
  {
    forall i, j | 0 <= i < j < |checks| ensures Less(Ids(checks)[i], Ids(checks)[j]) {
      LessTotal(checks[i].id, checks[j].id);
    }
  }

  // Composition.

  function Enabled(checks: seq<CheckDefinition>, disabled: set<string>): seq<CheckDefinition> {
    if checks == [] then []
    else Enabled(checks[..|checks| - 1], disabled)
         + if checks[|checks| - 1].id in disabled then [] else [checks[|checks| - 1]]
  }

  /** Exactly the enabled checks stay, each as often as it was found. */
  lemma {:induction false} EnabledCounts(checks: seq<CheckDefinition>, disabled: set<string>, check: CheckDefinition)
    ensures multiset(Enabled(checks, disabled))[check] == if check.id in disabled then 0 else multiset(checks)[check]
  {
    if checks != [] {
      EnabledCounts(checks[..|checks| - 1], disabled, check);
      assert checks == checks[..|checks| - 1] + [checks[|checks| - 1]];
    }
  }

  lemma {:induction false} EnabledMembers(checks: seq<CheckDefinition>, disabled: set<string>)
    ensures forall check :: check in Enabled(checks, disabled) <==> check in checks && check.id !in disabled
  {
    if checks != [] {
      EnabledMembers(checks[..|checks| - 1], disabled);
      assert checks == checks[..|checks| - 1] + [checks[|checks| - 1]];
    }
  }

  predicate AllOk(results: seq<Result<CheckDefinition, TaskError>>) {
    forall i :: 0 <= i < |results| ==> results[i].Ok?
  }

  /** One check per configured result, in order. */
  function OkValues(results: seq<Result<CheckDefinition, TaskError>>): (r: seq<CheckDefinition>)
    requires AllOk(results)
    ensures |r| == |results| && forall i :: 0 <= i < |results| ==> results[i] == Ok(r[i])
  {
    if results == [] then [] else OkValues(results[..|results| - 1]) + [results[|results| - 1].value]
  }

  function Folded(s: Setting, inputs: Inputs): Result<W.State, TaskError>
    requires inputs.languages.Ok? && W.AllRead(inputs.documents)
  {
    W.Fold(s.heuristics, W.State(inputs.languages.value, [], []), W.AllSteps(W.Values(inputs.documents)))
  }

  predicate Readable(s: Setting, inputs: Inputs) {
    && inputs.config.Ok? && AllOk(inputs.config.value.configured)
    && inputs.languages.Ok? && W.AllRead(inputs.documents) && Folded(s, inputs).Ok?
  }

  /** The checks of the report, in order. */
  function Collected(s: Setting, inputs: Inputs): seq<CheckDefinition>
    requires Readable(s, inputs)
  {
    SortById(Enabled(Folded(s, inputs).value.checks, inputs.config.value.disabled) + OkValues(inputs.config.value.configured))
  }

  predicate RequestsKnown(checks: seq<CheckDefinition>, requested: seq<string>) {
    forall id :: id in requested ==> exists i :: 0 <= i < |checks| && checks[i].id == id
  }

  /** When discovery succeeds. */
  predicate Discoverable(s: Setting, inputs: Inputs, request: Request) {
    && Readable(s, inputs)
    && ValidChecks(s.compiles, Collected(s, inputs))
    && Admissible(Claims(Collected(s, inputs)), Folded(s, inputs).value.observations)
    && RequestsKnown(Collected(s, inputs), request.requested)
  }

  /** The configuration file, if there is one, then the workflow files in order. */
  function FilesRead(inputs: Inputs): seq<DiscoverySource>
    requires inputs.config.Ok? && W.AllRead(inputs.documents)
  {
    (if inputs.config.value.source.Some? then [inputs.config.value.source.value] else [])
    + W.SourcesOf(W.Values(inputs.documents))
  }

  lemma FilesReadAre(inputs: Inputs)
    requires inputs.config.Ok? && W.AllRead(inputs.documents)
    ensures var files, source := FilesRead(inputs), inputs.config.value.source;
            var first := if source.Some? then 1 else 0;
            && |files| == first + |inputs.documents| && (source.Some? ==> files[0] == source.value)
            && forall i :: 0 <= i < |inputs.documents| ==> files[first + i] == inputs.documents[i].value.source
  {
    var documents := W.Values(inputs.documents);
    assert forall i :: 0 <= i < |documents| ==> inputs.documents[i] == Ok(documents[i]);
  }

  /** What a discovery report says about what was found. */
  ghost predicate Reported(s: Setting, inputs: Inputs, request: Request, report: DiscoveryReport)
    requires Discoverable(s, inputs, request)
  {
    var folded, checks := Folded(s, inputs).value, Collected(s, inputs);
    && report.source == request.source && report.checks == checks && Aligned(report)
    && report.selection == SelectAll(s.glob, checks, request.source.changedPaths, request.changedOnly,
                                     Elements(request.requested))
    && ExactlyClaimedReplaced(Claims(checks), folded.observations, report.workflowObservations)
    && StrictlySorted(report.coverageGaps)
    && GapsReported(s, inputs, request, report)
    && report.configurationFiles == FilesRead(inputs)
  }

  ghost predicate GapsReported(s: Setting, inputs: Inputs, request: Request, report: DiscoveryReport)
    requires Readable(s, inputs)
  {
    forall gap :: gap in report.coverageGaps <==>
      || IsGap(s.glob, request.source.changedPaths, report.checks, report.selection, gap)
      || gap in Retained(Claims(report.checks), Folded(s, inputs).value.gaps)
  }

  /** Disables checks, then appends the configured ones. */
  method AddConfigured(checks: seq<CheckDefinition>, config: Config) returns (r: Result<seq<CheckDefinition>, TaskError>)
    ensures r.Ok? <==> AllOk(config.configured)
    ensures r.Ok? ==> r.value == Enabled(checks, config.disabled) + OkValues(config.configured)
    ensures r.Err? ==> exists i :: 0 <= i < |config.configured| && config.configured[i] == Err(r.error)
  {
    var kept: seq<CheckDefinition> := [];
    for i := 0 to |checks|
      invariant kept == Enabled(checks[..i], config.disabled)
    {
      assert checks[..i + 1][..i] == checks[..i];
      if checks[i].id !in config.disabled {
        kept := kept + [checks[i]];
      }
    }
    assert checks[..|checks|] == checks;
    ghost var enabled := kept;
    for i := 0 to |config.configured|
      invariant AllOk(config.configured[..i])
      invariant kept == enabled + OkValues(config.configured[..i])
    {
      if config.configured[i].Err? {
        return Err(config.configured[i].error);
      }
      ghost var next := config.configured[..i + 1];
      assert next[..i] == config.configured[..i] && next[i] == config.configured[i];
      assert forall k :: 0 <= k < i ==> next[k] == config.configured[..i][k];
      kept := kept + [config.configured[i].value];
    }
    assert config.configured[..|config.configured|] == config.configured;
    r := Ok(kept);
  }

  method UnknownRequest(checks: seq<CheckDefinition>, requested: seq<string>) returns (unknown: bool)
    ensures unknown <==> !RequestsKnown(checks, requested)
  {
    for i := 0 to |requested|
      invariant RequestsKnown(checks, requested[..i])
    {
      if !exists k :: 0 <= k < |checks| && checks[k].id == requested[i] {
        assert requested[i] in requested;
        return true;
      }
      assert requested[..i + 1] == requested[..i] + [requested[i]];
    }
    assert requested[..|requested|] == requested;
    unknown := false;
  }

  lemma GapsCombined(s: Setting, inputs: Inputs, request: Request, report: DiscoveryReport, gaps: seq<string>)
    requires Readable(s, inputs)
    requires forall gap :: gap in gaps <==> IsGap(s.glob, request.source.changedPaths, report.checks, report.selection, gap)
    requires report.coverageGaps == SortedSet(gaps + Retained(Claims(report.checks), Folded(s, inputs).value.gaps))
    ensures StrictlySorted(report.coverageGaps) && GapsReported(s, inputs, request, report)
  {
    var left := Retained(Claims(report.checks), Folded(s, inputs).value.gaps);
    SortedSetSorts(gaps + left);
    assert forall gap :: gap in report.coverageGaps <==> gap in gaps || gap in left;
  }

  lemma SelectionAligned(s: Setting, request: Request, report: DiscoveryReport)
    requires StrictlySorted(Ids(report.checks))
    requires report.selection == SelectAll(s.glob, report.checks, request.source.changedPaths, request.changedOnly,
                                           Elements(request.requested))
    ensures Aligned(report)
  {
  }

  /** The end of `discover_checks`: selection, gaps and the report. */
  method Report(s: Setting, inputs: Inputs, request: Request, checks: seq<CheckDefinition>, workflow: W.Discovery)
    returns (report: DiscoveryReport)
    requires Discoverable(s, inputs, request) && checks == Collected(s, inputs) && StrictlySorted(Ids(checks))
    requires ExactlyClaimedReplaced(Claims(checks), Folded(s, inputs).value.observations, workflow.observations)
    requires workflow.gaps == Retained(Claims(checks), Folded(s, inputs).value.gaps)
    requires workflow.sources == W.SourcesOf(W.Values(inputs.documents))
    ensures Reported(s, inputs, request, report)
  {
    var selection := SelectAll(s.glob, checks, request.source.changedPaths, request.changedOnly, Elements(request.requested));
    var gaps := CoverageGaps(s.glob, request.source.changedPaths, checks, selection);
    var config := inputs.config.value;
    var files := (if config.source.Some? then [config.source.value] else []) + workflow.sources;
    assert files == FilesRead(inputs);
    report := DiscoveryReport(request.source, checks, selection, SortedSet(gaps + workflow.gaps), files,
                              workflow.observations);
    SelectionAligned(s, request, report);
    GapsCombined(s, inputs, request, report, gaps);
  }

  /** `discover_checks`: it succeeds exactly when every source can be read, the checks are valid, every claim is
      admissible and every requested check exists. */
  method DiscoverChecks(s: Setting, inputs: Inputs, request: Request) returns (r: Result<DiscoveryReport, TaskError>)
    requires Honest(inputs)
    ensures r.Ok? <==> Discoverable(s, inputs, request)
    ensures r.Ok? ==> Reported(s, inputs, request, r.value)
    ensures r.Err? ==> Plain(r.error)
  {
    if inputs.config.Err? {
      return Err(inputs.config.error);
    }
    var config := inputs.config.value;
    if inputs.languages.Err? {
      return Err(inputs.languages.error);
    }
    var workflow := new W.Discovery(inputs.languages.value);
    var inspected := workflow.InspectAll(s.heuristics, inputs.documents);
    if inspected.Err? {
      return Err(inspected.error);
    }
    assert Folded(s, inputs) == Ok(workflow.Now());
    var collected := AddConfigured(workflow.checks, config);
    if collected.Err? {
      return Err(collected.error);
    }
    var checks := SortById(collected.value);
    SortByIdSorts(collected.value);
    assert checks == Collected(s, inputs);
    var valid := ValidateChecks(s.compiles, checks);
    if valid.Err? {
      return Err(valid.error);
    }
    SortedValidIds(s.compiles, checks);
    var applied := ApplyReplacements(checks, workflow);
    if applied.Err? {
      return Err(applied.error);
    }
    var unknown := UnknownRequest(checks, request.requested);
    if unknown {
      return Err(DISCOVERY_ERROR);
    }
    var report := Report(s, inputs, request, checks, workflow);
    r := Ok(report);
  }

  // What a report means.

  lemma CollectedMembers(s: Setting, inputs: Inputs)
    requires Readable(s, inputs)
    ensures forall check :: check in Collected(s, inputs) <==>
              || (check in Folded(s, inputs).value.checks && check.id !in inputs.config.value.disabled)
              || check in OkValues(inputs.config.value.configured)
  {
    var folded, config := Folded(s, inputs).value, inputs.config.value;
    var listed := Enabled(folded.checks, config.disabled) + OkValues(config.configured);
    SortByIdSorts(listed);
    EnabledMembers(folded.checks, config.disabled);
    forall check ensures check in SortById(listed) <==> check in listed {
      assert check in SortById(listed) <==> check in multiset(SortById(listed));
      assert check in listed <==> check in multiset(listed);
    }
  }

  /** Each check is collected as often as the fold has it, unless its id is disabled, and as often as it is configured. */
  lemma CollectedCounts(s: Setting, inputs: Inputs, check: CheckDefinition)
    requires Readable(s, inputs)
    ensures multiset(Collected(s, inputs))[check]
            == (if check.id in inputs.config.value.disabled then 0 else multiset(Folded(s, inputs).value.checks)[check])
               + multiset(OkValues(inputs.config.value.configured))[check]
  {
    var folded, config := Folded(s, inputs).value, inputs.config.value;
    SortByIdSorts(Enabled(folded.checks, config.disabled) + OkValues(config.configured));
    EnabledCounts(folded.checks, config.disabled, check);
  }

  /** What the report's selection says of each of its checks, mode by mode. */
  lemma SelectionMeans(s: Setting, inputs: Inputs, request: Request, report: DiscoveryReport, i: nat)
    requires Discoverable(s, inputs, request) && Reported(s, inputs, request, report) && i < |report.checks|
    ensures |report.selection| == |report.checks| && report.selection[i].checkId == report.checks[i].id
    ensures var changed, selected := request.source.changedPaths, report.selection[i].selected;
            && (request.requested != [] ==> (selected <==> report.checks[i].id in request.requested))
            && (request.requested == [] && (!request.changedOnly || changed == []) ==> selected)
            && (request.requested == [] && request.changedOnly && changed != [] ==>
                  (selected <==> exists path :: path in changed && s.glob(report.checks[i].coveragePaths, path)))
  {
    SelectedWhen(s.glob, report.checks, request.source.changedPaths, request.changedOnly, Elements(request.requested), i);
    assert Elements(request.requested) == {} <==> request.requested == [] by {
      if request.requested != [] {
        assert request.requested[0] in Elements(request.requested);
      }
    }
  }

  /** Some check has this id and runs this command. */
  predicate Runs(checks: seq<CheckDefinition>, id: string, command: CommandSpec) {
    exists check :: check in checks && check.id == id && check.command == command
  }

  /** Some check has this id. */
  predicate HasId(checks: seq<CheckDefinition>, id: string) {
    exists check :: check in checks && check.id == id
  }

  /** The step the k-th observation was made of. */
  function StepOf(s: Setting, inputs: Inputs, k: nat): W.RunStep
    requires Readable(s, inputs) && k < |W.Observed(s.heuristics, W.AllSteps(W.Values(inputs.documents)))|
  {
    W.Observed(s.heuristics, W.AllSteps(W.Values(inputs.documents)))[k]
  }

  /** What the report says of a step that was converted to `command`. The named check is in the report, or not, as the
      configuration alone decides. */
  predicate Converted(config: Config, checks: seq<CheckDefinition>, o: WorkflowObservation, command: CommandSpec)
    requires AllOk(config.configured)
  {
    && o.checkId.Some?
    && (HasId(checks, o.checkId.value)
        <==> o.checkId.value !in config.disabled || HasId(OkValues(config.configured), o.checkId.value))
    && (Runs(checks, o.checkId.value, command)
        <==> o.checkId.value !in config.disabled || Runs(OkValues(config.configured), o.checkId.value, command))
  }

  /** An observation is unmodeled and names no check, is replaced by a check of the report that claims it, or names the
      check its step was converted to. */
  predicate Accounted(s: Setting, inputs: Inputs, report: DiscoveryReport, o: WorkflowObservation, step: W.RunStep)
    requires Readable(s, inputs)
  {
    match o.classification
    case UnmodeledVerification => o.checkId.None?
    case ReplacedByExplicitCheck =>
      exists check :: check in report.checks && o.checkId == Some(check.id) && o.id in check.replacesWorkflowSteps
    case _ =>
      var safe := s.heuristics.safe(step.run, step.workingDirectory);
      safe.Some? && Converted(inputs.config.value, report.checks, o, safe.value.1)
  }

  lemma {:induction false} ClaimsCome(checks: seq<CheckDefinition>, i: nat)
    requires i < |Claims(checks)|
    ensures exists check :: check in checks && Claims(checks)[i].check == check.id && Claims(checks)[i].step in check.replacesWorkflowSteps
  {
    var front, last := checks[..|checks| - 1], checks[|checks| - 1];
    if i < |Claims(front)| {
      ClaimsCome(front, i);
      var check :| check in front && Claims(front)[i].check == check.id && Claims(front)[i].step in check.replacesWorkflowSteps;
      assert check in checks;
    } else {
      var own := CheckClaims(last, |last.replacesWorkflowSteps|);
      assert Claims(checks)[i] == own[i - |Claims(front)|];
      assert last in checks;
    }
  }

  lemma ObservationExplained(s: Setting, inputs: Inputs, k: nat)
    requires Readable(s, inputs) && k < |Folded(s, inputs).value.observations|
    ensures |W.Observed(s.heuristics, W.AllSteps(W.Values(inputs.documents)))| == |Folded(s, inputs).value.observations|
    ensures var folded, step := Folded(s, inputs).value, StepOf(s, inputs, k);
            var o, safe := folded.observations[k], s.heuristics.safe(step.run, step.workingDirectory);
            if o.classification.UnmodeledVerification? then o.checkId.None?
            else !o.classification.ReplacedByExplicitCheck? && safe.Some? && o.checkId.Some?
                 && Runs(folded.checks, o.checkId.value, safe.value.1)
  {
    var steps := W.AllSteps(W.Values(inputs.documents));
    W.FoldInvariant(s.heuristics, inputs.languages.value, steps);
    var folded := Folded(s, inputs).value;
    var step, o := W.Observed(s.heuristics, steps)[k], folded.observations[k];
    assert W.Explains(s.heuristics, |inputs.languages.value|, folded.checks, step, o);
    if o.checkId.Some? {
      var i := W.FirstWith(folded.checks, s.heuristics.safe(step.run, step.workingDirectory).value.1);
      assert folded.checks[i] in folded.checks;
    }
  }

  /** The collected checks keep a check of the fold unless its id is disabled, and add the configured ones. */
  lemma CollectedRuns(s: Setting, inputs: Inputs, id: string, command: CommandSpec)
    requires Readable(s, inputs) && Runs(Folded(s, inputs).value.checks, id, command)
    ensures var config := inputs.config.value;
            && (HasId(Collected(s, inputs), id) <==> id !in config.disabled || HasId(OkValues(config.configured), id))
            && (Runs(Collected(s, inputs), id, command)
                <==> id !in config.disabled || Runs(OkValues(config.configured), id, command))
  {
    CollectedMembers(s, inputs);
    var check :| check in Folded(s, inputs).value.checks && check.id == id && check.command == command;
    if id !in inputs.config.value.disabled {
      assert check in Collected(s, inputs);
    }
  }

  lemma UntouchedAccounted(s: Setting, inputs: Inputs, report: DiscoveryReport, k: nat)
    requires Readable(s, inputs) && report.checks == Collected(s, inputs)
    requires k < |Folded(s, inputs).value.observations|
    ensures |W.Observed(s.heuristics, W.AllSteps(W.Values(inputs.documents)))| == |Folded(s, inputs).value.observations|
    ensures Accounted(s, inputs, report, Folded(s, inputs).value.observations[k], StepOf(s, inputs, k))
  {
    ObservationExplained(s, inputs, k);
    var o, step := Folded(s, inputs).value.observations[k], StepOf(s, inputs, k);
    if !o.classification.UnmodeledVerification? {
      CollectedRuns(s, inputs, o.checkId.value, s.heuristics.safe(step.run, step.workingDirectory).value.1);
    }
  }

  lemma ReplacedAccounted(s: Setting, inputs: Inputs, report: DiscoveryReport, before: seq<WorkflowObservation>, k: nat,
                          o: WorkflowObservation, step: W.RunStep)
    requires Readable(s, inputs) && k < |before| && ReplacedAt(Claims(report.checks), before, o, k)
    requires Accounted(s, inputs, report, before[k], step)
    ensures Accounted(s, inputs, report, o, step)
  {
    var claims := Claims(report.checks);
    if o != before[k] {
      var i :| 0 <= i < |claims| && claims[i].step == before[k].id && o == ReplacedBy(before[k], claims[i].check);
      ClaimsCome(report.checks, i);
    }
  }

  /** Every observation of a report is accounted for, in particular: the check a step was converted to is missing from
      the report exactly when its id is disabled and not configured again, and no check of that id runs the step's
      command exactly when its id is disabled and not configured again with that command. */
  lemma ObservationsAccounted(s: Setting, inputs: Inputs, request: Request, report: DiscoveryReport, k: nat)
    requires Discoverable(s, inputs, request) && Reported(s, inputs, request, report)
    requires k < |report.workflowObservations|
    ensures |W.Observed(s.heuristics, W.AllSteps(W.Values(inputs.documents)))| == |report.workflowObservations|
    ensures Accounted(s, inputs, report, report.workflowObservations[k], StepOf(s, inputs, k))
  {
    UntouchedAccounted(s, inputs, report, k);
    ReplacedAccounted(s, inputs, report, Folded(s, inputs).value.observations, k, report.workflowObservations[k],
                      StepOf(s, inputs, k));
  }

  // A matched check that is disabled leaves neither the check nor a gap.

  /** One language check whose command one workflow step declares, disabled, and one other configured check. */
  function DisabledMatch(check: CheckDefinition, other: CheckDefinition, source: DiscoverySource, run: string): Inputs {
    var job := W.Job(Some("ci"), Some([W.StepValue(Some(run), Some("check"), None)]));
    Inputs(Ok(Config({check.id}, [Ok(other)], None)), Ok([check]), [Ok(W.Document(source, Some([job])))])
  }

  function MatchedStep(source: DiscoverySource, run: string): W.RunStep {
    W.RunStep(source, "ci", "check", run, ".")
  }

  lemma DisabledMatchSteps(check: CheckDefinition, other: CheckDefinition, source: DiscoverySource, run: string)
    ensures var documents := DisabledMatch(check, other, source, run).documents;
            W.AllRead(documents) && W.AllSteps(W.Values(documents)) == [MatchedStep(source, run)]
  {
    var documents := DisabledMatch(check, other, source, run).documents;
    var d := documents[0].value;
    var value := d.jobs.value[0].steps.value[0];
    assert d.jobs.value[0].steps.value == [value] && [value][..0] == [];
    assert W.JobSteps(source, "ci", []) == [] && W.JobSteps(source, "ci", [value]) == [] + [MatchedStep(source, run)];
    assert d.jobs.value[..0] == [] && W.JobsSteps(source, []) == [];
    assert W.DocumentSteps(d) == [MatchedStep(source, run)];
    assert documents[..0] == [] && W.Values(documents) == [] + [d];
    assert [d][..0] == [] && W.AllSteps([d]) == W.AllSteps([]) + W.DocumentSteps(d);
  }

  lemma OneValue(check: CheckDefinition)
    ensures OkValues([Ok(check)]) == [check]
  {
    var results: seq<Result<CheckDefinition, TaskError>> := [Ok(check)];
    assert results[..0] == [];
    assert OkValues(results[..0]) == [];
  }

  lemma OneSorted(check: CheckDefinition)
    ensures SortById([check]) == [check]
  {
    assert [check][..0] == [];
    assert SortById([check]) == InsertById(SortById([]), check);
  }

  lemma OneClaimsNothing(check: CheckDefinition)
    requires check.replacesWorkflowSteps == []
    ensures Claims([check]) == []
  {
    assert [check][..0] == [];
    assert Claims([check]) == Claims([]) + CheckClaims(check, 0);
  }

  /** One configured check is collected as it is, and claims nothing. */
  lemma OneConfigured(check: CheckDefinition)
    ensures OkValues([Ok(check)]) == [check] && SortById([check]) == [check]
    ensures check.replacesWorkflowSteps == [] ==> Claims([check]) == []
  {
    OneValue(check);
    OneSorted(check);
    if check.replacesWorkflowSteps == [] {
      OneClaimsNothing(check);
    }
  }

  lemma MatchedFold(h: W.Heuristics, check: CheckDefinition, step: W.RunStep)
    requires h.safe(step.run, step.workingDirectory).Some? && h.safe(step.run, step.workingDirectory).value.1 == check.command
    requires h.inside(check.command.workingDirectory)
    ensures W.Fold(h, W.State([check], [], []), [step])
            == Ok(W.State([W.Declared(check, step)], [W.Observe(h, step, MatchedCheck, Some(check.id))], []))
  {
    var start := W.State([check], [], []);
    assert [step][..0] == [] && W.Fold(h, start, []) == Ok(start);
    assert W.FirstWith([check], check.command) == 0;
    assert [check][0 := W.Declared(check, step)] == [W.Declared(check, step)];
    assert [] + [W.Observe(h, step, MatchedCheck, Some(check.id))] == [W.Observe(h, step, MatchedCheck, Some(check.id))];
  }

  lemma OneDisabled(check: CheckDefinition)
    ensures Enabled([check], {check.id}) == []
  {
    assert [check][..0] == [] && Enabled([], {check.id}) == [];
  }

  /** The step is matched to the check, and only the other check is collected. */
  lemma DisabledMatchCollected(s: Setting, check: CheckDefinition, other: CheckDefinition, source: DiscoverySource, run: string)
    requires s.heuristics.safe(run, ".").Some? && s.heuristics.safe(run, ".").value.1 == check.command
    requires s.heuristics.inside(check.command.workingDirectory)
    ensures var inputs := DisabledMatch(check, other, source, run);
            && Readable(s, inputs) && Collected(s, inputs) == [other] && Folded(s, inputs).value.gaps == []
            && Folded(s, inputs).value.observations
               == [W.Observe(s.heuristics, MatchedStep(source, run), MatchedCheck, Some(check.id))]
  {
    var inputs, step := DisabledMatch(check, other, source, run), MatchedStep(source, run);
    DisabledMatchSteps(check, other, source, run);
    MatchedFold(s.heuristics, check, step);
    OneDisabled(W.Declared(check, step));
    OneConfigured(other);
    assert [] + [other] == [other];
  }

  lemma DisabledMatchFiles(check: CheckDefinition, other: CheckDefinition, source: DiscoverySource, run: string)
    ensures var inputs := DisabledMatch(check, other, source, run);
            W.AllRead(inputs.documents) && FilesRead(inputs) == [source]
  {
    var inputs := DisabledMatch(check, other, source, run);
    var d := inputs.documents[0].value;
    assert inputs.documents[..0] == [] && W.Values(inputs.documents) == [] + [d] && [d][..0] == [];
    assert W.SourcesOf([d]) == [] + [source];
  }

  /** One selected check and no changed path: nothing is missing. */
  lemma OneSelectedHasNoGap(glob: Glob, check: CheckDefinition)
    ensures SelectAll(glob, [check], [], false, {})[0].selected
    ensures forall gap :: !IsGap(glob, [], [check], SelectAll(glob, [check], [], false, {}), gap)
    ensures StrictlySorted(Ids([check]))
  {
    var selection := SelectAll(glob, [check], [], false, {});
    assert selection[0].selected;
  }

  /** The report of such a workspace has no gap, and its observation names a check it does not have. */
  lemma DisabledMatchLeavesNoGap(s: Setting, identity: SourceIdentity, check: CheckDefinition, other: CheckDefinition,
                                 source: DiscoverySource, run: string)
    requires s.heuristics.safe(run, ".").Some? && s.heuristics.safe(run, ".").value.1 == check.command
    requires s.heuristics.inside(check.command.workingDirectory)
    requires check.id != other.id && other.replacesWorkflowSteps == []
    requires ValidCheckId(other.id) && s.compiles(other.coveragePaths) && identity.changedPaths == []
    ensures var inputs, request := DisabledMatch(check, other, source, run), Request(identity, false, []);
            var o := W.Observe(s.heuristics, MatchedStep(source, run), MatchedCheck, Some(check.id));
            var report := DiscoveryReport(identity, [other], SelectAll(s.glob, [other], [], false, {}), [], [source], [o]);
            && Discoverable(s, inputs, request) && Reported(s, inputs, request, report)
            && report.coverageGaps == [] && !HasId(report.checks, o.checkId.value)
  {
    var inputs, request := DisabledMatch(check, other, source, run), Request(identity, false, []);
    var o := W.Observe(s.heuristics, MatchedStep(source, run), MatchedCheck, Some(check.id));
    DisabledMatchCollected(s, check, other, source, run);
    OneClaimsNothing(other);
    assert Discoverable(s, inputs, request);
    DisabledMatchFiles(check, other, source, run);
    OneSelectedHasNoGap(s.glob, other);
    assert Elements<string>([]) == {};
    NothingClaimed([o]);
  }

  lemma NothingClaimed(observations: seq<WorkflowObservation>)
    ensures ExactlyClaimedReplaced([], observations, observations)
  {
    forall k | 0 <= k < |observations| ensures ReplacedAt([], observations, observations[k], k) {
    }
  }

  /** No id is the end of another one, in particular no two are equal. */
  predicate SuffixFree(observations: seq<WorkflowObservation>) {
    forall j, k :: 0 <= j < |observations| && 0 <= k < |observations| && j != k ==>
      !EndsWith(observations[j].id, observations[k].id)
  }

  predicate FromDotDirectory(inputs: Inputs) {
    forall i :: 0 <= i < |inputs.documents| && inputs.documents[i].Ok? ==> W.InDotDirectory(inputs.documents[i].value.source)
  }

  lemma {:induction false} ValuesMembers(documents: seq<Result<W.Document, TaskError>>)
    requires W.AllRead(documents)
    ensures forall d :: d in W.Values(documents) ==> exists i :: 0 <= i < |documents| && documents[i].value == d
  {
    if documents != [] {
      var front := documents[..|documents| - 1];
      ValuesMembers(front);
      forall d | d in W.Values(documents) ensures exists i :: 0 <= i < |documents| && documents[i].value == d {
        if d in W.Values(front) {
          var i :| 0 <= i < |front| && front[i].value == d;
          assert documents[i] == front[i];
        } else {
          assert documents[|documents| - 1].value == d;
        }
      }
    }
  }

  /** Of the steps read, a claimed id ends only the gap of the step it replaces. */
  predicate GapsAttributable(s: Setting, inputs: Inputs)
    requires Readable(s, inputs)
  {
    OnlyClaimedGapsEnd(Claims(Collected(s, inputs)), Folded(s, inputs).value.observations)
  }

  /** What the fold leaves to the replacement pass. */
  lemma FoldFacts(s: Setting, inputs: Inputs)
    requires Readable(s, inputs) && FromDotDirectory(inputs)
    ensures var folded := Folded(s, inputs).value;
            && folded.gaps == W.GapsOf(folded.observations)
            && forall k :: 0 <= k < |folded.observations| ==> folded.observations[k].id != "" && folded.observations[k].id[0] == '.'
  {
    var documents := W.Values(inputs.documents);
    W.FoldInvariant(s.heuristics, inputs.languages.value, W.AllSteps(documents));
    ValuesMembers(inputs.documents);
    W.ObservationIdsStartWithDot(s.heuristics, inputs.languages.value, documents, Folded(s, inputs).value);
  }

  /** The gaps of a report say exactly which steps are still unmodeled when, of the steps read, a claimed id ends only
      the gap of the step it replaces, and that holds when no observation id is the end of another. */
  lemma UnmodeledStepsHaveGaps(s: Setting, inputs: Inputs, request: Request, report: DiscoveryReport)
    requires Discoverable(s, inputs, request) && Reported(s, inputs, request, report) && FromDotDirectory(inputs)
    ensures var claims, folded := Claims(report.checks), Folded(s, inputs).value;
            && (Retained(claims, folded.gaps) == W.GapsOf(report.workflowObservations)
                <==> GapsAttributable(s, inputs))
            && (SuffixFree(folded.observations) ==> GapsAttributable(s, inputs))
  {
    var claims, before := Claims(report.checks), Folded(s, inputs).value.observations;
    FoldFacts(s, inputs);
    GapsStayExact(claims, before, report.workflowObservations);
    if SuffixFree(before) {
      assert Separated(before);
      SeparatedIdsLoseNothing(claims, before, report.workflowObservations);
    }
  }

  /** With no gap reported, no unmodeled step is left exactly when the gaps are attributable. */
  lemma NoUnmodeledStep(s: Setting, inputs: Inputs, request: Request, report: DiscoveryReport)
    requires Discoverable(s, inputs, request) && Reported(s, inputs, request, report) && FromDotDirectory(inputs)
    requires report.coverageGaps == []
    ensures GapsAttributable(s, inputs)
            <==> forall o :: o in report.workflowObservations ==> !o.classification.UnmodeledVerification?
    ensures SuffixFree(Folded(s, inputs).value.observations) ==> GapsAttributable(s, inputs)
  {
    var folded := Folded(s, inputs).value;
    var left := Retained(Claims(report.checks), folded.gaps);
    assert forall gap :: gap in left ==> gap in report.coverageGaps;
    HasMember(left);
    UnmodeledStepsHaveGaps(s, inputs, request, report);
    FoldFacts(s, inputs);
    NothingLeft(Claims(report.checks), folded.observations, report.workflowObservations);
  }
}
