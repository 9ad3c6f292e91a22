/** Reading the run steps of GitHub Actions workflows into checks, observations and gaps (src/discover.rs).

    A parsed workflow is given as the parts the fold reads; what counts as a safe command or as an unmodeled
    verification step is decided by tables that are parameters here. */
module Workflow {
  import opened Basics
  import opened Hex
  import opened Model

  datatype StepValue = StepValue(run: Option<string>, name: Option<string>, workingDirectory: Option<string>)

  datatype Job = Job(key: Option<string>, steps: Option<seq<StepValue>>)

  datatype Document = Document(source: DiscoverySource, jobs: Option<seq<Job>>)

  /** One step that has a `run` text, with its defaults filled in. */
  datatype RunStep = RunStep(source: DiscoverySource, job: string, step: string, run: string, workingDirectory: string)

  /** `safe` converts a run text to a command, `verification` recognises steps it should have converted, and
      `inside` is the validation of a working directory. `wording` and `caveats` are fixed texts. */
  datatype Heuristics = Heuristics(
    safe: (string, string) -> Option<(CheckKind, CommandSpec)>,
    verification: (string, string, string, string) -> bool,
    inside: string -> bool, coverage: string -> seq<string>, summary: string -> string,
    wording: WorkflowClassification -> string, caveats: seq<string>,
    utf8: string -> Bytes, sha: Sha256)

  datatype State = State(checks: seq<CheckDefinition>, observations: seq<WorkflowObservation>, gaps: seq<string>)

  const GAP_PREFIX: string := "verification " + "workflow " + "step is not " + "safely " + "modeled: "

  function GapText(observationId: string): string {
    GAP_PREFIX + observationId
  }

  function ObservationId(s: RunStep): string {
    s.source.path + "#" + s.job + "#" + s.step
  }

  function KindId(kind: CheckKind): string {
    match kind
    case Format => "format"
    case Lint => "lint"
    case Test => "test"
    case TypeCheck => "typecheck"
    case Build => "build"
    case Custom => "custom"
  }

  function RunDigest(h: Heuristics, s: RunStep): (digest: string)
    ensures ValidSha256(digest)
  {
    DerivedShapes(h.sha, h.utf8(s.run));
    Sha256Hex(h.sha, h.utf8(s.run))
  }

  function Observe(h: Heuristics, s: RunStep, classification: WorkflowClassification, checkId: Option<string>)
    : WorkflowObservation {
    WorkflowObservation(ObservationId(s), s.source, s.job, s.step, RunDigest(h, s), h.summary(s.run), classification, checkId,
                        h.wording(classification))
  }

  function NewCheck(h: Heuristics, s: RunStep, kind: CheckKind, command: CommandSpec): CheckDefinition {
    CheckDefinition("ci-" + KindId(kind) + "-" + RunDigest(h, s)[..8], "CI: " + s.step, kind, command,
                    "safe single-command workflow step " + ObservationId(s), [s.source], High, h.coverage(s.run), [],
                    h.caveats, [])
  }

  predicate HasPath(sources: seq<DiscoverySource>, path: string) {
    exists i :: 0 <= i < |sources| && sources[i].path == path
  }

  /** An existing check that a step declares again. */
  function Declared(check: CheckDefinition, s: RunStep): CheckDefinition {
    check.(sources := if HasPath(check.sources, s.source.path) then check.sources else check.sources + [s.source],
           reason := check.reason + "; also declared by " + ObservationId(s))
  }

  /** The first check that runs this command, or the number of checks. */
  function FirstWith(checks: seq<CheckDefinition>, command: CommandSpec): (i: nat)
    ensures i <= |checks|
    ensures i < |checks| ==> checks[i].command == command
    ensures forall j :: 0 <= j < i ==> checks[j].command != command
  {
    if checks == [] || checks[0].command == command then 0 else FirstWith(checks[1..], command) + 1
  }

  /** The state after one step. */
  function Next(h: Heuristics, s: State, step: RunStep): Result<State, TaskError> {
    match h.safe(step.run, step.workingDirectory)
    case Some((kind, command)) =>
      if !h.inside(command.workingDirectory) then Err(CONFIGURATION_ERROR)
      else
        var i := FirstWith(s.checks, command);
        if i < |s.checks| then
          Ok(State(s.checks[i := Declared(s.checks[i], step)],
                   s.observations + [Observe(h, step, MatchedCheck, Some(s.checks[i].id))], s.gaps))
        else
          var check := NewCheck(h, step, kind, command);
          Ok(State(s.checks + [check],
                   s.observations + [Observe(h, step, DiscoveredCheck, Some(check.id))], s.gaps))
    case None =>
      if h.verification(step.source.path, step.job, step.step, step.run) then
        Ok(State(s.checks, s.observations + [Observe(h, step, UnmodeledVerification, None)],
                 s.gaps + [GapText(ObservationId(step))]))
      else Ok(s)
  }

  function Fold(h: Heuristics, s: State, steps: seq<RunStep>): Result<State, TaskError> {
    if steps == [] then Ok(s)
    else
      var before := Fold(h, s, steps[..|steps| - 1]);
      if before.Err? then before else Next(h, before.value, steps[|steps| - 1])
  }

  lemma {:induction false} FoldAppend(h: Heuristics, s: State, a: seq<RunStep>, b: seq<RunStep>)
    ensures Fold(h, s, a + b) == if Fold(h, s, a).Err? then Fold(h, s, a) else Fold(h, Fold(h, s, a).value, b)
  {
    if b == [] {
      assert a + b == a;
    } else {
      FoldAppend(h, s, a, b[..|b| - 1]);
      assert (a + b)[..|a + b| - 1] == a + b[..|b| - 1];
    }
  }

  /** The run steps among the first entries of a job. */
  function JobSteps(source: DiscoverySource, job: string, steps: seq<StepValue>): seq<RunStep> {
    if steps == [] then []
    else
      var last := steps[|steps| - 1];
      JobSteps(source, job, steps[..|steps| - 1])
      + (if last.run.None? then []
         else [RunStep(source, job,
                       if last.name.Some? then last.name.value else "step-" + Decimal(|steps|),
                       last.run.value,
                       if last.workingDirectory.Some? then last.workingDirectory.value else ".")])
  }

  function JobName(job: Job): string {
    if job.key.Some? then job.key.value else "unnamed-job"
  }

  function JobsSteps(source: DiscoverySource, jobs: seq<Job>): seq<RunStep> {
    if jobs == [] then []
    else
      var last := jobs[|jobs| - 1];
      JobsSteps(source, jobs[..|jobs| - 1])
      + if last.steps.None? then [] else JobSteps(source, JobName(last), last.steps.value)
  }

  function DocumentSteps(d: Document): seq<RunStep> {
    if d.jobs.None? then [] else JobsSteps(d.source, d.jobs.value)
  }

  function AllSteps(documents: seq<Document>): seq<RunStep> {
    if documents == [] then []
    else AllSteps(documents[..|documents| - 1]) + DocumentSteps(documents[|documents| - 1])
  }

  /** The checks found so far and the workflow findings; the fields the fold updates in place. */
  class Discovery {
    var checks: seq<CheckDefinition>
    var observations: seq<WorkflowObservation>
    var gaps: seq<string>
    var sources: seq<DiscoverySource>

    constructor (checks: seq<CheckDefinition>)
      ensures Now() == State(checks, [], []) && sources == []
    {
      this.checks, observations, gaps, sources := checks, [], [], [];
    }

    function Now(): State
      reads this
    {
      State(checks, observations, gaps)
    }

    /** The body of the innermost loop of `inspect_workflow_document`. */
    method InspectStep(h: Heuristics, s: RunStep) returns (r: Result<Unit, TaskError>)
      modifies this`checks, this`observations, this`gaps
      ensures r.Ok? ==> Next(h, old(Now()), s) == Ok(Now())
      ensures r.Err? ==> Next(h, old(Now()), s) == Err(r.error)
    {
      var safe := h.safe(s.run, s.workingDirectory);
      if safe.Some? {
        var (kind, command) := safe.value;
        if !h.inside(command.workingDirectory) {
          return Err(CONFIGURATION_ERROR);
        }
        var existing := 0;
        while existing < |checks| && checks[existing].command != command
          invariant existing <= |checks|
          invariant forall j :: 0 <= j < existing ==> checks[j].command != command
        {
          existing := existing + 1;
        }
        assert existing == FirstWith(checks, command);
        if existing < |checks| {
          var check := checks[existing];
          if !HasPath(check.sources, s.source.path) {
            check := check.(sources := check.sources + [s.source]);
          }
          check := check.(reason := check.reason + "; also declared by " + ObservationId(s));
          checks := checks[existing := check];
          observations := observations + [Observe(h, s, MatchedCheck, Some(check.id))];
        } else {
          var check := NewCheck(h, s, kind, command);
          checks := checks + [check];
          observations := observations + [Observe(h, s, DiscoveredCheck, Some(check.id))];
        }
      } else if h.verification(s.source.path, s.job, s.step, s.run) {
        gaps := gaps + [GapText(ObservationId(s))];
        observations := observations + [Observe(h, s, UnmodeledVerification, None)];
      }
      r := Ok(Unit);
    }

    method InspectJob(h: Heuristics, source: DiscoverySource, job: string, steps: seq<StepValue>)
      returns (r: Result<Unit, TaskError>)
      modifies this`checks, this`observations, this`gaps
      ensures r.Ok? ==> Fold(h, old(Now()), JobSteps(source, job, steps)) == Ok(Now())
      ensures r.Err? ==> Fold(h, old(Now()), JobSteps(source, job, steps)) == Err(r.error)
    {
      ghost var start := Now();
      for index := 0 to |steps|
        invariant Fold(h, start, JobSteps(source, job, steps[..index])) == Ok(Now())
      {
        var value := steps[index];
        ghost var done := JobSteps(source, job, steps[..index]);
        assert steps[..index + 1][..index] == steps[..index];
        if value.run.Some? {
          var step := if value.name.Some? then value.name.value else "step-" + Decimal(index + 1);
          var directory := if value.workingDirectory.Some? then value.workingDirectory.value else ".";
          var s := RunStep(source, job, step, value.run.value, directory);
          FoldOne(h, start, done, s);
          var inspected := InspectStep(h, s);
          if inspected.Err? {
            FoldErr(h, start, source, job, steps, index + 1);
            return inspected;
          }
        } else {
          assert JobSteps(source, job, steps[..index + 1]) == done;
        }
      }
      assert steps[..|steps|] == steps;
      r := Ok(Unit);
    }

    /** `inspect_workflow_document`. */
    method InspectDocument(h: Heuristics, d: Document) returns (r: Result<Unit, TaskError>)
      modifies this`checks, this`observations, this`gaps
      ensures r.Ok? ==> Fold(h, old(Now()), DocumentSteps(d)) == Ok(Now())
      ensures r.Err? ==> Fold(h, old(Now()), DocumentSteps(d)) == Err(r.error)
    {
      if d.jobs.None? {
        return Ok(Unit);
      }
      ghost var start := Now();
      var jobs := d.jobs.value;
      for index := 0 to |jobs|
        invariant Fold(h, start, JobsSteps(d.source, jobs[..index])) == Ok(Now())
      {
        var job := jobs[index];
        assert jobs[..index + 1][..index] == jobs[..index];
        if job.steps.None? {
          assert JobsSteps(d.source, jobs[..index + 1]) == JobsSteps(d.source, jobs[..index]);
        } else {
          FoldAppend(h, start, JobsSteps(d.source, jobs[..index]), JobSteps(d.source, JobName(job), job.steps.value));
          var inspected := InspectJob(h, d.source, JobName(job), job.steps.value);
          if inspected.Err? {
            JobsErr(h, start, d.source, jobs, index + 1);
            return inspected;
          }
        }
      }
      assert jobs[..|jobs|] == jobs;
      r := Ok(Unit);
    }

    /** One document of `discover_workflows`: its source is recorded before it is inspected. */
    method AddDocument(h: Heuristics, d: Document) returns (r: Result<Unit, TaskError>)
      modifies this
      ensures sources == old(sources) + [d.source]
      ensures r.Ok? ==> Fold(h, old(Now()), DocumentSteps(d)) == Ok(Now())
      ensures r.Err? ==> Fold(h, old(Now()), DocumentSteps(d)).Err? && Plain(r.error)
    {
      sources := sources + [d.source];
      r := InspectDocument(h, d);
      FoldErrors(h, old(Now()), DocumentSteps(d));
    }

    /** The loop of `discover_workflows` over the documents, in path order; one that cannot be read ends it. */
    method InspectAll(h: Heuristics, documents: seq<Result<Document, TaskError>>) returns (r: Result<Unit, TaskError>)
      requires forall i :: 0 <= i < |documents| && documents[i].Err? ==> Plain(documents[i].error)
      modifies this
      ensures r.Err? ==> Plain(r.error)
      ensures r.Err? ==> !AllRead(documents) || Fold(h, old(Now()), AllSteps(Values(documents))).Err?
      ensures r.Ok? ==> AllRead(documents)
      ensures r.Ok? ==> Fold(h, old(Now()), AllSteps(Values(documents))) == Ok(Now())
      ensures r.Ok? ==> sources == old(sources) + SourcesOf(Values(documents))
    {
      ghost var start, given := Now(), sources;
      assert documents[..0] == [];
      for index := 0 to |documents|
        invariant AllRead(documents[..index])
        invariant Fold(h, start, AllSteps(Values(documents[..index]))) == Ok(Now())
        invariant sources == given + SourcesOf(Values(documents[..index]))
      {
        if documents[index].Err? {
          return Err(documents[index].error);
        }
        var d := documents[index].value;
        ghost var done := Values(documents[..index]);
        ValuesNext(documents, index);
        FoldAppend(h, start, AllSteps(done), DocumentSteps(d));
        AllStepsNext(done, d);
        var added := AddDocument(h, d);
        if added.Err? {
          if AllRead(documents) {
            DocumentsErr(h, start, documents, index + 1);
          }
          return added;
        }
      }
      assert documents[..|documents|] == documents;
      r := Ok(Unit);
    }
  }

  predicate AllRead(documents: seq<Result<Document, TaskError>>) {
    forall i :: 0 <= i < |documents| ==> documents[i].Ok?
  }

  function Values(documents: seq<Result<Document, TaskError>>): (r: seq<Document>)
    requires AllRead(documents)
    ensures |r| == |documents| && forall i :: 0 <= i < |documents| ==> documents[i] == Ok(r[i])
  {
    if documents == [] then []
    else Values(documents[..|documents| - 1]) + [documents[|documents| - 1].value]
  }

  function SourcesOf(documents: seq<Document>): (r: seq<DiscoverySource>)
    ensures |r| == |documents| && forall i :: 0 <= i < |documents| ==> r[i] == documents[i].source
  {
    if documents == [] then []
    else SourcesOf(documents[..|documents| - 1]) + [documents[|documents| - 1].source]
  }

  lemma ValuesNext(documents: seq<Result<Document, TaskError>>, n: nat)
    requires n < |documents| && AllRead(documents[..n]) && documents[n].Ok?
    ensures AllRead(documents[..n + 1])
    ensures Values(documents[..n + 1]) == Values(documents[..n]) + [documents[n].value]
  {
    var next := documents[..n + 1];
    assert next[..n] == documents[..n] && next[n] == documents[n];
    assert forall i :: 0 <= i < n ==> next[i] == documents[..n][i];
  }

  lemma AllStepsNext(done: seq<Document>, d: Document)
    ensures AllSteps(done + [d]) == AllSteps(done) + DocumentSteps(d)
    ensures SourcesOf(done + [d]) == SourcesOf(done) + [d.source]
  {
    assert (done + [d])[..|done|] == done;
  }

  lemma FoldOne(h: Heuristics, s: State, done: seq<RunStep>, step: RunStep)
    requires Fold(h, s, done).Ok?
    ensures Fold(h, s, done + [step]) == Next(h, Fold(h, s, done).value, step)
  {
    assert (done + [step])[..|done|] == done;
  }

  /** An error ends the fold: what follows does not matter. */
  lemma {:induction false} FoldErr(h: Heuristics, s: State, source: DiscoverySource, job: string, steps: seq<StepValue>, n: nat)
    requires n <= |steps| && Fold(h, s, JobSteps(source, job, steps[..n])).Err?
    ensures Fold(h, s, JobSteps(source, job, steps)) == Fold(h, s, JobSteps(source, job, steps[..n]))
  {
    if n == |steps| {
      assert steps[..n] == steps;
    } else {
      var front := steps[..|steps| - 1];
      assert front[..n] == steps[..n];
      FoldErr(h, s, source, job, front, n);
      FoldAppend(h, s, JobSteps(source, job, front), JobSteps(source, job, steps)[|JobSteps(source, job, front)|..]);
    }
  }

  lemma {:induction false} JobsErr(h: Heuristics, s: State, source: DiscoverySource, jobs: seq<Job>, n: nat)
    requires n <= |jobs| && Fold(h, s, JobsSteps(source, jobs[..n])).Err?
    ensures Fold(h, s, JobsSteps(source, jobs)) == Fold(h, s, JobsSteps(source, jobs[..n]))
  {
    if n == |jobs| {
      assert jobs[..n] == jobs;
    } else {
      var front := jobs[..|jobs| - 1];
      assert front[..n] == jobs[..n];
      JobsErr(h, s, source, front, n);
      var last := jobs[|jobs| - 1];
      FoldAppend(h, s, JobsSteps(source, front), if last.steps.None? then [] else JobSteps(source, JobName(last), last.steps.value));
    }
  }

  lemma {:induction false} DocumentsErr(h: Heuristics, s: State, documents: seq<Result<Document, TaskError>>, n: nat)
    requires n <= |documents| && AllRead(documents) && AllRead(documents[..n])
    requires Fold(h, s, AllSteps(Values(documents[..n]))).Err?
    ensures Fold(h, s, AllSteps(Values(documents))).Err?
  {
    if n == |documents| {
      assert documents[..n] == documents;
    } else {
      var front := documents[..|documents| - 1];
      assert front[..n] == documents[..n];
      DocumentsErr(h, s, front, n);
      FoldAppend(h, s, AllSteps(Values(front)), DocumentSteps(documents[|documents| - 1].value));
      AllStepsNext(Values(front), documents[|documents| - 1].value);
    }
  }

  lemma {:induction false} FoldErrors(h: Heuristics, s: State, steps: seq<RunStep>)
    ensures Fold(h, s, steps).Err? ==> Fold(h, s, steps).error == CONFIGURATION_ERROR
  {
    if steps != [] {
      FoldErrors(h, s, steps[..|steps| - 1]);
    }
  }

  // What the fold keeps.

  /** A later version of a check: only its reason and its sources were extended. */
  predicate GrownCheck(before: CheckDefinition, after: CheckDefinition) {
    && after.(reason := before.reason, sources := before.sources) == before
    && before.reason <= after.reason && before.sources <= after.sources
  }

  /** No check was dropped, moved or changed in anything but reason and sources. */
  predicate Grown(before: seq<CheckDefinition>, after: seq<CheckDefinition>) {
    |before| <= |after| && forall i :: 0 <= i < |before| ==> GrownCheck(before[i], after[i])
  }

  /** Every check from `base` on runs a command no other check runs. */
  predicate AddedDistinct(base: nat, checks: seq<CheckDefinition>) {
    forall i, j :: 0 <= i < j < |checks| && base <= j ==> checks[i].command != checks[j].command
  }

  predicate DistinctCommands(checks: seq<CheckDefinition>) {
    forall i, j :: 0 <= i < j < |checks| ==> checks[i].command != checks[j].command
  }

  /** The steps that leave an observation. */
  function Observed(h: Heuristics, steps: seq<RunStep>): seq<RunStep> {
    if steps == [] then []
    else
      var last := steps[|steps| - 1];
      Observed(h, steps[..|steps| - 1])
      + if h.safe(last.run, last.workingDirectory).Some? || h.verification(last.source.path, last.job, last.step, last.run)
        then [last] else []
  }

  /** An observation names its step and, unless the step is unmodeled, the first check that runs the step's
      command, which then has the workflow file among its sources. */
  predicate Explains(h: Heuristics, base: nat, checks: seq<CheckDefinition>, step: RunStep, o: WorkflowObservation) {
    && o.id == ObservationId(step) && o.source == step.source && o.job == step.job && o.step == step.step
    && o.runSha256 == RunDigest(h, step)
    && match h.safe(step.run, step.workingDirectory)
       case None => o.classification.UnmodeledVerification? && o.checkId.None?
       case Some((_, command)) =>
         var i := FirstWith(checks, command);
         && i < |checks| && o.checkId == Some(checks[i].id) && HasPath(checks[i].sources, step.source.path)
         && (o.classification.MatchedCheck? || (o.classification.DiscoveredCheck? && base <= i))
  }

  predicate ExplainsAll(h: Heuristics, base: nat, checks: seq<CheckDefinition>, steps: seq<RunStep>,
                        observations: seq<WorkflowObservation>) {
    |observations| == |steps| && forall k :: 0 <= k < |steps| ==> Explains(h, base, checks, steps[k], observations[k])
  }

  /** The gap texts of the observations that are still unmodeled, in order. */
  function GapsOf(observations: seq<WorkflowObservation>): seq<string> {
    if observations == [] then []
    else
      var last := observations[|observations| - 1];
      GapsOf(observations[..|observations| - 1])
      + if last.classification.UnmodeledVerification? then [GapText(last.id)] else []
  }

  function CountDiscovered(observations: seq<WorkflowObservation>): nat {
    if observations == [] then 0
    else CountDiscovered(observations[..|observations| - 1])
         + if observations[|observations| - 1].classification.DiscoveredCheck? then 1 else 0
  }

  lemma GrownTransitive(a: seq<CheckDefinition>, b: seq<CheckDefinition>, c: seq<CheckDefinition>)
    requires Grown(a, b) && Grown(b, c)
    ensures Grown(a, c)
  {
    forall i | 0 <= i < |a| ensures GrownCheck(a[i], c[i]) {
      assert GrownCheck(a[i], b[i]) && GrownCheck(b[i], c[i]);
    }
  }

  lemma {:induction false} FirstWithStable(before: seq<CheckDefinition>, after: seq<CheckDefinition>, command: CommandSpec)
    requires Grown(before, after) && FirstWith(before, command) < |before|
    ensures FirstWith(after, command) == FirstWith(before, command)
  {
    var i := FirstWith(before, command);
    assert forall j :: 0 <= j <= i ==> GrownCheck(before[j], after[j]);
  }

  lemma PathKept(before: seq<DiscoverySource>, after: seq<DiscoverySource>, path: string)
    requires before <= after && HasPath(before, path)
    ensures HasPath(after, path)
  {
    var i :| 0 <= i < |before| && before[i].path == path;
    assert after[i] == before[i];
  }

  lemma ExplainsStable(h: Heuristics, base: nat, before: seq<CheckDefinition>, after: seq<CheckDefinition>,
                       steps: seq<RunStep>, observations: seq<WorkflowObservation>)
    requires Grown(before, after) && ExplainsAll(h, base, before, steps, observations)
    ensures ExplainsAll(h, base, after, steps, observations)
  {
    forall k | 0 <= k < |steps| ensures Explains(h, base, after, steps[k], observations[k]) {
      assert Explains(h, base, before, steps[k], observations[k]);
      match h.safe(steps[k].run, steps[k].workingDirectory)
      case None =>
      case Some((_, command)) =>
        FirstWithStable(before, after, command);
        var i := FirstWith(before, command);
        assert GrownCheck(before[i], after[i]);
        PathKept(before[i].sources, after[i].sources, steps[k].source.path);
    }
  }

  /** What one step keeps of the checks. */
  lemma NextGrows(h: Heuristics, base: nat, s: State, step: RunStep)
    requires Next(h, s, step).Ok? && base <= |s.checks| && AddedDistinct(base, s.checks)
    ensures Grown(s.checks, Next(h, s, step).value.checks) && AddedDistinct(base, Next(h, s, step).value.checks)
  {
    var after := Next(h, s, step).value.checks;
    match h.safe(step.run, step.workingDirectory)
    case None =>
    case Some((kind, command)) =>
      var i := FirstWith(s.checks, command);
      if i < |s.checks| {
        assert GrownCheck(s.checks[i], Declared(s.checks[i], step));
      }
  }

  /** What one step adds to the observations. */
  lemma NextExplains(h: Heuristics, base: nat, s: State, step: RunStep)
    requires Next(h, s, step).Ok? && base <= |s.checks|
    requires Observed(h, [step]) == [step]
    ensures var after := Next(h, s, step).value;
            && |after.observations| == |s.observations| + 1
            && after.observations[..|s.observations|] == s.observations
            && Explains(h, base, after.checks, step, after.observations[|s.observations|])
  {
    match h.safe(step.run, step.workingDirectory)
    case None =>
    case Some((kind, command)) =>
      var i := FirstWith(s.checks, command);
      if i < |s.checks| {
        FirstWithUpdated(s.checks, i, Declared(s.checks[i], step));
        assert (s.checks[i].sources + [step.source])[|s.checks[i].sources|] == step.source;
      } else {
        FirstWithAppended(s.checks, NewCheck(h, step, kind, command));
        assert NewCheck(h, step, kind, command).sources[0] == step.source;
      }
  }

  lemma FirstWithUpdated(checks: seq<CheckDefinition>, i: nat, check: CheckDefinition)
    requires i < |checks| && check.command == checks[i].command && FirstWith(checks, check.command) == i
    ensures FirstWith(checks[i := check], check.command) == i
  {
    var all := checks[i := check];
    assert all[i] == check;
    assert forall j :: 0 <= j < i ==> all[j] == checks[j];
  }

  lemma FirstWithAppended(checks: seq<CheckDefinition>, check: CheckDefinition)
    requires FirstWith(checks, check.command) == |checks|
    ensures FirstWith(checks + [check], check.command) == |checks|
  {
    var all := checks + [check];
    assert all[|checks|] == check;
    assert forall j :: 0 <= j < |checks| ==> all[j] == checks[j];
  }

  /** What holds after any number of steps from `checks`. */
  predicate Ledger(h: Heuristics, checks: seq<CheckDefinition>, steps: seq<RunStep>, s: State) {
    && Grown(checks, s.checks) && AddedDistinct(|checks|, s.checks)
    && ExplainsAll(h, |checks|, s.checks, Observed(h, steps), s.observations)
    && s.gaps == GapsOf(s.observations)
    && |s.checks| == |checks| + CountDiscovered(s.observations)
  }

  lemma GapsOfNext(observations: seq<WorkflowObservation>, o: WorkflowObservation)
    ensures GapsOf(observations + [o])
            == if o.classification.UnmodeledVerification? then GapsOf(observations) + [GapText(o.id)] else GapsOf(observations)
    ensures CountDiscovered(observations + [o])
            == CountDiscovered(observations) + if o.classification.DiscoveredCheck? then 1 else 0
  {
    assert (observations + [o])[..|observations|] == observations;
  }

  lemma CountsNext(h: Heuristics, s: State, step: RunStep)
    requires Next(h, s, step).Ok? && s.gaps == GapsOf(s.observations)
    ensures var after := Next(h, s, step).value;
            && after.gaps == GapsOf(after.observations)
            && |after.checks| - |s.checks| == CountDiscovered(after.observations) - CountDiscovered(s.observations)
  {
    match h.safe(step.run, step.workingDirectory)
    case None =>
      GapsOfNext(s.observations, Observe(h, step, UnmodeledVerification, None));
    case Some((kind, command)) =>
      var i := FirstWith(s.checks, command);
      if i < |s.checks| {
        GapsOfNext(s.observations, Observe(h, step, MatchedCheck, Some(s.checks[i].id)));
      } else {
        GapsOfNext(s.observations, Observe(h, step, DiscoveredCheck, Some(NewCheck(h, step, kind, command).id)));
      }
  }

  lemma ObservedNext(h: Heuristics, front: seq<RunStep>, step: RunStep)
    ensures Observed(h, front + [step]) == Observed(h, front) + Observed(h, [step])
  {
    assert (front + [step])[..|front|] == front;
    assert [step][..0] == [];
  }

  lemma LedgerNext(h: Heuristics, checks: seq<CheckDefinition>, front: seq<RunStep>, s: State, step: RunStep)
    requires Ledger(h, checks, front, s) && Next(h, s, step).Ok?
    ensures Ledger(h, checks, front + [step], Next(h, s, step).value)
  {
    var after := Next(h, s, step).value;
    NextGrows(h, |checks|, s, step);
    GrownTransitive(checks, s.checks, after.checks);
    ExplainsStable(h, |checks|, s.checks, after.checks, Observed(h, front), s.observations);
    CountsNext(h, s, step);
    ObservedNext(h, front, step);
    if Observed(h, [step]) == [step] {
      NextExplains(h, |checks|, s, step);
      ExplainsAppend(h, |checks|, after.checks, Observed(h, front), s.observations, step, after.observations);
    } else {
      NotObserved(h, s, step);
    }
  }

  lemma NotObserved(h: Heuristics, s: State, step: RunStep)
    requires Next(h, s, step).Ok? && Observed(h, [step]) != [step]
    ensures Observed(h, [step]) == [] && Next(h, s, step).value == s
  {
    assert [step][..0] == [];
  }

  lemma ExplainsAppend(h: Heuristics, base: nat, checks: seq<CheckDefinition>, steps: seq<RunStep>,
                       observations: seq<WorkflowObservation>, step: RunStep, after: seq<WorkflowObservation>)
    requires ExplainsAll(h, base, checks, steps, observations)
    requires |after| == |observations| + 1 && after[..|observations|] == observations
    requires Explains(h, base, checks, step, after[|observations|])
    ensures ExplainsAll(h, base, checks, steps + [step], after)
  {
    assert forall k :: 0 <= k < |observations| ==> after[k] == observations[k];
  }

  /** The fold invariant over all documents and steps: no check is dropped or changed in id or command, every added
      check runs a command of its own, each observation names its step and a check that runs the step's command,
      each added check has exactly one Discovered observation, and the gaps are those of the unmodeled steps. */
  lemma {:induction false} FoldInvariant(h: Heuristics, checks: seq<CheckDefinition>, steps: seq<RunStep>)
    requires Fold(h, State(checks, [], []), steps).Ok?
    ensures Ledger(h, checks, steps, Fold(h, State(checks, [], []), steps).value)
  {
    if steps != [] {
      var front, step := steps[..|steps| - 1], steps[|steps| - 1];
      FoldInvariant(h, checks, front);
      LedgerNext(h, checks, front, Fold(h, State(checks, [], []), front).value, step);
      assert front + [step] == steps;
    }
  }

  /** Checks that start with distinct commands end with distinct commands. */
  lemma CommandsStayDistinct(h: Heuristics, checks: seq<CheckDefinition>, steps: seq<RunStep>)
    requires DistinctCommands(checks) && Fold(h, State(checks, [], []), steps).Ok?
    ensures DistinctCommands(Fold(h, State(checks, [], []), steps).value.checks)
  {
    FoldInvariant(h, checks, steps);
    var after := Fold(h, State(checks, [], []), steps).value.checks;
    forall i, j | 0 <= i < j < |after| ensures after[i].command != after[j].command {
      if j < |checks| {
        assert GrownCheck(checks[i], after[i]) && GrownCheck(checks[j], after[j]);
      }
    }
  }

  /** Every step comes from a file whose path starts with a dot, as the files under `.github/workflows` do. */
  predicate InDotDirectory(source: DiscoverySource) {
    source.path != "" && source.path[0] == '.'
  }

  lemma {:induction false} JobStepsSource(source: DiscoverySource, job: string, steps: seq<StepValue>)
    ensures forall s :: s in JobSteps(source, job, steps) ==> s.source == source
  {
    if steps != [] {
      JobStepsSource(source, job, steps[..|steps| - 1]);
    }
  }

  lemma {:induction false} JobsStepsSource(source: DiscoverySource, jobs: seq<Job>)
    ensures forall s :: s in JobsSteps(source, jobs) ==> s.source == source
  {
    if jobs != [] {
      JobsStepsSource(source, jobs[..|jobs| - 1]);
      var last := jobs[|jobs| - 1];
      if last.steps.Some? {
        JobStepsSource(source, JobName(last), last.steps.value);
      }
    }
  }

  lemma {:induction false} StepsSources(documents: seq<Document>)
    requires forall d :: d in documents ==> InDotDirectory(d.source)
    ensures forall s :: s in AllSteps(documents) ==> InDotDirectory(s.source)
  {
    if documents != [] {
      var d := documents[|documents| - 1];
      StepsSources(documents[..|documents| - 1]);
      if d.jobs.Some? {
        JobsStepsSource(d.source, d.jobs.value);
      }
    }
  }

  lemma {:induction false} ObservedMembers(h: Heuristics, steps: seq<RunStep>)
    ensures forall s :: s in Observed(h, steps) ==> s in steps
  {
    if steps != [] {
      ObservedMembers(h, steps[..|steps| - 1]);
    }
  }

  /** So every observation id starts with a dot. */
  lemma ObservationIdsStartWithDot(h: Heuristics, checks: seq<CheckDefinition>, documents: seq<Document>, s: State)
    requires forall d :: d in documents ==> InDotDirectory(d.source)
    requires Ledger(h, checks, AllSteps(documents), s)
    ensures forall k :: 0 <= k < |s.observations| ==> s.observations[k].id != "" && s.observations[k].id[0] == '.'
  {
    var steps := Observed(h, AllSteps(documents));
    StepsSources(documents);
    ObservedMembers(h, AllSteps(documents));
    forall k | 0 <= k < |s.observations| ensures s.observations[k].id != "" && s.observations[k].id[0] == '.' {
      assert steps[k] in steps && Explains(h, |checks|, s.checks, steps[k], s.observations[k]);
    }
  }
}
