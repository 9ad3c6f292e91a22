/** Which steps the workflow fold sees, and what becomes of each: nothing a document declares is passed over. */
module Steps {
  import opened Basics
  import opened Hex
  import opened Model
  import opened Workflow

  /** A step by its position: the document, the job in it and the entry of that job. */
  datatype Origin = Origin(document: nat, job: nat, step: nat)

  predicate Before(a: Origin, b: Origin) {
    || a.document < b.document
    || (a.document == b.document && (a.job < b.job || (a.job == b.job && a.step < b.step)))
  }

  predicate Ordered(origins: seq<Origin>) {
    forall i, j :: 0 <= i < j < |origins| ==> Before(origins[i], origins[j])
  }

  /** The documents have an entry with a run text there. */
  predicate HasRun(documents: seq<Document>, o: Origin) {
    && o.document < |documents| && documents[o.document].jobs.Some?
    && o.job < |documents[o.document].jobs.value| && documents[o.document].jobs.value[o.job].steps.Some?
    && o.step < |documents[o.document].jobs.value[o.job].steps.value|
    && documents[o.document].jobs.value[o.job].steps.value[o.step].run.Some?
  }

  /** The step that entry stands for, with its defaults. */
  function StepAt(documents: seq<Document>, o: Origin): RunStep
    requires HasRun(documents, o)
  {
    var job := documents[o.document].jobs.value[o.job];
    StepOf(documents[o.document].source, if job.key.Some? then job.key.value else "unnamed-job", job.steps.value, o.step)
  }

  function StepOf(source: DiscoverySource, job: string, steps: seq<StepValue>, k: nat): RunStep
    requires k < |steps| && steps[k].run.Some?
  {
    RunStep(source, job,
            match steps[k].name case Some(name) => name case None => "step-" + Decimal(k + 1),
            steps[k].run.value,
            match steps[k].workingDirectory case Some(directory) => directory case None => ".")
  }

  /** These are the steps of the documents in order: one for each entry with a run text, and no other. */
  ghost predicate ReadInOrder(documents: seq<Document>, steps: seq<RunStep>, origins: seq<Origin>) {
    && |steps| == |origins| && Ordered(origins)
    && (forall o :: o in origins <==> HasRun(documents, o))
    && (forall i :: 0 <= i < |origins| ==> HasRun(documents, origins[i]) && steps[i] == StepAt(documents, origins[i]))
  }

  lemma OrderedAppend(a: seq<Origin>, b: seq<Origin>)
    requires Ordered(a) && Ordered(b) && forall x, y :: x in a && y in b ==> Before(x, y)
    ensures Ordered(a + b)
  {
    forall i, j | 0 <= i < j < |a + b| ensures Before((a + b)[i], (a + b)[j]) {
      if i < |a| && j >= |a| {
        assert (a + b)[i] in a && (a + b)[j] in b;
      }
    }
  }

  function JobOrigins(d: nat, j: nat, steps: seq<StepValue>): seq<Origin> {
    if steps == [] then []
    else JobOrigins(d, j, steps[..|steps| - 1])
         + if steps[|steps| - 1].run.Some? then [Origin(d, j, |steps| - 1)] else []
  }

  /** `origins` lists the entries of one job that have a run text, and `made` their steps. */
  ghost predicate JobListed(source: DiscoverySource, job: string, d: nat, j: nat, steps: seq<StepValue>, made: seq<RunStep>,
                            origins: seq<Origin>) {
    && |made| == |origins| && Ordered(origins)
    && (forall o :: o in origins <==> o.document == d && o.job == j && o.step < |steps| && steps[o.step].run.Some?)
    && (forall i :: 0 <= i < |origins| ==>
          origins[i].step < |steps| && steps[origins[i].step].run.Some? && made[i] == StepOf(source, job, steps, origins[i].step))
  }

  lemma JobListedNext(source: DiscoverySource, job: string, d: nat, j: nat, front: seq<StepValue>, last: StepValue,
                      made: seq<RunStep>, origins: seq<Origin>)
    requires JobListed(source, job, d, j, front, made, origins)
    ensures last.run.None? ==> JobListed(source, job, d, j, front + [last], made, origins)
    ensures last.run.Some? ==> JobListed(source, job, d, j, front + [last],
                                         made + [StepOf(source, job, front + [last], |front|)], origins + [Origin(d, j, |front|)])
  {
    var all := front + [last];
    assert forall k :: 0 <= k < |front| ==> all[k] == front[k];
    if last.run.Some? {
      forall o | o in origins ensures Before(o, Origin(d, j, |front|)) {
      }
      OrderedAppend(origins, [Origin(d, j, |front|)]);
    }
  }

  lemma {:induction false} JobRead(source: DiscoverySource, job: string, d: nat, j: nat, steps: seq<StepValue>)
    ensures JobListed(source, job, d, j, steps, JobSteps(source, job, steps), JobOrigins(d, j, steps))
  {
    if steps != [] {
      var front, last := steps[..|steps| - 1], steps[|steps| - 1];
      JobRead(source, job, d, j, front);
      JobListedNext(source, job, d, j, front, last, JobSteps(source, job, front), JobOrigins(d, j, front));
      assert front + [last] == steps;
    }
  }

  function JobsOrigins(d: nat, jobs: seq<Job>): seq<Origin> {
    if jobs == [] then []
    else JobsOrigins(d, jobs[..|jobs| - 1])
         + if jobs[|jobs| - 1].steps.Some? then JobOrigins(d, |jobs| - 1, jobs[|jobs| - 1].steps.value) else []
  }

  predicate JobHasRun(jobs: seq<Job>, j: nat, k: nat) {
    j < |jobs| && jobs[j].steps.Some? && k < |jobs[j].steps.value| && jobs[j].steps.value[k].run.Some?
  }

  function JobStepAt(source: DiscoverySource, jobs: seq<Job>, o: Origin): RunStep
    requires JobHasRun(jobs, o.job, o.step)
  {
    StepOf(source, if jobs[o.job].key.Some? then jobs[o.job].key.value else "unnamed-job", jobs[o.job].steps.value, o.step)
  }

  /** The same for the jobs of one document. */
  ghost predicate JobsListed(source: DiscoverySource, d: nat, jobs: seq<Job>, made: seq<RunStep>, origins: seq<Origin>) {
    && |made| == |origins| && Ordered(origins)
    && (forall o :: o in origins <==> o.document == d && JobHasRun(jobs, o.job, o.step))
    && (forall i :: 0 <= i < |origins| ==>
          JobHasRun(jobs, origins[i].job, origins[i].step) && made[i] == JobStepAt(source, jobs, origins[i]))
  }

  lemma JobHasRunNext(source: DiscoverySource, front: seq<Job>, last: Job, o: Origin)
    ensures JobHasRun(front + [last], o.job, o.step)
            <==> JobHasRun(front, o.job, o.step)
                 || (o.job == |front| && last.steps.Some? && o.step < |last.steps.value| && last.steps.value[o.step].run.Some?)
    ensures JobHasRun(front, o.job, o.step) ==>
              o.job < |front| && JobStepAt(source, front + [last], o) == JobStepAt(source, front, o)
    ensures o.job == |front| && last.steps.Some? && o.step < |last.steps.value| && last.steps.value[o.step].run.Some? ==>
              JobStepAt(source, front + [last], o) == StepOf(source, JobName(last), last.steps.value, o.step)
  {
  }

  lemma JobsListedNext(source: DiscoverySource, d: nat, front: seq<Job>, last: Job, made: seq<RunStep>, origins: seq<Origin>,
                       own: seq<RunStep>, more: seq<Origin>)
    requires JobsListed(source, d, front, made, origins)
    requires if last.steps.Some? then JobListed(source, JobName(last), d, |front|, last.steps.value, own, more)
             else own == [] && more == []
    ensures JobsListed(source, d, front + [last], made + own, origins + more)
  {
    var all := front + [last];
    forall x, y | x in origins && y in more ensures Before(x, y) {
      JobHasRunNext(source, front, last, x);
    }
    OrderedAppend(origins, more);
    forall o ensures o in origins + more <==> o.document == d && JobHasRun(all, o.job, o.step) {
      JobHasRunNext(source, front, last, o);
    }
    forall i | 0 <= i < |origins + more|
      ensures var o := (origins + more)[i]; JobHasRun(all, o.job, o.step) && (made + own)[i] == JobStepAt(source, all, o)
    {
      JobHasRunNext(source, front, last, (origins + more)[i]);
      if i >= |origins| {
        assert (origins + more)[i] == more[i - |origins|] && more[i - |origins|] in more;
      }
    }
  }

  lemma JobsUnfold(source: DiscoverySource, d: nat, front: seq<Job>, last: Job)
    ensures JobsSteps(source, front + [last])
            == JobsSteps(source, front) + if last.steps.None? then [] else JobSteps(source, JobName(last), last.steps.value)
    ensures JobsOrigins(d, front + [last])
            == JobsOrigins(d, front) + if last.steps.Some? then JobOrigins(d, |front|, last.steps.value) else []
  {
    assert (front + [last])[..|front|] == front;
  }

  lemma {:induction false} JobsRead(source: DiscoverySource, d: nat, jobs: seq<Job>)
    ensures JobsListed(source, d, jobs, JobsSteps(source, jobs), JobsOrigins(d, jobs))
  {
    if jobs != [] {
      var front, last := jobs[..|jobs| - 1], jobs[|jobs| - 1];
      JobsRead(source, d, front);
      var own, more := [], [];
      if last.steps.Some? {
        JobRead(source, JobName(last), d, |front|, last.steps.value);
        own, more := JobSteps(source, JobName(last), last.steps.value), JobOrigins(d, |front|, last.steps.value);
      }
      JobsListedNext(source, d, front, last, JobsSteps(source, front), JobsOrigins(d, front), own, more);
      JobsUnfold(source, d, front, last);
      assert front + [last] == jobs;
    }
  }

  function Origins(documents: seq<Document>): seq<Origin> {
    if documents == [] then []
    else
      var last := documents[|documents| - 1];
      Origins(documents[..|documents| - 1])
      + if last.jobs.Some? then JobsOrigins(|documents| - 1, last.jobs.value) else []
  }

  lemma HasRunNext(front: seq<Document>, last: Document, o: Origin)
    ensures HasRun(front + [last], o)
            <==> HasRun(front, o) || (o.document == |front| && last.jobs.Some? && JobHasRun(last.jobs.value, o.job, o.step))
    ensures HasRun(front, o) ==> o.document < |front| && StepAt(front + [last], o) == StepAt(front, o)
    ensures o.document == |front| && last.jobs.Some? && JobHasRun(last.jobs.value, o.job, o.step) ==>
              StepAt(front + [last], o) == JobStepAt(last.source, last.jobs.value, o)
  {
  }

  lemma ReadAppend(front: seq<Document>, last: Document, steps: seq<RunStep>, origins: seq<Origin>, made: seq<RunStep>,
                   more: seq<Origin>)
    requires ReadInOrder(front, steps, origins)
    requires if last.jobs.Some? then JobsListed(last.source, |front|, last.jobs.value, made, more) else made == [] && more == []
    ensures ReadInOrder(front + [last], steps + made, origins + more)
  {
    var all := front + [last];
    forall x, y | x in origins && y in more ensures Before(x, y) {
      HasRunNext(front, last, x);
    }
    OrderedAppend(origins, more);
    forall o ensures o in origins + more <==> HasRun(all, o) {
      HasRunNext(front, last, o);
    }
    forall i | 0 <= i < |origins + more| ensures HasRun(all, (origins + more)[i]) && (steps + made)[i] == StepAt(all, (origins + more)[i]) {
      HasRunNext(front, last, (origins + more)[i]);
      if i >= |origins| {
        assert (origins + more)[i] == more[i - |origins|] && more[i - |origins|] in more;
      }
    }
  }

  /** Reading loses no step, invents none and keeps their order. */
  lemma {:induction false} StepsInOrder(documents: seq<Document>)
    ensures ReadInOrder(documents, AllSteps(documents), Origins(documents))
  {
    if documents != [] {
      var front, last := documents[..|documents| - 1], documents[|documents| - 1];
      StepsInOrder(front);
      var more := if last.jobs.Some? then JobsOrigins(|front|, last.jobs.value) else [];
      if last.jobs.Some? {
        JobsRead(last.source, |front|, last.jobs.value);
      }
      ReadAppend(front, last, AllSteps(front), Origins(front), DocumentSteps(last), more);
      assert front + [last] == documents;
    }
  }

  // What becomes of each step.

  /** The step is converted to a command, or looks like verification that cannot be converted. */
  predicate Matters(h: Heuristics, step: RunStep) {
    h.safe(step.run, step.workingDirectory).Some? || h.verification(step.source.path, step.job, step.step, step.run)
  }

  /** The i-th step leaves an observation exactly when it matters, after those of the steps before it. */
  lemma {:induction false} ObservedAt(h: Heuristics, steps: seq<RunStep>, i: nat)
    requires i < |steps|
    ensures |Observed(h, steps[..i + 1])| == |Observed(h, steps[..i])| + if Matters(h, steps[i]) then 1 else 0
    ensures Observed(h, steps[..i + 1]) <= Observed(h, steps)
    ensures Matters(h, steps[i]) ==> Observed(h, steps)[|Observed(h, steps[..i])|] == steps[i]
  {
    assert steps[..i + 1][..i] == steps[..i];
    if i == |steps| - 1 {
      assert steps[..i + 1] == steps;
    } else {
      var front := steps[..|steps| - 1];
      ObservedAt(h, front, i);
      assert front[..i + 1] == steps[..i + 1] && front[..i] == steps[..i];
    }
  }

  /** What becomes of a step that matters: one that can be converted has an observation that names a check with its
      command, which then has the workflow file among its sources; another one has an unmodeled observation and a gap. */
  predicate SeenAs(h: Heuristics, s: State, step: RunStep, o: WorkflowObservation) {
    && o.id == step.source.path + "#" + step.job + "#" + step.step
    && o.source == step.source && o.job == step.job && o.step == step.step
    && o.runSha256 == Sha256Hex(h.sha, h.utf8(step.run))
    && match h.safe(step.run, step.workingDirectory)
       case Some((_, command)) =>
         !o.classification.UnmodeledVerification? && SomeRuns(s.checks, command, o.checkId, step.source.path)
       case None => o.classification.UnmodeledVerification? && o.checkId.None? && GapText(o.id) in s.gaps
  }

  predicate SomeRuns(checks: seq<CheckDefinition>, command: CommandSpec, id: Option<string>, path: string) {
    exists i :: 0 <= i < |checks| && checks[i].command == command && id == Some(checks[i].id) && HasPath(checks[i].sources, path)
  }

  lemma ExplainsSeen(h: Heuristics, base: nat, s: State, step: RunStep, n: nat)
    requires n < |s.observations| && s.gaps == GapsOf(s.observations)
    requires Explains(h, base, s.checks, step, s.observations[n])
    ensures SeenAs(h, s, step, s.observations[n])
  {
    match h.safe(step.run, step.workingDirectory)
    case None => GapListed(s.observations, n);
    case Some((_, command)) =>
      var k := FirstWith(s.checks, command);
      assert s.checks[k].command == command;
  }

  /** Every step that matters is seen, in the place its predecessors leave it, and there are no other observations. */
  lemma EveryStepIsSeen(h: Heuristics, checks: seq<CheckDefinition>, steps: seq<RunStep>, i: nat)
    requires i < |steps| && Fold(h, State(checks, [], []), steps).Ok?
    ensures var s, n := Fold(h, State(checks, [], []), steps).value, |Observed(h, steps[..i])|;
            && |s.observations| == |Observed(h, steps)| >= |Observed(h, steps[..i + 1])|
            && |Observed(h, steps[..i + 1])| == n + (if Matters(h, steps[i]) then 1 else 0)
            && (Matters(h, steps[i]) ==> SeenAs(h, s, steps[i], s.observations[n]))
  {
    FoldInvariant(h, checks, steps);
    ObservedAt(h, steps, i);
    var s, n := Fold(h, State(checks, [], []), steps).value, |Observed(h, steps[..i])|;
    if Matters(h, steps[i]) {
      assert Explains(h, |checks|, s.checks, Observed(h, steps)[n], s.observations[n]);
      ExplainsSeen(h, |checks|, s, steps[i], n);
    }
  }

  lemma {:induction false} GapListed(observations: seq<WorkflowObservation>, n: nat)
    requires n < |observations| && observations[n].classification.UnmodeledVerification?
    ensures GapText(observations[n].id) in GapsOf(observations)
  {
    if n < |observations| - 1 {
      GapListed(observations[..|observations| - 1], n);
    }
  }

  /** A check made from a step. */
  predicate MadeFrom(h: Heuristics, step: RunStep, check: CheckDefinition) {
    && h.safe(step.run, step.workingDirectory) == Some((check.kind, check.command))
    && (EncodeRoundTrip(h.sha(h.utf8(step.run)));
        check.id == "ci-" + KindId(check.kind) + "-" + Sha256Hex(h.sha, h.utf8(step.run))[..8])
    && check.displayLabel == "CI: " + step.step && check.coveragePaths == h.coverage(step.run) && check.confidence.High?
    && check.passEnvironment == [] && check.replacesWorkflowSteps == [] && check.nonHermeticInputs == h.caveats
    && check.sources != [] && check.sources[0] == step.source
  }

  lemma MadeStays(h: Heuristics, steps: seq<RunStep>, check: CheckDefinition, after: CheckDefinition, step: RunStep)
    requires (exists s :: s in steps && MadeFrom(h, s, check)) && GrownCheck(check, after)
    ensures exists s :: s in steps + [step] && MadeFrom(h, s, after)
  {
    var s :| s in steps && MadeFrom(h, s, check);
    assert s in steps + [step] && MadeFrom(h, s, after);
  }

  /** Every check the fold adds is made from one of the steps. */
  lemma {:induction false} AddedAreMade(h: Heuristics, checks: seq<CheckDefinition>, steps: seq<RunStep>, i: nat)
    requires Fold(h, State(checks, [], []), steps).Ok?
    requires |checks| <= i < |Fold(h, State(checks, [], []), steps).value.checks|
    ensures exists s :: s in steps && MadeFrom(h, s, Fold(h, State(checks, [], []), steps).value.checks[i])
  {
    var front, step := steps[..|steps| - 1], steps[|steps| - 1];
    var before := Fold(h, State(checks, [], []), front).value;
    assert steps == front + [step];
    FoldInvariant(h, checks, front);
    NextGrows(h, |checks|, before, step);
    var after := Next(h, before, step).value;
    if i < |before.checks| {
      AddedAreMade(h, checks, front, i);
      assert GrownCheck(before.checks[i], after.checks[i]);
      MadeStays(h, front, before.checks[i], after.checks[i], step);
    } else {
      assert MadeFrom(h, step, after.checks[i]);
    }
  }
}
