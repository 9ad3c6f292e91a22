/** The whole pipeline: what a Passed receipt means for the workspace it was made in. */
module EndToEnd {
  import opened Basics
  import opened Hex
  import opened Model
  import opened Order
  import opened Selection
  import opened Replacement
  import opened Discovery
  import opened Execute
  import opened Run
  import opened Verify
  import opened FileSystem
  import opened World
  import opened StateStore
  import C = Command
  import Names
  import Steps
  import W = Workflow
  import BlobStore

  /** Some executed check's coverage matches the path, and the check passed within the log budget. */
  predicate CoveredByPass(glob: Glob, inv: Invocation, executions: seq<CheckExecution>, path: string) {
    exists i :: 0 <= i < |executions| && glob(executions[i].check.coveragePaths, path)
                && executions[i].outcome.Passed? && (Countable(executions[i]) ==> LogBytes(executions[i]) <= inv.maxLogBytes)
  }

  lemma CoveredPathWasTested(glob: Glob, inv: Invocation, report: DiscoveryReport, executions: seq<CheckExecution>, path: string)
    requires Aligned(report) && Covered(glob, report.checks, report.selection, path)
    requires |executions| == |SelectedChecks(report)|
    requires forall i :: 0 <= i < |executions| ==>
               executions[i].check == SelectedChecks(report)[i] && executions[i].outcome.Passed?
               && (Countable(executions[i]) ==> LogBytes(executions[i]) <= inv.maxLogBytes)
    ensures CoveredByPass(glob, inv, executions, path)
  {
    SelectedExactly(report);
    ChosenMembers(report.checks, report.selection);
    var i :| 0 <= i < |report.checks| && report.selection[i].selected && glob(report.checks[i].coveragePaths, path);
    assert report.checks[i] in SelectedChecks(report);
    var j :| 0 <= j < |executions| && SelectedChecks(report)[j] == report.checks[i];
    assert executions[j].check == report.checks[i];
  }

  /** For every discovery report and every run: a Passed receipt means that the source did not change, at least one
      check ran, every executed check passed within its log budget, every changed path is matched by the coverage of
      one of them, and no unmodeled workflow step is left exactly when, of the steps read, a claimed id ends only the
      gap of the step it replaces. */
  lemma PassedMeans(sha: Sha256, canonical: Canonical, s: Setting, inputs: Inputs, request: Request,
                    report: DiscoveryReport, inv: Invocation, sourceAfter: SourceIdentity, cancelled: bool, receipt: Receipt)
    requires Discoverable(s, inputs, request) && Reported(s, inputs, request, report) && FromDotDirectory(inputs)
    requires Attests(sha, canonical, report, inv, sourceAfter, cancelled, receipt)
    requires receipt.payload.outcome.ReceiptPassed?
    ensures sourceAfter == request.source && !cancelled && receipt.payload.checks != []
    ensures forall e :: e in receipt.payload.checks ==>
              e.outcome.Passed? && e.exitCode == Some(0) && (Countable(e) ==> LogBytes(e) <= inv.maxLogBytes)
    ensures forall path :: path in request.source.changedPaths ==> CoveredByPass(s.glob, inv, receipt.payload.checks, path)
    ensures GapsAttributable(s, inputs)
            <==> forall o :: o in report.workflowObservations ==> !o.classification.UnmodeledVerification?
    ensures SuffixFree(Folded(s, inputs).value.observations) ==>
              forall o :: o in report.workflowObservations ==> !o.classification.UnmodeledVerification?
  {
    PassedMeansExecuted(sha, canonical, report, inv, sourceAfter, cancelled, receipt);
    var executions := receipt.payload.checks;
    assert report.coverageGaps == [];
    forall path | path in request.source.changedPaths ensures CoveredByPass(s.glob, inv, executions, path) {
      assert PathGap(path) !in report.coverageGaps;
      CoveredPathWasTested(s.glob, inv, report, executions, path);
    }
    NoUnmodeledStep(s, inputs, request, report);
  }

  /** The report has the step, and not as an unmodeled one if it has no gaps and these are attributable. */
  predicate StepReported(s: Setting, inputs: Inputs, report: DiscoveryReport, step: W.RunStep)
    requires Readable(s, inputs)
  {
    exists o :: o in report.workflowObservations && o.id == step.source.path + "#" + step.job + "#" + step.step
                && o.source == step.source
                && (report.coverageGaps == [] && GapsAttributable(s, inputs) ==> !o.classification.UnmodeledVerification?)
  }

  lemma SeenStepIsReported(s: Setting, inputs: Inputs, request: Request, report: DiscoveryReport, i: nat)
    requires Discoverable(s, inputs, request) && Reported(s, inputs, request, report) && FromDotDirectory(inputs)
    requires i < |W.AllSteps(W.Values(inputs.documents))|
    requires Steps.Matters(s.heuristics, W.AllSteps(W.Values(inputs.documents))[i])
    ensures StepReported(s, inputs, report, W.AllSteps(W.Values(inputs.documents))[i])
  {
    var steps := W.AllSteps(W.Values(inputs.documents));
    Steps.EveryStepIsSeen(s.heuristics, inputs.languages.value, steps, i);
    var k := |W.Observed(s.heuristics, steps[..i])|;
    assert ReplacedAt(Claims(report.checks), Folded(s, inputs).value.observations, report.workflowObservations[k], k);
    assert report.workflowObservations[k] in report.workflowObservations;
    if report.coverageGaps == [] {
      NoUnmodeledStep(s, inputs, request, report);
    }
  }

  /** Every entry with a run text, of every job of every workflow, that is converted or looks like verification is in
      the report; without gaps and with attributable ones it is not unmodeled there. */
  lemma EveryDeclaredStepIsReported(s: Setting, inputs: Inputs, request: Request, report: DiscoveryReport, o: Steps.Origin)
    requires Discoverable(s, inputs, request) && Reported(s, inputs, request, report) && FromDotDirectory(inputs)
    requires Steps.HasRun(W.Values(inputs.documents), o)
    requires Steps.Matters(s.heuristics, Steps.StepAt(W.Values(inputs.documents), o))
    ensures StepReported(s, inputs, report, Steps.StepAt(W.Values(inputs.documents), o))
  {
    var documents := W.Values(inputs.documents);
    Steps.StepsInOrder(documents);
    var origins := Steps.Origins(documents);
    assert o in origins;
    var i :| 0 <= i < |origins| && origins[i] == o;
    SeenStepIsReported(s, inputs, request, report, i);
  }

  /** What exit code 0 promises. */
  ghost predicate Trustworthy(s: Setting, inputs: Inputs, request: Request, inv: Invocation, receipt: Receipt)
    requires Discoverable(s, inputs, request)
  {
    var report, executions := receipt.payload.discovery, receipt.payload.checks;
    && Reported(s, inputs, request, report)
    && receipt.payload.sourceAfter == request.source && executions != []
    && (forall e :: e in executions ==>
          e.outcome.Passed? && e.exitCode == Some(0) && (Countable(e) ==> LogBytes(e) <= inv.maxLogBytes))
    && (forall path :: path in request.source.changedPaths ==> CoveredByPass(s.glob, inv, executions, path))
    && (SuffixFree(Folded(s, inputs).value.observations) ==>
          forall o :: o in report.workflowObservations ==> !o.classification.UnmodeledVerification?)
  }

  predicate AllCountable(receipt: Receipt) {
    forall e :: e in receipt.payload.checks ==> Countable(e)
  }

  lemma PassedIsTrustworthy(setting: C.Setting, s: Setting, inputs: Inputs, request: Request, report: DiscoveryReport,
                            inv: Invocation, sourceAfter: SourceIdentity, fs: FS, receipt: Receipt)
    requires fs.Valid() && FromDotDirectory(inputs)
    requires Discoverable(s, inputs, request) && Reported(s, inputs, request, report)
    requires exists cancelled :: Attests(setting.sha, setting.canonical, report, inv, sourceAfter, cancelled, receipt)
    requires AllLogsStored(setting.sha, fs, receipt.payload.checks)
    requires receipt.payload.outcome.ReceiptPassed?
    ensures Trustworthy(s, inputs, request, inv, receipt)
    ensures AllCountable(receipt) ==> Sound(setting.sha, setting.canonical, fs, receipt)
  {
    var cancelled :| Attests(setting.sha, setting.canonical, report, inv, sourceAfter, cancelled, receipt);
    PassedMeans(setting.sha, setting.canonical, s, inputs, request, report, inv, sourceAfter, cancelled, receipt);
    if AllCountable(receipt) {
      ProducerVerifierAgreement(setting.sha, setting.canonical, fs, report, inv, sourceAfter, cancelled, receipt);
    }
  }

  /** What exit code 0 leaves behind: a trustworthy receipt that is in the store, at the requested path if there is
      one, and sound for offline verification. */
  ghost predicate Delivered(setting: C.Setting, s: Setting, inputs: Inputs, request: Request, inv: Invocation,
                            out: Option<Path>, fs: FS, ending: C.Ending)
    requires fs.Valid()
  {
    && Discoverable(s, inputs, request) && ending.receipt.Some?
    && Trustworthy(s, inputs, request, inv, ending.receipt.value)
    && Holds(setting.codec, fs, ending.receipt.value)
    && (out.Some? ==> fs.Exists(out.value) && fs.Read(out.value) == Document(setting.codec, ending.receipt.value))
    && (AllCountable(ending.receipt.value) ==> Sound(setting.sha, setting.canonical, fs, ending.receipt.value))
  }

  lemma ExitZeroDelivers(setting: C.Setting, s: Setting, inputs: Inputs, request: Request, discovered: Result<DiscoveryReport, TaskError>,
                         inv: Invocation, identified: Result<SourceIdentity, TaskError>, out: Option<Path>, occupied: FS, fs: FS,
                         ending: C.Ending)
    requires fs.Valid() && FromDotDirectory(inputs) && ending.exit == 0
    requires C.ExitMeaning(setting, out, occupied, fs, ending)
    requires discovered.Ok? ==> Discoverable(s, inputs, request) && Reported(s, inputs, request, discovered.value)
    requires ending.receipt.Some? ==>
      && discovered.Ok? && identified.Ok?
      && (exists cancelled :: Attests(setting.sha, setting.canonical, discovered.value, inv, identified.value,
                                      cancelled, ending.receipt.value))
      && AllLogsStored(setting.sha, fs, ending.receipt.value.payload.checks)
    ensures Delivered(setting, s, inputs, request, inv, out, fs, ending)
  {
    PassedIsTrustworthy(setting, s, inputs, request, discovered.value, inv, identified.value, fs, ending.receipt.value);
  }

  /** Discovery and the run command together. */
  method RunTool(w: World, store: Store, s: Setting, inputs: Inputs, request: Request, setting: C.Setting, inv: Invocation,
                 out: Option<Path>, identified: Result<SourceIdentity, TaskError>, occupant: Option<Bytes>, emitFails: bool)
    returns (ending: C.Ending)
    requires w.Valid() && store.fs.Valid() && w.max == inv.maxLogBytes
    requires Discovery.Honest(inputs) && FromDotDirectory(inputs) && (identified.Err? ==> Plain(identified.error))
    modifies w, store
    ensures store.fs.Valid()
    ensures ending.exit == 0 ==> Delivered(setting, s, inputs, request, inv, out, store.fs, ending)
  {
    var discovered := DiscoverChecks(s, inputs, request);
    var outside := C.Outside(discovered, identified, occupant, emitFails);
    var events; ghost var occupied;
    ending, events, occupied := C.RunCommand(w, store, setting, inv, out, outside);
    if ending.exit == 0 {
      ExitZeroDelivers(setting, s, inputs, request, discovered, inv, identified, out, occupied, store.fs, ending);
    }
  }

  // The hypotheses can be met: one configured check that passes without output in a clean workspace.

  function OneCheck(check: CheckDefinition): Inputs {
    Inputs(Ok(Config({}, [Ok(check)], None)), Ok([]), [])
  }

  function CleanReport(source: SourceIdentity, check: CheckDefinition): DiscoveryReport {
    DiscoveryReport(source, [check], [CheckSelection(check.id, true, "full verification selects every discovered check")], [], [], [])
  }

  lemma OneCheckCollected(s: Setting, check: CheckDefinition)
    requires check.replacesWorkflowSteps == []
    ensures Readable(s, OneCheck(check)) && Collected(s, OneCheck(check)) == [check]
    ensures Claims([check]) == [] && Folded(s, OneCheck(check)).value.observations == []
    ensures Folded(s, OneCheck(check)).value.gaps == []
  {
    OneConfigured(check);
    assert [] + [check] == [check];
  }

  lemma OneCheckReported(s: Setting, source: SourceIdentity, check: CheckDefinition)
    requires check.replacesWorkflowSteps == [] && Names.ValidCheckId(check.id) && s.compiles(check.coveragePaths)
    requires source.changedPaths == []
    ensures var request := Request(source, false, []);
            Discoverable(s, OneCheck(check), request) && Reported(s, OneCheck(check), request, CleanReport(source, check))
  {
    OneCheckCollected(s, check);
    OneSelectedHasNoGap(s.glob, check);
    assert SelectAll(s.glob, [check], source.changedPaths, false, {}) == CleanReport(source, check).selection;
    assert Elements<string>([]) == {};
  }

  /** The receipt of a run that executed the one check of a clean workspace quietly. */
  function QuietReceipt(sha: Sha256, canonical: Canonical, source: SourceIdentity, check: CheckDefinition, inv: Invocation,
                        outcome: ReceiptOutcome): Receipt {
    BuildReceipt(sha, canonical,
                 ReceiptPayload(RECEIPT_SCHEMA_VERSION, source, source, true, inv, CleanReport(source, check), 0, 0, 0, outcome,
                                [QuietPass(check, Sha256Hex(sha, []))], []))
  }

  lemma CleanReportSelects(source: SourceIdentity, check: CheckDefinition)
    ensures Aligned(CleanReport(source, check)) && SelectedChecks(CleanReport(source, check)) == [check]
  {
    var report := CleanReport(source, check);
    assert StrictlySorted(Ids(report.checks));
    assert Aligned(report);
    SelectedExactly(report);
  }

  /** A Passed receipt attests such a run, and a Cancelled one the same run when the token was raised after the check. */
  lemma PassedIsPossible(sha: Sha256, canonical: Canonical, source: SourceIdentity, check: CheckDefinition, inv: Invocation)
    ensures Attests(sha, canonical, CleanReport(source, check), inv, source, false,
                    QuietReceipt(sha, canonical, source, check, inv, ReceiptPassed))
    ensures Attests(sha, canonical, CleanReport(source, check), inv, source, true,
                    QuietReceipt(sha, canonical, source, check, inv, ReceiptCancelled))
  {
    CleanReportSelects(source, check);
    DerivedShapes(sha, []);
  }

  /** A store that holds the empty log. */
  function QuietStore(sha: Sha256): FS {
    FS(map[BlobStore.BlobPath(Sha256Hex(sha, [])) := 0], [[]])
  }

  /** The disagreement is real: with its logs in the store, the receipt of that discoverable workspace is sound when the
      token stayed down, and unsound when it was raised after the check had passed. */
  lemma TokenAloneIsRejected(sha: Sha256, canonical: Canonical, s: Setting, source: SourceIdentity, check: CheckDefinition,
                             inv: Invocation)
    requires check.replacesWorkflowSteps == [] && Names.ValidCheckId(check.id) && s.compiles(check.coveragePaths)
    requires source.changedPaths == []
    ensures var request := Request(source, false, []);
            Discoverable(s, OneCheck(check), request) && Reported(s, OneCheck(check), request, CleanReport(source, check))
    ensures Sound(sha, canonical, QuietStore(sha), QuietReceipt(sha, canonical, source, check, inv, ReceiptPassed))
    ensures !Sound(sha, canonical, QuietStore(sha), QuietReceipt(sha, canonical, source, check, inv, ReceiptCancelled))
  {
    OneCheckReported(s, source, check);
    PassedIsPossible(sha, canonical, source, check, inv);
    CleanReportSelects(source, check);
    QuietLogsStored(sha, check);
    var report, fs := CleanReport(source, check), QuietStore(sha);
    ProducerVerifierAgreement(sha, canonical, fs, report, inv, source, false,
                              QuietReceipt(sha, canonical, source, check, inv, ReceiptPassed));
    ProducerVerifierAgreement(sha, canonical, fs, report, inv, source, true,
                              QuietReceipt(sha, canonical, source, check, inv, ReceiptCancelled));
  }

  lemma QuietLogsStored(sha: Sha256, check: CheckDefinition)
    ensures AllLogsStored(sha, QuietStore(sha), [QuietPass(check, Sha256Hex(sha, []))])
    ensures Countable(QuietPass(check, Sha256Hex(sha, [])))
  {
    DerivedShapes(sha, []);
    assert QuietStore(sha).Read(BlobStore.BlobPath(Sha256Hex(sha, []))) == [];
  }
}
