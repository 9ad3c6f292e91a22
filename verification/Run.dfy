/** `run_checks` and the construction of a receipt (src/execute.rs). */
module Run {
  import opened Basics
  import opened FileSystem
  import opened Hex
  import opened Model
  import opened Lifecycle
  import opened World
  import opened StateStore
  import opened Execute
  import opened Selection
  import Publication

  /** The canonical serialisation of a payload. */
  type Canonical = ReceiptPayload -> Bytes

  function SkippedExecution(check: CheckDefinition, now: nat): CheckExecution {
    CheckExecution(check, now, now, 0, Skipped, None, None, None, false)
  }

  predicate AnyOutcome(executions: seq<CheckExecution>, outcome: CheckOutcome) {
    exists i :: 0 <= i < |executions| && executions[i].outcome == outcome
  }

  predicate AllPassed(executions: seq<CheckExecution>) {
    forall i :: 0 <= i < |executions| ==> executions[i].outcome.Passed?
  }

  function OutcomeOf(executions: seq<CheckExecution>, gaps: seq<string>, cancelled: bool, sourceUnchanged: bool): ReceiptOutcome {
    if cancelled || AnyOutcome(executions, Cancelled) then ReceiptCancelled
    else if !sourceUnchanged || !AllPassed(executions) then ReceiptFailed
    else if executions == [] || gaps != [] then ReceiptIncomplete
    else ReceiptPassed
  }

  function BuildReceipt(sha: Sha256, canonical: Canonical, payload: ReceiptPayload): Receipt {
    var digest := Sha256Hex(sha, canonical(payload));
    DerivedShapes(sha, canonical(payload));
    Receipt(ReceiptIdOf(digest), digest, payload)
  }

  /** The i-th record is a skip exactly when fail-fast is on and the record before it did not pass. */
  predicate FailFastStep(failFast: bool, executions: seq<CheckExecution>, i: nat)
    requires i < |executions|
  {
    executions[i].outcome.Skipped? <==> failFast && i > 0 && !executions[i - 1].outcome.Passed?
  }

  /** One truthful record per check, in order. */
  predicate Recorded(inv: Invocation, checks: seq<CheckDefinition>, executions: seq<CheckExecution>) {
    && |executions| <= |checks|
    && forall i :: 0 <= i < |executions| ==>
         executions[i].check == checks[i] && Describes(inv, executions[i]) && FailFastStep(inv.failFast, executions, i)
  }

  predicate AllLogsStored(sha: Sha256, fs: FS, executions: seq<CheckExecution>)
    requires fs.Valid()
  {
    forall i :: 0 <= i < |executions| ==> LogsStored(sha, fs, executions[i])
  }

  /** One after the other, between two moments. */
  predicate Timed(executions: seq<CheckExecution>, from: nat, to: nat) {
    && (forall i :: 0 <= i < |executions| ==> from <= executions[i].startedUnixMs && executions[i].completedUnixMs <= to)
    && (forall i :: 0 < i < |executions| ==> executions[i - 1].completedUnixMs <= executions[i].startedUnixMs)
  }

  /** Every record of a process follows from the way its process ended, and the others have none. */
  predicate AllExplained(inv: Invocation, executions: seq<CheckExecution>, endings: seq<Option<Ended>>) {
    && |endings| == |executions|
    && forall i :: 0 <= i < |executions| ==> EndedAs(inv, executions[i], endings[i])
  }

  predicate EndedAs(inv: Invocation, e: CheckExecution, ended: Option<Ended>) {
    && (ended.None? <==> e.outcome.SpawnFailed? || e.outcome.Skipped?)
    && (ended.Some? ==> Explained(inv, ended.value, e))
  }

  /** The k-th progress event of a run over `checks`. */
  predicate EventAt(e: ProgressEvent, k: nat, checks: seq<CheckDefinition>) {
    && e.sequence == k + 1
    && k <= 2 * |checks|
    && (k < 2 * |checks| ==> e.checkId == Some(checks[k / 2].id) && e.receiptId.None?)
    && (k < 2 * |checks| && k % 2 == 0 ==> e.state.CheckStarted? && e.outcome.None?)
    && (k < 2 * |checks| && k % 2 == 1 ==> e.state.CheckFinished? && e.outcome.Some?)
    && (k == 2 * |checks| ==> e.state.ReceiptStored? && e.checkId.None? && e.outcome.None? && e.receiptId.Some?)
  }

  lemma StartedAt(checks: seq<CheckDefinition>, i: nat, now: nat)
    requires i < |checks|
    ensures EventAt(ProgressEvent(2 * i + 1, now, CheckStarted, Some(checks[i].id), None, None), 2 * i, checks)
  {
  }

  lemma FinishedAt(checks: seq<CheckDefinition>, i: nat, now: nat, outcome: CheckOutcome)
    requires i < |checks|
    ensures EventAt(ProgressEvent(2 * i + 2, now, CheckFinished, Some(checks[i].id), Some(outcome), None), 2 * i + 1, checks)
  {
  }

  predicate Trace(events: seq<ProgressEvent>, checks: seq<CheckDefinition>, executions: seq<CheckExecution>) {
    && 2 * |executions| <= |events|
    && (forall k :: 0 <= k < |events| ==> EventAt(events[k], k, checks))
    && (forall i :: 0 <= i < |executions| ==> events[2 * i + 1].outcome == Some(executions[i].outcome))
  }

  /** What a receipt says about the run that made it. */
  ghost predicate Attests(sha: Sha256, canonical: Canonical, discovery: DiscoveryReport, inv: Invocation,
                          sourceAfter: SourceIdentity, cancelled: bool, receipt: Receipt) {
    var p := receipt.payload;
    var checks := SelectedChecks(discovery);
    && receipt == BuildReceipt(sha, canonical, p)
    && p.schemaVersion == RECEIPT_SCHEMA_VERSION
    && p.source == discovery.source && p.sourceAfter == sourceAfter
    && p.sourceUnchanged == (sourceAfter == discovery.source)
    && p.invocation == inv && p.discovery == discovery && p.coverageGaps == discovery.coverageGaps
    && p.startedUnixMs <= p.completedUnixMs && p.durationMs == p.completedUnixMs - p.startedUnixMs
    && |p.checks| == |checks| && Recorded(inv, checks, p.checks)
    && (AnyOutcome(p.checks, Cancelled) ==> cancelled)
    && p.outcome == OutcomeOf(p.checks, p.coverageGaps, cancelled, p.sourceUnchanged)
  }

  /** Which outcome a run gets: Cancelled before Failed before Incomplete before Passed. */
  predicate WarrantedOutcome(outcome: ReceiptOutcome, executions: seq<CheckExecution>, gaps: seq<string>, cancelled: bool, sameSource: bool) {
    var stopped := cancelled || exists e :: e in executions && e.outcome == Cancelled;
    var failed := !sameSource || exists e :: e in executions && e.outcome != Passed;
    match outcome
    case ReceiptCancelled => stopped
    case ReceiptFailed => !stopped && failed
    case ReceiptIncomplete => !stopped && !failed && (|executions| == 0 || |gaps| > 0)
    case ReceiptPassed => !stopped && !failed && |executions| > 0 && |gaps| == 0
  }

  lemma OutcomeIsWarranted(outcome: ReceiptOutcome, executions: seq<CheckExecution>, gaps: seq<string>, cancelled: bool,
                           sameSource: bool)
    ensures outcome == OutcomeOf(executions, gaps, cancelled, sameSource)
            <==> WarrantedOutcome(outcome, executions, gaps, cancelled, sameSource)
  {
    if i :| 0 <= i < |executions| && executions[i].outcome == Cancelled {
      assert executions[i] in executions;
    }
    if i :| 0 <= i < |executions| && executions[i].outcome != Passed {
      assert executions[i] in executions;
    }
  }

  /** The outcome of a receipt that attests a run, from what happened: Cancelled exactly when the token was raised or a
      record is cancelled, otherwise Failed exactly when the source changed or a record is not a pass, otherwise
      Incomplete exactly when there is no record or some gap, and otherwise Passed. */
  lemma OutcomeMeans(sha: Sha256, canonical: Canonical, discovery: DiscoveryReport, inv: Invocation,
                     sourceAfter: SourceIdentity, cancelled: bool, receipt: Receipt, outcome: ReceiptOutcome)
    requires Attests(sha, canonical, discovery, inv, sourceAfter, cancelled, receipt)
    ensures receipt.payload.outcome == outcome
            <==> WarrantedOutcome(outcome, receipt.payload.checks, discovery.coverageGaps, cancelled, sourceAfter == discovery.source)
  {
    OutcomeIsWarranted(outcome, receipt.payload.checks, discovery.coverageGaps, cancelled, sourceAfter == discovery.source);
  }

  lemma GrowthKeepsAllLogs(sha: Sha256, a: FS, b: FS, executions: seq<CheckExecution>)
    requires a.Valid() && b.Valid() && Grows(a, b) && AllLogsStored(sha, a, executions)
    ensures AllLogsStored(sha, b, executions)
  {
    forall i | 0 <= i < |executions| ensures LogsStored(sha, b, executions[i]) {
      GrowthKeepsLogs(sha, a, b, executions[i]);
    }
  }

  lemma TraceStarted(events: seq<ProgressEvent>, checks: seq<CheckDefinition>, executions: seq<CheckExecution>, e: ProgressEvent)
    requires Trace(events, checks, executions) && |events| == 2 * |executions| && EventAt(e, |events|, checks)
    ensures Trace(events + [e], checks, executions)
  {
  }

  lemma TraceFinished(events: seq<ProgressEvent>, checks: seq<CheckDefinition>, executions: seq<CheckExecution>,
                      next: CheckExecution, e: ProgressEvent)
    requires Trace(events, checks, executions) && |events| == 2 * |executions| + 1 && EventAt(e, |events|, checks)
    requires e.outcome == Some(next.outcome)
    ensures Trace(events + [e], checks, executions + [next])
  {
    var all, done := events + [e], executions + [next];
    forall i | 0 <= i < |done| ensures all[2 * i + 1].outcome == Some(done[i].outcome) {
      if i < |executions| {
        assert events[2 * i + 1].outcome == Some(executions[i].outcome);
      }
    }
  }

  lemma EventAtLength(e: ProgressEvent, k: nat, n: nat, checks: seq<CheckDefinition>)
    requires EventAt(e, k, checks) && k == n
    ensures EventAt(e, n, checks)
  {
  }

  /** A turn adds its two events. */
  lemma TraceTurn(events: seq<ProgressEvent>, checks: seq<CheckDefinition>, executions: seq<CheckExecution>,
                  next: CheckExecution, started: ProgressEvent, finished: ProgressEvent)
    requires Trace(events, checks, executions) && |events| == 2 * |executions|
    requires EventAt(started, 2 * |executions|, checks) && EventAt(finished, 2 * |executions| + 1, checks)
    requires finished.outcome == Some(next.outcome)
    ensures Trace(events + [started] + [finished], checks, executions + [next])
  {
    EventAtLength(started, 2 * |executions|, |events|, checks);
    TraceStarted(events, checks, executions, started);
    EventAtLength(finished, 2 * |executions| + 1, |events + [started]|, checks);
    TraceFinished(events + [started], checks, executions, next, finished);
  }

  /** What holds after each turn of the loop. */
  ghost predicate SoFar(sha: Sha256, inv: Invocation, checks: seq<CheckDefinition>, fs: FS, cancelled: bool,
                        executions: seq<CheckExecution>, events: seq<ProgressEvent>) {
    && fs.Valid() && Recorded(inv, checks, executions) && AllLogsStored(sha, fs, executions)
    && (AnyOutcome(executions, Cancelled) ==> cancelled)
    && Trace(events, checks, executions) && |events| == 2 * |executions|
  }

  lemma SoFarNext(sha: Sha256, inv: Invocation, checks: seq<CheckDefinition>, fs: FS, cancelled: bool,
                  executions: seq<CheckExecution>, events: seq<ProgressEvent>, fs': FS, cancelled': bool,
                  next: CheckExecution, started: ProgressEvent, finished: ProgressEvent)
    requires SoFar(sha, inv, checks, fs, cancelled, executions, events) && |executions| < |checks|
    requires fs'.Valid() && Grows(fs, fs') && (cancelled ==> cancelled')
    requires next.check == checks[|executions|] && Describes(inv, next) && LogsStored(sha, fs', next)
    requires next.outcome.Skipped? <==>
               inv.failFast && executions != [] && !executions[|executions| - 1].outcome.Passed?
    requires next.outcome.Cancelled? ==> cancelled'
    requires EventAt(started, 2 * |executions|, checks) && EventAt(finished, 2 * |executions| + 1, checks)
    requires finished.outcome == Some(next.outcome)
    ensures SoFar(sha, inv, checks, fs', cancelled', executions + [next], events + [started] + [finished])
  {
    GrowthKeepsAllLogs(sha, fs, fs', executions);
    LogsAppend(sha, fs', executions, next);
    RecordedExtends(inv, checks, executions, next);
    TraceTurn(events, checks, executions, next, started, finished);
    OutcomeAppend(executions, next, Cancelled);
  }

  lemma LogsAppend(sha: Sha256, fs: FS, executions: seq<CheckExecution>, next: CheckExecution)
    requires fs.Valid() && AllLogsStored(sha, fs, executions) && LogsStored(sha, fs, next)
    ensures AllLogsStored(sha, fs, executions + [next])
  {
  }

  lemma OutcomeAppend(executions: seq<CheckExecution>, next: CheckExecution, outcome: CheckOutcome)
    ensures AnyOutcome(executions + [next], outcome) ==> AnyOutcome(executions, outcome) || next.outcome == outcome
  {
    var all := executions + [next];
    if i :| 0 <= i < |all| && all[i].outcome == outcome {
      assert i < |executions| ==> executions[i].outcome == outcome;
    }
  }

  /** The moment and the token, as far as the loop depends on them. */
  datatype Moment = Moment(now: nat, cancelled: bool)

  function MomentOf(s: Sys): Moment {
    Moment(s.now, s.cancelled)
  }

  /** Everything the loop keeps, of the run since it began and of the disk since `disk`. */
  ghost predicate InLoop(sha: Sha256, inv: Invocation, checks: seq<CheckDefinition>, faultless: bool, disk: FS, begun: nat,
                         fs: FS, m: Moment, executions: seq<CheckExecution>, endings: seq<Option<Ended>>,
                         events: seq<ProgressEvent>) {
    && begun <= m.now && SoFar(sha, inv, checks, fs, m.cancelled, executions, events)
    && Chronicle(inv, faultless, executions, endings, begun, m.now)
    && Grows(disk, fs) && OnlyBlobs(disk, fs, {})
  }

  /** What one turn says of its record. */
  ghost predicate Turned(sha: Sha256, inv: Invocation, check: CheckDefinition, stop: bool, faultless: bool, fs: FS, m: Moment,
                         fs': FS, m': Moment, e: CheckExecution, ended: Option<Ended>)
  {
    && fs'.Valid() && Grows(fs, fs') && OnlyBlobs(fs, fs', {})
    && m.now <= m'.now && (m.cancelled ==> m'.cancelled)
    && e.check == check && Describes(inv, e) && LogsStored(sha, fs', e)
    && (e.outcome.Skipped? <==> stop) && (e.outcome.Cancelled? ==> m'.cancelled)
    && m.now <= e.startedUnixMs && e.completedUnixMs <= m'.now
    && EndedAs(inv, e, ended) && (e.outcome.SpawnFailed? ==> !faultless)
  }

  lemma InLoopNext(sha: Sha256, inv: Invocation, checks: seq<CheckDefinition>, faultless: bool, disk: FS, begun: nat,
                   fs: FS, m: Moment, executions: seq<CheckExecution>, endings: seq<Option<Ended>>, events: seq<ProgressEvent>,
                   fs': FS, m': Moment, stop: bool, next: CheckExecution, ended: Option<Ended>,
                   started: ProgressEvent, finished: ProgressEvent)
    requires InLoop(sha, inv, checks, faultless, disk, begun, fs, m, executions, endings, events) && |executions| < |checks|
    requires stop <==> inv.failFast && executions != [] && !executions[|executions| - 1].outcome.Passed?
    requires Turned(sha, inv, checks[|executions|], stop, faultless, fs, m, fs', m', next, ended)
    requires EventAt(started, 2 * |executions|, checks) && EventAt(finished, 2 * |executions| + 1, checks)
    requires finished.outcome == Some(next.outcome)
    ensures InLoop(sha, inv, checks, faultless, disk, begun, fs', m', executions + [next], endings + [ended],
                   events + [started] + [finished])
  {
    GrowsTransitive(disk, fs, fs');
    OnlyBlobsTransitive(disk, fs, fs');
    SoFarNext(sha, inv, checks, fs, m.cancelled, executions, events, fs', m'.cancelled, next, started, finished);
    ChronicleNext(inv, faultless, executions, endings, next, ended, begun, m.now, m'.now);
  }

  /** A skip record once the run has stopped, and otherwise an execution. */
  method ExecuteOrSkip(w: World, store: Store, sha: Sha256, check: CheckDefinition, inv: Invocation, stop: bool)
    returns (r: Result<CheckExecution, TaskError>, ghost ended: Option<Ended>)
    requires w.Valid() && store.fs.Valid() && w.max == inv.maxLogBytes
    modifies w, store
    ensures w.Valid() && store.fs.Valid() && Grows(old(store.fs), store.fs)
    ensures old(w.sys).now <= w.sys.now && (old(w.sys).cancelled ==> w.sys.cancelled)
    ensures r.Ok? ==> Turned(sha, inv, check, stop, w.Faultless(), old(store.fs), MomentOf(old(w.sys)), store.fs,
                             MomentOf(w.sys), r.value, ended)
    ensures stop ==> w.sys == old(w.sys) && store.fs == old(store.fs)
    ensures r.Err? ==> Plain(r.error) && (!old(store.LogsFree()) || Hindered(w, sha, store.fs))
    ensures r.Ok? && old(store.LogsFree()) ==> store.LogsFree()
    ensures store.sequence >= old(store.sequence)
  {
    if stop {
      r, ended := Ok(SkippedExecution(check, w.sys.now)), None;
    } else {
      ghost var disk, n := store.fs, store.sequence;
      r, ended := ExecuteCheck(w, store, sha, check, inv);
      if r.Ok? && old(store.LogsFree()) {
        StillFree(store, disk, store.fs, n, store.sequence);
      }
    }
  }

  lemma StillFree(store: Store, before: FS, after: FS, n: nat, m: nat)
    requires store.Free(before, n) && OnlyBlobs(before, after, {}) && n <= m
    ensures store.Free(after, m)
  {
    forall k: nat, stream | k >= m && stream in STREAMS ensures !after.Exists(store.CapturePath(k, stream)) {
      assert !before.Exists(store.CapturePath(k, stream));
    }
  }

  /** The body of the loop over the selected checks: the i-th of them and its two events. */
  method TakeTurn(w: World, store: Store, sha: Sha256, checks: seq<CheckDefinition>, inv: Invocation, i: nat, stop: bool)
    returns (r: Result<CheckExecution, TaskError>, started: ProgressEvent, finished: ProgressEvent, ghost ended: Option<Ended>)
    requires w.Valid() && store.fs.Valid() && w.max == inv.maxLogBytes && i < |checks|
    modifies w, store
    ensures w.Valid() && store.fs.Valid() && Grows(old(store.fs), store.fs)
    ensures old(w.sys).now <= w.sys.now && (old(w.sys).cancelled ==> w.sys.cancelled)
    ensures EventAt(started, 2 * i, checks)
    ensures r.Err? ==> Plain(r.error) && (!old(store.LogsFree()) || Hindered(w, sha, store.fs))
    ensures r.Ok? ==> Turned(sha, inv, checks[i], stop, w.Faultless(), old(store.fs), MomentOf(old(w.sys)), store.fs,
                             MomentOf(w.sys), r.value, ended)
    ensures r.Ok? ==> EventAt(finished, 2 * i + 1, checks) && finished.outcome == Some(r.value.outcome)
    ensures r.Ok? && old(store.LogsFree()) ==> store.LogsFree()
    ensures store.sequence >= old(store.sequence)
  {
    var check := checks[i];
    started := ProgressEvent(2 * i + 1, w.sys.now, CheckStarted, Some(check.id), None, None);
    finished := started;
    StartedAt(checks, i, w.sys.now);
    r, ended := ExecuteOrSkip(w, store, sha, check, inv, stop);
    if r.Ok? {
      finished := ProgressEvent(2 * i + 2, w.sys.now, CheckFinished, Some(check.id), Some(r.value.outcome), None);
      FinishedAt(checks, i, w.sys.now, r.value.outcome);
    }
  }

  /** The loop over the selected checks. */
  method ExecuteSelected(w: World, store: Store, sha: Sha256, checks: seq<CheckDefinition>, inv: Invocation)
    returns (r: Result<seq<CheckExecution>, TaskError>, events: seq<ProgressEvent>, ghost endings: seq<Option<Ended>>)
    requires w.Valid() && store.fs.Valid() && w.max == inv.maxLogBytes
    modifies w, store
    ensures w.Valid() && store.fs.Valid() && Grows(old(store.fs), store.fs)
    ensures old(w.sys).now <= w.sys.now && (old(w.sys).cancelled ==> w.sys.cancelled)
    ensures r.Err? ==> Plain(r.error) && Trace(events, checks, []) && |events| <= 2 * |checks|
    ensures r.Err? ==> !old(store.LogsFree()) || Hindered(w, sha, store.fs)
    ensures r.Ok? ==> |r.value| == |checks|
                      && InLoop(sha, inv, checks, w.Faultless(), old(store.fs), old(w.sys.now), store.fs, MomentOf(w.sys),
                                r.value, endings, events)
    ensures store.sequence >= old(store.sequence)
  {
    ghost var before, begun, raised := store.fs, w.sys.now, w.sys.cancelled;
    var executions: seq<CheckExecution>, stop := [], false;
    events, endings := [], [];
    for i := 0 to |checks|
      invariant |executions| == i && (raised ==> w.sys.cancelled)
      invariant w.Valid() && InLoop(sha, inv, checks, w.Faultless(), before, begun, store.fs, MomentOf(w.sys), executions,
                                    endings, events)
      invariant stop <==> inv.failFast && i > 0 && !executions[i - 1].outcome.Passed?
      invariant old(store.LogsFree()) ==> store.LogsFree()
      invariant store.sequence >= old(store.sequence)
    {
      ghost var stored, moment := store.fs, MomentOf(w.sys);
      var executed, started, finished; ghost var ended;
      executed, started, finished, ended := TakeTurn(w, store, sha, checks, inv, i, stop);
      if executed.Err? {
        GrowsTransitive(before, stored, store.fs);
        TraceStarted(events, checks, executions, started);
        return Err(executed.error), events + [started], endings;
      }
      InLoopNext(sha, inv, checks, w.Faultless(), before, begun, stored, moment, executions, endings, events, store.fs,
                 MomentOf(w.sys), stop, executed.value, ended, started, finished);
      events := events + [started] + [finished];
      stop := inv.failFast && !executed.value.outcome.Passed?;
      executions, endings := executions + [executed.value], endings + [ended];
    }
    r := Ok(executions);
  }

  /** What the loop knows of when and how the processes ended. */
  ghost predicate Chronicle(inv: Invocation, faultless: bool, executions: seq<CheckExecution>, endings: seq<Option<Ended>>,
                            from: nat, to: nat) {
    && AllExplained(inv, executions, endings) && Timed(executions, from, to)
    && (AnyOutcome(executions, SpawnFailed) ==> !faultless)
  }

  lemma ChronicleNext(inv: Invocation, faultless: bool, executions: seq<CheckExecution>, endings: seq<Option<Ended>>,
                      next: CheckExecution, ended: Option<Ended>, from: nat, now: nat, to: nat)
    requires Chronicle(inv, faultless, executions, endings, from, now)
    requires EndedAs(inv, next, ended) && (next.outcome.SpawnFailed? ==> !faultless)
    requires from <= now <= next.startedUnixMs && now <= to && next.completedUnixMs <= to
    ensures Chronicle(inv, faultless, executions + [next], endings + [ended], from, to)
  {
    OutcomeAppend(executions, next, SpawnFailed);
    TimedNext(executions, next, from, now, to);
  }

  lemma TimedNext(executions: seq<CheckExecution>, next: CheckExecution, from: nat, now: nat, to: nat)
    requires Timed(executions, from, now) && from <= now <= next.startedUnixMs && now <= to && next.completedUnixMs <= to
    ensures Timed(executions + [next], from, to)
  {
  }

  lemma OnlyBlobsTransitive(a: FS, b: FS, c: FS)
    requires OnlyBlobs(a, b, {}) && OnlyBlobs(b, c, {})
    ensures OnlyBlobs(a, c, {})
  {
  }

  lemma RecordedExtends(inv: Invocation, checks: seq<CheckDefinition>, executions: seq<CheckExecution>, next: CheckExecution)
    requires Recorded(inv, checks, executions) && |executions| < |checks|
    requires next.check == checks[|executions|] && Describes(inv, next)
    requires next.outcome.Skipped? <==>
               inv.failFast && executions != [] && !executions[|executions| - 1].outcome.Passed?
    ensures Recorded(inv, checks, executions + [next])
  {
    var all := executions + [next];
    forall i | 0 <= i < |all|
      ensures all[i].check == checks[i] && Describes(inv, all[i]) && FailFastStep(inv.failFast, all, i)
    {
      if i < |executions| {
        assert FailFastStep(inv.failFast, executions, i);
      }
    }
  }

  /** Checks do not touch the receipts, so what refuses a receipt afterwards refused it before. */
  lemma StillRefused(store: Store, codec: Codec, before: FS, after: FS, n: nat, receipt: Receipt)
    requires before.Valid() && after.Valid() && Grows(before, after) && OnlyBlobs(before, after, {})
    requires store.Refuses(codec, after, n, receipt)
    ensures store.Refuses(codec, before, n, receipt)
  {
    var path := ReceiptPath(receipt.receiptId);
    assert before.Exists(path) <==> after.Exists(path);
    if !after.Exists(path) && store.Crowded(after, path, n) {
      forall k: nat | n <= k < n + Publication.MAX_ATTEMPTS ensures before.Exists(store.DocumentPath(path, k)) {
        assert after.Exists(store.DocumentPath(path, k));
      }
    }
  }

  /** The end of `run_checks`: the receipt of the executed checks, stored. */
  method Conclude(w: World, store: Store, sha: Sha256, canonical: Canonical, codec: Codec, discovery: DiscoveryReport,
                  inv: Invocation, sourceAfter: SourceIdentity, started: nat, executions: seq<CheckExecution>,
                  before: seq<ProgressEvent>)
    returns (r: Result<Receipt, TaskError>, events: seq<ProgressEvent>, cancelled: bool)
    requires w.Valid() && started <= w.sys.now && |executions| == |SelectedChecks(discovery)|
    requires SoFar(sha, inv, SelectedChecks(discovery), store.fs, w.sys.cancelled, executions, before)
    requires Timed(executions, started, w.sys.now)
    modifies w`turn, w`sys, store
    ensures w.Valid() && store.fs.Valid() && Grows(old(store.fs), store.fs) && Evolves(old(w.sys), w.sys)
    ensures r.Err? ==> Plain(r.error) && events == before
    ensures (old(w.sys).cancelled ==> cancelled) && (cancelled ==> w.sys.cancelled)
    ensures r.Ok? ==>
      && Attests(sha, canonical, discovery, inv, sourceAfter, cancelled, r.value)
      && r.value.payload.checks == executions && AllLogsStored(sha, store.fs, executions)
      && r.value.payload.startedUnixMs == started && r.value.payload.completedUnixMs <= w.sys.now
      && Timed(executions, started, r.value.payload.completedUnixMs)
      && Holds(codec, store.fs, r.value)
      && Trace(events, SelectedChecks(discovery), executions) && |events| == |before| + 1
      && events[|before|].receiptId == Some(r.value.receiptId)
    ensures r.Err? ==> !w.Faultless() || exists receipt, raised ::
      Attests(sha, canonical, discovery, inv, sourceAfter, raised, receipt)
      && store.Refuses(codec, old(store.fs), old(store.sequence), receipt)
  {
    events := before;
    w.Elapse(0);
    cancelled := w.sys.cancelled;
    var sameSource := sourceAfter == discovery.source;
    var outcome := OutcomeOf(executions, discovery.coverageGaps, cancelled, sameSource);
    var payload := ReceiptPayload(RECEIPT_SCHEMA_VERSION, discovery.source, sourceAfter, sameSource, inv, discovery,
                                  started, w.sys.now, w.sys.now - started, outcome, executions, discovery.coverageGaps);
    var receipt := BuildReceipt(sha, canonical, payload);
    DerivedShapes(sha, canonical(payload));
    ghost var ran, n := store.fs, store.sequence;
    var turn := w.turn;
    var faults := (k: nat) => w.faults(turn + k);
    assert w.Faultless() ==> forall k :: !faults(k);
    var written := store.WriteReceipt(codec, receipt, faults);
    assert Grows(ran, store.fs);
    if written.Err? {
      assert Attests(sha, canonical, discovery, inv, sourceAfter, cancelled, receipt);
      assert w.Faultless() ==> store.Refuses(codec, ran, n, receipt);
      return Err(written.error), events, cancelled;
    }
    GrowthKeepsAllLogs(sha, ran, store.fs, executions);
    events := events + [ProgressEvent(|events| + 1, w.sys.now, ReceiptStored, None, None, Some(receipt.receiptId))];
    assert forall k :: 0 <= k < |before| ==> events[k] == before[k];
    r := Ok(receipt);
  }

  /** `run_checks`: executes the selected checks, re-identifies the source, and stores the receipt. A receipt there is
      whenever temporary names are free, the source can be identified, nothing hinders a check, and no receipt that
      attests the run is refused. */
  method RunChecks(w: World, store: Store, sha: Sha256, canonical: Canonical, codec: Codec, discovery: DiscoveryReport,
                   inv: Invocation, identified: Result<SourceIdentity, TaskError>)
    returns (r: Result<Receipt, TaskError>, events: seq<ProgressEvent>, cancelled: bool, ghost endings: seq<Option<Ended>>)
    requires w.Valid() && store.fs.Valid() && w.max == inv.maxLogBytes
    requires identified.Err? ==> Plain(identified.error)
    modifies w, store
    ensures w.Valid() && store.fs.Valid() && Grows(old(store.fs), store.fs)
    ensures r.Err? ==> Plain(r.error) && Trace(events, SelectedChecks(discovery), [])
                       && |events| <= 2 * |SelectedChecks(discovery)|
    ensures r.Ok? ==>
      && identified.Ok? && Attests(sha, canonical, discovery, inv, identified.value, cancelled, r.value)
      && AllLogsStored(sha, store.fs, r.value.payload.checks)
      && Holds(codec, store.fs, r.value)
      && Trace(events, SelectedChecks(discovery), r.value.payload.checks)
      && |events| == 2 * |SelectedChecks(discovery)| + 1
      && events[|events| - 1].receiptId == Some(r.value.receiptId)
    ensures r.Ok? ==>
      var p := r.value.payload;
      && p.startedUnixMs == old(w.sys.now) && p.completedUnixMs <= w.sys.now
      && Chronicle(inv, w.Faultless(), p.checks, endings, p.startedUnixMs, p.completedUnixMs)
      && (old(w.sys).cancelled ==> cancelled) && (cancelled ==> w.sys.cancelled)
    ensures r.Err? && old(store.LogsFree()) && identified.Ok? ==>
      || Hindered(w, sha, store.fs)
      || exists receipt, raised, n :: n >= old(store.sequence)
           && Attests(sha, canonical, discovery, inv, identified.value, raised, receipt)
           && store.Refuses(codec, old(store.fs), n, receipt)
  {
    cancelled, endings := false, [];
    ghost var disk := store.fs;
    var started := w.sys.now;
    var checks := SelectedChecks(discovery);
    var executed;
    executed, events, endings := ExecuteSelected(w, store, sha, checks, inv);
    if executed.Err? {
      return Err(executed.error), events, cancelled, endings;
    }
    if identified.Err? {
      return Err(identified.error), events, cancelled, endings;
    }
    ghost var ran, n := store.fs, store.sequence;
    r, events, cancelled := Conclude(w, store, sha, canonical, codec, discovery, inv, identified.value, started,
                                     executed.value, events);
    GrowsTransitive(disk, ran, store.fs);
    if r.Err? && w.Faultless() {
      var receipt, raised :| Attests(sha, canonical, discovery, inv, identified.value, raised, receipt)
                             && store.Refuses(codec, ran, n, receipt);
      StillRefused(store, codec, disk, ran, n, receipt);
    }
  }

  /** In a Passed run every selected check's process exited with 0 on its own: no turn of any poll loop stopped it. */
  lemma PassedRanToTheEnd(sha: Sha256, canonical: Canonical, discovery: DiscoveryReport, inv: Invocation,
                          sourceAfter: SourceIdentity, cancelled: bool, receipt: Receipt, endings: seq<Option<Ended>>, i: nat)
    requires Attests(sha, canonical, discovery, inv, sourceAfter, cancelled, receipt)
    requires AllExplained(inv, receipt.payload.checks, endings) && receipt.payload.outcome.ReceiptPassed?
    requires i < |receipt.payload.checks|
    ensures endings[i].Some? && endings[i].value.reason.LeaderExited? && endings[i].value.status == Exited(0)
    ensures var polls := endings[i].value.polls;
            polls != [] && polls[|polls| - 1].exit.leader == Reaped(Exited(0))
            && forall k :: 0 <= k < |polls| - 1 ==>
                 Undecided(polls[k], receipt.payload.checks[i].startedUnixMs + inv.maxRuntimeMs)
  {
    assert receipt.payload.checks[i].outcome.Passed? && EndedAs(inv, receipt.payload.checks[i], endings[i]);
  }

  /** Fail-fast over a whole run: passes, then at most one other outcome, then only skips; without it no skip. */
  lemma FailFastShape(inv: Invocation, checks: seq<CheckDefinition>, executions: seq<CheckExecution>)
    requires Recorded(inv, checks, executions)
    ensures !inv.failFast ==> !AnyOutcome(executions, Skipped)
    ensures inv.failFast ==> exists k :: 0 <= k <= |executions| && Stops(executions, k)
  {
    forall i | 0 <= i < |executions| ensures FailFastStep(inv.failFast, executions, i) {
    }
    if inv.failFast {
      var k := FirstStop(inv, executions);
      assert Stops(executions, k);
    }
  }

  predicate Stops(executions: seq<CheckExecution>, k: int) {
    && 0 <= k
    && (forall i :: 0 <= i < k && i < |executions| ==> executions[i].outcome.Passed?)
    && (k < |executions| ==> !executions[k].outcome.Passed? && !executions[k].outcome.Skipped?)
    && (forall i :: k < i < |executions| ==> executions[i].outcome.Skipped?)
  }

  lemma {:induction false} FirstStop(inv: Invocation, executions: seq<CheckExecution>) returns (k: nat)
    requires inv.failFast && forall i :: 0 <= i < |executions| ==> FailFastStep(inv.failFast, executions, i)
    ensures k <= |executions| && Stops(executions, k)
  {
    if executions == [] {
      k := 0;
    } else {
      var front := executions[..|executions| - 1];
      forall i | 0 <= i < |front| ensures FailFastStep(inv.failFast, front, i) {
        assert FailFastStep(inv.failFast, executions, i);
      }
      k := FirstStop(inv, front);
      assert FailFastStep(inv.failFast, executions, |front|);
      if k == |front| && executions[k].outcome.Passed? {
        k := k + 1;
      }
    }
  }
}
