/** Offline verification of a receipt (src/verify.rs), and its agreement with the producer. */
module Verify {
  import opened Basics
  import opened FileSystem
  import opened Hex
  import opened Model
  import opened BlobStore
  import opened Execute
  import opened Order
  import opened Selection
  import opened Run

  datatype Problem =
    | UnsupportedSchema | DigestMismatch | IdNotDerived | DigestMalformed
    | SourceDiffers | SourceUnchangedInconsistent | CompletesBeforeStart
    | NotTheSelectedSet | DuplicateExecutions | CheckCompletesBeforeStart(id: string)
    | InvalidLogReference(id: string) | OutcomeInconsistent
    | BlobMissing(handle: string) | BlobMismatch(handle: string)

  datatype BlobVerification = BlobVerification(handle: string, found: bool, digestMatches: bool, expectedBytes: nat)

  datatype Report = Report(valid: bool, schemaSupported: bool, digestMatches: bool, idMatches: bool,
                           blobs: seq<BlobVerification>, problems: seq<Problem>)

  /** The execution has this log, of either stream. */
  predicate HasLog(e: CheckExecution, log: LogReference) {
    e.stdout == Some(log) || e.stderr == Some(log)
  }

  /** The logs of one execution: stdout, then stderr, those that are present. */
  function LogsOf(e: CheckExecution): seq<LogReference> {
    (if e.stdout.Some? then [e.stdout.value] else []) + (if e.stderr.Some? then [e.stderr.value] else [])
  }

  function LogReferences(executions: seq<CheckExecution>): seq<LogReference> {
    if executions == [] then [] else LogReferences(executions[..|executions| - 1]) + LogsOf(executions[|executions| - 1])
  }

  predicate ReferenceValid(log: LogReference) {
    log.algorithm == "sha256" && log.handle == "sha256:" + log.digest && ValidSha256(log.digest)
  }

  /** The outcome the verifier derives; it cannot see the cancellation token. */
  function ExpectedOutcome(p: ReceiptPayload): ReceiptOutcome {
    OutcomeOf(p.checks, p.coverageGaps, false, p.sourceUnchanged)
  }

  function SelectedSet(p: ReceiptPayload): set<string> {
    set entry | entry in p.discovery.selection && entry.selected :: entry.checkId
  }

  function ExecutedSet(p: ReceiptPayload): set<string> {
    set execution | execution in p.checks :: execution.check.id
  }

  predicate ExecutionSound(e: CheckExecution) {
    && e.startedUnixMs <= e.completedUnixMs
    && (e.stdout.Some? ==> ReferenceValid(e.stdout.value))
    && (e.stderr.Some? ==> ReferenceValid(e.stderr.value))
  }

  predicate SemanticsSound(p: ReceiptPayload) {
    && p.source == p.discovery.source
    && p.sourceUnchanged == (p.source == p.sourceAfter)
    && p.startedUnixMs <= p.completedUnixMs
    && SelectedSet(p) == ExecutedSet(p)
    && |ExecutedSet(p)| == |p.checks|
    && (forall i :: 0 <= i < |p.checks| ==> ExecutionSound(p.checks[i]))
    && p.outcome == ExpectedOutcome(p)
  }

  predicate IdentitySound(sha: Sha256, canonical: Canonical, receipt: Receipt) {
    && receipt.payload.schemaVersion == RECEIPT_SCHEMA_VERSION
    && receipt.canonicalDigest == Sha256Hex(sha, canonical(receipt.payload))
    && (DerivedShapes(sha, canonical(receipt.payload)); receipt.receiptId == ReceiptIdOf(receipt.canonicalDigest))
  }

  predicate LogSound(sha: Sha256, fs: FS, log: LogReference)
    requires fs.Valid()
  {
    fs.Exists(BlobPath(log.digest)) && BlobMatches(sha, fs.Read(BlobPath(log.digest)), log.digest, log.bytes)
  }

  /** Everything offline verification stands for. */
  predicate Sound(sha: Sha256, canonical: Canonical, fs: FS, receipt: Receipt)
    requires fs.Valid()
  {
    && IdentitySound(sha, canonical, receipt)
    && SemanticsSound(receipt.payload)
    && forall i :: 0 <= i < |receipt.payload.checks| ==> LogsSound(sha, fs, receipt.payload.checks[i])
  }

  /** The blobs of both streams are there and match. */
  predicate LogsSound(sha: Sha256, fs: FS, e: CheckExecution)
    requires fs.Valid()
  {
    && (e.stdout.Some? ==> LogSound(sha, fs, e.stdout.value))
    && (e.stderr.Some? ==> LogSound(sha, fs, e.stderr.value))
  }

  // When each problem is reported.

  predicate IdentityWarrants(sha: Sha256, canonical: Canonical, receipt: Receipt, problem: Problem) {
    var digest := Sha256Hex(sha, canonical(receipt.payload));
    match problem
    case UnsupportedSchema => receipt.payload.schemaVersion != RECEIPT_SCHEMA_VERSION
    case DigestMismatch => digest != receipt.canonicalDigest
    case IdNotDerived => DerivedShapes(sha, canonical(receipt.payload)); receipt.receiptId != ReceiptIdOf(digest)
    case DigestMalformed => !ValidSha256(receipt.canonicalDigest)
    case _ => false
  }

  predicate HeaderWarrants(p: ReceiptPayload, problem: Problem) {
    match problem
    case SourceDiffers => p.source != p.discovery.source
    case SourceUnchangedInconsistent => p.sourceUnchanged != (p.source == p.sourceAfter)
    case CompletesBeforeStart => p.completedUnixMs < p.startedUnixMs
    case NotTheSelectedSet => SelectedSet(p) != ExecutedSet(p)
    case DuplicateExecutions => |ExecutedSet(p)| != |p.checks|
    case _ => false
  }

  predicate HasInvalidLog(e: CheckExecution) {
    || (e.stdout.Some? && !ReferenceValid(e.stdout.value))
    || (e.stderr.Some? && !ReferenceValid(e.stderr.value))
  }

  predicate CheckWarrants(e: CheckExecution, problem: Problem) {
    match problem
    case CheckCompletesBeforeStart(id) => e.check.id == id && e.completedUnixMs < e.startedUnixMs
    case InvalidLogReference(id) => e.check.id == id && HasInvalidLog(e)
    case _ => false
  }

  predicate ChecksWarrant(checks: seq<CheckExecution>, problem: Problem) {
    exists i :: 0 <= i < |checks| && CheckWarrants(checks[i], problem)
  }

  predicate OutcomeWarrants(p: ReceiptPayload, problem: Problem) {
    problem == OutcomeInconsistent && p.outcome != ExpectedOutcome(p)
  }

  predicate SemanticsWarrant(p: ReceiptPayload, problem: Problem) {
    HeaderWarrants(p, problem) || ChecksWarrant(p.checks, problem) || OutcomeWarrants(p, problem)
  }

  predicate LogWarrants(sha: Sha256, fs: FS, log: LogReference, problem: Problem)
    requires fs.Valid()
  {
    match problem
    case BlobMissing(handle) => log.handle == handle && !fs.Exists(BlobPath(log.digest))
    case BlobMismatch(handle) => log.handle == handle && fs.Exists(BlobPath(log.digest)) && !LogSound(sha, fs, log)
    case _ => false
  }

  predicate ListWarrants(sha: Sha256, fs: FS, logs: seq<LogReference>, problem: Problem)
    requires fs.Valid()
  {
    exists i :: 0 <= i < |logs| && LogWarrants(sha, fs, logs[i], problem)
  }

  /** Some execution has a log, of either stream, with this problem. */
  predicate LogsWarrant(sha: Sha256, fs: FS, checks: seq<CheckExecution>, problem: Problem)
    requires fs.Valid()
  {
    exists i :: 0 <= i < |checks| && EitherWarrants(sha, fs, checks[i], problem)
  }

  predicate EitherWarrants(sha: Sha256, fs: FS, e: CheckExecution, problem: Problem)
    requires fs.Valid()
  {
    || (e.stdout.Some? && LogWarrants(sha, fs, e.stdout.value, problem))
    || (e.stderr.Some? && LogWarrants(sha, fs, e.stderr.value, problem))
  }

  predicate Warranted(sha: Sha256, canonical: Canonical, fs: FS, receipt: Receipt, problem: Problem)
    requires fs.Valid()
  {
    || IdentityWarrants(sha, canonical, receipt, problem)
    || SemanticsWarrant(receipt.payload, problem)
    || LogsWarrant(sha, fs, receipt.payload.checks, problem)
  }

  /** Each semantic clause is violated exactly when some problem about it is warranted. */
  lemma SemanticsSoundMeans(p: ReceiptPayload)
    ensures SemanticsSound(p) <==> forall problem :: !SemanticsWarrant(p, problem)
  {
    if forall problem :: !SemanticsWarrant(p, problem) {
      forall problem ensures !HeaderWarrants(p, problem) && !ChecksWarrant(p.checks, problem) && !OutcomeWarrants(p, problem) {
        assert !SemanticsWarrant(p, problem);
      }
      assert !HeaderWarrants(p, SourceDiffers) && !HeaderWarrants(p, SourceUnchangedInconsistent);
      assert !HeaderWarrants(p, CompletesBeforeStart) && !HeaderWarrants(p, NotTheSelectedSet);
      assert !HeaderWarrants(p, DuplicateExecutions) && !OutcomeWarrants(p, OutcomeInconsistent);
      UnwarrantedChecksAreSound(p.checks);
    }
  }

  lemma {:induction false} UnwarrantedChecksAreSound(checks: seq<CheckExecution>)
    requires forall problem :: !ChecksWarrant(checks, problem)
    ensures forall i :: 0 <= i < |checks| ==> ExecutionSound(checks[i])
  {
    forall i | 0 <= i < |checks| ensures ExecutionSound(checks[i]) {
      assert !ChecksWarrant(checks, CheckCompletesBeforeStart(checks[i].check.id));
      assert !ChecksWarrant(checks, InvalidLogReference(checks[i].check.id));
      assert !CheckWarrants(checks[i], CheckCompletesBeforeStart(checks[i].check.id));
      assert !CheckWarrants(checks[i], InvalidLogReference(checks[i].check.id));
    }
  }

  lemma IdentitySoundMeans(sha: Sha256, canonical: Canonical, receipt: Receipt)
    ensures IdentitySound(sha, canonical, receipt) <==> forall problem :: !IdentityWarrants(sha, canonical, receipt, problem)
  {
    DerivedShapes(sha, canonical(receipt.payload));
    if forall problem :: !IdentityWarrants(sha, canonical, receipt, problem) {
      assert !IdentityWarrants(sha, canonical, receipt, UnsupportedSchema);
      assert !IdentityWarrants(sha, canonical, receipt, DigestMismatch);
      assert !IdentityWarrants(sha, canonical, receipt, IdNotDerived);
    }
  }

  lemma LogSoundMeans(sha: Sha256, fs: FS, log: LogReference)
    requires fs.Valid()
    ensures LogSound(sha, fs, log) <==> forall problem :: !LogWarrants(sha, fs, log, problem)
  {
    if forall problem :: !LogWarrants(sha, fs, log, problem) {
      assert !LogWarrants(sha, fs, log, BlobMissing(log.handle));
      assert !LogWarrants(sha, fs, log, BlobMismatch(log.handle));
    }
  }

  lemma {:induction false} LogsSoundMeans(sha: Sha256, fs: FS, checks: seq<CheckExecution>)
    requires fs.Valid()
    ensures (forall i :: 0 <= i < |checks| ==> LogsSound(sha, fs, checks[i]))
            <==> forall problem :: !LogsWarrant(sha, fs, checks, problem)
  {
    forall i | 0 <= i < |checks|
      ensures LogsSound(sha, fs, checks[i]) <==> forall problem :: !EitherWarrants(sha, fs, checks[i], problem)
    {
      EitherSoundMeans(sha, fs, checks[i]);
    }
    if forall problem :: !LogsWarrant(sha, fs, checks, problem) {
      forall i, problem | 0 <= i < |checks| ensures !EitherWarrants(sha, fs, checks[i], problem) {
        assert !LogsWarrant(sha, fs, checks, problem);
      }
    }
  }

  lemma EitherSoundMeans(sha: Sha256, fs: FS, e: CheckExecution)
    requires fs.Valid()
    ensures LogsSound(sha, fs, e) <==> forall problem :: !EitherWarrants(sha, fs, e, problem)
  {
    if e.stdout.Some? {
      LogSoundMeans(sha, fs, e.stdout.value);
    }
    if e.stderr.Some? {
      LogSoundMeans(sha, fs, e.stderr.value);
    }
    if forall problem :: !EitherWarrants(sha, fs, e, problem) {
      forall problem
        ensures e.stdout.Some? ==> !LogWarrants(sha, fs, e.stdout.value, problem)
        ensures e.stderr.Some? ==> !LogWarrants(sha, fs, e.stderr.value, problem)
      {
        assert !EitherWarrants(sha, fs, e, problem);
      }
    }
  }

  /** A receipt is sound exactly when no problem is warranted. */
  lemma SoundMeansNoProblem(sha: Sha256, canonical: Canonical, fs: FS, receipt: Receipt)
    requires fs.Valid()
    ensures Sound(sha, canonical, fs, receipt) <==> forall problem :: !Warranted(sha, canonical, fs, receipt, problem)
  {
    IdentitySoundMeans(sha, canonical, receipt);
    SemanticsSoundMeans(receipt.payload);
    LogsSoundMeans(sha, fs, receipt.payload.checks);
    if forall problem :: !Warranted(sha, canonical, fs, receipt, problem) {
      forall problem
        ensures !IdentityWarrants(sha, canonical, receipt, problem) && !SemanticsWarrant(receipt.payload, problem)
        ensures !LogsWarrant(sha, fs, receipt.payload.checks, problem)
      {
        assert !Warranted(sha, canonical, fs, receipt, problem);
      }
    }
  }

  // The verifier.

  /** What the report says of one log. */
  predicate BlobReported(sha: Sha256, fs: FS, log: LogReference, b: BlobVerification)
    requires fs.Valid()
  {
    && b.handle == log.handle && b.expectedBytes == log.bytes
    && b.found == fs.Exists(BlobPath(log.digest))
    && (b.digestMatches <==> LogSound(sha, fs, log))
  }

  method VerifyBlob(sha: Sha256, fs: FS, log: LogReference) returns (r: Result<BlobVerification, TaskError>)
    requires fs.Valid()
    ensures r.Ok? <==> ValidSha256(log.digest)
    ensures r.Ok? ==> BlobReported(sha, fs, log, r.value)
    ensures r.Err? ==> r.error == RECEIPT_ERROR
  {
    if !ValidSha256(log.digest) {
      return Err(RECEIPT_ERROR);
    }
    var path := BlobPath(log.digest);
    if !fs.Exists(path) {
      return Ok(BlobVerification(log.handle, false, false, log.bytes));
    }
    var matches := |fs.Read(path)| == log.bytes && Sha256Hex(sha, fs.Read(path)) == log.digest;
    r := Ok(BlobVerification(log.handle, true, matches, log.bytes));
  }

  method HeaderProblems(p: ReceiptPayload) returns (problems: seq<Problem>)
    ensures forall problem :: problem in problems <==> HeaderWarrants(p, problem)
  {
    problems := [];
    if p.source != p.discovery.source {
      problems := problems + [SourceDiffers];
    }
    if p.sourceUnchanged != (p.source == p.sourceAfter) {
      problems := problems + [SourceUnchangedInconsistent];
    }
    if p.completedUnixMs < p.startedUnixMs {
      problems := problems + [CompletesBeforeStart];
    }
    var selected, executed := SelectedSet(p), ExecutedSet(p);
    if selected != executed {
      problems := problems + [NotTheSelectedSet];
    }
    if |executed| != |p.checks| {
      problems := problems + [DuplicateExecutions];
    }
  }

  method CheckProblems(execution: CheckExecution) returns (problems: seq<Problem>)
    ensures forall problem :: problem in problems <==> CheckWarrants(execution, problem)
  {
    problems := [];
    if execution.completedUnixMs < execution.startedUnixMs {
      problems := problems + [CheckCompletesBeforeStart(execution.check.id)];
    }
    ghost var timed := problems;
    var logs := LogsOf(execution);
    InvalidListed(execution);
    for k := 0 to |logs|
      invariant forall problem :: problem in problems <==>
        problem in timed || (problem == InvalidLogReference(execution.check.id) && exists j :: 0 <= j < k && !ReferenceValid(logs[j]))
    {
      if logs[k].algorithm != "sha256" || logs[k].handle != "sha256:" + logs[k].digest || !ValidSha256(logs[k].digest) {
        problems := problems + [InvalidLogReference(execution.check.id)];
      }
    }
  }

  lemma InvalidListed(e: CheckExecution)
    ensures HasInvalidLog(e) <==> exists j :: 0 <= j < |LogsOf(e)| && !ReferenceValid(LogsOf(e)[j])
  {
    var logs := LogsOf(e);
    if e.stdout.Some? {
      assert logs[0] == e.stdout.value;
    }
    if e.stderr.Some? {
      assert logs[|logs| - 1] == e.stderr.value;
    }
  }

  method VerifySemantics(p: ReceiptPayload) returns (problems: seq<Problem>)
    ensures forall problem :: problem in problems <==> SemanticsWarrant(p, problem)
  {
    problems := HeaderProblems(p);
    for i := 0 to |p.checks|
      invariant forall problem :: problem in problems <==> HeaderWarrants(p, problem) || ChecksWarrant(p.checks[..i], problem)
    {
      var more := CheckProblems(p.checks[i]);
      problems := problems + more;
      WarrantNext(p.checks, i);
    }
    assert p.checks[..|p.checks|] == p.checks;
    var expected :=
      if AnyOutcome(p.checks, Cancelled) then ReceiptCancelled
      else if !p.sourceUnchanged || !AllPassed(p.checks) then ReceiptFailed
      else if p.checks == [] || p.coverageGaps != [] then ReceiptIncomplete
      else ReceiptPassed;
    if p.outcome != expected {
      problems := problems + [OutcomeInconsistent];
    }
  }

  lemma WarrantNext(checks: seq<CheckExecution>, i: nat)
    requires i < |checks|
    ensures forall problem :: ChecksWarrant(checks[..i + 1], problem)
                              <==> ChecksWarrant(checks[..i], problem) || CheckWarrants(checks[i], problem)
  {
    var next := checks[..i + 1];
    assert next[i] == checks[i] && forall j :: 0 <= j < i ==> next[j] == checks[..i][j];
  }

  lemma LogWarrantNext(sha: Sha256, fs: FS, logs: seq<LogReference>, i: nat)
    requires fs.Valid() && i < |logs|
    ensures forall problem :: ListWarrants(sha, fs, logs[..i + 1], problem)
                              <==> ListWarrants(sha, fs, logs[..i], problem) || LogWarrants(sha, fs, logs[i], problem)
  {
    var next := logs[..i + 1];
    assert next[i] == logs[i] && forall j :: 0 <= j < i ==> next[j] == logs[..i][j];
  }

  lemma LogsOfMembers(e: CheckExecution, log: LogReference)
    ensures log in LogsOf(e) <==> HasLog(e, log)
  {
  }

  /** The verified logs are exactly the logs of either stream of the executions. */
  lemma {:induction false} LogReferencesMembers(executions: seq<CheckExecution>, log: LogReference)
    ensures log in LogReferences(executions) <==> exists i :: 0 <= i < |executions| && HasLog(executions[i], log)
  {
    if executions != [] {
      var front, last := executions[..|executions| - 1], executions[|executions| - 1];
      LogReferencesMembers(front, log);
      LogsOfMembers(last, log);
      assert executions == front + [last];
    }
  }

  function LogCount(e: CheckExecution): nat {
    (if e.stdout.Some? then 1 else 0) + (if e.stderr.Some? then 1 else 0)
  }

  /** They come in the order of the executions, stdout before stderr, and there are no others. */
  lemma {:induction false} LogReferencesInOrder(executions: seq<CheckExecution>, i: nat)
    requires i < |executions|
    ensures |LogReferences(executions[..i + 1])| == |LogReferences(executions[..i])| + LogCount(executions[i])
    ensures LogReferences(executions[..i + 1]) <= LogReferences(executions)
    ensures var n := |LogReferences(executions[..i])|;
            && (executions[i].stdout.Some? ==> LogReferences(executions)[n] == executions[i].stdout.value)
            && (executions[i].stderr.Some? ==>
                  LogReferences(executions)[n + LogCount(executions[i]) - 1] == executions[i].stderr.value)
  {
    assert executions[..i + 1][..i] == executions[..i];
    if i == |executions| - 1 {
      assert executions[..i + 1] == executions;
    } else {
      var front := executions[..|executions| - 1];
      LogReferencesInOrder(front, i);
      assert front[..i + 1] == executions[..i + 1] && front[..i] == executions[..i];
    }
  }

  /** A problem of some listed log is a problem of the log of some execution. */
  lemma {:induction false} ListedProblems(sha: Sha256, fs: FS, checks: seq<CheckExecution>, problem: Problem)
    requires fs.Valid()
    ensures ListWarrants(sha, fs, LogReferences(checks), problem) <==> LogsWarrant(sha, fs, checks, problem)
  {
    var logs := LogReferences(checks);
    if k :| 0 <= k < |logs| && LogWarrants(sha, fs, logs[k], problem) {
      LogReferencesMembers(checks, logs[k]);
      var i :| 0 <= i < |checks| && HasLog(checks[i], logs[k]);
      assert EitherWarrants(sha, fs, checks[i], problem);
    }
    if i :| 0 <= i < |checks| && EitherWarrants(sha, fs, checks[i], problem) {
      var log := if checks[i].stdout.Some? && LogWarrants(sha, fs, checks[i].stdout.value, problem)
                 then checks[i].stdout.value else checks[i].stderr.value;
      LogReferencesMembers(checks, log);
      assert HasLog(checks[i], log);
      var k :| 0 <= k < |logs| && logs[k] == log;
    }
  }

  /** Every log of either stream has a digest that can name a blob. */
  predicate Nameable(checks: seq<CheckExecution>) {
    forall i :: 0 <= i < |checks| ==>
      && (checks[i].stdout.Some? ==> ValidSha256(checks[i].stdout.value.digest))
      && (checks[i].stderr.Some? ==> ValidSha256(checks[i].stderr.value.digest))
  }

  lemma {:induction false} ListedDigests(checks: seq<CheckExecution>)
    ensures (forall log :: log in LogReferences(checks) ==> ValidSha256(log.digest)) <==> Nameable(checks)
  {
    if forall log :: log in LogReferences(checks) ==> ValidSha256(log.digest) {
      forall i, log | 0 <= i < |checks| && HasLog(checks[i], log) ensures ValidSha256(log.digest) {
        LogReferencesMembers(checks, log);
      }
    }
    if Nameable(checks) {
      forall log | log in LogReferences(checks) ensures ValidSha256(log.digest) {
        LogReferencesMembers(checks, log);
        var i :| 0 <= i < |checks| && HasLog(checks[i], log);
      }
    }
  }

  method IdentityProblems(sha: Sha256, canonical: Canonical, receipt: Receipt)
    returns (problems: seq<Problem>, schemaSupported: bool, digestMatches: bool, idMatches: bool)
    ensures forall problem :: problem in problems <==> IdentityWarrants(sha, canonical, receipt, problem)
    ensures schemaSupported <==> !IdentityWarrants(sha, canonical, receipt, UnsupportedSchema)
    ensures digestMatches <==> !IdentityWarrants(sha, canonical, receipt, DigestMismatch)
    ensures idMatches <==> !IdentityWarrants(sha, canonical, receipt, IdNotDerived)
  {
    problems := [];
    schemaSupported := receipt.payload.schemaVersion == RECEIPT_SCHEMA_VERSION;
    if !schemaSupported {
      problems := problems + [UnsupportedSchema];
    }
    var digest := Sha256Hex(sha, canonical(receipt.payload));
    DerivedShapes(sha, canonical(receipt.payload));
    digestMatches := digest == receipt.canonicalDigest;
    if !digestMatches {
      problems := problems + [DigestMismatch];
    }
    idMatches := ValidReceiptId(receipt.receiptId) && receipt.receiptId == ReceiptIdOf(digest);
    if !idMatches {
      problems := problems + [IdNotDerived];
    }
    if !ValidSha256(receipt.canonicalDigest) {
      problems := problems + [DigestMalformed];
    }
  }

  /** The loop over the log references. */
  method VerifyLogs(sha: Sha256, fs: FS, logs: seq<LogReference>)
    returns (r: Result<(seq<BlobVerification>, seq<Problem>), TaskError>)
    requires fs.Valid()
    ensures r.Err? ==> r.error == RECEIPT_ERROR
    ensures r.Ok? <==> forall log :: log in logs ==> ValidSha256(log.digest)
    ensures r.Ok? ==> |r.value.0| == |logs| && forall k :: 0 <= k < |logs| ==> BlobReported(sha, fs, logs[k], r.value.0[k])
    ensures r.Ok? ==> forall problem :: problem in r.value.1 <==> ListWarrants(sha, fs, logs, problem)
  {
    var blobs: seq<BlobVerification>, problems: seq<Problem> := [], [];
    for k := 0 to |logs|
      invariant |blobs| == k && forall j :: 0 <= j < k ==> ValidSha256(logs[j].digest) && BlobReported(sha, fs, logs[j], blobs[j])
      invariant forall problem :: problem in problems <==> ListWarrants(sha, fs, logs[..k], problem)
    {
      var verified := VerifyBlob(sha, fs, logs[k]);
      if verified.Err? {
        assert logs[k] in logs;
        return Err(verified.error);
      }
      if !verified.value.found {
        problems := problems + [BlobMissing(logs[k].handle)];
      } else if !verified.value.digestMatches {
        problems := problems + [BlobMismatch(logs[k].handle)];
      }
      blobs := blobs + [verified.value];
      LogWarrantNext(sha, fs, logs, k);
    }
    assert logs[..|logs|] == logs;
    r := Ok((blobs, problems));
  }

  /** `verify_receipt`: an error only for a digest that cannot name a blob, and otherwise exactly the problems that are
      warranted, the state of every log, and a `valid` that means the receipt is sound. */
  method VerifyReceipt(sha: Sha256, canonical: Canonical, fs: FS, receipt: Receipt) returns (r: Result<Report, TaskError>)
    requires fs.Valid()
    ensures r.Err? ==> r.error == RECEIPT_ERROR
    ensures r.Ok? <==> Nameable(receipt.payload.checks)
    ensures r.Ok? ==> forall problem :: problem in r.value.problems <==> Warranted(sha, canonical, fs, receipt, problem)
    ensures r.Ok? ==> (r.value.valid <==> Sound(sha, canonical, fs, receipt)) && (r.value.problems == [] <==> r.value.valid)
    ensures r.Ok? ==>
      && (r.value.schemaSupported <==> receipt.payload.schemaVersion == RECEIPT_SCHEMA_VERSION)
      && (r.value.digestMatches <==> receipt.canonicalDigest == Sha256Hex(sha, canonical(receipt.payload)))
      && (r.value.idMatches <==> !IdentityWarrants(sha, canonical, receipt, IdNotDerived))
    ensures r.Ok? ==>
      var logs := LogReferences(receipt.payload.checks);
      |r.value.blobs| == |logs| && forall k :: 0 <= k < |logs| ==> BlobReported(sha, fs, logs[k], r.value.blobs[k])
  {
    var problems, schemaSupported, digestMatches, idMatches := IdentityProblems(sha, canonical, receipt);
    var semantics := VerifySemantics(receipt.payload);
    var logs := LogReferences(receipt.payload.checks);
    ListedDigests(receipt.payload.checks);
    var verified := VerifyLogs(sha, fs, logs);
    if verified.Err? {
      return Err(verified.error);
    }
    problems := problems + semantics + verified.value.1;
    forall problem ensures problem in problems <==> Warranted(sha, canonical, fs, receipt, problem) {
      ListedProblems(sha, fs, receipt.payload.checks, problem);
    }
    SoundMeansNoProblem(sha, canonical, fs, receipt);
    NoneMeansEmpty(problems);
    var valid := schemaSupported && digestMatches && idMatches && problems == [];
    r := Ok(Report(valid, schemaSupported, digestMatches, idMatches, verified.value.0, problems));
  }

  lemma NoneMeansEmpty(problems: seq<Problem>)
    ensures problems == [] <==> forall problem :: problem !in problems
  {
    if problems != [] {
      assert problems[0] in problems;
    }
  }

  lemma ExecutedIds(p: ReceiptPayload, ids: seq<string>)
    requires |ids| == |p.checks| && forall i :: 0 <= i < |ids| ==> p.checks[i].check.id == ids[i]
    ensures ExecutedSet(p) == (set id | id in ids)
  {
    forall id | id in ExecutedSet(p) ensures id in ids {
      var i :| 0 <= i < |p.checks| && p.checks[i].check.id == id;
      assert ids[i] == id;
    }
    forall id | id in ids ensures id in ExecutedSet(p) {
      var i :| 0 <= i < |ids| && ids[i] == id;
      assert p.checks[i] in p.checks;
    }
  }

  lemma IdSet(checks: seq<CheckDefinition>, ids: seq<string>)
    requires |ids| == |checks| && forall i :: 0 <= i < |ids| ==> checks[i].id == ids[i]
    ensures (set check | check in checks :: check.id) == (set id | id in ids)
  {
    forall id | id in ids ensures id in (set check | check in checks :: check.id) {
      var i :| 0 <= i < |ids| && ids[i] == id;
      assert checks[i] in checks;
    }
    forall check | check in checks ensures check.id in ids {
      var i :| 0 <= i < |checks| && checks[i] == check;
      assert ids[i] == check.id;
    }
  }

  /** The records of a run are exactly the selected checks, each once. */
  lemma ExecutedIsSelected(discovery: DiscoveryReport, inv: Invocation, p: ReceiptPayload)
    requires Aligned(discovery) && p.discovery == discovery
    requires |p.checks| == |SelectedChecks(discovery)| && Recorded(inv, SelectedChecks(discovery), p.checks)
    ensures SelectedSet(p) == ExecutedSet(p) && |ExecutedSet(p)| == |p.checks|
  {
    var checks := SelectedChecks(discovery);
    SelectedIds(discovery);
    var ids := Ids(checks);
    SortedIsDistinct(ids);
    DistinctCount(ids);
    assert Elements(ids) == (set id | id in ids);
    ExecutedIds(p, ids);
    IdSet(checks, ids);
  }

  lemma StoredLogsAreSound(sha: Sha256, fs: FS, e: CheckExecution)
    requires fs.Valid() && LogsStored(sha, fs, e) && Countable(e) && (e.stdout.Some? <==> e.stderr.Some?)
    requires e.startedUnixMs <= e.completedUnixMs
    ensures ExecutionSound(e) && LogsSound(sha, fs, e)
  {
  }

  /** Recorded checks with stored logs satisfy what the verifier asks of each execution and each log. */
  lemma {:induction false} RecordsAreSound(sha: Sha256, fs: FS, inv: Invocation, checks: seq<CheckDefinition>, executions: seq<CheckExecution>)
    requires fs.Valid() && |executions| == |checks| && Recorded(inv, checks, executions) && AllLogsStored(sha, fs, executions)
    requires forall e :: e in executions ==> Countable(e)
    ensures Nameable(executions)
    ensures forall i :: 0 <= i < |executions| ==> ExecutionSound(executions[i]) && LogsSound(sha, fs, executions[i])
  {
    forall i | 0 <= i < |executions| ensures ExecutionSound(executions[i]) && LogsSound(sha, fs, executions[i]) {
      assert executions[i] in executions && Describes(inv, executions[i]) && LogsStored(sha, fs, executions[i]);
      StoredLogsAreSound(sha, fs, executions[i]);
    }
  }

  /** Producer and verifier agree: over an unaltered store, a receipt `run_checks` built is sound exactly when it
      is not the case that the token was raised while no check was recorded as cancelled. */
  lemma ProducerVerifierAgreement(sha: Sha256, canonical: Canonical, fs: FS, discovery: DiscoveryReport, inv: Invocation,
                                  sourceAfter: SourceIdentity, cancelled: bool, receipt: Receipt)
    requires fs.Valid() && Aligned(discovery)
    requires Attests(sha, canonical, discovery, inv, sourceAfter, cancelled, receipt)
    requires AllLogsStored(sha, fs, receipt.payload.checks)
    requires forall e :: e in receipt.payload.checks ==> Countable(e)
    ensures Nameable(receipt.payload.checks)
    ensures Sound(sha, canonical, fs, receipt) <==> !(cancelled && !AnyOutcome(receipt.payload.checks, Cancelled))
  {
    var p := receipt.payload;
    DerivedShapes(sha, canonical(p));
    ExecutedIsSelected(discovery, inv, p);
    RecordsAreSound(sha, fs, inv, SelectedChecks(discovery), p.checks);
  }

  /** The outcome the verifier expects, from the records, the gaps and the source comparison alone. */
  lemma ExpectedOutcomeMeans(p: ReceiptPayload)
    ensures SemanticsSound(p) ==> WarrantedOutcome(p.outcome, p.checks, p.coverageGaps, false, p.source == p.sourceAfter)
    ensures OutcomeWarrants(p, OutcomeInconsistent) <==> !WarrantedOutcome(p.outcome, p.checks, p.coverageGaps, false, p.sourceUnchanged)
  {
    OutcomeIsWarranted(p.outcome, p.checks, p.coverageGaps, false, p.sourceUnchanged);
  }

  /** A log that is missing, altered or badly named is reported, whichever stream of whichever execution it is of. */
  lemma {:induction false} BadLogsAreReported(sha: Sha256, canonical: Canonical, fs: FS, receipt: Receipt, i: nat, log: LogReference)
    requires fs.Valid() && i < |receipt.payload.checks|
    requires receipt.payload.checks[i].stdout == Some(log) || receipt.payload.checks[i].stderr == Some(log)
    ensures !fs.Exists(BlobPath(log.digest)) ==> Warranted(sha, canonical, fs, receipt, BlobMissing(log.handle))
    ensures fs.Exists(BlobPath(log.digest))
            && (|fs.Read(BlobPath(log.digest))| != log.bytes || Sha256Hex(sha, fs.Read(BlobPath(log.digest))) != log.digest) ==>
              Warranted(sha, canonical, fs, receipt, BlobMismatch(log.handle))
    ensures log.algorithm != "sha256" || log.handle != "sha256:" + log.digest || !ValidSha256(log.digest) ==>
              Warranted(sha, canonical, fs, receipt, InvalidLogReference(receipt.payload.checks[i].check.id))
  {
    var e := receipt.payload.checks[i];
    if !fs.Exists(BlobPath(log.digest)) {
      assert EitherWarrants(sha, fs, e, BlobMissing(log.handle));
    } else if !LogSound(sha, fs, log) {
      assert EitherWarrants(sha, fs, e, BlobMismatch(log.handle));
    }
    if !ReferenceValid(log) {
      assert CheckWarrants(e, InvalidLogReference(e.check.id));
    }
  }

  /** What a Passed receipt means for the execution itself. */
  lemma PassedMeansExecuted(sha: Sha256, canonical: Canonical, discovery: DiscoveryReport, inv: Invocation,
                            sourceAfter: SourceIdentity, cancelled: bool, receipt: Receipt)
    requires Attests(sha, canonical, discovery, inv, sourceAfter, cancelled, receipt)
    requires receipt.payload.outcome.ReceiptPassed?
    ensures !cancelled && sourceAfter == discovery.source
    ensures SelectedChecks(discovery) != [] && discovery.coverageGaps == []
    ensures |receipt.payload.checks| == |SelectedChecks(discovery)|
    ensures forall i :: 0 <= i < |receipt.payload.checks| ==>
      var e := receipt.payload.checks[i];
      && e.check == SelectedChecks(discovery)[i] && e.outcome.Passed? && e.exitCode == Some(0)
      && (Countable(e) ==> LogBytes(e) <= inv.maxLogBytes)
  {
    forall i | 0 <= i < |receipt.payload.checks| ensures Describes(inv, receipt.payload.checks[i]) {
    }
  }
}
