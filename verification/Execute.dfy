/** `execute_check` (src/execute.rs): one check from its capture files to its execution record. */
module Execute {
  import opened Basics
  import opened FileSystem
  import opened Hex
  import opened Model
  import opened Lifecycle
  import opened World
  import opened BlobStore
  import opened StateStore

  function Reference(digest: string, bytes: nat): LogReference {
    LogReference("sha256", digest, bytes, "sha256:" + digest, "raw", "potentially_sensitive")
  }

  /** The reference has the published shape and, unless its count saturated, names a stored log it matches. */
  predicate LogStored(sha: Sha256, fs: FS, log: LogReference)
    requires fs.Valid()
  {
    && log == Reference(log.digest, log.bytes) && ValidSha256(log.digest)
    && fs.Exists(BlobPath(log.digest))
    && (log.bytes < U64_MAX ==> BlobMatches(sha, fs.Read(BlobPath(log.digest)), log.digest, log.bytes))
  }

  /** Neither byte count of the record, nor their sum, reached the top of a u64. */
  predicate Countable(e: CheckExecution) {
    e.stdout.Some? && e.stderr.Some? ==> e.stdout.value.bytes + e.stderr.value.bytes < U64_MAX
  }

  function LogBytes(e: CheckExecution): nat {
    (if e.stdout.Some? then e.stdout.value.bytes else 0) + (if e.stderr.Some? then e.stderr.value.bytes else 0)
  }

  /** What a record says about the check it describes. */
  predicate Describes(inv: Invocation, e: CheckExecution) {
    && e.startedUnixMs <= e.completedUnixMs && e.durationMs == e.completedUnixMs - e.startedUnixMs
    && (e.stdout.Some? <==> e.stderr.Some?)
    && (e.stdout.None? <==> e.outcome.SpawnFailed? || e.outcome.Skipped?)
    && (e.outcome.TimedOut? ==> e.durationMs >= inv.maxRuntimeMs)
    && (Countable(e) ==>
          && (e.outcome.Passed? || e.outcome.Failed? ==> LogBytes(e) <= inv.maxLogBytes)
          && (e.outcome.LogLimitExceeded? ==> LogBytes(e) > inv.maxLogBytes)
          && (LogBytes(e) > inv.maxLogBytes ==> e.outcome in {LogLimitExceeded, TimedOut, Cancelled}))
    && (e.outcome.Passed? ==> e.exitCode == Some(0))
    && (e.outcome.Failed? ==> e.exitCode != Some(0))
    && (e.stdout.None? ==> e.exitCode.None? && !e.summariesTruncated)
    && (e.stdout.Some? && e.stderr.Some? ==>
          (e.summariesTruncated <==> e.stdout.value.bytes > SUMMARY_BYTES || e.stderr.value.bytes > SUMMARY_BYTES))
  }

  predicate LogsStored(sha: Sha256, fs: FS, e: CheckExecution)
    requires fs.Valid()
  {
    && (e.stdout.Some? ==> LogStored(sha, fs, e.stdout.value))
    && (e.stderr.Some? ==> LogStored(sha, fs, e.stderr.value))
  }

  predicate InStore(p: Path) {
    p.dir in {TEMP_DIR, BLOB_DIR, RECEIPT_DIR}
  }

  /** Nothing already on disk changed and everything new is inside the state store. */
  ghost predicate Grows(before: FS, after: FS) {
    && (forall p :: p in before.names ==> before.Keeps(after, p))
    && (forall p :: p in after.names && p !in before.names ==> InStore(p))
  }

  lemma GrowsTransitive(a: FS, b: FS, c: FS)
    requires Grows(a, b) && Grows(b, c)
    ensures Grows(a, c)
  {
  }

  lemma GrowthKeepsLogs(sha: Sha256, a: FS, b: FS, e: CheckExecution)
    requires a.Valid() && b.Valid() && Grows(a, b) && LogsStored(sha, a, e)
    ensures LogsStored(sha, b, e)
  {
  }

  function ExitCode(status: Status): Option<int> {
    match status case Exited(code) => Some(code) case Signalled(_) => None
  }

  /** The outcome once both threads are joined: a forced one, else the log limit, else the exit status. */
  function FinalOutcome(forced: Option<CheckOutcome>, total: nat, maxLogBytes: nat, status: Status): CheckOutcome {
    if forced.Some? then forced.value
    else if total > maxLogBytes then LogLimitExceeded
    else if status == Exited(0) then Passed
    else Failed
  }

  /** A forced or derived outcome is right about the log limit, whatever the interleaving was. */
  lemma OutcomeRespectsLimit(max: nat, s: Sys, forced: Option<CheckOutcome>, status: Status)
    requires Lifecycle.Inv(max, s) && Joined(s) && Lifecycle.Countable(s)
    requires forced.Some? ==> forced.value in {Cancelled, LogLimitExceeded, TimedOut}
    requires forced == Some(LogLimitExceeded) ==> s.limit
    ensures var outcome := FinalOutcome(forced, s.total, max, status);
            var bytes := |s.out.stream| + |s.err.stream|;
            && (outcome.Passed? || outcome.Failed? ==> bytes <= max)
            && (outcome.LogLimitExceeded? ==> bytes > max)
            && (bytes > max ==> outcome in {LogLimitExceeded, TimedOut, Cancelled})
  {
    JoinedCapture(s.out);
    JoinedCapture(s.err);
  }

  /** The store machine's view of a capture whose log has been stored. */
  function Stored(temporary: Path, capture: Capture, log: LogReference): BlobStore.Phase {
    Finished(temporary, capture.file, Ok(BlobPath(log.digest)))
  }

  /** The store already has another content, or a damaged one, under the digest of this capture's log. */
  predicate Conflicts(sha: Sha256, fs: FS, capture: Capture)
    requires fs.Valid()
  {
    var target := Target(sha, capture.file);
    fs.Exists(target) && !BlobMatches(sha, fs.Read(target), target.name, capture.bytes)
  }

  method PersistCapture(w: World, store: Store, sha: Sha256, temporary: Path, capture: Capture)
    returns (r: Result<LogReference, TaskError>)
    requires w.Valid() && store.fs.Valid() && CaptureInv(capture) && capture.phase.Closed?
    requires temporary.dir == TEMP_DIR && store.fs.Exists(temporary) && store.fs.Read(temporary) == capture.file
    modifies w`turn, w`sys, store`fs
    ensures w.Valid() && Evolves(old(w.sys), w.sys) && store.fs.Valid() && store.fs.data == old(store.fs).data
    ensures Extends(old(store.fs), store.fs, {temporary}, (p: Path) => p.dir == BLOB_DIR)
    ensures r.Ok? ==> !store.fs.Exists(temporary)
    ensures r.Err? ==> !w.Faultless() || Conflicts(sha, store.fs, capture)
    ensures r.Ok? ==> LogStored(sha, store.fs, r.value) && r.value == Reference(Sha256Hex(sha, capture.file), capture.bytes)
    ensures r.Ok? && capture.bytes < U64_MAX ==>
              Reaches(sha, Alone(old(store.fs), Storing(temporary, capture.file)),
                      Alone(store.fs, Stored(temporary, capture, r.value)))
    ensures r.Err? ==> Plain(r.error)
  {
    var digest := Sha256Hex(sha, capture.hashed);
    DerivedShapes(sha, capture.hashed);
    var before := w.sys;
    var linkFault := w.Faulty();
    var middle := w.sys;
    var readFault := w.Faulty();
    EvolvesTransitive(before, middle, w.sys);
    middle := w.sys;
    var removeFault := w.Faulty();
    EvolvesTransitive(before, middle, w.sys);
    var stored := store.StoreBlob(sha, temporary, digest, capture.bytes, linkFault, readFault, removeFault);
    if stored.Err? {
      return Err(stored.error);
    }
    r := Ok(Reference(digest, capture.bytes));
  }

  /** Nothing but blobs was added, and the given names are gone. */
  ghost predicate OnlyBlobs(before: FS, after: FS, gone: set<Path>) {
    forall p :: p in after.names ==> p !in gone && (p in before.names || p.dir == BLOB_DIR)
  }

  /** Removing a file that was just created restores the disk, and creating two adds just those. */
  lemma CreatedOne(before: FS)
    requires before.Valid()
    ensures forall path :: !before.Exists(path) && path.dir == TEMP_DIR ==>
              before.CreateNew(path).Valid() && Grows(before, before.CreateNew(path).Remove(path))
  {
  }

  lemma CreatedBoth(before: FS, out: Path, err: Path)
    requires before.Valid() && !before.Exists(out) && !before.CreateNew(out).Exists(err)
    requires out.dir == TEMP_DIR && err.dir == TEMP_DIR
    ensures var after := before.CreateNew(out).CreateNew(err);
            && after.Valid() && Grows(before, after) && after.names.Keys == before.names.Keys + {out, err}
            && Opened(before, after, out, |before.data|) && Opened(before, after, err, |before.data| + 1) && out != err
  {
  }

  /** Two fresh capture files for one check; the first is removed when the second cannot be created. */
  method CreateCaptureFiles(w: World, store: Store, ghost sha: Sha256)
    returns (r: Result<((Path, nat), (Path, nat)), TaskError>)
    requires w.Valid() && store.fs.Valid()
    modifies w`turn, w`sys, store
    ensures w.Valid() && Later(old(w.sys), w.sys) && store.fs.Valid() && Grows(old(store.fs), store.fs)
    ensures r.Err? ==> Plain(r.error) && (!w.Faultless() || !old(store.LogsFree()))
    ensures store.sequence >= old(store.sequence)
    ensures r.Ok? ==> store.fs.names.Keys == old(store.fs).names.Keys + {r.value.0.0, r.value.1.0}
    ensures r.Ok? ==>
      var ((outPath, outInode), (errPath, errInode)) := r.value;
      Opened(old(store.fs), store.fs, outPath, outInode) && Opened(old(store.fs), store.fs, errPath, errInode)
      && outPath != errPath && outInode != errInode
      && Reaches(sha, State(old(store.fs), [Allocating(0), Allocating(0)]),
                 State(store.fs, [Capturing(outPath, outInode, []), Capturing(errPath, errInode, [])]))
  {
    ghost var before := store.fs;
    CreatedOne(before);
    var turn := w.turn;
    if store.LogsFree() {
      store.FreeIsNotExhausted(store.fs, store.sequence, "stdout");
    }
    var out := store.CreateCaptureFile(sha, "stdout", (k: nat) => w.faults(turn + k));
    if out.Err? {
      return Err(out.error);
    }
    ghost var between := store.fs;
    if old(store.LogsFree()) {
      store.StderrNotExhausted(before, between, old(store.sequence), store.sequence);
    }
    w.Elapse(0);
    turn := w.turn;
    var err := store.CreateCaptureFile(sha, "stderr", (k: nat) => w.faults(turn + k));
    if err.Err? {
      store.RemoveFile(out.value.0);
      return Err(err.error);
    }
    CreatedBoth(before, out.value.0, err.value.0);
    PairMoves(sha, before, Allocating(0), between, Capturing(out.value.0, out.value.1, []),
              Allocating(0), store.fs, Capturing(err.value.0, err.value.1, []));
    r := Ok((out.value, err.value));
  }

  /** A temporary log file opened since `before`, still empty. */
  predicate Opened(before: FS, fs: FS, path: Path, inode: nat) {
    && path.dir == TEMP_DIR && !before.Exists(path) && fs.Exists(path)
    && fs.names[path] == inode && |before.data| <= inode < |fs.data| && fs.data[inode] == []
  }

  lemma WriteGrows(before: FS, fs: FS, path: Path, inode: nat, bytes: Bytes)
    requires before.Valid() && fs.Valid() && Grows(before, fs) && Opened(before, fs, path, inode)
    ensures var fs' := fs.Append(inode, bytes); fs'.Valid() && Grows(before, fs') && fs'.Read(path) == bytes
  {
    assert [] + bytes == bytes;
  }

  lemma PersistGrows(before: FS, a: FS, b: FS, temporary: Path)
    requires before.Valid() && Grows(before, a) && !before.Exists(temporary)
    requires Extends(a, b, {temporary}, (p: Path) => p.dir == BLOB_DIR)
    ensures Grows(before, b)
  {
  }

  lemma PersistOnly(before: FS, a: FS, b: FS, gone: set<Path>, temporary: Path)
    requires OnlyBlobs(before, a, gone) && Extends(a, b, {temporary}, (p: Path) => p.dir == BLOB_DIR)
    requires !b.Exists(temporary) && forall p :: p in gone ==> p.dir == TEMP_DIR
    ensures OnlyBlobs(before, b, gone + {temporary})
  {
  }

  lemma PersistBoth(written: FS, stored: FS, end: FS, outPath: Path, errPath: Path)
    requires Extends(written, stored, {outPath}, (p: Path) => p.dir == BLOB_DIR) && !stored.Exists(outPath)
    requires Extends(stored, end, {errPath}, (p: Path) => p.dir == BLOB_DIR) && !end.Exists(errPath)
    requires outPath.dir == TEMP_DIR
    ensures OnlyBlobs(written, end, {outPath, errPath})
  {
    PersistOnly(written, written, stored, {}, outPath);
    PersistOnly(written, stored, end, {} + {outPath}, errPath);
    assert {} + {outPath} + {errPath} == {outPath, errPath};
  }

  lemma PersistPath(sha: Sha256, fs: FS, outPath: Path, outInode: nat, out: Bytes, errPath: Path, errInode: nat, err: Bytes)
    requires fs.Valid() && outInode < |fs.data| && errInode < |fs.data|
    ensures var written := fs.Append(outInode, out).Append(errInode, err);
            && written.Valid()
            && Reaches(sha, State(fs, [Capturing(outPath, outInode, []), Capturing(errPath, errInode, [])]),
                       State(written, [Storing(outPath, out), Storing(errPath, err)]))
  {
    CapturedAlone(sha, fs, outPath, outInode, out);
    CapturedAlone(sha, fs.Append(outInode, out), errPath, errInode, err);
    PairMoves(sha, fs, Capturing(outPath, outInode, []), fs.Append(outInode, out), Storing(outPath, out),
              Capturing(errPath, errInode, []), fs.Append(outInode, out).Append(errInode, err), Storing(errPath, err));
  }

  /** The writes both capture threads made to their open files. */
  method WriteLogs(store: Store, ghost sha: Sha256, ghost before: FS, outPath: Path, outInode: nat,
                   errPath: Path, errInode: nat, out: Bytes, err: Bytes)
    requires before.Valid() && store.fs.Valid() && Grows(before, store.fs)
    requires Opened(before, store.fs, outPath, outInode) && Opened(before, store.fs, errPath, errInode)
    requires outPath != errPath && outInode != errInode
    modifies store`fs
    ensures store.fs.Valid() && Grows(before, store.fs) && store.fs.names == old(store.fs).names
    ensures store.fs.Exists(outPath) && store.fs.Read(outPath) == out
    ensures store.fs.Exists(errPath) && store.fs.Read(errPath) == err
    ensures Reaches(sha, State(old(store.fs), [Capturing(outPath, outInode, []), Capturing(errPath, errInode, [])]),
                    State(store.fs, [Storing(outPath, out), Storing(errPath, err)]))
  {
    PersistPath(sha, store.fs, outPath, outInode, out, errPath, errInode, err);
    WriteGrows(before, store.fs, outPath, outInode, out);
    store.WriteCapture(outInode, out);
    WriteGrows(before, store.fs, errPath, errInode, err);
    store.WriteCapture(errInode, err);
  }

  /** Both logs reach the store and nothing else on disk changes. */
  method PersistCaptures(w: World, store: Store, sha: Sha256, ghost before: FS,
                         outPath: Path, outInode: nat, errPath: Path, errInode: nat, out: Capture, err: Capture)
    returns (r: Result<(LogReference, LogReference), TaskError>)
    requires w.Valid() && before.Valid() && store.fs.Valid() && Grows(before, store.fs)
    requires Opened(before, store.fs, outPath, outInode) && Opened(before, store.fs, errPath, errInode)
    requires outPath != errPath && outInode != errInode
    requires CaptureInv(out) && out.phase.Closed? && CaptureInv(err) && err.phase.Closed?
    modifies w`turn, w`sys, store`fs
    ensures w.Valid() && Evolves(old(w.sys), w.sys) && store.fs.Valid() && Grows(before, store.fs)
    ensures r.Ok? ==> LogStored(sha, store.fs, r.value.0) && r.value.0 == Reference(Sha256Hex(sha, out.file), out.bytes)
    ensures r.Ok? ==> LogStored(sha, store.fs, r.value.1) && r.value.1 == Reference(Sha256Hex(sha, err.file), err.bytes)
    ensures r.Ok? ==> OnlyBlobs(old(store.fs), store.fs, {outPath, errPath})
    ensures r.Err? ==> !w.Faultless() || Conflicts(sha, store.fs, out) || Conflicts(sha, store.fs, err)
    ensures r.Ok? && out.bytes < U64_MAX && err.bytes < U64_MAX ==>
              Reaches(sha, State(old(store.fs), [Capturing(outPath, outInode, []), Capturing(errPath, errInode, [])]),
                      State(store.fs, [Stored(outPath, out, r.value.0), Stored(errPath, err, r.value.1)]))
    ensures r.Err? ==> Plain(r.error)
  {
    ghost var start := store.fs;
    WriteLogs(store, sha, before, outPath, outInode, errPath, errInode, out.file, err.file);
    ghost var written := store.fs;
    r := PersistLogs(w, store, sha, before, outPath, errPath, out, err);
    if r.Ok? && out.bytes < U64_MAX && err.bytes < U64_MAX {
      ReachesTransitive(sha, State(start, [Capturing(outPath, outInode, []), Capturing(errPath, errInode, [])]),
                        State(written, [Storing(outPath, out.file), Storing(errPath, err.file)]),
                        State(store.fs, [Stored(outPath, out, r.value.0), Stored(errPath, err, r.value.1)]));
    }
  }

  /** Stores the two written logs, stdout first. */
  method PersistLogs(w: World, store: Store, sha: Sha256, ghost before: FS, outPath: Path, errPath: Path,
                     out: Capture, err: Capture)
    returns (r: Result<(LogReference, LogReference), TaskError>)
    requires w.Valid() && before.Valid() && store.fs.Valid() && Grows(before, store.fs)
    requires outPath.dir == TEMP_DIR && !before.Exists(outPath) && store.fs.Exists(outPath) && store.fs.Read(outPath) == out.file
    requires errPath.dir == TEMP_DIR && !before.Exists(errPath) && store.fs.Exists(errPath) && store.fs.Read(errPath) == err.file
    requires outPath != errPath
    requires CaptureInv(out) && out.phase.Closed? && CaptureInv(err) && err.phase.Closed?
    modifies w`turn, w`sys, store`fs
    ensures w.Valid() && Evolves(old(w.sys), w.sys) && store.fs.Valid() && Grows(before, store.fs)
    ensures r.Ok? ==> LogStored(sha, store.fs, r.value.0) && r.value.0 == Reference(Sha256Hex(sha, out.file), out.bytes)
    ensures r.Ok? ==> LogStored(sha, store.fs, r.value.1) && r.value.1 == Reference(Sha256Hex(sha, err.file), err.bytes)
    ensures r.Ok? ==> OnlyBlobs(old(store.fs), store.fs, {outPath, errPath})
    ensures r.Err? ==> !w.Faultless() || Conflicts(sha, store.fs, out) || Conflicts(sha, store.fs, err)
    ensures r.Ok? && out.bytes < U64_MAX && err.bytes < U64_MAX ==>
              Reaches(sha, State(old(store.fs), [Storing(outPath, out.file), Storing(errPath, err.file)]),
                      State(store.fs, [Stored(outPath, out, r.value.0), Stored(errPath, err, r.value.1)]))
    ensures r.Err? ==> Plain(r.error)
  {
    ghost var written, sys := store.fs, w.sys;
    var first := PersistCapture(w, store, sha, outPath, out);
    PersistGrows(before, written, store.fs, outPath);
    if first.Err? {
      return Err(first.error);
    }
    ghost var stored, middle := store.fs, w.sys;
    assert written.Keeps(stored, errPath);
    var second := PersistCapture(w, store, sha, errPath, err);
    EvolvesTransitive(sys, middle, w.sys);
    PersistGrows(before, stored, store.fs, errPath);
    if second.Err? {
      return Err(second.error);
    }
    PersistBoth(written, stored, store.fs, outPath, errPath);
    assert stored.Keeps(store.fs, BlobPath(first.value.digest));
    if out.bytes < U64_MAX && err.bytes < U64_MAX {
      PairMoves(sha, written, Storing(outPath, out.file), stored, Stored(outPath, out, first.value),
                Storing(errPath, err.file), store.fs, Stored(errPath, err, second.value));
    }
    r := Ok((first.value, second.value));
  }

  lemma StillForced(s: Sys, s': Sys, ended: Ended, started: nat, inv: Invocation)
    requires Evolves(s, s') && ForcedFor(s, ended, started, inv)
    ensures ForcedFor(s', ended, started, inv)
  {
  }

  /** Joins the two capture threads in the source's order. */
  method JoinBoth(w: World) returns (r: Result<Unit, TaskError>)
    requires w.Valid() && !Live(w.sys)
    modifies w`turn, w`sys
    ensures w.Valid() && Evolves(old(w.sys), w.sys)
    ensures r.Err? ==> r.error == EXECUTION_ERROR && !w.Unbroken()
    ensures r.Ok? ==> Joined(w.sys) && !Live(w.sys)
  {
    ghost var before := w.sys;
    var out := w.Join(Stdout);
    if out.Err? {
      return Err(out.error);
    }
    ghost var middle := w.sys;
    var err := w.Join(Stderr);
    EvolvesTransitive(before, middle, w.sys);
    r := if err.Err? then Err(err.error) else Ok(Unit);
  }

  /** Spawns the check, waits for it and joins both capture threads. */
  method Supervise(w: World, started: nat, inv: Invocation)
    returns (r: Result<(Option<CheckOutcome>, Status), TaskError>, ghost ended: Ended)
    requires w.Valid() && started <= w.sys.now && w.max == inv.maxLogBytes
    modifies w
    ensures w.Valid()
    ensures old(w.sys).now <= w.sys.now && (old(w.sys).cancelled ==> w.sys.cancelled)
    ensures r.Err? ==> r.error == EXECUTION_ERROR && !(w.Faultless() && w.Unbroken())
    ensures r.Ok? ==> Joined(w.sys) && !Live(w.sys) && ForcedFor(w.sys, ended, started, inv)
    ensures r.Ok? ==> r.value == (ForcedBy(ended.reason), ended.status) && Decided(ended, started + inv.maxRuntimeMs)
    ensures r.Ok? ==> (w.stopped <==> !ended.reason.LeaderExited?)
  {
    w.Spawn();
    var exit; var polls;
    exit, polls, ended := w.AwaitExit(started, inv.maxRuntimeMs);
    if exit.Err? {
      return Err(exit.error), ended;
    }
    ghost var exited := w.sys;
    assert ForcedFor(exited, ended, started, inv);
    var joined := JoinBoth(w);
    if joined.Err? {
      return Err(joined.error), ended;
    }
    StillForced(exited, w.sys, ended, started, inv);
    r := Ok(exit.value);
  }

  /** What the reason for stopping a check still shows afterwards. */
  predicate ForcedFor(s: Sys, ended: Ended, started: nat, inv: Invocation) {
    match ended.reason
    case LeaderExited => true
    case TokenRaised => s.cancelled
    case LimitRaised => s.limit
    case DeadlinePassed => s.now >= started + inv.maxRuntimeMs
  }

  /** The record carries the reason the check was stopped for; of a check that was not stopped, it carries what the
      leader's own exit and the byte limit say. */
  predicate Follows(inv: Invocation, ended: Ended, e: CheckExecution) {
    && e.exitCode == (match ended.status case Exited(code) => Some(code) case Signalled(_) => None)
    && match ended.reason
       case TokenRaised => e.outcome.Cancelled?
       case LimitRaised => e.outcome.LogLimitExceeded?
       case DeadlinePassed => e.outcome.TimedOut?
       case LeaderExited =>
         && e.outcome in {Passed, Failed, LogLimitExceeded}
         && (!e.outcome.LogLimitExceeded? ==> (e.outcome.Passed? <==> ended.status == Exited(0)))
         && (Countable(e) ==> (e.outcome.LogLimitExceeded? <==> LogBytes(e) > inv.maxLogBytes))
  }

  /** The loop ended for a reason it saw, and the record follows from it. */
  predicate Explained(inv: Invocation, ended: Ended, e: CheckExecution) {
    Decided(ended, e.startedUnixMs + inv.maxRuntimeMs) && Follows(inv, ended, e)
  }

  /** So a check recorded as passed or failed was never asked to stop: in every turn of the loop but the last the token
      and the flag were down and time was left, and in the last the leader had exited, with 0 exactly if it passed. */
  lemma NobodyStopped(inv: Invocation, ended: Ended, e: CheckExecution)
    requires Explained(inv, ended, e) && (e.outcome.Passed? || e.outcome.Failed?)
    ensures var n := |ended.polls|;
            && n > 0 && ended.polls[n - 1].exit.leader == Reaped(ended.status)
            && (e.outcome.Passed? <==> ended.status == Exited(0))
            && forall k :: 0 <= k < n - 1 ==>
                 var p := ended.polls[k];
                 p.exit.leader.Running? && !p.token.cancelled && !p.limit.limit
                 && p.clock.now < e.startedUnixMs + inv.maxRuntimeMs
  {
  }

  /** What the record says of the two streams is what was written to them. */
  predicate Logged(sha: Sha256, s: Sys, e: CheckExecution) {
    && e.stdout == Some(Reference(Sha256Hex(sha, s.out.stream), Min(|s.out.stream|, U64_MAX)))
    && e.stderr == Some(Reference(Sha256Hex(sha, s.err.stream), Min(|s.err.stream|, U64_MAX)))
  }

  function Record(check: CheckDefinition, started: nat, s: Sys, outcome: CheckOutcome, status: Status,
                  out: LogReference, err: LogReference): CheckExecution
    requires started <= s.now
  {
    CheckExecution(check, started, s.now, s.now - started, outcome, ExitCode(status),
                   Some(out), Some(err), s.out.truncated || s.err.truncated)
  }

  lemma RecordDescribes(s: Sys, ended: Ended, check: CheckDefinition, started: nat, inv: Invocation,
                        out: LogReference, err: LogReference)
    requires Lifecycle.Inv(inv.maxLogBytes, s) && Joined(s) && ForcedFor(s, ended, started, inv) && started <= s.now
    requires out.bytes == s.out.bytes && err.bytes == s.err.bytes
    ensures var outcome := FinalOutcome(ForcedBy(ended.reason), s.total, inv.maxLogBytes, ended.status);
            var e := Record(check, started, s, outcome, ended.status, out, err);
            Describes(inv, e) && Follows(inv, ended, e)
  {
    JoinedCapture(s.out);
    JoinedCapture(s.err);
    if s.out.bytes + s.err.bytes < U64_MAX {
      OutcomeRespectsLimit(inv.maxLogBytes, s, ForcedBy(ended.reason), ended.status);
    }
  }

  /** Removes both capture files of a check that could not be spawned. */
  method Discard(store: Store, ghost before: FS, outPath: Path, errPath: Path)
    requires store.fs.Valid() && Grows(before, store.fs) && !before.Exists(outPath) && !before.Exists(errPath)
    requires store.fs.names.Keys == before.names.Keys + {outPath, errPath}
    modifies store`fs
    ensures store.fs.Valid() && Grows(before, store.fs) && OnlyBlobs(before, store.fs, {})
  {
    store.RemoveFile(outPath);
    store.RemoveFile(errPath);
  }

  lemma RecordOnly(before: FS, ready: FS, end: FS, outPath: Path, errPath: Path)
    requires ready.names.Keys == before.names.Keys + {outPath, errPath} && OnlyBlobs(ready, end, {outPath, errPath})
    ensures OnlyBlobs(before, end, {})
  {
    forall p | p in end.names ensures p in before.names || p.dir == BLOB_DIR {
      assert p in ready.names ==> p in ready.names.Keys;
    }
  }

  /** The store machine, begun from scratch for two captures, ends with both logs of the record in the store. */
  ghost predicate IsCapturePath(sha: Sha256, start: State, after: FS, e: CheckExecution)
    requires start.fs.Valid()
  {
    && e.stdout.Some? && e.stderr.Some?
    && exists outPath, errPath, out, err ::
         Reaches(sha, start, State(after, [Stored(outPath, out, e.stdout.value), Stored(errPath, err, e.stderr.value)]))
  }

  lemma CapturePathExtends(sha: Sha256, start: State, middle: State, after: FS, e: CheckExecution)
    requires start.fs.Valid() && middle.fs.Valid()
    requires Reaches(sha, start, middle) && IsCapturePath(sha, middle, after, e)
    ensures IsCapturePath(sha, start, after, e)
  {
    var outPath, errPath, out, err :|
      Reaches(sha, middle, State(after, [Stored(outPath, out, e.stdout.value), Stored(errPath, err, e.stderr.value)]));
    ReachesTransitive(sha, start, middle,
                      State(after, [Stored(outPath, out, e.stdout.value), Stored(errPath, err, e.stderr.value)]));
  }

  /** Why a check can fail to give a record although its temporary names are free: a system call or a capture thread
      failed, or the store has something else under the digest of a log. */
  ghost predicate Hindered(w: World, sha: Sha256, fs: FS)
    requires fs.Valid()
    reads w
  {
    !w.Faultless() || !w.Unbroken() || Conflicts(sha, fs, w.sys.out) || Conflicts(sha, fs, w.sys.err)
  }

  /** From the two open capture files to the record. */
  method RunAndRecord(w: World, store: Store, sha: Sha256, ghost before: FS, check: CheckDefinition, inv: Invocation,
                      started: nat, outPath: Path, outInode: nat, errPath: Path, errInode: nat)
    returns (r: Result<CheckExecution, TaskError>, ghost ended: Ended)
    requires w.Valid() && w.max == inv.maxLogBytes && started <= w.sys.now
    requires before.Valid() && store.fs.Valid() && Grows(before, store.fs)
    requires Opened(before, store.fs, outPath, outInode) && Opened(before, store.fs, errPath, errInode)
    requires outPath != errPath && outInode != errInode
    modifies w, store`fs
    ensures w.Valid() && store.fs.Valid() && Grows(before, store.fs)
    ensures old(w.sys).now <= w.sys.now && (old(w.sys).cancelled ==> w.sys.cancelled)
    ensures r.Err? ==> Plain(r.error) && Hindered(w, sha, store.fs)
    ensures r.Ok? ==> IsRecord(sha, inv, check, started, w.sys, ended, r.value) && LogsStored(sha, store.fs, r.value)
    ensures r.Ok? ==> OnlyBlobs(old(store.fs), store.fs, {outPath, errPath})
    ensures r.Ok? ==> (w.stopped <==> !ended.reason.LeaderExited?)
    ensures r.Ok? && Countable(r.value) ==>
              IsCapturePath(sha, State(old(store.fs), [Capturing(outPath, outInode, []), Capturing(errPath, errInode, [])]),
                            store.fs, r.value)
  {
    var exit;
    exit, ended := Supervise(w, started, inv);
    if exit.Err? {
      return Err(exit.error), ended;
    }
    r := PersistRecord(w, store, sha, before, check, inv, started, exit.value.0, exit.value.1, ended, outPath, outInode,
                       errPath, errInode);
  }

  /** All that is said of a record and the state it was made in. */
  predicate IsRecord(sha: Sha256, inv: Invocation, check: CheckDefinition, started: nat, s: Sys, ended: Ended, e: CheckExecution) {
    && e.check == check && e.startedUnixMs == started && e.completedUnixMs == s.now
    && Describes(inv, e) && Explained(inv, ended, e) && Logged(sha, s, e) && !Live(s)
    && !e.outcome.Skipped? && !e.outcome.SpawnFailed? && (e.outcome.Cancelled? ==> s.cancelled)
  }

  lemma RecordIsRecord(sha: Sha256, inv: Invocation, check: CheckDefinition, started: nat, s: Sys, ended: Ended)
    requires Lifecycle.Inv(inv.maxLogBytes, s) && Joined(s) && !Live(s) && started <= s.now
    requires ForcedFor(s, ended, started, inv) && Decided(ended, started + inv.maxRuntimeMs)
    ensures var out, err := Reference(Sha256Hex(sha, s.out.file), s.out.bytes), Reference(Sha256Hex(sha, s.err.file), s.err.bytes);
            var outcome := FinalOutcome(ForcedBy(ended.reason), s.total, inv.maxLogBytes, ended.status);
            IsRecord(sha, inv, check, started, s, ended, Record(check, started, s, outcome, ended.status, out, err))
  {
    var out, err := Reference(Sha256Hex(sha, s.out.file), s.out.bytes), Reference(Sha256Hex(sha, s.err.file), s.err.bytes);
    RecordDescribes(s, ended, check, started, inv, out, err);
    JoinedCapture(s.out);
    JoinedCapture(s.err);
  }

  /** From the joined threads to the record. */
  method PersistRecord(w: World, store: Store, sha: Sha256, ghost before: FS, check: CheckDefinition, inv: Invocation,
                       started: nat, forced: Option<CheckOutcome>, status: Status, ghost ended: Ended,
                       outPath: Path, outInode: nat, errPath: Path, errInode: nat)
    returns (r: Result<CheckExecution, TaskError>)
    requires w.Valid() && w.max == inv.maxLogBytes && started <= w.sys.now && Joined(w.sys) && !Live(w.sys)
    requires ForcedFor(w.sys, ended, started, inv) && Decided(ended, started + inv.maxRuntimeMs)
    requires forced == ForcedBy(ended.reason) && status == ended.status
    requires before.Valid() && store.fs.Valid() && Grows(before, store.fs)
    requires Opened(before, store.fs, outPath, outInode) && Opened(before, store.fs, errPath, errInode)
    requires outPath != errPath && outInode != errInode
    modifies w`turn, w`sys, store`fs
    ensures w.Valid() && store.fs.Valid() && Grows(before, store.fs) && Evolves(old(w.sys), w.sys)
    ensures r.Err? ==> Plain(r.error) && Hindered(w, sha, store.fs)
    ensures r.Ok? ==> IsRecord(sha, inv, check, started, w.sys, ended, r.value) && LogsStored(sha, store.fs, r.value)
    ensures r.Ok? ==> OnlyBlobs(old(store.fs), store.fs, {outPath, errPath})
    ensures r.Ok? && Countable(r.value) ==>
              IsCapturePath(sha, State(old(store.fs), [Capturing(outPath, outInode, []), Capturing(errPath, errInode, [])]),
                            store.fs, r.value)
  {
    ghost var joined := w.sys;
    var out, err := w.sys.out, w.sys.err;
    var logs := PersistCaptures(w, store, sha, before, outPath, outInode, errPath, errInode, out, err);
    assert w.sys.out == out && w.sys.err == err;
    if logs.Err? {
      return Err(logs.error);
    }
    StillForced(joined, w.sys, ended, started, inv);
    RecordIsRecord(sha, inv, check, started, w.sys, ended);
    var outcome := FinalOutcome(forced, w.sys.total, inv.maxLogBytes, status);
    r := Ok(Record(check, started, w.sys, outcome, status, logs.value.0, logs.value.1));
  }

  /** One check. Whatever the processes, the capture threads, the user and the clock do, a record describes the
      check truthfully and follows from the way the check ended, its logs are in the store and are what the check
      wrote, nothing else is left on disk, and no process of the group outlives the call. There is such a record
      whenever nothing hinders it. */
  method ExecuteCheck(w: World, store: Store, sha: Sha256, check: CheckDefinition, inv: Invocation)
    returns (r: Result<CheckExecution, TaskError>, ghost ended: Option<Ended>)
    requires w.Valid() && store.fs.Valid() && w.max == inv.maxLogBytes
    modifies w, store
    ensures w.Valid() && store.fs.Valid() && Grows(old(store.fs), store.fs)
    ensures old(w.sys).now <= w.sys.now && (old(w.sys).cancelled ==> w.sys.cancelled)
    ensures r.Err? ==> Plain(r.error)
    ensures r.Ok? ==>
      && r.value.check == check && Describes(inv, r.value) && LogsStored(sha, store.fs, r.value)
      && !r.value.outcome.Skipped?
      && old(w.sys).now <= r.value.startedUnixMs && r.value.completedUnixMs <= w.sys.now
      && (r.value.outcome.Cancelled? ==> w.sys.cancelled)
    ensures r.Ok? ==> OnlyBlobs(old(store.fs), store.fs, {})
    ensures r.Ok? ==> (ended.None? <==> r.value.outcome.SpawnFailed?)
    ensures r.Ok? && ended.Some? ==>
      IsRecord(sha, inv, check, r.value.startedUnixMs, w.sys, ended.value, r.value)
      && (w.stopped <==> !ended.value.reason.LeaderExited?)
    ensures r.Ok? && ended.Some? && Countable(r.value) ==>
              IsCapturePath(sha, State(old(store.fs), [Allocating(0), Allocating(0)]), store.fs, r.value)
    ensures store.sequence >= old(store.sequence)
    ensures r.Err? ==> !old(store.LogsFree()) || Hindered(w, sha, store.fs)
    ensures r.Ok? && r.value.outcome.SpawnFailed? ==> !w.Faultless()
  {
    ghost var before := store.fs;
    ended := None;
    var started := w.sys.now;
    var fault := w.Faulty();
    if fault {
      return Err(EXECUTION_ERROR), ended;
    }
    var files := CreateCaptureFiles(w, store, sha);
    if files.Err? {
      return Err(files.error), ended;
    }
    var ((outPath, outInode), (errPath, errInode)) := files.value;
    fault := w.Faulty();
    if fault {
      Discard(store, before, outPath, errPath);
      return Ok(CheckExecution(check, started, w.sys.now, w.sys.now - started, SpawnFailed, None, None, None, false)), ended;
    }
    ghost var ready := store.fs;
    ghost var why;
    r, why := RunAndRecord(w, store, sha, before, check, inv, started, outPath, outInode, errPath, errInode);
    ended := Some(why);
    if r.Ok? {
      RecordOnly(before, ready, store.fs, outPath, errPath);
    }
    if r.Ok? && Countable(r.value) {
      CapturePathExtends(sha, State(before, [Allocating(0), Allocating(0)]),
                         State(ready, [Capturing(outPath, outInode, []), Capturing(errPath, errInode, [])]), store.fs, r.value);
    }
  }

  // A schedule of one check: its process exits with 0 without writing, and both threads meet end of file.

  function QuietStart(): Sys {
    Sys(0, false, Running, {}, EMPTY, EMPTY, 0, false)
  }

  function QuietSchedule(): seq<Event> {
    [LeaderExits(Exited(0)), Read(Stdout, 1), Read(Stderr, 1)]
  }

  function QuietPass(check: CheckDefinition, digest: string): CheckExecution {
    CheckExecution(check, 0, 0, 0, Passed, Some(0), Some(Reference(digest, 0)), Some(Reference(digest, 0)), false)
  }

  /** The machine reaches the state the record of a quiet pass is made of, with the token down, and the token can be
      raised right after it. */
  lemma QuietScheduleReaches(sha: Sha256, max: nat, check: CheckDefinition)
    ensures Spawned(QuietStart())
    ensures var s := ApplyAll(max, QuietStart(), QuietSchedule());
            && Joined(s) && !Live(s) && s.leader == Zombie(Exited(0)) && !s.cancelled && s.now == 0
            && s.out.file == [] && s.err.file == []
            && Record(check, 0, s, FinalOutcome(None, s.total, max, Exited(0)), Exited(0),
                      Reference(Sha256Hex(sha, s.out.hashed), s.out.bytes), Reference(Sha256Hex(sha, s.err.hashed), s.err.bytes))
               == QuietPass(check, Sha256Hex(sha, []))
            && ApplyAll(max, s, [Cancel]) == s.(cancelled := true)
  {
    var schedule, s0 := QuietSchedule(), QuietStart();
    var s1 := s0.(leader := Zombie(Exited(0)));
    var s2 := s1.(out := EMPTY.(phase := Closed));
    var s3 := s2.(err := EMPTY.(phase := Closed));
    assert Apply(max, s0, schedule[0]) == s1 && Apply(max, s1, schedule[1]) == s2 && Apply(max, s2, schedule[2]) == s3;
    assert schedule[1..][0] == schedule[1] && schedule[1..][1..][0] == schedule[2] && schedule[1..][1..][1..] == [];
    assert ApplyAll(max, s2, schedule[1..][1..]) == s3 && ApplyAll(max, s1, schedule[1..]) == s3;
    assert [Cancel][1..] == [];
  }
}
