/** The `run` command (src/main.rs): preflight, discovery, execution, publication and the exit code. */
module Command {
  import opened Basics
  import opened FileSystem
  import opened Hex
  import opened Model
  import opened World
  import opened StateStore
  import opened Execute
  import opened Selection
  import opened Run

  datatype Setting = Setting(sha: Sha256, canonical: Canonical, codec: Codec)

  /** What happened outside the tool: discovery, the second source identification, whoever may create the
      requested path while the checks run, and whether printing the receipt fails. */
  datatype Outside = Outside(discovered: Result<DiscoveryReport, TaskError>, identified: Result<SourceIdentity, TaskError>,
                             occupant: Option<Bytes>, emitFails: bool)

  predicate Honest(o: Outside) {
    (o.discovered.Err? ==> Plain(o.discovered.error)) && (o.identified.Err? ==> Plain(o.identified.error))
  }

  datatype Ending = Ending(exit: nat, error: Option<TaskError>, receipt: Option<Receipt>)

  function Occupy(fs: FS, path: Path, content: Option<Bytes>): FS {
    if content.None? || fs.Exists(path) then fs else fs.CreateNew(path).Append(|fs.data|, content.value)
  }

  ghost predicate HoldsStill(codec: Codec, before: FS, after: FS, receipt: Receipt) {
    Holds(codec, before, receipt) ==> Holds(codec, after, receipt)
  }

  lemma KeepingHolds(codec: Codec, before: FS, after: FS, receipt: Receipt)
    requires before.Valid() && after.Valid()
    requires forall p :: p in before.names ==> before.Keeps(after, p)
    ensures HoldsStill(codec, before, after, receipt)
  {
  }

  /** Exit code 7 is used exactly for an error with a recovery document, and then the receipt is in the store, it is
      the one the recovery document names, and the requested path was not overwritten. */
  ghost predicate ExitMeaning(setting: Setting, out: Option<Path>, occupied: FS, fs: FS, e: Ending) {
    && (e.exit == 7 <==> e.error.Some? && e.error.value.recovery.Some?)
    && (e.error.Some? ==> e.exit == e.error.value.exitCode && 3 <= e.exit <= 7)
    && (e.error.None? ==> e.receipt.Some? && e.exit == if e.receipt.value.payload.outcome.ReceiptPassed? then 0 else 1)
    && (e.receipt.Some? ==> Holds(setting.codec, fs, e.receipt.value))
    && (e.exit == 7 ==> e.receipt.Some? && out.Some?
                        && e.error.value.recovery.value.receiptId == e.receipt.value.receiptId
                        && e.error.value.recovery.value.receiptPersisted
                        && (fs.Exists(out.value) <==> occupied.Exists(out.value)))
    && (e.exit in {0, 1} && out.Some? && e.receipt.Some? ==>
          fs.Valid() && fs.Exists(out.value) && fs.Read(out.value) == Document(setting.codec, e.receipt.value))
  }

  /** Extends what is stored without disturbing it. */
  ghost predicate Preserves(before: FS, after: FS) {
    after.Valid() && forall p :: p in before.names ==> before.Keeps(after, p)
  }

  /** The requested path exists, or has no free temporary name beside it. */
  ghost predicate Blocked(store: Store, fs: FS, out: Path) {
    fs.Exists(out) || exists n: nat :: store.Crowded(fs, out, n)
  }

  /** The standalone copy: success, or the exit-7 error whose recovery document names the stored receipt. */
  method Publish(w: World, store: Store, setting: Setting, out: Path, outside: Outside, receipt: Receipt)
    returns (ending: Ending, ghost occupied: FS)
    requires store.fs.Valid() && Holds(setting.codec, store.fs, receipt)
    modifies store
    ensures w.Faultless() && !outside.emitFails ==> ending.error.None? || Blocked(store, occupied, out)
    ensures Preserves(old(store.fs), occupied) && Preserves(occupied, store.fs)
    ensures ending.receipt == Some(receipt) && ExitMeaning(setting, Some(out), occupied, store.fs, ending)
  {
    KeepingHolds(setting.codec, store.fs, Occupy(store.fs, out, outside.occupant), receipt);
    store.fs := Occupy(store.fs, out, outside.occupant);
    occupied := store.fs;
    var turn := w.turn;
    var faults := (k: nat) => w.faults(turn + k);
    assert w.Faultless() ==> forall k :: !faults(k);
    ghost var n := store.sequence;
    var published := store.WriteJsonAtomic(out, setting.codec.emit(receipt), faults);
    assert published.Err? && w.Faultless() ==> occupied.Exists(out) || store.Crowded(occupied, out, n);
    KeepingHolds(setting.codec, occupied, store.fs, receipt);
    if published.Err? {
      ending := Ending(7, Some(PublicationError(receipt.receiptId, published.error)), Some(receipt));
    } else {
      ending := Emit(receipt, outside);
    }
  }

  /** `emit_receipt` and the exit code of a completed run. */
  function Emit(receipt: Receipt, outside: Outside): Ending {
    if outside.emitFails then Ending(6, Some(NewError("output_failed", 6)), Some(receipt))
    else Ending(if receipt.payload.outcome.ReceiptPassed? then 0 else 1, None, Some(receipt))
  }

  /** What follows a run that gave a receipt. */
  method Deliver(w: World, store: Store, setting: Setting, out: Option<Path>, outside: Outside, receipt: Receipt)
    returns (ending: Ending, ghost occupied: FS)
    requires store.fs.Valid() && Holds(setting.codec, store.fs, receipt)
    requires AllLogsStored(setting.sha, store.fs, receipt.payload.checks)
    modifies store
    ensures Preserves(old(store.fs), store.fs) && Preserves(occupied, store.fs)
    ensures ending.receipt == Some(receipt) && ExitMeaning(setting, out, occupied, store.fs, ending)
    ensures AllLogsStored(setting.sha, store.fs, receipt.payload.checks)
    ensures w.Faultless() && !outside.emitFails ==> ending.error.None? || (out.Some? && Blocked(store, occupied, out.value))
  {
    ghost var ran := store.fs;
    if out.None? {
      return Emit(receipt, outside), ran;
    }
    ending, occupied := Publish(w, store, setting, out.value, outside, receipt);
    KeepingLogs(setting.sha, ran, occupied, receipt.payload.checks);
    KeepingLogs(setting.sha, occupied, store.fs, receipt.payload.checks);
  }

  /** Some receipt that attests the run would be refused by the store as it was. */
  ghost predicate ReceiptRefused(setting: Setting, store: Store, fs: FS, n: nat, discovery: DiscoveryReport, inv: Invocation,
                                 sourceAfter: SourceIdentity)
    requires fs.Valid()
  {
    exists receipt, raised, m :: m >= n && Attests(setting.sha, setting.canonical, discovery, inv, sourceAfter, raised, receipt)
                                 && store.Refuses(setting.codec, fs, m, receipt)
  }

  /** `occupied` is the disk just before publication. A path occupied at the start executes nothing at all. With
      temporary names free, the report and the source at hand, nothing that hinders a check, no refused receipt and a
      path that can be published to, the command completes. */
  method RunCommand(w: World, store: Store, setting: Setting, inv: Invocation, out: Option<Path>, outside: Outside)
    returns (ending: Ending, events: seq<ProgressEvent>, ghost occupied: FS)
    requires w.Valid() && store.fs.Valid() && w.max == inv.maxLogBytes && Honest(outside)
    modifies w, store
    ensures Preserves(old(store.fs), store.fs) && Preserves(occupied, store.fs)
    ensures ExitMeaning(setting, out, occupied, store.fs, ending)
    ensures out.Some? && old(store.fs).Exists(out.value) ==>
      ending.error.Some? && ending.exit in {4, 6} && events == [] && store.fs == old(store.fs) && w.sys == old(w.sys)
    ensures ending.receipt.Some? ==>
      && outside.discovered.Ok? && outside.identified.Ok?
      && (exists cancelled :: Attests(setting.sha, setting.canonical, outside.discovered.value, inv, outside.identified.value,
                                      cancelled, ending.receipt.value))
      && AllLogsStored(setting.sha, store.fs, ending.receipt.value.payload.checks)
    ensures ending.receipt.None? ==> ending.error.Some? && Plain(ending.error.value)
    ensures outside.discovered.Err? && (out.Some? ==> !old(store.fs).Exists(out.value)) && w.Faultless() ==>
              ending.error == Some(outside.discovered.error) && events == [] && store.fs == old(store.fs)
    ensures old(store.LogsFree()) && outside.discovered.Ok? && outside.identified.Ok? && !outside.emitFails
            && (out.Some? ==> !old(store.fs).Exists(out.value)) && ending.error.Some? ==>
      || Hindered(w, setting.sha, store.fs)
      || ReceiptRefused(setting, store, old(store.fs), old(store.sequence), outside.discovered.value, inv, outside.identified.value)
      || (out.Some? && Blocked(store, occupied, out.value))
  {
    events, occupied := [], store.fs;
    if out.Some? {
      var preflight := store.PreflightJsonOutput(out.value, w.faults(w.turn));
      if preflight.Err? {
        return Ending(preflight.error.exitCode, Some(preflight.error), None), events, occupied;
      }
    }
    if outside.discovered.Err? {
      var error := outside.discovered.error;
      return Ending(error.exitCode, Some(error), None), events, occupied;
    }
    var storeFault := w.Faulty();
    if storeFault {
      return Ending(IO_ERROR.exitCode, Some(IO_ERROR), None), events, occupied;
    }
    var result, cancelled; ghost var endings;
    result, events, cancelled, endings := RunChecks(w, store, setting.sha, setting.canonical, setting.codec,
                                           outside.discovered.value, inv, outside.identified);
    occupied := store.fs;
    if result.Err? {
      return Ending(result.error.exitCode, Some(result.error), None), events, occupied;
    }
    var receipt := result.value;
    ending, occupied := Deliver(w, store, setting, out, outside, receipt);
  }

  lemma KeepingLogs(sha: Sha256, before: FS, after: FS, executions: seq<CheckExecution>)
    requires before.Valid() && after.Valid()
    requires forall p :: p in before.names ==> before.Keeps(after, p)
    ensures AllLogsStored(sha, before, executions) ==> AllLogsStored(sha, after, executions)
  {
  }
}
