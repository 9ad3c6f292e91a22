# TaskAttest in Dafny

TaskAttest discovers the checks of a Git workspace, selects some, executes them under time and log limits, stores the
logs and a receipt, and verifies receipts offline. This project models those stages over one set of data types and
proves what holds of each stage and across them. `dafny verify dfyconfig.toml` checks everything.

The code that changes state step by step is modelled that way: the poll loop, process termination, capture files, the
blob store, publication, the run loop, the run command, the incremental hasher, the duplicate-key visitors, the
workflow fold, the replacement pass, the path parser, the id and name loops and the two Python decisions are methods
with loops, most of them over classes. Each is proved against a specification, and lemmas prove what the
specification means. Concurrency is modelled twice: as step machines with arbitrary interleavings (two capture threads
with a process group and a clock; any number of store writers; any number of publishers), and, for the main thread, as a
class whose environment is an arbitrary schedule. Every system call that can fail has an arbitrary fault oracle.

## Modules

- `Basics`, `Model`, `Hex`, `Order`, `FileSystem`: shared values, the documents, digests, string order, names bound to inodes.
- `Lifecycle`, `World`, `Execute`: two capture threads and a process group; the main thread's polling, termination and joining; one check.
- `BlobStore`, `Publication`, `StateStore`: content-addressed storage and no-clobber publication, interleaved and sequential.
- `Run`, `Verify`, `Command`, `EndToEnd`: the run loop and its receipt, offline verification, exit codes, the whole pipeline.
- `Json`, `StrictReader`: the strict receipt reader over JSON trees whose objects are lists of pairs.
- `Records`, `ReceiptRecords`, `ReceiptCodec`, `Wire`: the receipt of a run as data of the reader's schema and back, the store's codec built from the two, and which value stands under which name.
- `Names`, `Scripts`, `Workflow`, `Steps`, `Replacement`, `Selection`, `Discovery`: identifiers, the workflow fold, replacements, coverage, the report.
- `GitPaths`, `Workspace`: canonical path lists and the bytes a workspace digest is computed from.
- `Ranking`, `Readiness`: the benchmark verdict and the release decision.

SHA-256, the canonical serialisation, JSON printing and parsing, UTF-8, glob matching, white space, SemVer and case
folding are parameters. Nothing is assumed about hash collisions except where a lemma names the contents that must not collide.

## What turned out false, and its exact boundary

- A receipt the tool itself stored is rejected by its own verifier exactly when the cancellation token was raised while
  no check was recorded as cancelled: the producer reads the token and the verifier cannot (`Verify.ProducerVerifierAgreement`).
  `EndToEnd.TokenAloneIsRejected` gives the input: a discoverable workspace whose one check passed before the token was raised.
- Replacing one of two workflow steps with the same id drops both gaps, so an unmodeled step can disappear from the report;
  the gaps stay exact exactly when, of the steps read, a claimed id ends only the gap of the first step with that id
  (`Replacement.GapsStayExact`, `Replacement.SameNameLosesAGap`).
- Two JavaScript scripts with one id fragment of 53 to 55 characters make discovery fail, because the disambiguated id is
  longer than 64 characters (`Scripts.AllocatedIdsValid`, `Scripts.LongFragmentsAreRejected`, `Scripts.LongFragmentsExist`).
- A disambiguated script id can be one that another script already has, and then validation refuses the workspace. The ids
  are distinct exactly when no disambiguated id clashes with an earlier script's (`Scripts.AllocatedIdsDistinct`);
  `Scripts.IdsCollide` gives three scripts for which this fails whatever the hash function is.
- File content is not length-prefixed in the workspace digest, so two workspaces that differ can have one preimage; it is
  decodable exactly when regular files agree in size (`Workspace.PreimageDecodes`, `Workspace.OneFileSpellsTwo`).
- Disabling a check that a workflow step was matched to leaves neither the check nor a gap
  (`Discovery.DisabledMatchLeavesNoGap`). The check a step was converted to is missing from the report exactly when its id is
  disabled and not configured again, and no check of that id runs the step's command exactly when its id is disabled and not
  configured again with that command (`Discovery.ObservationsAccounted`).

## Model

| member | source | states |
|---|---|---|
| Hex.EncodeLowerLoop | src/hex.rs:1-11 | The loop over bytes computes the digit-pair encoding |
| Hex.EncodeRoundTrip | src/hex.rs:1-11 | Two lower-case hexadecimal digits a byte, and decoding gives the bytes back |
| Hex.EncodeInjective | src/hex.rs:1-11 | Equal encodings come from equal bytes |
| Hex.DerivedShapes | src/execute.rs:210-219 | Every derived digest and receipt id passes the store's own validators |
| Order.SortedSetSorts | src/discover.rs:1407-1408 | Sorting and deduplicating gives a strictly sorted sequence with exactly the given elements |
| Order.LessMeans | src/discover.rs:110 | The order is lexicographic: at the first difference the smaller character, or the end, comes first |
| Order.SortedSetCanonical | src/git.rs:113-125 | The result depends only on the set of elements, not on order or repetition |
| Publication.StepInv | src/source.rs:197-249 | One step of any publisher, failing or not, or of a foreign creator, keeps what every publisher owns, keeps publishers apart and never touches an existing target |
| Publication.NeverOverwritten | src/source.rs:197-249 | From the moment the target exists, whoever made it, no later step of any interleaving rebinds or rewrites it |
| Publication.PublicationAtomic | src/source.rs:197-249 | At every moment the target is absent, foreign, or one publisher's complete document; Ok means the target is that caller's document, and at most one publisher commits |
| Publication.ExactlyOneWinner | src/source.rs:197-249 | With an absent target, no failing call and no foreign creator, once a publisher finished other than by exhausting temporary names exactly one committed |
| BlobStore.StepInv | src/store.rs:251-308 | One step of any capture keeps every capture's temporary file, every blob found, and content addressing of new blobs |
| BlobStore.StoreIsContentAddressed | src/store.rs:273-308 | Over every interleaving new blobs hash to their names, Ok means the target matches digest and length, and new temporary files belong only to captures that did not return Ok |
| BlobStore.BlobsAreStable | src/store.rs:273-308 | A blob present at any moment of a run is present and unchanged at every later moment |
| BlobStore.CorruptBlobIsRefused | src/store.rs:316-326 | A corrupt blob already under the digest makes that capture fail and stays unchanged |
| BlobStore.OkHoldsTheCapturedBytes | src/store.rs:273-326 | Where the two contents do not collide an Ok capture finds exactly its own bytes, so equal logs share one blob |
| BlobStore.FaultFreeCapturesSucceed | src/execute.rs:447-457 | With no failing call and no corrupt blob every finished capture succeeds, runs out of temporary names, or meets a collision |
| BlobStore.AloneAmongOthers | src/store.rs:273-308 | What one capture can do alone it can do among any number of others, which see only the change on disk |
| Lifecycle.AddStep | src/execute.rs:414-424 | The atomic addition of a pending chunk keeps the counters' agreement, for either thread at any point |
| Lifecycle.ReadStep | src/execute.rs:407-413 | Reading a chunk moves bytes into a pending state: the shared total and flag, what each thread has counted, and the other thread are unchanged |
| Lifecycle.ApplyInv | src/execute.rs:392-435 | Every event of either thread, the group, the user or the clock keeps the capture and counter invariants |
| Lifecycle.CaptureIsExact | src/execute.rs:392-435 | Under every interleaving a raised flag means total over limit; once both are joined flag iff over, total is all bytes written, and the log file, the hashed bytes, the tail and the truncation are those of each whole stream |
| Lifecycle.ApplyAllEvolves | src/execute.rs:290-355 | Time, cancellation, the flag, death of the group and end of file are never undone, and with no writer left each capture only approaches end of file |
| World.World.Elapse | src/execute.rs:309-343 | Waiting lets any scheduled events happen, keeps the invariants and advances the clock by at least the delay |
| World.World.TerminateProcessTree | src/execute.rs:652-672 | At most 20 grace polls, and KILL no earlier than 500 ms for a leader that did not exit; success leaves no live group member and a reaped leader; an error only when a system call fails |
| World.World.TerminateOrphanedProcessGroup | src/execute.rs:686-694 | After a natural exit nothing of the group is left alive, with 100 ms between TERM and KILL |
| World.World.TakeTurn | src/execute.rs:309-343 | One turn tests exit, token, limit and deadline in that order; the outcome it forces belongs to the first test that succeeded, and none is forced exactly when none did |
| World.World.AwaitExit | src/execute.rs:309-343 | At most ceil(budget / 25) + 1 polls, at least 25 ms apart; every turn but the last decided nothing, the last one gives the reason, the check is asked to stop exactly when that is not its own exit, and success leaves no live member; an error only when a system call fails |
| World.World.Join | src/execute.rs:437-445 | Once the group is gone each capture thread terminates at end of file, and otherwise it has failed |
| World.NextProgresses | src/execute.rs:400-434 | With no writer left each step of a capture thread strictly decreases its distance to end of file |
| StateStore.Store.CreateCaptureFile | src/store.rs:251-271 | A new empty file under the next unused temporary name, and otherwise a call failed or the next hundred names are taken; success is a path of the store machine |
| StateStore.Store.StoreBlob | src/store.rs:273-308 | Ok means a valid digest, the temporary name gone and the target equal to the captured bytes or matching digest and length; an error keeps the temporary file and means a failed call, a malformed digest or a blob that does not match; on a capture's own digest and length the call is a path of the store machine |
| StateStore.Store.PreflightJsonOutput | src/source.rs:154-176 | Ok exactly when the call does not fail and the path is free |
| StateStore.Store.WriteJsonAtomic | src/source.rs:197-249 | The path becomes the complete document or is as before; without failures only an occupied path or exhausted names refuse; the call and its result are a path of the publication machine |
| StateStore.Store.WriteReceipt | src/store.rs:193-213 | A stored receipt is at most 4 MiB and complete; an existing path is accepted only with the same digest and never changed; without failing calls a valid id is refused only for size, another document or taken names |
| StateStore.ReadReceiptMeans | src/store.rs:215-249 | A receipt is read exactly from an existing file within 4 MiB that the codec accepts |
| Execute.OutcomeRespectsLimit | src/execute.rs:343-355 | Passed or Failed means both streams fit the limit, LogLimitExceeded means they did not, and an overrun is always one of the three forced outcomes |
| Execute.PersistCapture | src/execute.rs:447-457 | The log reference is the digest and count of the capture's own bytes and names a stored log that matches; an error only when a call fails or the store has something else under the digest |
| Execute.RecordDescribes | src/execute.rs:343-370 | The record built from any joined state states its times, streams and outcome truthfully, and its outcome and exit code follow from the reason the loop ended for |
| Execute.Supervise | src/execute.rs:290-345 | After spawning, waiting and joining both captures are closed, no process of the group lives, and the forced outcome is the one of the reason the loop ended for |
| Execute.ExecuteCheck | src/execute.rs:221-370 | For every environment: a record describes its check truthfully, carries exactly the reason the check was stopped for or what its own exit and the limit say, and refers to what was written to stdout and stderr; only blobs are added and no process survives; there is a record unless a call or thread fails, names run out or a blob conflicts; the store's change is a path of the store machine (byte counts below 2^64) |
| Execute.NobodyStopped | src/execute.rs:309-355 | A check recorded as passed or failed was stopped in no turn of the loop, and passed exactly when its leader exited with 0 |
| Execute.QuietScheduleReaches | src/execute.rs:290-370 | A schedule of one check that exits with 0 reaches a joined state with the token down whose record is a pass, and the token can rise right after |
| Run.SoFarNext | src/execute.rs:97-141 | One turn of the loop adds one truthful record, its two progress events and its stored logs, and a skip exactly after a stop |
| Run.ExecuteSelected | src/execute.rs:97-141 | One truthful and explained record per selected check in order, one after the other in time, with stored logs and the numbered alternating trace; an error only when a check is hindered or its names run out |
| Run.RunChecks | src/execute.rs:84-208 | Ok means the receipt attests the run (derived identity, source comparison, outcome from records, gaps, token), its times enclose those of the records, every record is explained, its logs and itself are stored, and the last event names it; an error means a failed call or thread, a conflict, taken names, an unidentified source or a refused receipt |
| Run.OutcomeMeans | src/execute.rs:476-500 | Cancelled exactly when the token was raised or a record is cancelled, else Failed exactly when the source changed or a record is no pass, else Incomplete exactly without records or with gaps, else Passed |
| Run.PassedRanToTheEnd | src/execute.rs:84-208 | In a Passed run every selected check's leader exited with 0 on its own and no turn of any poll loop had a reason to stop it |
| Run.FailFastShape | src/execute.rs:97-141 | Fail-fast gives passes, at most one other outcome, then only skips; without it nothing is skipped |
| Verify.VerifyBlob | src/verify.rs:162-187 | An error exactly for a malformed digest; otherwise found and matching tell exactly whether the blob exists and has the length and digest |
| Verify.VerifySemantics | src/verify.rs:72-150 | Reports exactly the problems that are warranted by source, times, selected set, each check's times and log references, and the re-derived outcome |
| Verify.VerifyReceipt | src/verify.rs:12-70 | An error exactly for a stdout or stderr digest that names no blob; otherwise exactly the warranted problems, the true state of every log, and valid exactly when the receipt is sound, for both streams of every execution |
| Verify.SoundMeansNoProblem | src/verify.rs:12-150 | The declarative soundness of a receipt holds exactly when no problem is warranted |
| Verify.LogReferencesMembers | src/verify.rs:152-160 | A log is verified exactly when it is the stdout or the stderr reference of some execution |
| Verify.LogReferencesInOrder | src/verify.rs:152-160 | The verified logs come in the order of the executions, stdout before stderr, and there are no others |
| Verify.BadLogsAreReported | src/verify.rs:112-187 | A stdout or stderr log that is missing, altered or badly named is a warranted problem |
| Verify.ExpectedOutcomeMeans | src/verify.rs:124-149 | The outcome is found inconsistent exactly when records, gaps and source comparison do not warrant it |
| Verify.ExecutedIsSelected | src/verify.rs:85-104 | The records of a run are exactly the selected checks, each once |
| Verify.ProducerVerifierAgreement | src/verify.rs:25-150 | Over an unaltered store a receipt the run built is sound exactly when it is not the case that the token was raised while no record is Cancelled |
| EndToEnd.TokenAloneIsRejected | src/execute.rs:482-488 | In a discoverable workspace whose one check passed, the receipt is sound with the token down and unsound with the token raised after the pass |
| Verify.PassedMeansExecuted | src/execute.rs:476-500 | Passed means token not raised, source unchanged, at least one check, no gaps, and every selected check passed with exit code 0 within its log budget |
| Command.Publish | src/main.rs:179-198 | Publishing changes nothing stored; failure is the exit-7 error naming the stored receipt, success leaves the document at the path |
| Command.RunCommand | src/main.rs:145-199 | A path occupied at the start executes nothing and changes nothing; exit 7 iff a recovery document, and then the named receipt is stored; exit 0 or 1 means stored and, if requested, published; 0 iff Passed; it completes unless something named hinders it |
| EndToEnd.CoveredPathWasTested | src/discover.rs:1385-1436 | A path some selected check covers is matched by an executed check that passed |
| Discovery.NoUnmodeledStep | src/discover.rs:1222-1268 | With no gap reported, no unmodeled step is left exactly when, of the steps read, a claimed id ends only the gap of the step it replaces, in particular when no observation id ends another |
| EndToEnd.PassedMeans | src/execute.rs:84-208 | For every report and run: Passed means unchanged source, some check ran, all passed within budget, every changed path covered by one of them, and no unmodeled step exactly when, of the steps read, a claimed id ends only the gap of the step it replaces |
| EndToEnd.EveryDeclaredStepIsReported | src/discover.rs:222-337 | Every entry with a run text, of every job of every workflow, that is converted or looks like verification is in the report, and without gaps (attributable ones) not as unmodeled |
| EndToEnd.OneCheckReported | src/discover.rs:54-159 | A clean workspace with one valid configured check is discovered without gaps, so the hypotheses about reports can be met |
| EndToEnd.PassedIsPossible | src/execute.rs:143-195 | A Passed receipt attests a run over that report, and with the token raised a Cancelled one does, so the hypotheses of PassedMeans can be met |
| EndToEnd.RunTool | src/main.rs:145-199 | Discovery and run together: exit code 0 means such a receipt, stored, at the requested path, and sound offline |
| Json.RejectDuplicateKeys | src/store.rs:43-49 | The recursive visit succeeds exactly when every object at every depth has distinct keys |
| Json.VisitSeq | src/store.rs:120-126 | Succeeds exactly when every item has distinct keys at every depth |
| Json.VisitMap | src/store.rs:128-143 | Succeeds exactly when the keys are distinct and every value has distinct keys at every depth |
| Json.NormalFormsDecide | src/store.rs:25-41 | Two duplicate-free documents have one normal form exactly when they are equal up to member order |
| StrictReader.AcceptsExactly | src/store.rs:25-41 | The reader accepts exactly the duplicate-free documents of the published shape, defined without decoding |
| StrictReader.ParsesExactly | src/store.rs:25-41 | A document is parsed exactly when it is within 4 MiB, is JSON, repeats no key and has the published shape |
| StrictReader.AcceptedIsLossless | src/store.rs:25-41 | An accepted document is the emission of its receipt up to member order, and two accepted documents of one receipt differ at most in member order |
| StrictReader.WrittenIsReadBack | src/store.rs:193-213 | Typed data written in any member order is read back unchanged |
| ReceiptCodec.ReceiptTyped | src/model.rs:87-291 | Every receipt whose numbers have the widths of their fields is data of the published schema |
| ReceiptCodec.ReceiptBack | src/model.rs:87-291 | Nothing of a receipt is lost on the way to data and back |
| ReceiptCodec.TypedIsReceipt | src/model.rs:87-291 | All data of the published schema is some receipt |
| ReceiptCodec.ReadsWhatIsAccepted | src/store.rs:25-41 | The store's reader fails exactly when the strict reader does, with its error |
| ReceiptCodec.CodecRoundTrips | src/store.rs:193-249 | With a JSON printer and parser that invert each other, the strict reader gives back every printed receipt within the size bound |
| ReceiptCodec.HeldIsReadBack | src/store.rs:193-249 | What a run leaves in the store under a receipt's id reads back as that receipt when the file is its document, and otherwise as one with its digest |
| ReceiptCodec.WriteThenRead | src/store.rs:193-249 | After an Ok write a read succeeds with the receipt's digest, and with the receipt itself when the path was free |
| Wire.ReceiptWire | src/model.rs:214-243 | The receipt object holds id, digest, both sources, times and outcome under their names |
| Wire.ExecutionTimesWire | src/model.rs:163-175 | An execution holds its times and outcome under their names |
| Wire.ExecutionLogsWire | src/model.rs:163-175 | An execution holds each stream's log reference under that stream's name |
| Wire.LogWire | src/model.rs:140-147 | A log reference holds each field under its name |
| Wire.ObservationStepWire | src/model.rs:110-120 | An observation holds its id, job, step and reason under their names |
| StrictReader.ReceiptWellFormed | src/model.rs:87-291 | No record repeats a field, and the flattened payload shares no key with the receipt's own fields |
| Workspace.LengthRoundTrip | src/source.rs:149-152 | Every length below 2^64 survives the 8-byte little-endian framing |
| Workspace.PrefixFree | src/source.rs:149-152 | A framed field and what follows it are both determined by the bytes |
| Workspace.Hasher.UpdateLengthPrefixed | src/source.rs:149-152 | Feeds the framed bytes and nothing else |
| Workspace.Hasher.HashFileInto | src/source.rs:97-111 | Whatever the read sizes, exactly the content is fed |
| Workspace.Hasher.HashEntry | src/source.rs:61-95 | Feeds exactly the entry's encoding, or reports that entry's error |
| Workspace.HashWorkspace | src/source.rs:61-95 | The digest of the tagged preimage of the entries in order, or an error when some entry cannot be read |
| Workspace.KindTag | src/source.rs:70-91 | The first two bytes tell the kind of an entry |
| Workspace.PreimageDecodes | src/source.rs:61-152 | Two workspaces with one preimage are equal exactly when their regular files agree in size position by position |
| Workspace.EntryLayout | src/source.rs:61-152 | An entry's fields stand in order after their 8-byte little-endian lengths; file content is followed by the executable flag |
| Workspace.PreimageDecodesWithoutFiles | src/source.rs:61-152 | Without regular files equal preimages mean equal workspaces |
| Workspace.OneFileSpellsTwo | src/source.rs:97-118 | For any two files there is one file with the same preimage |
| GitPaths.ParseNulPaths | src/git.rs:113-125 | Ok exactly when every segment is UTF-8 and safe, and then the strictly sorted set of the segments |
| GitPaths.ParseIsCanonical | src/git.rs:113-125 | Listings with the same set of segments parse to the same sequence |
| GitPaths.ListingRoundTrip | src/git.rs:113-125 | Parsing inverts a NUL-terminated listing |
| GitPaths.SegmentsAre | src/git.rs:113-125 | In any bytes empty runs are skipped and a last run without a NUL counts |
| GitPaths.SafeMeans | src/git.rs:127-142 | A path is accepted exactly when it is relative and no component is ".." |
| GitPaths.WorkspaceIdentityCanonical | src/source.rs:23-35 | Any permutation or repetition of the listing gives the same file count and preimage |
| GitPaths.ChangedPaths | src/git.rs:68-81 | The strictly sorted union of the listings, or of all files when there is no commit; an error exactly for an unacceptable segment |
| Names.NormalizePythonDistribution | src/discover.rs:894-907 | The loop computes the collapsed, trimmed name |
| Names.NormalizeIdempotent | src/discover.rs:894-907 | The result is clean, normalising is idempotent on all strings, and it fixes exactly the clean names |
| Names.NormalizeIsPep503 | src/discover.rs:894-907 | On every valid PEP 508 name it is the normalisation of PEP 503, section "Normalized Names" |
| Names.PlainRequirement | src/discover.rs:870-892 | A valid name with a specifier yields the PEP 503 form of the name |
| Names.DirectReference | src/discover.rs:870-892 | A direct reference yields the PEP 503 form of its name and nothing of the URL |
| Names.PortableIdFragment | src/discover.rs:1026-1048 | The loop that stops at 55 bytes computes the trimmed 55-character prefix, or the digest prefix |
| Names.FragmentIsClean | src/discover.rs:1026-1048 | Every fragment has 1 to 55 characters of a-z, 0-9 and single inner hyphens |
| Names.CleanNamesStay | src/discover.rs:1026-1048 | A clean name within the bound is its own fragment |
| Names.LettersStay | src/discover.rs:1026-1048 | The loop keeps every letter and digit, lower-cased, in order |
| Names.NothingPortable | src/discover.rs:1026-1048 | A name without letters and digits gets twelve digits of its digest |
| Scripts.ScriptIdValid | src/discover.rs:588-598 | A first-seen id is always valid; a disambiguated one exactly when its fragment has at most 52 characters |
| Scripts.AllocateScriptIds | src/discover.rs:588-598 | The loop skips scripts that do not verify and gives the others first-seen or disambiguated ids in order |
| Scripts.AllocatedIdsValid | src/discover.rs:588-598 | One id per script; it fails validation exactly when an earlier script was given the script's plain id and its fragment has more than 52 characters |
| Scripts.AllocatedIdsDistinct | src/discover.rs:588-598 | The ids are pairwise distinct exactly when no disambiguated id equals the id of an earlier script, which the loop does not check |
| Scripts.IdsCollide | src/discover.rs:588-598 | Whatever the hash function, three verification scripts in package order get two equal ids |
| Scripts.LongFragmentsAreRejected | src/discover.rs:1270-1288 | Two scripts with one longer fragment get one id that validation refuses |
| Scripts.LongFragmentsExist | src/discover.rs:1026-1048 | Two verification scripts in package order that share a 55-character fragment, whatever the hash function is |
| Scripts.TestScriptVerifies | src/discover.rs:624-652 | A script named test: and lower-case text without a long-running part is a verification script |
| Workflow.Discovery.InspectStep | src/discover.rs:240-333 | One step changes checks, observations and gaps exactly as specified, or is refused for its directory |
| Workflow.Discovery.InspectDocument | src/discover.rs:222-337 | A document folds its run steps in order; the first error ends it |
| Steps.StepsInOrder | src/discover.rs:222-260 | The steps read are one for each entry with a run text of each job of each document, with source, job name, step name or number, text and directory, in document order, and no other |
| Steps.EveryStepIsSeen | src/discover.rs:261-331 | Every step that can be converted has an observation naming a check with its command, every other one that looks like verification an unmodeled observation and a gap, in order, and there are no other observations |
| Steps.AddedAreMade | src/discover.rs:275-312 | Every check the fold adds has the id, kind, command, coverage and source of one of the steps |
| Workflow.Discovery.InspectAll | src/discover.rs:168-220 | All documents are folded in order and their sources recorded; it fails exactly when one cannot be read or folded |
| Workflow.NextGrows | src/discover.rs:254-300 | A step drops and moves no check, changes only reasons and sources by extension, and adds only a new command |
| Workflow.NextExplains | src/discover.rs:261-331 | A step's observation names the step and the first check that runs its command, or is unmodeled |
| Workflow.FoldInvariant | src/discover.rs:240-335 | Over all documents: checks and ids kept, added commands distinct, every observation names a check with the step's command and file, one Discovered observation per added check, gaps are those of the unmodeled observations |
| Workflow.CommandsStayDistinct | src/discover.rs:254-300 | Pairwise distinct commands stay pairwise distinct |
| Workflow.ObservationIdsStartWithDot | src/discover.rs:249 | Observation ids begin with the path of their workflow file |
| Replacement.ReplaceForCheck | src/discover.rs:1227-1260 | The claims of one check are recorded and applied, or refused because the whole list is inadmissible |
| Replacement.ClaimsInOrder | src/discover.rs:1227-1230 | The claims are those of each check in order, one for each step it replaces, and no other |
| Replacement.ApplyReplacements | src/discover.rs:1222-1268 | Succeeds exactly when every claim is unique and names an observation that is unmodeled; then exactly the claimed observations change and exactly the gaps no claimed id ends remain |
| Replacement.GapsStayExact | src/discover.rs:1261-1266 | The remaining gaps are those of the still unmodeled steps exactly when, among the steps given, a claimed id ends only the gap of the first step with that id |
| Replacement.SeparatedIdsLoseNothing | src/discover.rs:1261-1266 | That holds when ids are unique and none ends another |
| Replacement.SameNameLosesAGap | src/discover.rs:1235-1266 | Two steps with one id: replacing it leaves the second unmodeled and no gap |
| Selection.CoverageGaps | src/discover.rs:1385-1410 | Strictly sorted gaps: one for each changed path no selected check matches, and one when nothing is discovered or selected |
| Selection.ChangedModeLosesNoCoverage | src/discover.rs:1335-1410 | In changed mode a changed path is covered exactly when some discovered check matches it, the same as in a full run |
| Selection.SelectedWhen | src/discover.rs:1335-1383 | Requests alone decide when there are some; otherwise a full run and a clean workspace select every check, and changed mode exactly those some changed path matches |
| Selection.RequestedCoverage | src/discover.rs:1342-1353 | With explicit requests exactly the requested checks cover paths |
| Selection.SelectedExactly | src/discover.rs:1424-1436 | On an aligned report the map-based selection is the checks whose own entry is set, in order |
| Selection.ChosenMembers | src/discover.rs:1424-1436 | These are strictly sorted by id and are exactly the members with a set entry |
| Selection.SelectedIds | src/verify.rs:85-104 | The selected ids the verifier collects are the ids of the checks a run executes |
| Discovery.SortByIdSorts | src/discover.rs:110 | Sorting by id is a non-decreasing permutation |
| Discovery.ValidateChecks | src/discover.rs:1270-1288 | Ok exactly when all ids are valid and distinct and all coverage patterns compile |
| Discovery.SortedValidIds | src/discover.rs:110-111 | Sorted valid checks have strictly increasing ids |
| Discovery.AddConfigured | src/discover.rs:105-109 | Disabled checks removed, configured ones appended in order, the first refused one reported |
| Discovery.DiscoverChecks | src/discover.rs:54-159 | Succeeds exactly when everything is readable, the checks valid, the claims admissible and the requests known; the report is aligned, selected per request, and lists exactly the path, selection and remaining workflow gaps |
| Discovery.SelectionMeans | src/discover.rs:125-138 | The report selects each of its checks exactly as its mode, requests and changed paths say |
| Discovery.CollectedCounts | src/discover.rs:103-110 | Each check is collected as often as it was found, unless disabled, and as often as it is configured |
| Discovery.FilesReadAre | src/discover.rs:145-148 | The configuration file, if any, and then the workflow files in order |
| Discovery.ObservationsAccounted | src/discover.rs:103-112 | Every observation is unmodeled, replaced by a check of the report that claims it, or names a check whose id is missing exactly when disabled and not configured again, and whose command is not run under that id exactly when disabled and not configured again with it |
| Discovery.DisabledMatchLeavesNoGap | src/discover.rs:103-112 | A discoverable workspace whose matched check is disabled: its report has no gap and not the check |
| Discovery.UnmodeledStepsHaveGaps | src/discover.rs:141-144 | The report's workflow gaps are exactly those of the unmodeled steps exactly when, of the steps read, a claimed id ends only the gap of the step it replaces, in particular when no observation id ends another |
| Ranking.NearestRankIsLeast | benchmarks/evaluate.py:62-69 | A number is at least the nearest rank exactly when enough samples are at or below it |
| Ranking.NearestRankMonotone | benchmarks/evaluate.py:62-69 | Raising samples never lowers the nearest rank |
| Ranking.OneOutlierIsHarmless | benchmarks/evaluate.py:62-69 | One arbitrary sample cannot lift the rank above the others' maximum if the rank is below the sample count, and always does if it is not |
| Ranking.ObservedMeans | benchmarks/evaluate.py:225-243 | The observed value is a sample: the greatest, or the least with enough samples at or below it |
| Ranking.TwentySamplesTolerateOne | benchmarks/evaluate.py:62-69 | Twenty samples at the 95th percentile leave that room |
| Ranking.JudgeMetric | benchmarks/evaluate.py:235-264 | A usable metric is judged within its absolute maximum and one of two allowances over the baseline; otherwise an error |
| Ranking.Evaluate | benchmarks/evaluate.py:225-282 | Succeeds exactly when ids are unique and every metric is usable and comparable, and passes exactly when all are within their limits |
| Ranking.VerdictMonotone | benchmarks/evaluate.py:225-262 | Raising samples never turns a failing metric into a passing one |
| Readiness.GateErrors | scripts/verify_v1_evidence.py:425-439 | No error exactly when every gate is satisfied and has evidence for all its criteria |
| Readiness.WindowErrors | scripts/verify_v1_evidence.py:450-486 | No error exactly when 30 or more days end on the manifest's date and every track ran on exactly those days |
| Readiness.RepeatErrors | scripts/verify_v1_evidence.py:511-529 | No error exactly when repeats are distinct, each by an adopter and 30 or more days after the recorded first use |
| Readiness.AdoptionErrors | scripts/verify_v1_evidence.py:496-535 | No error exactly when there are three distinct adopters, two distinct valid repeats and both contributions |
| Readiness.ReadinessErrors | scripts/verify_v1_evidence.py:403-567 | No error exactly when the declarative readiness predicate holds |

## Left out

- Processes that leave their group, members that cannot be signalled, and reuse of a group id after reaping: assumed not to happen.
- Clock regressions and the difference between wall-clock and monotonic time: one clock that never goes back.
- Variants for Windows and for systems without process groups.
- Real I/O: directories, permissions, `fsync` durability across power loss, Git and process invocation. A system call either takes effect or fails.
- Execute.PersistCaptures: log-file bytes are written when the threads are joined, not chunk by chunk; the chunk-by-chunk interleaving with other writers is in `BlobStore`.
- Execute.ExecuteCheck: the statements about byte limits and the path of the store machine assume that the two byte counts add up below 2^64; the saturated case is otherwise modelled.
- World.World.AwaitExit: when waiting for or signalling the group fails, the call reports an error and nothing is promised about the group.
- Workflow.Discovery.InspectStep: the tables that recognise safe commands, unmodeled verification and coverage lists, the wording of reasons, and the summary of a run text are parameters.
- Discovery.DiscoverChecks: the checks of the language detectors and the validation of one configured check are parameters; a file that cannot be read or parsed is an error value.
- Json.RejectDuplicateKeys: JSON is a tree; tokenising, number syntax and string escapes are those of the JSON library.
- ReceiptCodec.CodecRoundTrips: that the JSON library parses what it printed, to a document without repeated keys, is a hypothesis; toolchains, environment, redaction, artifacts and annotations are carried as typed data.
- Command.RunCommand: discovery is any report, whoever creates the requested path may do so only before publication (arbitrary interleavings are in `Publication`), and installing the interrupt handler is not modelled.
- Toolchain probes, environment forwarding, redaction, summaries, artifacts, annotations and the text of error messages; they occur only as fields of the receipt's shape.
- Names.PythonDistributionName: white space is any predicate, and TOML and requirements files are not parsed.
- Ranking.Evaluate: reals instead of floats; identity checks of samples and baseline are not modelled.
- Readiness.ReadinessErrors: the structural validation of the manifest, URLs and date syntax; the message texts.
- The other commands (inspect, verify output, receipt display, schema, completions), progress printing and schema generation.
