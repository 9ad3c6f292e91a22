/** Content-addressed log storage: `create_capture_file`, the writes of `capture_stream` and `store_blob`.

    Any number of captures run at once over one store: each creates a temporary file, appends the stream
    to it, names it by the digest of everything written and links it into the blob directory. */
module BlobStore {
  import opened Basics
  import opened FileSystem
  import opened Hex

  const BLOB_DIR: string := "blobs/sha256"

  const TEMP_DIR: string := "tmp"

  const MAX_ATTEMPTS: nat := 100

  datatype Failure = IoFailed | ReceiptInvalid | AllocationFailed

  datatype Phase =
    | Allocating(attempts: nat)
    | Capturing(temp: Path, inode: nat, content: Bytes)
    | Storing(temp: Path, content: Bytes)
    | Linking(temp: Path, content: Bytes)
    | LinkFailed(temp: Path, content: Bytes)
    | Verifying(temp: Path, content: Bytes)
    | Removing(temp: Path, content: Bytes)
    | Finished(temp: Path, content: Bytes, result: Result<Path, Failure>)

  datatype State = State(fs: FS, phases: seq<Phase>)

  /** One step of capture `i`; `name` and `chunk` are used by allocation and capture only. */
  datatype Action = Action(i: nat, fault: bool, name: string, chunk: Option<Bytes>)

  function BlobPath(digest: string): Path {
    Path(BLOB_DIR, digest)
  }

  function Target(sha: Sha256, content: Bytes): Path {
    BlobPath(Sha256Hex(sha, content))
  }

  /** `verify_existing_blob`: the length and the recomputed digest both match. */
  predicate BlobMatches(sha: Sha256, blob: Bytes, digest: string, bytes: nat) {
    |blob| == bytes && Sha256Hex(sha, blob) == digest
  }

  function Move(sha: Sha256, fs: FS, phase: Phase, a: Action): (FS, Phase)
    requires fs.Valid()
  {
    match phase
    case Allocating(attempts) =>
      var temp := Path(TEMP_DIR, a.name);
      if attempts == MAX_ATTEMPTS then (fs, Finished(temp, [], Err(AllocationFailed)))
      else if fs.Exists(temp) then (fs, Allocating(attempts + 1))
      else if a.fault then (fs, Finished(temp, [], Err(IoFailed)))
      else (fs.CreateNew(temp), Capturing(temp, |fs.data|, []))
    case Capturing(temp, inode, content) =>
      if a.fault || inode >= |fs.data| then (fs, Finished(temp, content, Err(IoFailed)))
      else if a.chunk.Some? then
        (fs.Append(inode, a.chunk.value), Capturing(temp, inode, content + a.chunk.value))
      else (fs, Storing(temp, content))
    case Storing(temp, content) =>
      (fs, if !ValidSha256(Sha256Hex(sha, content)) then Finished(temp, content, Err(ReceiptInvalid))
           else if fs.Exists(Target(sha, content)) then Verifying(temp, content)
           else Linking(temp, content))
    case Linking(temp, content) =>
      if a.fault || fs.Exists(Target(sha, content)) || !fs.Exists(temp) then (fs, LinkFailed(temp, content))
      else (fs.Link(temp, Target(sha, content)), Removing(temp, content))
    case LinkFailed(temp, content) =>
      (fs, if fs.Exists(Target(sha, content)) then Verifying(temp, content)
           else Finished(temp, content, Err(IoFailed)))
    case Verifying(temp, content) =>
      var target := Target(sha, content);
      (fs, if a.fault || !fs.Exists(target) then Finished(temp, content, Err(IoFailed))
           else if BlobMatches(sha, fs.Read(target), Sha256Hex(sha, content), |content|) then Removing(temp, content)
           else Finished(temp, content, Err(ReceiptInvalid)))
    case Removing(temp, content) =>
      if a.fault || !fs.Exists(temp) then (fs, Finished(temp, content, Err(IoFailed)))
      else (fs.Remove(temp), Finished(temp, content, Ok(Target(sha, content))))
    case Finished(_, _, _) => (fs, phase)
  }

  function Step(sha: Sha256, s: State, a: Action): State
    requires s.fs.Valid()
  {
    if a.i >= |s.phases| then s
    else
      var (fs, phase) := Move(sha, s.fs, s.phases[a.i], a);
      State(fs, s.phases[a.i := phase])
  }

  lemma StepValid(sha: Sha256, s: State, a: Action)
    requires s.fs.Valid()
    ensures Step(sha, s, a).fs.Valid() && |Step(sha, s, a).phases| == |s.phases|
  {
  }

  function Run(sha: Sha256, s: State, actions: seq<Action>): (end: State)
    requires s.fs.Valid()
    ensures end.fs.Valid() && |end.phases| == |s.phases|
    decreases |actions|
  {
    if actions == [] then s
    else
      StepValid(sha, s, actions[0]);
      Run(sha, Step(sha, s, actions[0]), actions[1..])
  }

  /** No capture has begun; the store may already hold anything, corrupt blobs included. */
  predicate Initial(s: State) {
    s.fs.Valid() && forall i :: 0 <= i < |s.phases| ==> s.phases[i] == Allocating(0)
  }

  predicate HasTemp(phase: Phase) {
    !phase.Allocating? && !phase.Finished?
  }

  /** A capture's temporary name is bound to exactly what it wrote, and no blob is its open inode. */
  ghost predicate Owns(sha: Sha256, fs: FS, phase: Phase)
    requires fs.Valid()
  {
    && (HasTemp(phase) ==> phase.temp.dir == TEMP_DIR && fs.Exists(phase.temp) && fs.Read(phase.temp) == phase.content)
    && (phase.Capturing? ==> fs.names[phase.temp] == phase.inode
                             && forall p :: p in fs.names && fs.names[p] == phase.inode ==> p == phase.temp)
    && (phase.Removing? || (phase.Finished? && phase.result.Ok?) ==>
          fs.Exists(Target(sha, phase.content))
          && BlobMatches(sha, fs.Read(Target(sha, phase.content)), Sha256Hex(sha, phase.content), |phase.content|))
    && (phase.Finished? && phase.result.Ok? ==> phase.result.value == Target(sha, phase.content))
  }

  predicate Apart(a: Phase, b: Phase) {
    HasTemp(a) && HasTemp(b) ==> a.temp != b.temp
  }

  /** Every blob the run found is as it was, and every other blob hashes to its name. */
  ghost predicate Addressed(sha: Sha256, before: FS, fs: FS)
    requires fs.Valid()
  {
    && BlobsKept(before, fs)
    && forall p :: p in fs.names && p.dir == BLOB_DIR && !before.Exists(p) ==> Sha256Hex(sha, fs.Read(p)) == p.name
  }

  ghost predicate Inv(sha: Sha256, before: FS, s: State) {
    && s.fs.Valid()
    && (forall i :: 0 <= i < |s.phases| ==> Owns(sha, s.fs, s.phases[i]))
    && (forall i, j :: 0 <= i < |s.phases| && 0 <= j < |s.phases| && i != j ==> Apart(s.phases[i], s.phases[j]))
    && Addressed(sha, before, s.fs)
  }

  /** Every new temporary file belongs to a capture that has not returned Ok. */
  ghost predicate TempsAccounted(before: FS, s: State) {
    forall p :: p in s.fs.names && p.dir == TEMP_DIR && !before.Exists(p) ==>
      exists i :: 0 <= i < |s.phases| && Retains(s.phases[i], p)
  }

  predicate Retains(phase: Phase, p: Path) {
    !phase.Allocating? && phase.temp == p && !(phase.Finished? && phase.result.Ok?)
  }

  /** What was in the blob directory stays there, byte for byte. */
  ghost predicate BlobsKept(before: FS, after: FS) {
    forall p :: p in before.names && p.dir == BLOB_DIR ==> before.Keeps(after, p)
  }

  lemma MoveOwns(sha: Sha256, fs: FS, phase: Phase, a: Action)
    requires fs.Valid() && Owns(sha, fs, phase)
    ensures var (fs', phase') := Move(sha, fs, phase, a);
            fs'.Valid() && Owns(sha, fs', phase') && BlobsKept(fs, fs')
  {
  }

  lemma MoveFrames(sha: Sha256, fs: FS, pi: Phase, pj: Phase, a: Action)
    requires fs.Valid() && Owns(sha, fs, pi) && Owns(sha, fs, pj) && Apart(pi, pj)
    ensures var (fs', pi') := Move(sha, fs, pi, a);
            fs'.Valid() && Owns(sha, fs', pj) && Apart(pi', pj)
  {
  }

  lemma MoveAddressed(sha: Sha256, before: FS, fs: FS, phase: Phase, a: Action)
    requires fs.Valid() && Owns(sha, fs, phase) && Addressed(sha, before, fs)
    ensures var (fs', phase') := Move(sha, fs, phase, a);
            fs'.Valid() && Addressed(sha, before, fs')
  {
  }

  lemma StepInv(sha: Sha256, before: FS, s: State, a: Action)
    requires Inv(sha, before, s)
    ensures Inv(sha, before, Step(sha, s, a)) && BlobsKept(s.fs, Step(sha, s, a).fs)
  {
    if a.i < |s.phases| {
      var s' := Step(sha, s, a);
      MoveOwns(sha, s.fs, s.phases[a.i], a);
      MoveAddressed(sha, before, s.fs, s.phases[a.i], a);
      forall j | 0 <= j < |s.phases| && j != a.i
        ensures Owns(sha, s'.fs, s'.phases[j]) && Apart(s'.phases[a.i], s'.phases[j])
      {
        MoveFrames(sha, s.fs, s.phases[a.i], s.phases[j], a);
      }
    }
  }

  lemma StepTemps(sha: Sha256, before: FS, s: State, a: Action)
    requires s.fs.Valid() && TempsAccounted(before, s)
    requires a.i < |s.phases| ==> Owns(sha, s.fs, s.phases[a.i])
    ensures TempsAccounted(before, Step(sha, s, a))
  {
    if a.i < |s.phases| {
      var s' := Step(sha, s, a);
      forall p | p in s'.fs.names && p.dir == TEMP_DIR && !before.Exists(p)
        ensures exists i :: 0 <= i < |s'.phases| && Retains(s'.phases[i], p)
      {
        if p !in s.fs.names {
          assert Retains(s'.phases[a.i], p);
        } else {
          var i :| 0 <= i < |s.phases| && Retains(s.phases[i], p);
          assert Retains(s'.phases[i], p);
        }
      }
    }
  }

  lemma {:induction false} RunInv(sha: Sha256, before: FS, s: State, actions: seq<Action>)
    requires before.Valid() && Inv(sha, before, s) && TempsAccounted(before, s)
    ensures Inv(sha, before, Run(sha, s, actions)) && BlobsKept(s.fs, Run(sha, s, actions).fs)
    ensures TempsAccounted(before, Run(sha, s, actions))
    decreases |actions|
  {
    if actions != [] {
      StepInv(sha, before, s, actions[0]);
      StepTemps(sha, before, s, actions[0]);
      RunInv(sha, before, Step(sha, s, actions[0]), actions[1..]);
    }
  }

  /** Content addressing over every interleaving: blobs found are never changed or removed, new blobs hash to
      their names, a capture that returned Ok left its digest bound to matching bytes, and the only new
      temporary files belong to captures that did not return Ok. */
  lemma StoreIsContentAddressed(sha: Sha256, s: State, actions: seq<Action>)
    requires Initial(s)
    ensures var end := Run(sha, s, actions);
            && Addressed(sha, s.fs, end.fs)
            && forall i :: 0 <= i < |s.phases| && end.phases[i].Finished? && end.phases[i].result.Ok? ==>
                 var target := Target(sha, end.phases[i].content);
                 && end.phases[i].result.value == target && end.fs.Exists(target)
                 && BlobMatches(sha, end.fs.Read(target), target.name, |end.phases[i].content|)
    ensures var end := Run(sha, s, actions);
            TempsAccounted(s.fs, end)
  {
    RunInv(sha, s.fs, s, actions);
    var end := Run(sha, s, actions);
    assert forall i :: 0 <= i < |s.phases| ==> Owns(sha, end.fs, end.phases[i]);
  }

  lemma {:induction false} RunAppend(sha: Sha256, s: State, first: seq<Action>, rest: seq<Action>)
    requires s.fs.Valid()
    ensures Run(sha, s, first + rest) == Run(sha, Run(sha, s, first), rest)
    decreases |first|
  {
    if first == [] {
      assert first + rest == rest;
    } else {
      assert (first + rest)[1..] == first[1..] + rest;
      RunAppend(sha, Step(sha, s, first[0]), first[1..], rest);
    }
  }

  /** Some schedule leads from one state to the other. */
  ghost predicate Reaches(sha: Sha256, s: State, t: State)
    requires s.fs.Valid()
  {
    exists actions: seq<Action> :: Run(sha, s, actions) == t
  }

  lemma ReachesItself(sha: Sha256, s: State)
    requires s.fs.Valid()
    ensures Reaches(sha, s, s)
  {
    assert Run(sha, s, []) == s;
  }

  lemma ReachesTransitive(sha: Sha256, s: State, t: State, u: State)
    requires s.fs.Valid() && t.fs.Valid() && Reaches(sha, s, t) && Reaches(sha, t, u)
    ensures Reaches(sha, s, u)
  {
    var first: seq<Action> :| Run(sha, s, first) == t;
    var rest: seq<Action> :| Run(sha, t, rest) == u;
    RunAppend(sha, s, first, rest);
    assert Run(sha, s, first + rest) == u;
  }

  function Alone(fs: FS, phase: Phase): State {
    State(fs, [phase])
  }

  lemma AloneMoves(sha: Sha256, fs: FS, phase: Phase, a: Action)
    requires fs.Valid() && a.i == 0
    ensures var (fs', phase') := Move(sha, fs, phase, a);
            fs'.Valid() && Reaches(sha, Alone(fs, phase), Alone(fs', phase'))
  {
    var s := Alone(fs, phase);
    StepValid(sha, s, a);
    assert [a][1..] == [];
    assert Run(sha, s, [a]) == Step(sha, s, a);
  }

  /** What one capture does alone it can do among any others, which see only the change of the filesystem. */
  lemma AloneAmongOthers(sha: Sha256, fs: FS, phase: Phase, fs': FS, phase': Phase, phases: seq<Phase>, i: nat)
    requires fs.Valid() && i < |phases| && phases[i] == phase
    requires Reaches(sha, Alone(fs, phase), Alone(fs', phase'))
    ensures Reaches(sha, State(fs, phases), State(fs', phases[i := phase']))
  {
    var actions: seq<Action> :| Run(sha, Alone(fs, phase), actions) == Alone(fs', phase');
    RunAmongOthers(sha, fs, phase, actions, phases, i);
    assert Alone(fs', phase').phases[0] == phase';
  }

  /** Two captures taking turns: the first moves, then the second. */
  lemma PairMoves(sha: Sha256, fs: FS, p: Phase, fs1: FS, p': Phase, q: Phase, fs2: FS, q': Phase)
    requires fs.Valid() && fs1.Valid()
    requires Reaches(sha, Alone(fs, p), Alone(fs1, p')) && Reaches(sha, Alone(fs1, q), Alone(fs2, q'))
    ensures Reaches(sha, State(fs, [p, q]), State(fs2, [p', q']))
  {
    AloneAmongOthers(sha, fs, p, fs1, p', [p, q], 0);
    assert [p, q][0 := p'] == [p', q];
    AloneAmongOthers(sha, fs1, q, fs2, q', [p', q], 1);
    assert [p', q][1 := q'] == [p', q'];
    ReachesTransitive(sha, State(fs, [p, q]), State(fs1, [p', q]), State(fs2, [p', q']));
  }

  /** A capture writes its bytes and ends. */
  lemma CapturedAlone(sha: Sha256, fs: FS, temp: Path, inode: nat, bytes: Bytes)
    requires fs.Valid() && inode < |fs.data|
    ensures fs.Append(inode, bytes).Valid()
    ensures Reaches(sha, Alone(fs, Capturing(temp, inode, [])), Alone(fs.Append(inode, bytes), Storing(temp, bytes)))
  {
    var fs' := fs.Append(inode, bytes);
    assert [] + bytes == bytes;
    AloneMoves(sha, fs, Capturing(temp, inode, []), Action(0, false, "", Some(bytes)));
    AloneMoves(sha, fs', Capturing(temp, inode, bytes), Action(0, false, "", None));
    ReachesTransitive(sha, Alone(fs, Capturing(temp, inode, [])), Alone(fs', Capturing(temp, inode, bytes)),
                      Alone(fs', Storing(temp, bytes)));
  }

  function Relocated(actions: seq<Action>, i: nat): seq<Action> {
    if actions == [] then []
    else if actions[0].i == 0 then [actions[0].(i := i)] + Relocated(actions[1..], i)
    else Relocated(actions[1..], i)
  }

  lemma {:induction false} RunAmongOthers(sha: Sha256, fs: FS, phase: Phase, actions: seq<Action>, phases: seq<Phase>, i: nat)
    requires fs.Valid() && i < |phases| && phases[i] == phase
    ensures var end := Run(sha, Alone(fs, phase), actions);
            Run(sha, State(fs, phases), Relocated(actions, i)) == State(end.fs, phases[i := end.phases[0]])
    decreases |actions|
  {
    if actions == [] {
      assert phases[i := phase] == phases;
    } else if actions[0].i == 0 {
      var a := actions[0].(i := i);
      var (fs', phase') := Move(sha, fs, phase, a);
      assert Move(sha, fs, phase, actions[0]) == (fs', phase');
      StepValid(sha, State(fs, phases), a);
      assert Step(sha, State(fs, phases), a) == State(fs', phases[i := phase']);
      assert Step(sha, Alone(fs, phase), actions[0]) == Alone(fs', phase');
      RunAmongOthers(sha, fs', phase', actions[1..], phases[i := phase'], i);
      assert Relocated(actions, i)[1..] == Relocated(actions[1..], i);
      var end := Run(sha, Alone(fs', phase'), actions[1..]);
      assert phases[i := phase'][i := end.phases[0]] == phases[i := end.phases[0]];
    } else {
      RunAmongOthers(sha, fs, phase, actions[1..], phases, i);
    }
  }

  /** The three steps of `store_blob` when nobody interferes. */
  function StoredAlone(sha: Sha256, fs: FS, temp: Path, content: Bytes, linkFault: bool, readFault: bool, removeFault: bool)
    : (FS, Phase)
    requires fs.Valid()
  {
    var fault := if fs.Exists(Target(sha, content)) then readFault else linkFault;
    var (fs1, phase1) := Move(sha, fs, Storing(temp, content), Action(0, false, "", None));
    StepValid(sha, Alone(fs, Storing(temp, content)), Action(0, false, "", None));
    var (fs2, phase2) := Move(sha, fs1, phase1, Action(0, fault, "", None));
    StepValid(sha, Alone(fs1, phase1), Action(0, fault, "", None));
    Move(sha, fs2, phase2, Action(0, removeFault, "", None))
  }

  lemma StoredAloneIsReached(sha: Sha256, fs: FS, temp: Path, content: Bytes, linkFault: bool, readFault: bool, removeFault: bool)
    requires fs.Valid()
    ensures var (fs', phase') := StoredAlone(sha, fs, temp, content, linkFault, readFault, removeFault);
            Reaches(sha, Alone(fs, Storing(temp, content)), Alone(fs', phase'))
  {
    var fault := if fs.Exists(Target(sha, content)) then readFault else linkFault;
    var a, b, c := Action(0, false, "", None), Action(0, fault, "", None), Action(0, removeFault, "", None);
    var (fs1, phase1) := Move(sha, fs, Storing(temp, content), a);
    AloneMoves(sha, fs, Storing(temp, content), a);
    var (fs2, phase2) := Move(sha, fs1, phase1, b);
    AloneMoves(sha, fs1, phase1, b);
    var (fs3, phase3) := Move(sha, fs2, phase2, c);
    AloneMoves(sha, fs2, phase2, c);
    ReachesTransitive(sha, Alone(fs, Storing(temp, content)), Alone(fs1, phase1), Alone(fs2, phase2));
    ReachesTransitive(sha, Alone(fs, Storing(temp, content)), Alone(fs2, phase2), Alone(fs3, phase3));
  }

  /** A blob present at any moment of a run is present, unchanged, at every later moment. */
  lemma BlobsAreStable(sha: Sha256, s: State, first: seq<Action>, rest: seq<Action>)
    requires Initial(s)
    ensures BlobsKept(Run(sha, s, first).fs, Run(sha, s, first + rest).fs)
  {
    RunInv(sha, s.fs, s, first);
    RunInv(sha, s.fs, Run(sha, s, first), rest);
    RunAppend(sha, s, first, rest);
  }

  /** A blob that was already corrupt when a run began never lets a capture of that digest succeed. */
  lemma CorruptBlobIsRefused(sha: Sha256, s: State, actions: seq<Action>, i: nat, digest: string)
    requires Initial(s) && i < |s.phases|
    requires s.fs.Exists(BlobPath(digest)) && Sha256Hex(sha, s.fs.Read(BlobPath(digest))) != digest
    ensures var end := Run(sha, s, actions);
            && s.fs.Keeps(end.fs, BlobPath(digest))
            && (end.phases[i].Finished? && Sha256Hex(sha, end.phases[i].content) == digest ==> end.phases[i].result.Err?)
  {
    StoreIsContentAddressed(sha, s, actions);
  }

  /** No two different byte strings among those a run can compare share a digest. */
  ghost predicate CollisionFree(sha: Sha256, contents: set<Bytes>) {
    forall a, b :: a in contents && b in contents && sha(a) == sha(b) ==> a == b
  }

  /** Where the digest does not collide, an Ok capture finds exactly its own bytes, so equal logs share one blob. */
  lemma OkHoldsTheCapturedBytes(sha: Sha256, s: State, actions: seq<Action>, i: nat)
    requires Initial(s) && i < |s.phases|
    requires var end := Run(sha, s, actions);
             && end.phases[i].Finished? && end.phases[i].result.Ok?
             && (end.fs.Exists(Target(sha, end.phases[i].content)) ==>
                   CollisionFree(sha, {end.phases[i].content, end.fs.Read(Target(sha, end.phases[i].content))}))
    ensures var end := Run(sha, s, actions);
            && end.fs.Exists(end.phases[i].result.value)
            && end.fs.Read(end.phases[i].result.value) == end.phases[i].content
  {
    StoreIsContentAddressed(sha, s, actions);
    var end := Run(sha, s, actions);
    EncodeInjective(sha(end.phases[i].content), sha(end.fs.Read(Target(sha, end.phases[i].content))));
  }

  /** Without failing calls a capture is refused only by a blob that really does not match. */
  ghost predicate RefusedForCause(sha: Sha256, fs: FS, phase: Phase)
    requires fs.Valid()
  {
    && (phase.LinkFailed? || phase.Verifying? ==> fs.Exists(Target(sha, phase.content)))
    && (phase.Finished? && phase.result.Err? && phase.result.error != AllocationFailed ==>
          var target := Target(sha, phase.content);
          fs.Exists(target) && !BlobMatches(sha, fs.Read(target), target.name, |phase.content|))
  }

  lemma {:induction false} FaultFreeRun(sha: Sha256, before: FS, s: State, actions: seq<Action>)
    requires before.Valid() && Inv(sha, before, s)
    requires forall a :: a in actions ==> !a.fault
    requires forall phase :: phase in s.phases ==> RefusedForCause(sha, s.fs, phase)
    ensures var end := Run(sha, s, actions);
            forall phase :: phase in end.phases ==> RefusedForCause(sha, end.fs, phase)
    decreases |actions|
  {
    if actions != [] {
      var s' := Step(sha, s, actions[0]);
      StepInv(sha, before, s, actions[0]);
      forall i | 0 <= i < |s'.phases|
        ensures RefusedForCause(sha, s'.fs, s'.phases[i])
      {
        assert s.phases[i] in s.phases && Owns(sha, s.fs, s.phases[i]);
        if i == actions[0].i {
          FaultFreeMove(sha, s.fs, s.phases[i], actions[0]);
        }
      }
      FaultFreeRun(sha, before, s', actions[1..]);
      assert Run(sha, s, actions) == Run(sha, s', actions[1..]);
    } else {
      assert Run(sha, s, actions) == s;
    }
  }

  lemma FaultFreeMove(sha: Sha256, fs: FS, phase: Phase, a: Action)
    requires fs.Valid() && Owns(sha, fs, phase) && RefusedForCause(sha, fs, phase) && !a.fault
    ensures var (fs', phase') := Move(sha, fs, phase, a);
            fs'.Valid() && RefusedForCause(sha, fs', phase')
  {
    if phase.Storing? {
      DerivedShapes(sha, phase.content);
    }
  }

  /** With no failing call, in a store free of corrupt blobs, every finished capture succeeds unless its temporary
      names ran out or its digest collides with different bytes already stored. */
  lemma FaultFreeCapturesSucceed(sha: Sha256, s: State, actions: seq<Action>, i: nat)
    requires Initial(s) && i < |s.phases|
    requires forall a :: a in actions ==> !a.fault
    requires forall p :: p in s.fs.names && p.dir == BLOB_DIR ==> Sha256Hex(sha, s.fs.Read(p)) == p.name
    requires Run(sha, s, actions).phases[i].Finished?
    ensures var end := Run(sha, s, actions);
            var phase := end.phases[i];
            || phase.result.Ok?
            || phase.result == Err(AllocationFailed)
            || (end.fs.Exists(Target(sha, phase.content))
                && end.fs.Read(Target(sha, phase.content)) != phase.content
                && sha(end.fs.Read(Target(sha, phase.content))) == sha(phase.content))
  {
    RunInv(sha, s.fs, s, actions);
    FaultFreeRun(sha, s.fs, s, actions);
    var end := Run(sha, s, actions);
    var phase := end.phases[i];
    assert phase in end.phases;
    if phase.result.Err? && phase.result != Err(AllocationFailed) {
      var target := Target(sha, phase.content);
      assert Sha256Hex(sha, end.fs.Read(target)) == target.name;
      EncodeInjective(sha(end.fs.Read(target)), sha(phase.content));
    }
  }
}
