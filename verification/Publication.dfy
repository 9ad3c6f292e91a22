/** `write_json_atomic` (src/source.rs): no-clobber publication by several publishers at once.

    Any number of publishers race for one target path. Every filesystem call is one atomic step,
    the steps interleave arbitrarily, any call may fail, and other programs may create files. */
module Publication {
  import opened Basics
  import opened FileSystem

  const MAX_ATTEMPTS: nat := 100

  datatype Failure = OutputAlreadyExists | IoFailed | AllocationFailed

  datatype Phase =
    | Preflight
    | Allocating(attempts: nat)
    | Writing(temp: Path, inode: nat, written: nat)
    | Synced(temp: Path, inode: nat)
    | Linked(temp: Path)
    | CleaningUp(temp: Path, cause: Failure)
    | Finished(result: Result<Unit, Failure>)

  /** `foreign` remembers bytes put at the target by anyone but the publishers. */
  datatype State = State(fs: FS, phases: seq<Phase>, foreign: Option<Bytes>)

  datatype Action =
    | Publisher(i: nat, fault: bool, suffix: string, count: nat)
    | Occupy(path: Path, content: Bytes)

  function TempPath(target: Path, suffix: string): Path {
    Path(target.dir, "." + target.name + "." + suffix + ".tmp")
  }

  function Move(fs: FS, target: Path, doc: Bytes, phase: Phase, fault: bool, suffix: string, count: nat): (FS, Phase) {
    match phase
    case Preflight =>
      if fault then (fs, Finished(Err(IoFailed)))
      else if fs.Exists(target) then (fs, Finished(Err(OutputAlreadyExists)))
      else (fs, Allocating(0))
    case Allocating(attempts) =>
      var temp := TempPath(target, suffix);
      if attempts == MAX_ATTEMPTS then (fs, Finished(Err(AllocationFailed)))
      else if fs.Exists(temp) then (fs, Allocating(attempts + 1))
      else if fault then (fs, Finished(Err(IoFailed)))
      else (fs.CreateNew(temp), Writing(temp, |fs.data|, 0))
    case Writing(temp, inode, written) =>
      if fault || inode >= |fs.data| then (fs, CleaningUp(temp, IoFailed))
      else if written < |doc| then
        var next := Min(written + count, |doc|);
        (fs.Append(inode, doc[written..next]), Writing(temp, inode, next))
      else (fs, Synced(temp, inode))
    case Synced(temp, inode) =>
      if fault || fs.Exists(target) || !fs.Exists(temp) then (fs, CleaningUp(temp, IoFailed))
      else (fs.Link(temp, target), Linked(temp))
    case Linked(temp) =>
      (if fault then fs else fs.Remove(temp), Finished(Ok(Unit)))
    case CleaningUp(temp, cause) =>
      (if fault then fs else fs.Remove(temp), Finished(Err(cause)))
    case Finished(_) => (fs, phase)
  }

  function Step(target: Path, docs: seq<Bytes>, s: State, a: Action): State
    requires |s.phases| == |docs|
  {
    match a
    case Publisher(i, fault, suffix, count) =>
      if i >= |docs| then s
      else
        var (fs, phase) := Move(s.fs, target, docs[i], s.phases[i], fault, suffix, count);
        s.(fs := fs, phases := s.phases[i := phase])
    case Occupy(path, content) =>
      if s.fs.Exists(path) then s
      else
        var created := s.fs.CreateNew(path);
        s.(fs := created.Append(|s.fs.data|, content),
           foreign := if path == target then Some(content) else s.foreign)
  }

  function Run(target: Path, docs: seq<Bytes>, s: State, actions: seq<Action>): (end: State)
    requires |s.phases| == |docs|
    ensures |end.phases| == |docs|
    decreases |actions|
  {
    if actions == [] then s
    else Run(target, docs, Step(target, docs, s, actions[0]), actions[1..])
  }

  /** Nobody has started; whatever is at the target was put there by someone else. */
  predicate Initial(target: Path, docs: seq<Bytes>, s: State) {
    && s.fs.Valid()
    && |s.phases| == |docs|
    && (forall i :: 0 <= i < |docs| ==> s.phases[i] == Preflight)
    && s.foreign == if s.fs.Exists(target) then Some(s.fs.Read(target)) else None
  }

  predicate Active(phase: Phase) {
    phase.Writing? || phase.Synced? || phase.Linked? || phase.CleaningUp?
  }

  /** The hard link has been made. */
  predicate Committed(phase: Phase) {
    phase.Linked? || phase == Finished(Ok(Unit))
  }

  predicate Owns(fs: FS, target: Path, doc: Bytes, phase: Phase) {
    && (Active(phase) ==> phase.temp in fs.names && phase.temp != target)
    && (phase.Writing? || phase.Synced? ==>
          fs.names[phase.temp] == phase.inode < |fs.data| && (target in fs.names ==> fs.names[target] != phase.inode))
    && (phase.Writing? ==> phase.written <= |doc| && fs.data[phase.inode] == doc[..phase.written])
    && (phase.Synced? ==> fs.data[phase.inode] == doc)
    && (Committed(phase) ==> target in fs.names && fs.names[target] < |fs.data| && fs.data[fs.names[target]] == doc)
  }

  /** Two publishers in progress never share a temporary name or a writable inode. */
  predicate Apart(a: Phase, b: Phase) {
    && (Active(a) && Active(b) ==> a.temp != b.temp)
    && ((a.Writing? || a.Synced?) && (b.Writing? || b.Synced?) ==> a.inode != b.inode)
    && !(Committed(a) && Committed(b))
  }

  predicate AllOwn(fs: FS, target: Path, docs: seq<Bytes>, phases: seq<Phase>) {
    |phases| == |docs| && forall i :: 0 <= i < |docs| ==> Owns(fs, target, docs[i], phases[i])
  }

  predicate AllApart(phases: seq<Phase>) {
    forall i, j :: 0 <= i < |phases| && 0 <= j < |phases| && i != j ==> Apart(phases[i], phases[j])
  }

  predicate SomeCommitted(phases: seq<Phase>) {
    exists i :: 0 <= i < |phases| && Committed(phases[i])
  }

  /** The target is absent, foreign, or published; foreign bytes stay, and then nobody publishes. */
  predicate Accounted(fs: FS, target: Path, phases: seq<Phase>, foreign: Option<Bytes>)
    requires fs.Valid()
  {
    && (fs.Exists(target) ==> foreign == Some(fs.Read(target)) || SomeCommitted(phases))
    && (foreign.Some? ==> fs.Exists(target) && fs.Read(target) == foreign.value && !SomeCommitted(phases))
  }

  predicate Inv(target: Path, docs: seq<Bytes>, s: State) {
    s.fs.Valid() && AllOwn(s.fs, target, docs, s.phases) && AllApart(s.phases)
    && Accounted(s.fs, target, s.phases, s.foreign)
  }

  lemma InitialInv(target: Path, docs: seq<Bytes>, s: State)
    requires Initial(target, docs, s)
    ensures Inv(target, docs, s)
  {
  }

  /** A publisher's own move keeps what it owns. */
  lemma MoveOwns(fs: FS, target: Path, doc: Bytes, phase: Phase, fault: bool, suffix: string, count: nat)
    requires fs.Valid() && Owns(fs, target, doc, phase)
    ensures var (fs', phase') := Move(fs, target, doc, phase, fault, suffix, count);
            fs'.Valid() && Owns(fs', target, doc, phase')
  {
    assert |TempPath(target, suffix).name| > |target.name|;
    if phase.Writing? && !fault && phase.written < |doc| {
      var next := Min(phase.written + count, |doc|);
      assert doc[..phase.written] + doc[phase.written..next] == doc[..next];
    }
    if phase.Writing? && !fault && phase.written == |doc| {
      assert doc[..phase.written] == doc;
    }
  }

  /** It disturbs neither what another publisher owns nor its separation from it. */
  lemma MoveFrames(fs: FS, target: Path, docI: Bytes, docJ: Bytes, pi: Phase, pj: Phase,
                   fault: bool, suffix: string, count: nat)
    requires fs.Valid() && Owns(fs, target, docI, pi) && Owns(fs, target, docJ, pj)
    requires Apart(pi, pj) && Apart(pj, pi)
    ensures var (fs', pi') := Move(fs, target, docI, pi, fault, suffix, count);
            Owns(fs', target, docJ, pj) && Apart(pi', pj) && Apart(pj, pi')
  {
  }

  /** A move never rebinds, removes or rewrites the target once it exists. */
  lemma MoveKeepsTarget(fs: FS, target: Path, doc: Bytes, phase: Phase, fault: bool, suffix: string, count: nat)
    requires fs.Valid() && Owns(fs, target, doc, phase)
    ensures var (fs', phase') := Move(fs, target, doc, phase, fault, suffix, count);
            && (fs.Exists(target) ==> fs.Keeps(fs', target) && (Committed(phase') ==> Committed(phase)))
            && (!fs.Exists(target) && fs'.Exists(target) ==> Committed(phase'))
  {
    assert |TempPath(target, suffix).name| > |target.name|;
  }

  /** A publisher's move keeps what everybody owns, and everybody apart. */
  lemma MovePhases(target: Path, docs: seq<Bytes>, s: State, i: nat, fault: bool, suffix: string, count: nat)
    requires Inv(target, docs, s) && i < |docs|
    ensures var (fs', phase') := Move(s.fs, target, docs[i], s.phases[i], fault, suffix, count);
            fs'.Valid() && AllOwn(fs', target, docs, s.phases[i := phase']) && AllApart(s.phases[i := phase'])
  {
    var (fs', phase') := Move(s.fs, target, docs[i], s.phases[i], fault, suffix, count);
    MoveOwns(s.fs, target, docs[i], s.phases[i], fault, suffix, count);
    forall j | 0 <= j < |docs| && j != i
      ensures Owns(fs', target, docs[j], s.phases[j])
      ensures Apart(phase', s.phases[j]) && Apart(s.phases[j], phase')
    {
      assert Apart(s.phases[i], s.phases[j]) && Apart(s.phases[j], s.phases[i]);
      MoveFrames(s.fs, target, docs[i], docs[j], s.phases[i], s.phases[j], fault, suffix, count);
    }
  }

  lemma CommittedStays(phases: seq<Phase>, i: nat, phase: Phase)
    requires i < |phases|
    ensures SomeCommitted(phases) && (Committed(phases[i]) ==> Committed(phase)) ==> SomeCommitted(phases[i := phase])
    ensures Committed(phase) ==> SomeCommitted(phases[i := phase])
    ensures SomeCommitted(phases[i := phase]) && (Committed(phase) ==> Committed(phases[i])) ==> SomeCommitted(phases)
  {
    var next := phases[i := phase];
    assert next[i] == phase;
    assert forall j :: 0 <= j < |phases| && j != i ==> next[j] == phases[j];
    if k :| 0 <= k < |phases| && Committed(phases[k]) && (Committed(phases[i]) ==> Committed(phase)) {
      assert Committed(next[k]);
    }
  }

  lemma PublisherStep(target: Path, docs: seq<Bytes>, s: State, i: nat, fault: bool, suffix: string, count: nat)
    requires Inv(target, docs, s) && i < |docs|
    ensures var (fs', phase') := Move(s.fs, target, docs[i], s.phases[i], fault, suffix, count);
            && Inv(target, docs, s.(fs := fs', phases := s.phases[i := phase']))
            && (s.fs.Exists(target) ==> s.fs.Keeps(fs', target))
  {
    var (fs', phase') := Move(s.fs, target, docs[i], s.phases[i], fault, suffix, count);
    MovePhases(target, docs, s, i, fault, suffix, count);
    MoveKeepsTarget(s.fs, target, docs[i], s.phases[i], fault, suffix, count);
    if Committed(s.phases[i]) {
      MoveKeepsCommitted(s.fs, target, docs[i], s.phases[i], fault, suffix, count);
    }
    CommittedStays(s.phases, i, phase');
  }

  /** A committed publisher stays committed. */
  lemma MoveKeepsCommitted(fs: FS, target: Path, doc: Bytes, phase: Phase, fault: bool, suffix: string, count: nat)
    requires fs.Valid() && Owns(fs, target, doc, phase) && Committed(phase)
    ensures Committed(Move(fs, target, doc, phase, fault, suffix, count).1)
  {
  }

  lemma OccupyStep(target: Path, docs: seq<Bytes>, s: State, path: Path, content: Bytes)
    requires Inv(target, docs, s) && !s.fs.Exists(path)
    ensures var created := s.fs.CreateNew(path).Append(|s.fs.data|, content);
            && Inv(target, docs, s.(fs := created, foreign := if path == target then Some(content) else s.foreign))
            && (s.fs.Exists(target) ==> s.fs.Keeps(created, target))
  {
    var created := s.fs.CreateNew(path).Append(|s.fs.data|, content);
    assert [] + content == content;
    forall i | 0 <= i < |docs| ensures Owns(created, target, docs[i], s.phases[i]) {
      assert Owns(s.fs, target, docs[i], s.phases[i]);
    }
  }

  lemma StepInv(target: Path, docs: seq<Bytes>, s: State, a: Action)
    requires Inv(target, docs, s)
    ensures Inv(target, docs, Step(target, docs, s, a))
    ensures s.fs.Exists(target) ==> s.fs.Keeps(Step(target, docs, s, a).fs, target)
  {
    match a
    case Publisher(i, fault, suffix, count) =>
      if i < |docs| {
        PublisherStep(target, docs, s, i, fault, suffix, count);
      }
    case Occupy(path, content) =>
      if !s.fs.Exists(path) {
        OccupyStep(target, docs, s, path, content);
      }
  }

  lemma {:induction false} RunInv(target: Path, docs: seq<Bytes>, s: State, actions: seq<Action>)
    requires Inv(target, docs, s)
    ensures Inv(target, docs, Run(target, docs, s, actions))
    ensures s.fs.Exists(target) ==> s.fs.Keeps(Run(target, docs, s, actions).fs, target)
    decreases |actions|
  {
    if actions != [] {
      StepInv(target, docs, s, actions[0]);
      RunInv(target, docs, Step(target, docs, s, actions[0]), actions[1..]);
    }
  }

  lemma {:induction false} RunAppend(target: Path, docs: seq<Bytes>, s: State, first: seq<Action>, rest: seq<Action>)
    requires |s.phases| == |docs|
    ensures Run(target, docs, s, first + rest) == Run(target, docs, Run(target, docs, s, first), rest)
    decreases |first|
  {
    if first == [] {
      assert first + rest == rest;
    } else {
      assert (first + rest)[1..] == first[1..] + rest;
      RunAppend(target, docs, Step(target, docs, s, first[0]), first[1..], rest);
    }
  }

  /** Some schedule leads from one state to the other. */
  ghost predicate Reaches(target: Path, docs: seq<Bytes>, s: State, t: State)
    requires |s.phases| == |docs|
  {
    exists actions: seq<Action> :: Run(target, docs, s, actions) == t
  }

  lemma ReachesItself(target: Path, docs: seq<Bytes>, s: State)
    requires |s.phases| == |docs|
    ensures Reaches(target, docs, s, s)
  {
    assert Run(target, docs, s, []) == s;
  }

  lemma ReachesTransitive(target: Path, docs: seq<Bytes>, s: State, t: State, u: State)
    requires |s.phases| == |docs| == |t.phases| && Reaches(target, docs, s, t) && Reaches(target, docs, t, u)
    ensures Reaches(target, docs, s, u)
  {
    var first: seq<Action> :| Run(target, docs, s, first) == t;
    var rest: seq<Action> :| Run(target, docs, t, rest) == u;
    RunAppend(target, docs, s, first, rest);
    assert Run(target, docs, s, first + rest) == u;
  }

  /** One publisher and nobody else. */
  function Alone(fs: FS, phase: Phase, foreign: Option<Bytes>): State {
    State(fs, [phase], foreign)
  }

  ghost predicate ReachesAlone(target: Path, doc: Bytes, foreign: Option<Bytes>, fs: FS, phase: Phase, fs': FS, phase': Phase) {
    Reaches(target, [doc], Alone(fs, phase, foreign), Alone(fs', phase', foreign))
  }

  lemma AloneMoves(target: Path, doc: Bytes, foreign: Option<Bytes>, fs: FS, phase: Phase, fault: bool, suffix: string, count: nat)
    ensures var (fs', phase') := Move(fs, target, doc, phase, fault, suffix, count);
            ReachesAlone(target, doc, foreign, fs, phase, fs', phase')
  {
    var s, a := Alone(fs, phase, foreign), Publisher(0, fault, suffix, count);
    var (fs', phase') := Move(fs, target, doc, phase, fault, suffix, count);
    assert [a][1..] == [];
    assert s.phases[0 := phase'] == [phase'];
    assert Step(target, [doc], s, a) == Alone(fs', phase', foreign);
    assert Run(target, [doc], s, [a]) == Run(target, [doc], Step(target, [doc], s, a), []);
  }

  lemma AloneTransitive(target: Path, doc: Bytes, foreign: Option<Bytes>, fs: FS, phase: Phase, fs1: FS, phase1: Phase,
                        fs2: FS, phase2: Phase)
    requires ReachesAlone(target, doc, foreign, fs, phase, fs1, phase1)
    requires ReachesAlone(target, doc, foreign, fs1, phase1, fs2, phase2)
    ensures ReachesAlone(target, doc, foreign, fs, phase, fs2, phase2)
  {
    ReachesTransitive(target, [doc], Alone(fs, phase, foreign), Alone(fs1, phase1, foreign), Alone(fs2, phase2, foreign));
  }

  /** The calls after the allocation when nobody interferes, on a document written in two pieces: two writes, the
      sync, the link and the removal, each of which may fail. */
  function WrittenAlone(fs: FS, target: Path, json: Bytes, rest: Bytes, temp: Path, inode: nat,
                        f1: bool, f2: bool, f3: bool, f4: bool, f5: bool): (FS, Phase)
  {
    var doc := json + rest;
    var (fs1, phase1) := Move(fs, target, doc, Writing(temp, inode, 0), f1, "", |json|);
    var (fs2, phase2) := Move(fs1, target, doc, phase1, phase1.Writing? && f2, "", |rest|);
    var (fs3, phase3) := Move(fs2, target, doc, phase2, phase2.Writing? && f3, "", 0);
    var (fs4, phase4) := Move(fs3, target, doc, phase3, phase3.Synced? && f4, "", 0);
    Move(fs4, target, doc, phase4, phase4.Linked? && f5, "", 0)
  }

  lemma WrittenAloneIsReached(fs: FS, target: Path, json: Bytes, rest: Bytes, temp: Path, inode: nat, foreign: Option<Bytes>,
                              f1: bool, f2: bool, f3: bool, f4: bool, f5: bool)
    ensures var (fs', phase') := WrittenAlone(fs, target, json, rest, temp, inode, f1, f2, f3, f4, f5);
            ReachesAlone(target, json + rest, foreign, fs, Writing(temp, inode, 0), fs', phase')
  {
    var doc, phase0 := json + rest, Writing(temp, inode, 0);
    var (fs1, phase1) := Move(fs, target, doc, phase0, f1, "", |json|);
    AloneMoves(target, doc, foreign, fs, phase0, f1, "", |json|);
    var (fs2, phase2) := Move(fs1, target, doc, phase1, phase1.Writing? && f2, "", |rest|);
    AloneMoves(target, doc, foreign, fs1, phase1, phase1.Writing? && f2, "", |rest|);
    AloneTransitive(target, doc, foreign, fs, phase0, fs1, phase1, fs2, phase2);
    var (fs3, phase3) := Move(fs2, target, doc, phase2, phase2.Writing? && f3, "", 0);
    AloneMoves(target, doc, foreign, fs2, phase2, phase2.Writing? && f3, "", 0);
    AloneTransitive(target, doc, foreign, fs, phase0, fs2, phase2, fs3, phase3);
    var (fs4, phase4) := Move(fs3, target, doc, phase3, phase3.Synced? && f4, "", 0);
    AloneMoves(target, doc, foreign, fs3, phase3, phase3.Synced? && f4, "", 0);
    AloneTransitive(target, doc, foreign, fs, phase0, fs3, phase3, fs4, phase4);
    var (fs5, phase5) := Move(fs4, target, doc, phase4, phase4.Linked? && f5, "", 0);
    AloneMoves(target, doc, foreign, fs4, phase4, phase4.Linked? && f5, "", 0);
    AloneTransitive(target, doc, foreign, fs, phase0, fs4, phase4, fs5, phase5);
  }

  /** The filesystem with one more inode, named by `temp`. */
  function WithTemp(fs: FS, temp: Path, content: Bytes): FS {
    FS(fs.names[temp := |fs.data|], fs.data + [content])
  }

  /** The inode stays, without a name. */
  function Orphaned(fs: FS, content: Bytes): FS {
    FS(fs.names, fs.data + [content])
  }

  lemma WritesAppend(fs: FS, json: Bytes, rest: Bytes, temp: Path)
    ensures (json + rest)[0..|json|] == json && (json + rest)[|json|..|json + rest|] == rest
    ensures WithTemp(fs, temp, []).Append(|fs.data|, json) == WithTemp(fs, temp, json)
    ensures WithTemp(fs, temp, json).Append(|fs.data|, rest) == WithTemp(fs, temp, json + rest)
  {
    assert [] + json == json;
    assert (fs.data + [[]])[|fs.data| := json] == fs.data + [json];
    assert (fs.data + [json])[|fs.data| := json + rest] == fs.data + [json + rest];
  }

  lemma RemovedIsOrphaned(fs: FS, temp: Path, content: Bytes)
    requires !fs.Exists(temp)
    ensures WithTemp(fs, temp, content).Remove(temp) == Orphaned(fs, content)
  {
    assert WithTemp(fs, temp, content).Remove(temp).names == fs.names;
  }

  lemma WritesFail(fs: FS, target: Path, json: Bytes, rest: Bytes, temp: Path, f1: bool, f2: bool, f3: bool, f4: bool, f5: bool)
    requires rest != [] && !fs.Exists(target) && !fs.Exists(temp) && target != temp && (f1 || f2 || f3 || f4)
    ensures WrittenAlone(WithTemp(fs, temp, []), target, json, rest, temp, |fs.data|, f1, f2, f3, f4, f5)
            == (Orphaned(fs, if f1 then [] else if f2 then json else json + rest), Finished(Err(IoFailed)))
  {
    WritesAppend(fs, json, rest, temp);
    RemovedIsOrphaned(fs, temp, []);
    RemovedIsOrphaned(fs, temp, json);
    RemovedIsOrphaned(fs, temp, json + rest);
  }

  lemma WritesSucceed(fs: FS, target: Path, json: Bytes, rest: Bytes, temp: Path, f5: bool)
    requires rest != [] && !fs.Exists(target) && !fs.Exists(temp) && target != temp
    ensures var linked := WithTemp(fs, temp, json + rest).Link(temp, target);
            WrittenAlone(WithTemp(fs, temp, []), target, json, rest, temp, |fs.data|, false, false, false, false, f5)
            == (if f5 then linked else linked.Remove(temp), Finished(Ok(Unit)))
  {
    WritesAppend(fs, json, rest, temp);
  }

  /** From the moment the target exists, whoever made it, it is never touched again. */
  lemma NeverOverwritten(target: Path, docs: seq<Bytes>, s: State, first: seq<Action>, rest: seq<Action>)
    requires Initial(target, docs, s)
    requires Run(target, docs, s, first).fs.Exists(target)
    ensures Run(target, docs, s, first).fs.Keeps(Run(target, docs, s, first + rest).fs, target)
  {
    InitialInv(target, docs, s);
    RunInv(target, docs, s, first);
    RunInv(target, docs, Run(target, docs, s, first), rest);
    RunAppend(target, docs, s, first, rest);
  }

  /** At every moment the target holds foreign bytes or one publisher's complete document; a publisher
      that returned Ok is the only one that did, and the target is its document. */
  lemma PublicationAtomic(target: Path, docs: seq<Bytes>, s: State, actions: seq<Action>)
    requires Initial(target, docs, s)
    ensures var end := Run(target, docs, s, actions);
            && end.fs.Valid()
            && (end.fs.Exists(target) ==>
                  || end.foreign == Some(end.fs.Read(target))
                  || exists i :: 0 <= i < |docs| && Committed(end.phases[i]) && end.fs.Read(target) == docs[i])
            && (forall i :: 0 <= i < |docs| && end.phases[i] == Finished(Ok(Unit)) ==>
                  end.fs.Exists(target) && end.fs.Read(target) == docs[i])
            && (forall i, j :: 0 <= i < |docs| && 0 <= j < |docs| && Committed(end.phases[i]) && Committed(end.phases[j])
                  ==> i == j)
  {
    InitialInv(target, docs, s);
    RunInv(target, docs, s, actions);
    var end := Run(target, docs, s, actions);
    if end.fs.Exists(target) && end.foreign != Some(end.fs.Read(target)) {
      var i :| 0 <= i < |docs| && Committed(end.phases[i]);
      assert Owns(end.fs, target, docs[i], end.phases[i]);
    }
    OneCommitted(end.phases);
  }

  lemma OneCommitted(phases: seq<Phase>)
    requires AllApart(phases)
    ensures forall i, j :: 0 <= i < |phases| && 0 <= j < |phases| && Committed(phases[i]) && Committed(phases[j]) ==> i == j
  {
    assert forall i, j :: 0 <= i < |phases| && 0 <= j < |phases| && i != j ==> Apart(phases[i], phases[j]);
  }

  /** No call fails and nobody else creates the target. */
  predicate Undisturbed(target: Path, actions: seq<Action>) {
    forall k :: 0 <= k < |actions| ==> Benign(target, actions[k])
  }

  predicate Benign(target: Path, a: Action) {
    match a
    case Publisher(_, fault, _, _) => !fault
    case Occupy(path, _) => path != target
  }

  /** Without failures a publisher gives up only after losing the race or the allocation. */
  predicate LostFairly(target: Path, fs: FS, phase: Phase) {
    phase.CleaningUp? || (phase.Finished? && phase.result != Err(AllocationFailed)) ==> fs.Exists(target)
  }

  lemma {:induction false} UndisturbedRun(target: Path, docs: seq<Bytes>, s: State, actions: seq<Action>)
    requires Inv(target, docs, s) && s.foreign.None? && Undisturbed(target, actions)
    requires forall i :: 0 <= i < |docs| ==> LostFairly(target, s.fs, s.phases[i])
    ensures var end := Run(target, docs, s, actions);
            end.foreign.None? && forall i :: 0 <= i < |docs| ==> LostFairly(target, end.fs, end.phases[i])
    decreases |actions|
  {
    if actions != [] {
      assert Benign(target, actions[0]);
      var s' := Step(target, docs, s, actions[0]);
      StepInv(target, docs, s, actions[0]);
      forall i | 0 <= i < |docs|
        ensures LostFairly(target, s'.fs, s'.phases[i])
      {
        assert Owns(s.fs, target, docs[i], s.phases[i]);
        assert LostFairly(target, s.fs, s.phases[i]);
      }
      assert Undisturbed(target, actions[1..]) by {
        assert forall k :: 0 <= k < |actions| - 1 ==> actions[1..][k] == actions[k + 1];
      }
      UndisturbedRun(target, docs, s', actions[1..]);
    }
  }

  /** Racing publishers cannot all lose: with an absent target, no failing call and no foreign creator, once
      any publisher has finished (other than by exhausting its temporary names) exactly one has committed. */
  lemma ExactlyOneWinner(target: Path, docs: seq<Bytes>, s: State, actions: seq<Action>, k: nat)
    requires Initial(target, docs, s) && !s.fs.Exists(target) && Undisturbed(target, actions)
    requires k < |docs|
    requires var phase := Run(target, docs, s, actions).phases[k];
             phase.Finished? && phase.result != Err(AllocationFailed)
    ensures var end := Run(target, docs, s, actions);
            exists i :: 0 <= i < |docs| && Committed(end.phases[i]) && end.fs.Valid() && end.fs.Exists(target)
                        && end.fs.Read(target) == docs[i]
                        && forall j :: 0 <= j < |docs| && Committed(end.phases[j]) ==> j == i
  {
    InitialInv(target, docs, s);
    UndisturbedRun(target, docs, s, actions);
    PublicationAtomic(target, docs, s, actions);
    assert LostFairly(target, Run(target, docs, s, actions).fs, Run(target, docs, s, actions).phases[k]);
  }
}
