/** The release-readiness decision over a validated evidence manifest (scripts/verify_v1_evidence.py).

    Dates are day numbers. The structure `validate_structure` checks is built into the types: every gate and every
    track is present, dates are dates, and the required window is 30 days. */
module Readiness {
  import opened Basics
  import opened Order

  datatype Gate = ProductCompatibility | CorrectnessSecurity | PerformanceBounds | DeliveryMaintenance | Adoption

  datatype Track = Linux | Macos | Windows

  datatype Adopter = Adopter(name: string, firstUse: int)

  datatype Repeat = Repeat(adopter: string, repeatUse: int)

  datatype Manifest = Manifest(
    targetVersion: string, asOf: int, satisfied: Gate -> bool, evidence: Gate -> set<string>,
    reviewCompleted: Option<int>, reviewedAreas: set<string>, openCritical: nat, openHigh: nat,
    start: Option<int>, end: Option<int>, runs: Track -> seq<int>,
    continuitySatisfied: bool, continuityMode: Option<string>, continuityEvidence: nat,
    adopters: seq<Adopter>, repeats: seq<Repeat>, publicIntegration: bool, nonMaintainerContribution: bool)

  /** `major` is the SemVer match with the first group; `fold` is strip followed by casefold. */
  datatype Text = Text(major: string -> Option<nat>, fold: string -> string)

  datatype ReadinessError =
    | TargetVersion | ReleaseVersionFormat | ReleaseVersion | GateStatus(gate: Gate) | GateEvidence(gate: Gate)
    | SecurityReview | SecurityScope | SecurityFindings | CiWindow | CiFreshness | CiPlatform(track: Track)
    | ContinuityStatus | ContinuityMode | ContinuityEvidence | Adopters | AdopterDuplicates | RepeatDuplicates
    | RepeatAdopter | RepeatWindow | RepeatAdopters | PublicIntegration | ExternalContribution | AsOf

  const REQUIRED_DAYS: nat := 30

  const GATES: seq<Gate> :=
    [Adoption, CorrectnessSecurity, DeliveryMaintenance, PerformanceBounds, ProductCompatibility]

  const TRACKS: seq<Track> := [Linux, Macos, Windows]

  /** The criteria a gate needs evidence for; the adoption gate has none. */
  function Criteria(gate: Gate): set<string> {
    match gate
    case ProductCompatibility =>
      {"contract-compatibility", "golden-workspaces-and-receipts", "offline-verification", "explicit-attestation-limits"}
    case CorrectnessSecurity =>
      {"discovery-corpus", "discovery-accuracy", "discovery-non-execution", "receipt-adversarial-corpus",
       "lifecycle-stress", "vulnerability-audit"}
    case PerformanceBounds =>
      {"discovery-and-selection-latency", "offline-verification-latency", "bounded-fixture-memory", "configured-bounds",
       "benchmark-reproducibility"}
    case DeliveryMaintenance => {"release-supply-chain", "security-response-slo"}
    case Adoption => {}
  }

  function ReviewAreas(): set<string> {
    {"command-discovery", "argument-handling", "environment-forwarding", "process-trees", "cancellation-races",
     "log-storage", "redaction", "no-clobber-publication", "receipt-integrity", "offline-verification"}
  }

  // The declarative predicate.

  predicate VersionReady(t: Text, m: Manifest, release: Option<string>) {
    && t.major(m.targetVersion).Some? && t.major(m.targetVersion).value >= 1
    && (release.Some? ==> release.value == m.targetVersion)
  }

  ghost predicate GatesReady(m: Manifest) {
    forall gate :: m.satisfied(gate) && Criteria(gate) <= m.evidence(gate)
  }

  predicate SecurityReady(m: Manifest) {
    m.reviewCompleted.Some? && m.reviewedAreas == ReviewAreas() && m.openCritical == 0 && m.openHigh == 0
  }

  /** At least 30 days ending on the manifest's date, and every track ran on exactly those days. */
  ghost predicate WindowReady(m: Manifest) {
    && m.start.Some? && m.end == Some(m.asOf) && m.asOf - m.start.value + 1 >= REQUIRED_DAYS
    && forall track, day :: day in m.runs(track) <==> m.start.value <= day <= m.asOf
  }

  predicate ContinuityReady(m: Manifest) {
    && m.continuitySatisfied && m.continuityEvidence > 0
    && (m.continuityMode == Some("two-maintainer-drill") || m.continuityMode == Some("single-maintainer-recovery"))
  }

  predicate DistinctAdopters(t: Text, adopters: seq<Adopter>) {
    forall i, j :: 0 <= i < j < |adopters| ==> t.fold(adopters[i].name) != t.fold(adopters[j].name)
  }

  predicate DistinctRepeats(t: Text, repeats: seq<Repeat>) {
    forall i, j :: 0 <= i < j < |repeats| ==> t.fold(repeats[i].adopter) != t.fold(repeats[j].adopter)
  }

  /** The repeat is by an adopter, 30 days or more after that adopter's first use. */
  predicate RepeatReady(t: Text, adopters: seq<Adopter>, r: Repeat) {
    exists i :: 0 <= i < |adopters| && t.fold(adopters[i].name) == t.fold(r.adopter) && r.repeatUse - adopters[i].firstUse >= 30
  }

  predicate AdoptionReady(t: Text, m: Manifest) {
    && |m.adopters| >= 3 && DistinctAdopters(t, m.adopters)
    && |m.repeats| >= 2 && DistinctRepeats(t, m.repeats)
    && (forall i :: 0 <= i < |m.repeats| ==> RepeatReady(t, m.adopters, m.repeats[i]))
    && m.publicIntegration && m.nonMaintainerContribution
  }

  predicate NothingLater(m: Manifest) {
    && (m.reviewCompleted.Some? ==> m.reviewCompleted.value <= m.asOf)
    && (forall i :: 0 <= i < |m.adopters| ==> m.adopters[i].firstUse <= m.asOf)
    && (forall i :: 0 <= i < |m.repeats| ==> m.repeats[i].repeatUse <= m.asOf)
  }

  ghost predicate Ready(t: Text, m: Manifest, release: Option<string>) {
    && VersionReady(t, m, release) && GatesReady(m) && SecurityReady(m) && WindowReady(m) && ContinuityReady(m)
    && AdoptionReady(t, m) && NothingLater(m)
  }

  // What `readiness_errors` does, section by section.

  method VersionErrors(t: Text, m: Manifest, release: Option<string>) returns (errors: seq<ReadinessError>)
    ensures errors == [] <==> VersionReady(t, m, release)
  {
    errors := [];
    if t.major(m.targetVersion).None? || t.major(m.targetVersion).value < 1 {
      errors := errors + [TargetVersion];
    }
    if release.Some? {
      if t.major(release.value).None? {
        errors := errors + [ReleaseVersionFormat];
      } else if m.targetVersion != release.value {
        errors := errors + [ReleaseVersion];
      }
    }
  }

  lemma EveryGate(gate: Gate)
    ensures gate in GATES
  {
    assert GATES[0] == Adoption && GATES[1] == CorrectnessSecurity && GATES[2] == DeliveryMaintenance
           && GATES[3] == PerformanceBounds && GATES[4] == ProductCompatibility;
  }

  lemma EveryTrack(track: Track)
    ensures track in TRACKS
  {
    assert TRACKS[0] == Linux && TRACKS[1] == Macos && TRACKS[2] == Windows;
  }

  method GateErrors(m: Manifest) returns (errors: seq<ReadinessError>)
    ensures errors == [] <==> GatesReady(m)
  {
    errors := [];
    for i := 0 to |GATES|
      invariant errors == [] <==> forall k :: 0 <= k < i ==> m.satisfied(GATES[k])
    {
      if !m.satisfied(GATES[i]) {
        errors := errors + [GateStatus(GATES[i])];
      }
    }
    ghost var statuses := errors == [];
    for i := 0 to |GATES|
      invariant errors == [] <==> statuses && forall k :: 0 <= k < i ==> Criteria(GATES[k]) <= m.evidence(GATES[k])
    {
      if !(Criteria(GATES[i]) <= m.evidence(GATES[i])) {
        errors := errors + [GateEvidence(GATES[i])];
      }
    }
    if errors == [] {
      forall gate ensures m.satisfied(gate) && Criteria(gate) <= m.evidence(gate) {
        EveryGate(gate);
        var k :| 0 <= k < |GATES| && GATES[k] == gate;
      }
    }
  }

  method SecurityErrors(m: Manifest) returns (errors: seq<ReadinessError>)
    ensures errors == [] <==> SecurityReady(m)
  {
    errors := [];
    if m.reviewCompleted.None? {
      errors := errors + [SecurityReview];
    }
    if m.reviewedAreas != ReviewAreas() {
      errors := errors + [SecurityScope];
    }
    if m.openCritical != 0 || m.openHigh != 0 {
      errors := errors + [SecurityFindings];
    }
  }

  /** The days from `start` to `end`. */
  function Days(start: int, end: int): (days: set<int>)
    ensures forall day :: day in days <==> start <= day <= end
    decreases end - start
  {
    if end < start then {} else Days(start, end - 1) + {end}
  }

  /** Runs missing from the expected days, and runs outside them. */
  method TrackErrors(track: Track, runs: seq<int>, expected: set<int>) returns (errors: seq<ReadinessError>)
    ensures errors == [] <==> forall day :: day in runs <==> day in expected
  {
    errors := [];
    var actual := Elements(runs);
    if expected - actual != {} {
      errors := errors + [CiPlatform(track)];
    }
    if actual - expected != {} {
      errors := errors + [CiPlatform(track)];
    }
    SameDays(runs, expected);
  }

  lemma SameDays(runs: seq<int>, expected: set<int>)
    ensures (forall day :: day in runs <==> day in expected)
            <==> expected - Elements(runs) == {} && Elements(runs) - expected == {}
  {
    var actual := Elements(runs);
    if forall day :: day in runs <==> day in expected {
      assert expected == actual;
    }
    if expected - actual == {} && actual - expected == {} {
      forall day ensures day in runs <==> day in expected {
        assert day !in expected - actual && day !in actual - expected;
        assert day in actual <==> day in runs;
      }
    }
  }

  /** The interval itself: present, in order, long enough and current. */
  predicate IntervalReady(m: Manifest) {
    m.start.Some? && m.end == Some(m.asOf) && m.asOf - m.start.value + 1 >= REQUIRED_DAYS
  }

  function ExpectedDays(m: Manifest): set<int> {
    if m.start.Some? && m.end.Some? && m.end.value >= m.start.value then Days(m.start.value, m.end.value) else {}
  }

  ghost predicate TracksReady(m: Manifest) {
    forall track :: TrackReady(m, track)
  }

  ghost predicate TrackReady(m: Manifest, track: Track) {
    forall day :: day in m.runs(track) <==> day in ExpectedDays(m)
  }

  method WindowErrors(m: Manifest) returns (errors: seq<ReadinessError>)
    ensures errors == [] <==> WindowReady(m)
  {
    errors := [];
    if m.start.None? || m.end.None? {
      errors := errors + [CiWindow];
    } else if m.end.value < m.start.value {
      errors := errors + [CiWindow];
    } else if m.end.value - m.start.value + 1 < REQUIRED_DAYS {
      errors := errors + [CiWindow];
    }
    if m.end.Some? && m.end.value != m.asOf {
      errors := errors + [CiFreshness];
    }
    assert errors == [] <==> IntervalReady(m);
    for i := 0 to |TRACKS|
      invariant errors == [] <==> IntervalReady(m) && forall k :: 0 <= k < i ==> TrackReady(m, TRACKS[k])
    {
      var missing := TrackErrors(TRACKS[i], m.runs(TRACKS[i]), ExpectedDays(m));
      errors := errors + missing;
    }
    if errors == [] {
      forall track ensures TrackReady(m, track) {
        EveryTrack(track);
        var k :| 0 <= k < |TRACKS| && TRACKS[k] == track;
      }
    }
    WindowParts(m);
  }

  lemma WindowParts(m: Manifest)
    ensures WindowReady(m) <==> IntervalReady(m) && TracksReady(m)
  {
    if IntervalReady(m) {
      assert forall day :: day in ExpectedDays(m) <==> m.start.value <= day <= m.asOf;
      if WindowReady(m) {
        forall track ensures TrackReady(m, track) {
        }
      }
      if TracksReady(m) {
        forall track, day ensures day in m.runs(track) <==> m.start.value <= day <= m.asOf {
          assert TrackReady(m, track);
        }
      }
    }
  }

  method ContinuityErrors(m: Manifest) returns (errors: seq<ReadinessError>)
    ensures errors == [] <==> ContinuityReady(m)
  {
    errors := [];
    if !m.continuitySatisfied {
      errors := errors + [ContinuityStatus];
    }
    if m.continuityMode != Some("two-maintainer-drill") && m.continuityMode != Some("single-maintainer-recovery") {
      errors := errors + [ContinuityMode];
    }
    if m.continuityEvidence == 0 {
      errors := errors + [ContinuityEvidence];
    }
  }

  function AdopterNames(t: Text, adopters: seq<Adopter>): (r: seq<string>)
    ensures |r| == |adopters|
  {
    seq(|adopters|, i requires 0 <= i < |adopters| => t.fold(adopters[i].name))
  }

  function RepeatNames(t: Text, repeats: seq<Repeat>): (r: seq<string>)
    ensures |r| == |repeats|
  {
    seq(|repeats|, i requires 0 <= i < |repeats| => t.fold(repeats[i].adopter))
  }

  /** The dictionary of first uses: a later adopter of the same name replaces an earlier one. */
  function FirstUses(t: Text, adopters: seq<Adopter>): map<string, int> {
    if adopters == [] then map[]
    else
      var last := adopters[|adopters| - 1];
      FirstUses(t, adopters[..|adopters| - 1])[t.fold(last.name) := last.firstUse]
  }

  method CollectFirstUses(t: Text, adopters: seq<Adopter>) returns (uses: map<string, int>)
    ensures uses == FirstUses(t, adopters)
  {
    uses := map[];
    for i := 0 to |adopters|
      invariant uses == FirstUses(t, adopters[..i])
    {
      assert adopters[..i + 1][..i] == adopters[..i];
      uses := uses[t.fold(adopters[i].name) := adopters[i].firstUse];
    }
    assert adopters[..|adopters|] == adopters;
  }

  lemma {:induction false} FirstUsesDomain(t: Text, adopters: seq<Adopter>)
    ensures FirstUses(t, adopters).Keys == Elements(AdopterNames(t, adopters))
  {
    if adopters != [] {
      var front, last := adopters[..|adopters| - 1], adopters[|adopters| - 1];
      FirstUsesDomain(t, front);
      assert AdopterNames(t, adopters) == AdopterNames(t, front) + [t.fold(last.name)];
    }
  }

  lemma {:induction false} FirstUsesLookup(t: Text, adopters: seq<Adopter>, i: nat)
    requires i < |adopters| && DistinctAdopters(t, adopters)
    ensures t.fold(adopters[i].name) in FirstUses(t, adopters)
    ensures FirstUses(t, adopters)[t.fold(adopters[i].name)] == adopters[i].firstUse
  {
    if i < |adopters| - 1 {
      FirstUsesLookup(t, adopters[..|adopters| - 1], i);
    }
  }

  /** What the loop accepts of one repeat. */
  predicate Accepts(t: Text, uses: map<string, int>, r: Repeat) {
    t.fold(r.adopter) in uses && r.repeatUse - uses[t.fold(r.adopter)] >= 30
  }

  method RepeatErrors(t: Text, uses: map<string, int>, repeats: seq<Repeat>)
    returns (errors: seq<ReadinessError>, names: set<string>)
    ensures names == Elements(RepeatNames(t, repeats))
    ensures errors == [] <==> Distinct(RepeatNames(t, repeats)) && forall i :: 0 <= i < |repeats| ==> Accepts(t, uses, repeats[i])
  {
    errors, names := [], {};
    for k := 0 to |repeats|
      invariant names == Elements(RepeatNames(t, repeats[..k]))
      invariant errors == [] <==>
        Distinct(RepeatNames(t, repeats[..k])) && forall i :: 0 <= i < k ==> Accepts(t, uses, repeats[i])
    {
      var name := t.fold(repeats[k].adopter);
      ghost var before := RepeatNames(t, repeats[..k]);
      assert RepeatNames(t, repeats[..k + 1]) == before + [name];
      DistinctNext(before, name);
      if name in names {
        errors := errors + [RepeatDuplicates];
      }
      names := names + {name};
      if name !in uses {
        errors := errors + [RepeatAdopter];
      } else if repeats[k].repeatUse - uses[name] < 30 {
        errors := errors + [RepeatWindow];
      }
    }
    assert repeats[..|repeats|] == repeats;
  }

  method AdopterErrors(t: Text, adopters: seq<Adopter>) returns (errors: seq<ReadinessError>)
    ensures errors == [] <==> |adopters| >= 3 && DistinctAdopters(t, adopters)
  {
    errors := [];
    var names := AdopterNames(t, adopters);
    var unique := Elements(names);
    if |adopters| < 3 || |unique| < 3 {
      errors := errors + [Adopters];
    }
    if |unique| != |names| {
      errors := errors + [AdopterDuplicates];
    }
    DistinctCount(names);
    assert Distinct(names) <==> DistinctAdopters(t, adopters) by {
      assert forall i :: 0 <= i < |adopters| ==> names[i] == t.fold(adopters[i].name);
    }
  }

  method AdoptionErrors(t: Text, m: Manifest, uses: map<string, int>) returns (errors: seq<ReadinessError>)
    requires uses == FirstUses(t, m.adopters)
    ensures errors == [] <==> AdoptionReady(t, m)
  {
    var adopterErrors := AdopterErrors(t, m.adopters);
    var repeatErrors, repeated := RepeatErrors(t, uses, m.repeats);
    errors := adopterErrors + repeatErrors;
    if |repeated * Elements(AdopterNames(t, m.adopters))| < 2 {
      errors := errors + [RepeatAdopters];
    }
    if !m.publicIntegration {
      errors := errors + [PublicIntegration];
    }
    if !m.nonMaintainerContribution {
      errors := errors + [ExternalContribution];
    }
    if adopterErrors == [] {
      AcceptedRepeats(t, m, uses);
      if repeatErrors == [] {
        RepeatedAdopters(t, m.adopters, m.repeats);
      }
    }
  }

  /** With distinct adopters the loop accepts exactly the repeats that are ready. */
  lemma AcceptedRepeats(t: Text, m: Manifest, uses: map<string, int>)
    requires uses == FirstUses(t, m.adopters) && DistinctAdopters(t, m.adopters)
    ensures forall i :: 0 <= i < |m.repeats| ==> (Accepts(t, uses, m.repeats[i]) <==> RepeatReady(t, m.adopters, m.repeats[i]))
    ensures Distinct(RepeatNames(t, m.repeats)) <==> DistinctRepeats(t, m.repeats)
  {
    forall i | 0 <= i < |m.repeats| ensures Accepts(t, uses, m.repeats[i]) <==> RepeatReady(t, m.adopters, m.repeats[i]) {
      AcceptedRepeat(t, m.adopters, m.repeats[i]);
    }
    forall i | 0 <= i < |m.repeats| ensures RepeatNames(t, m.repeats)[i] == t.fold(m.repeats[i].adopter) {
    }
  }

  lemma AcceptedRepeat(t: Text, adopters: seq<Adopter>, r: Repeat)
    requires DistinctAdopters(t, adopters)
    ensures Accepts(t, FirstUses(t, adopters), r) <==> RepeatReady(t, adopters, r)
  {
    var uses, name := FirstUses(t, adopters), t.fold(r.adopter);
    FirstUsesDomain(t, adopters);
    if name in uses {
      assert name in Elements(AdopterNames(t, adopters));
      var i :| 0 <= i < |adopters| && AdopterNames(t, adopters)[i] == name;
      FirstUsesLookup(t, adopters, i);
    }
    if i :| 0 <= i < |adopters| && t.fold(adopters[i].name) == name && r.repeatUse - adopters[i].firstUse >= 30 {
      FirstUsesLookup(t, adopters, i);
    }
  }

  /** When every repeat is accepted and none is duplicated, the repeated adopters are as many as the repeats. */
  lemma RepeatedAdopters(t: Text, adopters: seq<Adopter>, repeats: seq<Repeat>)
    requires Distinct(RepeatNames(t, repeats))
    requires forall i :: 0 <= i < |repeats| ==> Accepts(t, FirstUses(t, adopters), repeats[i])
    ensures |Elements(RepeatNames(t, repeats)) * Elements(AdopterNames(t, adopters))| == |repeats|
  {
    var repeated, unique := Elements(RepeatNames(t, repeats)), Elements(AdopterNames(t, adopters));
    DistinctCount(RepeatNames(t, repeats));
    FirstUsesDomain(t, adopters);
    forall name | name in repeated ensures name in unique {
      var i :| 0 <= i < |repeats| && RepeatNames(t, repeats)[i] == name;
      assert Accepts(t, FirstUses(t, adopters), repeats[i]);
    }
    assert repeated * unique == repeated;
  }

  /** The last section: no evidence is dated after the manifest. */
  method DateErrors(m: Manifest, uses: map<string, int>) returns (errors: seq<ReadinessError>)
    ensures errors == [] <==>
      && (m.end.Some? ==> m.end.value <= m.asOf)
      && (m.reviewCompleted.Some? ==> m.reviewCompleted.value <= m.asOf)
      && (forall name :: name in uses ==> uses[name] <= m.asOf)
      && (forall i :: 0 <= i < |m.repeats| ==> m.repeats[i].repeatUse <= m.asOf)
  {
    var later := false;
    if m.end.Some? && m.end.value > m.asOf {
      later := true;
    }
    if m.reviewCompleted.Some? && m.reviewCompleted.value > m.asOf {
      later := true;
    }
    if exists name :: name in uses && uses[name] > m.asOf {
      later := true;
    }
    for i := 0 to |m.repeats|
      invariant later <==>
        || (m.end.Some? && m.end.value > m.asOf) || (m.reviewCompleted.Some? && m.reviewCompleted.value > m.asOf)
        || (exists name :: name in uses && uses[name] > m.asOf)
        || (exists k :: 0 <= k < i && m.repeats[k].repeatUse > m.asOf)
    {
      if m.repeats[i].repeatUse > m.asOf {
        later := true;
      }
    }
    errors := if later then [AsOf] else [];
  }

  lemma FirstUseDates(t: Text, adopters: seq<Adopter>, asOf: int)
    requires DistinctAdopters(t, adopters)
    ensures (forall name :: name in FirstUses(t, adopters) ==> FirstUses(t, adopters)[name] <= asOf)
            <==> forall i :: 0 <= i < |adopters| ==> adopters[i].firstUse <= asOf
  {
    var uses := FirstUses(t, adopters);
    FirstUsesDomain(t, adopters);
    forall i | 0 <= i < |adopters|
      ensures t.fold(adopters[i].name) in uses && uses[t.fold(adopters[i].name)] == adopters[i].firstUse
    {
      FirstUsesLookup(t, adopters, i);
    }
    forall name | name in uses ensures exists i :: 0 <= i < |adopters| && uses[name] == adopters[i].firstUse {
      assert name in Elements(AdopterNames(t, adopters));
      var i :| 0 <= i < |adopters| && AdopterNames(t, adopters)[i] == name;
      FirstUsesLookup(t, adopters, i);
    }
  }

  /** `readiness_errors`: no error exactly when the manifest is ready. */
  method ReadinessErrors(t: Text, m: Manifest, release: Option<string>) returns (errors: seq<ReadinessError>)
    ensures errors == [] <==> Ready(t, m, release)
  {
    errors := VersionErrors(t, m, release);
    var gates := GateErrors(m);
    var security := SecurityErrors(m);
    var window := WindowErrors(m);
    var continuity := ContinuityErrors(m);
    var uses := CollectFirstUses(t, m.adopters);
    var adoption := AdoptionErrors(t, m, uses);
    var dates := DateErrors(m, uses);
    errors := errors + gates + security + window + continuity + adoption + dates;
    if adoption == [] {
      FirstUseDates(t, m.adopters, m.asOf);
    }
  }
}
