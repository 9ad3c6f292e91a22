/** Explicit checks that stand in for unmodeled workflow steps (`apply_workflow_replacements`, src/discover.rs). */
module Replacement {
  import opened Basics
  import opened Model
  import opened Workflow

  /** A step id and the id of the check that claims it. */
  datatype Claim = Claim(step: string, check: string)

  function CheckClaims(check: CheckDefinition, n: nat): (r: seq<Claim>)
    requires n <= |check.replacesWorkflowSteps|
    ensures |r| == n && forall i :: 0 <= i < n ==> r[i] == Claim(check.replacesWorkflowSteps[i], check.id)
  {
    seq(n, i requires 0 <= i < n => Claim(check.replacesWorkflowSteps[i], check.id))
  }

  /** Every claim of every check, in order. */
  function Claims(checks: seq<CheckDefinition>): seq<Claim> {
    if checks == [] then []
    else
      var last := checks[|checks| - 1];
      Claims(checks[..|checks| - 1]) + CheckClaims(last, |last.replacesWorkflowSteps|)
  }

  /** The claims of the m-th check stand after those of the checks before it, one for each step it replaces, and there
      are no others. */
  lemma {:induction false} ClaimsInOrder(checks: seq<CheckDefinition>, m: nat)
    requires m < |checks|
    ensures var steps, n := checks[m].replacesWorkflowSteps, |Claims(checks[..m])|;
            && |Claims(checks[..m + 1])| == n + |steps| && Claims(checks[..m + 1]) <= Claims(checks)
            && forall i :: 0 <= i < |steps| ==> Claims(checks)[n + i] == Claim(steps[i], checks[m].id)
  {
    assert checks[..m + 1][..m] == checks[..m];
    if m == |checks| - 1 {
      assert checks[..m + 1] == checks;
    } else {
      var front := checks[..|checks| - 1];
      ClaimsInOrder(front, m);
      assert front[..m + 1] == checks[..m + 1] && front[..m] == checks[..m];
    }
  }

  /** The first observation with this id, or the number of observations. */
  function FirstId(observations: seq<WorkflowObservation>, id: string): (i: nat)
    ensures i <= |observations|
    ensures i < |observations| ==> observations[i].id == id
    ensures forall j :: 0 <= j < i ==> observations[j].id != id
  {
    if observations == [] || observations[0].id == id then 0 else FirstId(observations[1..], id) + 1
  }

  predicate Claimed(claims: seq<Claim>, step: string) {
    exists i :: 0 <= i < |claims| && claims[i].step == step
  }

  /** The claim at `i` is the only one for its step, and the first observation with that id is unmodeled. */
  predicate Acceptable(claims: seq<Claim>, observations: seq<WorkflowObservation>, i: nat)
    requires i < |claims|
  {
    && (forall j :: 0 <= j < i ==> claims[j].step != claims[i].step)
    && var k := FirstId(observations, claims[i].step);
       k < |observations| && observations[k].classification.UnmodeledVerification?
  }

  predicate Admissible(claims: seq<Claim>, observations: seq<WorkflowObservation>) {
    forall i :: 0 <= i < |claims| ==> Acceptable(claims, observations, i)
  }

  function ReplacedBy(o: WorkflowObservation, check: string): WorkflowObservation {
    o.(classification := ReplacedByExplicitCheck, checkId := Some(check),
       reason := "explicit check " + check + " declares an argv-based replacement for this workflow step")
  }

  /** `o` is the replaced form of the k-th observation if that is the first with a claimed id, else that observation. */
  predicate ReplacedAt(claims: seq<Claim>, before: seq<WorkflowObservation>, o: WorkflowObservation, k: nat)
    requires k < |before|
  {
    if Claimed(claims, before[k].id) && FirstId(before, before[k].id) == k
    then exists i :: 0 <= i < |claims| && claims[i].step == before[k].id && o == ReplacedBy(before[k], claims[i].check)
    else o == before[k]
  }

  /** Exactly the first observations with claimed ids are replaced, each by the check that claims it. */
  predicate ExactlyClaimedReplaced(claims: seq<Claim>, before: seq<WorkflowObservation>, after: seq<WorkflowObservation>) {
    |after| == |before| && forall k :: 0 <= k < |before| ==> ReplacedAt(claims, before, after[k], k)
  }

  predicate EndsWith(s: string, suffix: string) {
    |suffix| <= |s| && s[|s| - |suffix|..] == suffix
  }

  predicate EndsWithClaim(claims: seq<Claim>, gap: string) {
    exists i :: 0 <= i < |claims| && EndsWith(gap, claims[i].step)
  }

  /** The gaps that no claimed id ends. */
  function Retained(claims: seq<Claim>, gaps: seq<string>): seq<string> {
    if gaps == [] then []
    else
      var last := gaps[|gaps| - 1];
      Retained(claims, gaps[..|gaps| - 1]) + if EndsWithClaim(claims, last) then [] else [last]
  }

  lemma OthersUnaffected(claims: seq<Claim>, claim: Claim, before: seq<WorkflowObservation>, o: WorkflowObservation, j: nat)
    requires j < |before| && ReplacedAt(claims, before, o, j) && j != FirstId(before, claim.step)
    ensures ReplacedAt(claims + [claim], before, o, j)
  {
    var all := claims + [claim];
    ClaimedAppend(claims, claim, before[j].id);
    if Claimed(claims, before[j].id) && FirstId(before, before[j].id) == j {
      var i :| 0 <= i < |claims| && claims[i].step == before[j].id && o == ReplacedBy(before[j], claims[i].check);
      assert all[i] == claims[i];
    }
  }

  /** One admissible claim more. */
  lemma ClaimNext(claims: seq<Claim>, claim: Claim, before: seq<WorkflowObservation>, now: seq<WorkflowObservation>)
    requires ExactlyClaimedReplaced(claims, before, now)
    requires !Claimed(claims, claim.step) && FirstId(before, claim.step) < |before|
    ensures var k := FirstId(before, claim.step);
            && now[k] == before[k]
            && ExactlyClaimedReplaced(claims + [claim], before, now[k := ReplacedBy(now[k], claim.check)])
  {
    var k := FirstId(before, claim.step);
    assert ReplacedAt(claims, before, now[k], k);
    var all, after := claims + [claim], now[k := ReplacedBy(now[k], claim.check)];
    forall j | 0 <= j < |before| ensures ReplacedAt(all, before, after[j], j) {
      if j == k {
        assert all[|claims|] == claim;
      } else {
        OthersUnaffected(claims, claim, before, now[j], j);
      }
    }
  }

  lemma ClaimedAppend(claims: seq<Claim>, claim: Claim, step: string)
    ensures Claimed(claims + [claim], step) <==> Claimed(claims, step) || claim.step == step
  {
    var all := claims + [claim];
    assert forall i :: 0 <= i < |claims| ==> all[i] == claims[i];
    assert all[|claims|] == claim;
  }

  lemma FirstIdKept(claims: seq<Claim>, before: seq<WorkflowObservation>, now: seq<WorkflowObservation>, id: string)
    requires ExactlyClaimedReplaced(claims, before, now)
    ensures FirstId(now, id) == FirstId(before, id)
  {
    forall k | 0 <= k < |before| ensures now[k].id == before[k].id {
    }
  }

  lemma AdmissibleNext(claims: seq<Claim>, claim: Claim, observations: seq<WorkflowObservation>)
    ensures Admissible(claims + [claim], observations)
            <==> Admissible(claims, observations) && Acceptable(claims + [claim], observations, |claims|)
    ensures Acceptable(claims + [claim], observations, |claims|)
            <==> !Claimed(claims, claim.step)
                 && FirstId(observations, claim.step) < |observations|
                 && observations[FirstId(observations, claim.step)].classification.UnmodeledVerification?
  {
    var all := claims + [claim];
    assert forall i :: 0 <= i < |claims| ==> all[i] == claims[i];
    assert all[|claims|] == claim;
    forall i | 0 <= i < |claims| ensures Acceptable(all, observations, i) <==> Acceptable(claims, observations, i) {
    }
  }

  /** A claim list that is not admissible stays so whatever follows. */
  lemma AdmissiblePrefix(claims: seq<Claim>, more: seq<Claim>, observations: seq<WorkflowObservation>)
    requires Admissible(claims + more, observations)
    ensures Admissible(claims, observations)
  {
    forall i | 0 <= i < |claims| ensures Acceptable(claims, observations, i) {
      assert Acceptable(claims + more, observations, i);
      assert forall j :: 0 <= j <= i ==> (claims + more)[j] == claims[j];
    }
  }

  /** The claims up to the n-th of the last of the first `m + 1` checks. */
  function ClaimsUpTo(checks: seq<CheckDefinition>, m: nat, n: nat): seq<Claim>
    requires m < |checks| && n <= |checks[m].replacesWorkflowSteps|
  {
    Claims(checks[..m]) + CheckClaims(checks[m], n)
  }

  lemma ClaimsUpToNext(checks: seq<CheckDefinition>, m: nat, n: nat)
    requires m < |checks| && n < |checks[m].replacesWorkflowSteps|
    ensures ClaimsUpTo(checks, m, n + 1)
            == ClaimsUpTo(checks, m, n) + [Claim(checks[m].replacesWorkflowSteps[n], checks[m].id)]
  {
    assert CheckClaims(checks[m], n + 1) == CheckClaims(checks[m], n) + [Claim(checks[m].replacesWorkflowSteps[n], checks[m].id)];
  }

  lemma {:induction false} ClaimsPrefix(checks: seq<CheckDefinition>, m: nat, n: nat) returns (rest: seq<Claim>)
    requires m < |checks| && n <= |checks[m].replacesWorkflowSteps|
    ensures Claims(checks) == ClaimsUpTo(checks, m, n) + rest
  {
    var last := checks[|checks| - 1];
    var own := CheckClaims(last, |last.replacesWorkflowSteps|);
    if m == |checks| - 1 {
      rest := own[n..];
      assert CheckClaims(last, n) + rest == own;
      assert checks[..m] == checks[..|checks| - 1];
    } else {
      var front := checks[..|checks| - 1];
      var inner := ClaimsPrefix(front, m, n);
      assert front[..m] == checks[..m];
      rest := inner + own;
      assert ClaimsUpTo(checks, m, n) + rest == (ClaimsUpTo(checks, m, n) + inner) + own;
    }
  }

  lemma EndsWithSome(claims: seq<Claim>, claimed: map<string, string>, gap: string)
    requires forall step :: step in claimed <==> Claimed(claims, step)
    ensures EndsWithClaim(claims, gap) <==> exists step :: step in claimed && EndsWith(gap, step)
  {
    if step :| step in claimed && EndsWith(gap, step) {
      var i :| 0 <= i < |claims| && claims[i].step == step;
    }
    if i :| 0 <= i < |claims| && EndsWith(gap, claims[i].step) {
      assert claims[i].step in claimed;
    }
  }

  /** A claim that is not acceptable makes the whole list inadmissible. */
  lemma Refused(checks: seq<CheckDefinition>, m: nat, n: nat, observations: seq<WorkflowObservation>)
    requires m < |checks| && n < |checks[m].replacesWorkflowSteps|
    requires !Acceptable(ClaimsUpTo(checks, m, n + 1), observations, |ClaimsUpTo(checks, m, n)|)
    ensures !Admissible(Claims(checks), observations)
  {
    var rest := ClaimsPrefix(checks, m, n + 1);
    if Admissible(Claims(checks), observations) {
      AdmissiblePrefix(ClaimsUpTo(checks, m, n + 1), rest, observations);
    }
  }

  /** The `retain` at the end of `apply_workflow_replacements`. */
  method RetainUnclaimed(ghost claims: seq<Claim>, claimed: map<string, string>, gaps: seq<string>) returns (kept: seq<string>)
    requires forall step :: step in claimed <==> Claimed(claims, step)
    ensures kept == Retained(claims, gaps)
  {
    kept := [];
    for i := 0 to |gaps|
      invariant kept == Retained(claims, gaps[..i])
    {
      assert gaps[..i + 1][..i] == gaps[..i];
      EndsWithSome(claims, claimed, gaps[i]);
      if !exists step :: step in claimed && EndsWith(gaps[i], step) {
        kept := kept + [gaps[i]];
      }
    }
    assert gaps[..|gaps|] == gaps;
  }

  /** Which steps are claimed so far. */
  ghost predicate Tracks(claimed: map<string, string>, claims: seq<Claim>) {
    forall step :: step in claimed <==> Claimed(claims, step)
  }

  lemma TracksNext(claimed: map<string, string>, claims: seq<Claim>, claim: Claim)
    requires Tracks(claimed, claims)
    ensures Tracks(claimed[claim.step := claim.check], claims + [claim])
  {
    forall other ensures Claimed(claims + [claim], other) <==> Claimed(claims, other) || other == claim.step {
      ClaimedAppend(claims, claim, other);
    }
  }

  /** The claims of one check, after those of the checks before it. */
  method ReplaceForCheck(ghost checks: seq<CheckDefinition>, ghost m: nat, check: CheckDefinition, workflow: Discovery,
                         before: map<string, string>, ghost original: seq<WorkflowObservation>)
    returns (r: Result<map<string, string>, TaskError>)
    requires m < |checks| && checks[m] == check
    requires Tracks(before, Claims(checks[..m])) && Admissible(Claims(checks[..m]), original)
    requires ExactlyClaimedReplaced(Claims(checks[..m]), original, workflow.observations)
    modifies workflow`observations
    ensures r.Err? ==> r.error == CONFIGURATION_ERROR && !Admissible(Claims(checks), original)
    ensures r.Ok? ==>
      && Tracks(r.value, Claims(checks[..m + 1])) && Admissible(Claims(checks[..m + 1]), original)
      && ExactlyClaimedReplaced(Claims(checks[..m + 1]), original, workflow.observations)
  {
    var claimed := before;
    assert ClaimsUpTo(checks, m, 0) == Claims(checks[..m]);
    for n := 0 to |check.replacesWorkflowSteps|
      invariant Tracks(claimed, ClaimsUpTo(checks, m, n)) && Admissible(ClaimsUpTo(checks, m, n), original)
      invariant ExactlyClaimedReplaced(ClaimsUpTo(checks, m, n), original, workflow.observations)
    {
      var step := check.replacesWorkflowSteps[n];
      ghost var done, claim := ClaimsUpTo(checks, m, n), Claim(step, check.id);
      ClaimsUpToNext(checks, m, n);
      AdmissibleNext(done, claim, original);
      FirstIdKept(done, original, workflow.observations, step);
      if step in claimed {
        Refused(checks, m, n, original);
        return Err(CONFIGURATION_ERROR);
      }
      var found := FirstId(workflow.observations, step);
      if found == |workflow.observations| {
        Refused(checks, m, n, original);
        return Err(CONFIGURATION_ERROR);
      }
      if !workflow.observations[found].classification.UnmodeledVerification? {
        Refused(checks, m, n, original);
        return Err(CONFIGURATION_ERROR);
      }
      TracksNext(claimed, done, claim);
      ClaimNext(done, claim, original, workflow.observations);
      claimed := claimed[step := check.id];
      workflow.observations := workflow.observations[found := ReplacedBy(workflow.observations[found], check.id)];
    }
    assert checks[..m + 1][..m] == checks[..m];
    r := Ok(claimed);
  }

  /** `apply_workflow_replacements`: it succeeds exactly on admissible claims, and then exactly the claimed
      observations change and exactly the gaps no claimed id ends remain. */
  method ApplyReplacements(checks: seq<CheckDefinition>, workflow: Discovery) returns (r: Result<Unit, TaskError>)
    modifies workflow`observations, workflow`gaps
    ensures r.Ok? <==> Admissible(Claims(checks), old(workflow.observations))
    ensures r.Err? ==> r.error == CONFIGURATION_ERROR
    ensures r.Ok? ==> ExactlyClaimedReplaced(Claims(checks), old(workflow.observations), workflow.observations)
    ensures r.Ok? ==> workflow.gaps == Retained(Claims(checks), old(workflow.gaps))
  {
    ghost var original := workflow.observations;
    var claimed: map<string, string> := map[];
    for m := 0 to |checks|
      invariant Tracks(claimed, Claims(checks[..m])) && Admissible(Claims(checks[..m]), original)
      invariant ExactlyClaimedReplaced(Claims(checks[..m]), original, workflow.observations)
      invariant workflow.gaps == old(workflow.gaps)
    {
      var replaced := ReplaceForCheck(checks, m, checks[m], workflow, claimed, original);
      if replaced.Err? {
        return Err(replaced.error);
      }
      claimed := replaced.value;
    }
    assert checks[..|checks|] == checks;
    var kept := RetainUnclaimed(Claims(checks), claimed, workflow.gaps);
    workflow.gaps := kept;
    r := Ok(Unit);
  }

  // Which gaps are left.

  /** The replaced forms of `before` are either untouched or were unmodeled and have a claimed id. */
  predicate Pointwise(claims: seq<Claim>, before: seq<WorkflowObservation>, after: seq<WorkflowObservation>) {
    && |after| == |before|
    && forall k :: 0 <= k < |before| ==>
         || after[k] == before[k]
         || (before[k].classification.UnmodeledVerification? && Claimed(claims, before[k].id)
             && after[k].classification.ReplacedByExplicitCheck? && after[k].id == before[k].id)
  }

  /** The gap of no observation that is still unmodeled ends with a claimed id. */
  predicate NoGapLost(claims: seq<Claim>, after: seq<WorkflowObservation>) {
    forall k :: 0 <= k < |after| && after[k].classification.UnmodeledVerification? ==> !EndsWithClaim(claims, GapText(after[k].id))
  }

  /** The gap of an unmodeled step ends with a claimed id only when the step is the one that claim replaces. */
  predicate OnlyClaimedGapsEnd(claims: seq<Claim>, before: seq<WorkflowObservation>) {
    forall k :: 0 <= k < |before| && before[k].classification.UnmodeledVerification?
                && EndsWithClaim(claims, GapText(before[k].id)) ==>
      Claimed(claims, before[k].id) && FirstId(before, before[k].id) == k
  }

  lemma ClaimedGapEnds(claims: seq<Claim>, id: string)
    requires Claimed(claims, id)
    ensures EndsWithClaim(claims, GapText(id))
  {
    var i :| 0 <= i < |claims| && claims[i].step == id;
    assert GapText(id)[|GAP_PREFIX|..] == id;
    assert EndsWith(GapText(id), claims[i].step);
  }

  /** What is proved about the gaps that remain. */
  predicate GapsAgree(claims: seq<Claim>, before: seq<WorkflowObservation>, after: seq<WorkflowObservation>) {
    var left, wanted := Retained(claims, GapsOf(before)), GapsOf(after);
    && |left| <= |wanted|
    && (if NoGapLost(claims, after) then left == wanted else |left| < |wanted|)
  }

  lemma GapsAgreeNext(claims: seq<Claim>, before: seq<WorkflowObservation>, after: seq<WorkflowObservation>,
                      b: WorkflowObservation, a: WorkflowObservation)
    requires GapsAgree(claims, before, after)
    requires a == b || (b.classification.UnmodeledVerification? && Claimed(claims, b.id) && a.classification.ReplacedByExplicitCheck?)
    ensures GapsAgree(claims, before + [b], after + [a])
  {
    NoGapLostNext(claims, after, a);
    GapsOfNext(after, a);
    GapsOfNext(before, b);
    RetainedNext(claims, GapsOf(before), GapText(b.id));
    if a != b {
      ClaimedGapEnds(claims, b.id);
    }
  }

  lemma {:induction false} RetainedGaps(claims: seq<Claim>, before: seq<WorkflowObservation>, after: seq<WorkflowObservation>)
    requires Pointwise(claims, before, after)
    ensures GapsAgree(claims, before, after)
  {
    if before != [] {
      var n := |before| - 1;
      RetainedGaps(claims, before[..n], after[..n]);
      GapsAgreeNext(claims, before[..n], after[..n], before[n], after[n]);
      assert before == before[..n] + [before[n]] && after == after[..n] + [after[n]];
    }
  }

  lemma NoGapLostNext(claims: seq<Claim>, observations: seq<WorkflowObservation>, o: WorkflowObservation)
    ensures NoGapLost(claims, observations + [o])
            <==> NoGapLost(claims, observations)
                 && (o.classification.UnmodeledVerification? ==> !EndsWithClaim(claims, GapText(o.id)))
  {
    var all := observations + [o];
    assert all[|observations|] == o;
    assert forall k :: 0 <= k < |observations| ==> all[k] == observations[k];
  }

  lemma RetainedNext(claims: seq<Claim>, gaps: seq<string>, gap: string)
    ensures Retained(claims, gaps + [gap]) == Retained(claims, gaps) + if EndsWithClaim(claims, gap) then [] else [gap]
  {
    assert (gaps + [gap])[..|gaps|] == gaps;
  }

  lemma ReplacedPointwise(claims: seq<Claim>, before: seq<WorkflowObservation>, after: seq<WorkflowObservation>)
    requires Admissible(claims, before) && ExactlyClaimedReplaced(claims, before, after)
    ensures Pointwise(claims, before, after)
  {
    forall k | 0 <= k < |before| && after[k] != before[k]
      ensures before[k].classification.UnmodeledVerification? && Claimed(claims, before[k].id)
      ensures after[k].classification.ReplacedByExplicitCheck? && after[k].id == before[k].id
    {
      var i :| 0 <= i < |claims| && claims[i].step == before[k].id && after[k] == ReplacedBy(before[k], claims[i].check);
      assert Acceptable(claims, before, i);
    }
  }

  lemma KeptMeansNotLost(claims: seq<Claim>, before: seq<WorkflowObservation>, after: seq<WorkflowObservation>)
    requires Admissible(claims, before) && ExactlyClaimedReplaced(claims, before, after)
    ensures OnlyClaimedGapsEnd(claims, before) <==> NoGapLost(claims, after)
  {
    forall k | 0 <= k < |before| && before[k].classification.UnmodeledVerification?
      ensures after[k].classification.UnmodeledVerification? <==> !(Claimed(claims, before[k].id) && FirstId(before, before[k].id) == k)
      ensures after[k].id == before[k].id
    {
      assert ReplacedAt(claims, before, after[k], k);
    }
    ReplacedPointwise(claims, before, after);
  }

  /** The remaining gaps are those of the observations still unmodeled exactly when, of the steps given, a claimed id
      ends only the gap of the step it replaces; otherwise gaps are missing. */
  lemma GapsStayExact(claims: seq<Claim>, before: seq<WorkflowObservation>, after: seq<WorkflowObservation>)
    requires Admissible(claims, before) && ExactlyClaimedReplaced(claims, before, after)
    ensures Retained(claims, GapsOf(before)) == GapsOf(after) <==> OnlyClaimedGapsEnd(claims, before)
  {
    ReplacedPointwise(claims, before, after);
    RetainedGaps(claims, before, after);
    KeptMeansNotLost(claims, before, after);
  }

  lemma {:induction false} NoGapNoUnmodeled(observations: seq<WorkflowObservation>)
    requires GapsOf(observations) == []
    ensures forall o :: o in observations ==> !o.classification.UnmodeledVerification?
  {
    if observations != [] {
      NoGapNoUnmodeled(observations[..|observations| - 1]);
    }
  }

  /** When no gap remains, no step is still unmodeled exactly when every dropped gap belonged to a replaced step. */
  lemma NothingLeft(claims: seq<Claim>, before: seq<WorkflowObservation>, after: seq<WorkflowObservation>)
    requires Admissible(claims, before) && ExactlyClaimedReplaced(claims, before, after)
    requires Retained(claims, GapsOf(before)) == []
    ensures OnlyClaimedGapsEnd(claims, before) <==> forall o :: o in after ==> !o.classification.UnmodeledVerification?
  {
    GapsStayExact(claims, before, after);
    KeptMeansNotLost(claims, before, after);
    if OnlyClaimedGapsEnd(claims, before) {
      NoGapNoUnmodeled(after);
    }
  }

  /** Distinct ids, none ending with another, each the id of a step of a file under `.github`. */
  predicate Separated(observations: seq<WorkflowObservation>) {
    && (forall k :: 0 <= k < |observations| ==> observations[k].id != "" && observations[k].id[0] == '.')
    && (forall j, k :: 0 <= j < |observations| && 0 <= k < |observations| && j != k ==>
          !EndsWith(observations[j].id, observations[k].id))
  }

  predicate NoDot(s: string) {
    forall i :: 0 <= i < |s| ==> s[i] != '.'
  }

  lemma NoDotAppend(a: string, b: string)
    requires NoDot(a) && NoDot(b)
    ensures NoDot(a + b)
  {
  }

  lemma GapPrefixHasNoDot()
    ensures NoDot(GAP_PREFIX)
  {
    NoDotAppend("verification ", "workflow ");
    NoDotAppend("verification " + "workflow ", "step is not ");
    NoDotAppend("verification " + "workflow " + "step is not ", "safely ");
    NoDotAppend("verification " + "workflow " + "step is not " + "safely ", "modeled: ");
  }

  /** A gap text ends with an id only if the observation's own id does. */
  lemma GapEndsWithin(id: string, step: string)
    requires step != "" && step[0] == '.'
    ensures EndsWith(GapText(id), step) ==> EndsWith(id, step)
  {
    var gap := GapText(id);
    GapPrefixHasNoDot();
    assert forall i :: 0 <= i < |GAP_PREFIX| ==> gap[i] == GAP_PREFIX[i];
    if EndsWith(gap, step) {
      var at := |gap| - |step|;
      assert gap[at..][0] == gap[at];
      assert at >= |GAP_PREFIX|;
      assert id[at - |GAP_PREFIX|..] == gap[at..];
    }
  }

  lemma OtherClaimsDoNotEnd(claims: seq<Claim>, before: seq<WorkflowObservation>, after: seq<WorkflowObservation>, k: nat, i: nat)
    requires Admissible(claims, before) && ExactlyClaimedReplaced(claims, before, after) && Separated(before)
    requires k < |after| && after[k].classification.UnmodeledVerification? && after[k].id == before[k].id && i < |claims|
    ensures !EndsWith(GapText(after[k].id), claims[i].step)
  {
    assert Acceptable(claims, before, i);
    var j := FirstId(before, claims[i].step);
    assert j != k by {
      assert Claimed(claims, claims[i].step);
    }
    assert !EndsWith(before[k].id, before[j].id);
    GapEndsWithin(before[k].id, before[j].id);
  }

  /** With separated ids no gap is lost. */
  lemma SeparatedIdsLoseNothing(claims: seq<Claim>, before: seq<WorkflowObservation>, after: seq<WorkflowObservation>)
    requires Admissible(claims, before) && ExactlyClaimedReplaced(claims, before, after) && Separated(before)
    ensures OnlyClaimedGapsEnd(claims, before) && Retained(claims, GapsOf(before)) == GapsOf(after)
  {
    ReplacedPointwise(claims, before, after);
    forall k, i | 0 <= k < |after| && after[k].classification.UnmodeledVerification? && 0 <= i < |claims|
      ensures !EndsWith(GapText(after[k].id), claims[i].step)
    {
      OtherClaimsDoNotEnd(claims, before, after, k, i);
    }
    KeptMeansNotLost(claims, before, after);
    GapsStayExact(claims, before, after);
  }

  /** Two unmodeled steps of one job with the same name: claiming the name replaces the first and drops both gaps. */
  lemma SameNameLosesAGap(o: WorkflowObservation, check: string)
    requires o.classification.UnmodeledVerification?
    ensures var claims, before, after := [Claim(o.id, check)], [o, o], [ReplacedBy(o, check), o];
            && Admissible(claims, before) && ExactlyClaimedReplaced(claims, before, after)
            && GapsOf(after) == [GapText(o.id)] && Retained(claims, GapsOf(before)) == []
  {
    var claims, before, after := [Claim(o.id, check)], [o, o], [ReplacedBy(o, check), o];
    assert claims[0].step == o.id;
    assert FirstId(before, o.id) == 0;
    assert Claimed(claims, o.id);
    ClaimedGapEnds(claims, o.id);
    var gap := GapText(o.id);
    GapsOfNext([], o);
    GapsOfNext([o], o);
    GapsOfNext([], ReplacedBy(o, check));
    GapsOfNext([ReplacedBy(o, check)], o);
    RetainedNext(claims, [], gap);
    RetainedNext(claims, [gap], gap);
    assert before == [o] + [o] && after == [ReplacedBy(o, check)] + [o];
    assert [] + [o] == [o] && [] + [ReplacedBy(o, check)] == [ReplacedBy(o, check)] && [] + [gap] == [gap];
  }
}
