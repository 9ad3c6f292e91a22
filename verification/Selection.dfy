/** Selecting checks and accounting for changed paths (src/discover.rs). Glob matching is a parameter. */
module Selection {
  import opened Basics
  import opened Model
  import opened Order

  /** Whether a coverage pattern list matches a path. */
  type Glob = (seq<string>, string) -> bool

  const NO_CHECKS_GAP: string := "no checks discovered; add a supported manifest or .taskattest.toml"

  const NONE_SELECTED_GAP: string := "no checks were selected"

  function PathGap(path: string): string {
    "no discovered check declares coverage for " + path
  }

  function Matching(glob: Glob, check: CheckDefinition, paths: seq<string>): seq<string> {
    if paths == [] then []
    else if glob(check.coveragePaths, paths[0]) then [paths[0]] + Matching(glob, check, paths[1..])
    else Matching(glob, check, paths[1..])
  }

  function Join(parts: seq<string>): string {
    if parts == [] then ""
    else if |parts| == 1 then parts[0]
    else parts[0] + ", " + Join(parts[1..])
  }

  function SelectCheck(glob: Glob, check: CheckDefinition, changed: seq<string>, changedOnly: bool,
                       requested: set<string>): CheckSelection {
    if requested != {} then
      var selected := check.id in requested;
      CheckSelection(check.id, selected,
                     if selected then "explicitly requested" else "omitted by explicit check selection")
    else if !changedOnly then
      CheckSelection(check.id, true, "full verification selects every discovered check")
    else if changed == [] then
      CheckSelection(check.id, true, "no dirty paths; baseline verification selects every check")
    else
      var matches := Matching(glob, check, changed);
      CheckSelection(check.id, matches != [],
                     if matches == [] then "no changed path matches declared coverage"
                     else "changed coverage matched: " + Join(matches[..Min(3, |matches|)]))
  }

  function SelectAll(glob: Glob, checks: seq<CheckDefinition>, changed: seq<string>, changedOnly: bool,
                     requested: set<string>): seq<CheckSelection> {
    seq(|checks|, i requires 0 <= i < |checks| => SelectCheck(glob, checks[i], changed, changedOnly, requested))
  }

  /** What each entry says, mode by mode: explicit requests decide alone; a full run, and a run over a clean workspace,
      selects every check; changed mode selects the checks some changed path matches. */
  lemma SelectedWhen(glob: Glob, checks: seq<CheckDefinition>, changed: seq<string>, changedOnly: bool, requested: set<string>,
                     i: nat)
    requires i < |checks|
    ensures var selection := SelectAll(glob, checks, changed, changedOnly, requested);
            && |selection| == |checks| && selection[i].checkId == checks[i].id
            && (requested != {} ==> (selection[i].selected <==> checks[i].id in requested))
            && (requested == {} && (!changedOnly || changed == []) ==> selection[i].selected)
            && (requested == {} && changedOnly && changed != [] ==>
                  (selection[i].selected <==> exists path :: path in changed && glob(checks[i].coveragePaths, path)))
  {
    MatchingEmpty(glob, checks[i], changed);
  }

  /** Some selected check matches the path. */
  predicate Covered(glob: Glob, checks: seq<CheckDefinition>, selection: seq<CheckSelection>, path: string) {
    exists i :: 0 <= i < |checks| && i < |selection| && selection[i].selected && glob(checks[i].coveragePaths, path)
  }

  predicate AnySelected(selection: seq<CheckSelection>) {
    exists i :: 0 <= i < |selection| && selection[i].selected
  }

  /** A changed path nothing selected matches, nothing discovered, or nothing selected. */
  predicate IsGap(glob: Glob, changed: seq<string>, checks: seq<CheckDefinition>, selection: seq<CheckSelection>, gap: string) {
    || (exists path :: path in changed && !Covered(glob, checks, selection, path) && gap == PathGap(path))
    || (gap == NO_CHECKS_GAP && checks == [])
    || (gap == NONE_SELECTED_GAP && checks != [] && !AnySelected(selection))
  }

  /** `coverage_gaps`: one gap for each changed path no selected check covers, and one if nothing will run. */
  method CoverageGaps(glob: Glob, changed: seq<string>, checks: seq<CheckDefinition>, selection: seq<CheckSelection>)
    returns (gaps: seq<string>)
    ensures StrictlySorted(gaps)
    ensures forall gap :: gap in gaps <==> IsGap(glob, changed, checks, selection, gap)
  {
    gaps := [];
    for k := 0 to |changed|
      invariant forall gap :: gap in gaps <==>
        exists path :: path in changed[..k] && !Covered(glob, checks, selection, path) && gap == PathGap(path)
    {
      assert changed[..k + 1] == changed[..k] + [changed[k]];
      var covered := false;
      for i := 0 to |checks|
        invariant covered <==>
          exists j :: 0 <= j < i && j < |selection| && selection[j].selected && glob(checks[j].coveragePaths, changed[k])
      {
        if i < |selection| && selection[i].selected && glob(checks[i].coveragePaths, changed[k]) {
          covered := true;
        }
      }
      if !covered {
        gaps := gaps + [PathGap(changed[k])];
      }
    }
    assert changed[..|changed|] == changed;
    if checks == [] {
      gaps := gaps + [NO_CHECKS_GAP];
    } else if !AnySelected(selection) {
      gaps := gaps + [NONE_SELECTED_GAP];
    }
    SortedSetSorts(gaps);
    gaps := SortedSet(gaps);
  }

  lemma {:induction false} MatchingEmpty(glob: Glob, check: CheckDefinition, paths: seq<string>)
    ensures Matching(glob, check, paths) == [] <==> forall path :: path in paths ==> !glob(check.coveragePaths, path)
  {
    if paths != [] {
      MatchingEmpty(glob, check, paths[1..]);
      assert paths == [paths[0]] + paths[1..];
    }
  }

  /** Changed mode loses no coverage: a changed path is covered exactly when some discovered check, selected or
      not, matches it, so changed mode and a full run report the same path gaps. */
  lemma ChangedModeLosesNoCoverage(glob: Glob, checks: seq<CheckDefinition>, changed: seq<string>, path: string)
    requires path in changed
    ensures Covered(glob, checks, SelectAll(glob, checks, changed, true, {}), path)
            <==> exists check :: check in checks && glob(check.coveragePaths, path)
    ensures Covered(glob, checks, SelectAll(glob, checks, changed, true, {}), path)
            <==> Covered(glob, checks, SelectAll(glob, checks, changed, false, {}), path)
  {
    var selection := SelectAll(glob, checks, changed, true, {});
    var full := SelectAll(glob, checks, changed, false, {});
    forall i | 0 <= i < |checks| && glob(checks[i].coveragePaths, path)
      ensures selection[i].selected && full[i].selected
    {
      MatchingEmpty(glob, checks[i], changed);
    }
    if check :| check in checks && glob(check.coveragePaths, path) {
      var i :| 0 <= i < |checks| && checks[i] == check;
      assert selection[i].selected && full[i].selected;
    }
  }

  /** With explicit requests only the requested checks count towards coverage. */
  lemma RequestedCoverage(glob: Glob, checks: seq<CheckDefinition>, changed: seq<string>, changedOnly: bool,
                          requested: set<string>, path: string)
    requires requested != {}
    ensures Covered(glob, checks, SelectAll(glob, checks, changed, changedOnly, requested), path)
            <==> exists check :: check in checks && check.id in requested && glob(check.coveragePaths, path)
  {
    var selection := SelectAll(glob, checks, changed, changedOnly, requested);
    if check :| check in checks && check.id in requested && glob(check.coveragePaths, path) {
      var i :| 0 <= i < |checks| && checks[i] == check;
      assert selection[i].selected;
    }
  }

  function Ids(checks: seq<CheckDefinition>): seq<string> {
    seq(|checks|, i requires 0 <= i < |checks| => checks[i].id)
  }

  /** What `discover_checks` guarantees of its report: one selection per check, in strictly increasing id order. */
  predicate Aligned(report: DiscoveryReport) {
    && StrictlySorted(Ids(report.checks))
    && |report.selection| == |report.checks|
    && forall i :: 0 <= i < |report.checks| ==> report.selection[i].checkId == report.checks[i].id
  }

  /** The map `selected_checks` collects: a later entry for an id replaces an earlier one. */
  function SelectedById(selection: seq<CheckSelection>): map<string, bool> {
    if selection == [] then map[]
    else
      var last := selection[|selection| - 1];
      SelectedById(selection[..|selection| - 1])[last.checkId := last.selected]
  }

  function FilterSelected(checks: seq<CheckDefinition>, selected: map<string, bool>): seq<CheckDefinition> {
    if checks == [] then []
    else
      var check := checks[0];
      (if check.id in selected && selected[check.id] then [check] else []) + FilterSelected(checks[1..], selected)
  }

  function SelectedChecks(report: DiscoveryReport): seq<CheckDefinition> {
    FilterSelected(report.checks, SelectedById(report.selection))
  }

  /** The checks whose own selection entry is set, in order. */
  function Chosen(checks: seq<CheckDefinition>, selection: seq<CheckSelection>): seq<CheckDefinition>
    requires |checks| == |selection|
  {
    if checks == [] then []
    else (if selection[0].selected then [checks[0]] else []) + Chosen(checks[1..], selection[1..])
  }

  lemma {:induction false} SelectedByIdLookup(selection: seq<CheckSelection>, k: nat)
    requires k < |selection|
    requires forall i, j :: 0 <= i < j < |selection| ==> selection[i].checkId != selection[j].checkId
    ensures selection[k].checkId in SelectedById(selection)
    ensures SelectedById(selection)[selection[k].checkId] == selection[k].selected
  {
    if k < |selection| - 1 {
      SelectedByIdLookup(selection[..|selection| - 1], k);
    }
  }

  lemma {:induction false} FilterIsChosen(checks: seq<CheckDefinition>, selection: seq<CheckSelection>, selected: map<string, bool>)
    requires |checks| == |selection|
    requires forall i :: 0 <= i < |checks| ==> checks[i].id in selected && selected[checks[i].id] == selection[i].selected
    ensures FilterSelected(checks, selected) == Chosen(checks, selection)
  {
    if checks != [] {
      assert forall i :: 0 <= i < |checks| - 1 ==> checks[1..][i] == checks[i + 1] && selection[1..][i] == selection[i + 1];
      FilterIsChosen(checks[1..], selection[1..], selected);
    }
  }

  /** On an aligned report the map-based selection picks exactly the checks whose entry is set, in order. */
  lemma SelectedExactly(report: DiscoveryReport)
    requires Aligned(report)
    ensures SelectedChecks(report) == Chosen(report.checks, report.selection)
  {
    forall i, j | 0 <= i < j < |report.selection|
      ensures report.selection[i].checkId != report.selection[j].checkId
    {
      assert Less(Ids(report.checks)[i], Ids(report.checks)[j]);
      LessIrreflexive(report.checks[i].id);
    }
    forall i | 0 <= i < |report.checks|
      ensures report.checks[i].id in SelectedById(report.selection)
      ensures SelectedById(report.selection)[report.checks[i].id] == report.selection[i].selected
    {
      SelectedByIdLookup(report.selection, i);
    }
    FilterIsChosen(report.checks, report.selection, SelectedById(report.selection));
  }

  lemma {:induction false} ChosenMembers(checks: seq<CheckDefinition>, selection: seq<CheckSelection>)
    requires |checks| == |selection|
    requires StrictlySorted(Ids(checks))
    ensures StrictlySorted(Ids(Chosen(checks, selection)))
    ensures forall check :: check in Chosen(checks, selection) <==>
              exists i :: 0 <= i < |checks| && checks[i] == check && selection[i].selected
  {
    if checks != [] {
      var rest := Chosen(checks[1..], selection[1..]);
      assert forall i :: 0 <= i < |checks| - 1 ==> Ids(checks[1..])[i] == Ids(checks)[i + 1];
      ChosenMembers(checks[1..], selection[1..]);
      forall j | 0 <= j < |rest| ensures Less(checks[0].id, Ids(rest)[j]) {
        assert rest[j] in rest;
        var i :| 0 <= i < |checks| - 1 && checks[1..][i] == rest[j];
        assert Less(Ids(checks)[0], Ids(checks)[i + 1]);
      }
      var all := Chosen(checks, selection);
      forall check
        ensures check in all <==> exists i :: 0 <= i < |checks| && checks[i] == check && selection[i].selected
      {
        if i :| 0 <= i < |checks| && checks[i] == check && selection[i].selected {
          if i > 0 {
            assert checks[1..][i - 1] == check && selection[1..][i - 1].selected;
          }
        }
        if check in rest {
          var i :| 0 <= i < |checks| - 1 && checks[1..][i] == check && selection[1..][i].selected;
          assert checks[i + 1] == check && selection[i + 1].selected;
        }
      }
      if selection[0].selected {
        assert all == [checks[0]] + rest;
        assert forall j :: 0 < j < |all| ==> Ids(all)[j] == Ids(rest)[j - 1];
      } else {
        assert all == rest;
      }
    }
  }

  /** The ids the verifier collects from the selection are the ids of the checks a run executes. */
  lemma SelectedIds(report: DiscoveryReport)
    requires Aligned(report)
    ensures (set entry | entry in report.selection && entry.selected :: entry.checkId)
            == (set check | check in SelectedChecks(report) :: check.id)
    ensures StrictlySorted(Ids(SelectedChecks(report)))
  {
    SelectedExactly(report);
    ChosenMembers(report.checks, report.selection);
    var left := set entry | entry in report.selection && entry.selected :: entry.checkId;
    var right := set check | check in SelectedChecks(report) :: check.id;
    forall id | id in left ensures id in right {
      var i :| 0 <= i < |report.selection| && report.selection[i].selected && report.selection[i].checkId == id;
      assert report.checks[i] in SelectedChecks(report);
    }
    forall id | id in right ensures id in left {
      var check :| check in SelectedChecks(report) && check.id == id;
      var i :| 0 <= i < |report.checks| && report.checks[i] == check && report.selection[i].selected;
      assert report.selection[i] in report.selection;
    }
  }
}
