/**
 * The `remediate` command: find one alert, decide whether it is to be fixed, try `poetry update`
 * and, when that fails, `poetry add` with a fallback constraint, check that the lock files changed,
 * run the quality gates in order and report the outcome. Every external command is an input: the
 * result it reports. The lock file is an input twice, as parsed before and after the commands.
 */
module Remediation {
  import opened Wrappers
  import opened Text
  import opened Json
  import opened Versions
  import opened PackageNames
  import opened Alerts
  import LockFile
  import Listing

  /** The exit code and captured output of one command. */
  datatype CommandResult = CommandResult(returnCode: int, stdout: string, stderr: string)

  /** What each command the agent may run reports when it is run. */
  datatype Runs = Runs(
    update: CommandResult, add: CommandResult, gitStatus: CommandResult,
    install: CommandResult, pytest: CommandResult, ruff: CommandResult)

  /** The command-line arguments of `remediate`. */
  datatype Args = Args(alertId: int, minSeverity: string, dryRun: bool)

  /** The terminal statuses of a run. */
  datatype Status = Skipped | DryRun | Failed | ValidationFailed | Remediated

  datatype VersionChange = VersionChange(oldVersion: Option<string>, newVersion: Option<string>)

  /** Why a run ended as it did; `ReasonText` is the message the report carries. */
  datatype Reason =
    | NoReason
    | NotFound(alertId: int)
    | NoMatch(alertId: int)
    | NoPackageName
    | DryRunRequested
    | GitStatusFailed
    | NoPatchedVersion
    | NoChanges(errors: seq<string>)
    | GateFailed(command: seq<string>, completed: CommandResult)

  /** The `reason` text of the report. */
  function ReasonText(reason: Reason): string {
    match reason
    case NoReason => ""
    case NotFound(id) => "Alert " + IntToString(id) + " is not open or not found."
    case NoMatch(id) => "Alert " + IntToString(id) + " does not match filters."
    case NoPackageName => "Alert has no package name."
    case DryRunRequested => "Dry run requested; no dependency updates performed."
    case GitStatusFailed => "Failed to inspect git status after remediation."
    case NoPatchedVersion => "No resolvable first patched version in alert metadata."
    case NoChanges(errors) =>
      "Remediation produced no dependency changes." + (if errors != [] then " Last error: " + Join(errors, "\n") else "")
    case GateFailed(command, completed) =>
      "Quality gate failed: " + Join(command, " ")
      + "\nstdout:\n" + Strip(completed.stdout) + "\nstderr:\n" + Strip(completed.stderr)
  }

  /**
   * The `base_result` payload of an alert that is pursued; the versions are present only once it
   * is remediated.
   */
  datatype Detail = Detail(
    status: Status, fields: AlertFields, branch: string, title: string, labels: seq<string>,
    updateType: UpdateType, autoMergeEligible: bool, commands: seq<seq<string>>,
    reason: Reason, versions: Option<VersionChange>)

  /** The payload written at the end: a brief one for alerts that are not pursued, the detailed one otherwise. */
  datatype Report =
    | Brief(status: Status, reason: Reason, alertFields: Option<AlertFields>)
    | Detailed(detail: Detail)

  const Labels: seq<string> := ["security", "dependabot", "auto-remediation"]

  function UpdateCommand(name: string): seq<string> {
    ["python3", "-m", "poetry", "update", name]
  }

  function AddCommand(name: string, constraint: string): seq<string> {
    ["python3", "-m", "poetry", "add", name + "@" + constraint]
  }

  /** The quality gates, in the order they run. */
  const QualityGates: seq<seq<string>> := [
    ["python3", "-m", "poetry", "install"],
    ["python3", "-m", "poetry", "run", "pytest"],
    ["python3", "-m", "poetry", "run", "ruff", "check", "."]]

  function GateResults(runs: Runs): seq<CommandResult> {
    [runs.install, runs.pytest, runs.ruff]
  }

  /** `_find_alert` as the spec of its method: the search over the pages read. */
  function FindResult(pages: seq<Outcome<Json>>, alertId: int): Outcome<Option<Json>> {
    match Listing.Fetched(pages, 0)
    case Raised => Raised
    case Returned(alerts) => Listing.FindIn(alerts, alertId)
  }

  /** Where the first phase leaves a run: finished with a report, or going on with the alert's fields and package name. */
  datatype Stage = Done(outcome: Outcome<Report>) | Proceed(f: AlertFields, name: string)

  /** Up to the dry-run check: look the alert up, filter it, and require a package name. */
  function Triage(pages: seq<Outcome<Json>>, args: Args): Stage {
    match FindResult(pages, args.alertId)
    case Raised => Done(Raised)
    case Returned(found) =>
      if found.None? || !Truthy(found.value) then
        Done(Returned(Brief(Skipped, NotFound(args.alertId), None)))
      else
        match ExtractAlertFields(found.value)
        case Raised => Done(Raised)
        case Returned(f) =>
          if !PassesFilters(f, args.minSeverity) then
            Done(Returned(Brief(Skipped, NoMatch(args.alertId), Some(f))))
          else if !Truthy(f.package) then
            Done(Returned(Brief(Skipped, NoPackageName, Some(f))))
          else if !f.package.Str? then
            // `_safe_branch_component` calls `.strip()` on the name
            Done(Raised)
          else Proceed(f, f.package.s)
  }

  /** `base_result` as first built: failed, no commands, no reason, update type unknown. */
  function Base(f: AlertFields, name: string): Detail {
    Detail(
      Failed, f, "secfix/alert-" + PyStr(f.alertId) + "-" + SafeBranchComponent(name),
      "fix(security): remediate alert " + PyStr(f.alertId) + " for " + name,
      Labels, Unknown, false, [], NoReason, None)
  }

  /**
   * The constraint `poetry add` is tried with: only after a failed update and with a truthy first
   * patched version, and only when that version parses. `re.search` raises on a value that is
   * not a string.
   */
  function Fallback(f: AlertFields, update: CommandResult): Outcome<Option<string>> {
    if update.returnCode == 0 || !Truthy(f.firstPatchedVersion) then Returned(None)
    else if !f.firstPatchedVersion.Str? then Raised
    else Returned(BuildFallbackConstraint(f.firstPatchedVersion.s))
  }

  /** The stripped error output of the attempts that printed any, in order. */
  function ErrorOutputs(attempts: seq<CommandResult>): (r: seq<string>)
    ensures forall e :: e in r ==> e != []
  {
    if attempts == [] then []
    else
      var e := Strip(attempts[0].stderr);
      (if e != [] then [e] else []) + ErrorOutputs(attempts[1..])
  }

  /** The reason given when the lock files did not change. */
  function NoChangeReason(f: AlertFields, attempts: seq<CommandResult>): Reason {
    if !Truthy(f.firstPatchedVersion) then NoPatchedVersion else NoChanges(ErrorOutputs(attempts))
  }

  /** The index of the first gate that exits non-zero, or the number of gates when none does. */
  function FirstFailingGate(results: seq<CommandResult>): (k: nat)
    ensures k <= |results|
    ensures forall j :: 0 <= j < k ==> results[j].returnCode == 0
    ensures k < |results| ==> results[k].returnCode != 0
  {
    if results == [] then 0
    else if results[0].returnCode != 0 then 0
    else 1 + FirstFailingGate(results[1..])
  }

  /** `before_versions.get(package_key)`. */
  function Lookup(versions: map<string, string>, key: string): Option<string> {
    if key in versions then Some(versions[key]) else None
  }

  /** The commands tried before the lock files are inspected, and what each reported. */
  datatype Attempts = Attempts(commands: seq<seq<string>>, results: seq<CommandResult>)

  /** `poetry update`, then `poetry add` with the fallback constraint when there is one. */
  function Attempt(f: AlertFields, name: string, runs: Runs): Outcome<Attempts> {
    match Fallback(f, runs.update)
    case Raised => Raised
    case Returned(None) => Returned(Attempts([UpdateCommand(name)], [runs.update]))
    case Returned(Some(constraint)) =>
      Returned(Attempts([UpdateCommand(name), AddCommand(name, constraint)], [runs.update, runs.add]))
  }

  /** From `base_result` after the attempts: inspect git status, then validate. */
  function Conclusion(base: Detail, attempts: Attempts, runs: Runs, key: string, oldVersion: Option<string>, after: Outcome<map<string, string>>): Outcome<Detail> {
    var tried := base.(commands := attempts.commands);
    if runs.gitStatus.returnCode != 0 then
      Returned(tried.(reason := GitStatusFailed))
    else if Strip(runs.gitStatus.stdout) == [] then
      Returned(tried.(status := Skipped, reason := NoChangeReason(base.fields, attempts.results)))
    else Validation(tried, runs, key, oldVersion, after)
  }

  /** Run the quality gates until one fails; when none does, classify the version change. */
  function Validation(tried: Detail, runs: Runs, key: string, oldVersion: Option<string>, after: Outcome<map<string, string>>): Outcome<Detail> {
    var results := GateResults(runs);
    var k := FirstFailingGate(results);
    if k < |QualityGates| then
      Returned(tried.(
        status := ValidationFailed, commands := tried.commands + QualityGates[..k + 1],
        reason := GateFailed(QualityGates[k], results[k])))
    else Classification(tried.(commands := tried.commands + QualityGates), key, oldVersion, after)
  }

  /** Read the lock file again and classify the change of the package's version. */
  function Classification(validated: Detail, key: string, oldVersion: Option<string>, after: Outcome<map<string, string>>): Outcome<Detail> {
    match after
    case Raised => Raised
    case Returned(versions) =>
      var newVersion := Lookup(versions, key);
      var u := DetermineUpdateType(oldVersion, newVersion);
      Returned(validated.(
        status := Remediated, updateType := u, autoMergeEligible := u == Patch || u == Minor,
        versions := Some(VersionChange(oldVersion, newVersion))))
  }

  /** Everything after the dry-run check. */
  function Run(f: AlertFields, name: string, runs: Runs, lockBefore: Option<map<string, Json>>, lockAfter: Option<map<string, Json>>): Outcome<Detail> {
    match LockFile.LockVersions(lockBefore)
    case Raised => Raised
    case Returned(before) =>
      match Attempt(f, name, runs)
      case Raised => Raised
      case Returned(attempts) =>
        var key := NormalizePackageName(name);
        Conclusion(Base(f, name), attempts, runs, key, Lookup(before, key), LockFile.LockVersions(lockAfter))
  }

  /** `_remediate_alert`: the report it writes, or the exception that escapes it. */
  function Remediate(pages: seq<Outcome<Json>>, args: Args, runs: Runs, lockBefore: Option<map<string, Json>>, lockAfter: Option<map<string, Json>>): Outcome<Report> {
    match Triage(pages, args)
    case Done(outcome) => outcome
    case Proceed(f, name) =>
      if args.dryRun then Returned(Detailed(Base(f, name).(status := DryRun, reason := DryRunRequested)))
      else
        match Run(f, name, runs, lockBefore, lockAfter)
        case Raised => Raised
        case Returned(detail) => Returned(Detailed(detail))
  }

  /**
   * `_remediate_alert`, step by step: look the alert up and triage it, build `base_result`,
   * stop on a dry run, and otherwise go on with the remediation itself.
   */
  method RemediateAlert(pages: seq<Outcome<Json>>, args: Args, runs: Runs, lockBefore: Option<map<string, Json>>, lockAfter: Option<map<string, Json>>)
    returns (r: Outcome<Report>)
    ensures r == Remediate(pages, args, runs, lockBefore, lockAfter)
  {
    var found := Listing.FindAlert(pages, args.alertId);
    if found.Raised? {
      return Raised;
    }
    if found.value.None? || !Truthy(found.value.value) {
      return Returned(Brief(Skipped, NotFound(args.alertId), None));
    }
    var extracted := ExtractAlertFields(found.value.value);
    if extracted.Raised? {
      return Raised;
    }
    var f := extracted.value;
    if !PassesFilters(f, args.minSeverity) {
      return Returned(Brief(Skipped, NoMatch(args.alertId), Some(f)));
    }
    if !Truthy(f.package) {
      return Returned(Brief(Skipped, NoPackageName, Some(f)));
    }
    if !f.package.Str? {
      return Raised;
    }
    var name := f.package.s;
    assert Triage(pages, args) == Proceed(f, name);

    var branch := "secfix/alert-" + PyStr(f.alertId) + "-" + SafeBranchComponent(name);
    var title := "fix(security): remediate alert " + PyStr(f.alertId) + " for " + name;
    var result := Detail(Failed, f, branch, title, Labels, Unknown, false, [], NoReason, None);
    assert result == Base(f, name);
    if args.dryRun {
      return Returned(Detailed(result.(status := DryRun, reason := DryRunRequested)));
    }

    var detail := RunRemediation(result, f, name, runs, lockBefore, lockAfter);
    if detail.Raised? {
      return Raised;
    }
    r := Returned(Detailed(detail.value));
  }

  /**
   * The steps of `_remediate_alert` after the dry-run check, on the `base_result` just built:
   * read the lock file, try the update and the fallback add, inspect git status, then validate.
   */
  method RunRemediation(base: Detail, f: AlertFields, name: string, runs: Runs, lockBefore: Option<map<string, Json>>, lockAfter: Option<map<string, Json>>)
    returns (r: Outcome<Detail>)
    requires base == Base(f, name)
    ensures r == Run(f, name, runs, lockBefore, lockAfter)
  {
    var result := base;
    var beforeVersions := LockFile.LoadLockVersions(lockBefore);
    if beforeVersions.Raised? {
      return Raised;
    }
    var key := NormalizePackageName(name);
    var oldVersion := Lookup(beforeVersions.value, key);

    var commands := [UpdateCommand(name)];
    var attempts := [runs.update];
    if runs.update.returnCode != 0 && Truthy(f.firstPatchedVersion) {
      if !f.firstPatchedVersion.Str? {
        return Raised;
      }
      var constraint := BuildFallbackConstraint(f.firstPatchedVersion.s);
      if constraint.Some? {
        commands := commands + [AddCommand(name, constraint.value)];
        attempts := attempts + [runs.add];
        assert commands == [UpdateCommand(name), AddCommand(name, constraint.value)];
        assert attempts == [runs.update, runs.add];
      }
    }
    assert Attempt(f, name, runs) == Returned(Attempts(commands, attempts));
    result := result.(commands := commands);

    if runs.gitStatus.returnCode != 0 {
      return Returned(result.(reason := GitStatusFailed));
    }
    if Strip(runs.gitStatus.stdout) == [] {
      return Returned(result.(status := Skipped, reason := NoChangeReason(f, attempts)));
    }
    r := Validate(result, runs, key, oldVersion, lockAfter);
  }

  /**
   * The quality gates in order, each command recorded before it runs, stopping at the first
   * failure; when all pass, the lock file is read again and the version change classified.
   */
  method Validate(tried: Detail, runs: Runs, key: string, oldVersion: Option<string>, lockAfter: Option<map<string, Json>>)
    returns (r: Outcome<Detail>)
    ensures r == Validation(tried, runs, key, oldVersion, LockFile.LockVersions(lockAfter))
  {
    var commands := tried.commands;
    var results := GateResults(runs);
    var k := 0;
    while k < |QualityGates|
      invariant 0 <= k <= |QualityGates|
      invariant commands == tried.commands + QualityGates[..k]
      invariant forall j :: 0 <= j < k ==> results[j].returnCode == 0
    {
      commands := commands + [QualityGates[k]];
      var completed := results[k];
      if completed.returnCode != 0 {
        GateIndex(results, k);
        assert commands == tried.commands + QualityGates[..k + 1];
        return Returned(tried.(status := ValidationFailed, commands := commands, reason := GateFailed(QualityGates[k], completed)));
      }
      k := k + 1;
    }
    GateIndex(results, k);
    assert QualityGates[..k] == QualityGates;

    var afterVersions := LockFile.LoadLockVersions(lockAfter);
    if afterVersions.Raised? {
      return Raised;
    }
    var newVersion := Lookup(afterVersions.value, key);
    var updateType := DetermineUpdateType(oldVersion, newVersion);
    r := Returned(tried.(
      status := Remediated, commands := commands, updateType := updateType,
      autoMergeEligible := updateType == Patch || updateType == Minor,
      versions := Some(VersionChange(oldVersion, newVersion))));
  }

  /** The first failing gate is the one where every earlier gate passed and this one did not. */
  lemma {:induction false} GateIndex(results: seq<CommandResult>, k: nat)
    requires k <= |results| && forall j :: 0 <= j < k ==> results[j].returnCode == 0
    requires k == |results| || results[k].returnCode != 0
    ensures FirstFailingGate(results) == k
  {
    if k > 0 {
      GateIndex(results[1..], k - 1);
    }
  }

  /** An alert that is not found, or found empty, is skipped before anything is run. */
  lemma NotFoundSkipped(pages: seq<Outcome<Json>>, args: Args, runs: Runs, lockBefore: Option<map<string, Json>>, lockAfter: Option<map<string, Json>>)
    requires FindResult(pages, args.alertId).Returned?
    requires FindResult(pages, args.alertId).value.None? || !Truthy(FindResult(pages, args.alertId).value.value)
    ensures Remediate(pages, args, runs, lockBefore, lockAfter) == Returned(Brief(Skipped, NotFound(args.alertId), None))
  {
  }

  /** An alert the filters reject is skipped, and the report carries its fields. */
  lemma FilteredOutSkipped(pages: seq<Outcome<Json>>, args: Args, runs: Runs, lockBefore: Option<map<string, Json>>, lockAfter: Option<map<string, Json>>, alert: Json, f: AlertFields)
    requires FindResult(pages, args.alertId) == Returned(Some(alert)) && Truthy(alert)
    requires ExtractAlertFields(alert) == Returned(f) && !PassesFilters(f, args.minSeverity)
    ensures Remediate(pages, args, runs, lockBefore, lockAfter) == Returned(Brief(Skipped, NoMatch(args.alertId), Some(f)))
  {
  }

  /** An alert that passes the filters without a package name is skipped. */
  lemma NamelessSkipped(pages: seq<Outcome<Json>>, args: Args, runs: Runs, lockBefore: Option<map<string, Json>>, lockAfter: Option<map<string, Json>>, alert: Json, f: AlertFields)
    requires FindResult(pages, args.alertId) == Returned(Some(alert)) && Truthy(alert)
    requires ExtractAlertFields(alert) == Returned(f) && PassesFilters(f, args.minSeverity) && !Truthy(f.package)
    ensures Remediate(pages, args, runs, lockBefore, lockAfter) == Returned(Brief(Skipped, NoPackageName, Some(f)))
  {
  }

  /** Every report triage finishes with is a brief skip. */
  lemma TriageSkips(pages: seq<Outcome<Json>>, args: Args)
    ensures var stage := Triage(pages, args);
      stage.Done? && stage.outcome.Returned? ==> stage.outcome.value.Brief? && stage.outcome.value.status == Skipped
  {
  }

  /** An alert that gets past triage passed the filters and names its package with a string. */
  lemma TriageProceeds(pages: seq<Outcome<Json>>, args: Args)
    requires Triage(pages, args).Proceed?
    ensures var stage := Triage(pages, args);
      PassesFilters(stage.f, args.minSeverity) && stage.f.package == Str(stage.name)
  {
  }

  /** Brief reports are exactly the ones written before `base_result` exists, and all of them are skips. */
  lemma BriefReports(pages: seq<Outcome<Json>>, args: Args, runs: Runs, lockBefore: Option<map<string, Json>>, lockAfter: Option<map<string, Json>>)
    ensures var r := Remediate(pages, args, runs, lockBefore, lockAfter);
      && (r.Returned? && r.value.Brief? <==> Triage(pages, args).Done? && Triage(pages, args).outcome.Returned?)
      && (r.Returned? && r.value.Brief? ==> r.value.status == Skipped)
  {
    TriageSkips(pages, args);
  }

  /**
   * A detailed report belongs to an alert that passed the filters and names its package with a
   * string; it is a dry run exactly when one was asked for, and otherwise is what the run gives.
   */
  lemma DetailedReport(pages: seq<Outcome<Json>>, args: Args, runs: Runs, lockBefore: Option<map<string, Json>>, lockAfter: Option<map<string, Json>>, d: Detail)
    requires Remediate(pages, args, runs, lockBefore, lockAfter) == Returned(Detailed(d))
    ensures d.fields.package.Str? && Triage(pages, args) == Proceed(d.fields, d.fields.package.s)
    ensures PassesFilters(d.fields, args.minSeverity)
    ensures d.branch == "secfix/alert-" + PyStr(d.fields.alertId) + "-" + SafeBranchComponent(d.fields.package.s)
    ensures d.labels == Labels
    ensures d.status == DryRun <==> args.dryRun
    ensures args.dryRun ==> d.commands == [] && d.reason == DryRunRequested && Unclassified(d)
    ensures !args.dryRun ==> Run(d.fields, d.fields.package.s, runs, lockBefore, lockAfter) == Returned(d)
  {
    TriageSkips(pages, args);
    var stage := Triage(pages, args);
    TriageProceeds(pages, args);
    if args.dryRun {
      assert d == Base(stage.f, stage.name).(status := DryRun, reason := DryRunRequested);
    } else {
      assert Run(stage.f, stage.name, runs, lockBefore, lockAfter) == Returned(d);
      RunStatuses(stage.f, stage.name, runs, lockBefore, lockAfter, d);
    }
  }

  /** A dry run does not depend on what the commands or the lock files would report. */
  lemma DryRunIndependent(pages: seq<Outcome<Json>>, args: Args, runs: Runs, lockBefore: Option<map<string, Json>>, lockAfter: Option<map<string, Json>>,
                          otherRuns: Runs, otherBefore: Option<map<string, Json>>, otherAfter: Option<map<string, Json>>)
    requires args.dryRun
    ensures Remediate(pages, args, runs, lockBefore, lockAfter) == Remediate(pages, args, otherRuns, otherBefore, otherAfter)
  {
  }

  /**
   * `poetry update` always runs first; `poetry add` runs second exactly when the update failed,
   * the alert has a truthy first patched version, and that version yields a constraint.
   */
  lemma AttemptCommands(f: AlertFields, name: string, runs: Runs)
    ensures Attempt(f, name, runs).Raised? <==>
      runs.update.returnCode != 0 && Truthy(f.firstPatchedVersion) && !f.firstPatchedVersion.Str?
    ensures var r := Attempt(f, name, runs);
      r.Returned? ==>
        var a := r.value;
        && 1 <= |a.commands| == |a.results| <= 2
        && a.commands[0] == UpdateCommand(name) && a.results[0] == runs.update
        && (|a.commands| == 2 <==>
              runs.update.returnCode != 0 && Truthy(f.firstPatchedVersion)
              && BuildFallbackConstraint(f.firstPatchedVersion.s).Some?)
        && (|a.commands| == 2 ==>
              a.commands[1] == AddCommand(name, BuildFallbackConstraint(f.firstPatchedVersion.s).value)
              && a.results[1] == runs.add)
  {
  }

  /**
   * From the alert payload to the `poetry add` command: when the first patched version's
   * identifier is a rendered version v and the update fails, the add command asks for the
   * package at ">=v,<(next major).0.0".
   */
  lemma PatchedAlertAddCommand(alert: Json, f: AlertFields, name: string, runs: Runs, v: Semver)
    requires ExtractAlertFields(alert) == Returned(f)
    requires alert.Obj? && ChooseAlertVulnerability(alert.fields).Obj?
    requires var firstPatched := Nested(ChooseAlertVulnerability(alert.fields).fields, "first_patched_version");
      firstPatched.Obj? && Get(firstPatched.fields, "identifier", Null) == Str(Render(v))
    requires runs.update.returnCode != 0
    ensures Attempt(f, name, runs) ==
      Returned(Attempts([UpdateCommand(name), AddCommand(name, ConstraintText(v))], [runs.update, runs.add]))
  {
    ExtractPassthrough(alert, f);
    assert f.firstPatchedVersion == Str(Render(v)) by {
      assert Render(v)[|NatToString(v.major)|] == '.';
    }
    ParseRenderRoundTrip(v);
  }

  /** Without any stripped error output, the no-change reason carries no error text. */
  lemma {:induction false} ErrorOutputsEmpty(attempts: seq<CommandResult>)
    ensures ErrorOutputs(attempts) == [] <==> forall i :: 0 <= i < |attempts| ==> Strip(attempts[i].stderr) == []
  {
    if attempts != [] {
      ErrorOutputsEmpty(attempts[1..]);
      ErrorOutputsStep(attempts);
      QuietStep(attempts);
    }
  }

  /** The first attempt adds no error text exactly when its stripped stderr is empty. */
  lemma ErrorOutputsStep(attempts: seq<CommandResult>)
    requires attempts != []
    ensures ErrorOutputs(attempts) == [] <==>
      Strip(attempts[0].stderr) == [] && ErrorOutputs(attempts[1..]) == []
  {
    var e := Strip(attempts[0].stderr);
    assert ErrorOutputs(attempts) == (if e != [] then [e] else []) + ErrorOutputs(attempts[1..]);
  }

  /** Every attempt is quiet exactly when the first one and all the later ones are. */
  lemma QuietStep(attempts: seq<CommandResult>)
    requires attempts != []
    ensures (forall i :: 0 <= i < |attempts| ==> Strip(attempts[i].stderr) == []) <==>
      Strip(attempts[0].stderr) == [] && forall i :: 0 <= i < |attempts[1..]| ==> Strip(attempts[1..][i].stderr) == []
  {
    assert forall i :: 1 <= i < |attempts| ==> attempts[i] == attempts[1..][i - 1];
  }

  /** The reason given when the lock files did not change. */
  lemma NoChangeReasons(f: AlertFields, attempts: seq<CommandResult>)
    ensures !Truthy(f.firstPatchedVersion) ==> NoChangeReason(f, attempts) == NoPatchedVersion
    ensures Truthy(f.firstPatchedVersion) && (forall i :: 0 <= i < |attempts| ==> Strip(attempts[i].stderr) == []) ==>
      NoChangeReason(f, attempts) == NoChanges([])
  {
    ErrorOutputsEmpty(attempts);
  }

  /** Two details about the same alert: same fields, branch, title and labels. */
  predicate SameAlert(d: Detail, base: Detail) {
    d.fields == base.fields && d.branch == base.branch && d.title == base.title && d.labels == base.labels
  }

  /** No version change has been classified: update type unknown, not auto-mergeable, no versions. */
  predicate Unclassified(d: Detail) {
    d.updateType == Unknown && !d.autoMergeEligible && d.versions.None?
  }

  /** After validation: remediated, with the version change read and its update type classified. */
  lemma ClassificationFacts(validated: Detail, key: string, oldVersion: Option<string>, after: Outcome<map<string, string>>, d: Detail)
    requires Classification(validated, key, oldVersion, after) == Returned(d)
    ensures after.Returned?
    ensures d.status == Remediated && d.commands == validated.commands && SameAlert(d, validated)
    ensures d.versions == Some(VersionChange(oldVersion, Lookup(after.value, key)))
    ensures d.updateType == DetermineUpdateType(oldVersion, d.versions.value.newVersion)
    ensures d.autoMergeEligible <==> d.updateType == Patch || d.updateType == Minor
  {
  }

  /** A failing gate ends the run as a validation failure, with that gate as the last command. */
  lemma GateFailureFacts(tried: Detail, runs: Runs, key: string, oldVersion: Option<string>, after: Outcome<map<string, string>>, d: Detail)
    requires Validation(tried, runs, key, oldVersion, after) == Returned(d)
    requires FirstFailingGate(GateResults(runs)) < |QualityGates|
    ensures var results := GateResults(runs);
      var k := FirstFailingGate(results);
      && d == tried.(status := ValidationFailed, commands := d.commands, reason := d.reason)
      && d.commands == tried.commands + QualityGates[..k + 1] && results[k].returnCode != 0
      && d.reason == GateFailed(QualityGates[k], results[k])
  {
    ValidationFailure(tried, runs, key, oldVersion, after, FirstFailingGate(GateResults(runs)));
  }

  lemma ValidationFailure(tried: Detail, runs: Runs, key: string, oldVersion: Option<string>, after: Outcome<map<string, string>>, k: nat)
    requires k == FirstFailingGate(GateResults(runs)) < |QualityGates|
    ensures Validation(tried, runs, key, oldVersion, after) == Returned(tried.(
      status := ValidationFailed, commands := tried.commands + QualityGates[..k + 1],
      reason := GateFailed(QualityGates[k], GateResults(runs)[k])))
  {
  }

  /** When every gate passes, all three are recorded and the version change is classified. */
  lemma GatesPassedFacts(tried: Detail, runs: Runs, key: string, oldVersion: Option<string>, after: Outcome<map<string, string>>, d: Detail)
    requires Validation(tried, runs, key, oldVersion, after) == Returned(d)
    requires FirstFailingGate(GateResults(runs)) == |QualityGates|
    ensures Classification(tried.(commands := tried.commands + QualityGates), key, oldVersion, after) == Returned(d)
  {
  }

  /** After the attempts, by the result of git status. */
  lemma ConclusionFacts(base: Detail, attempts: Attempts, runs: Runs, key: string, oldVersion: Option<string>, after: Outcome<map<string, string>>, d: Detail)
    requires Conclusion(base, attempts, runs, key, oldVersion, after) == Returned(d)
    ensures var tried := base.(commands := attempts.commands);
      && (runs.gitStatus.returnCode != 0 ==> d == tried.(reason := GitStatusFailed))
      && (runs.gitStatus.returnCode == 0 && Strip(runs.gitStatus.stdout) == [] ==>
            d == tried.(status := Skipped, reason := NoChangeReason(base.fields, attempts.results)))
      && (runs.gitStatus.returnCode == 0 && Strip(runs.gitStatus.stdout) != [] ==>
            Validation(tried, runs, key, oldVersion, after) == Returned(d))
  {
  }

  /**
   * The outcome of a run by the result of git status and the quality gates: which status is
   * reported, which commands are recorded, and when the version change is classified.
   */
  lemma RunStatuses(f: AlertFields, name: string, runs: Runs, lockBefore: Option<map<string, Json>>, lockAfter: Option<map<string, Json>>, d: Detail)
    requires Run(f, name, runs, lockBefore, lockAfter) == Returned(d)
    ensures LockFile.LockVersions(lockBefore).Returned? && Attempt(f, name, runs).Returned?
    ensures SameAlert(d, Base(f, name)) && d.fields == f
    ensures
      var attempted := Attempt(f, name, runs).value.commands;
      var gitOk := runs.gitStatus.returnCode == 0;
      var changed := Strip(runs.gitStatus.stdout) != [];
      var k := FirstFailingGate(GateResults(runs));
      && (d.status == Failed <==> !gitOk)
      && (d.status == Skipped <==> gitOk && !changed)
      && (d.status == ValidationFailed <==> gitOk && changed && k < |QualityGates|)
      && (d.status == Remediated <==> gitOk && changed && k == |QualityGates|)
      && (d.status == Failed ==> d.commands == attempted && d.reason == GitStatusFailed)
      && (d.status == Skipped ==>
            d.commands == attempted && d.reason == NoChangeReason(f, Attempt(f, name, runs).value.results))
      && (d.status == ValidationFailed ==>
            d.commands == attempted + QualityGates[..k + 1] && GateResults(runs)[k].returnCode != 0
            && d.reason == GateFailed(QualityGates[k], GateResults(runs)[k]))
      && (d.status == Remediated ==> d.commands == attempted + QualityGates)
      && (d.status == ValidationFailed || d.status == Remediated ==>
            forall j :: 0 <= j < k ==> GateResults(runs)[j].returnCode == 0)
  {
    var key := NormalizePackageName(name);
    var base := Base(f, name);
    var attempts := Attempt(f, name, runs).value;
    var oldVersion := Lookup(LockFile.LockVersions(lockBefore).value, key);
    ConclusionFacts(base, attempts, runs, key, oldVersion, LockFile.LockVersions(lockAfter), d);
    var tried := base.(commands := attempts.commands);
    if runs.gitStatus.returnCode == 0 && Strip(runs.gitStatus.stdout) != [] {
      if FirstFailingGate(GateResults(runs)) < |QualityGates| {
        GateFailureFacts(tried, runs, key, oldVersion, LockFile.LockVersions(lockAfter), d);
      } else {
        GatesPassedFacts(tried, runs, key, oldVersion, LockFile.LockVersions(lockAfter), d);
        ClassificationFacts(tried.(commands := tried.commands + QualityGates), key, oldVersion, LockFile.LockVersions(lockAfter), d);
      }
    }
  }

  /** The version change is recorded, and classified, only on a remediated run. */
  lemma RunVersions(f: AlertFields, name: string, runs: Runs, lockBefore: Option<map<string, Json>>, lockAfter: Option<map<string, Json>>, d: Detail)
    requires Run(f, name, runs, lockBefore, lockAfter) == Returned(d)
    ensures d.status != Remediated ==> Unclassified(d)
    ensures d.status == Remediated ==>
      && LockFile.LockVersions(lockBefore).Returned? && LockFile.LockVersions(lockAfter).Returned?
      && var key := NormalizePackageName(name);
      && d.versions == Some(VersionChange(
           Lookup(LockFile.LockVersions(lockBefore).value, key), Lookup(LockFile.LockVersions(lockAfter).value, key)))
      && d.updateType == DetermineUpdateType(d.versions.value.oldVersion, d.versions.value.newVersion)
      && (d.autoMergeEligible <==> d.updateType == Patch || d.updateType == Minor)
  {
    var key := NormalizePackageName(name);
    var base := Base(f, name);
    var attempts := Attempt(f, name, runs).value;
    var oldVersion := Lookup(LockFile.LockVersions(lockBefore).value, key);
    ConclusionFacts(base, attempts, runs, key, oldVersion, LockFile.LockVersions(lockAfter), d);
    var tried := base.(commands := attempts.commands);
    if runs.gitStatus.returnCode == 0 && Strip(runs.gitStatus.stdout) != [] {
      if FirstFailingGate(GateResults(runs)) < |QualityGates| {
        GateFailureFacts(tried, runs, key, oldVersion, LockFile.LockVersions(lockAfter), d);
      } else {
        GatesPassedFacts(tried, runs, key, oldVersion, LockFile.LockVersions(lockAfter), d);
        ClassificationFacts(tried.(commands := tried.commands + QualityGates), key, oldVersion, LockFile.LockVersions(lockAfter), d);
      }
    }
  }
}
