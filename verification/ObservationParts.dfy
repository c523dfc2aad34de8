/** The parts a Project is observed in, what a failure leaves of one, and their composition. */
module ObservationParts {
  import opened Wrappers

  datatype Kind = Issues | PullRequests | Targets

  datatype Status = Fresh | Stale | Unavailable

  type Diagnostic = nat

  /** An Issue, Pull Request, Observation Target or Branch: its identity and the rest of it. */
  datatype Item = Item(id: nat, facts: nat)

  /** What one part carries. Only a targets part has branches. */
  datatype Payload = Payload(items: seq<Item>, branches: seq<Item>, extra: nat)

  const NOTHING := Payload([], [], 0)

  datatype Half = Half(
    status: Status,
    attemptedAt: int,
    lastGoodAt: Option<int>,
    diagnostics: seq<Diagnostic>,
    projectDiagnostics: seq<Diagnostic>,
    elapsed: nat,
    payload: Payload)

  /** What comes back from observing a part: no collector, a failure, or the source's answer.
      An Issue or Pull Request source reports its own status and times; `sourceAt` and
      `lastGoodAt` play no part for targets. */
  datatype Answer =
    | NoCollector(diagnostic: Diagnostic)
    | Raised(diagnostic: Diagnostic)
    | Read(status: Status, sourceAt: int, lastGoodAt: Option<int>, diagnostics: seq<Diagnostic>, payload: Payload)

  function RetainedAfterFailure(half: Half, at: int, diagnostic: Diagnostic, projectFailure: bool): Half {
    half.(status := Stale,
          attemptedAt := at,
          diagnostics := if projectFailure then [] else [diagnostic],
          projectDiagnostics := if projectFailure then [diagnostic] else [],
          elapsed := 0)
  }

  function FailedHalf(previous: Option<Half>, at: int, diagnostic: Diagnostic, projectFailure: bool): Half {
    if previous.Some? && previous.value.lastGoodAt.Some?
    then RetainedAfterFailure(previous.value, at, diagnostic, projectFailure)
    else Half(Unavailable, at, None,
              if projectFailure then [] else [diagnostic],
              if projectFailure then [diagnostic] else [],
              0, NOTHING)
  }

  /** One observation of a part, attempted `at`, with its time stamped on whatever came back. */
  function Observed(kind: Kind, previous: Option<Half>, at: int, answer: Answer, elapsed: nat): Half {
    var half :=
      match answer
      case NoCollector(diagnostic) => FailedHalf(previous, at, diagnostic, true)
      case Raised(diagnostic) => FailedHalf(previous, at, diagnostic, false)
      case Read(status, sourceAt, lastGoodAt, diagnostics, payload) =>
        if kind == Targets
        then Half(Fresh, at, Some(at), diagnostics, [], 0, payload)
        else Half(status, sourceAt, lastGoodAt, diagnostics, [], 0, payload);
    half.(elapsed := elapsed)
  }

  // -- A part over its whole history -------------------------------------------------------------

  /** One accepted observation. */
  datatype Outcome = Outcome(generation: nat, at: int, answer: Answer, elapsed: nat)

  /** The part after these accepted observations, each given the one before it. */
  function Folded(kind: Kind, outcomes: seq<Outcome>): Option<Half> {
    if outcomes == [] then None
    else
      var last := outcomes[|outcomes| - 1];
      Some(Observed(kind, Folded(kind, outcomes[..|outcomes| - 1]), last.at, last.answer, last.elapsed))
  }

  /** The most recent observation that did not fail. */
  function LatestSuccess(outcomes: seq<Outcome>): (success: Option<Outcome>)
    ensures success.Some? ==> success.value.answer.Read?
  {
    if outcomes == [] then None
    else if outcomes[|outcomes| - 1].answer.Read? then Some(outcomes[|outcomes| - 1])
    else LatestSuccess(outcomes[..|outcomes| - 1])
  }

  lemma {:induction false} NoSuccessMeansNone(outcomes: seq<Outcome>)
    ensures LatestSuccess(outcomes).None? <==> forall o :: o in outcomes ==> !o.answer.Read?
  {
    if outcomes != [] {
      NoSuccessMeansNone(outcomes[..|outcomes| - 1]);
      assert outcomes == outcomes[..|outcomes| - 1] + [outcomes[|outcomes| - 1]];
    }
  }

  /** A targets part carries its latest success, is fresh exactly when the last attempt succeeded,
      and is unavailable exactly when none ever did. */
  lemma {:induction false} TargetsCarryTheirLatestSuccess(outcomes: seq<Outcome>)
    requires outcomes != []
    ensures var half, success := Folded(Targets, outcomes).value, LatestSuccess(outcomes);
      && (half.status == Fresh <==> outcomes[|outcomes| - 1].answer.Read?)
      && (half.status == Unavailable <==> forall o :: o in outcomes ==> !o.answer.Read?)
      && half.lastGoodAt == (if success.Some? then Some(success.value.at) else None)
      && half.payload == (if success.Some? then success.value.answer.payload else NOTHING)
      && half.attemptedAt == outcomes[|outcomes| - 1].at
  {
    NoSuccessMeansNone(outcomes);
    if |outcomes| > 1 && !outcomes[|outcomes| - 1].answer.Read? {
      NoSuccessMeansNone(outcomes[..|outcomes| - 1]);
      TargetsCarryTheirLatestSuccess(outcomes[..|outcomes| - 1]);
    }
  }

  /** An Issue or Pull Request part reports what its source last said; once a failure follows, it
      keeps that payload as stale if the source ever had good data, and otherwise has nothing. */
  lemma {:induction false} SourcePartsKeepTheirLastGood(kind: Kind, outcomes: seq<Outcome>)
    requires kind != Targets && outcomes != []
    ensures var half, success := Folded(kind, outcomes).value, LatestSuccess(outcomes);
      if outcomes[|outcomes| - 1].answer.Read? then
        var read := outcomes[|outcomes| - 1].answer;
        && half.status == read.status && half.attemptedAt == read.sourceAt
        && half.lastGoodAt == read.lastGoodAt && half.payload == read.payload
      else if success.Some? && success.value.answer.lastGoodAt.Some? then
        && half.status == Stale && half.attemptedAt == outcomes[|outcomes| - 1].at
        && half.lastGoodAt == success.value.answer.lastGoodAt && half.payload == success.value.answer.payload
      else
        && half.status == Unavailable && half.attemptedAt == outcomes[|outcomes| - 1].at
        && half.lastGoodAt == None && half.payload == NOTHING
  {
    if |outcomes| > 1 && !outcomes[|outcomes| - 1].answer.Read? {
      SourcePartsKeepTheirLastGood(kind, outcomes[..|outcomes| - 1]);
    }
  }

  // -- Composition -------------------------------------------------------------------------------

  /** A configured Project: its identity and the rest of its configuration. */
  datatype Configured = Configured(id: nat, facts: nat)

  datatype Snapshot = Snapshot(
    collectedAt: int,
    issueStatus: Status,
    issueAttemptedAt: int,
    issueLastGoodAt: Option<int>,
    issues: seq<Item>,
    issueExtra: nat,
    pullRequestStatus: Status,
    pullRequestAttemptedAt: int,
    pullRequestLastGoodAt: Option<int>,
    pullRequests: seq<Item>,
    targetStatus: Status,
    targetAttemptedAt: int,
    targetLastGoodAt: Option<int>,
    targets: seq<Item>,
    branches: seq<Item>,
    targetExtra: nat,
    diagnostics: seq<Diagnostic>)

  datatype Project = Project(
    configured: Configured,
    status: Status,
    elapsed: nat,
    snapshot: Option<Snapshot>,
    diagnostics: seq<Diagnostic>)

  function Unique(diagnostics: seq<Diagnostic>): (unique: seq<Diagnostic>)
    ensures forall d :: d in unique <==> d in diagnostics
    ensures forall i, j :: 0 <= i < j < |unique| ==> unique[i] != unique[j]
  {
    if diagnostics == [] then []
    else
      var last := diagnostics[|diagnostics| - 1];
      assert diagnostics == diagnostics[..|diagnostics| - 1] + [last];
      var before := Unique(diagnostics[..|diagnostics| - 1]);
      if last in before then before else before + [last]
  }

  /** `earlier` is somewhere before any `later`. */
  ghost predicate FoundFirst(diagnostics: seq<Diagnostic>, earlier: Diagnostic, later: Diagnostic) {
    exists p :: 0 <= p < |diagnostics| && diagnostics[p] == earlier && later !in diagnostics[..p + 1]
  }

  /** What is kept keeps the order in which each was first met. */
  lemma {:induction false} UniqueKeepsOrder(diagnostics: seq<Diagnostic>, i: nat, j: nat)
    requires i < j < |Unique(diagnostics)|
    ensures FoundFirst(diagnostics, Unique(diagnostics)[i], Unique(diagnostics)[j])
  {
    var n := |diagnostics| - 1;
    var front := diagnostics[..n];
    var unique := Unique(diagnostics);
    if j < |Unique(front)| {
      UniqueKeepsOrder(front, i, j);
      var p :| 0 <= p < n && front[p] == unique[i] && unique[j] !in front[..p + 1];
      assert diagnostics[..p + 1] == front[..p + 1];
    } else {
      assert unique[i] in front && unique[j] !in front;
      var p :| 0 <= p < n && front[p] == unique[i];
      assert diagnostics[..p + 1] == front[..p + 1];
    }
  }

  function SnapshotOf(at: int, issues: Half, pulls: Half, targets: Half): Snapshot {
    Snapshot(
      at,
      issues.status, issues.attemptedAt, issues.lastGoodAt, issues.payload.items, issues.payload.extra,
      pulls.status, pulls.attemptedAt, pulls.lastGoodAt, pulls.payload.items,
      targets.status, targets.attemptedAt, targets.lastGoodAt, targets.payload.items, targets.payload.branches,
      targets.payload.extra,
      issues.diagnostics + pulls.diagnostics + targets.diagnostics)
  }

  function NeverObserved(issues: Half, pulls: Half, targets: Half): bool {
    issues.lastGoodAt.None? && pulls.lastGoodAt.None? && targets.lastGoodAt.None?
  }

  /** Compose a Project from its latest accepted parts, or nothing while one is missing. */
  function Composed(
    project: Configured, issues: Option<Half>, pulls: Option<Half>, targets: Option<Half>, at: int): Option<Project>
  {
    if issues.None? || pulls.None? || targets.None? then None
    else
      var diagnostics := Unique(issues.value.projectDiagnostics + pulls.value.projectDiagnostics +
                                targets.value.projectDiagnostics);
      Some(Project(
        project,
        issues.value.status,
        issues.value.elapsed + pulls.value.elapsed + targets.value.elapsed,
        if diagnostics != [] && NeverObserved(issues.value, pulls.value, targets.value) then None
        else Some(SnapshotOf(at, issues.value, pulls.value, targets.value)),
        diagnostics))
  }

  predicate NeverGood(kind: Kind, outcomes: seq<Outcome>)
    requires outcomes != []
  {
    Folded(kind, outcomes).value.lastGoodAt.None?
  }

  predicate LastHadNoCollector(outcomes: seq<Outcome>)
    requires outcomes != []
  {
    outcomes[|outcomes| - 1].answer.NoCollector?
  }

  lemma ProjectDiagnosticsAreOfCollectors(kind: Kind, outcomes: seq<Outcome>)
    requires outcomes != []
    ensures Folded(kind, outcomes).Some?
    ensures Folded(kind, outcomes).value.projectDiagnostics ==
      if LastHadNoCollector(outcomes) then [outcomes[|outcomes| - 1].answer.diagnostic] else []
  {
  }

  lemma ComposedDiagnostics(project: Configured, issues: Half, pulls: Half, targets: Half, at: int)
    ensures var composed := Composed(project, Some(issues), Some(pulls), Some(targets), at);
      && composed.Some?
      && (composed.value.snapshot.None? <==>
          composed.value.diagnostics != [] && NeverObserved(issues, pulls, targets))
      && (composed.value.diagnostics == [] <==>
          issues.projectDiagnostics == [] && pulls.projectDiagnostics == [] && targets.projectDiagnostics == [])
      && forall diagnostic :: diagnostic in composed.value.diagnostics <==>
        || diagnostic in issues.projectDiagnostics
        || diagnostic in pulls.projectDiagnostics
        || diagnostic in targets.projectDiagnostics
  {
    hide SnapshotOf;
  }

  /** The last attempt had no collector, for this reason. */
  predicate IsWhy(outcomes: seq<Outcome>, diagnostic: Diagnostic)
    requires outcomes != []
  {
    LastHadNoCollector(outcomes) && outcomes[|outcomes| - 1].answer.diagnostic == diagnostic
  }

  /** A composed Project has no snapshot exactly when no collector could be had for some part's last
      attempt and none of its parts was ever good; its own diagnostics are always those saying why no
      collector could be had, and no others. */
  lemma NoSnapshotMeansNeverObserved(
    project: Configured, issues: seq<Outcome>, pulls: seq<Outcome>, targets: seq<Outcome>, at: int)
    requires issues != [] && pulls != [] && targets != []
    ensures
      var composed :=
        Composed(project, Folded(Issues, issues), Folded(PullRequests, pulls), Folded(Targets, targets), at);
      && composed.Some?
      && (composed.value.snapshot.None? <==>
          && (LastHadNoCollector(issues) || LastHadNoCollector(pulls) || LastHadNoCollector(targets))
          && NeverGood(Issues, issues) && NeverGood(PullRequests, pulls) && NeverGood(Targets, targets))
      && (composed.value.snapshot.None? ==> composed.value.diagnostics != [])
      && (forall diagnostic :: diagnostic in composed.value.diagnostics <==>
          IsWhy(issues, diagnostic) || IsWhy(pulls, diagnostic) || IsWhy(targets, diagnostic))
  {
    hide Folded, Composed;
    ProjectDiagnosticsAreOfCollectors(Issues, issues);
    ProjectDiagnosticsAreOfCollectors(PullRequests, pulls);
    ProjectDiagnosticsAreOfCollectors(Targets, targets);
    ComposedDiagnostics(project, Folded(Issues, issues).value, Folded(PullRequests, pulls).value,
                        Folded(Targets, targets).value, at);
  }

  // -- What a composed Project shows of what was accepted ----------------------------------------

  function Last(outcomes: seq<Outcome>): Outcome
    requires outcomes != []
  {
    outcomes[|outcomes| - 1]
  }

  /** When a part was last good, as of its latest success: a targets part when it was observed, the
      others as their source says. */
  function GoodAt(kind: Kind, success: Option<Outcome>): Option<int> {
    match success
    case None => None
    case Some(outcome) =>
      if kind == Targets then Some(outcome.at) else if outcome.answer.Read? then outcome.answer.lastGoodAt else None
  }

  /** Whether a part has something to show, after these outcomes. */
  predicate HasData(kind: Kind, outcomes: seq<Outcome>)
    requires outcomes != []
  {
    Last(outcomes).answer.Read? || GoodAt(kind, LatestSuccess(outcomes)).Some?
  }

  /** What is shown of a part: its last answer, or its latest success as stale if that was ever good,
      or nothing. */
  ghost predicate ShowsPart(
    kind: Kind, outcomes: seq<Outcome>, status: Status, attemptedAt: int, lastGoodAt: Option<int>, payload: Payload)
    requires outcomes != []
  {
    var last, success := Last(outcomes), LatestSuccess(outcomes);
    if last.answer.Read? && kind != Targets then
      && status == last.answer.status && attemptedAt == last.answer.sourceAt
      && lastGoodAt == last.answer.lastGoodAt && payload == last.answer.payload
    else
      && attemptedAt == last.at
      && status == (if last.answer.Read? then Fresh else if HasData(kind, outcomes) then Stale else Unavailable)
      && lastGoodAt == GoodAt(kind, success)
      && payload == (if HasData(kind, outcomes) && success.Some? && success.value.answer.Read?
                     then success.value.answer.payload else NOTHING)
  }

  /** Why a part's last attempt had no collector, if it had none. */
  function Whys(outcomes: seq<Outcome>): seq<Diagnostic>
    requires outcomes != []
  {
    if Last(outcomes).answer.NoCollector? then [Last(outcomes).answer.diagnostic] else []
  }

  /** What a part's last outcome says of itself. */
  function Complaints(outcomes: seq<Outcome>): seq<Diagnostic>
    requires outcomes != []
  {
    match Last(outcomes).answer
    case NoCollector(_) => []
    case Raised(diagnostic) => [diagnostic]
    case Read(_, _, _, diagnostics, _) => diagnostics
  }

  lemma {:induction false} FoldedShowsPart(kind: Kind, outcomes: seq<Outcome>)
    requires outcomes != []
    ensures var half := Folded(kind, outcomes).value;
      && ShowsPart(kind, outcomes, half.status, half.attemptedAt, half.lastGoodAt, half.payload)
      && half.diagnostics == Complaints(outcomes) && half.elapsed == Last(outcomes).elapsed
      && half.lastGoodAt == GoodAt(kind, LatestSuccess(outcomes))
  {
    if kind == Targets {
      TargetsCarryTheirLatestSuccess(outcomes);
      NoSuccessMeansNone(outcomes);
    } else {
      SourcePartsKeepTheirLastGood(kind, outcomes);
    }
  }

  /** A Project made of what its three parts accepted: each part's own fields, the status of the
      Issues, the time of all three, and no snapshot exactly when a collector was missing and no part
      was ever good. */
  ghost predicate ShowsOutcomes(
    shown: Project, issues: seq<Outcome>, pulls: seq<Outcome>, targets: seq<Outcome>, at: int)
    requires issues != [] && pulls != [] && targets != []
  {
    && shown.elapsed == Last(issues).elapsed + Last(pulls).elapsed + Last(targets).elapsed
    && shown.status == (if Last(issues).answer.Read? then Last(issues).answer.status
                        else if HasData(Issues, issues) then Stale else Unavailable)
    && (forall diagnostic :: diagnostic in shown.diagnostics <==>
        IsWhy(issues, diagnostic) || IsWhy(pulls, diagnostic) || IsWhy(targets, diagnostic))
    && (forall i, j :: 0 <= i < j < |shown.diagnostics| ==>
        FoundFirst(Whys(issues) + Whys(pulls) + Whys(targets), shown.diagnostics[i], shown.diagnostics[j]))
    && (shown.snapshot.None? <==>
        && (LastHadNoCollector(issues) || LastHadNoCollector(pulls) || LastHadNoCollector(targets))
        && GoodAt(Issues, LatestSuccess(issues)).None? && GoodAt(PullRequests, LatestSuccess(pulls)).None?
        && GoodAt(Targets, LatestSuccess(targets)).None?)
    && (shown.snapshot.Some? ==> ShowsSnapshot(shown.snapshot.value, issues, pulls, targets, at))
  }

  ghost predicate ShowsSnapshot(
    shown: Snapshot, issues: seq<Outcome>, pulls: seq<Outcome>, targets: seq<Outcome>, at: int)
    requires issues != [] && pulls != [] && targets != []
  {
    && shown.collectedAt == at
    && (exists payload: Payload ::
        && payload.items == shown.issues && payload.extra == shown.issueExtra
        && ShowsPart(Issues, issues, shown.issueStatus, shown.issueAttemptedAt, shown.issueLastGoodAt, payload))
    && (exists payload: Payload ::
        && payload.items == shown.pullRequests
        && ShowsPart(PullRequests, pulls, shown.pullRequestStatus, shown.pullRequestAttemptedAt,
                     shown.pullRequestLastGoodAt, payload))
    && (exists payload: Payload ::
        && payload.items == shown.targets && payload.branches == shown.branches && payload.extra == shown.targetExtra
        && ShowsPart(Targets, targets, shown.targetStatus, shown.targetAttemptedAt, shown.targetLastGoodAt, payload))
    && shown.diagnostics == Complaints(issues) + Complaints(pulls) + Complaints(targets)
  }

  lemma ComposedKeepsOrder(
    project: Configured, issues: seq<Outcome>, pulls: seq<Outcome>, targets: seq<Outcome>, at: int)
    requires issues != [] && pulls != [] && targets != []
    ensures
      var composed :=
        Composed(project, Folded(Issues, issues), Folded(PullRequests, pulls), Folded(Targets, targets), at);
      composed.Some? &&
      var shown := composed.value.diagnostics;
      forall i, j :: 0 <= i < j < |shown| ==>
        FoundFirst(Whys(issues) + Whys(pulls) + Whys(targets), shown[i], shown[j])
  {
    hide Unique, FoundFirst, SnapshotOf;
    ProjectDiagnosticsAreOfCollectors(Issues, issues);
    ProjectDiagnosticsAreOfCollectors(PullRequests, pulls);
    ProjectDiagnosticsAreOfCollectors(Targets, targets);
    hide Folded;
    var whys := Whys(issues) + Whys(pulls) + Whys(targets);
    forall i, j | 0 <= i < j < |Unique(whys)| ensures FoundFirst(whys, Unique(whys)[i], Unique(whys)[j]) {
      UniqueKeepsOrder(whys, i, j);
    }
  }

  lemma ComposedShowsOutcomes(
    project: Configured, issues: seq<Outcome>, pulls: seq<Outcome>, targets: seq<Outcome>, at: int)
    requires issues != [] && pulls != [] && targets != []
    ensures
      var composed :=
        Composed(project, Folded(Issues, issues), Folded(PullRequests, pulls), Folded(Targets, targets), at);
      composed.Some? && composed.value.configured == project && ShowsOutcomes(composed.value, issues, pulls, targets, at)
  {
    hide Folded;
    ComposedKeepsOrder(project, issues, pulls, targets, at);
    hide Unique, FoundFirst;
    FoldedShowsPart(Issues, issues);
    FoldedShowsPart(PullRequests, pulls);
    FoldedShowsPart(Targets, targets);
    NoSnapshotMeansNeverObserved(project, issues, pulls, targets, at);
  }
}
