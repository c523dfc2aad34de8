/** The store that holds what was published last, with indexes rebuilt whole on every commit. */
module ObservationStore {
  import opened Wrappers
  import opened ObservationParts

  /** A dictionary by Project identity, in the order its keys were first added. */
  datatype Projects = Projects(order: seq<nat>, byId: map<nat, Project>)

  datatype Part = IssuePart | PullRequestPart | TargetPart | BranchPart

  type Index = map<(nat, nat), Item>

  datatype Indexes = Indexes(issues: Index, pullRequests: Index, targets: Index, branches: Index)

  datatype StoreState = StoreState(
    revision: nat,
    collectedAt: int,
    elapsed: nat,
    projects: Projects,
    indexes: Indexes,
    agentRuns: seq<Item>,
    issueRuns: map<nat, seq<nat>>,
    diagnostics: seq<Diagnostic>)

  datatype Duplicate = Duplicate(project: Option<nat>, item: nat)

  function Put(projects: Projects, project: Project): Projects {
    var id := project.configured.id;
    Projects(if id in projects.byId then projects.order else projects.order + [id], projects.byId[id := project])
  }

  function ItemsOf(project: Project, part: Part): seq<Item> {
    match project.snapshot
    case None => []
    case Some(snapshot) =>
      match part
      case IssuePart => snapshot.issues
      case PullRequestPart => snapshot.pullRequests
      case TargetPart => snapshot.targets
      case BranchPart => snapshot.branches
  }

  ghost predicate DistinctIds(items: seq<Item>) {
    forall i, j :: 0 <= i < j < |items| ==> items[i].id != items[j].id
  }

  ghost predicate DuplicateFree(projects: Projects, part: Part) {
    forall id :: id in projects.byId ==> DistinctIds(ItemsOf(projects.byId[id], part))
  }

  function ItemIndex(id: nat, items: seq<Item>): Index {
    if items == [] then map[]
    else
      var last := items[|items| - 1];
      ItemIndex(id, items[..|items| - 1])[(id, last.id) := last]
  }

  function IndexOfFirst(projects: Projects, part: Part, n: nat): Index
    requires n <= |projects.order| && Complete(projects)
  {
    if n == 0 then map[]
    else
      var id := projects.order[n - 1];
      IndexOfFirst(projects, part, n - 1) + ItemIndex(id, ItemsOf(projects.byId[id], part))
  }

  predicate Complete(projects: Projects) { forall id :: id in projects.order ==> id in projects.byId }

  /** Every entry of one part, by its Project and its own identity. */
  function IndexOf(projects: Projects, part: Part): Index
    requires Complete(projects)
  {
    IndexOfFirst(projects, part, |projects.order|)
  }

  ghost predicate NoDuplicates(projects: Projects) {
    && DuplicateFree(projects, IssuePart) && DuplicateFree(projects, PullRequestPart)
    && DuplicateFree(projects, TargetPart) && DuplicateFree(projects, BranchPart)
  }

  function IndexesOf(projects: Projects): Indexes
    requires Complete(projects)
  {
    Indexes(IndexOf(projects, IssuePart), IndexOf(projects, PullRequestPart),
            IndexOf(projects, TargetPart), IndexOf(projects, BranchPart))
  }

  ghost predicate Ordered(projects: Projects) {
    && (forall i, j :: 0 <= i < j < |projects.order| ==> projects.order[i] != projects.order[j])
    && (forall id :: id in projects.order <==> id in projects.byId)
    && (forall id :: id in projects.byId ==> projects.byId[id].configured.id == id)
  }

  /** Every entry can be found, and nothing else is: the indexes are a full rebuild. */
  ghost predicate Valid(s: StoreState) {
    && Ordered(s.projects)
    && NoDuplicates(s.projects)
    && s.indexes == IndexesOf(s.projects)
    && DistinctIds(s.agentRuns)
  }

  ghost function ReplacedProject(s: StoreState, project: Project, at: int, elapsed: nat): StoreState
    requires Valid(s)
  {
    var projects := Put(s.projects, project);
    s.(revision := s.revision + 1, collectedAt := at, elapsed := elapsed,
       projects := projects, indexes := IndexesOf(projects))
  }

  function ReplacedAgentRuns(
    s: StoreState, runs: seq<Item>, issueRuns: map<nat, seq<nat>>, diagnostics: Option<seq<Diagnostic>>,
    at: int, elapsed: nat): StoreState
  {
    s.(revision := s.revision + 1, collectedAt := at, elapsed := elapsed,
       agentRuns := runs, issueRuns := issueRuns, diagnostics := diagnostics.GetOr(s.diagnostics))
  }

  const EMPTY_STORE :=
    StoreState(0, 0, 0, Projects([], map[]), Indexes(map[], map[], map[], map[]), [], map[], [])

  // -- What a publish reports --------------------------------------------------------------------

  /** The Project facts that observing and binding Agent Runs consumes. */
  datatype Projection =
    | Absent
    | Whole(project: Project)
    | Facts(configured: Configured, status: Status, issueStatus: Status, issues: seq<Item>, targets: seq<Item>)

  function ProjectionOf(projects: Projects, id: nat): Projection {
    if id !in projects.byId then Absent
    else
      var project := projects.byId[id];
      match project.snapshot
      case None => Whole(project)
      case Some(snapshot) =>
        Facts(project.configured, project.status, snapshot.issueStatus, snapshot.issues, snapshot.targets)
  }

  function ChangeBetween(before: Projects, after: Projects): set<nat> {
    set id | id in before.byId.Keys + after.byId.Keys && ProjectionOf(before, id) != ProjectionOf(after, id)
  }

  /** Replacing a Project asks for Agent Runs again exactly when what their binding reads of that
      Project changed; no other Project is ever named. */
  lemma ReplacingReportsOnlyItsOwnChange(projects: Projects, project: Project)
    ensures var id := project.configured.id;
      ChangeBetween(projects, Put(projects, project)) ==
        if ProjectionOf(projects, id) == ProjectionOf(Put(projects, project), id) then {} else {id}
  {
  }

  // -- What each commit keeps --------------------------------------------------------------------

  lemma PutKeepsOrder(projects: Projects, project: Project)
    requires Ordered(projects)
    ensures Ordered(Put(projects, project))
  {
  }

  /** In a valid store only the new composition's own entries can repeat an identity. */
  lemma OnlyItsOwnDuplicatesRefuse(projects: Projects, project: Project)
    requires NoDuplicates(projects)
    ensures NoDuplicates(Put(projects, project)) <==> forall part: Part :: DistinctIds(ItemsOf(project, part))
  {
    var after := Put(projects, project);
    assert after.byId[project.configured.id] == project;
    forall part: Part | DuplicateFree(projects, part)
      ensures DuplicateFree(after, part) <==> DistinctIds(ItemsOf(project, part))
    {
    }
  }

  lemma ReplacedProjectIsValid(s: StoreState, project: Project, at: int, elapsed: nat)
    requires Valid(s) && NoDuplicates(Put(s.projects, project))
    ensures Valid(ReplacedProject(s, project, at, elapsed))
  {
    PutKeepsOrder(s.projects, project);
  }

  // -- Runs of commits ---------------------------------------------------------------------------

  datatype Commit =
    | ProjectCommit(project: Project, at: int, elapsed: nat)
    | AgentRunsCommit(
        runs: seq<Item>, issueRuns: map<nat, seq<nat>>, diagnostics: Option<seq<Diagnostic>>, at: int, elapsed: nat)

  /** The store after one commit; one that is refused leaves it as it is. */
  ghost function Committed(s: StoreState, commit: Commit): (t: StoreState)
    requires Valid(s)
    ensures Valid(t)
  {
    match commit
    case ProjectCommit(project, at, elapsed) =>
      if !NoDuplicates(Put(s.projects, project)) then s
      else
        ReplacedProjectIsValid(s, project, at, elapsed);
        ReplacedProject(s, project, at, elapsed)
    case AgentRunsCommit(runs, issueRuns, diagnostics, at, elapsed) =>
      if !DistinctIds(runs) then s else ReplacedAgentRuns(s, runs, issueRuns, diagnostics, at, elapsed)
  }

  ghost function CommittedAll(s: StoreState, commits: seq<Commit>): (t: StoreState)
    requires Valid(s)
    ensures Valid(t)
  {
    hide Valid;
    if commits == [] then s else Committed(CommittedAll(s, commits[..|commits| - 1]), commits[|commits| - 1])
  }

  /** Every Project some commit of a run reported. */
  ghost function ReportedBy(s: StoreState, commits: seq<Commit>): set<nat>
    requires Valid(s)
  {
    hide Valid;
    if commits == [] then {}
    else
      var before := CommittedAll(s, commits[..|commits| - 1]);
      ReportedBy(s, commits[..|commits| - 1]) +
      ChangeBetween(before.projects, Committed(before, commits[|commits| - 1]).projects)
  }

  /** However many commits a store goes through, a Project none of them reported still shows binding
      the same facts; and those reported were replaced by one of them. */
  lemma {:induction false} UnreportedFactsAreUnchanged(s: StoreState, commits: seq<Commit>, id: nat)
    requires Valid(s)
    ensures id !in ReportedBy(s, commits) ==>
      ProjectionOf(s.projects, id) == ProjectionOf(CommittedAll(s, commits).projects, id)
    ensures id in ReportedBy(s, commits) ==>
      exists commit :: commit in commits && commit.ProjectCommit? && commit.project.configured.id == id
  {
    hide Valid, NoDuplicates, DistinctIds, IndexesOf, ProjectionOf;
    if commits != [] {
      var n := |commits| - 1;
      UnreportedFactsAreUnchanged(s, commits[..n], id);
      var before := CommittedAll(s, commits[..n]);
      if commits[n].ProjectCommit? {
        ReplacingReportsOnlyItsOwnChange(before.projects, commits[n].project);
      }
      assert commits[n] in commits && forall commit :: commit in commits[..n] ==> commit in commits;
      ReportedIfChanged(before.projects, Committed(before, commits[n]).projects, id);
    }
  }

  lemma ReportedIfChanged(before: Projects, after: Projects, id: nat)
    ensures id in ChangeBetween(before, after) <==> ProjectionOf(before, id) != ProjectionOf(after, id)
  {
  }

  lemma {:induction false} ItemIndexFinds(id: nat, items: seq<Item>, key: (nat, nat))
    ensures key in ItemIndex(id, items) <==> key.0 == id && exists i :: 0 <= i < |items| && items[i].id == key.1
    ensures key in ItemIndex(id, items) ==> ItemIndex(id, items)[key] in items && ItemIndex(id, items)[key].id == key.1
  {
    if items != [] {
      var n := |items| - 1;
      ItemIndexFinds(id, items[..n], key);
      if key in ItemIndex(id, items) && key != (id, items[n].id) {
        assert ItemIndex(id, items[..n])[key] in items[..n];
      }
    }
  }

  lemma {:induction false} FirstIndexFinds(projects: Projects, part: Part, n: nat, key: (nat, nat))
    requires Complete(projects) && n <= |projects.order|
    ensures key in IndexOfFirst(projects, part, n) <==>
      key.0 in projects.order[..n] && key in ItemIndex(key.0, ItemsOf(projects.byId[key.0], part))
    ensures key in IndexOfFirst(projects, part, n) ==>
      IndexOfFirst(projects, part, n)[key] == ItemIndex(key.0, ItemsOf(projects.byId[key.0], part))[key]
  {
    hide ItemsOf, ItemIndex;
    if n > 0 {
      FirstIndexFinds(projects, part, n - 1, key);
      var id := projects.order[n - 1];
      ItemIndexFinds(id, ItemsOf(projects.byId[id], part), key);
      assert projects.order[..n] == projects.order[..n - 1] + [id];
    }
  }

  /** Looking an entry up finds it, and finds nothing that no Project holds. */
  lemma LookupFinds(projects: Projects, part: Part, id: nat, item: Item)
    requires Ordered(projects) && DuplicateFree(projects, part)
    ensures var index := IndexOf(projects, part);
      (id, item.id) in index && index[(id, item.id)] == item <==>
        id in projects.byId && item in ItemsOf(projects.byId[id], part)
  {
    assert projects.order[..|projects.order|] == projects.order;
    FirstIndexFinds(projects, part, |projects.order|, (id, item.id));
    if id in projects.byId {
      ItemIndexFinds(id, ItemsOf(projects.byId[id], part), (id, item.id));
      assert DistinctIds(ItemsOf(projects.byId[id], part));
    }
  }

  /** Some snapshot of the Project lists this entry. */
  predicate Lists(projects: Projects, id: nat, items: Snapshot -> seq<Item>, item: Item) {
    id in projects.byId && projects.byId[id].snapshot.Some? && item in items(projects.byId[id].snapshot.value)
  }

  /** Each of the four indexes finds exactly the entries of its own kind. */
  lemma IndexesFindTheirOwn(s: StoreState, id: nat, item: Item)
    requires Valid(s)
    ensures var found := (index: Index) => (id, item.id) in index && index[(id, item.id)] == item;
      && (found(s.indexes.issues) <==> Lists(s.projects, id, (snapshot: Snapshot) => snapshot.issues, item))
      && (found(s.indexes.pullRequests) <==>
          Lists(s.projects, id, (snapshot: Snapshot) => snapshot.pullRequests, item))
      && (found(s.indexes.targets) <==> Lists(s.projects, id, (snapshot: Snapshot) => snapshot.targets, item))
      && (found(s.indexes.branches) <==> Lists(s.projects, id, (snapshot: Snapshot) => snapshot.branches, item))
  {
    hide DuplicateFree, IndexOf;
    LookupFinds(s.projects, IssuePart, id, item);
    LookupFinds(s.projects, PullRequestPart, id, item);
    LookupFinds(s.projects, TargetPart, id, item);
    LookupFinds(s.projects, BranchPart, id, item);
  }

  // -- The index builders ------------------------------------------------------------------------

  /** Add one Project's entries to an index, refusing an identity it holds twice. */
  method IndexItems(before: Index, id: nat, items: seq<Item>) returns (built: Result<Index, Duplicate>)
    requires forall key :: key in before ==> key.0 != id
    ensures built.Success? <==> DistinctIds(items)
    ensures built.Success? ==> built.value == before + ItemIndex(id, items)
  {
    var indexed := before;
    for i := 0 to |items|
      invariant DistinctIds(items[..i])
      invariant indexed == before + ItemIndex(id, items[..i])
    {
      var key := (id, items[i].id);
      ItemIndexFinds(id, items[..i], key);
      if key in indexed {
        return Failure(Duplicate(Some(id), items[i].id));
      }
      indexed := indexed[key := items[i]];
      assert items[..i + 1][..i] == items[..i];
    }
    assert items[..|items|] == items;
    built := Success(indexed);
  }

  lemma NextIsNotIndexed(projects: Projects, part: Part, n: nat)
    requires Ordered(projects) && n < |projects.order|
    ensures forall key :: key in IndexOfFirst(projects, part, n) ==> key.0 != projects.order[n]
  {
    hide ItemIndex, ItemsOf;
    forall key | key in IndexOfFirst(projects, part, n) ensures key.0 != projects.order[n] {
      FirstIndexFinds(projects, part, n, key);
    }
  }

  /** Build one index, refusing a Project that holds one identity twice. */
  method BuildIndex(projects: Projects, part: Part) returns (built: Result<Index, Duplicate>)
    requires Ordered(projects)
    ensures built.Success? <==> DuplicateFree(projects, part)
    ensures built.Success? ==> built.value == IndexOf(projects, part)
  {
    hide DistinctIds, ItemIndex, ItemsOf;
    var indexed: Index := map[];
    for n := 0 to |projects.order|
      invariant indexed == IndexOfFirst(projects, part, n)
      invariant forall k :: 0 <= k < n ==> DistinctIds(ItemsOf(projects.byId[projects.order[k]], part))
    {
      var id := projects.order[n];
      NextIsNotIndexed(projects, part, n);
      var added := IndexItems(indexed, id, ItemsOf(projects.byId[id], part));
      if added.Failure? {
        return Failure(added.error);
      }
      indexed := added.value;
    }
    built := Success(indexed);
  }

  /** Refuse Agent Runs that repeat an identity. */
  method AgentRunsById(runs: seq<Item>) returns (indexed: Result<map<nat, Item>, Duplicate>)
    ensures indexed.Success? <==> DistinctIds(runs)
    ensures indexed.Success? ==> forall run :: run in runs ==> run.id in indexed.value && indexed.value[run.id] == run
    ensures indexed.Success? ==> forall id :: id in indexed.value ==> indexed.value[id] in runs
  {
    var byId: map<nat, Item> := map[];
    for i := 0 to |runs|
      invariant DistinctIds(runs[..i])
      invariant forall j :: 0 <= j < i ==> runs[j].id in byId && byId[runs[j].id] == runs[j]
      invariant forall id :: id in byId ==> byId[id] in runs[..i] && byId[id].id == id
    {
      if runs[i].id in byId {
        return Failure(Duplicate(None, runs[i].id));
      }
      byId := byId[runs[i].id := runs[i]];
      assert runs[..i + 1] == runs[..i] + [runs[i]];
    }
    assert runs[..|runs|] == runs;
    indexed := Success(byId);
  }

  class WorkspaceObservationStore {
    var state: StoreState

    constructor ()
      ensures state == EMPTY_STORE && Valid(state)
    {
      state := EMPTY_STORE;
    }

    /** Replace one Project with its latest composition, all at once or not at all. */
    method ReplaceProject(project: Project, at: int, elapsed: nat) returns (change: Result<set<nat>, Duplicate>)
      requires Valid(state)
      modifies this
      ensures Valid(state)
      ensures change.Success? <==> NoDuplicates(Put(old(state).projects, project))
      ensures change.Success? ==> state == ReplacedProject(old(state), project, at, elapsed)
      ensures change.Success? ==> change.value == ChangeBetween(old(state).projects, state.projects)
      ensures change.Failure? ==> state == old(state)
      ensures state == Committed(old(state), ProjectCommit(project, at, elapsed))
    {
      var before := state;
      var id := project.configured.id;
      var projects := Put(before.projects, project);
      PutKeepsOrder(before.projects, project);
      var issues := BuildIndex(projects, IssuePart);
      if issues.Failure? { return Failure(issues.error); }
      var pullRequests := BuildIndex(projects, PullRequestPart);
      if pullRequests.Failure? { return Failure(pullRequests.error); }
      var targets := BuildIndex(projects, TargetPart);
      if targets.Failure? { return Failure(targets.error); }
      var branches := BuildIndex(projects, BranchPart);
      if branches.Failure? { return Failure(branches.error); }
      state := before.(
        revision := before.revision + 1, collectedAt := at, elapsed := elapsed, projects := projects,
        indexes := Indexes(issues.value, pullRequests.value, targets.value, branches.value));
      change := Success(ChangeBetween(before.projects, projects));
    }

    /** Replace the Agent Runs and their accepted Issue bindings. */
    method ReplaceAgentRuns(
      runs: seq<Item>, issueRuns: map<nat, seq<nat>>, diagnostics: Option<seq<Diagnostic>>, at: int, elapsed: nat)
      returns (change: Result<set<nat>, Duplicate>)
      requires Valid(state)
      modifies this
      ensures Valid(state)
      ensures change.Success? <==> DistinctIds(runs)
      ensures change.Success? ==> state == ReplacedAgentRuns(old(state), runs, issueRuns, diagnostics, at, elapsed)
      ensures change.Success? ==> change.value == {}
      ensures change.Failure? ==> state == old(state)
      ensures state == Committed(old(state), AgentRunsCommit(runs, issueRuns, diagnostics, at, elapsed))
    {
      var indexed := AgentRunsById(runs);
      if indexed.Failure? { return Failure(indexed.error); }
      state := ReplacedAgentRuns(state, runs, issueRuns, diagnostics, at, elapsed);
      change := Success({});
    }
  }
}
