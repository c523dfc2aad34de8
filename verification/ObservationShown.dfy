/** What the store shows after a publish that goes through, told by what was accepted alone. */
module ObservationShown {
  import opened Wrappers
  import opened ObservationParts
  import opened ObservationStore
  import opened ObservationCoordinator
  import opened ObservationRuns

  lemma ConfiguredAre(projects: seq<Configured>, id: nat)
    ensures id in ById(projects) ==> ById(projects)[id].id == id && ById(projects)[id] in projects
  {
    ByIdIsOfTheProjects(projects, id);
    if projects != [] {
      var n := |projects| - 1;
      assert projects == projects[..n] + [projects[n]];
      ConfiguredAre(projects[..n], id);
    }
  }

  /** The store shows this Project as configured, and of each of its parts exactly what that part's
      accepted outcomes leave. */
  ghost predicate ShowsAccepted(s: State, store: StoreState, project: nat)
    requires AllAccepted(s, project)
  {
    var held := Held(store, project);
    && held.Some? && held.value.configured.id == project && held.value.configured in s.d.projects
    && project in s.stamps
    && ShowsOutcomes(held.value, Accepted(s, Issues, project), Accepted(s, PullRequests, project),
                     Accepted(s, Targets, project), s.stamps[project])
  }

  lemma LatestIsShown(s: State, store: StoreState, project: nat)
    requires AllAccepted(s, project) && HoldsTheLatest(s, store, project)
    ensures ShowsAccepted(s, store, project)
  {
    hide Composed, Folded, Valid, ById, IndexesOf, Complete, ShowsOutcomes;
    ConfiguredAre(s.d.projects, project);
    ComposedShowsOutcomes(ById(s.d.projects)[project], Accepted(s, Issues, project), Accepted(s, PullRequests, project),
                          Accepted(s, Targets, project), s.stamps[project]);
  }

  /** In every run, right after a publish that goes through, the store shows a Project whose parts
      have all been accepted as their outcomes leave it. */
  lemma PublishedShowsAccepted(
    projects: seq<Configured>, steps: seq<Step>, at: int, override: Option<nat>, project: nat)
    ensures var s := Run(projects, steps);
      Succeeds(s, at, override) && AllAccepted(s, project) ==>
        ShowsAccepted(s, Apply(s, Publish(at, override)).store, project)
  {
    hide Run, Apply, Succeeds, Valid, ShowsAccepted, HoldsTheLatest;
    PublishedIsTheLatest(projects, steps, at, override, project);
    var s := Run(projects, steps);
    if Succeeds(s, at, override) && AllAccepted(s, project) {
      LatestIsShown(s, Apply(s, Publish(at, override)).store, project);
    }
  }

  // -- Agent Runs --------------------------------------------------------------------------------

  datatype Observed = Observed(runs: seq<Item>, issueRuns: map<nat, seq<nat>>, diagnostics: seq<Diagnostic>)

  const NONE := Observed([], map[], [])

  /** The step that ends an observation of Agent Runs under a ticket that is still current. */
  predicate EndsCurrent(s: State, step: Step) {
    && step.FinishAgentRuns? && step.id in s.observers && s.observers[step.id].phase.Binding?
    && IsCurrent(s.d, s.observers[step.id].ticket)
  }

  /** The Agent Runs accepted last, or none. */
  ghost function LastObserved(projects: seq<Configured>, steps: seq<Step>): Observed {
    if steps == [] then NONE
    else
      var front, step := steps[..|steps| - 1], steps[|steps| - 1];
      if EndsCurrent(Run(projects, front), step) then Observed(step.runs, step.issueRuns, step.diagnostics)
      else LastObserved(projects, front)
  }

  function Shown(store: StoreState): Observed { Observed(store.agentRuns, store.issueRuns, store.diagnostics) }

  /** What the coordinator has of Agent Runs is what was accepted last, and unless that is still
      pending the store shows it. */
  ghost predicate HasObserved(s: State, last: Observed) {
    match s.d.agent
    case None => last == NONE && Shown(s.store) == NONE && !s.d.agentPending
    case Some(agent) =>
      && last == Observed(agent.runs, agent.issueRuns, agent.diagnostics)
      && (!s.d.agentPending ==> Shown(s.store) == last)
  }

  lemma PublishShowsObserved(s: State, at: int, override: Option<nat>, last: Observed)
    requires Inv(s) && HasObserved(s, last)
    ensures HasObserved(Apply(s, Publish(at, override)), last)
    ensures Succeeds(s, at, override) ==> Shown(Apply(s, Publish(at, override)).store) == last
  {
    hide Valid, KeyInv, ObserverInv, ProjectInv, SeenInv, PublishedFirst, DistinctIds, IndexesOf;
    ComposedUnderTheirOwnIds(s);
    PublishedKeepsAgentRuns(s.d, s.store, |s.d.projects|, at, override);
  }

  lemma FinishedKeepsAgent(s: State, ticket: Ticket, outcome: Outcome, half: Half, composedAt: int)
    requires ticket.key.PartKey? && ticket.key.project in ById(s.d.projects)
    ensures var t := Finished(s, ticket, outcome, half, composedAt);
      t.d.agent == s.d.agent && t.d.agentPending == s.d.agentPending && t.store == s.store
  {
    hide ById, ComposedNow, Finished, AcceptedPart;
    if IsCurrent(s.d, ticket) {
      FinishedShape(s, ticket, outcome, half, composedAt);
    } else {
      SupersededChangesNothing(s, ticket, outcome, half, composedAt);
    }
  }

  lemma FinishingKeepsAgent(s: State, id: nat, at: int, answer: Answer, elapsed: nat, composedAt: int)
    requires id in s.observers
    ensures var t := Finishing(s, id, at, answer, elapsed, composedAt);
      t.d.agent == s.d.agent && t.d.agentPending == s.d.agentPending && t.store == s.store
  {
    hide ById, Finished, ObservationParts.Observed;
    var ticket, phase := s.observers[id].ticket, s.observers[id].phase;
    if phase.Observing? && ticket.key.PartKey? && ticket.key.project in ById(s.d.projects) {
      FinishedKeepsAgent(ReturnedNow(s, id, IsCurrent(s.d, ticket)), ticket,
                         Outcome(ticket.generation, at, answer, elapsed),
                         ObservationParts.Observed(ticket.key.kind, phase.previous, at, answer, elapsed), composedAt);
    }
  }

  lemma FinishingObserves(s: State, step: Step, last: Observed)
    requires Inv(s) && HasObserved(s, last) && step.FinishAgentRuns? && step.id in s.observers
    ensures HasObserved(Apply(s, step),
                        if EndsCurrent(s, step) then Observed(step.runs, step.issueRuns, step.diagnostics) else last)
  {
    hide Valid, KeyInv, ObserverInv, ProjectInv, SeenInv;
    hide PublishedState, Finishing, Acquired, Checking, Requested, Looked;
  }

  /** Any other step leaves what there is of Agent Runs alone. */
  lemma OtherStepKeepsAgent(s: State, step: Step)
    requires Inv(s) && !step.FinishAgentRuns? && !step.Publish? && !step.Finish?
    ensures var t := Apply(s, step);
      t.d.agent == s.d.agent && t.d.agentPending == s.d.agentPending && t.store == s.store
  {
    hide Valid, KeyInv, ObserverInv, ProjectInv, SeenInv;
    hide PublishedState, Finishing, FinishingAgentRuns, Looked, Requested;
    if step.Request? { RequestedKeeps(s.d, step.keys, AgentRunsKey); }
  }

  lemma StepObserves(s: State, step: Step, last: Observed)
    requires Inv(s) && HasObserved(s, last)
    ensures HasObserved(Apply(s, step),
                        if EndsCurrent(s, step) then Observed(step.runs, step.issueRuns, step.diagnostics) else last)
  {
    hide Inv, PublishedState, Finishing, FinishingAgentRuns, Looked, Acquired, Checking, ReturnedNow;
    if step.Publish? {
      PublishShowsObserved(s, step.at, step.override, last);
    } else if step.Finish? {
      if step.id in s.observers {
        FinishingKeepsAgent(s, step.id, step.at, step.answer, step.elapsed, step.composedAt);
      }
    } else if step.FinishAgentRuns? {
      if step.id in s.observers { FinishingObserves(s, step, last); }
    } else {
      OtherStepKeepsAgent(s, step);
    }
  }

  lemma {:induction false} EveryRunHasObserved(projects: seq<Configured>, steps: seq<Step>)
    ensures HasObserved(Run(projects, steps), LastObserved(projects, steps))
  {
    hide *;
    if steps == [] {
      NoneObserved(projects);
    } else {
      EveryRunHasObserved(projects, steps[..|steps| - 1]);
      EveryRunKeeps(projects, steps[..|steps| - 1]);
      StepObserves(Run(projects, steps[..|steps| - 1]), steps[|steps| - 1],
                   LastObserved(projects, steps[..|steps| - 1]));
      RunGoesOn(projects, steps);
    }
  }

  lemma NoneObserved(projects: seq<Configured>)
    ensures LastObserved(projects, []) == NONE && HasObserved(Run(projects, []), NONE)
  {
    hide Valid;
  }

  lemma RunGoesOn(projects: seq<Configured>, steps: seq<Step>)
    requires steps != []
    ensures var front, step := steps[..|steps| - 1], steps[|steps| - 1];
      && Run(projects, steps) == Apply(Run(projects, front), step)
      && LastObserved(projects, steps) ==
         if EndsCurrent(Run(projects, front), step) then Observed(step.runs, step.issueRuns, step.diagnostics)
         else LastObserved(projects, front)
  {
    hide Valid, Apply;
  }

  /** In every run, right after a publish that goes through, the store shows the Agent Runs accepted
      last, with their bindings and diagnostics, or none if none were. */
  lemma PublishedShowsAgentRuns(projects: seq<Configured>, steps: seq<Step>, at: int, override: Option<nat>)
    ensures var s := Run(projects, steps);
      Succeeds(s, at, override) ==> Shown(Apply(s, Publish(at, override)).store) == LastObserved(projects, steps)
  {
    hide Run, Inv, Apply, Succeeds, HasObserved, Shown, LastObserved;
    EveryRunKeeps(projects, steps);
    EveryRunHasObserved(projects, steps);
    PublishShowsObserved(Run(projects, steps), at, override, LastObserved(projects, steps));
  }

  // -- The store's own stamps --------------------------------------------------------------------

  /** The store as it was, but for stamps: `made` commits later, at one time. */
  ghost predicate Stamped(before: StoreState, after: StoreState, made: nat, at: int, override: Option<nat>) {
    && after.revision == before.revision + made
    && (made == 0 ==> after.collectedAt == before.collectedAt && after.elapsed == before.elapsed)
    && (made > 0 ==> after.collectedAt == at && (override.Some? ==> after.elapsed == override.value))
  }

  lemma {:induction false} FirstStamped(d: Data, s: StoreState, n: nat, at: int, override: Option<nat>)
    requires n <= |d.projects| && Valid(s)
    ensures var (after, ok) := PublishedFirst(d, s, n, at, override);
      Stamped(s, after, |ReportsFirst(d, s, n, at, override)|, at, override)
  {
    hide Valid, NoDuplicates, IndexesOf, Put, ChangeBetween;
    if n > 0 {
      FirstStamped(d, s, n - 1, at, override);
    }
  }

  /** Each change a publish returns is one commit: the store's revision grows by their number, and any
      leaves it stamped with the time of the publish. */
  lemma EachChangeIsACommit(d: Data, s: StoreState, at: int, override: Option<nat>)
    requires Valid(s) && Published(d, s, at, override).2
    ensures Stamped(s, Published(d, s, at, override).1, |Reports(d, s, at, override)|, at, override)
  {
    hide Valid, PublishedFirst, ReportsFirst, DistinctIds;
    FirstStamped(d, s, |d.projects|, at, override);
  }

  // -- The order of a fresh store ----------------------------------------------------------------

  /** The pending ones of the first `n` configured Projects, in configured order. */
  function PendingIds(d: Data, n: nat): seq<nat>
    requires n <= |d.projects|
  {
    if n == 0 then []
    else PendingIds(d, n - 1) + if IsPending(d, d.projects[n - 1].id) then [d.projects[n - 1].id] else []
  }

  ghost predicate ConfiguredOnce(projects: seq<Configured>) {
    forall i, j :: 0 <= i < j < |projects| ==> projects[i].id != projects[j].id
  }

  lemma {:induction false} PendingAreConfigured(d: Data, n: nat, id: nat)
    requires n <= |d.projects| && id in PendingIds(d, n)
    ensures exists k :: 0 <= k < n && d.projects[k].id == id
  {
    if id in PendingIds(d, n - 1) {
      PendingAreConfigured(d, n - 1, id);
    }
  }

  lemma {:induction false} FirstInOrder(d: Data, s: StoreState, n: nat, at: int, override: Option<nat>)
    requires n <= |d.projects| && Valid(s) && UnderOwnIds(d) && ConfiguredOnce(d.projects)
    requires s.projects.order == [] && PublishedFirst(d, s, n, at, override).1
    ensures PublishedFirst(d, s, n, at, override).0.projects.order == PendingIds(d, n)
  {
    hide NoDuplicates, IndexesOf, DistinctIds, Publishable;
    if n > 0 {
      FirstInOrder(d, s, n - 1, at, override);
      var before, id := PublishedFirst(d, s, n - 1, at, override).0, d.projects[n - 1].id;
      if IsPending(d, id) && id in before.projects.byId {
        PendingAreConfigured(d, n - 1, id);
      }
    }
  }

  /** However the observations completed, a publish to a fresh store lists its Projects in the order
      they are configured. */
  lemma FreshStoreIsInConfiguredOrder(d: Data, s: StoreState, at: int, override: Option<nat>)
    requires Valid(s) && UnderOwnIds(d) && ConfiguredOnce(d.projects)
    requires s.projects.order == [] && Published(d, s, at, override).2
    ensures Published(d, s, at, override).1.projects.order == PendingIds(d, |d.projects|)
  {
    hide Valid, UnderOwnIds, ConfiguredOnce, PublishedFirst, PendingIds, DistinctIds;
    FirstInOrder(d, s, |d.projects|, at, override);
  }
}
