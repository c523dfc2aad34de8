/** What the changes a publish returns say, and leave unsaid, over every run. */
module ObservationReports {
  import opened Wrappers
  import opened ObservationParts
  import opened ObservationStore
  import opened ObservationCoordinator
  import opened ObservationRuns

  /** The facts that binding reads of a Project differ: its configuration, its status, and its Issues
      and targets with the status of the Issues; or, with no snapshot on either side, anything of it. */
  ghost predicate Differ(before: Option<Project>, after: Option<Project>) {
    if before.None? || after.None? then before != after
    else
      var was, now := before.value, after.value;
      if was.snapshot.None? || now.snapshot.None? then was != now
      else
        || was.configured != now.configured || was.status != now.status
        || was.snapshot.value.issueStatus != now.snapshot.value.issueStatus
        || was.snapshot.value.issues != now.snapshot.value.issues
        || was.snapshot.value.targets != now.snapshot.value.targets
  }

  ghost predicate FactsChange(s: StoreState, t: StoreState, project: nat) {
    Differ(Held(s, project), Held(t, project))
  }

  lemma FactsAreProjected(s: Projects, t: Projects, project: nat)
    ensures var before := if project in s.byId then Some(s.byId[project]) else None;
      var after := if project in t.byId then Some(t.byId[project]) else None;
      Differ(before, after) <==> ProjectionOf(s, project) != ProjectionOf(t, project)
  {
  }

  /** In every run, a publish that goes through names exactly the Projects whose binding facts it
      changes. */
  lemma PublishNamesWhatChanges(projects: seq<Configured>, steps: seq<Step>, at: int, override: Option<nat>, project: nat)
    ensures var s := Run(projects, steps);
      Succeeds(s, at, override) ==>
        (Names(Reports(s.d, s.store, at, override), project) <==>
         FactsChange(s.store, Apply(s, Publish(at, override)).store, project))
  {
    var s := Run(projects, steps);
    EveryRunKeeps(projects, steps);
    hide Run, Valid, KeyInv, ObserverInv, ProjectInv, Names, Reports, Published, ProjectionOf;
    ComposedUnderTheirOwnIds(s);
    if Succeeds(s, at, override) {
      ReportsAreExact(s.d, s.store, at, override, project);
      FactsAreProjected(s.store.projects, Apply(s, Publish(at, override)).store.projects, project);
    }
    hide Differ;
  }

  /** In every run, a publish that is refused, and so names none, changes the binding facts of exactly
      the pending Projects configured before the first refused whose composition differs in one from
      what the store shows; the Agent Runs stay. */
  lemma RefusedPublishChanges(projects: seq<Configured>, steps: seq<Step>, at: int, override: Option<nat>, project: nat)
    ensures var s := Run(projects, steps);
      var after := Apply(s, Publish(at, override)).store;
      !Succeeds(s, at, override) ==>
        && (FactsChange(s.store, after, project) <==>
            GoesThrough(s.d, |s.d.projects|, project) &&
            Differ(Held(s.store, project), Some(s.d.composed[project])))
        && after.agentRuns == s.store.agentRuns && after.issueRuns == s.store.issueRuns
  {
    var s := Run(projects, steps);
    EveryRunKeeps(projects, steps);
    hide Run, Valid, KeyInv, ObserverInv, ProjectInv, Published, ProjectionOf, NoneRefused;
    ComposedUnderTheirOwnIds(s);
    if !Succeeds(s, at, override) {
      RefusedPublishChangesUnreported(s.d, s.store, at, override, project);
      FactsAreProjected(s.store.projects, Apply(s, Publish(at, override)).store.projects, project);
      if GoesThrough(s.d, |s.d.projects|, project) {
        FactsAreProjected(s.store.projects, Put(s.store.projects, s.d.composed[project]), project);
        OwnId(s.d, project);
      }
    }
    hide Differ;
  }

  // -- What is lost stays lost -------------------------------------------------------------------

  /** The store shows the Project as last composed. */
  predicate ShowsComposed(s: State, project: nat) {
    project in s.d.composed && Held(s.store, project) == Some(s.d.composed[project])
  }

  function TimesComposed(s: State, project: nat): nat { |Log(s.compositions, project)| }

  lemma FinishedComposes(s: State, ticket: Ticket, outcome: Outcome, half: Half, composedAt: int, project: nat)
    requires ticket.key.PartKey? && ticket.key.project in ById(s.d.projects)
    ensures var t := Finished(s, ticket, outcome, half, composedAt);
      && TimesComposed(t, project) >= TimesComposed(s, project)
      && (TimesComposed(t, project) == TimesComposed(s, project) && ShowsComposed(s, project) ==>
          ShowsComposed(t, project))
  {
    hide ById, ComposedNow, Finished, AcceptedPart, Held;
    if IsCurrent(s.d, ticket) {
      FinishedShape(s, ticket, outcome, half, composedAt);
    } else {
      SupersededChangesNothing(s, ticket, outcome, half, composedAt);
    }
  }

  lemma StepShowsComposed(s: State, step: Step, project: nat)
    requires Inv(s)
    ensures var t := Apply(s, step);
      && TimesComposed(t, project) >= TimesComposed(s, project)
      && (TimesComposed(t, project) == TimesComposed(s, project) && ShowsComposed(s, project) ==>
          ShowsComposed(t, project))
  {
    hide Inv, PublishedState, Finishing, FinishingAgentRuns, Acquired, Checking, ReturnedNow, Held, Looked;
    match step
    case Publish(at, override) => PublishedShape(s, at, override, project);
    case Finish(id, at, answer, elapsed, composedAt) =>
      if id in s.observers { FinishingComposes(s, id, at, answer, elapsed, composedAt, project); }
    case _ => OtherStepComposesNothing(s, step);
  }

  lemma OtherStepComposesNothing(s: State, step: Step)
    requires Inv(s) && !step.Publish? && !step.Finish?
    ensures var t := Apply(s, step);
      t.compositions == s.compositions && t.d.composed == s.d.composed && t.store == s.store
  {
    hide Valid, KeyInv, ObserverInv, ProjectInv, SeenInv, PublishedState, Finishing, Requested, Looked;
    if step.Request? { RequestedKeeps(s.d, step.keys, AgentRunsKey); }
  }

  lemma FinishingComposes(
    s: State, id: nat, at: int, answer: Answer, elapsed: nat, composedAt: int, project: nat)
    requires id in s.observers
    ensures var t := Finishing(s, id, at, answer, elapsed, composedAt);
      && TimesComposed(t, project) >= TimesComposed(s, project)
      && (TimesComposed(t, project) == TimesComposed(s, project) && ShowsComposed(s, project) ==>
          ShowsComposed(t, project))
  {
    hide ById, Finished, Held, Observed;
    var ticket, phase := s.observers[id].ticket, s.observers[id].phase;
    if phase.Observing? && ticket.key.PartKey? && ticket.key.project in ById(s.d.projects) {
      FinishedComposes(ReturnedNow(s, id, IsCurrent(s.d, ticket)), ticket,
                       Outcome(ticket.generation, at, answer, elapsed),
                       Observed(ticket.key.kind, phase.previous, at, answer, elapsed), composedAt, project);
    }
  }

  lemma {:induction false} StaysShown(s: State, later: seq<Step>, project: nat)
    requires Inv(s) && ShowsComposed(s, project)
    ensures var t := RunFrom(s, later);
      && Inv(t) && TimesComposed(t, project) >= TimesComposed(s, project)
      && (TimesComposed(t, project) == TimesComposed(s, project) ==> ShowsComposed(t, project))
  {
    hide Valid, KeyInv, ObserverInv, ProjectInv, SeenInv, Apply, ShowsComposed, TimesComposed;
    if later != [] {
      StaysShown(s, later[..|later| - 1], project);
      var t := RunFrom(s, later[..|later| - 1]);
      StepKeeps(t, later[|later| - 1]);
      StepShowsComposed(t, later[|later| - 1], project);
    }
  }

  /** Whatever comes after a refused publish, no publish names a Project that it put in the store
      until that Project is composed anew. */
  lemma LostUntilComposedAnew(
    projects: seq<Configured>, steps: seq<Step>, at: int, override: Option<nat>, later: seq<Step>,
    again: int, overrideAgain: Option<nat>, project: nat)
    ensures var s := Run(projects, steps);
      var t := RunFrom(Apply(s, Publish(at, override)), later);
      !Succeeds(s, at, override) && GoesThrough(s.d, |s.d.projects|, project) &&
      TimesComposed(t, project) == TimesComposed(s, project) && Succeeds(t, again, overrideAgain) ==>
        !Names(Reports(t.d, t.store, again, overrideAgain), project)
  {
    var s := Run(projects, steps);
    EveryRunKeeps(projects, steps);
    hide Run, Valid, KeyInv, ObserverInv, ProjectInv, SeenInv, Names, Reports, NoneRefused;
    if !Succeeds(s, at, override) && GoesThrough(s.d, |s.d.projects|, project) {
      var refused := Apply(s, Publish(at, override));
      RefusedPublishShows(s, at, override, project);
      StaysShown(refused, later, project);
      var t := RunFrom(refused, later);
      if TimesComposed(t, project) == TimesComposed(s, project) && Succeeds(t, again, overrideAgain) {
        ShownIsNotNamed(t, again, overrideAgain, project);
      }
    }
  }

  lemma RefusedPublishShows(s: State, at: int, override: Option<nat>, project: nat)
    requires Inv(s) && GoesThrough(s.d, |s.d.projects|, project)
    ensures var t := Apply(s, Publish(at, override));
      Inv(t) && ShowsComposed(t, project) && TimesComposed(t, project) == TimesComposed(s, project)
  {
    hide Valid, KeyInv, ObserverInv, ProjectInv, SeenInv, PublishedFirst, NoneRefused, DistinctIds;
    StepKeeps(s, Publish(at, override));
    ComposedUnderTheirOwnIds(s);
    PublishedHolds(s.d, s.store, |s.d.projects|, at, override, project);
  }

  lemma ShownIsNotNamed(s: State, at: int, override: Option<nat>, project: nat)
    requires Inv(s) && ShowsComposed(s, project) && Succeeds(s, at, override)
    ensures !Names(Reports(s.d, s.store, at, override), project)
  {
    hide Valid, KeyInv, ObserverInv, ProjectInv, SeenInv, Names, Reports, Published;
    ComposedUnderTheirOwnIds(s);
    RetryNamesNothingShown(s.d, s.store, at, override, project);
  }

  // -- A run that loses a change -----------------------------------------------------------------

  lemma {:induction false} RunsJoin(s: State, first: seq<Step>, second: seq<Step>)
    requires Valid(s.store)
    ensures RunFrom(s, first + second) == RunFrom(RunFrom(s, first), second)
  {
    hide Valid, Apply;
    if second == [] {
      assert first + second == first;
    } else {
      RunsJoin(s, first, second[..|second| - 1]);
      assert (first + second)[..|first + second| - 1] == first + second[..|second| - 1];
    }
  }

  lemma RunsOn(projects: seq<Configured>, first: seq<Step>, second: seq<Step>)
    ensures Run(projects, first + second) == RunFrom(Run(projects, first), second)
  {
    InitialHolds(projects);
    hide Valid;
    RunsJoin(Initial(projects), first, second);
  }

  function ItemsRead(items: seq<Item>): Answer { Read(Fresh, 0, Some(0), [], Payload(items, [], 0)) }

  function HalfRead(items: seq<Item>): Half { Half(Fresh, 0, Some(0), [], [], 0, Payload(items, [], 0)) }

  /** One part requested and observed, with nothing in between. */
  function Round(id: nat, key: Key, generation: nat, items: seq<Item>): seq<Step> {
    [Request([key]), Start(id, Ticket(key, generation)), Acquire(id), Check(id), Look(id),
     Finish(id, 0, ItemsRead(items), 0, 0)]
  }

  predicate Ready(s: State, id: nat, key: Key, generation: nat) {
    && key.PartKey? && key.project in ById(s.d.projects)
    && id !in s.observers && s.locks == map[] && generation == GenerationOf(s.d, key) + 1
  }

  /** `s` with one more part observed by one more observer. */
  ghost predicate HasObserved(s: State, t: State, id: nat, key: Key, generation: nat, items: seq<Item>)
    requires key.PartKey?
  {
    && t.store == s.store && t.locks == map[] && t.observers.Keys == s.observers.Keys + {id}
    && t.d.projects == s.d.projects && t.d.agentPending == s.d.agentPending
    && t.d.generations == s.d.generations[key := generation]
    && t.d.observations == s.d.observations[key := HalfRead(items)]
    && (forall project :: project != key.project ==> TimesComposed(t, project) == TimesComposed(s, project))
  }

  lemma OneMoreStep(s: State, steps: seq<Step>, step: Step)
    requires Valid(s.store)
    ensures RunFrom(s, steps + [step]) == Apply(RunFrom(s, steps), step)
  {
    hide Valid, Apply;
    assert (steps + [step])[..|steps|] == steps;
  }

  lemma OneRequested(d: Data, keys: seq<Key>)
    requires |keys| == 1
    ensures Requested(d, keys) == d.(generations := d.generations[keys[0] := GenerationOf(d, keys[0]) + 1])
  {
    hide *;
    OneMoreRequested(d, keys, 0);
    NoneRequested(d);
    assert keys[..0] == [] && keys[..0 + 1] == keys;
  }

  /** The state with one key's generation raised, and one observer of it at some phase. */
  function Underway(s: State, id: nat, key: Key, generation: nat, phase: Phase): State {
    s.(d := s.d.(generations := s.d.generations[key := generation]),
       locks := if HoldsLock(phase) then map[key := id] else map[],
       observers := s.observers[id := Observer(Ticket(key, generation), phase)])
  }

  lemma RoundOpens(s: State, id: nat, key: Key, generation: nat)
    requires Valid(s.store) && Ready(s, id, key, generation)
    ensures Apply(Apply(s, Request([key])), Start(id, Ticket(key, generation))) ==
      Underway(s, id, key, generation, Waiting)
  {
    hide Valid, ById, PublishedState, Requested, Finishing, FinishingAgentRuns, Get, GenerationOf, Acquired, Checking;
    OneRequested(s.d, [key]);
  }

  lemma RoundMoves(s: State, id: nat, key: Key, generation: nat)
    requires Valid(s.store) && Ready(s, id, key, generation)
    ensures Apply(Underway(s, id, key, generation, Waiting), Acquire(id)) == Underway(s, id, key, generation, Locked)
    ensures Apply(Underway(s, id, key, generation, Locked), Check(id)) == Underway(s, id, key, generation, Checked)
    ensures Apply(Underway(s, id, key, generation, Checked), Look(id)) ==
      Underway(s, id, key, generation, Observing(Get(s.d.observations, key)))
  {
    hide Valid, ById, PublishedState, Requested, Finishing, FinishingAgentRuns, Get, GenerationOf, Underway;
    UnderwayMoves(s, id, key, generation, Waiting, Locked);
    UnderwayMoves(s, id, key, generation, Locked, Checked);
    UnderwayMoves(s, id, key, generation, Checked, Observing(Get(s.d.observations, key)));
  }

  lemma UnderwayMoves(s: State, id: nat, key: Key, generation: nat, before: Phase, after: Phase)
    ensures var t := Underway(s, id, key, generation, before);
      && t.d == s.d.(generations := s.d.generations[key := generation])
      && t.locks == (if HoldsLock(before) then map[key := id] else map[])
      && id in t.observers && t.observers[id] == Observer(Ticket(key, generation), before)
      && (HoldsLock(after) ==> Moved(t, id, after).(locks := map[key := id]) == Underway(s, id, key, generation, after))
  {
  }

  /** The round as far as the look at what the key had. */
  lemma RoundStarts(s: State, id: nat, key: Key, generation: nat, items: seq<Item>)
    requires Valid(s.store) && Ready(s, id, key, generation)
    ensures RunFrom(s, Round(id, key, generation, items)[..5]) ==
      Underway(s, id, key, generation, Observing(Get(s.d.observations, key)))
  {
    hide Valid, Apply, Underway, Ready, RunFrom;
    var steps := Round(id, key, generation, items);
    RoundOpens(s, id, key, generation);
    RoundMoves(s, id, key, generation);
    NoSteps(s);
    assert steps[..0] == [];
    forall n | 0 <= n < 5 ensures RunFrom(s, steps[..n + 1]) == Apply(RunFrom(s, steps[..n]), steps[n]) {
      assert steps[..n + 1] == steps[..n] + [steps[n]];
      OneMoreStep(s, steps[..n], steps[n]);
    }
    assert RunFrom(s, steps[..0 + 1]) == Apply(s, Request([key]));
    assert RunFrom(s, steps[..1 + 1]) == Underway(s, id, key, generation, Waiting);
    assert RunFrom(s, steps[..2 + 1]) == Underway(s, id, key, generation, Locked);
    assert RunFrom(s, steps[..3 + 1]) == Underway(s, id, key, generation, Checked);
    assert RunFrom(s, steps[..4 + 1]) == Underway(s, id, key, generation, Observing(Get(s.d.observations, key)));
  }

  lemma NoSteps(s: State)
    requires Valid(s.store)
    ensures RunFrom(s, []) == s
  {
    hide Valid;
  }

  lemma RoundReads(s: State, id: nat, key: Key, generation: nat, items: seq<Item>)
    requires Valid(s.store) && Ready(s, id, key, generation)
    ensures var looked := Underway(s, id, key, generation, Observing(Get(s.d.observations, key)));
      && IsCurrent(looked.d, Ticket(key, generation))
      && Apply(looked, Finish(id, 0, ItemsRead(items), 0, 0)) ==
         Finished(ReturnedNow(looked, id, true), Ticket(key, generation), Outcome(generation, 0, ItemsRead(items), 0),
                  HalfRead(items), 0)
  {
    hide Valid, ById, PublishedState, Finished, FinishingAgentRuns, Acquired, Checking, Get, GenerationOf, ReturnedNow;
  }

  lemma RoundEnds(s: State, id: nat, key: Key, generation: nat, items: seq<Item>)
    requires Valid(s.store) && Ready(s, id, key, generation)
    ensures var looked := Underway(s, id, key, generation, Observing(Get(s.d.observations, key)));
      HasObserved(s, Apply(looked, Finish(id, 0, ItemsRead(items), 0, 0)), id, key, generation, items)
  {
    hide Valid, ById, ComposedNow, Finished, Apply, Get, ItemsRead, HalfRead, AcceptedPart, Requested, GenerationOf;
    var looked := Underway(s, id, key, generation, Observing(Get(s.d.observations, key)));
    RoundReads(s, id, key, generation, items);
    FinishedObserves(ReturnedNow(looked, id, true), Ticket(key, generation), Outcome(generation, 0, ItemsRead(items), 0),
                     HalfRead(items), 0);
  }

  lemma FinishedObserves(s: State, ticket: Ticket, outcome: Outcome, half: Half, composedAt: int)
    requires ticket.key.PartKey? && ticket.key.project in ById(s.d.projects) && IsCurrent(s.d, ticket)
    ensures var t := Finished(s, ticket, outcome, half, composedAt);
      && t.store == s.store && t.locks == s.locks && t.observers == s.observers && t.d.projects == s.d.projects
      && t.d.agentPending == s.d.agentPending && t.d.generations == s.d.generations
      && t.d.observations == s.d.observations[ticket.key := half]
      && forall project :: project != ticket.key.project ==> TimesComposed(t, project) == TimesComposed(s, project)
  {
    hide ById, ComposedNow, Finished, AcceptedPart, IsCurrent;
    FinishedShape(s, ticket, outcome, half, composedAt);
  }

  lemma RoundObserves(s: State, id: nat, key: Key, generation: nat, items: seq<Item>)
    requires Valid(s.store) && Ready(s, id, key, generation)
    ensures HasObserved(s, RunFrom(s, Round(id, key, generation, items)), id, key, generation, items)
  {
    hide Valid, Apply, Underway, RunFrom, Ready, HasObserved;
    var steps := Round(id, key, generation, items);
    RoundStarts(s, id, key, generation, items);
    RoundEnds(s, id, key, generation, items);
    OneMoreStep(s, steps[..5], steps[5]);
    assert steps == steps[..5] + [steps[5]];
  }

  const TWO := [Configured(0, 0), Configured(1, 0)]

  const PARTS := [PartKey(Issues, 0), PartKey(PullRequests, 0), PartKey(Targets, 0),
                  PartKey(Issues, 1), PartKey(PullRequests, 1), PartKey(Targets, 1)]

  /** Only the second Project's Issues hold anything: one Issue, twice. */
  function ItemsIn(key: Key): seq<Item> { if key == PartKey(Issues, 1) then [Item(1, 0), Item(1, 0)] else [] }

  function Rounds(n: nat): seq<Step>
    requires n <= |PARTS|
  {
    if n == 0 then [] else Rounds(n - 1) + Round(n - 1, PARTS[n - 1], 1, ItemsIn(PARTS[n - 1]))
  }

  /** What the first `n` rounds leave. */
  ghost predicate AfterRounds(s: State, n: nat)
    requires n <= |PARTS|
  {
    && s.d.projects == TWO && s.store == EMPTY_STORE && s.locks == map[] && !s.d.agentPending
    && (forall id :: id in s.observers ==> id < n)
    && (forall m :: 0 <= m < n ==> GenerationOf(s.d, PARTS[m]) == 1)
    && (forall m :: n <= m < |PARTS| ==> GenerationOf(s.d, PARTS[m]) == 0)
    && (forall m :: 0 <= m < n ==> Get(s.d.observations, PARTS[m]) == Some(HalfRead(ItemsIn(PARTS[m]))))
  }

  lemma OneMoreRound(s: State, t: State, n: nat)
    requires n < |PARTS| && AfterRounds(s, n) && HasObserved(s, t, n, PARTS[n], 1, ItemsIn(PARTS[n]))
    ensures AfterRounds(t, n + 1)
  {
    hide HalfRead, ItemsIn;
  }

  lemma RoundIsReady(s: State, n: nat)
    requires n < |PARTS| && AfterRounds(s, n)
    ensures Ready(s, n, PARTS[n], 1)
  {
    ByIdIsOfTheProjects(TWO, PARTS[n].project);
    hide ById;
    assert TWO[0].id == 0 && TWO[1].id == 1;
  }

  lemma NoRounds()
    ensures AfterRounds(Run(TWO, []), 0)
  {
    hide Valid;
  }

  lemma {:induction false} RoundsObserve(n: nat)
    requires n <= |PARTS|
    ensures AfterRounds(Run(TWO, Rounds(n)), n)
  {
    hide Valid, AfterRounds, Run, RunFrom, Ready, HasObserved, Round;
    if n == 0 {
      NoRounds();
    } else {
      RoundsObserve(n - 1);
      var s := Run(TWO, Rounds(n - 1));
      RoundIsReady(s, n - 1);
      RoundObserves(s, n - 1, PARTS[n - 1], 1, ItemsIn(PARTS[n - 1]));
      RunsOn(TWO, Rounds(n - 1), Round(n - 1, PARTS[n - 1], 1, ItemsIn(PARTS[n - 1])));
      OneMoreRound(s, Run(TWO, Rounds(n)), n - 1);
    }
  }

  /** Composed of these entries. */
  predicate ComposedOf(d: Data, project: nat, issues: seq<Item>, pulls: seq<Item>, targets: seq<Item>) {
    && project in d.composed && d.composed[project].snapshot.Some?
    && var snapshot := d.composed[project].snapshot.value;
      && snapshot.issues == issues && snapshot.pullRequests == pulls
      && snapshot.targets == targets && snapshot.branches == []
  }

  /** A Project whose parts were read is composed of what was read, and pending if the store has none. */
  lemma ReadIsComposed(s: State, project: nat, issues: seq<Item>)
    requires Inv(s)
    requires Get(s.d.observations, PartKey(Issues, project)) == Some(HalfRead(issues))
    requires Get(s.d.observations, PartKey(PullRequests, project)) == Some(HalfRead([]))
    requires Get(s.d.observations, PartKey(Targets, project)) == Some(HalfRead([]))
    ensures ComposedOf(s.d, project, issues, [], [])
    ensures project !in s.store.projects.byId ==> IsPending(s.d, project)
    ensures Publishable(s.d.composed[project]) <==> DistinctIds(issues)
  {
    hide Valid, KeyInv, ObserverInv, SeenInv, ById, Unique;
    assert ProjectInv(s, project);
  }

  lemma ConfiguredOnly(s: State, project: nat)
    requires Inv(s) && s.d.projects == TWO && project in s.d.composed
    ensures project in {0, 1}
  {
    hide Valid, KeyInv, ObserverInv, SeenInv, ById;
    assert ProjectInv(s, project);
    ByIdIsOfTheProjects(TWO, project);
  }

  /** With all six parts read the first Project goes through and the second is refused. */
  lemma SecondIsRefused(s: State)
    requires Inv(s) && AfterRounds(s, 6)
    ensures !AllPublishable(s.d) && GoesThrough(s.d, |s.d.projects|, 0)
    ensures Held(s.store, 0) == None
  {
    hide Inv, Publishable, HalfRead, ById;
    assert PARTS[0] == PartKey(Issues, 0) && PARTS[1] == PartKey(PullRequests, 0) && PARTS[2] == PartKey(Targets, 0);
    assert PARTS[3] == PartKey(Issues, 1) && PARTS[4] == PartKey(PullRequests, 1) && PARTS[5] == PartKey(Targets, 1);
    ReadIsComposed(s, 0, []);
    var twice := ItemsIn(PARTS[3]);
    assert twice[0].id == twice[1].id;
    ReadIsComposed(s, 1, twice);
    FirstGoesThrough(s.d);
    ComposedUnderTheirOwnIds(s);
  }

  lemma FirstGoesThrough(d: Data)
    requires d.projects == TWO && IsPending(d, 0) && Publishable(d.composed[0])
    ensures GoesThrough(d, |d.projects|, 0)
  {
    hide Publishable;
    assert NoneRefused(d, 1) && d.projects[0].id == 0;
  }

  /** Once the second Project's Issues are read again and repeat none, nothing is refused. */
  lemma BothGoThrough(s: State, refused: State, t: State)
    requires Inv(t) && AfterRounds(s, 6) && refused.d == s.d
    requires HasObserved(refused, t, 6, PartKey(Issues, 1), 2, [])
    ensures AllPublishable(t.d) && !t.d.agentPending
  {
    hide Inv, Publishable, HalfRead, ById;
    assert PARTS[0] == PartKey(Issues, 0) && PARTS[1] == PartKey(PullRequests, 0) && PARTS[2] == PartKey(Targets, 0);
    assert PARTS[4] == PartKey(PullRequests, 1) && PARTS[5] == PartKey(Targets, 1);
    ReadIsComposed(t, 0, []);
    ReadIsComposed(t, 1, []);
    forall project | project in t.d.pending && project in t.d.composed ensures Publishable(t.d.composed[project]) {
      ConfiguredOnly(t, project);
    }
  }

  const AGAIN := Round(6, PartKey(Issues, 1), 2, [])

  /** A run in which the first `steps` observe all six parts. */
  lemma ChangeIsLost(steps: seq<Step>)
    requires AfterRounds(Run(TWO, steps), 6)
    ensures var s := Run(TWO, steps);
      var refused := Apply(s, Publish(0, None));
      var t := RunFrom(refused, AGAIN);
      && !Succeeds(s, 0, None) && FactsChange(s.store, refused.store, 0)
      && Succeeds(t, 0, None) && !Names(Reports(t.d, t.store, 0, None), 0)
  {
    hide Valid, Inv, Run, RunFrom, AfterRounds, Apply, AGAIN, HasObserved, AllPublishable, Reports, Names, Succeeds;
    hide GoesThrough, ProjectionOf, DistinctIds, TimesComposed;
    var s := Run(TWO, steps);
    var refused := Apply(s, Publish(0, None));
    var t := RunFrom(refused, AGAIN);
    EveryRunKeeps(TWO, steps);
    SecondIsRefused(s);
    PublishGoesThrough(TWO, steps, 0, None);
    RefusedPublishChanges(TWO, steps, 0, None, 0);
    ObservedAgain(s, refused);
    RunsOn(TWO, steps, [Publish(0, None)]);
    OneStep(s, Publish(0, None));
    RunsOn(TWO, steps + [Publish(0, None)], AGAIN);
    EveryRunKeeps(TWO, steps + [Publish(0, None)] + AGAIN);
    BothGoThrough(s, refused, t);
    PublishGoesThrough(TWO, steps + [Publish(0, None)] + AGAIN, 0, None);
    LostUntilComposedAnew(TWO, steps, 0, None, AGAIN, 0, None, 0);
  }

  lemma OneStep(s: State, step: Step)
    requires Valid(s.store)
    ensures RunFrom(s, [step]) == Apply(s, step)
  {
    hide Valid, Apply;
  }

  /** Two Projects are observed, the second with one Issue twice. The publish is refused, and the first
      Project is then shown for the first time. The second is observed again and the publish goes
      through, and names the first Project no more than the refused one did. */
  lemma RefusedPublishLosesAChange()
    ensures var s := Run(TWO, Rounds(|PARTS|));
      var refused := Apply(s, Publish(0, None));
      var t := RunFrom(refused, AGAIN);
      && !Succeeds(s, 0, None) && FactsChange(s.store, refused.store, 0)
      && Succeeds(t, 0, None) && !Names(Reports(t.d, t.store, 0, None), 0)
  {
    hide Run, RunFrom, Apply, AfterRounds, Succeeds, FactsChange, AGAIN, Reports, Names, Rounds;
    RoundsObserve(|PARTS|);
    ChangeIsLost(Rounds(|PARTS|));
  }

  lemma ObservedAgain(s: State, refused: State)
    requires Valid(s.store) && AfterRounds(s, 6) && refused == Apply(s, Publish(0, None)) && refused.d == s.d
    ensures HasObserved(refused, RunFrom(refused, AGAIN), 6, PartKey(Issues, 1), 2, [])
    ensures TimesComposed(RunFrom(refused, AGAIN), 0) == TimesComposed(s, 0)
  {
    hide Valid, Published, ById;
    assert PARTS[3] == PartKey(Issues, 1);
    ByIdIsOfTheProjects(TWO, 1);
    assert TWO[1].id == 1;
    RoundObserves(refused, 6, PartKey(Issues, 1), 2, []);
  }
}
