/** Every interleaving of requests, observers and publishes over one coordinator and one store.

An observer goes: wait for the key's lock, check that its ticket is current, read what the key
last had (or, for Agent Runs, what is composed), observe with no lock but the key's, and accept
under the state lock. Each of these, each request and each publish is one step. */
module ObservationRuns {
  import opened Wrappers
  import opened ObservationParts
  import opened ObservationStore
  import opened ObservationCoordinator

  datatype Phase =
    | Waiting
    | Locked
    | Checked
    | Observing(previous: Option<Half>)
    | Binding(seen: map<nat, nat>)
    | Returned(accepted: bool)

  datatype Observer = Observer(ticket: Ticket, phase: Phase)

  /** `history` holds each key's accepted outcomes, `compositions` each Project's and `stamps` the
      time of its last; `bound` counts those made of each Project when the Agent Runs now in the
      store were observed. */
  datatype State = State(
    d: Data,
    locks: map<Key, nat>,
    observers: map<nat, Observer>,
    store: StoreState,
    history: map<Key, seq<Outcome>>,
    compositions: map<nat, seq<Project>>,
    stamps: map<nat, int>,
    bound: map<nat, nat>)

  datatype Step =
    | Request(keys: seq<Key>)
    | Start(id: nat, ticket: Ticket)
    | Acquire(id: nat)
    | Check(id: nat)
    | Look(id: nat)
    | Finish(id: nat, at: int, answer: Answer, elapsed: nat, composedAt: int)
    | FinishAgentRuns(id: nat, runs: seq<Item>, issueRuns: map<nat, seq<nat>>, diagnostics: seq<Diagnostic>, elapsed: nat)
    | Raise(id: nat)
    | Publish(at: int, override: Option<nat>)

  predicate HoldsLock(phase: Phase) { phase != Waiting && !phase.Returned? }

  predicate In(s: State, id: nat, key: Key) { id in s.observers && s.observers[id].ticket.key == key }

  function Moved(s: State, id: nat, phase: Phase): State
    requires id in s.observers
  {
    s.(observers := s.observers[id := s.observers[id].(phase := phase)])
  }

  function ReturnedNow(s: State, id: nat, accepted: bool): State
    requires id in s.observers
  {
    Moved(s, id, Returned(accepted)).(locks := s.locks - {s.observers[id].ticket.key})
  }

  function Log<K, V>(logs: map<K, seq<V>>, key: K): seq<V> { if key in logs then logs[key] else [] }

  /** Accept one part, writing down what was accepted and what came of it. */
  function Finished(s: State, ticket: Ticket, outcome: Outcome, half: Half, composedAt: int): State
    requires ticket.key.PartKey? && ticket.key.project in ById(s.d.projects)
  {
    if !IsCurrent(s.d, ticket) then s
    else
      var project := ticket.key.project;
      var d := AcceptedPart(s.d, ticket, half, composedAt);
      var accepted := s.(d := d, history := s.history[ticket.key := Log(s.history, ticket.key) + [outcome]]);
      match ComposedNow(d, project, composedAt)
      case None => accepted
      case Some(made) =>
        accepted.(compositions := s.compositions[project := Log(s.compositions, project) + [made]],
                  stamps := s.stamps[project := composedAt])
  }

  function Looked(s: State, key: Key): Phase {
    if key.PartKey? then Observing(Get(s.d.observations, key))
    else Binding(map project | project in s.d.composed :: |Log(s.compositions, project)|)
  }

  ghost function PublishedState(s: State, at: int, override: Option<nat>): State
    requires Valid(s.store)
  {
    var (d, store, ok) := Published(s.d, s.store, at, override);
    var binds := s.d.agentPending && !d.agentPending && s.d.agent.Some?;
    s.(d := d, store := store, bound := if binds then s.d.agent.value.seen else s.bound)
  }

  function KeyOf(s: State, id: nat): Key
    requires id in s.observers
  {
    s.observers[id].ticket.key
  }

  function Acquired(s: State, id: nat): State
    requires id in s.observers
  {
    if s.observers[id].phase == Waiting && KeyOf(s, id) !in s.locks
    then Moved(s, id, Locked).(locks := s.locks[KeyOf(s, id) := id])
    else s
  }

  function Checking(s: State, id: nat): State
    requires id in s.observers
  {
    if s.observers[id].phase != Locked then s
    else if IsCurrent(s.d, s.observers[id].ticket) then Moved(s, id, Checked)
    else ReturnedNow(s, id, false)
  }

  function Finishing(s: State, id: nat, at: int, answer: Answer, elapsed: nat, composedAt: int): (t: State)
    requires id in s.observers
    ensures t.store == s.store
  {
    var ticket, phase := s.observers[id].ticket, s.observers[id].phase;
    if phase.Observing? && ticket.key.PartKey? && ticket.key.project in ById(s.d.projects) then
      var half := Observed(ticket.key.kind, phase.previous, at, answer, elapsed);
      Finished(ReturnedNow(s, id, IsCurrent(s.d, ticket)), ticket, Outcome(ticket.generation, at, answer, elapsed),
               half, composedAt)
    else s
  }

  function FinishingAgentRuns(
    s: State, id: nat, runs: seq<Item>, issueRuns: map<nat, seq<nat>>, diagnostics: seq<Diagnostic>, elapsed: nat): State
    requires id in s.observers
  {
    var ticket, phase := s.observers[id].ticket, s.observers[id].phase;
    if phase.Binding? then
      var agent := AgentRuns(runs, issueRuns, diagnostics, elapsed, phase.seen);
      ReturnedNow(s, id, IsCurrent(s.d, ticket)).(d := AcceptedAgent(s.d, ticket, agent))
    else s
  }

  /** A step that cannot be taken leaves the state as it is. */
  ghost function Apply(s: State, step: Step): (t: State)
    requires Valid(s.store)
    ensures Valid(t.store)
  {
    hide Valid, Finishing, Looked, Requested;
    match step
    case Request(keys) => s.(d := Requested(s.d, keys))
    case Start(id, ticket) =>
      if id in s.observers then s else s.(observers := s.observers[id := Observer(ticket, Waiting)])
    case Acquire(id) => if id in s.observers then Acquired(s, id) else s
    case Check(id) => if id in s.observers then Checking(s, id) else s
    case Look(id) =>
      if id in s.observers && s.observers[id].phase == Checked then Moved(s, id, Looked(s, KeyOf(s, id))) else s
    case Finish(id, at, answer, elapsed, composedAt) =>
      if id in s.observers then Finishing(s, id, at, answer, elapsed, composedAt) else s
    case FinishAgentRuns(id, runs, issueRuns, diagnostics, elapsed) =>
      if id in s.observers then FinishingAgentRuns(s, id, runs, issueRuns, diagnostics, elapsed) else s
    case Raise(id) => if id in s.observers && HoldsLock(s.observers[id].phase) then ReturnedNow(s, id, false) else s
    case Publish(at, override) => PublishedState(s, at, override)
  }

  function Initial(projects: seq<Configured>): State {
    State(Initially(projects), map[], map[], EMPTY_STORE, map[], map[], map[], map[])
  }

  ghost function RunFrom(s: State, steps: seq<Step>): (t: State)
    requires Valid(s.store)
    ensures Valid(t.store)
  {
    hide Valid;
    if steps == [] then s else Apply(RunFrom(s, steps[..|steps| - 1]), steps[|steps| - 1])
  }

  ghost function Run(projects: seq<Configured>, steps: seq<Step>): (s: State)
    ensures Valid(s.store)
  {
    RunFrom(Initial(projects), steps)
  }

  // -- The invariant ---------------------------------------------------------------------------

  predicate NeverDecreasing(outcomes: seq<Outcome>) {
    forall i, j :: 0 <= i < j < |outcomes| ==> outcomes[i].generation <= outcomes[j].generation
  }

  /** What a key has last is the fold of all it accepted, in order of generation. */
  ghost predicate KeyInv(s: State, key: Key) {
    var outcomes := Log(s.history, key);
    && (key in s.d.accepted ==> key in s.d.generations && s.d.accepted[key] <= s.d.generations[key])
    && (key.PartKey? ==> Get(s.d.observations, key) == Folded(key.kind, outcomes))
    && (outcomes != [] ==>
        && key.PartKey? && key.project in ById(s.d.projects)
        && key in s.d.accepted && outcomes[|outcomes| - 1].generation == s.d.accepted[key])
    && NeverDecreasing(outcomes)
    && (key in s.locks ==> In(s, s.locks[key], key) && HoldsLock(s.observers[s.locks[key]].phase))
  }

  ghost predicate SeenInv(s: State, seen: map<nat, nat>) {
    forall project :: project in seen ==> 1 <= seen[project] <= |Log(s.compositions, project)|
  }

  /** Whoever observes a part of a key holds its lock, so what it had before stays what the key has. */
  ghost predicate ObserverInv(s: State, id: nat) {
    id in s.observers ==>
      var key, phase := s.observers[id].ticket.key, s.observers[id].phase;
      && (HoldsLock(phase) ==> key in s.locks && s.locks[key] == id)
      && (phase.Observing? ==> key.PartKey? && phase.previous == Get(s.d.observations, key))
      && (phase.Binding? ==> key == AgentRunsKey && SeenInv(s, phase.seen))
  }

  /** The store shows the `n`th composition made, or a later one. */
  ghost predicate ShowsSince(made: seq<Project>, held: Option<Project>, n: nat) {
    held.Some? && exists k :: 0 <= k < |made| && n <= k + 1 && made[k] == held.value
  }

  predicate AllPartsObserved(d: Data, project: nat) {
    && PartKey(Issues, project) in d.observations
    && PartKey(PullRequests, project) in d.observations
    && PartKey(Targets, project) in d.observations
  }

  /** A composed Project is composed of what its keys have now; it is in the store unless pending,
      and what the store shows was composed at some time. */
  ghost predicate ProjectInv(s: State, project: nat) {
    var made, held := Log(s.compositions, project), Held(s.store, project);
    && (project in s.d.composed <==> AllPartsObserved(s.d, project))
    && (project in s.d.composed <==> made != [])
    && (made != [] ==>
        && project in ById(s.d.projects) && project in s.stamps
        && ComposedNow(s.d, project, s.stamps[project]) == Some(s.d.composed[project])
        && made[|made| - 1] == s.d.composed[project])
    && (project in s.d.pending ==> made != [])
    && (made != [] && project !in s.d.pending ==> held == Some(s.d.composed[project]))
    && (held.Some? ==> ShowsSince(made, held, 1))
    && (project in s.bound ==> s.bound[project] >= 1 && ShowsSince(made, held, s.bound[project]))
  }

  ghost predicate Inv(s: State) {
    && Valid(s.store)
    && (forall key :: KeyInv(s, key))
    && (forall id :: ObserverInv(s, id))
    && (forall project :: ProjectInv(s, project))
    && (s.d.agent.Some? ==> SeenInv(s, s.d.agent.value.seen))
  }

  // -- Every step keeps it ---------------------------------------------------------------------

  lemma {:induction false} RequestedKeeps(d: Data, keys: seq<Key>, key: Key)
    ensures var after := Requested(d, keys);
      && after == d.(generations := after.generations)
      && (key in d.generations ==> key in after.generations && d.generations[key] <= after.generations[key])
  {
    if keys != [] {
      RequestedKeeps(d, keys[..|keys| - 1], key);
    }
  }

  lemma RequestKeeps(s: State, keys: seq<Key>)
    requires Inv(s)
    ensures Inv(Apply(s, Request(keys)))
  {
    hide Valid, ById, Folded, NeverDecreasing, ShowsSince, PublishedState, Finishing;
    var t := Apply(s, Request(keys));
    RequestedKeeps(s.d, keys, AgentRunsKey);
    forall key ensures KeyInv(t, key) {
      assert KeyInv(s, key);
      RequestedKeeps(s.d, keys, key);
    }
    forall id ensures ObserverInv(t, id) { assert ObserverInv(s, id); }
    forall project ensures ProjectInv(t, project) { assert ProjectInv(s, project); }
  }

  lemma StartKeeps(s: State, id: nat, ticket: Ticket)
    requires Inv(s)
    ensures Inv(Apply(s, Start(id, ticket)))
  {
    hide Inv;
    if id !in s.observers { StartedKeeps(s, id, ticket); }
  }

  lemma StartedKeeps(s: State, id: nat, ticket: Ticket)
    requires Inv(s) && id !in s.observers
    ensures Inv(s.(observers := s.observers[id := Observer(ticket, Waiting)]))
  {
    hide Valid, ById, Folded, ComposedNow, NeverDecreasing, ShowsSince, AllPartsObserved;
    var t := s.(observers := s.observers[id := Observer(ticket, Waiting)]);
    forall key ensures KeyInv(t, key) { assert KeyInv(s, key); }
    forall other ensures ObserverInv(t, other) { assert ObserverInv(s, other); }
    forall project ensures ProjectInv(t, project) { assert ProjectInv(s, project); }
  }

  /** An observer that moves on under its own lock, takes it free, or gives it back, keeps everything. */
  lemma MoveKeeps(s: State, id: nat, phase: Phase)
    requires Inv(s) && id in s.observers
    requires HoldsLock(phase) ==> KeyOf(s, id) in s.locks ==> s.locks[KeyOf(s, id)] == id
    requires !HoldsLock(phase) ==> HoldsLock(s.observers[id].phase)
    requires phase.Observing? ==> KeyOf(s, id).PartKey? && phase.previous == Get(s.d.observations, KeyOf(s, id))
    requires phase.Binding? ==> KeyOf(s, id) == AgentRunsKey && SeenInv(s, phase.seen)
    ensures var key := KeyOf(s, id);
      Inv(Moved(s, id, phase).(locks := if HoldsLock(phase) then s.locks[key := id] else s.locks - {key}))
  {
    hide Valid, ById, Folded, Composed, NeverDecreasing, ShowsSince;
    var key := KeyOf(s, id);
    var t := Moved(s, id, phase).(locks := if HoldsLock(phase) then s.locks[key := id] else s.locks - {key});
    assert ObserverInv(s, id);
    forall other ensures KeyInv(t, other) { assert KeyInv(s, other); }
    forall other ensures ObserverInv(t, other) { assert ObserverInv(s, other); }
    forall project ensures ProjectInv(t, project) { assert ProjectInv(s, project); }
  }

  /** What an observer of Agent Runs looks at has all been composed. */
  lemma LookedIsSeen(s: State)
    requires Inv(s)
    ensures Looked(s, AgentRunsKey).Binding? && SeenInv(s, Looked(s, AgentRunsKey).seen)
  {
    hide Valid, KeyInv, ObserverInv, ById, ComposedNow, ShowsSince;
    forall project | project in s.d.composed ensures |Log(s.compositions, project)| >= 1 {
      assert ProjectInv(s, project);
    }
  }

  /** Acquiring, checking, looking and raising move one observer and its lock, and nothing else. */
  lemma ObserverStepKeeps(s: State, step: Step)
    requires Inv(s) && (step.Acquire? || step.Check? || step.Look? || step.Raise?)
    ensures Inv(Apply(s, step))
  {
    hide Valid, KeyInv, ProjectInv, SeenInv;
    var id := step.id;
    var t := Apply(s, step);
    if t != s {
      var key, phase := KeyOf(s, id), t.observers[id].phase;
      assert ObserverInv(s, id);
      LookedIsSeen(s);
      assert step.Look? ==> key.PartKey? || phase == Looked(s, AgentRunsKey);
      MoveKeeps(s, id, phase);
      assert t == Moved(s, id, phase).(locks := if HoldsLock(phase) then s.locks[key := id] else s.locks - {key});
    }
  }

  lemma ComposesItsObservations(d: Data, e: Data, project: nat, at: int)
    requires d.projects == e.projects && d.observations == e.observations && project in ById(d.projects)
    ensures ComposedNow(d, project, at) == ComposedNow(e, project, at)
  {
  }

  /** What accepting a part does to its own key and Project, and that it touches nothing else. */
  lemma FinishedShape(s: State, ticket: Ticket, outcome: Outcome, half: Half, composedAt: int)
    requires ticket.key.PartKey? && ticket.key.project in ById(s.d.projects) && IsCurrent(s.d, ticket)
    ensures var t, key, project := Finished(s, ticket, outcome, half, composedAt), ticket.key, ticket.key.project;
      && t.d.observations == s.d.observations[key := half]
      && t.d.accepted == s.d.accepted[key := ticket.generation]
      && t.history == s.history[key := Log(s.history, key) + [outcome]]
      && t == s.(d := t.d, history := t.history, compositions := t.compositions, stamps := t.stamps)
      && t.d == s.d.(accepted := t.d.accepted, observations := t.d.observations, composed := t.d.composed,
                     pending := t.d.pending)
      && (match ComposedNow(t.d, project, composedAt)
          case None =>
            && t.d.composed == s.d.composed && t.d.pending == s.d.pending
            && t.compositions == s.compositions && t.stamps == s.stamps
          case Some(made) =>
            && t.d.composed == s.d.composed[project := made] && t.d.pending == s.d.pending + {project}
            && t.compositions == s.compositions[project := Log(s.compositions, project) + [made]]
            && t.stamps == s.stamps[project := composedAt])
  {
    hide ComposedNow, ById, AcceptedPart, IsCurrent;
    AcceptedShape(s.d, ticket, half, composedAt);
  }

  lemma AcceptedShape(d: Data, ticket: Ticket, half: Half, at: int)
    requires ticket.key.PartKey? && ticket.key.project in ById(d.projects) && IsCurrent(d, ticket)
    ensures var e, key, project := AcceptedPart(d, ticket, half, at), ticket.key, ticket.key.project;
      && e.observations == d.observations[key := half]
      && e.accepted == d.accepted[key := ticket.generation]
      && e == d.(accepted := e.accepted, observations := e.observations, composed := e.composed, pending := e.pending)
      && (match ComposedNow(e, project, at)
          case None => e.composed == d.composed && e.pending == d.pending
          case Some(made) => e.composed == d.composed[project := made] && e.pending == d.pending + {project})
  {
    hide ComposedNow, ById, IsCurrent;
    var next := d.(accepted := d.accepted[ticket.key := ticket.generation],
                   observations := d.observations[ticket.key := half]);
    ComposesItsObservations(next, AcceptedPart(d, ticket, half, at), ticket.key.project, at);
  }

  lemma SupersededChangesNothing(s: State, ticket: Ticket, outcome: Outcome, half: Half, composedAt: int)
    requires ticket.key.PartKey? && ticket.key.project in ById(s.d.projects) && !IsCurrent(s.d, ticket)
    ensures Finished(s, ticket, outcome, half, composedAt) == s
  {
  }

  lemma OneMoreAccepted(kind: Kind, outcomes: seq<Outcome>, outcome: Outcome)
    ensures Folded(kind, outcomes + [outcome]) ==
      Some(Observed(kind, Folded(kind, outcomes), outcome.at, outcome.answer, outcome.elapsed))
    ensures (outcomes != [] ==> outcomes[|outcomes| - 1].generation <= outcome.generation) ==>
      NeverDecreasing(outcomes) ==> NeverDecreasing(outcomes + [outcome])
  {
  }

  lemma FinishedKeepsKeys(s: State, ticket: Ticket, outcome: Outcome, half: Half, composedAt: int, key: Key)
    requires Inv(s) && ticket.key.PartKey? && ticket.key.project in ById(s.d.projects) && ticket.key !in s.locks
    requires outcome.generation == ticket.generation
    requires half ==
      Observed(ticket.key.kind, Get(s.d.observations, ticket.key), outcome.at, outcome.answer, outcome.elapsed)
    ensures KeyInv(Finished(s, ticket, outcome, half, composedAt), key)
  {
    hide Valid, ObserverInv, ProjectInv, SeenInv, ById;
    hide Observed, ComposedNow, AcceptedPart, Finished, Folded, NeverDecreasing;
    assert KeyInv(s, key);
    if IsCurrent(s.d, ticket) {
      FinishedShape(s, ticket, outcome, half, composedAt);
      if key == ticket.key {
        OneMoreAccepted(key.kind, Log(s.history, key), outcome);
      }
    } else {
      SupersededChangesNothing(s, ticket, outcome, half, composedAt);
    }
  }

  lemma FinishedKeepsObservers(s: State, ticket: Ticket, outcome: Outcome, half: Half, composedAt: int, id: nat)
    requires Inv(s) && ticket.key.PartKey? && ticket.key.project in ById(s.d.projects) && ticket.key !in s.locks
    ensures ObserverInv(Finished(s, ticket, outcome, half, composedAt), id)
  {
    hide Valid, KeyInv, ProjectInv, ById, Folded, ComposedNow, AcceptedPart, Finished;
    assert ObserverInv(s, id);
    if IsCurrent(s.d, ticket) {
      FinishedShape(s, ticket, outcome, half, composedAt);
    } else {
      SupersededChangesNothing(s, ticket, outcome, half, composedAt);
    }
  }

  lemma ComposedWhenAll(d: Data, project: nat, at: int)
    requires project in ById(d.projects)
    ensures ComposedNow(d, project, at).Some? <==> AllPartsObserved(d, project)
  {
    hide ById, Unique, SnapshotOf, NeverObserved;
  }

  lemma OthersComposeAsBefore(d: Data, e: Data, project: nat, at: int)
    requires d.projects == e.projects && project in ById(d.projects)
    requires forall kind :: Get(d.observations, PartKey(kind, project)) == Get(e.observations, PartKey(kind, project))
    ensures ComposedNow(d, project, at) == ComposedNow(e, project, at)
  {
    hide ById, Composed;
  }

  lemma FinishedKeepsOthers(s: State, ticket: Ticket, outcome: Outcome, half: Half, composedAt: int, project: nat)
    requires Inv(s) && ticket.key.PartKey? && ticket.key.project in ById(s.d.projects) && IsCurrent(s.d, ticket)
    requires project != ticket.key.project
    ensures ProjectInv(Finished(s, ticket, outcome, half, composedAt), project)
  {
    hide Valid, KeyInv, ObserverInv, ById, Folded, AcceptedPart, Finished, ComposedNow, ShowsSince;
    assert ProjectInv(s, project);
    FinishedShape(s, ticket, outcome, half, composedAt);
    var t := Finished(s, ticket, outcome, half, composedAt);
    if project in ById(s.d.projects) && project in s.stamps {
      OthersComposeAsBefore(s.d, t.d, project, s.stamps[project]);
    }
  }

  lemma FinishedKeepsOwn(s: State, ticket: Ticket, outcome: Outcome, half: Half, composedAt: int)
    requires Inv(s) && ticket.key.PartKey? && ticket.key.project in ById(s.d.projects) && IsCurrent(s.d, ticket)
    ensures ProjectInv(Finished(s, ticket, outcome, half, composedAt), ticket.key.project)
  {
    hide Valid, KeyInv, ObserverInv, ById, Folded, AcceptedPart, Finished, ComposedNow, ShowsSince;
    var project := ticket.key.project;
    assert ProjectInv(s, project);
    FinishedShape(s, ticket, outcome, half, composedAt);
    var t, made := Finished(s, ticket, outcome, half, composedAt), Log(s.compositions, project);
    ComposedWhenAll(t.d, project, composedAt);
    if ComposedNow(t.d, project, composedAt).Some? {
      var next := ComposedNow(t.d, project, composedAt).value;
      MoreIsShown(made, next, Held(s.store, project), 1);
      if project in s.bound {
        MoreIsShown(made, next, Held(s.store, project), s.bound[project]);
      }
    }
  }

  lemma FinishedKeepsProjects(s: State, ticket: Ticket, outcome: Outcome, half: Half, composedAt: int, project: nat)
    requires Inv(s) && ticket.key.PartKey? && ticket.key.project in ById(s.d.projects)
    ensures ProjectInv(Finished(s, ticket, outcome, half, composedAt), project)
  {
    hide Valid, KeyInv, ObserverInv, ProjectInv, ById, Finished;
    if !IsCurrent(s.d, ticket) {
      SupersededChangesNothing(s, ticket, outcome, half, composedAt);
      assert ProjectInv(s, project);
    } else if project == ticket.key.project {
      FinishedKeepsOwn(s, ticket, outcome, half, composedAt);
    } else {
      FinishedKeepsOthers(s, ticket, outcome, half, composedAt, project);
    }
  }

  lemma MoreIsShown(made: seq<Project>, next: Project, held: Option<Project>, n: nat)
    ensures ShowsSince(made, held, n) ==> ShowsSince(made + [next], held, n)
  {
    if ShowsSince(made, held, n) {
      var k :| 0 <= k < |made| && n <= k + 1 && made[k] == held.value;
      assert (made + [next])[k] == held.value;
    }
  }

  lemma FinishedKeeps(s: State, ticket: Ticket, outcome: Outcome, half: Half, composedAt: int)
    requires Inv(s) && ticket.key.PartKey? && ticket.key.project in ById(s.d.projects) && ticket.key !in s.locks
    requires outcome.generation == ticket.generation
    requires half ==
      Observed(ticket.key.kind, Get(s.d.observations, ticket.key), outcome.at, outcome.answer, outcome.elapsed)
    ensures Inv(Finished(s, ticket, outcome, half, composedAt))
  {
    hide Valid, KeyInv, ObserverInv, ProjectInv, Observed, ComposedNow, ById, Finished;
    var t := Finished(s, ticket, outcome, half, composedAt);
    if IsCurrent(s.d, ticket) {
      FinishedShape(s, ticket, outcome, half, composedAt);
    } else {
      SupersededChangesNothing(s, ticket, outcome, half, composedAt);
    }
    forall key ensures KeyInv(t, key) {
      FinishedKeepsKeys(s, ticket, outcome, half, composedAt, key);
    }
    forall id ensures ObserverInv(t, id) {
      FinishedKeepsObservers(s, ticket, outcome, half, composedAt, id);
    }
    forall project ensures ProjectInv(t, project) {
      FinishedKeepsProjects(s, ticket, outcome, half, composedAt, project);
    }
  }

  lemma FinishKeeps(s: State, id: nat, at: int, answer: Answer, elapsed: nat, composedAt: int)
    requires Inv(s) && id in s.observers
    ensures Inv(Finishing(s, id, at, answer, elapsed, composedAt))
  {
    hide Valid, KeyInv, ProjectInv, Observed, Finished, ById;
    var ticket, phase := s.observers[id].ticket, s.observers[id].phase;
    if phase.Observing? && ticket.key.PartKey? && ticket.key.project in ById(s.d.projects) {
      assert ObserverInv(s, id);
      MoveKeeps(s, id, Returned(IsCurrent(s.d, ticket)));
      var half := Observed(ticket.key.kind, phase.previous, at, answer, elapsed);
      FinishedKeeps(ReturnedNow(s, id, IsCurrent(s.d, ticket)), ticket,
                    Outcome(ticket.generation, at, answer, elapsed), half, composedAt);
    }
  }

  lemma AcceptedAgentKeeps(s: State, ticket: Ticket, agent: AgentRuns)
    requires Inv(s) && ticket.key == AgentRunsKey && SeenInv(s, agent.seen)
    ensures Inv(s.(d := AcceptedAgent(s.d, ticket, agent)))
  {
    hide Valid, Folded, ById, Composed, ShowsSince;
    var t := s.(d := AcceptedAgent(s.d, ticket, agent));
    forall key ensures KeyInv(t, key) { assert KeyInv(s, key); }
    forall id ensures ObserverInv(t, id) { assert ObserverInv(s, id); }
    forall project ensures ProjectInv(t, project) { assert ProjectInv(s, project); }
  }

  lemma FinishAgentRunsKeeps(
    s: State, id: nat, runs: seq<Item>, issueRuns: map<nat, seq<nat>>, diagnostics: seq<Diagnostic>, elapsed: nat)
    requires Inv(s) && id in s.observers
    ensures Inv(FinishingAgentRuns(s, id, runs, issueRuns, diagnostics, elapsed))
  {
    hide Valid, KeyInv, ProjectInv;
    var ticket, phase := s.observers[id].ticket, s.observers[id].phase;
    if phase.Binding? {
      assert ObserverInv(s, id);
      MoveKeeps(s, id, Returned(IsCurrent(s.d, ticket)));
      AcceptedAgentKeeps(ReturnedNow(s, id, IsCurrent(s.d, ticket)), ticket,
                         AgentRuns(runs, issueRuns, diagnostics, elapsed, phase.seen));
    }
  }

  lemma {:induction false} ByIdIsOfTheProjects(projects: seq<Configured>, id: nat)
    ensures id in ById(projects) <==> exists k :: 0 <= k < |projects| && projects[k].id == id
    ensures id in ById(projects) ==> ById(projects)[id].id == id
  {
    if projects != [] {
      var n := |projects| - 1;
      ByIdIsOfTheProjects(projects[..n], id);
      assert projects[n].id == id ==> exists k :: 0 <= k < |projects| && projects[k].id == id;
      if id in ById(projects[..n]) {
        var k :| 0 <= k < n && projects[..n][k].id == id;
        assert projects[k].id == id;
      }
    }
  }

  lemma ComposedUnderTheirOwnIds(s: State)
    requires Inv(s)
    ensures UnderOwnIds(s.d)
  {
    hide Valid, KeyInv, ObserverInv, Unique, SnapshotOf, NeverObserved;
    forall id | id in s.d.composed ensures s.d.composed[id].configured.id == id {
      assert ProjectInv(s, id);
      ByIdIsOfTheProjects(s.d.projects, id);
    }
  }

  /** What a publish leaves of the coordinator, and of one Project in the store. */
  lemma PublishedShape(s: State, at: int, override: Option<nat>, project: nat)
    requires Inv(s)
    ensures var t := PublishedState(s, at, override);
      && t == s.(d := t.d, store := t.store, bound := t.bound)
      && t.d == s.d.(pending := t.d.pending, agentPending := t.d.agentPending)
      && t.d.pending in {s.d.pending, {}}
      && (t.bound == s.bound || (t.d.pending == {} && s.d.agent.Some? && t.bound == s.d.agent.value.seen))
      && (Held(t.store, project) == Held(s.store, project) ||
          (project in s.d.composed && Held(t.store, project) == Some(s.d.composed[project])))
      && (t.d.pending == {} && project in s.d.pending && project in s.d.composed && project in ById(s.d.projects) ==>
          Held(t.store, project) == Some(s.d.composed[project]))
  {
    hide Valid, KeyInv, ObserverInv, ProjectInv, PublishedFirst, ById, DistinctIds;
    ComposedUnderTheirOwnIds(s);
    PublishedHolds(s.d, s.store, |s.d.projects|, at, override, project);
    ByIdIsOfTheProjects(s.d.projects, project);
  }

  lemma PublishKeepsProject(s: State, at: int, override: Option<nat>, project: nat)
    requires Inv(s)
    ensures ProjectInv(PublishedState(s, at, override), project)
  {
    hide Valid, KeyInv, ObserverInv, PublishedState, Composed, ById;
    assert ProjectInv(s, project);
    PublishedShape(s, at, override, project);
    var t, made := PublishedState(s, at, override), Log(s.compositions, project);
    if made != [] {
      assert ShowsSince(made, Some(made[|made| - 1]), |made|);
    }
  }

  lemma PublishKeeps(s: State, at: int, override: Option<nat>)
    requires Inv(s)
    ensures Inv(PublishedState(s, at, override))
  {
    hide Valid, ById, Folded, PublishedState, ShowsSince, NeverDecreasing;
    var t := PublishedState(s, at, override);
    PublishedShape(s, at, override, 0);
    forall key ensures KeyInv(t, key) { assert KeyInv(s, key); }
    forall id ensures ObserverInv(t, id) { assert ObserverInv(s, id); }
    forall project ensures ProjectInv(t, project) { PublishKeepsProject(s, at, override, project); }
    assert Valid(t.store) by { PublishedIsValid(s, at, override); }
  }

  lemma PublishedIsValid(s: State, at: int, override: Option<nat>)
    requires Valid(s.store)
    ensures Valid(PublishedState(s, at, override).store)
  {
    hide Valid;
  }

  lemma StepKeeps(s: State, step: Step)
    requires Inv(s)
    ensures Inv(Apply(s, step))
  {
    hide Valid, KeyInv, ObserverInv, ProjectInv, SeenInv, Finishing, FinishingAgentRuns, PublishedState;
    match step
    case Request(keys) => RequestKeeps(s, keys);
    case Start(id, ticket) => StartKeeps(s, id, ticket);
    case Finish(id, at, answer, elapsed, composedAt) =>
      if id in s.observers { FinishKeeps(s, id, at, answer, elapsed, composedAt); }
    case FinishAgentRuns(id, runs, issueRuns, diagnostics, elapsed) =>
      if id in s.observers { FinishAgentRunsKeeps(s, id, runs, issueRuns, diagnostics, elapsed); }
    case Publish(at, override) => PublishKeeps(s, at, override);
    case _ => ObserverStepKeeps(s, step);
  }

  lemma InitialHolds(projects: seq<Configured>)
    ensures Inv(Initial(projects))
  {
  }

  lemma {:induction false} EveryRunKeeps(projects: seq<Configured>, steps: seq<Step>)
    ensures Inv(Run(projects, steps))
  {
    hide Inv, Apply, Initial;
    if steps == [] {
      InitialHolds(projects);
    } else {
      EveryRunKeeps(projects, steps[..|steps| - 1]);
      StepKeeps(Run(projects, steps[..|steps| - 1]), steps[|steps| - 1]);
    }
  }

  // -- What every run guarantees ---------------------------------------------------------------

  lemma FinishedAcceptsNoOlder(s: State, ticket: Ticket, outcome: Outcome, half: Half, composedAt: int, key: Key)
    requires KeyInv(s, key) && key in s.d.accepted && ticket.key.PartKey? && ticket.key.project in ById(s.d.projects)
    ensures var t := Finished(s, ticket, outcome, half, composedAt);
      key in t.d.accepted && s.d.accepted[key] <= t.d.accepted[key]
  {
    hide Finished, AcceptedPart, ById, Folded, ComposedNow;
    if IsCurrent(s.d, ticket) {
      FinishedShape(s, ticket, outcome, half, composedAt);
    } else {
      SupersededChangesNothing(s, ticket, outcome, half, composedAt);
    }
  }

  lemma FinishAcceptsNoOlder(s: State, id: nat, at: int, answer: Answer, elapsed: nat, composedAt: int, key: Key)
    requires Inv(s) && key in s.d.accepted && id in s.observers
    ensures var t := Finishing(s, id, at, answer, elapsed, composedAt);
      key in t.d.accepted && s.d.accepted[key] <= t.d.accepted[key]
  {
    hide Valid, ProjectInv, SeenInv, Folded, ById, Finished, Observed;
    assert ObserverInv(s, id);
    if s.observers[id].phase.Observing? && KeyOf(s, id).project in ById(s.d.projects) {
      var ticket, phase := s.observers[id].ticket, s.observers[id].phase;
      MoveKeeps(s, id, Returned(IsCurrent(s.d, ticket)));
      FinishedAcceptsNoOlder(ReturnedNow(s, id, IsCurrent(s.d, ticket)), ticket,
                             Outcome(ticket.generation, at, answer, elapsed),
                             Observed(ticket.key.kind, phase.previous, at, answer, elapsed), composedAt, key);
    }
  }

  lemma StepAcceptsNoOlder(s: State, step: Step, key: Key)
    requires Inv(s) && key in s.d.accepted
    ensures var t := Apply(s, step); key in t.d.accepted && s.d.accepted[key] <= t.d.accepted[key]
  {
    hide Valid, ObserverInv, ProjectInv, SeenInv, Folded, PublishedState, ById, Finishing;
    assert KeyInv(s, key);
    match step
    case Request(keys) => RequestedKeeps(s.d, keys, key);
    case Publish(at, override) => PublishedShape(s, at, override, 0);
    case Finish(id, at, answer, elapsed, composedAt) =>
      if id in s.observers { FinishAcceptsNoOlder(s, id, at, answer, elapsed, composedAt, key); }
    case _ =>
  }

  /** A late result never overwrites a newer one: what a key accepted last only ever gets newer. */
  lemma {:induction false} AcceptedNeverDecreases(s: State, later: seq<Step>, key: Key)
    requires Inv(s) && key in s.d.accepted
    ensures var t := RunFrom(s, later); Inv(t) && key in t.d.accepted && s.d.accepted[key] <= t.d.accepted[key]
  {
    hide Valid, KeyInv, ObserverInv, ProjectInv, SeenInv, Apply;
    if later != [] {
      AcceptedNeverDecreases(s, later[..|later| - 1], key);
      var t := RunFrom(s, later[..|later| - 1]);
      StepKeeps(t, later[|later| - 1]);
      StepAcceptsNoOlder(t, later[|later| - 1], key);
    }
  }

  /** A key's lock is taken by a waiter that finds it free, and given back however the observation ends:
      with a result, with one come too late, or with an exception. */
  lemma LockIsTakenAndGivenBack(s: State, id: nat, end: Step)
    requires Inv(s) && id in s.observers && (end.Raise? || end.Finish? || end.FinishAgentRuns?) && end.id == id
    requires end.Finish? ==>
      s.observers[id].phase.Observing? && KeyOf(s, id).PartKey? && KeyOf(s, id).project in ById(s.d.projects)
    requires end.FinishAgentRuns? ==> s.observers[id].phase.Binding?
    ensures s.observers[id].phase == Waiting && KeyOf(s, id) !in s.locks ==>
      var t := Apply(s, Acquire(id));
      id in t.observers && t.observers[id].phase == Locked && KeyOf(s, id) in t.locks
    ensures HoldsLock(s.observers[id].phase) ==>
      var t := Apply(s, end);
      id in t.observers && t.observers[id].phase.Returned? && KeyOf(s, id) !in t.locks
  {
    hide Valid, KeyInv, ProjectInv, SeenInv, ById, PublishedState, Looked, Finished, Observed;
    assert ObserverInv(s, id);
    if end.Finish? {
      var ticket, phase := s.observers[id].ticket, s.observers[id].phase;
      FinishedMovesNone(ReturnedNow(s, id, IsCurrent(s.d, ticket)), ticket,
                        Outcome(ticket.generation, end.at, end.answer, end.elapsed),
                        Observed(ticket.key.kind, phase.previous, end.at, end.answer, end.elapsed), end.composedAt);
    }
  }

  /** An observer that has not checked its ticket yet, and whose ticket has been superseded. */
  predicate Superseded(s: State, id: nat) {
    && id in s.observers && s.observers[id].phase in {Waiting, Locked, Returned(false)}
    && s.observers[id].ticket.generation < GenerationOf(s.d, s.observers[id].ticket.key)
  }

  /** An observer's own steps, short of a finish: none takes a superseded one past its check. */
  lemma OwnStepLeavesSuperseded(s: State, step: Step, id: nat)
    requires ObserverInv(s, id) && Superseded(s, id) && Valid(s.store)
    requires step.Acquire? || step.Check? || step.Look? || step.Raise? || step.Start? || step.FinishAgentRuns?
    ensures Superseded(Apply(s, step), id)
  {
    hide Valid, SeenInv, PublishedState, Looked, Finishing, Requested, AcceptedAgent;
    AcceptedAgentKeepsGenerations(s.d);
  }

  lemma AcceptedAgentKeepsGenerations(d: Data)
    ensures forall ticket, agent :: AcceptedAgent(d, ticket, agent).generations == d.generations
  {
  }

  lemma StepLeavesSuperseded(s: State, step: Step, id: nat)
    requires Inv(s) && Superseded(s, id)
    ensures Superseded(Apply(s, step), id)
  {
    hide Valid, KeyInv, ObserverInv, ProjectInv, SeenInv;
    hide Finishing, FinishingAgentRuns, PublishedState, Looked, Requested, Acquired, Checking;
    match step
    case Request(keys) => RequestedKeeps(s.d, keys, s.observers[id].ticket.key);
    case Publish(at, override) => PublishedShape(s, at, override, 0);
    case Finish(other, at, answer, elapsed, composedAt) =>
      if other in s.observers { FinishingMovesOne(s, other, at, answer, elapsed, composedAt, id); }
    case _ => OwnStepLeavesSuperseded(s, step, id);
  }

  lemma FinishedMovesNone(s: State, ticket: Ticket, outcome: Outcome, half: Half, composedAt: int)
    requires ticket.key.PartKey? && ticket.key.project in ById(s.d.projects)
    ensures var t := Finished(s, ticket, outcome, half, composedAt);
      t.d.generations == s.d.generations && t.observers == s.observers && t.locks == s.locks
  {
    hide ById, ComposedNow, Finished, AcceptedPart;
    if IsCurrent(s.d, ticket) {
      FinishedShape(s, ticket, outcome, half, composedAt);
    } else {
      SupersededChangesNothing(s, ticket, outcome, half, composedAt);
    }
  }

  lemma FinishingMovesOne(s: State, other: nat, at: int, answer: Answer, elapsed: nat, composedAt: int, id: nat)
    requires other in s.observers && id in s.observers
    ensures var t := Finishing(s, other, at, answer, elapsed, composedAt);
      && t.d.generations == s.d.generations
      && id in t.observers && t.observers[id].ticket == s.observers[id].ticket
      && (other != id || !s.observers[id].phase.Observing? ==> t.observers[id] == s.observers[id])
  {
    hide ById, Finished, Observed;
    var ticket, phase := s.observers[other].ticket, s.observers[other].phase;
    if phase.Observing? && ticket.key.PartKey? && ticket.key.project in ById(s.d.projects) {
      FinishedMovesNone(ReturnedNow(s, other, IsCurrent(s.d, ticket)), ticket,
                        Outcome(ticket.generation, at, answer, elapsed),
                        Observed(ticket.key.kind, phase.previous, at, answer, elapsed), composedAt);
    }
  }

  /** A superseded observer is never begun: from when its key is asked for again it waits, or returns
      without having observed. */
  lemma {:induction false} SupersededNeverObserves(s: State, later: seq<Step>, id: nat)
    requires Inv(s) && Superseded(s, id)
    ensures Inv(RunFrom(s, later)) && Superseded(RunFrom(s, later), id)
  {
    hide Valid, KeyInv, ObserverInv, ProjectInv, SeenInv, Apply, Superseded;
    if later != [] {
      SupersededNeverObserves(s, later[..|later| - 1], id);
      StepKeeps(RunFrom(s, later[..|later| - 1]), later[|later| - 1]);
      StepLeavesSuperseded(RunFrom(s, later[..|later| - 1]), later[|later| - 1], id);
    }
  }

  function Accepted(s: State, kind: Kind, project: nat): seq<Outcome> { Log(s.history, PartKey(kind, project)) }

  predicate AllAccepted(s: State, project: nat) {
    Accepted(s, Issues, project) != [] && Accepted(s, PullRequests, project) != [] && Accepted(s, Targets, project) != []
  }

  /** A Project made of all that its three keys have accepted. */
  function FoldedProject(s: State, project: nat, at: int): Option<Project>
    requires project in ById(s.d.projects)
  {
    Composed(ById(s.d.projects)[project],
             Folded(Issues, Accepted(s, Issues, project)),
             Folded(PullRequests, Accepted(s, PullRequests, project)),
             Folded(Targets, Accepted(s, Targets, project)),
             at)
  }

  lemma ComposedOfAllAccepted(s: State, project: nat)
    requires Inv(s)
    ensures project in s.d.composed <==> AllAccepted(s, project)
    ensures project in s.d.composed ==>
      && project in ById(s.d.projects) && project in s.stamps
      && FoldedProject(s, project, s.stamps[project]) == Some(s.d.composed[project])
  {
    hide Valid, ObserverInv, ById, Composed, Observed, NeverDecreasing, ShowsSince;
    assert ProjectInv(s, project);
    assert KeyInv(s, PartKey(Issues, project)) && KeyInv(s, PartKey(PullRequests, project));
    assert KeyInv(s, PartKey(Targets, project));
  }

  /** The store shows no Project before all three of its parts have been accepted. */
  lemma ShownOnlyOnceWhole(projects: seq<Configured>, steps: seq<Step>, project: nat)
    ensures var s := Run(projects, steps); Held(s.store, project).Some? ==> AllAccepted(s, project)
  {
    hide Valid, KeyInv, ObserverInv, Run, ById, FoldedProject, ComposedNow, AllAccepted;
    EveryRunKeeps(projects, steps);
    ComposedOfAllAccepted(Run(projects, steps), project);
    assert ProjectInv(Run(projects, steps), project);
  }

  ghost predicate Succeeds(s: State, at: int, override: Option<nat>)
    requires Valid(s.store)
  {
    Published(s.d, s.store, at, override).2
  }

  ghost predicate AllPublishable(d: Data) {
    forall project :: project in d.pending && project in d.composed ==> Publishable(d.composed[project])
  }

  lemma ComposedAreConfigured(s: State, project: nat)
    requires Inv(s) && project in s.d.composed
    ensures exists k :: 0 <= k < |s.d.projects| && s.d.projects[k].id == project
  {
    hide Valid, KeyInv, ObserverInv, ById, ComposedNow, ShowsSince;
    assert ProjectInv(s, project);
    ByIdIsOfTheProjects(s.d.projects, project);
  }

  /** A publish goes through exactly when nothing pending repeats an identity; when a composition
      does, every one of them stays pending. */
  lemma PublishGoesThrough(projects: seq<Configured>, steps: seq<Step>, at: int, override: Option<nat>)
    ensures var s := Run(projects, steps);
      && (Succeeds(s, at, override) <==>
          AllPublishable(s.d) && (s.d.agentPending && s.d.agent.Some? ==> DistinctIds(s.d.agent.value.runs)))
      && (!AllPublishable(s.d) ==> Apply(s, Publish(at, override)).d == s.d)
  {
    var s := Run(projects, steps);
    EveryRunKeeps(projects, steps);
    hide Valid, Inv, PublishedFirst, DistinctIds, Publishable, Run;
    hide Finishing, FinishingAgentRuns, Looked, Acquired, Checking, Requested;
    ComposedUnderTheirOwnIds(s);
    PublishedUnlessDuplicated(s.d, s.store, |s.d.projects|, at, override);
    forall project | project in s.d.pending && project in s.d.composed
      ensures exists k :: 0 <= k < |s.d.projects| && s.d.projects[k].id == project
    {
      ComposedAreConfigured(s, project);
    }
    assert AllPublishable(s.d) <==>
      forall k :: 0 <= k < |s.d.projects| && IsPending(s.d, s.d.projects[k].id) ==>
        Publishable(s.d.composed[s.d.projects[k].id]);
  }

  lemma IndexesAreRebuilt(s: StoreState)
    requires Valid(s)
    ensures s.indexes == IndexesOf(s.projects)
  {
  }

  /** The store holds a Project made of everything each of its parts accepted, under a full rebuild
      of its indexes. */
  ghost predicate HoldsTheLatest(s: State, store: StoreState, project: nat) {
    && project in ById(s.d.projects) && project in s.stamps
    && Held(store, project).Some? && Held(store, project) == FoldedProject(s, project, s.stamps[project])
    && Complete(store.projects) && store.indexes == IndexesOf(store.projects)
  }

  lemma PublishHoldsTheLatest(s: State, at: int, override: Option<nat>, project: nat)
    requires Inv(s)
    ensures Succeeds(s, at, override) && AllAccepted(s, project) ==>
      HoldsTheLatest(s, Apply(s, Publish(at, override)).store, project)
  {
    hide Valid, KeyInv, ObserverInv, SeenInv, ById, FoldedProject;
    hide PublishedFirst, IndexesOf, Ordered, NoDuplicates, Composed;
    ComposedOfAllAccepted(s, project);
    assert ProjectInv(s, project);
    PublishedShape(s, at, override, project);
    var t := Apply(s, Publish(at, override));
    ValidIsComplete(t.store);
    IndexesAreRebuilt(t.store);
  }

  lemma ValidIsComplete(s: StoreState)
    requires Valid(s)
    ensures Complete(s.projects)
  {
  }

  /** Right after a publish the store holds every Project whose parts have all been accepted, made of
      everything each part accepted, in order; and its indexes are a full rebuild. */
  lemma PublishedIsTheLatest(projects: seq<Configured>, steps: seq<Step>, at: int, override: Option<nat>, project: nat)
    ensures var s := Run(projects, steps);
      Succeeds(s, at, override) && AllAccepted(s, project) ==>
        HoldsTheLatest(s, Apply(s, Publish(at, override)).store, project)
  {
    hide Valid, KeyInv, ObserverInv, ProjectInv, SeenInv, Apply, HoldsTheLatest, AllAccepted, Succeeds;
    EveryRunKeeps(projects, steps);
    PublishHoldsTheLatest(Run(projects, steps), at, override, project);
  }

  /** The targets shown are the latest success among `outcomes`: fresh exactly when the last attempt
      succeeded, and unavailable exactly when none ever did. */
  ghost predicate ShowsLatestTargets(shown: Project, outcomes: seq<Outcome>)
    requires outcomes != []
  {
    var success := LatestSuccess(outcomes);
    match shown.snapshot
    case None => success.None?
    case Some(snapshot) =>
      && (snapshot.targetStatus == Fresh <==> outcomes[|outcomes| - 1].answer.Read?)
      && (snapshot.targetStatus == Unavailable <==> success.None?)
      && snapshot.targetLastGoodAt == (if success.Some? then Some(success.value.at) else None)
      && snapshot.targets == (if success.Some? then success.value.answer.payload.items else [])
      && snapshot.branches == (if success.Some? then success.value.answer.payload.branches else [])
  }

  lemma LatestTargetsAreShown(s: State, store: StoreState, project: nat)
    requires AllAccepted(s, project) && HoldsTheLatest(s, store, project)
    ensures ShowsLatestTargets(Held(store, project).value, Accepted(s, Targets, project))
  {
    hide Folded, Valid, ById, Unique, LatestSuccess, IndexesOf, Complete;
    TargetsCarryTheirLatestSuccess(Accepted(s, Targets, project));
    NoSuccessMeansNone(Accepted(s, Targets, project));
  }

  /** What the store then shows of a Project's targets is their latest success. */
  lemma PublishedTargetsAreTheLatestSuccess(
    projects: seq<Configured>, steps: seq<Step>, at: int, override: Option<nat>, project: nat)
    ensures var s := Run(projects, steps);
      var held := Held(Apply(s, Publish(at, override)).store, project);
      Succeeds(s, at, override) && AllAccepted(s, project) ==>
        held.Some? && ShowsLatestTargets(held.value, Accepted(s, Targets, project))
  {
    hide Run, Apply, Succeeds, Valid, ById, FoldedProject, IndexesOf, Complete, ShowsLatestTargets;
    PublishedIsTheLatest(projects, steps, at, override, project);
    var s := Run(projects, steps);
    if Succeeds(s, at, override) && AllAccepted(s, project) {
      LatestTargetsAreShown(s, Apply(s, Publish(at, override)).store, project);
    }
  }

  /** The Agent Runs in the store were never bound against a composition newer than the store shows. */
  lemma BindingsAreNeverAhead(projects: seq<Configured>, steps: seq<Step>, project: nat)
    ensures var s := Run(projects, steps);
      project in s.bound ==> ShowsSince(Log(s.compositions, project), Held(s.store, project), s.bound[project])
  {
    hide Valid, KeyInv, ObserverInv, Run, ById, ComposedNow;
    EveryRunKeeps(projects, steps);
    assert ProjectInv(Run(projects, steps), project);
  }
}
