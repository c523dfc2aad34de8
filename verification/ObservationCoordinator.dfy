/** What the coordinator's state lock protects: generations, accepted parts, and what is still to publish. */
module ObservationCoordinator {
  import opened Wrappers
  import opened ObservationParts
  import opened ObservationStore

  datatype Key = PartKey(kind: Kind, project: nat) | AgentRunsKey

  datatype Ticket = Ticket(key: Key, generation: nat)

  /** Observed Agent Runs. `seen` is the history: how many compositions of each Project had been
      made when they were observed. */
  datatype AgentRuns = AgentRuns(
    runs: seq<Item>,
    issueRuns: map<nat, seq<nat>>,
    diagnostics: seq<Diagnostic>,
    elapsed: nat,
    seen: map<nat, nat>)

  datatype Data = Data(
    projects: seq<Configured>,
    generations: map<Key, nat>,
    accepted: map<Key, nat>,
    observations: map<Key, Half>,
    composed: map<nat, Project>,
    pending: set<nat>,
    agent: Option<AgentRuns>,
    agentPending: bool)

  function Initially(projects: seq<Configured>): Data {
    Data(projects, map[], map[], map[], map[], {}, None, false)
  }

  function ById(projects: seq<Configured>): map<nat, Configured> {
    if projects == [] then map[]
    else ById(projects[..|projects| - 1])[projects[|projects| - 1].id := projects[|projects| - 1]]
  }

  function Get(observations: map<Key, Half>, key: Key): Option<Half> {
    if key in observations then Some(observations[key]) else None
  }

  // -- Request, and accepting what comes back ----------------------------------------------------

  function GenerationOf(d: Data, key: Key): nat { if key in d.generations then d.generations[key] else 0 }

  function Requested(d: Data, keys: seq<Key>): Data {
    if keys == [] then d
    else
      var before := Requested(d, keys[..|keys| - 1]);
      var key := keys[|keys| - 1];
      before.(generations := before.generations[key := GenerationOf(before, key) + 1])
  }

  function TicketsOf(d: Data, keys: seq<Key>): seq<Ticket> {
    if keys == [] then []
    else
      var before, key := keys[..|keys| - 1], keys[|keys| - 1];
      TicketsOf(d, before) + [Ticket(key, GenerationOf(Requested(d, before), key) + 1)]
  }

  lemma OneMoreRequested(d: Data, keys: seq<Key>, i: nat)
    requires i < |keys|
    ensures var before, generation := Requested(d, keys[..i]), GenerationOf(Requested(d, keys[..i]), keys[i]) + 1;
      && Requested(d, keys[..i + 1]) == before.(generations := before.generations[keys[i] := generation])
      && TicketsOf(d, keys[..i + 1]) == TicketsOf(d, keys[..i]) + [Ticket(keys[i], generation)]
  {
    assert keys[..i + 1][..i] == keys[..i];
  }

  lemma NoneRequested(d: Data)
    ensures Requested(d, []) == d && TicketsOf(d, []) == []
  {
  }

  predicate IsCurrent(d: Data, ticket: Ticket) {
    ticket.key in d.generations && d.generations[ticket.key] == ticket.generation
  }

  function ComposedNow(d: Data, id: nat, at: int): Option<Project>
    requires id in ById(d.projects)
  {
    Composed(ById(d.projects)[id],
             Get(d.observations, PartKey(Issues, id)),
             Get(d.observations, PartKey(PullRequests, id)),
             Get(d.observations, PartKey(Targets, id)),
             at)
  }

  /** Accept a part under the state lock, unless a newer request has superseded it. */
  function AcceptedPart(d: Data, ticket: Ticket, half: Half, at: int): Data
    requires ticket.key.PartKey? && ticket.key.project in ById(d.projects)
  {
    if !IsCurrent(d, ticket) then d
    else
      var id := ticket.key.project;
      var next := d.(accepted := d.accepted[ticket.key := ticket.generation],
                     observations := d.observations[ticket.key := half]);
      match ComposedNow(next, id, at)
      case None => next
      case Some(project) => next.(composed := next.composed[id := project], pending := next.pending + {id})
  }

  function AcceptedAgent(d: Data, ticket: Ticket, agent: AgentRuns): Data {
    if !IsCurrent(d, ticket) then d
    else d.(accepted := d.accepted[ticket.key := ticket.generation], agent := Some(agent), agentPending := true)
  }

  /** Every ticket of one request is numbered past all earlier ones of its key, and each key's last
      ticket is the current one. */
  lemma {:induction false} LastTicketIsCurrent(d: Data, keys: seq<Key>, key: Key)
    ensures GenerationOf(Requested(d, keys), key) >= GenerationOf(d, key)
    ensures forall ticket :: ticket in TicketsOf(d, keys) && ticket.key == key ==>
      GenerationOf(d, key) < ticket.generation <= GenerationOf(Requested(d, keys), key)
    ensures key in keys ==>
      exists ticket :: ticket in TicketsOf(d, keys) && ticket.key == key && IsCurrent(Requested(d, keys), ticket)
  {
    if keys != [] {
      var before, last := keys[..|keys| - 1], keys[|keys| - 1];
      LastTicketIsCurrent(d, before, key);
      var ticket := Ticket(last, GenerationOf(Requested(d, before), last) + 1);
      assert TicketsOf(d, keys)[|TicketsOf(d, before)|] == ticket;
      assert keys == before + [last];
      if last == key {
        assert ticket in TicketsOf(d, keys) && IsCurrent(Requested(d, keys), ticket);
      } else if key in keys {
        var earlier :| earlier in TicketsOf(d, before) && earlier.key == key && IsCurrent(Requested(d, before), earlier);
        assert earlier in TicketsOf(d, keys);
      }
    }
  }

  // -- Publishing --------------------------------------------------------------------------------

  predicate IsPending(d: Data, id: nat) { id in d.pending && id in d.composed }

  type Progress = (StoreState, bool)

  /** Publish one Project if it is pending, unless an earlier one was refused. */
  ghost function PublishedNext(d: Data, before: Progress, id: nat, at: int, elapsed: Option<nat>): (after: Progress)
    requires Valid(before.0)
    ensures Valid(after.0)
  {
    if !before.1 || !IsPending(d, id) then before
    else if !NoDuplicates(Put(before.0.projects, d.composed[id])) then (before.0, false)
    else
      ReplacedProjectIsValid(before.0, d.composed[id], at, elapsed.GetOr(d.composed[id].elapsed));
      (ReplacedProject(before.0, d.composed[id], at, elapsed.GetOr(d.composed[id].elapsed)), true)
  }

  /** The store after the first `n` configured Projects, and whether none was refused. */
  ghost function PublishedFirst(d: Data, s: StoreState, n: nat, at: int, elapsed: Option<nat>): (after: Progress)
    requires n <= |d.projects| && Valid(s)
    ensures Valid(after.0)
  {
    hide Valid, NoDuplicates;
    if n == 0 then (s, true)
    else PublishedNext(d, PublishedFirst(d, s, n - 1, at, elapsed), d.projects[n - 1].id, at, elapsed)
  }

  /** What a publish leaves, and whether it went through: a refused composition ends it with
      everything still pending, refused Agent Runs with only those still pending. */
  ghost function Published(d: Data, s: StoreState, at: int, elapsed: Option<nat>): (Data, StoreState, bool)
    requires Valid(s)
    ensures Valid(Published(d, s, at, elapsed).1)
  {
    var (after, ok) := PublishedFirst(d, s, |d.projects|, at, elapsed);
    var cleared := d.(pending := {});
    if !ok then (d, after, false)
    else if !d.agentPending || d.agent.None? then (cleared, after, true)
    else
      var agent := d.agent.value;
      if !DistinctIds(agent.runs) then (cleared, after, false)
      else (cleared.(agentPending := false),
            ReplacedAgentRuns(after, agent.runs, agent.issueRuns, Some(agent.diagnostics), at,
                              elapsed.GetOr(agent.elapsed)),
            true)
  }

  /** No Issue, Pull Request, target or branch of the Project repeats an identity. */
  ghost predicate Publishable(project: Project) {
    match project.snapshot
    case None => true
    case Some(snapshot) =>
      && DistinctIds(snapshot.issues) && DistinctIds(snapshot.pullRequests)
      && DistinctIds(snapshot.targets) && DistinctIds(snapshot.branches)
  }

  lemma PublishableParts(project: Project)
    ensures Publishable(project) <==> forall part: Part :: DistinctIds(ItemsOf(project, part))
  {
    hide DistinctIds;
    if (forall part: Part :: DistinctIds(ItemsOf(project, part))) && project.snapshot.Some? {
      assert DistinctIds(ItemsOf(project, IssuePart)) && DistinctIds(ItemsOf(project, PullRequestPart));
      assert DistinctIds(ItemsOf(project, TargetPart)) && DistinctIds(ItemsOf(project, BranchPart));
    }
    if project.snapshot.None? { NothingRepeats(); }
  }

  lemma NothingRepeats()
    ensures DistinctIds([])
  {
  }

  /** One Project goes through exactly when it repeats no identity, and then the store holds it;
      no other Project, and nothing else, is touched. */
  lemma NextPublishes(d: Data, before: Progress, id: nat, at: int, elapsed: Option<nat>, other: nat)
    requires Valid(before.0) && (id in d.composed ==> d.composed[id].configured.id == id)
    ensures var after := PublishedNext(d, before, id, at, elapsed);
      && (after.1 <==> before.1 && (IsPending(d, id) ==> Publishable(d.composed[id])))
      && (!before.1 ==> after == before)
      && Held(after.0, other) ==
         (if after.1 && IsPending(d, id) && other == id then Some(d.composed[id]) else Held(before.0, other))
      && after.0.agentRuns == before.0.agentRuns && after.0.issueRuns == before.0.issueRuns
      && after.0.diagnostics == before.0.diagnostics
  {
    hide DistinctIds, IndexesOf, Ordered, Publishable;
    if IsPending(d, id) {
      OnlyItsOwnDuplicatesRefuse(before.0.projects, d.composed[id]);
      PublishableParts(d.composed[id]);
    }
  }

  ghost predicate UnderOwnIds(d: Data) {
    forall id :: id in d.composed ==> d.composed[id].configured.id == id
  }

  /** Exactly the compositions that repeat no identity are let through. */
  lemma {:induction false} PublishedUnlessDuplicated(d: Data, s: StoreState, n: nat, at: int, elapsed: Option<nat>)
    requires n <= |d.projects| && Valid(s) && UnderOwnIds(d)
    ensures PublishedFirst(d, s, n, at, elapsed).1 <==>
      forall k :: 0 <= k < n && IsPending(d, d.projects[k].id) ==> Publishable(d.composed[d.projects[k].id])
  {
    hide Valid, Publishable, PublishedNext;
    if n > 0 {
      PublishedUnlessDuplicated(d, s, n - 1, at, elapsed);
      NextPublishes(d, PublishedFirst(d, s, n - 1, at, elapsed), d.projects[n - 1].id, at, elapsed, 0);
    }
  }

  /** Every pending one of the first `n` configured Projects repeats no identity. */
  ghost predicate NoneRefused(d: Data, n: nat)
    requires n <= |d.projects|
  {
    forall k :: 0 <= k < n && IsPending(d, d.projects[k].id) ==> Publishable(d.composed[d.projects[k].id])
  }

  /** A pending Project among the first `n`, configured before the first that is refused. */
  ghost predicate GoesThrough(d: Data, n: nat, id: nat)
    requires n <= |d.projects|
  {
    IsPending(d, id) && exists k :: 0 <= k < n && d.projects[k].id == id && NoneRefused(d, k + 1)
  }

  /** However far it got, the store holds as now composed exactly the pending Projects configured
      before the first refused, and every other as it did; so all pending ones when none was refused. */
  lemma {:induction false} PublishedHolds(d: Data, s: StoreState, n: nat, at: int, elapsed: Option<nat>, id: nat)
    requires n <= |d.projects| && Valid(s) && UnderOwnIds(d)
    ensures var (after, ok) := PublishedFirst(d, s, n, at, elapsed);
      && (ok <==> NoneRefused(d, n))
      && Held(after, id) == (if GoesThrough(d, n, id) then Some(d.composed[id]) else Held(s, id))
    ensures NoneRefused(d, n) && IsPending(d, id) && (exists k :: 0 <= k < n && d.projects[k].id == id) ==>
      GoesThrough(d, n, id)
  {
    hide Valid, Publishable, PublishedNext, UnderOwnIds;
    PublishedUnlessDuplicated(d, s, n, at, elapsed);
    if n > 0 {
      PublishedHolds(d, s, n - 1, at, elapsed, id);
      PublishedUnlessDuplicated(d, s, n - 1, at, elapsed);
      assert UnderOwn(d, d.projects[n - 1].id) by { OwnId(d, d.projects[n - 1].id); }
      NextPublishes(d, PublishedFirst(d, s, n - 1, at, elapsed), d.projects[n - 1].id, at, elapsed, id);
      OneMoreGoesThrough(d, n, id);
    }
  }

  predicate UnderOwn(d: Data, id: nat) { id in d.composed ==> d.composed[id].configured.id == id }

  lemma OwnId(d: Data, id: nat)
    requires UnderOwnIds(d)
    ensures UnderOwn(d, id)
  {
  }

  lemma OneMoreGoesThrough(d: Data, n: nat, id: nat)
    requires 0 < n <= |d.projects|
    ensures GoesThrough(d, n, id) <==>
      GoesThrough(d, n - 1, id) || (IsPending(d, id) && d.projects[n - 1].id == id && NoneRefused(d, n))
  {
    hide NoneRefused;
  }

  function Held(s: StoreState, id: nat): Option<Project> {
    if id in s.projects.byId then Some(s.projects.byId[id]) else None
  }

  /** Publishing Projects leaves the Agent Runs in the store alone. */
  lemma {:induction false} PublishedKeepsAgentRuns(d: Data, s: StoreState, n: nat, at: int, elapsed: Option<nat>)
    requires n <= |d.projects| && Valid(s) && UnderOwnIds(d)
    ensures var after := PublishedFirst(d, s, n, at, elapsed).0;
      after.agentRuns == s.agentRuns && after.issueRuns == s.issueRuns && after.diagnostics == s.diagnostics
  {
    hide Valid, Publishable, PublishedNext;
    if n > 0 {
      PublishedKeepsAgentRuns(d, s, n - 1, at, elapsed);
      NextPublishes(d, PublishedFirst(d, s, n - 1, at, elapsed), d.projects[n - 1].id, at, elapsed, 0);
    }
  }

  lemma {:induction false} StaysRefused(d: Data, s: StoreState, n: nat, m: nat, at: int, elapsed: Option<nat>)
    requires n <= m <= |d.projects| && Valid(s) && !PublishedFirst(d, s, n, at, elapsed).1
    ensures PublishedFirst(d, s, m, at, elapsed) == PublishedFirst(d, s, n, at, elapsed)
  {
    hide Valid, NoDuplicates, ReplacedProject;
    if m > n {
      StaysRefused(d, s, n, m - 1, at, elapsed);
    }
  }

  // -- What a publish reports --------------------------------------------------------------------

  /** One change for each Project published among the first `n`. */
  ghost function ReportsFirst(d: Data, s: StoreState, n: nat, at: int, elapsed: Option<nat>): seq<set<nat>>
    requires n <= |d.projects| && Valid(s)
  {
    hide Valid;
    if n == 0 then []
    else
      var before, after := PublishedFirst(d, s, n - 1, at, elapsed), PublishedFirst(d, s, n, at, elapsed);
      var reports := ReportsFirst(d, s, n - 1, at, elapsed);
      if after.1 && IsPending(d, d.projects[n - 1].id)
      then reports + [ChangeBetween(before.0.projects, after.0.projects)]
      else reports
  }

  /** The changes a publish that goes through returns. */
  ghost function Reports(d: Data, s: StoreState, at: int, elapsed: Option<nat>): seq<set<nat>>
    requires Valid(s)
  {
    ReportsFirst(d, s, |d.projects|, at, elapsed) + if d.agentPending && d.agent.Some? then [{}] else []
  }

  predicate Names(changes: seq<set<nat>>, id: nat) { exists k :: 0 <= k < |changes| && id in changes[k] }

  lemma NamesOneMore(changes: seq<set<nat>>, change: set<nat>, id: nat)
    ensures Names(changes + [change], id) <==> Names(changes, id) || id in change
  {
    if id in change {
      assert (changes + [change])[|changes|] == change;
    }
    if Names(changes, id) {
      var k :| 0 <= k < |changes| && id in changes[k];
      assert (changes + [change])[k] == changes[k];
    }
  }

  lemma SameHeldSameFacts(s: StoreState, t: StoreState, id: nat)
    ensures Held(s, id) == Held(t, id) ==> ProjectionOf(s.projects, id) == ProjectionOf(t.projects, id)
  {
  }

  lemma {:induction false} FirstReportsAreExact(d: Data, s: StoreState, n: nat, at: int, elapsed: Option<nat>, id: nat)
    requires n <= |d.projects| && Valid(s) && UnderOwnIds(d) && NoneRefused(d, n)
    ensures Names(ReportsFirst(d, s, n, at, elapsed), id) <==>
      ProjectionOf(s.projects, id) != ProjectionOf(PublishedFirst(d, s, n, at, elapsed).0.projects, id)
  {
    hide Valid, Publishable, PublishedFirst, ProjectionOf, ChangeBetween, Names;
    PublishedHolds(d, s, n, at, elapsed, id);
    if n == 0 {
      NothingPublished(d, s, at, elapsed, id);
    } else {
      FirstReportsAreExact(d, s, n - 1, at, elapsed, id);
      PublishedHolds(d, s, n - 1, at, elapsed, id);
      OneMoreGoesThrough(d, n, id);
      var before, after := PublishedFirst(d, s, n - 1, at, elapsed).0, PublishedFirst(d, s, n, at, elapsed).0;
      ReportedIfChanged(before.projects, after.projects, id);
      NamesOneMore(ReportsFirst(d, s, n - 1, at, elapsed), ChangeBetween(before.projects, after.projects), id);
      SameHeldSameFacts(before, after, id);
      SameHeldSameFacts(s, before, id);
    }
  }

  lemma NothingPublished(d: Data, s: StoreState, at: int, elapsed: Option<nat>, id: nat)
    requires Valid(s)
    ensures PublishedFirst(d, s, 0, at, elapsed).0 == s && !Names(ReportsFirst(d, s, 0, at, elapsed), id)
  {
    hide Valid;
  }

  /** A publish that goes through names exactly the Projects whose binding facts it changed. */
  lemma ReportsAreExact(d: Data, s: StoreState, at: int, elapsed: Option<nat>, id: nat)
    requires Valid(s) && UnderOwnIds(d) && Published(d, s, at, elapsed).2
    ensures Names(Reports(d, s, at, elapsed), id) <==>
      ProjectionOf(s.projects, id) != ProjectionOf(Published(d, s, at, elapsed).1.projects, id)
  {
    hide Valid, PublishedFirst, ProjectionOf, ReportsFirst, Names, UnderOwnIds, DistinctIds, NoneRefused;
    PublishedHolds(d, s, |d.projects|, at, elapsed, id);
    FirstReportsAreExact(d, s, |d.projects|, at, elapsed, id);
    NamesOneMore(ReportsFirst(d, s, |d.projects|, at, elapsed), {}, id);
    assert ReportsFirst(d, s, |d.projects|, at, elapsed) + [] == ReportsFirst(d, s, |d.projects|, at, elapsed);
  }

  /** A publish that is refused reports nothing, and yet has changed a fact that binding reads exactly
      for the pending Projects configured before the first refused whose composition differs in one
      from what the store showed. It leaves the Agent Runs alone. */
  lemma RefusedPublishChangesUnreported(d: Data, s: StoreState, at: int, elapsed: Option<nat>, id: nat)
    requires Valid(s) && UnderOwnIds(d) && !Published(d, s, at, elapsed).2
    ensures var after := Published(d, s, at, elapsed).1;
      && (ProjectionOf(s.projects, id) != ProjectionOf(after.projects, id) <==>
          GoesThrough(d, |d.projects|, id) &&
          ProjectionOf(s.projects, id) != ProjectionOf(Put(s.projects, d.composed[id]), id))
      && after.agentRuns == s.agentRuns && after.issueRuns == s.issueRuns && after.diagnostics == s.diagnostics
  {
    hide Valid, PublishedFirst, ProjectionOf, DistinctIds, NoneRefused;
    var after := Published(d, s, at, elapsed).1;
    PublishedHolds(d, s, |d.projects|, at, elapsed, id);
    PublishedKeepsAgentRuns(d, s, |d.projects|, at, elapsed);
    SameHeldSameFacts(s, after, id);
    if GoesThrough(d, |d.projects|, id) {
      HeldFacts(after, Put(s.projects, d.composed[id]), d.composed[id]);
    }
  }

  lemma HeldFacts(s: StoreState, projects: Projects, project: Project)
    requires project.configured.id in projects.byId && projects.byId[project.configured.id] == project
    ensures Held(s, project.configured.id) == Some(project) ==>
      ProjectionOf(s.projects, project.configured.id) == ProjectionOf(projects, project.configured.id)
  {
  }

  /** Nor does a later publish make up for it: a Project the store already shows as composed is named
      by none. */
  lemma RetryNamesNothingShown(d: Data, s: StoreState, at: int, elapsed: Option<nat>, id: nat)
    requires Valid(s) && UnderOwnIds(d) && Published(d, s, at, elapsed).2
    requires id in d.composed && Held(s, id) == Some(d.composed[id])
    ensures !Names(Reports(d, s, at, elapsed), id)
  {
    hide Valid, PublishedFirst, ProjectionOf, Reports, Names, DistinctIds, NoneRefused;
    PublishedHolds(d, s, |d.projects|, at, elapsed, id);
    ReportsAreExact(d, s, at, elapsed, id);
    SameHeldSameFacts(s, Published(d, s, at, elapsed).1, id);
  }

  /** The coordinator: each method is one region under its state lock. */
  class Coordinator {
    var projects: seq<Configured>
    var generations: map<Key, nat>
    var accepted: map<Key, nat>
    var observations: map<Key, Half>
    var composed: map<nat, Project>
    var pending: set<nat>
    var agent: Option<AgentRuns>
    var agentPending: bool

    ghost function Current(): Data
      reads this
    {
      Data(projects, generations, accepted, observations, composed, pending, agent, agentPending)
    }

    constructor (configured: seq<Configured>)
      ensures Current() == Initially(configured)
    {
      projects, generations, accepted, observations := configured, map[], map[], map[];
      composed, pending, agent, agentPending := map[], {}, None, false;
    }

    method Request(keys: seq<Key>) returns (tickets: seq<Ticket>)
      modifies this
      ensures Current() == Requested(old(Current()), keys)
      ensures tickets == TicketsOf(old(Current()), keys)
    {
      hide Requested, TicketsOf;
      NoneRequested(Current());
      tickets := [];
      ghost var before := Current();
      for i := 0 to |keys|
        invariant Current() == Requested(before, keys[..i])
        invariant tickets == TicketsOf(before, keys[..i])
      {
        var key := keys[i];
        var generation := (if key in generations then generations[key] else 0) + 1;
        OneMoreRequested(before, keys, i);
        generations := generations[key := generation];
        tickets := tickets + [Ticket(key, generation)];
      }
      assert keys[..|keys|] == keys;
    }

    method AcceptPart(ticket: Ticket, half: Half, at: int) returns (current: bool)
      requires ticket.key.PartKey? && ticket.key.project in ById(projects)
      modifies this
      ensures Current() == AcceptedPart(old(Current()), ticket, half, at)
      ensures current == IsCurrent(old(Current()), ticket)
    {
      current := ticket.key in generations && generations[ticket.key] == ticket.generation;
      if !current { return; }
      var id := ticket.key.project;
      accepted := accepted[ticket.key := ticket.generation];
      observations := observations[ticket.key := half];
      var project := Composed(ById(projects)[id],
                              Get(observations, PartKey(Issues, id)),
                              Get(observations, PartKey(PullRequests, id)),
                              Get(observations, PartKey(Targets, id)),
                              at);
      if project.Some? {
        composed := composed[id := project.value];
        pending := pending + {id};
      }
    }

    method AcceptAgentRuns(ticket: Ticket, observed: AgentRuns) returns (current: bool)
      modifies this
      ensures Current() == AcceptedAgent(old(Current()), ticket, observed)
      ensures current == IsCurrent(old(Current()), ticket)
    {
      current := ticket.key in generations && generations[ticket.key] == ticket.generation;
      if current {
        accepted := accepted[ticket.key := ticket.generation];
        agent, agentPending := Some(observed), true;
      }
    }

    /** Move every pending composition into the store in configured order, then the Agent Runs, and
        report a change for each. A refusal on the way loses the changes made until then. */
    method Publish(store: WorkspaceObservationStore, at: int, elapsed: Option<nat>)
      returns (changes: Result<seq<set<nat>>, Duplicate>)
      requires Valid(store.state) && forall id :: id in pending ==> id in composed
      modifies this, store
      ensures Valid(store.state)
      ensures (Current(), store.state, changes.Success?) == Published(old(Current()), old(store.state), at, elapsed)
      ensures changes.Success? ==> changes.value == Reports(old(Current()), old(store.state), at, elapsed)
    {
      hide Committed, Valid, NoDuplicates, DistinctIds, IndexesOf, ReplacedProject, Ordered, ChangeBetween, Put;
      var made: seq<set<nat>> := [];
      for n := 0 to |projects|
        invariant Current() == old(Current()) && Valid(store.state)
        invariant (store.state, true) == PublishedFirst(Current(), old(store.state), n, at, elapsed)
        invariant made == ReportsFirst(Current(), old(store.state), n, at, elapsed)
      {
        var id := projects[n].id;
        if id in pending {
          var change := store.ReplaceProject(composed[id], at, elapsed.GetOr(composed[id].elapsed));
          if change.Failure? {
            StaysRefused(Current(), old(store.state), n + 1, |projects|, at, elapsed);
            return Failure(change.error);
          }
          made := made + [change.value];
        }
      }
      pending := {};
      if agentPending && agent.Some? {
        var change := store.ReplaceAgentRuns(
          agent.value.runs, agent.value.issueRuns, Some(agent.value.diagnostics), at, elapsed.GetOr(agent.value.elapsed));
        if change.Failure? {
          return Failure(change.error);
        }
        made := made + [change.value];
        agentPending := false;
      }
      changes := Success(made);
    }
  }
}
