/** The plugin's session routes and its ordered publication queue per root.

Each run of JavaScript between two awaits is one step: admitting an event, a task starting, a
task ending, and the `finally` handler that lets the next one start. */
module PublicationQueues {
  import opened Wrappers

  const QUEUE_LIMIT: nat := 16
  const PARENT_DEPTH_LIMIT: nat := 8

  // -- Routes ---------------------------------------------------------------------------------

  datatype Known = Known(location: string, parent: Option<string>)

  /** The session `hops` parents above `id`, while every link is known. */
  function Ancestor(sessions: map<string, Known>, id: string, hops: nat): Option<string>
    decreases hops
  {
    if hops == 0 then Some(id)
    else if id in sessions && sessions[id].parent.Some?
    then Ancestor(sessions, sessions[id].parent.value, hops - 1)
    else None
  }

  /** `root` is a known session without a parent, within the depth limit above `id`. */
  ghost predicate RootedAt(sessions: map<string, Known>, id: string, root: string) {
    && root in sessions && sessions[root].parent.None?
    && exists hops :: 0 <= hops <= PARENT_DEPTH_LIMIT && Ancestor(sessions, id, hops) == Some(root)
  }

  lemma {:induction false} AncestorStep(sessions: map<string, Known>, id: string, hops: nat)
    ensures Ancestor(sessions, id, hops + 1) ==
      match Ancestor(sessions, id, hops)
      case None => None
      case Some(top) => if top in sessions then sessions[top].parent else None
    decreases hops
  {
    if hops > 0 && id in sessions && sessions[id].parent.Some? {
      AncestorStep(sessions, sessions[id].parent.value, hops - 1);
    }
  }

  lemma {:induction false} NothingAboveARoot(sessions: map<string, Known>, id: string, hops: nat, more: nat)
    requires Ancestor(sessions, id, hops).Some?
    requires var top := Ancestor(sessions, id, hops).value; top !in sessions || sessions[top].parent.None?
    requires more > hops
    ensures Ancestor(sessions, id, more) == None
    decreases more
  {
    AncestorStep(sessions, id, more - 1);
    if more > hops + 1 {
      NothingAboveARoot(sessions, id, hops, more - 1);
    }
  }

  /** The root the registry can route to now; an unknown link is never read as a root. */
  method RouteKnown(sessions: map<string, Known>, sessionID: string)
    returns (found: Option<(string, string)>)
    ensures found.Some? ==>
      RootedAt(sessions, sessionID, found.value.0) && found.value.1 == sessions[found.value.0].location
    ensures found.None? ==> forall any :: !RootedAt(sessions, sessionID, any)
  {
    var current := sessionID;
    var depth := 0;
    while depth < PARENT_DEPTH_LIMIT && current in sessions && sessions[current].parent.Some?
      invariant 0 <= depth <= PARENT_DEPTH_LIMIT
      invariant Ancestor(sessions, sessionID, depth) == Some(current)
      invariant forall hops :: 0 <= hops < depth ==>
        var above := Ancestor(sessions, sessionID, hops);
        above.Some? && above.value in sessions && sessions[above.value].parent.Some?
      decreases PARENT_DEPTH_LIMIT - depth
    {
      AncestorStep(sessions, sessionID, depth);
      current := sessions[current].parent.value;
      depth := depth + 1;
    }
    if current in sessions && sessions[current].parent.None? {
      found := Some((current, sessions[current].location));
    } else {
      found := None;
      forall any ensures !RootedAt(sessions, sessionID, any) {
        forall hops | 0 <= hops <= PARENT_DEPTH_LIMIT && Ancestor(sessions, sessionID, hops) == Some(any)
          ensures !(any in sessions && sessions[any].parent.None?)
        {
          if hops > depth {
            NothingAboveARoot(sessions, sessionID, depth, hops);
          }
        }
      }
    }
  }

  lemma RootIsUnique(sessions: map<string, Known>, id: string, a: string, b: string)
    requires RootedAt(sessions, id, a) && RootedAt(sessions, id, b)
    ensures a == b
  {
    var i :| 0 <= i <= PARENT_DEPTH_LIMIT && Ancestor(sessions, id, i) == Some(a);
    var j :| 0 <= j <= PARENT_DEPTH_LIMIT && Ancestor(sessions, id, j) == Some(b);
    if i < j {
      NothingAboveARoot(sessions, id, i, j);
    } else if j < i {
      NothingAboveARoot(sessions, id, j, i);
    }
  }

  // -- Queues ---------------------------------------------------------------------------------

  datatype Head = Idle | Running | Finished

  /** One queue object: its tasks not yet finalised, oldest first, and what the first is doing. */
  datatype Queue = Queue(key: string, pending: nat, tasks: seq<nat>, head: Head)

  /** `objects` holds every queue ever made, `queues` the registry's map from key to queue.
      `admitted`, `begun` and `done` are the history: the tasks of each key, in order. */
  datatype State = State(
    queues: map<string, nat>,
    objects: seq<Queue>,
    admitted: seq<(string, nat)>,
    begun: seq<(string, nat)>,
    done: seq<(string, nat)>)

  datatype Step =
    | Enqueue(key: string, task: nat)
    | Begin(queue: nat)      // the tail and the barrier have settled: the first task starts
    | End(queue: nat)        // the first task settles
    | Finalise(queue: nat)   // its `finally` handler runs

  /** The queue for `key`, made when the map has none. */
  function Opened(s: State, key: string): State {
    if key in s.queues then s
    else s.(objects := s.objects + [Queue(key, 0, [], Idle)], queues := s.queues[key := |s.objects|])
  }

  function Enqueued(s: State, key: string, task: nat): State {
    var t := Opened(s, key);
    if t.queues[key] >= |t.objects| then t
    else
      var queue := t.objects[t.queues[key]];
      if queue.pending >= QUEUE_LIMIT then t
      else
        t.(objects := t.objects[t.queues[key] := queue.(pending := queue.pending + 1, tasks := queue.tasks + [task])],
           admitted := t.admitted + [(key, task)])
  }

  function Finalised(s: State, q: nat): State
    requires q < |s.objects| && s.objects[q].tasks != [] && s.objects[q].pending > 0
  {
    var queue := s.objects[q];
    var left := queue.(pending := queue.pending - 1, tasks := queue.tasks[1..], head := Idle);
    s.(objects := s.objects[q := left],
       done := s.done + [(queue.key, queue.tasks[0])],
       queues := if left.pending == 0 && queue.key in s.queues && s.queues[queue.key] == q
                 then s.queues - {queue.key} else s.queues)
  }

  /** A step that cannot be taken leaves the state as it is. */
  function Apply(s: State, step: Step): State {
    match step
    case Enqueue(key, task) => Enqueued(s, key, task)
    case Begin(q) =>
      if q < |s.objects| && s.objects[q].tasks != [] && s.objects[q].head == Idle
      then s.(objects := s.objects[q := s.objects[q].(head := Running)],
              begun := s.begun + [(s.objects[q].key, s.objects[q].tasks[0])])
      else s
    case End(q) =>
      if q < |s.objects| && s.objects[q].head == Running
      then s.(objects := s.objects[q := s.objects[q].(head := Finished)])
      else s
    case Finalise(q) =>
      if q < |s.objects| && s.objects[q].head == Finished && s.objects[q].tasks != [] && s.objects[q].pending > 0
      then Finalised(s, q)
      else s
  }

  const INITIAL := State(map[], [], [], [], [])

  function RunFrom(s: State, steps: seq<Step>): State {
    if steps == [] then s else Apply(RunFrom(s, steps[..|steps| - 1]), steps[|steps| - 1])
  }

  function Run(steps: seq<Step>): State { RunFrom(INITIAL, steps) }

  function TasksOf(history: seq<(string, nat)>, key: string): seq<nat> {
    if history == [] then []
    else
      var rest := TasksOf(history[..|history| - 1], key);
      var last := history[|history| - 1];
      if last.0 == key then rest + [last.1] else rest
  }

  /** The tasks of `key` in the queue the map names for it. */
  function Unfinished(s: State, key: string): seq<nat> {
    if key in s.queues && s.queues[key] < |s.objects| then s.objects[s.queues[key]].tasks else []
  }

  /** The one of them that has begun, if any. */
  function Underway(s: State, key: string): seq<nat> {
    if key in s.queues && s.queues[key] < |s.objects| then UnderwayIn(s.objects[s.queues[key]]) else []
  }

  function UnderwayIn(queue: Queue): seq<nat> {
    if queue.head != Idle && queue.tasks != [] then [queue.tasks[0]] else []
  }

  /** Every queue with unfinished tasks is the one the map names for its key ... */
  ghost predicate Mapped(s: State) {
    && (forall key :: key in s.queues ==> s.queues[key] < |s.objects| && s.objects[s.queues[key]].key == key)
    && (forall q :: 0 <= q < |s.objects| ==>
         var queue := s.objects[q];
         && queue.pending == |queue.tasks| <= QUEUE_LIMIT
         && (queue.head != Idle ==> queue.tasks != [])
         && (queue.tasks != [] ==> queue.key in s.queues && s.queues[queue.key] == q))
  }

  /** ... and it holds what was admitted under that key and not finished, the first begun alone. */
  ghost predicate Ordered(s: State, key: string) {
    && TasksOf(s.admitted, key) == TasksOf(s.done, key) + Unfinished(s, key)
    && TasksOf(s.begun, key) == TasksOf(s.done, key) + Underway(s, key)
  }

  ghost predicate Inv(s: State) {
    Mapped(s) && forall key :: Ordered(s, key)
  }

  lemma TasksOfMore(history: seq<(string, nat)>, entry: (string, nat), key: string)
    ensures TasksOf(history + [entry], key) ==
      if entry.0 == key then TasksOf(history, key) + [entry.1] else TasksOf(history, key)
  {
  }

  lemma OpenedKeeps(s: State, key: string)
    requires Inv(s)
    ensures Inv(Opened(s, key)) && key in Opened(s, key).queues
  {
    forall other ensures Ordered(Opened(s, key), other) {
      assert Ordered(s, other);
    }
  }

  /** What an enqueue into a queue the map names does to what each key holds. */
  lemma EnqueuedHolds(s: State, key: string, task: nat, other: string)
    requires Mapped(s) && key in s.queues
    ensures var t := Enqueued(s, key, task);
      && t.done == s.done && t.begun == s.begun
      && Underway(t, other) == Underway(s, other)
      && (if |Unfinished(s, key)| < QUEUE_LIMIT
          then t.admitted == s.admitted + [(key, task)] &&
               Unfinished(t, other) == Unfinished(s, other) + (if other == key then [task] else [])
          else t == s)
  {
    hide TasksOf;
  }

  lemma EnqueuedKeepsOrder(s: State, key: string, task: nat, other: string)
    requires Mapped(s) && Ordered(s, other) && key in s.queues
    ensures Ordered(Enqueued(s, key, task), other)
  {
    hide TasksOf, Enqueued, Unfinished, Underway, Mapped;
    EnqueuedHolds(s, key, task, other);
    TasksOfMore(s.admitted, (key, task), other);
  }

  lemma EnqueuedKeeps(s: State, key: string, task: nat)
    requires Inv(s) && key in s.queues
    ensures Inv(Enqueued(s, key, task))
  {
    hide Ordered;
    assert forall other :: Ordered(s, other);
    forall other ensures Ordered(Enqueued(s, key, task), other) {
      EnqueuedKeepsOrder(s, key, task, other);
    }
  }

  lemma BeginKeepsOrder(s: State, q: nat, other: string)
    requires Inv(s)
    ensures Ordered(Apply(s, Begin(q)), other)
  {
    hide TasksOf;
    assert Ordered(s, other);
    if q < |s.objects| && s.objects[q].tasks != [] {
      TasksOfMore(s.begun, (s.objects[q].key, s.objects[q].tasks[0]), other);
    }
  }

  lemma BeginKeeps(s: State, q: nat)
    requires Inv(s)
    ensures Inv(Apply(s, Begin(q)))
  {
    hide Ordered;
    forall other ensures Ordered(Apply(s, Begin(q)), other) {
      BeginKeepsOrder(s, q, other);
    }
  }

  lemma EndKeeps(s: State, q: nat)
    requires Inv(s)
    ensures Inv(Apply(s, End(q)))
  {
    forall other ensures Ordered(Apply(s, End(q)), other) {
      assert Ordered(s, other);
    }
  }

  lemma FinaliseKeepsMapped(s: State, q: nat)
    requires Mapped(s)
    ensures Mapped(Apply(s, Finalise(q)))
  {
  }

  lemma FinaliseOrders(s: State, q: nat, key: string)
    requires Mapped(s) && Ordered(s, key)
    ensures Ordered(Apply(s, Finalise(q)), key)
  {
    hide TasksOf;
    if q < |s.objects| && s.objects[q].head == Finished {
      var queue := s.objects[q];
      var first, rest, done := queue.tasks[0], queue.tasks[1..], TasksOf(s.done, key);
      var t := Finalised(s, q);
      TasksOfMore(s.done, (queue.key, first), key);
      if key == queue.key {
        assert queue.tasks == [first] + rest;
        assert Unfinished(s, key) == queue.tasks && Underway(s, key) == [first];
        assert Unfinished(t, key) == rest && Underway(t, key) == [];
        assert done + ([first] + rest) == done + [first] + rest;
      } else {
        assert Unfinished(t, key) == Unfinished(s, key) && Underway(t, key) == Underway(s, key);
      }
    }
  }

  lemma FinaliseKeeps(s: State, q: nat)
    requires Inv(s)
    ensures Inv(Apply(s, Finalise(q)))
  {
    FinaliseKeepsMapped(s, q);
    forall key ensures Ordered(Apply(s, Finalise(q)), key) {
      FinaliseOrders(s, q, key);
    }
  }

  lemma {:induction false} EveryRunKeeps(steps: seq<Step>)
    ensures Inv(Run(steps))
  {
    if steps == [] {
      assert forall key :: Ordered(INITIAL, key);
    } else {
      var s, step := Run(steps[..|steps| - 1]), steps[|steps| - 1];
      EveryRunKeeps(steps[..|steps| - 1]);
      match step
      case Enqueue(key, task) =>
        OpenedKeeps(s, key);
        EnqueuedKeeps(Opened(s, key), key, task);
      case Begin(q) => BeginKeeps(s, q);
      case End(q) => EndKeeps(s, q);
      case Finalise(q) => FinaliseKeeps(s, q);
    }
  }

  ghost predicate HasWork(s: State, q: nat, key: string) {
    q < |s.objects| && s.objects[q].key == key && s.objects[q].tasks != []
  }

  /** However queues are dropped and made again, one key has one queue with unfinished tasks; its
      tasks begin in the order they were admitted, each after the one before it was finished. */
  lemma PublicationsOfAKeyAreSerial(steps: seq<Step>, key: string)
    ensures var s := Run(steps);
      && (forall p, q :: HasWork(s, p, key) && HasWork(s, q, key) ==> p == q)
      && TasksOf(s.begun, key) <= TasksOf(s.admitted, key)
      && TasksOf(s.done, key) <= TasksOf(s.begun, key)
      && |TasksOf(s.begun, key)| <= |TasksOf(s.done, key)| + 1
      && |TasksOf(s.admitted, key)| <= |TasksOf(s.done, key)| + QUEUE_LIMIT
  {
    EveryRunKeeps(steps);
    assert Ordered(Run(steps), key);
  }

  /** The map keeps no queue that has run dry. */
  ghost predicate NoneIdle(s: State) {
    forall key :: key in s.queues ==> s.queues[key] < |s.objects| && s.objects[s.queues[key]].tasks != []
  }

  lemma {:induction false} MapHoldsOnlyWork(steps: seq<Step>)
    ensures NoneIdle(Run(steps))
  {
    if steps != [] {
      MapHoldsOnlyWork(steps[..|steps| - 1]);
      EveryRunKeeps(steps[..|steps| - 1]);
      StepKeepsNoneIdle(Run(steps[..|steps| - 1]), steps[|steps| - 1]);
    }
  }

  lemma StepKeepsNoneIdle(s: State, step: Step)
    requires Mapped(s) && NoneIdle(s)
    ensures NoneIdle(Apply(s, step))
  {
  }

  /** A full queue loses the newcomer and nothing else. */
  lemma FullQueueDropsNewcomer(steps: seq<Step>, key: string, task: nat)
    ensures var s, t := Run(steps), Apply(Run(steps), Enqueue(key, task));
      && (|Unfinished(s, key)| == QUEUE_LIMIT ==> t == s)
      && (|Unfinished(s, key)| < QUEUE_LIMIT ==>
           && TasksOf(t.admitted, key) == TasksOf(s.admitted, key) + [task]
           && Unfinished(t, key) == Unfinished(s, key) + [task])
      && |Unfinished(s, key)| <= QUEUE_LIMIT
  {
    hide TasksOf, Enqueued, Run, Ordered;
    var s := Run(steps);
    EveryRunKeeps(steps);
    OpenedKeeps(s, key);
    EnqueuedHolds(Opened(s, key), key, task, key);
    EnqueuesOpened(s, key, task);
    TasksOfMore(s.admitted, (key, task), key);
  }

  lemma EnqueuesOpened(s: State, key: string, task: nat)
    ensures Enqueued(s, key, task) == Enqueued(Opened(s, key), key, task)
    ensures Opened(s, key).admitted == s.admitted
  {
  }

  // -- Admitting events -----------------------------------------------------------------------

  ghost predicate IsKey(sessions: map<string, Known>, sessionID: string, key: string) {
    RootedAt(sessions, sessionID, key) || (key == sessionID && forall root :: !RootedAt(sessions, sessionID, root))
  }

  /** The queue an event is admitted to: its session's root as known now, or else the session. */
  method QueueKey(sessions: map<string, Known>, sessionID: string) returns (key: string)
    ensures IsKey(sessions, sessionID, key)
  {
    var found := RouteKnown(sessions, sessionID);
    match found {
      case Some(route) =>
        key := route.0;
      case None =>
        key := sessionID;
    }
  }

  /** The queues keep a root's publications apart only under one key. A child whose parent is not
      known when its event is admitted is queued by itself, and may publish while its root does. */
  lemma UnknownChildMayOverlapItsRoot(child: string, root: string, location: string)
    requires child != root
    ensures var before: map<string, Known> := map[];
      var after := map[root := Known(location, None), child := Known(location, Some(root))];
      && (forall any :: !RootedAt(before, child, any))
      && RootedAt(after, child, root) && RootedAt(after, root, root)
      && var s := Run([Enqueue(child, 0), Enqueue(root, 1), Begin(0), Begin(1)]);
         |s.objects| == 2 && s.objects[0].head == Running && s.objects[1].head == Running
  {
    var after := map[root := Known(location, None), child := Known(location, Some(root))];
    assert Ancestor(after, root, 0) == Some(root);
    assert Ancestor(after, child, 1) == Some(root);
    TwoKeysOverlap(child, root);
  }

  lemma TwoKeysOverlap(a: string, b: string)
    requires a != b
    ensures Run([Enqueue(a, 0), Enqueue(b, 1), Begin(0), Begin(1)]).objects
         == [Queue(a, 1, [0], Running), Queue(b, 1, [1], Running)]
  {
    var steps := [Enqueue(a, 0), Enqueue(b, 1), Begin(0), Begin(1)];
    assert steps[..4] == steps && steps[..0] == [];
    forall n | 0 <= n < 4 ensures steps[..n + 1] == steps[..n] + [steps[n]] {
    }
    RunMore(steps[..0], steps[0]);
    RunMore(steps[..1], steps[1]);
    RunMore(steps[..2], steps[2]);
    RunMore(steps[..3], steps[3]);
    var none: seq<nat> := [];
    assert none + [0] == [0] && none + [1] == [1];
    assert Run(steps[..1]).objects == [Queue(a, 1, [0], Idle)];
    assert Run(steps[..2]).objects == [Queue(a, 1, [0], Idle), Queue(b, 1, [1], Idle)];
    assert Run(steps[..3]).objects == [Queue(a, 1, [0], Running), Queue(b, 1, [1], Idle)];
  }

  /** Publications of two distinct tasks under way at once, one of each key. */
  ghost predicate Overlap(s: State, a: string, b: string) {
    exists p, q :: 0 <= p < |s.objects| && 0 <= q < |s.objects| && p != q &&
      s.objects[p].key == a && s.objects[q].key == b && s.objects[p].head == Running && s.objects[q].head == Running
  }

  ghost predicate NeverOverlap(a: string, b: string) { forall steps :: !Overlap(Run(steps), a, b) }

  /** Publications are kept apart, in every run, exactly when they are queued under one key. */
  lemma KeptApartIffOneKey(a: string, b: string)
    ensures NeverOverlap(a, b) <==> a == b
  {
    if a == b {
      forall steps ensures !Overlap(Run(steps), a, b) {
        OneKeyIsKeptApart(steps, a);
      }
    } else {
      var s := Run([Enqueue(a, 0), Enqueue(b, 1), Begin(0), Begin(1)]);
      TwoKeysOverlap(a, b);
      assert s.objects[0].key == a && s.objects[1].key == b;
      assert Overlap(s, a, b);
    }
  }

  lemma OneKeyIsKeptApart(steps: seq<Step>, key: string)
    ensures !Overlap(Run(steps), key, key)
  {
    hide Ordered;
    EveryRunKeeps(steps);
    hide Run;
    assert Mapped(Run(steps));
  }

  /** So an event of a session whose root is `root` is kept apart from its root's publications, in
      every run, exactly when the registry knows that root at admission, or the session is its own. */
  lemma ChildIsKeptApartIffItsRootIsKnown(sessions: map<string, Known>, sessionID: string, key: string, root: string)
    requires IsKey(sessions, sessionID, key)
    requires forall known :: RootedAt(sessions, sessionID, known) ==> known == root
    ensures NeverOverlap(key, root) <==> RootedAt(sessions, sessionID, root) || sessionID == root
  {
    KeptApartIffOneKey(key, root);
  }

  /** Nor need a session's own publications be kept apart: two of its events are, in every run,
      exactly when the registry knew the same root other than itself at both admissions, or none. */
  lemma OwnPublicationsAreKeptApartIffOneRootIsKnown(
    before: map<string, Known>, after: map<string, Known>, sessionID: string, first: string, second: string)
    requires IsKey(before, sessionID, first) && IsKey(after, sessionID, second)
    ensures NeverOverlap(first, second) <==>
      forall root :: root != sessionID ==> (RootedAt(before, sessionID, root) <==> RootedAt(after, sessionID, root))
  {
    hide NeverOverlap, RootedAt;
    KeptApartIffOneKey(first, second);
    forall root ensures RootedAt(before, sessionID, root) && RootedAt(before, sessionID, first) ==> root == first {
      RootIsUniqueIf(before, sessionID, root, first);
    }
    forall root ensures RootedAt(after, sessionID, root) && RootedAt(after, sessionID, second) ==> root == second {
      RootIsUniqueIf(after, sessionID, root, second);
    }
    if first != sessionID {
      assert RootedAt(before, sessionID, first);
    }
    if second != sessionID {
      assert RootedAt(after, sessionID, second);
    }
  }

  lemma RootIsUniqueIf(sessions: map<string, Known>, id: string, a: string, b: string)
    ensures RootedAt(sessions, id, a) && RootedAt(sessions, id, b) ==> a == b
  {
    if RootedAt(sessions, id, a) && RootedAt(sessions, id, b) {
      RootIsUnique(sessions, id, a, b);
    }
  }

  /** As when its parent is learned between two of its events. */
  lemma LearnedParentLetsOwnPublicationsOverlap(child: string, root: string, location: string)
    requires child != root
    ensures var before: map<string, Known> := map[];
      var after := map[root := Known(location, None), child := Known(location, Some(root))];
      && IsKey(before, child, child) && IsKey(after, child, root) && !NeverOverlap(child, root)
  {
    UnknownChildMayOverlapItsRoot(child, root, location);
    KeptApartIffOneKey(child, root);
  }

  lemma RunMore(steps: seq<Step>, step: Step)
    ensures Run(steps + [step]) == Apply(Run(steps), step)
    ensures steps == [] ==> Run(steps) == INITIAL
  {
  }

  /** The registry's queues, as every instance of the plugin shares them. */
  class QueueRegistry {
    var queues: map<string, nat>
    var objects: seq<Queue>
    ghost var admitted: seq<(string, nat)>
    ghost var begun: seq<(string, nat)>
    ghost var done: seq<(string, nat)>

    ghost function Current(): State
      reads this
    {
      State(queues, objects, admitted, begun, done)
    }

    constructor ()
      ensures Current() == INITIAL
    {
      queues, objects, admitted, begun, done := map[], [], [], [], [];
    }

    method Admit(key: string, task: nat)
      requires Mapped(Current())
      modifies this
      ensures Current() == Apply(old(Current()), Enqueue(key, task))
    {
      if key !in queues {
        queues := queues[key := |objects|];
        objects := objects + [Queue(key, 0, [], Idle)];
      }
      var q := queues[key];
      if objects[q].pending >= QUEUE_LIMIT { return; }
      objects := objects[q := objects[q].(pending := objects[q].pending + 1, tasks := objects[q].tasks + [task])];
      admitted := admitted + [(key, task)];
    }

    method Start(q: nat)
      requires q < |objects| && objects[q].tasks != [] && objects[q].head == Idle
      modifies this
      ensures Current() == Apply(old(Current()), Begin(q))
    {
      begun := begun + [(objects[q].key, objects[q].tasks[0])];
      objects := objects[q := objects[q].(head := Running)];
    }

    /** The `finally` handler of a queue's first task. */
    method Finally(q: nat)
      requires Mapped(Current()) && q < |objects| && objects[q].head == Finished
      modifies this
      ensures Current() == Apply(old(Current()), Finalise(q))
    {
      var queue := objects[q];
      objects := objects[q := queue.(pending := queue.pending - 1, tasks := queue.tasks[1..], head := Idle)];
      done := done + [(queue.key, queue.tasks[0])];
      if objects[q].pending == 0 && queue.key in queues && queues[queue.key] == q {
        queues := queues - {queue.key};
      }
    }
  }
}
