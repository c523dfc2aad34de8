/** The registry that interrupts running commands: its lock-protected regions, and every
interleaving of runners and interruptions around them.

A runner and the one process it starts share a number. */
module RunningCommands {
  import opened Wrappers

  /** What the lock protects: the running commands, each with whether it leads a process group,
      and those told to stop. */
  datatype Registry = Registry(running: map<nat, bool>, interrupted: set<nat>, closed: bool)

  function Held(r: Registry, p: nat, group: bool): Registry {
    r.(running := r.running[p := group], interrupted := if r.closed then r.interrupted + {p} else r.interrupted)
  }

  function LetGo(r: Registry, p: nat): Registry {
    r.(running := r.running - {p}, interrupted := r.interrupted - {p})
  }

  function Marked(r: Registry, p: nat, state: Life): Registry {
    if p in r.running && state == Alive then r.(interrupted := r.interrupted + {p}) else r
  }

  datatype Life = Alive | Exited | Reaped

  datatype Runner =
    | Checked                // found the registry open, and has not started its process
    | Spawned(group: bool)
    | Late(group: bool)      // registered after the registry closed; has yet to signal
    | Entered(group: bool)   // past its `holding` entry: waits on its process
    | Done
    | Refused

  /** One call of `interrupt`: the snapshot still to deal with, the process under way with the
      state it was read in, and the count so far. `told` is the history of whom it counted. */
  datatype Interrupt = Interrupt(
    todo: map<nat, bool>,
    at: Option<(nat, Life)>,
    marked: bool,
    count: nat,
    told: set<nat>,
    returned: bool)

  /** The last four fields are the history: who was signalled, found ended, found alive, and who
      registered after the registry closed. */
  datatype State = State(
    registry: Registry,
    lives: map<nat, Life>,
    runners: map<nat, Runner>,
    calls: map<nat, Interrupt>,
    signalled: set<nat>,
    foundEnded: set<nat>,
    foundAlive: set<nat>,
    late: set<nat>)

  datatype Step =
    | Check(p: nat)
    | Spawn(p: nat, group: bool)
    | Hold(p: nat)
    | SignalLate(p: nat)
    | Exit(p: nat)
    | Reap(p: nat)
    | Leave(p: nat)
    | Call(k: nat)
    | Examine(k: nat, p: nat)
    | Mark(k: nat)
    | Signal(k: nat)
    | Return(k: nat)

  predicate HasEntered(s: State, p: nat) { p in s.runners && s.runners[p].Entered? }

  function LifeOf(s: State, p: nat): Life { if p in s.lives then s.lives[p] else Alive }

  /** Signal `p`, unless it has been reaped, when its number may name another process. */
  function Sent(s: State, p: nat): State {
    if LifeOf(s, p) == Reaped then s.(foundEnded := s.foundEnded + {p}) else s.(signalled := s.signalled + {p})
  }

  function Moved(s: State, p: nat, runner: Runner): State { s.(runners := s.runners[p := runner]) }

  function Registering(s: State, p: nat, group: bool): State {
    if s.registry.closed
    then Moved(s, p, Late(group)).(registry := Held(s.registry, p, group), late := s.late + {p})
    else Moved(s, p, Entered(group)).(registry := Held(s.registry, p, group))
  }

  function Examined(s: State, k: nat, p: nat): State
    requires k in s.calls && p in s.calls[k].todo
  {
    var call, life := s.calls[k], LifeOf(s, p);
    if life == Reaped || (life == Exited && !call.todo[p])
    then s.(calls := s.calls[k := call.(todo := call.todo - {p})], foundEnded := s.foundEnded + {p})
    else s.(calls := s.calls[k := call.(at := Some((p, life)), marked := false)],
            foundAlive := if life == Alive then s.foundAlive + {p} else s.foundAlive)
  }

  function MarkedOrSkipped(s: State, k: nat): State
    requires k in s.calls && s.calls[k].at.Some?
  {
    var call := s.calls[k];
    var p := call.at.value.0;
    if p !in s.registry.running
    then s.(calls := s.calls[k := call.(todo := call.todo - {p}, at := None)])
    else s.(calls := s.calls[k := call.(marked := true)], registry := Marked(s.registry, p, call.at.value.1))
  }

  function SentAndCounted(s: State, k: nat): State
    requires k in s.calls && s.calls[k].at.Some?
  {
    var call := s.calls[k];
    var p := call.at.value.0;
    var next := call.(todo := call.todo - {p}, at := None, marked := false);
    Sent(s, p).(calls := s.calls[k :=
      if call.at.value.1 == Alive then next.(count := call.count + 1, told := call.told + {p}) else next])
  }

  /** A step that cannot be taken leaves the state as it is. */
  function Apply(s: State, step: Step): State {
    match step
    case Check(p) =>
      if p in s.runners then s else Moved(s, p, if s.registry.closed then Refused else Checked)
    case Spawn(p, group) =>
      if p in s.runners && s.runners[p] == Checked
      then Moved(s, p, Spawned(group)).(lives := s.lives[p := Alive])
      else s
    case Hold(p) =>
      if p in s.runners && s.runners[p].Spawned? then Registering(s, p, s.runners[p].group) else s
    case SignalLate(p) =>
      if p in s.runners && s.runners[p].Late? then Moved(Sent(s, p), p, Entered(s.runners[p].group)) else s
    case Exit(p) => if p in s.lives && s.lives[p] == Alive then s.(lives := s.lives[p := Exited]) else s
    case Reap(p) => if p in s.lives && s.lives[p] == Exited then s.(lives := s.lives[p := Reaped]) else s
    case Leave(p) =>
      if HasEntered(s, p) then Moved(s, p, Done).(registry := LetGo(s.registry, p)) else s
    case Call(k) =>
      if k in s.calls then s
      else s.(registry := s.registry.(closed := true),
              calls := s.calls[k := Interrupt(s.registry.running, None, false, 0, {}, false)])
    case Examine(k, p) =>
      if k in s.calls && s.calls[k].at.None? && p in s.calls[k].todo then Examined(s, k, p) else s
    case Mark(k) =>
      if k in s.calls && s.calls[k].at.Some? && !s.calls[k].marked then MarkedOrSkipped(s, k) else s
    case Signal(k) =>
      if k in s.calls && s.calls[k].at.Some? && s.calls[k].marked then SentAndCounted(s, k) else s
    case Return(k) =>
      if k in s.calls && s.calls[k].todo == map[] && s.calls[k].at.None?
      then s.(calls := s.calls[k := s.calls[k].(returned := true)])
      else s
  }

  const INITIAL := State(Registry(map[], {}, false), map[], map[], map[], {}, {}, {}, {})

  function RunFrom(s: State, steps: seq<Step>): State {
    if steps == [] then s else Apply(RunFrom(s, steps[..|steps| - 1]), steps[|steps| - 1])
  }

  function Run(steps: seq<Step>): State { RunFrom(INITIAL, steps) }

  // -- The invariant ---------------------------------------------------------------------------

  predicate Registered(runner: Runner) { runner.Late? || runner.Entered? }

  predicate HasRegistered(s: State, p: nat) {
    p in s.runners && s.runners[p] != Checked && !s.runners[p].Spawned?
  }

  /** A call that read `p` as running is between marking and signalling it, or has counted it. */
  predicate ToldBy(call: Interrupt, p: nat) {
    p in call.told || (call.at == Some((p, Alive)) && call.marked)
  }

  ghost predicate EveryCallHasToDo(s: State, p: nat) {
    forall k :: k in s.calls ==> p in s.calls[k].todo
  }

  ghost predicate RunnerInv(s: State, p: nat) {
    && (p in s.registry.running <==> p in s.runners && Registered(s.runners[p]))
    && (p in s.registry.interrupted ==> p in s.registry.running && (p in s.foundAlive || p in s.late))
    && (p in s.late ==> HasRegistered(s, p))
    && (p in s.late && p in s.registry.running ==> p in s.registry.interrupted)
    && (p in s.runners && s.runners[p].Late? ==> s.registry.closed)
    && (p in s.foundEnded ==> LifeOf(s, p) != Alive)
    && (p in s.lives ==> p in s.runners && s.runners[p] != Checked)
  }

  /** A command past its entry is signalled, or was found ended, or every interruption still has
      it to do. */
  ghost predicate Accounted(s: State, p: nat) {
    HasEntered(s, p) ==> p in s.signalled || p in s.foundEnded || EveryCallHasToDo(s, p)
  }

  predicate InOrder(call: Interrupt) {
    && (call.at.Some? ==> call.at.value.0 in call.todo)
    && (call.returned ==> call.todo == map[])
    && call.count == |call.told|
    && call.told !! call.todo.Keys
  }

  ghost predicate CallInv(s: State, k: nat) {
    k in s.calls ==> s.registry.closed && InOrder(s.calls[k])
  }

  /** Whom a call told was found alive first, and is marked for as long as its runner waits. */
  ghost predicate ToldInv(s: State, k: nat, p: nat) {
    k in s.calls ==>
      && (s.calls[k].at == Some((p, Alive)) || p in s.calls[k].told ==> p in s.foundAlive)
      && (p in s.calls[k].todo || p in s.calls[k].told ==> HasRegistered(s, p))
      && (ToldBy(s.calls[k], p) && p in s.registry.running ==> p in s.registry.interrupted)
  }

  /** A process marked interrupted was told by some call, or registered late. */
  ghost predicate MarkedForCause(s: State, p: nat) {
    p in s.registry.interrupted ==> p in s.late || exists k :: k in s.calls && ToldBy(s.calls[k], p)
  }

  ghost predicate Inv(s: State) {
    && (forall p :: RunnerInv(s, p))
    && (forall p :: Accounted(s, p))
    && (forall p :: MarkedForCause(s, p))
    && (forall k :: CallInv(s, k))
    && (forall k, p :: ToldInv(s, k, p))
  }

  // -- Every step keeps it ---------------------------------------------------------------------

  predicate IsOfCall(step: Step) {
    step.Call? || step.Examine? || step.Mark? || step.Signal? || step.Return?
  }

  lemma CallStepKeepsRunner(s: State, step: Step, p: nat)
    requires Inv(s) && IsOfCall(step)
    ensures RunnerInv(Apply(s, step), p)
  {
    assert RunnerInv(s, p) && CallInv(s, step.k);
    if step.k in s.calls && s.calls[step.k].at.Some? {
      assert ToldInv(s, step.k, s.calls[step.k].at.value.0);
    }
  }

  lemma RunnerStepKeepsRunner(s: State, step: Step, p: nat)
    requires Inv(s) && !IsOfCall(step)
    ensures RunnerInv(Apply(s, step), p)
  {
    assert RunnerInv(s, p);
  }

  lemma StepKeepsAccounted(s: State, step: Step, p: nat)
    requires Inv(s)
    ensures Accounted(Apply(s, step), p)
  {
    assert RunnerInv(s, p) && Accounted(s, p);
    if step.Hold? {
      assert forall k :: k in s.calls ==> CallInv(s, k);
    }
  }

  lemma DoneWithOne(call: Interrupt)
    requires InOrder(call) && call.at.Some?
    ensures var p := call.at.value.0;
      var next := call.(todo := call.todo - {p}, at := None, marked := false);
      && InOrder(next) && InOrder(call.(todo := call.todo - {p}, at := None))
      && InOrder(next.(count := call.count + 1, told := call.told + {p}))
  {
  }

  lemma MarkingKeepsOrder(call: Interrupt)
    requires InOrder(call)
    ensures InOrder(call.(marked := true)) && (call.todo == map[] ==> InOrder(call.(returned := true)))
  {
  }

  lemma ExaminingKeepsOrder(call: Interrupt, p: nat, life: Life)
    requires InOrder(call) && call.at.None? && p in call.todo
    ensures InOrder(call.(todo := call.todo - {p})) && InOrder(call.(at := Some((p, life)), marked := false))
  {
  }

  lemma SnapshotIsInOrder(running: map<nat, bool>)
    ensures InOrder(Interrupt(running, None, false, 0, {}, false))
  {
  }

  lemma StepKeepsCall(s: State, step: Step, k: nat)
    requires Inv(s)
    ensures CallInv(Apply(s, step), k)
  {
    hide RunnerInv, Accounted, MarkedForCause, ToldInv, InOrder, LifeOf;
    assert CallInv(s, k);
    SnapshotIsInOrder(s.registry.running);
    if k in s.calls {
      MarkingKeepsOrder(s.calls[k]);
      if s.calls[k].at.Some? {
        DoneWithOne(s.calls[k]);
      } else if step.Examine? && step.p in s.calls[k].todo {
        ExaminingKeepsOrder(s.calls[k], step.p, LifeOf(s, step.p));
      }
    }
  }

  lemma StepKeepsTold(s: State, step: Step, k: nat, p: nat)
    requires Inv(s)
    ensures ToldInv(Apply(s, step), k, p)
  {
    hide Accounted, MarkedForCause;
    assert ToldInv(s, k, p) && RunnerInv(s, p) && CallInv(s, k);
    if IsOfCall(step) { CallStepLeavesRunners(s, step, p); }
  }

  lemma StepKeepsCause(s: State, step: Step, p: nat)
    requires Inv(s)
    ensures MarkedForCause(Apply(s, step), p)
  {
    hide RunnerInv, Accounted, CallInv, ToldInv;
    var t := Apply(s, step);
    assert MarkedForCause(s, p);
    if p in t.registry.interrupted && p !in t.late {
      if p in s.registry.interrupted {
        var k :| k in s.calls && ToldBy(s.calls[k], p);
        assert ToldBy(t.calls[k], p);
      } else {
        assert step.Mark? && ToldBy(t.calls[step.k], p);
      }
    }
  }

  lemma StepKeeps(s: State, step: Step)
    requires Inv(s)
    ensures Inv(Apply(s, step))
  {
    hide RunnerInv, Accounted, MarkedForCause, CallInv, ToldInv, Apply;
    forall p ensures MarkedForCause(Apply(s, step), p) {
      StepKeepsCause(s, step, p);
    }
    forall p ensures RunnerInv(Apply(s, step), p) {
      if IsOfCall(step) { CallStepKeepsRunner(s, step, p); } else { RunnerStepKeepsRunner(s, step, p); }
    }
    forall p ensures Accounted(Apply(s, step), p) {
      StepKeepsAccounted(s, step, p);
    }
    forall k ensures CallInv(Apply(s, step), k) {
      StepKeepsCall(s, step, k);
    }
    forall k, p ensures ToldInv(Apply(s, step), k, p) {
      StepKeepsTold(s, step, k, p);
    }
  }

  lemma {:induction false} EveryRunKeeps(steps: seq<Step>)
    ensures Inv(Run(steps))
  {
    if steps != [] {
      EveryRunKeeps(steps[..|steps| - 1]);
      StepKeeps(Run(steps[..|steps| - 1]), steps[|steps| - 1]);
    }
  }

  // -- What an interruption guarantees ---------------------------------------------------------

  /** The registry and every snapshot know whether a registered command leads a group, and one that
      does is found ended only once reaped. */
  ghost predicate GroupKnown(s: State, p: nat) {
    && (p in s.foundEnded ==> HasRegistered(s, p))
    && (p in s.runners && Registered(s.runners[p]) ==>
        && (p in s.registry.running ==> s.registry.running[p] == s.runners[p].group)
        && (forall k :: k in s.calls && p in s.calls[k].todo ==> s.calls[k].todo[p] == s.runners[p].group)
        && (p in s.foundEnded && s.runners[p].group ==> LifeOf(s, p) == Reaped))
  }

  lemma ToDoAreRegistered(s: State, k: nat, p: nat)
    requires Inv(s) && k in s.calls
    ensures p in s.calls[k].todo ==> HasRegistered(s, p)
    ensures s.calls[k].at.Some? ==> s.calls[k].at.value.0 in s.calls[k].todo
  {
    assert ToldInv(s, k, p) && CallInv(s, k);
  }

  lemma CallStepLeavesRunners(s: State, step: Step, p: nat)
    requires IsOfCall(step)
    ensures var t := Apply(s, step);
      t.runners == s.runners && t.lives == s.lives && t.registry.running == s.registry.running
  {
  }

  lemma CallStepKnowsGroup(s: State, step: Step, p: nat)
    requires Inv(s) && GroupKnown(s, p) && IsOfCall(step)
    ensures GroupKnown(Apply(s, step), p)
  {
    assert RunnerInv(s, p);
    if step.k in s.calls { ToDoAreRegistered(s, step.k, p); }
    hide Inv, RunnerInv;
    CallStepLeavesRunners(s, step, p);
    if step.Call? || step.Return? || step.Mark? { hide Sent, Examined, SentAndCounted; }
  }

  lemma RunnerStepKnowsGroup(s: State, step: Step, p: nat)
    requires Inv(s) && GroupKnown(s, p) && !IsOfCall(step)
    ensures GroupKnown(Apply(s, step), p)
  {
    assert RunnerInv(s, p);
    forall k | k in s.calls && p in s.calls[k].todo ensures HasRegistered(s, p) {
      ToDoAreRegistered(s, k, p);
    }
    hide Inv, RunnerInv;
    var t := Apply(s, step);
    if p in t.runners && Registered(t.runners[p]) {
      assert p in t.foundEnded && t.runners[p].group ==> LifeOf(t, p) == Reaped;
      assert t.calls == s.calls;
    }
  }

  lemma {:induction false} EveryRunKnowsGroups(steps: seq<Step>, p: nat)
    ensures GroupKnown(Run(steps), p)
  {
    hide Inv, Apply;
    if steps != [] {
      EveryRunKnowsGroups(steps[..|steps| - 1], p);
      EveryRunKeeps(steps[..|steps| - 1]);
      var before, step := Run(steps[..|steps| - 1]), steps[|steps| - 1];
      if IsOfCall(step) { CallStepKnowsGroup(before, step, p); } else { RunnerStepKnowsGroup(before, step, p); }
    }
  }

  /** Once an interruption has returned, every command past its entry has been signalled, or had
      ended when it was examined; one that leads a group is let off only once it has been reaped. */
  lemma NoneSlipsPast(steps: seq<Step>, k: nat, p: nat)
    requires var s := Run(steps); k in s.calls && s.calls[k].returned && HasEntered(s, p)
    ensures var s := Run(steps);
      || p in s.signalled
      || (p in s.foundEnded && (LifeOf(s, p) == Reaped || (LifeOf(s, p) == Exited && !s.runners[p].group)))
  {
    EveryRunKeeps(steps);
    EveryRunKnowsGroups(steps, p);
    assert RunnerInv(Run(steps), p) && Accounted(Run(steps), p) && CallInv(Run(steps), k);
  }

  /** A command registered after closure is signalled, or found ended, before its runner waits on it. */
  ghost predicate LateIsStopped(s: State, p: nat) {
    p in s.late && HasEntered(s, p) ==> p in s.signalled || p in s.foundEnded
  }

  lemma StepStopsLate(s: State, step: Step, p: nat)
    requires Inv(s) && LateIsStopped(s, p)
    ensures LateIsStopped(Apply(s, step), p)
  {
    hide Accounted, MarkedForCause, CallInv, ToldInv;
    assert RunnerInv(s, p);
  }

  lemma {:induction false} EveryRunStopsLate(steps: seq<Step>, p: nat)
    ensures LateIsStopped(Run(steps), p)
  {
    hide Inv, Apply;
    if steps == [] {
      assert p !in INITIAL.late;
    } else {
      EveryRunStopsLate(steps[..|steps| - 1], p);
      EveryRunKeeps(steps[..|steps| - 1]);
      StepStopsLate(Run(steps[..|steps| - 1]), steps[|steps| - 1], p);
    }
  }

  /** No command slips past an interruption by registering after closure, whether or not any
      interruption has returned: it is stopped on its entry. */
  lemma LateIsStoppedOnEntry(steps: seq<Step>, p: nat)
    ensures var s := Run(steps);
      p in s.late && HasEntered(s, p) ==> p in s.signalled || (p in s.foundEnded && LifeOf(s, p) != Alive)
  {
    EveryRunKeeps(steps);
    EveryRunStopsLate(steps, p);
    assert RunnerInv(Run(steps), p);
  }

  /** What a runner is told of its command while it holds it: interrupted exactly when it registered
      after the registry closed, or an interruption found it running and has told it to stop or is
      about to. */
  lemma ReportedIsTold(steps: seq<Step>, p: nat)
    ensures var s := Run(steps);
      HasEntered(s, p) ==>
        (p in s.registry.interrupted <==> p in s.late || exists k :: k in s.calls && ToldBy(s.calls[k], p))
    ensures var s := Run(steps); p in s.registry.interrupted ==> p in s.foundAlive || p in s.late
  {
    EveryRunKeeps(steps);
    var s := Run(steps);
    assert RunnerInv(s, p) && MarkedForCause(s, p);
    assert forall k :: k in s.calls ==> ToldInv(s, k, p);
  }

  /** The count an interruption returns is of distinct commands, each found running. */
  lemma CountIsOfThoseTold(steps: seq<Step>, k: nat)
    requires k in Run(steps).calls
    ensures var s := Run(steps); s.calls[k].count == |s.calls[k].told| && s.calls[k].told <= s.foundAlive
  {
    EveryRunKeeps(steps);
    var s := Run(steps);
    assert CallInv(s, k);
    assert forall p :: p in s.calls[k].told ==> ToldInv(s, k, p);
  }

  /** A command that had not passed its check. */
  ghost predicate NeverStarted(s: State, p: nat) {
    p !in s.lives && (p in s.runners ==> s.runners[p] == Refused)
  }

  lemma StepStartsNone(s: State, step: Step, p: nat)
    requires s.registry.closed && NeverStarted(s, p)
    ensures Apply(s, step).registry.closed && NeverStarted(Apply(s, step), p)
  {
  }

  /** After closure no command that had not passed its check ever starts. */
  lemma {:induction false} NoneStartsOnceClosed(s: State, later: seq<Step>, p: nat)
    requires s.registry.closed && NeverStarted(s, p)
    ensures RunFrom(s, later).registry.closed && NeverStarted(RunFrom(s, later), p)
  {
    hide Apply, NeverStarted;
    if later != [] {
      NoneStartsOnceClosed(s, later[..|later| - 1], p);
      StepStartsNone(RunFrom(s, later[..|later| - 1]), later[|later| - 1], p);
    }
  }

  /** The lock-protected regions of the registry, each a method. */
  class CommandRegistry {
    var running: map<nat, bool>
    var interrupted: set<nat>
    var closed: bool

    ghost function Current(): Registry
      reads this
    {
      Registry(running, interrupted, closed)
    }

    constructor ()
      ensures Current() == INITIAL.registry
    {
      running, interrupted, closed := map[], {}, false;
    }

    /** Enter `holding`; a caller told `late` signals its process before it waits. */
    method Enter(p: nat, group: bool) returns (late: bool)
      modifies this
      ensures Current() == Held(old(Current()), p, group) && late == closed == old(closed)
    {
      running := running[p := group];
      late := closed;
      if late {
        interrupted := interrupted + {p};
      }
    }

    method Exit(p: nat)
      modifies this
      ensures Current() == LetGo(old(Current()), p)
    {
      running := running - {p};
      interrupted := interrupted - {p};
    }

    /** Close for good and take the snapshot an interruption goes through. */
    method Close() returns (processes: map<nat, bool>)
      modifies this
      ensures Current() == old(Current()).(closed := true) && processes == running
    {
      closed := true;
      processes := running;
    }

    /** Mark a process about to be signalled, unless its runner has let it go since the snapshot. */
    method MarkTold(p: nat, state: Life) returns (held: bool)
      modifies this
      ensures Current() == Marked(old(Current()), p, state) && held == (p in old(running))
    {
      held := p in running;
      if held && state == Alive {
        interrupted := interrupted + {p};
      }
    }
  }
}
