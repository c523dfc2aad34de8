/** An exclusive lock on a path whose lock file may be deleted while others wait on it.

Inodes are numbered as files are created. A number is never reused here, as none is while a
descriptor holds it open. Every system call is one step. */
module FileLocks {
  import opened Wrappers

  /** Where a process stands in `locked_path`. */
  datatype Phase =
    | Outside
    | Opened(inode: nat)     // has the file open and waits for its lock
    | Locked(inode: nat)     // owns the lock, and has not checked the link
    | Reopening              // found its inode unlinked and closed it
    | Holding(inode: nat)    // past the check: the caller's block runs
    | Unlinked(inode: nat)   // deleted the lock file in its block, and still owns the lock

  /** `enteredAt` and `openedAt` are the unlinks so far when the process entered and last opened. */
  datatype Process = Process(phase: Phase, enteredAt: nat, openedAt: nat, restarts: nat)

  datatype State = State(
    linked: Option<nat>,
    next: nat,
    owner: map<nat, nat>,
    processes: map<nat, Process>,
    unlinks: nat)

  datatype Step =
    | Enter(p: nat)
    | Acquire(p: nat)
    | Check(p: nat)
    | Reopen(p: nat)
    | Unlink(p: nat)
    | Release(p: nat)
    | Crash(p: nat)

  const ABSENT := Process(Outside, 0, 0, 0)

  function Of(s: State, p: nat): Process { if p in s.processes then s.processes[p] else ABSENT }

  /** Open the file at the path, creating it when there is none. */
  function Linked(s: State): State {
    if s.linked.Some? then s else s.(linked := Some(s.next), next := s.next + 1)
  }

  function Dropped(s: State, p: nat): map<nat, nat> {
    map inode | inode in s.owner && s.owner[inode] != p :: s.owner[inode]
  }

  function Apply(s: State, step: Step): State {
    var p := step.p;
    var was := Of(s, p);
    match step
    case Enter(_) =>
      if was.phase != Outside then s
      else
        var t := Linked(s);
        t.(processes := t.processes[p := Process(Opened(t.linked.value), s.unlinks, s.unlinks, 0)])
    case Acquire(_) =>
      if !was.phase.Opened? || was.phase.inode in s.owner then s
      else s.(owner := s.owner[was.phase.inode := p],
              processes := s.processes[p := was.(phase := Locked(was.phase.inode))])
    case Check(_) =>
      if !was.phase.Locked? then s
      else if s.linked == Some(was.phase.inode)
      then s.(processes := s.processes[p := was.(phase := Holding(was.phase.inode))])
      else s.(owner := Dropped(s, p),
              processes := s.processes[p := was.(phase := Reopening, restarts := was.restarts + 1)])
    case Reopen(_) =>
      if was.phase != Reopening then s
      else
        var t := Linked(s);
        t.(processes := t.processes[p := was.(phase := Opened(t.linked.value), openedAt := s.unlinks)])
    case Unlink(_) =>
      if !was.phase.Holding? then s
      else s.(linked := None, unlinks := s.unlinks + 1,
              processes := s.processes[p := was.(phase := Unlinked(was.phase.inode))])
    case Release(_) =>
      if !was.phase.Holding? && !was.phase.Unlinked? then s
      else s.(owner := Dropped(s, p), processes := s.processes[p := was.(phase := Outside)])
    case Crash(_) =>
      s.(owner := Dropped(s, p), processes := s.processes[p := was.(phase := Outside)])
  }

  const INITIAL := State(None, 0, map[], map[], 0)

  function RunFrom(s: State, steps: seq<Step>): State {
    if steps == [] then s else Apply(RunFrom(s, steps[..|steps| - 1]), steps[|steps| - 1])
  }

  function Run(steps: seq<Step>): State { RunFrom(INITIAL, steps) }

  predicate Owns(phase: Phase, inode: nat) {
    (phase.Locked? || phase.Holding? || phase.Unlinked?) && phase.inode == inode
  }

  predicate HasOpen(phase: Phase) { !phase.Outside? && !phase.Reopening? }

  ghost predicate ProcessInv(s: State, p: nat) {
    var was := Of(s, p);
    && (forall inode :: Owns(was.phase, inode) <==> inode in s.owner && s.owner[inode] == p)
    && (HasOpen(was.phase) ==> was.phase.inode < s.next)
    // Past the check, the inode held is the one at the path.
    && (was.phase.Holding? ==> s.linked == Some(was.phase.inode))
    // An inode was linked when it was opened, so one no longer linked was unlinked since.
    && (was.phase.Opened? || was.phase.Locked? ==> s.linked == Some(was.phase.inode) || was.openedAt < s.unlinks)
    && was.openedAt <= s.unlinks && was.enteredAt + was.restarts <= s.unlinks
    && (HasOpen(was.phase) ==> was.enteredAt + was.restarts <= was.openedAt)
  }

  ghost predicate Inv(s: State) {
    && (s.linked.Some? ==> s.linked.value < s.next)
    && forall p :: ProcessInv(s, p)
  }

  lemma HoldersAreOne(s: State, p: nat, q: nat)
    requires Inv(s) && Of(s, p).phase.Holding? && Of(s, q).phase.Holding?
    ensures p == q
  {
    assert ProcessInv(s, p) && ProcessInv(s, q);
    assert Owns(Of(s, p).phase, Of(s, p).phase.inode) && Owns(Of(s, q).phase, Of(s, q).phase.inode);
  }

  /** One process's standing after a step, its own or another's. */
  lemma StepKeepsProcess(s: State, step: Step, p: nat)
    requires Inv(s)
    ensures ProcessInv(Apply(s, step), p)
  {
    assert ProcessInv(s, p) && ProcessInv(s, step.p);
    if Of(s, p).phase.Holding? && Of(s, step.p).phase.Holding? {
      HoldersAreOne(s, p, step.p);
    }
  }

  lemma StepKeeps(s: State, step: Step)
    requires Inv(s)
    ensures Inv(Apply(s, step))
  {
    forall p ensures ProcessInv(Apply(s, step), p) {
      StepKeepsProcess(s, step, p);
    }
    assert ProcessInv(s, step.p);
  }

  lemma {:induction false} EveryRunKeeps(steps: seq<Step>)
    ensures Inv(Run(steps))
  {
    if steps != [] {
      EveryRunKeeps(steps[..|steps| - 1]);
      StepKeeps(Run(steps[..|steps| - 1]), steps[|steps| - 1]);
    }
  }

  /** No two processes are past the check and short of release or unlink at once. */
  lemma Exclusion(steps: seq<Step>, p: nat, q: nat)
    requires Of(Run(steps), p).phase.Holding? && Of(Run(steps), q).phase.Holding?
    ensures p == q
  {
    EveryRunKeeps(steps);
    HoldersAreOne(Run(steps), p, q);
  }

  /** A waiter that comes to own an unlinked inode restarts, whatever happens before it checks. */
  lemma UnlinkedWaiterRestarts(steps: seq<Step>, later: seq<Step>, p: nat)
    requires var s := Run(steps); Of(s, p).phase.Locked? && s.linked != Some(Of(s, p).phase.inode)
    requires forall step :: step in later ==> step.p != p
    ensures Of(Apply(RunFrom(Run(steps), later), Check(p)), p).phase == Reopening
  {
    EveryRunKeeps(steps);
    OthersNeverRelink(Run(steps), later, p);
  }

  lemma {:induction false} OthersNeverRelink(s: State, later: seq<Step>, p: nat)
    requires Inv(s) && Of(s, p).phase.Locked? && s.linked != Some(Of(s, p).phase.inode)
    requires forall step :: step in later ==> step.p != p
    ensures var t := RunFrom(s, later);
      Of(t, p) == Of(s, p) && t.linked != Some(Of(s, p).phase.inode) && t.next >= s.next
  {
    assert ProcessInv(s, p);
    if later != [] {
      assert later[|later| - 1] in later;
      OthersNeverRelink(s, later[..|later| - 1], p);
    }
  }

  /** Once a holder deletes the lock file, whoever waited on it comes to own a dead inode and goes round,
      to the file that is at the path by then or a new one. */
  lemma DeletingSendsWaitersRound(steps: seq<Step>, holder: nat, waiter: nat)
    requires Of(Run(steps), holder).phase.Holding?
    requires Of(Run(steps), waiter).phase == Opened(Of(Run(steps), holder).phase.inode)
    ensures var released := Apply(Apply(Run(steps), Unlink(holder)), Release(holder));
      var t := Apply(Apply(released, Acquire(waiter)), Check(waiter));
      && Of(t, waiter).phase == Reopening && t.linked.None?
      && Of(Apply(t, Reopen(waiter)), waiter).phase == Opened(Run(steps).next)
  {
    EveryRunKeeps(steps);
    assert ProcessInv(Run(steps), holder) && ProcessInv(Run(steps), waiter);
    assert Owns(Of(Run(steps), holder).phase, Of(Run(steps), holder).phase.inode);
  }

  /** While nobody owns a lock, a waiter gets in: at once where its inode is still at the path, and
      otherwise after going round once. */
  lemma WaiterGetsIn(steps: seq<Step>, p: nat)
    requires Of(Run(steps), p).phase.Opened?
    requires forall q, inode :: !Owns(Of(Run(steps), q).phase, inode)
    ensures var s := Run(steps);
      var t := Apply(Apply(s, Acquire(p)), Check(p));
      if s.linked == Some(Of(s, p).phase.inode) then Of(t, p).phase == Holding(Of(s, p).phase.inode)
      else
        && Of(t, p).phase == Reopening
        && Of(Apply(Apply(Apply(t, Reopen(p)), Acquire(p)), Check(p)), p).phase.Holding?
  {
    EveryRunKeeps(steps);
    NobodyOwns(Run(steps));
  }

  lemma NobodyOwns(s: State)
    requires Inv(s) && forall q, inode :: !Owns(Of(s, q).phase, inode)
    ensures s.owner == map[]
  {
    forall inode ensures inode !in s.owner {
      OwnerOwns(s, inode);
    }
  }

  lemma OwnerOwns(s: State, inode: nat)
    requires Inv(s)
    ensures inode in s.owner ==> Owns(Of(s, s.owner[inode]).phase, inode)
  {
    if inode in s.owner {
      assert ProcessInv(s, s.owner[inode]);
    }
  }

  /** A process goes round again at most once for every unlink since it entered. */
  lemma RestartsAreUnlinks(steps: seq<Step>, p: nat)
    ensures Of(Run(steps), p).enteredAt + Of(Run(steps), p).restarts <= Run(steps).unlinks
  {
    EveryRunKeeps(steps);
    assert ProcessInv(Run(steps), p);
  }

  /** The file system as these processes use it: each method is one system call of process `p`. */
  class LockDirectory {
    var linked: Option<nat>
    var next: nat
    var owner: map<nat, nat>
    ghost var processes: map<nat, Process>
    ghost var unlinks: nat

    ghost function Current(): State
      reads this
    {
      State(linked, next, owner, processes, unlinks)
    }

    constructor ()
      ensures Current() == INITIAL
    {
      linked, next, owner, processes, unlinks := None, 0, map[], map[], 0;
    }

    /** Open the lock file, for the first time or again. */
    method Open(p: nat, again: bool) returns (inode: nat)
      requires Of(Current(), p).phase == if again then Reopening else Outside
      modifies this
      ensures Current() == Apply(old(Current()), if again then Reopen(p) else Enter(p))
      ensures linked == Some(inode)
    {
      if linked.None? {
        linked, next := Some(next), next + 1;
      }
      inode := linked.value;
      ghost var was := Of(Current(), p);
      processes := processes[p := if again then was.(phase := Opened(inode), openedAt := unlinks)
                                  else Process(Opened(inode), unlinks, unlinks, 0)];
    }

    method TryLock(p: nat, inode: nat) returns (acquired: bool)
      requires Of(Current(), p).phase == Opened(inode)
      modifies this
      ensures Current() == Apply(old(Current()), Acquire(p)) && acquired == (inode !in old(owner))
    {
      acquired := inode !in owner;
      if acquired {
        owner := owner[inode := p];
        processes := processes[p := Of(Current(), p).(phase := Locked(inode))];
      }
    }

    /** The link check after an acquisition, closing an inode that is no longer at the path. */
    method StillLinked(p: nat, inode: nat) returns (held: bool)
      requires Of(Current(), p).phase == Locked(inode)
      modifies this
      ensures Current() == Apply(old(Current()), Check(p))
      ensures held <==> Of(Current(), p).phase == Holding(inode)
    {
      held := linked == Some(inode);
      ghost var was := Of(Current(), p);
      if held {
        processes := processes[p := was.(phase := Holding(inode))];
      } else {
        owner := map other | other in owner && owner[other] != p :: owner[other];
        processes := processes[p := was.(phase := Reopening, restarts := was.restarts + 1)];
      }
    }

    method Remove(p: nat)
      requires Of(Current(), p).phase.Holding?
      modifies this
      ensures Current() == Apply(old(Current()), Unlink(p))
    {
      linked := None;
      processes := processes[p := Of(Current(), p).(phase := Unlinked(Of(Current(), p).phase.inode))];
      unlinks := unlinks + 1;
    }

    method Unlock(p: nat)
      requires Of(Current(), p).phase.Holding? || Of(Current(), p).phase.Unlinked?
      modifies this
      ensures Current() == Apply(old(Current()), Release(p))
    {
      owner := map other | other in owner && owner[other] != p :: owner[other];
      processes := processes[p := Of(Current(), p).(phase := Outside)];
    }
  }
}
