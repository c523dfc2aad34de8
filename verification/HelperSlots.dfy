/** The plugin's bounded helpers: a counter of slots taken and a queue of invocations waiting.

Each run of JavaScript between two awaits is one step. */
module HelperSlots {

  const HELPER_LIMIT: nat := 8

  /** Where one invocation stands between steps. */
  datatype Call =
    | Waiting                                   // its wake-up is queued, its timer set
    | Resumable(woken: bool)                    // woken by a release, or timed out; not yet run on
    | Started(released: bool, answered: bool)   // took a slot
    | GaveUp                                    // answered null without a slot

  datatype Slots = Slots(helpers: int, waiters: seq<nat>, calls: map<nat, Call>)

  datatype Step =
    | Invoke(id: nat, late: bool, spawns: bool)   // a new invocation, up to its first await
    | Resume(id: nat, late: bool, spawns: bool)   // a waiter goes round the loop again
    | TimeOut(id: nat)                            // a waiter's timer fires
    | Ended(id: nat)                              // the helper's "error" or "close" event
    | Deadline(id: nat)                           // the helper is killed at its deadline

  // -- The steps as functions of the state ----------------------------------------------------

  function Woken(s: Slots): Slots {
    if s.waiters == [] then s
    else s.(waiters := s.waiters[1..], calls := s.calls[s.waiters[0] := Resumable(true)])
  }

  function Released(s: Slots, id: nat): Slots {
    if id in s.calls && s.calls[id].Started? && !s.calls[id].released then
      Woken(s.(helpers := s.helpers - 1, calls := s.calls[id := Started(true, s.calls[id].answered)]))
    else s
  }

  function Answered(s: Slots, id: nat): Slots {
    if id in s.calls && s.calls[id].Started?
    then s.(calls := s.calls[id := Started(s.calls[id].released, true)])
    else s
  }

  function Attempted(s: Slots, id: nat, late: bool, spawns: bool): Slots {
    if s.helpers >= HELPER_LIMIT then
      if late then s.(calls := s.calls[id := GaveUp])
      else s.(waiters := s.waiters + [id], calls := s.calls[id := Waiting])
    else
      var taken := s.(helpers := s.helpers + 1, calls := s.calls[id := Started(false, false)]);
      if spawns then taken else Answered(Released(taken, id), id)
  }

  function Without(waiters: seq<nat>, id: nat): seq<nat> {
    if waiters == [] then []
    else if waiters[0] == id then waiters[1..]
    else [waiters[0]] + Without(waiters[1..], id)
  }

  /** A step that cannot be taken leaves the state as it is. */
  function Apply(s: Slots, step: Step): Slots {
    match step
    case Invoke(id, late, spawns) => if id in s.calls then s else Attempted(s, id, late, spawns)
    case Resume(id, late, spawns) =>
      if id in s.calls && s.calls[id].Resumable? then Attempted(s, id, late, spawns) else s
    case TimeOut(id) =>
      if id in s.calls && s.calls[id] == Waiting
      then s.(waiters := Without(s.waiters, id), calls := s.calls[id := Resumable(false)])
      else s
    case Ended(id) => Answered(Released(s, id), id)
    case Deadline(id) => Answered(s, id)
  }

  const INITIAL := Slots(0, [], map[])

  function RunFrom(s: Slots, steps: seq<Step>): Slots {
    if steps == [] then s else Apply(RunFrom(s, steps[..|steps| - 1]), steps[|steps| - 1])
  }

  function Run(steps: seq<Step>): Slots { RunFrom(INITIAL, steps) }

  // -- The invariant ---------------------------------------------------------------------------

  predicate HoldsSlot(call: Call) { call.Started? && !call.released }

  predicate IsWoken(call: Call) { call == Resumable(true) }

  function Holders(calls: map<nat, Call>): set<nat> { set id | id in calls && HoldsSlot(calls[id]) }

  function Pending(calls: map<nat, Call>): set<nat> { set id | id in calls && IsWoken(calls[id]) }

  /** The helpers counted are the invocations holding a slot, never more than the limit, and
      while anyone waits the slots held and the wake-ups still pending fill the limit. */
  ghost predicate Inv(s: Slots) {
    && s.helpers == |Holders(s.calls)| <= HELPER_LIMIT
    && (forall i, j :: 0 <= i < j < |s.waiters| ==> s.waiters[i] != s.waiters[j])
    && (forall id :: id in s.waiters <==> id in s.calls && s.calls[id] == Waiting)
    && (s.waiters != [] ==> s.helpers + |Pending(s.calls)| >= HELPER_LIMIT)
  }

  lemma SetCall(calls: map<nat, Call>, id: nat, call: Call)
    ensures Holders(calls[id := call]) ==
      if HoldsSlot(call) then Holders(calls) + {id} else Holders(calls) - {id}
    ensures Pending(calls[id := call]) ==
      if IsWoken(call) then Pending(calls) + {id} else Pending(calls) - {id}
  {
  }

  lemma WokenKeeps(s: Slots)
    requires s.helpers == |Holders(s.calls)| <= HELPER_LIMIT
    requires forall i, j :: 0 <= i < j < |s.waiters| ==> s.waiters[i] != s.waiters[j]
    requires forall id :: id in s.waiters <==> id in s.calls && s.calls[id] == Waiting
    requires s.waiters != [] ==> s.helpers + |Pending(s.calls)| >= HELPER_LIMIT - 1
    ensures Inv(Woken(s))
  {
    if s.waiters != [] {
      var first := s.waiters[0];
      assert first in s.waiters;
      SetCall(s.calls, first, Resumable(true));
      assert forall id :: id in s.waiters[1..] <==> id in s.waiters && id != first;
    }
  }

  lemma ReleasedKeeps(s: Slots, id: nat)
    requires Inv(s)
    ensures Inv(Released(s, id))
  {
    if id in s.calls && s.calls[id].Started? && !s.calls[id].released {
      SetCall(s.calls, id, Started(true, s.calls[id].answered));
      assert id in Holders(s.calls);
      WokenKeeps(s.(helpers := s.helpers - 1, calls := s.calls[id := Started(true, s.calls[id].answered)]));
    }
  }

  lemma AnswerHoldsNothing(calls: map<nat, Call>, id: nat)
    requires id in calls && calls[id].Started?
    ensures var after := calls[id := Started(calls[id].released, true)];
      Holders(after) == Holders(calls) && Pending(after) == Pending(calls)
  {
  }

  lemma AnsweredKeeps(s: Slots, id: nat)
    requires Inv(s)
    ensures Inv(Answered(s, id))
  {
    if id in s.calls && s.calls[id].Started? {
      AnswerHoldsNothing(s.calls, id);
      hide Holders, Pending;
    }
  }

  lemma TakenKeeps(s: Slots, id: nat)
    requires Inv(s) && (id in s.calls ==> s.calls[id].Resumable?) && s.helpers < HELPER_LIMIT
    ensures Inv(s.(helpers := s.helpers + 1, calls := s.calls[id := Started(false, false)]))
  {
    SetCall(s.calls, id, Started(false, false));
    assert id !in Holders(s.calls);
  }

  lemma QueuedKeeps(s: Slots, id: nat, late: bool)
    requires Inv(s) && (id in s.calls ==> s.calls[id].Resumable?) && s.helpers >= HELPER_LIMIT
    ensures Inv(Attempted(s, id, late, true))
  {
    var call := if late then GaveUp else Waiting;
    SetCall(s.calls, id, call);
    assert Holders(s.calls[id := call]) == Holders(s.calls);
    assert id !in s.waiters;
  }

  lemma AttemptedKeeps(s: Slots, id: nat, late: bool, spawns: bool)
    requires Inv(s) && (id in s.calls ==> s.calls[id].Resumable?)
    ensures Inv(Attempted(s, id, late, spawns))
  {
    hide Inv;
    if s.helpers >= HELPER_LIMIT {
      QueuedKeeps(s, id, late);
    } else {
      TakenKeeps(s, id);
      var taken := s.(helpers := s.helpers + 1, calls := s.calls[id := Started(false, false)]);
      ReleasedKeeps(taken, id);
      AnsweredKeeps(Released(taken, id), id);
    }
  }

  lemma {:induction false} WithoutElement(waiters: seq<nat>, id: nat)
    requires forall i, j :: 0 <= i < j < |waiters| ==> waiters[i] != waiters[j]
    ensures var rest := Without(waiters, id);
      && (forall other :: other in rest <==> other in waiters && other != id)
      && (forall i, j :: 0 <= i < j < |rest| ==> rest[i] != rest[j])
  {
    if waiters != [] {
      assert waiters == [waiters[0]] + waiters[1..];
      assert forall other :: other in waiters[1..] ==> other != waiters[0];
      if waiters[0] != id {
        WithoutElement(waiters[1..], id);
        assert waiters[0] !in Without(waiters[1..], id);
      }
    }
  }

  lemma {:induction false} WithoutSplit(waiters: seq<nat>, id: nat, index: nat)
    requires index <= |waiters| && id !in waiters[..index]
    requires index < |waiters| ==> waiters[index] == id
    ensures Without(waiters, id) ==
      if index < |waiters| then waiters[..index] + waiters[index + 1..] else waiters
  {
    if index > 0 {
      assert waiters[0] in waiters[..index];
      assert waiters[1..][..index - 1] == waiters[..index][1..];
      WithoutSplit(waiters[1..], id, index - 1);
      assert Without(waiters, id) == [waiters[0]] + Without(waiters[1..], id);
      if index < |waiters| {
        assert waiters[1..][index..] == waiters[index + 1..];
        assert waiters[..index] == [waiters[0]] + waiters[1..][..index - 1];
      } else {
        assert waiters == [waiters[0]] + waiters[1..];
      }
    }
  }

  lemma StepKeeps(s: Slots, step: Step)
    requires Inv(s)
    ensures Inv(Apply(s, step))
  {
    match step
    case Invoke(id, late, spawns) =>
      if id !in s.calls { AttemptedKeeps(s, id, late, spawns); }
    case Resume(id, late, spawns) =>
      if id in s.calls && s.calls[id].Resumable? { AttemptedKeeps(s, id, late, spawns); }
    case TimeOut(id) =>
      if id in s.calls && s.calls[id] == Waiting {
        SetCall(s.calls, id, Resumable(false));
        WithoutElement(s.waiters, id);
        assert Holders(Apply(s, step).calls) == Holders(s.calls);
        assert Pending(Apply(s, step).calls) == Pending(s.calls);
        assert Without(s.waiters, id) != [] ==> s.waiters != [];
      }
    case Ended(id) =>
      ReleasedKeeps(s, id);
      AnsweredKeeps(Released(s, id), id);
    case Deadline(id) =>
      AnsweredKeeps(s, id);
  }

  /** Every schedule of invocations, timers, newcomers, failed spawns and late closes keeps it. */
  lemma {:induction false} EveryRunKeeps(steps: seq<Step>)
    ensures Inv(Run(steps))
  {
    if steps == [] {
      assert Holders(map[]) == {};
    } else {
      EveryRunKeeps(steps[..|steps| - 1]);
      StepKeeps(Run(steps[..|steps| - 1]), steps[|steps| - 1]);
    }
  }

  /** No wake-up is lost: with no helper running and none woken, nobody is left waiting. */
  lemma NobodyWaitsForNothing(steps: seq<Step>)
    requires forall id :: id in Run(steps).calls ==>
      !HoldsSlot(Run(steps).calls[id]) && !IsWoken(Run(steps).calls[id])
    ensures Run(steps).waiters == [] && Run(steps).helpers == 0
  {
    EveryRunKeeps(steps);
    assert Holders(Run(steps).calls) == {} && Pending(Run(steps).calls) == {};
  }

  /** A slot is held until its helper ends, and reaching the deadline does not give it back; but either
      answers the invocation. */
  lemma SlotIsHeldUntilTheEnd(steps: seq<Step>, step: Step, id: nat)
    requires id in Run(steps).calls && HoldsSlot(Run(steps).calls[id])
    ensures var t := Apply(Run(steps), step);
      step != Ended(id) ==> id in t.calls && HoldsSlot(t.calls[id])
    ensures Apply(Run(steps), Ended(id)).calls[id] == Started(true, true)
    ensures Apply(Run(steps), Deadline(id)).calls[id] == Started(false, true)
  {
    EveryRunKeeps(steps);
    var waiters := Run(steps).waiters;
    assert waiters != [] ==> waiters[0] in waiters;
    if step.TimeOut? { WithoutElement(waiters, step.id); }
  }

  /** A helper that cannot be started gives its slot back at once, to whoever waits first. */
  lemma FailedSpawnHoldsNothing(steps: seq<Step>, step: Step, id: nat, late: bool)
    requires Attempts(step, id, late) && !step.spawns && Run(steps).helpers < HELPER_LIMIT
    requires step.Invoke? <==> id !in Run(steps).calls
    requires step.Resume? ==> Run(steps).calls[id].Resumable?
    ensures var t := Apply(Run(steps), step);
      t.calls[id] == Started(true, true) && t.helpers == Run(steps).helpers
  {
    EveryRunKeeps(steps);
    assert Run(steps).waiters != [] ==> Run(steps).waiters[0] in Run(steps).waiters;
  }

  /** The step is an attempt of `id`, past its deadline or not. */
  predicate Attempts(step: Step, id: nat, late: bool) {
    (step.Invoke? || step.Resume?) && step.id == id && step.late == late
  }

  /** Nobody gives up but past its deadline, with every slot taken. */
  lemma {:induction false} GivesUpOnlyLate(steps: seq<Step>, id: nat)
    requires id in Run(steps).calls && Run(steps).calls[id] == GaveUp
    ensures exists n :: 0 <= n < |steps| && Attempts(steps[n], id, true) && Run(steps[..n]).helpers >= HELPER_LIMIT
  {
    var n := |steps| - 1;
    var before := Run(steps[..n]);
    if id in before.calls && before.calls[id] == GaveUp {
      GivesUpOnlyLate(steps[..n], id);
      var k :| 0 <= k < n && Attempts(steps[..n][k], id, true) && Run(steps[..n][..k]).helpers >= HELPER_LIMIT;
      assert steps[..n][..k] == steps[..k];
    } else {
      assert Attempts(steps[n], id, true) && Run(steps[..n]).helpers >= HELPER_LIMIT;
    }
  }

  /** And past it nobody waits on; before it, a newcomer with every slot taken waits last. */
  lemma NobodyWaitsLate(steps: seq<Step>, step: Step, id: nat)
    requires Attempts(step, id, true) && id !in Run(steps).waiters
    ensures id !in Apply(Run(steps), step).waiters
  {
  }

  /** Whoever stands before `id` in the queue. */
  function Ahead(waiters: seq<nat>, id: nat): set<nat> {
    if waiters == [] || waiters[0] == id then {} else {waiters[0]} + Ahead(waiters[1..], id)
  }

  lemma {:induction false} AheadOfNewcomer(waiters: seq<nat>, id: nat, newcomer: nat)
    requires id in waiters
    ensures Ahead(waiters + [newcomer], id) == Ahead(waiters, id)
  {
    assert (waiters + [newcomer])[0] == waiters[0];
    if waiters[0] != id {
      AheadOfNewcomer(waiters[1..], id, newcomer);
      assert (waiters + [newcomer])[1..] == waiters[1..] + [newcomer];
    }
  }

  lemma {:induction false} AheadWithout(waiters: seq<nat>, id: nat, gone: nat)
    requires id in waiters && gone != id
    ensures Ahead(Without(waiters, gone), id) <= Ahead(waiters, id)
  {
    if waiters[0] != id && waiters[0] != gone {
      AheadWithout(waiters[1..], id, gone);
    }
  }

  predicate NewlyWoken(s: Slots, t: Slots, id: nat) {
    id in t.calls && t.calls[id] == Resumable(true) && !(id in s.calls && s.calls[id] == Resumable(true))
  }

  /** A step appends one to the queue, wakes the first, takes out one that timed out, or leaves it. */
  lemma StepOfQueue(s: Slots, step: Step, id: nat)
    ensures var t := Apply(s, step);
      || (t.waiters == s.waiters && !NewlyWoken(s, t, id))
      || (t.waiters == s.waiters + [step.id] && !NewlyWoken(s, t, id))
      || (step.TimeOut? && t.waiters == Without(s.waiters, step.id) && !NewlyWoken(s, t, id))
      || (s.waiters != [] && t.waiters == s.waiters[1..] && (NewlyWoken(s, t, id) ==> id == s.waiters[0]))
  {
  }

  lemma AheadOfRest(waiters: seq<nat>, waiter: nat)
    requires waiters != [] && waiter in waiters[1..] && forall i :: 0 < i < |waiters| ==> waiters[i] != waiters[0]
    ensures Ahead(waiters[1..], waiter) <= Ahead(waiters, waiter) && waiters[0] in Ahead(waiters, waiter)
  {
  }

  lemma StepWakesAhead(s: Slots, step: Step, waiter: nat, id: nat)
    requires Inv(s) && waiter in s.waiters && waiter in Apply(s, step).waiters
    ensures Ahead(Apply(s, step).waiters, waiter) <= Ahead(s.waiters, waiter)
    ensures NewlyWoken(s, Apply(s, step), id) ==> id in Ahead(s.waiters, waiter)
  {
    hide Apply, Ahead, NewlyWoken;
    StepOfQueue(s, step, id);
    AheadOfNewcomer(s.waiters, waiter, step.id);
    WithoutElement(s.waiters, step.id);
    if step.id != waiter { AheadWithout(s.waiters, waiter, step.id); }
    if s.waiters != [] && waiter in s.waiters[1..] { AheadOfRest(s.waiters, waiter); }
  }

  /** Wake-ups come in queue order: while one waits, whoever is woken stood before it. */
  lemma {:induction false} NobodyIsWokenOutOfTurn(s: Slots, later: seq<Step>, waiter: nat, id: nat)
    requires Inv(s) && forall n :: 0 <= n <= |later| ==> waiter in RunFrom(s, later[..n]).waiters
    ensures var t := RunFrom(s, later);
      && Inv(t) && Ahead(t.waiters, waiter) <= Ahead(s.waiters, waiter)
      && (NewlyWoken(s, t, id) ==> id in Ahead(s.waiters, waiter))
  {
    hide Inv, Apply, Ahead;
    var n := |later|;
    assert later[..n] == later;
    if n > 0 {
      var front := later[..n - 1];
      forall k | 0 <= k <= |front| ensures waiter in RunFrom(s, front[..k]).waiters {
        assert front[..k] == later[..k];
      }
      NobodyIsWokenOutOfTurn(s, front, waiter, id);
      StepKeeps(RunFrom(s, front), later[n - 1]);
      assert later[..n - 1] == front;
      StepWakesAhead(RunFrom(s, front), later[n - 1], waiter, id);
    } else {
      assert waiter in RunFrom(s, later[..0]).waiters;
    }
  }

  /** Once its helper has ended, no event of an invocation, whenever it comes, releases a slot again. */
  lemma {:induction false} SlotIsReleasedOnce(s: Slots, id: nat, later: seq<Step>)
    requires Inv(s) && id in s.calls && s.calls[id] == Started(true, true)
    ensures var t := RunFrom(s, later);
      Inv(t) && id in t.calls && t.calls[id] == Started(true, true) && Apply(t, Ended(id)) == t
  {
    if later != [] {
      var t := RunFrom(s, later[..|later| - 1]);
      SlotIsReleasedOnce(s, id, later[..|later| - 1]);
      StepKeeps(t, later[|later| - 1]);
      StartedStays(t, id, later[|later| - 1]);
    } else {
      assert s.calls[id := Started(true, true)] == s.calls;
    }
  }

  lemma StartedStays(s: Slots, id: nat, step: Step)
    requires Inv(s) && id in s.calls && s.calls[id] == Started(true, true)
    ensures var t := Apply(s, step);
      id in t.calls && t.calls[id] == Started(true, true) && Apply(t, Ended(id)) == t
  {
    assert id !in s.waiters;
    assert s.waiters != [] ==> s.waiters[0] in s.waiters;
    var t := Apply(s, step);
    assert t.calls[id := Started(true, true)] == t.calls;
  }

  /** The part of the registry every instance of the plugin shares for its helpers. */
  class HelperRegistry {
    var helpers: int
    var waiters: seq<nat>
    var calls: map<nat, Call>

    function State(): Slots
      reads this
    {
      Slots(helpers, waiters, calls)
    }

    constructor ()
      ensures State() == INITIAL
    {
      helpers, waiters, calls := 0, [], map[];
    }

    method Release(id: nat)
      modifies this
      ensures State() == Released(old(State()), id)
    {
      if id !in calls || !calls[id].Started? || calls[id].released { return; }
      calls := calls[id := Started(true, calls[id].answered)];
      helpers := helpers - 1;
      if waiters != [] {
        var wake := waiters[0];
        waiters := waiters[1..];
        calls := calls[wake := Resumable(true)];
      }
    }

    /** Run `invoke` from the top of its loop to its next await. */
    method Attempt(id: nat, late: bool, spawns: bool)
      modifies this
      ensures State() == Attempted(old(State()), id, late, spawns)
    {
      if helpers >= HELPER_LIMIT {
        if late {
          calls := calls[id := GaveUp];
        } else {
          waiters := waiters + [id];
          calls := calls[id := Waiting];
        }
        return;
      }
      helpers := helpers + 1;
      calls := calls[id := Started(false, false)];
      if !spawns {
        Release(id);
        Answer(id);
      }
    }

    method Answer(id: nat)
      modifies this
      ensures State() == Answered(old(State()), id)
    {
      if id in calls && calls[id].Started? {
        calls := calls[id := Started(calls[id].released, true)];
      }
    }

    /** A waiter that times out takes its wake-up out of the queue, if it is still there. */
    method Expire(id: nat)
      requires id in calls && calls[id] == Waiting
      modifies this
      ensures State() == Apply(old(State()), TimeOut(id))
    {
      var index := 0;
      while index < |waiters| && waiters[index] != id
        invariant index <= |waiters|
        invariant id !in waiters[..index]
      {
        index := index + 1;
      }
      WithoutSplit(waiters, id, index);
      if index < |waiters| {
        waiters := waiters[..index] + waiters[index + 1..];
      }
      calls := calls[id := Resumable(false)];
    }
  }
}
