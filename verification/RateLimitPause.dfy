/** The account's rate limit as the sharing gateways last saw it, and the pause after a refusal.

Instants are microseconds. Every method of `LatestRateLimit` is one step under its lock, reading
the clock once. */
module RateLimitPause {
  import opened Wrappers

  const MINUTE: int := 60_000_000
  const PAUSE_BACKOFF: int := MINUTE
  const PAUSE_BACKOFF_LIMIT: int := 60 * MINUTE
  const PAUSE_BACKOFF_DOUBLINGS: nat := BitLength(PAUSE_BACKOFF_LIMIT / PAUSE_BACKOFF)

  // -- The backoff ----------------------------------------------------------------------------

  function BitLength(n: nat): nat { if n == 0 then 0 else 1 + BitLength(n / 2) }

  function Pow2(n: nat): nat { if n == 0 then 1 else 2 * Pow2(n - 1) }

  function Min(a: int, b: int): int { if a <= b then a else b }

  /** How long the `refusals`-th refusal in a row waits when it waits by backoff. */
  function Backoff(refusals: nat): int
    requires refusals > 0
  {
    Min(PAUSE_BACKOFF * Pow2(Min(refusals - 1, PAUSE_BACKOFF_DOUBLINGS)), PAUSE_BACKOFF_LIMIT)
  }

  lemma {:induction false} BitLengthBounds(n: nat)
    ensures n < Pow2(BitLength(n))
    ensures n > 0 ==> Pow2(BitLength(n) - 1) <= n
  {
    if n > 0 {
      BitLengthBounds(n / 2);
      if n / 2 > 0 {
        assert Pow2(BitLength(n) - 1) == 2 * Pow2(BitLength(n / 2) - 1);
      }
    }
  }

  lemma {:induction false} Pow2Grows(m: nat, n: nat)
    requires m <= n
    ensures Pow2(m) <= Pow2(n)
  {
    if m < n {
      Pow2Grows(m, n - 1);
    }
  }

  /** The backoff doubled `doublings` times is at least the limit. */
  predicate Reaches(backoff: int, limit: int, doublings: nat) { backoff * Pow2(doublings) >= limit }

  lemma Scaled(k: int, a: int, b: int)
    requires k > 0 && a <= b
    ensures k * a <= k * b
  {
  }

  lemma Quotient(backoff: int, limit: int) returns (quotient: nat)
    requires backoff > 0 && limit >= 0
    ensures quotient == limit / backoff
    ensures backoff * quotient <= limit < backoff * (quotient + 1)
    ensures backoff <= limit ==> quotient > 0
  {
    quotient := limit / backoff;
  }

  /** Doubled as often as the quotient of limit and backoff has bits, the backoff passes the limit. */
  lemma CapPassesLimit(backoff: int, limit: int)
    requires backoff > 0 && limit >= 0
    ensures backoff * Pow2(BitLength(limit / backoff)) > limit
  {
    var quotient := Quotient(backoff, limit);
    BitLengthBounds(quotient);
    Scaled(backoff, quotient + 1, Pow2(BitLength(quotient)));
  }

  /** For any backoff and limit, a cap at the bit length of their quotient changes no delay. */
  lemma CapChangesNoDelay(backoff: int, limit: int, doublings: nat)
    requires backoff > 0 && limit >= 0
    ensures Min(backoff * Pow2(Min(doublings, BitLength(limit / backoff))), limit)
         == Min(backoff * Pow2(doublings), limit)
  {
    var cap := BitLength(limit / backoff);
    if doublings > cap {
      CapPassesLimit(backoff, limit);
      Pow2Grows(cap, doublings);
      Scaled(backoff, Pow2(cap), Pow2(doublings));
    }
  }

  /** The delay is the uncapped doubling clipped at the limit, for every run of refusals. */
  lemma BackoffIsClippedDoubling(refusals: nat)
    requires refusals > 0
    ensures Backoff(refusals) == Min(PAUSE_BACKOFF * Pow2(refusals - 1), PAUSE_BACKOFF_LIMIT)
    ensures 0 < Backoff(refusals) <= PAUSE_BACKOFF_LIMIT
  {
    CapChangesNoDelay(PAUSE_BACKOFF, PAUSE_BACKOFF_LIMIT, refusals - 1);
    Pow2Grows(0, refusals - 1);
    Scaled(PAUSE_BACKOFF, 1, Pow2(refusals - 1));
  }

  /** No fewer doublings reach the limit, exactly when the limit is not itself the backoff doubled
      one time fewer. Here it is not. */
  lemma CapIsFewestDoublings(backoff: int, limit: int)
    requires 0 < backoff <= limit
    ensures var cap := BitLength(limit / backoff);
      && cap > 0 && Reaches(backoff, limit, cap)
      && ((forall d: nat :: d < cap ==> !Reaches(backoff, limit, d)) <==> limit != backoff * Pow2(cap - 1))
    ensures PAUSE_BACKOFF * Pow2(PAUSE_BACKOFF_DOUBLINGS - 1) < PAUSE_BACKOFF_LIMIT
  {
    var quotient := Quotient(backoff, limit);
    var cap := BitLength(quotient);
    CapPassesLimit(backoff, limit);
    BitLengthBounds(quotient);
    Scaled(backoff, Pow2(cap - 1), quotient);
    forall d: nat | d < cap ensures backoff * Pow2(d) <= backoff * Pow2(cap - 1) {
      Pow2Grows(d, cap - 1);
      Scaled(backoff, Pow2(d), Pow2(cap - 1));
    }
    if limit == backoff * Pow2(cap - 1) {
      assert Reaches(backoff, limit, cap - 1);
    }
    SixDoublings();
  }

  lemma SixDoublings()
    ensures PAUSE_BACKOFF_DOUBLINGS == 6 && Pow2(5) == 32 && Pow2(6) == 64
  {
  }

  // -- The state and its steps ----------------------------------------------------------------

  datatype Kind = Primary | Secondary

  /** `reset` is the instant the text `resetAt` reads as. */
  datatype RateLimit = RateLimit(cost: int, limit: int, remaining: int, resetAt: string, reset: int) {
    predicate Low() { remaining * 10 < limit }
  }

  datatype Pause = Pause(kind: Kind, until: int, attemptAllowed: bool)

  datatype Limits = Limits(reading: Option<RateLimit>, pause: Option<Pause>, refusals: nat, generation: nat)

  const FRESH := Limits(None, None, 0, 0)

  function Recorded(s: Limits, reading: RateLimit): Limits {
    if s.reading.Some? && s.reading.value.resetAt == reading.resetAt && s.reading.value.remaining < reading.remaining
    then s
    else s.(reading := Some(reading))
  }

  predicate InForce(s: Limits, now: int) { s.pause.Some? && now < s.pause.value.until }

  predicate Admissible(s: Limits, now: int) { InForce(s, now) ==> s.pause.value.attemptAllowed }

  function AfterAdmit(s: Limits, now: int): Limits {
    if !InForce(s, now) then s.(pause := None)
    else if s.pause.value.attemptAllowed then s.(pause := Some(s.pause.value.(attemptAllowed := false)))
    else s
  }

  function AfterAnswer(s: Limits, ticket: nat): Limits {
    if ticket != s.generation then s else s.(refusals := 0, pause := None)
  }

  function PausedUntil(s: Limits, kind: Kind, now: int): int {
    if kind == Primary && s.reading.Some? && s.reading.value.Low() && s.reading.value.reset > now
    then s.reading.value.reset
    else now + Backoff(s.refusals + 1)
  }

  function AfterRefusal(s: Limits, ticket: nat, kind: Kind, now: int): Limits {
    if ticket != s.generation then s
    else s.(generation := s.generation + 1, refusals := s.refusals + 1,
            pause := Some(Pause(kind, PausedUntil(s, kind, now), false)))
  }

  function AfterLift(s: Limits): Limits {
    if s.pause.Some? then s.(pause := Some(s.pause.value.(attemptAllowed := true))) else s
  }

  /** A pause always starts in the future. */
  lemma PauseEndsInTheFuture(s: Limits, kind: Kind, now: int)
    ensures PausedUntil(s, kind, now) > now
  {
    BackoffIsClippedDoubling(s.refusals + 1);
  }

  /** The readings of one window, in whatever order they arrive, leave the one with fewest points. */
  function RecordedAll(s: Limits, readings: seq<RateLimit>): Limits {
    if readings == [] then s
    else Recorded(RecordedAll(s, readings[..|readings| - 1]), readings[|readings| - 1])
  }

  lemma {:induction false} LatestReadingHasFewestPoints(s: Limits, readings: seq<RateLimit>, window: string)
    requires readings != [] && (s.reading.Some? ==> s.reading.value.resetAt != window)
    requires forall reading :: reading in readings ==> reading.resetAt == window
    ensures var held := RecordedAll(s, readings).reading;
      && held.Some? && held.value in readings
      && forall reading :: reading in readings ==> held.value.remaining <= reading.remaining
  {
    var n := |readings| - 1;
    assert readings == readings[..n] + [readings[n]];
    if n > 0 {
      LatestReadingHasFewestPoints(s, readings[..n], window);
    }
    hide RecordedAll;
    FewerPointsStay(RecordedAll(s, readings[..n]), readings[n], window);
    LastIsRecorded(s, readings);
  }

  lemma LastIsRecorded(s: Limits, readings: seq<RateLimit>)
    requires readings != []
    ensures RecordedAll(s, readings) == Recorded(RecordedAll(s, readings[..|readings| - 1]), readings[|readings| - 1])
    ensures RecordedAll(s, []) == s
  {
  }

  lemma FewerPointsStay(s: Limits, reading: RateLimit, window: string)
    requires reading.resetAt == window
    ensures var held := Recorded(s, reading).reading;
      && held.Some? && held.value.remaining <= reading.remaining
      && (held.value == reading || s.reading == held)
      && (s.reading.Some? && s.reading.value.resetAt == window ==> held.value.remaining <= s.reading.value.remaining)
      && (s.reading.Some? && s.reading.value.resetAt != window ==> held.value == reading)
  {
  }

  /** The object the gateways of one account share. */
  class LatestRateLimit {
    var reading: Option<RateLimit>
    var pause: Option<Pause>
    var refusals: nat
    var generation: nat

    function State(): Limits
      reads this
    {
      Limits(reading, pause, refusals, generation)
    }

    constructor ()
      ensures State() == FRESH
    {
      reading, pause, refusals, generation := None, None, 0, 0;
    }

    method Record(latest: RateLimit)
      modifies this
      ensures State() == Recorded(old(State()), latest)
    {
      if reading.Some? && reading.value.resetAt == latest.resetAt && reading.value.remaining < latest.remaining {
        return;
      }
      reading := Some(latest);
    }

    /** Admit one request under a ticket, or hold it while a pause is in force. */
    method Admit(now: int) returns (ticket: Option<nat>)
      modifies this
      ensures State() == AfterAdmit(old(State()), now)
      ensures ticket == if Admissible(old(State()), now) then Some(old(generation)) else None
    {
      if pause.Some? && now < pause.value.until {
        if !pause.value.attemptAllowed {
          return None;
        }
        pause := Some(pause.value.(attemptAllowed := false));
        return Some(generation);
      }
      pause := None;
      return Some(generation);
    }

    /** Returns how the pause it ended is recorded: true for lifted, false for lapsed. */
    method Answer(ticket: nat, now: int) returns (lifted: Option<bool>)
      modifies this
      ensures State() == AfterAnswer(old(State()), ticket)
      ensures lifted == if ticket == old(generation) && old(pause).Some?
        then Some(now < old(pause).value.until) else None
    {
      if ticket != generation { return None; }
      refusals := 0;
      lifted := if pause.Some? then Some(now < pause.value.until) else None;
      pause := None;
    }

    method Refuse(ticket: nat, kind: Kind, now: int)
      modifies this
      ensures State() == AfterRefusal(old(State()), ticket, kind, now)
    {
      if ticket != generation { return; }
      generation := generation + 1;
      refusals := refusals + 1;
      var until;
      if kind == Primary && reading.Some? && reading.value.Low() && reading.value.reset > now {
        until := reading.value.reset;
      } else {
        until := now + Backoff(refusals);
      }
      pause := Some(Pause(kind, until, false));
    }

    method Lift()
      modifies this
      ensures State() == AfterLift(old(State()))
    {
      if pause.Some? {
        pause := Some(pause.value.(attemptAllowed := true));
      }
    }
  }

  // -- Runs of many requests ------------------------------------------------------------------

  /** One request admitted: its ticket, whether a lift let it through a pause in force, and
      whether its outcome has been reported. */
  datatype Request = Request(ticket: nat, attempt: bool, reported: bool)

  /** The shared limits with the history of a run: every request admitted, the lifts made since
      the latest refusal that started a pause, and the tickets of the refusals that did. */
  datatype World = World(limits: Limits, requests: map<nat, Request>, lifts: nat, starts: seq<nat>)

  datatype Step =
    | Read(reading: RateLimit)
    | Send(id: nat, now: int)
    | Succeed(id: nat)
    | Refused(id: nat, kind: Kind, now: int)
    | Fail(id: nat)
    | Lift

  predicate Reportable(w: World, id: nat) { id in w.requests && !w.requests[id].reported }

  function Reported(w: World, id: nat): World
    requires id in w.requests
  {
    w.(requests := w.requests[id := w.requests[id].(reported := true)])
  }

  function Apply(w: World, step: Step): World {
    match step
    case Read(reading) => w.(limits := Recorded(w.limits, reading))
    case Send(id, now) =>
      if id in w.requests || !Admissible(w.limits, now) then w
      else w.(limits := AfterAdmit(w.limits, now),
              requests := w.requests[id := Request(w.limits.generation, InForce(w.limits, now), false)])
    case Succeed(id) =>
      if !Reportable(w, id) then w
      else Reported(w, id).(limits := AfterAnswer(w.limits, w.requests[id].ticket))
    case Refused(id, kind, now) =>
      if !Reportable(w, id) then w
      else
        var ticket := w.requests[id].ticket;
        var after := Reported(w, id).(limits := AfterRefusal(w.limits, ticket, kind, now));
        if ticket == w.limits.generation then after.(lifts := 0, starts := w.starts + [ticket]) else after
    case Fail(id) => if Reportable(w, id) then Reported(w, id) else w
    case Lift => if w.limits.pause.Some? then w.(limits := AfterLift(w.limits), lifts := w.lifts + 1) else w
  }

  const START := World(FRESH, map[], 0, [])

  function RunFrom(w: World, steps: seq<Step>): World {
    if steps == [] then w else Apply(RunFrom(w, steps[..|steps| - 1]), steps[|steps| - 1])
  }

  function Run(steps: seq<Step>): World { RunFrom(START, steps) }

  /** The requests admitted under the current ticket. */
  function Current(w: World): set<nat> { set id | id in w.requests && w.requests[id].ticket == w.limits.generation }

  ghost predicate Inv(w: World) {
    && (forall id :: id in w.requests ==> w.requests[id].ticket <= w.limits.generation)
    && |w.starts| == w.limits.generation && (forall i :: 0 <= i < |w.starts| ==> w.starts[i] == i)
    && (w.limits.pause.Some? ==>
         && |Current(w)| + (if w.limits.pause.value.attemptAllowed then 1 else 0) <= w.lifts
         && (forall id :: id in Current(w) ==> w.requests[id].attempt)
         && w.limits.refusals > 0)
  }

  lemma SendKeeps(w: World, id: nat, now: int)
    requires Inv(w) && id !in w.requests && Admissible(w.limits, now)
    ensures Inv(Apply(w, Send(id, now)))
  {
    assert Current(Apply(w, Send(id, now))) == Current(w) + {id};
  }

  lemma RefusedKeeps(w: World, id: nat, kind: Kind, now: int)
    requires Inv(w) && Reportable(w, id) && w.requests[id].ticket == w.limits.generation
    ensures Inv(Apply(w, Refused(id, kind, now)))
  {
    assert Current(Apply(w, Refused(id, kind, now))) == {};
  }

  lemma StepKeeps(w: World, step: Step)
    requires Inv(w)
    ensures Inv(Apply(w, step))
  {
    var v := Apply(w, step);
    if v.requests.Keys != w.requests.Keys {
      SendKeeps(w, step.id, step.now);
    } else if v.limits.generation != w.limits.generation {
      RefusedKeeps(w, step.id, step.kind, step.now);
    } else {
      assert Current(v) == Current(w);
    }
  }

  lemma {:induction false} EveryRunKeeps(steps: seq<Step>)
    ensures Inv(Run(steps))
  {
    if steps == [] {
      assert Current(START) == {};
    } else {
      EveryRunKeeps(steps[..|steps| - 1]);
      StepKeeps(Run(steps[..|steps| - 1]), steps[|steps| - 1]);
    }
  }

  /** While a pause is held, what was sent since the refusal that started it, with any attempt
      still allowed, never exceeds the lifts made since. */
  lemma SentSinceRefusalNeverExceedsLifts(steps: seq<Step>)
    requires Run(steps).limits.pause.Some?
    ensures var w := Run(steps);
      |Current(w)| + (if w.limits.pause.value.attemptAllowed then 1 else 0) <= w.lifts
  {
    EveryRunKeeps(steps);
  }

  predicate Quiet(step: Step, until: int) { step != Lift && (step.Send? ==> step.now < until) }

  /** Without a lift nothing is sent, and nothing changes the pause, before it is due to end. */
  lemma {:induction false} NothingIsSentBeforeThePauseEnds(before: seq<Step>, later: seq<Step>)
    requires var w := Run(before); w.limits.pause.Some? && w.lifts == 0
    requires forall step :: step in later ==> Quiet(step, Run(before).limits.pause.value.until)
    ensures var w, v := Run(before), RunFrom(Run(before), later);
      v.limits.pause == w.limits.pause && v.requests.Keys == w.requests.Keys
    ensures Inv(RunFrom(Run(before), later)) && RunFrom(Run(before), later).lifts == 0
  {
    EveryRunKeeps(before);
    if later != [] {
      var front := later[..|later| - 1];
      NothingIsSentBeforeThePauseEnds(before, front);
      var u, step := RunFrom(Run(before), front), later[|later| - 1];
      assert step in later;
      StepKeeps(u, step);
      assert Current(u) == {};
      // A request of the current ticket would be one of them.
      assert forall id :: id in u.requests ==> u.requests[id].ticket < u.limits.generation by {
        forall id | id in u.requests ensures u.requests[id].ticket < u.limits.generation {
          assert id !in Current(u);
        }
      }
    }
  }

  /** After these steps, and whatever is reported meanwhile, no request is admitted before `until`
      without a lift, and any new one is admitted from then on. */
  ghost predicate HeldUntil(before: seq<Step>, until: int) {
    forall later: seq<Step>, id: nat, at: int ::
      (forall step :: step in later ==> Quiet(step, until)) && id !in RunFrom(Run(before), later).requests ==>
      (id in Apply(RunFrom(Run(before), later), Send(id, at)).requests <==> at >= until)
  }

  lemma PauseHolds(before: seq<Step>)
    requires var w := Run(before); w.limits.pause.Some? && w.lifts == 0 && !w.limits.pause.value.attemptAllowed
    ensures HeldUntil(before, Run(before).limits.pause.value.until)
  {
    hide Run, RunFrom;
    var until := Run(before).limits.pause.value.until;
    forall later: seq<Step>, id: nat, at: int
      | (forall step :: step in later ==> Quiet(step, until)) && id !in RunFrom(Run(before), later).requests
      ensures id in Apply(RunFrom(Run(before), later), Send(id, at)).requests <==> at >= until
    {
      NothingIsSentBeforeThePauseEnds(before, later);
    }
  }

  /** An outcome of this request is reported under the current ticket. */
  predicate IsCurrentReport(w: World, id: nat) { Reportable(w, id) && w.requests[id].ticket == w.limits.generation }

  /** The latest reading showed the hour's points running low, and its reset is still ahead. */
  predicate PointsSpent(reading: Option<RateLimit>, now: int) {
    reading.Some? && 10 * reading.value.remaining < reading.value.limit && now < reading.value.reset
  }

  /** A primary refusal holds every request until the reset of a low latest reading. */
  lemma PrimaryRefusalWaitsForTheReset(before: seq<Step>, id: nat, now: int)
    requires IsCurrentReport(Run(before), id) && PointsSpent(Run(before).limits.reading, now)
    ensures HeldUntil(before + [Refused(id, Primary, now)], Run(before).limits.reading.value.reset)
  {
    RefusalPauses(before, id, Primary, now);
    PauseHolds(before + [Refused(id, Primary, now)]);
  }

  /** The refusals in a row: those under the current ticket since the last such success. */
  function InARow(steps: seq<Step>): nat {
    if steps == [] then 0
    else
      var front, step := steps[..|steps| - 1], steps[|steps| - 1];
      var reported := (step.Succeed? || step.Refused?) && IsCurrentReport(Run(front), step.id);
      if !reported then InARow(front) else if step.Succeed? then 0 else InARow(front) + 1
  }

  lemma {:induction false} RefusalsAreInARow(steps: seq<Step>)
    ensures Run(steps).limits.refusals == InARow(steps)
  {
    if steps != [] {
      RefusalsAreInARow(steps[..|steps| - 1]);
    }
  }

  /** Any other holds them for the backoff, doubled once for each refusal before it in the row and
      clipped at the limit. */
  lemma OtherRefusalsBackOff(before: seq<Step>, id: nat, kind: Kind, now: int)
    requires IsCurrentReport(Run(before), id)
    requires kind == Secondary || !PointsSpent(Run(before).limits.reading, now)
    ensures HeldUntil(before + [Refused(id, kind, now)],
                      now + Min(PAUSE_BACKOFF * Pow2(InARow(before)), PAUSE_BACKOFF_LIMIT))
  {
    RefusalPauses(before, id, kind, now);
    PauseHolds(before + [Refused(id, kind, now)]);
    RefusalsAreInARow(before);
    BackoffIsClippedDoubling(InARow(before) + 1);
  }

  lemma RefusalPauses(before: seq<Step>, id: nat, kind: Kind, now: int)
    requires IsCurrentReport(Run(before), id)
    ensures var w, v := Run(before), Run(before + [Refused(id, kind, now)]);
      v.limits.pause == Some(Pause(kind, PausedUntil(w.limits, kind, now), false)) && v.lifts == 0
  {
    assert (before + [Refused(id, kind, now)])[..|before|] == before;
  }

  predicate Sends(w: World, id: nat, at: int) { id in Apply(w, Send(id, at)).requests }

  /** A lift lets one request through a pause and no other; its success ends the pause for all, and
      a failure of any other kind than a refusal leaves them held. */
  lemma LiftLetsOneThrough(before: seq<Step>, id: nat, at: int, other: nat, next: int)
    requires Run(before).limits.pause.Some?
    requires id !in Run(before).requests && other !in Run(before).requests && id != other
    ensures var w, until := Apply(Run(before), Lift), Run(before).limits.pause.value.until;
      var v := Apply(w, Send(id, at));
      && Sends(w, id, at)
      && (at < until && next < until ==> !Sends(v, other, next) && !Sends(Apply(v, Fail(id)), other, next))
      && Sends(Apply(v, Succeed(id)), other, next)
  {
  }

  /** An outcome reported under an older ticket changes nothing the requests share. */
  lemma OlderTicketsAreInert(w: World, id: nat, kind: Kind, now: int)
    requires id in w.requests && w.requests[id].ticket != w.limits.generation
    ensures Apply(w, Succeed(id)).limits == w.limits && Apply(w, Refused(id, kind, now)).limits == w.limits
  {
  }

  /** Tickets stay with their requests, and the current one never goes back. */
  lemma {:induction false} TicketsStay(w: World, later: seq<Step>, id: nat)
    requires id in w.requests
    ensures var v := RunFrom(w, later);
      && id in v.requests && v.requests[id].ticket == w.requests[id].ticket
      && v.limits.generation >= w.limits.generation
  {
    if later != [] {
      TicketsStay(w, later[..|later| - 1], id);
    }
  }

  /** From the start of a pause on, for ever, a request admitted before it can neither end it nor
      extend it, nor any pause after it. */
  lemma EarlierRequestsLeaveThePause(before: seq<Step>, start: Step, later: seq<Step>, id: nat, kind: Kind, now: int)
    requires Apply(Run(before), start).limits.generation > Run(before).limits.generation
    requires id in Run(before).requests
    ensures var v := RunFrom(Apply(Run(before), start), later);
      Apply(v, Succeed(id)).limits == v.limits && Apply(v, Refused(id, kind, now)).limits == v.limits
  {
    EveryRunKeeps(before);
    TicketsStay(Apply(Run(before), start), later, id);
    OlderTicketsAreInert(RunFrom(Apply(Run(before), start), later), id, kind, now);
  }

  /** A pause that ends before it is due ends by the success of an attempt a lift allowed. */
  lemma EarlyEndIsAnAttemptsSuccess(steps: seq<Step>, step: Step)
    requires Run(steps).limits.pause.Some? && Apply(Run(steps), step).limits.pause.None?
    requires step.Send? ==> step.now < Run(steps).limits.pause.value.until
    ensures step.Succeed? && step.id in Run(steps).requests
    ensures var request := Run(steps).requests[step.id];
      request.attempt && request.ticket == Run(steps).limits.generation && Run(steps).lifts > 0
  {
    EveryRunKeeps(steps);
    assert step.Succeed?;
    assert step.id in Current(Run(steps));
  }

  function Count(starts: seq<nat>, ticket: nat): nat { multiset(starts)[ticket] }

  /** Of any refusals that share a ticket exactly one starts a pause, once one is reported, and it is
      that one that counts towards the refusals in a row. */
  lemma OneRefusalPerTicketStarts(steps: seq<Step>, id: nat, kind: Kind, now: int)
    requires Reportable(Run(steps), id)
    ensures var w, v := Run(steps), Run(steps + [Refused(id, kind, now)]);
      var ticket := w.requests[id].ticket;
      && Count(v.starts, ticket) == 1
      && (if Count(w.starts, ticket) == 0
          then v.limits.refusals == w.limits.refusals + 1 && v.limits.pause.Some?
          else v.limits == w.limits)
  {
    var w := Run(steps);
    assert (steps + [Refused(id, kind, now)])[..|steps|] == steps;
    EveryRunKeeps(steps);
    EveryRunKeeps(steps + [Refused(id, kind, now)]);
    var v := Run(steps + [Refused(id, kind, now)]);
    NumbersOnce(v.starts, w.requests[id].ticket);
    NumbersOnce(w.starts, w.requests[id].ticket);
  }

  lemma {:induction false} NumbersOnce(starts: seq<nat>, ticket: nat)
    requires forall i :: 0 <= i < |starts| ==> starts[i] == i
    ensures Count(starts, ticket) == if ticket < |starts| then 1 else 0
  {
    if starts != [] {
      NumbersOnce(starts[..|starts| - 1], ticket);
      assert starts == starts[..|starts| - 1] + [starts[|starts| - 1]];
    }
  }
}
