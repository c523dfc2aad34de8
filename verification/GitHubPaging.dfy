/** One refresh's budget and cursors, and the loop that completes a paged connection under them. */
module GitHubPaging {
  import opened Wrappers

  datatype Fault = BudgetSpent | Pagination | Refused | Malformed | Duplicate

  /** Both bounds are checked before each request. */
  datatype Budget = Budget(seconds: int, requests: nat)

  type Item = nat

  /** One page of a connection, or the first of one. */
  datatype Connection = Connection(nodes: seq<Item>, hasNext: bool, endCursor: Option<string>)

  /** A missing cursor, an empty one and one already followed are pagination faults. */
  predicate Followable(seen: set<string>, cursor: Option<string>) {
    cursor.Some? && cursor.value != "" && cursor.value !in seen
  }

  class RefreshMeter {
    const budget: Budget
    /** How long the refresh had run at each check. */
    const clock: nat -> int
    var requests: nat
    var checks: nat

    constructor (budget: Budget, clock: nat -> int)
      ensures this.budget == budget && this.clock == clock && requests == 0 && checks == 0
    {
      this.budget, this.clock := budget, clock;
      requests, checks := 0, 0;
    }

    ghost predicate Within()
      reads this
    {
      requests <= budget.requests
    }

    /** The last check found a bound reached. */
    ghost predicate Exhausted()
      reads this
    {
      requests == budget.requests || (checks > 0 && clock(checks - 1) > budget.seconds)
    }

    /** Spend one request, refusing when either bound is already reached. */
    method NextRequest() returns (spent: bool)
      requires Within()
      modifies this
      ensures Within() && checks == old(checks) + 1
      ensures spent <==> old(requests) < budget.requests && clock(old(checks)) <= budget.seconds
      ensures requests == if spent then old(requests) + 1 else old(requests)
    {
      var elapsed := clock(checks);
      checks := checks + 1;
      spent := !(requests >= budget.requests || elapsed > budget.seconds);
      if spent {
        requests := requests + 1;
      }
    }
  }

  class CursorTrail {
    var seen: set<string>

    constructor ()
      ensures seen == {}
    {
      seen := {};
    }

    method Follow(endCursor: Option<string>) returns (cursor: Result<string, Fault>)
      modifies this
      ensures cursor.Success? <==> Followable(old(seen), endCursor)
      ensures cursor.Success? ==> cursor.value == endCursor.value && seen == old(seen) + {cursor.value}
      ensures cursor.Failure? ==> cursor.error == Pagination && seen == old(seen)
    {
      if endCursor.None? || endCursor.value == "" { return Failure(Pagination); }
      if endCursor.value in seen { return Failure(Pagination); }
      seen := seen + {endCursor.value};
      cursor := Success(endCursor.value);
    }
  }

  // -- What completing a connection comes to ------------------------------------------------------

  /** GitHub's answer to a request for a further page: a page, a refusal or failure, or something
      that is neither. */
  datatype Answer = Page(page: Connection) | NotAnswered | NotAPage {
    function Fault(): Fault { if this.NotAnswered? then Refused else Malformed }
  }

  /** The page a request follows: the first one, or the answer to the request before. */
  function Before(answers: nat -> Answer, first: Connection, from: nat, n: nat): Connection
    requires n > from ==> answers(n - 1).Page?
  {
    if n <= from then first else answers(n - 1).page
  }

  /** The cursors that requests `from` to `to` followed. */
  function Followed(answers: nat -> Answer, first: Connection, from: nat, to: nat): set<string>
    requires from <= to && forall n :: from <= n < to ==> answers(n).Page?
  {
    set n | from <= n < to :: Before(answers, first, from, n).endCursor.GetOr("")
  }

  /** Requests `from` to `to` each followed the page before it, by a cursor none of them had followed. */
  ghost predicate Chained(answers: nat -> Answer, first: Connection, from: nat, to: nat) {
    && from <= to
    && (forall n :: from <= n < to ==> answers(n).Page?)
    && forall n :: from <= n < to ==>
      var before := Before(answers, first, from, n);
      before.hasNext && Followable(Followed(answers, first, from, n), before.endCursor)
  }

  /** The nodes of the first page and of every page after it, in order. */
  function Gathered(answers: nat -> Answer, first: Connection, from: nat, to: nat): seq<Item>
    requires from <= to && forall n :: from <= n < to ==> answers(n).Page?
  {
    if to == from then first.nodes else Gathered(answers, first, from, to - 1) + answers(to - 1).page.nodes
  }

  /** A connection followed to its end. */
  ghost predicate Completed(answers: nat -> Answer, first: Connection, from: nat, to: nat, nodes: seq<Item>) {
    && Chained(answers, first, from, to)
    && !Before(answers, first, from, to).hasNext
    && nodes == Gathered(answers, first, from, to)
  }

  /** Why a connection could not be followed past request `to`. */
  ghost predicate Stopped(answers: nat -> Answer, first: Connection, from: nat, to: nat, fault: Fault) {
    || (Chained(answers, first, from, to) &&
        var before := Before(answers, first, from, to);
        before.hasNext &&
        (fault == BudgetSpent ||
         (fault == Pagination && !Followable(Followed(answers, first, from, to), before.endCursor))))
    || (to > from && Chained(answers, first, from, to - 1) && !answers(to - 1).Page? && fault == answers(to - 1).Fault())
  }

  lemma FollowedOneMore(answers: nat -> Answer, first: Connection, from: nat, to: nat)
    requires Chained(answers, first, from, to) && answers(to).Page?
    requires Before(answers, first, from, to).hasNext
    requires Followable(Followed(answers, first, from, to), Before(answers, first, from, to).endCursor)
    ensures Chained(answers, first, from, to + 1)
    ensures Followed(answers, first, from, to + 1) ==
      Followed(answers, first, from, to) + {Before(answers, first, from, to).endCursor.value}
  {
  }

  /** Follow a connection to its end. Every request is answered by the next of `answers`. */
  method CompletePages(meter: RefreshMeter, answers: nat -> Answer, first: Connection)
    returns (completed: Result<seq<Item>, Fault>)
    requires meter.Within()
    modifies meter
    ensures meter.Within() && old(meter.requests) <= meter.requests
    ensures completed.Success? ==> Completed(answers, first, old(meter.requests), meter.requests, completed.value)
    ensures completed.Failure? ==> Stopped(answers, first, old(meter.requests), meter.requests, completed.error)
    ensures completed == Failure(BudgetSpent) ==> meter.Exhausted()
  {
    var trail := new CursorTrail();
    var nodes, hasNext, endCursor := first.nodes, first.hasNext, first.endCursor;
    ghost var from := meter.requests;
    while hasNext
      invariant meter.Within() && from <= meter.requests
      invariant Chained(answers, first, from, meter.requests)
      invariant trail.seen == Followed(answers, first, from, meter.requests)
      invariant nodes == Gathered(answers, first, from, meter.requests)
      invariant hasNext == Before(answers, first, from, meter.requests).hasNext
      invariant endCursor == Before(answers, first, from, meter.requests).endCursor
      decreases meter.budget.requests - meter.requests
    {
      var cursor := trail.Follow(endCursor);
      if cursor.Failure? { return Failure(cursor.error); }
      var spent := meter.NextRequest();
      if !spent { return Failure(BudgetSpent); }
      var answer := answers(meter.requests - 1);
      if !answer.Page? { return Failure(answer.Fault()); }
      FollowedOneMore(answers, first, from, meter.requests - 1);
      nodes, hasNext, endCursor := nodes + answer.page.nodes, answer.page.hasNext, answer.page.endCursor;
    }
    completed := Success(nodes);
  }

  /** No cursor of a connection is followed twice. */
  lemma NoCursorTwice(answers: nat -> Answer, first: Connection, from: nat, to: nat, m: nat, n: nat)
    requires Chained(answers, first, from, to) && from <= m < n < to
    ensures Before(answers, first, from, m).endCursor != Before(answers, first, from, n).endCursor
  {
  }

  /** However GitHub answers, a connection that is followed to its end is followed to one end. */
  lemma OneEnd(
    answers: nat -> Answer, first: Connection, from: nat, to: nat, end: nat, nodes: seq<Item>, others: seq<Item>)
    requires Completed(answers, first, from, to, nodes) && Completed(answers, first, from, end, others)
    ensures to == end && nodes == others
  {
  }

  /** How many nodes the pages before the one request `n` follows hold. */
  function Offset(answers: nat -> Answer, first: Connection, from: nat, n: nat): nat
    requires from <= n && forall k :: from <= k < n ==> answers(k).Page?
  {
    if n == from then 0 else Offset(answers, first, from, n - 1) + |Before(answers, first, from, n - 1).nodes|
  }

  /** A completed connection holds every node of every page, each page's after those of the pages
      before it and in the page's own order, and nothing else. */
  lemma {:induction false} NodesStandInPageOrder(
    answers: nat -> Answer, first: Connection, from: nat, to: nat, n: nat, i: nat)
    requires Chained(answers, first, from, to) && from <= n <= to && i < |Before(answers, first, from, n).nodes|
    ensures var nodes, at := Gathered(answers, first, from, to), Offset(answers, first, from, n) + i;
      && |nodes| == Offset(answers, first, from, to) + |Before(answers, first, from, to).nodes|
      && at < |nodes| && nodes[at] == Before(answers, first, from, n).nodes[i]
  {
    GatheredLength(answers, first, from, to);
    if n < to {
      NodesStandInPageOrder(answers, first, from, to - 1, n, i);
    } else if to > from {
      GatheredLength(answers, first, from, to - 1);
    }
  }

  lemma {:induction false} GatheredLength(answers: nat -> Answer, first: Connection, from: nat, to: nat)
    requires Chained(answers, first, from, to)
    ensures |Gathered(answers, first, from, to)| ==
      Offset(answers, first, from, to) + |Before(answers, first, from, to).nodes|
  {
    if to > from {
      GatheredLength(answers, first, from, to - 1);
    }
  }

  /** No page is asked for by a missing or an empty cursor. */
  lemma CursorsAreReal(answers: nat -> Answer, first: Connection, from: nat, to: nat, n: nat)
    requires Chained(answers, first, from, to) && from <= n < to
    ensures Before(answers, first, from, n).endCursor.Some? && Before(answers, first, from, n).endCursor.value != ""
  {
  }

  /** The last page promises another, by no cursor, an empty one or one followed before. */
  ghost predicate EndsWithoutCursor(answers: nat -> Answer, first: Connection, from: nat, to: nat) {
    && Chained(answers, first, from, to)
    && var last := Before(answers, first, from, to);
      && last.hasNext
      && (last.endCursor in {None, Some("")} ||
          exists n :: from <= n < to && Before(answers, first, from, n).endCursor == last.endCursor)
  }

  /** A connection stops short for what GitHub did or for the budget: a refusal, an answer that is no
      page, or a page that promises another by no cursor, an empty one or one followed before. */
  lemma StopsForAReason(answers: nat -> Answer, first: Connection, from: nat, to: nat, fault: Fault)
    requires Stopped(answers, first, from, to, fault)
    ensures fault == Refused ==> to > from && answers(to - 1) == NotAnswered
    ensures fault == Malformed ==> to > from && answers(to - 1) == NotAPage
    ensures fault == Pagination ==> EndsWithoutCursor(answers, first, from, to)
    ensures fault != Duplicate
  {
    if fault == Pagination {
      var last := Before(answers, first, from, to);
      if last.endCursor.Some? && last.endCursor.value in Followed(answers, first, from, to) {
        var n :| from <= n < to && Before(answers, first, from, n).endCursor.GetOr("") == last.endCursor.value;
        CursorsAreReal(answers, first, from, to, n);
        assert Before(answers, first, from, n).endCursor == last.endCursor;
      }
    }
  }
}
