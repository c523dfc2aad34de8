/** What the rest of an account spent, worked out from the readings beside one's own requests. */
module AccountSpend {
  import opened Sequences
  import opened Wrappers

  /** One request's reading: the points left after it, its cost, and the window they belong to. */
  datatype Request = Request(remaining: Option<nat>, cost: Option<nat>, resetAt: Option<int>)

  datatype Reading = Reading(remaining: nat, cost: nat)

  /** The readings of one window, as recorded. */
  function ReadingsOf(requests: seq<Request>, window: int): seq<Reading> {
    if requests == [] then []
    else
      var rest, last := ReadingsOf(requests[..|requests| - 1], window), requests[|requests| - 1];
      if last.remaining.Some? && last.resetAt == Some(window)
      then rest + [Reading(last.remaining.value, last.cost.GetOr(0))]
      else rest
  }

  predicate IsReading(request: Request, window: int, reading: Reading) {
    && request.resetAt == Some(window) && request.remaining == Some(reading.remaining)
    && (request.cost == Some(reading.cost) || (request.cost.None? && reading.cost == 0))
  }

  function ReadingsAt(requests: seq<Request>, window: int): seq<nat> {
    if requests == [] then []
    else
      var before, n := ReadingsAt(requests[..|requests| - 1], window), |requests| - 1;
      if requests[n].remaining.Some? && requests[n].resetAt == Some(window) then before + [n] else before
  }

  /** `readings` are those of the requests at `at`: all that name the window and their points, in order. */
  ghost predicate RecordedAt(requests: seq<Request>, window: int, readings: seq<Reading>, at: seq<nat>) {
    && |at| == |readings|
    && (forall k :: 0 <= k < |at| ==> at[k] < |requests| && IsReading(requests[at[k]], window, readings[k]))
    && (forall j, k :: 0 <= j < k < |at| ==> at[j] < at[k])
    && (forall n :: 0 <= n < |requests| && requests[n].remaining.Some? && requests[n].resetAt == Some(window) ==> n in at)
  }

  /** A window's readings are the points and the costs of its requests, a missing cost being none. */
  lemma {:induction false} ReadingsAreRecorded(requests: seq<Request>, window: int)
    ensures RecordedAt(requests, window, ReadingsOf(requests, window), ReadingsAt(requests, window))
  {
    if requests != [] {
      var n := |requests| - 1;
      ReadingsAreRecorded(requests[..n], window);
      var before := ReadingsAt(requests[..n], window);
      assert forall m :: m in before ==> m in before + [n];
      assert (before + [n])[|before|] == n;
    }
  }

  /** The windows read, as first recorded. */
  function Windows(requests: seq<Request>): seq<int> {
    if requests == [] then []
    else
      var rest, last := Windows(requests[..|requests| - 1]), requests[|requests| - 1];
      if last.remaining.Some? && last.resetAt.Some? && last.resetAt.value !in rest
      then rest + [last.resetAt.value]
      else rest
  }

  /** The reading with the most points left, the first recorded among equals. */
  function First(readings: seq<Reading>): (first: Reading)
    requires readings != []
    ensures first in readings
  {
    if |readings| == 1 then readings[0]
    else
      var before, last := First(readings[..|readings| - 1]), readings[|readings| - 1];
      if last.remaining > before.remaining then last else before
  }

  function Least(readings: seq<Reading>): (least: nat)
    requires readings != []
    ensures exists i :: 0 <= i < |readings| && readings[i].remaining == least
    ensures forall i :: 0 <= i < |readings| ==> least <= readings[i].remaining
  {
    if |readings| == 1 then readings[0].remaining
    else
      var before, last := Least(readings[..|readings| - 1]), readings[|readings| - 1].remaining;
      assert forall i :: 0 <= i < |readings| - 1 ==> readings[i] == readings[..|readings| - 1][i];
      if last < before then last else before
  }

  function Cost(readings: seq<Reading>): nat {
    if readings == [] then 0 else Cost(readings[..|readings| - 1]) + readings[|readings| - 1].cost
  }

  function Max(a: int, b: int): int { if a >= b then a else b }

  /** What one window's readings say others spent; without two there is nothing to compare. */
  function SpentIn(readings: seq<Reading>): Option<nat> {
    if |readings| < 2 then None
    else
      var first := First(readings);
      var used := first.remaining - Least(readings);
      var own := Cost(readings) - first.cost;
      Some(Max(0, used - own))
  }

  function Plus(spent: Option<nat>, more: Option<nat>): Option<nat> {
    if more.None? then spent else Some(spent.GetOr(0) + more.value)
  }

  function SpentOver(requests: seq<Request>, windows: seq<int>): Option<nat> {
    if windows == [] then None
    else
      Plus(SpentOver(requests, windows[..|windows| - 1]), SpentIn(ReadingsOf(requests, windows[|windows| - 1])))
  }

  // -- The loop ----------------------------------------------------------------------------------

  ghost predicate Grouped(requests: seq<Request>, order: seq<int>, windows: map<int, seq<Reading>>) {
    && order == Windows(requests)
    && (forall window :: window in windows <==> window in order)
    && (forall window :: ReadingsOf(requests, window) == if window in windows then windows[window] else [])
  }

  lemma GroupedOneMore(requests: seq<Request>, order: seq<int>, windows: map<int, seq<Reading>>, request: Request)
    requires Grouped(requests, order, windows)
    ensures request.remaining.None? || request.resetAt.None? ==> Grouped(requests + [request], order, windows)
    ensures request.remaining.Some? && request.resetAt.Some? ==>
      var window, reading := request.resetAt.value, Reading(request.remaining.value, request.cost.GetOr(0));
      if window in windows then Grouped(requests + [request], order, windows[window := windows[window] + [reading]])
      else Grouped(requests + [request], order + [window], windows[window := [reading]])
  {
    assert (requests + [request])[..|requests|] == requests;
  }

  method Spent(requests: seq<Request>) returns (spent: Option<nat>)
    ensures spent == SpentOver(requests, Windows(requests))
  {
    hide Grouped, ReadingsOf, Windows, SpentOver, First, Least, Cost;
    var order: seq<int>, windows: map<int, seq<Reading>> := [], map[];
    assert Grouped([], order, windows) by { NothingGrouped(); }
    for i := 0 to |requests|
      invariant Grouped(requests[..i], order, windows)
    {
      var request := requests[i];
      GroupedOneMore(requests[..i], order, windows, request);
      assert requests[..i + 1] == requests[..i] + [request];
      if request.remaining.None? || request.resetAt.None? { continue; }
      var window, reading := request.resetAt.value, Reading(request.remaining.value, request.cost.GetOr(0));
      if window in windows {
        windows := windows[window := windows[window] + [reading]];
      } else {
        order, windows := order + [window], windows[window := [reading]];
      }
    }
    assert requests[..|requests|] == requests;
    GroupedGives(requests, order, windows);
    spent := None;
    assert order[..0] == [] && SpentOver(requests, []) == None by { NoWindows(requests); }
    for n := 0 to |order|
      invariant spent == SpentOver(requests, order[..n])
    {
      OneMoreWindow(requests, order, n);
      var readings := windows[order[n]];
      if |readings| < 2 { continue; }
      var first := First(readings);
      var used := first.remaining - Least(readings);
      var own := Cost(readings) - first.cost;
      spent := Some(spent.GetOr(0) + Max(0, used - own));
    }
    assert order[..|order|] == order;
  }

  lemma NoWindows(requests: seq<Request>)
    ensures SpentOver(requests, []) == None
  {
  }

  lemma OneMoreWindow(requests: seq<Request>, order: seq<int>, n: nat)
    requires n < |order|
    ensures SpentOver(requests, order[..n + 1]) ==
      Plus(SpentOver(requests, order[..n]), SpentIn(ReadingsOf(requests, order[n])))
  {
    assert order[..n + 1][..n] == order[..n];
  }

  lemma NothingGrouped()
    ensures Grouped([], [], map[])
  {
  }

  lemma GroupedGives(requests: seq<Request>, order: seq<int>, windows: map<int, seq<Reading>>)
    requires Grouped(requests, order, windows)
    ensures order == Windows(requests)
    ensures forall n :: 0 <= n < |order| ==> order[n] in windows && windows[order[n]] == ReadingsOf(requests, order[n])
  {
    hide ReadingsOf, Windows;
    forall n | 0 <= n < |order| ensures order[n] in windows && windows[order[n]] == ReadingsOf(requests, order[n]) {
      var window := order[n];
      assert window in order;
      assert window in windows;
    }
  }

  // -- Readings of a true history ----------------------------------------------------------------

  /** What one request cost, and what others spent just before it. */
  datatype Spending = Spending(cost: nat, others: nat)

  /** The points left after the first `n + 1` requests of a history that began with `points`. */
  function Left(points: int, history: seq<Spending>): int {
    if history == [] then points
    else
      var last := history[|history| - 1];
      Left(points, history[..|history| - 1]) - last.others - last.cost
  }

  /** What others spent from the first reading on. */
  function Others(history: seq<Spending>): nat {
    if |history| <= 1 then 0 else Others(history[..|history| - 1]) + history[|history| - 1].others
  }

  /** The readings a history gives, in the order the points were spent. */
  function Readings(points: int, history: seq<Spending>): (readings: seq<Reading>)
    requires Left(points, history) >= 0
    ensures |readings| == |history|
  {
    if history == [] then []
    else
      var last := history[|history| - 1];
      Readings(points, history[..|history| - 1]) + [Reading(Left(points, history), last.cost)]
  }

  function OwnCost(history: seq<Spending>): nat {
    if history == [] then 0 else OwnCost(history[..|history| - 1]) + history[|history| - 1].cost
  }

  lemma {:induction false} HistoryAddsUp(points: int, history: seq<Spending>)
    requires history != [] && Left(points, history) >= 0
    ensures Cost(Readings(points, history)) == OwnCost(history)
    ensures Readings(points, history)[0].cost == history[0].cost
    ensures Readings(points, history)[0].remaining - Left(points, history) ==
      Others(history) + OwnCost(history) - history[0].cost
  {
    var n := |history| - 1;
    assert Readings(points, history)[..n] == Readings(points, history[..n]);
    if n > 0 {
      HistoryAddsUp(points, history[..n]);
    }
  }

  /** Points only fall: the first reading has the most left and the last the least, and a later
      reading as high as the first cost nothing. */
  lemma {:induction false} PointsOnlyFall(points: int, history: seq<Spending>, i: nat)
    requires i < |history| && Left(points, history) >= 0
    ensures var readings := Readings(points, history);
      && Left(points, history) <= readings[i].remaining <= readings[0].remaining
      && (i > 0 && readings[i].remaining == readings[0].remaining ==> readings[i].cost == 0)
      && readings[|history| - 1].remaining == Left(points, history)
  {
    var n := |history| - 1;
    assert Readings(points, history)[..n] == Readings(points, history[..n]);
    if i < n {
      PointsOnlyFall(points, history[..n], i);
    } else if n > 0 {
      PointsOnlyFall(points, history[..n], 0);
    }
  }

  lemma {:induction false} FirstHasMost(readings: seq<Reading>)
    requires readings != []
    ensures forall i :: 0 <= i < |readings| ==> readings[i].remaining <= First(readings).remaining
    ensures (forall i :: 0 <= i < |readings| ==> readings[i].remaining <= readings[0].remaining) ==>
      First(readings) == readings[0]
  {
    if |readings| > 1 {
      FirstHasMost(readings[..|readings| - 1]);
    }
  }

  lemma {:induction false} CostIgnoresOrder(readings: seq<Reading>, recorded: seq<Reading>)
    requires multiset(recorded) == multiset(readings)
    ensures Cost(recorded) == Cost(readings)
    decreases |readings|
  {
    if readings == [] {
      assert recorded == [] by { assert |multiset(recorded)| == 0; }
    } else {
      var n := |readings| - 1;
      assert readings == readings[..n] + [readings[n]];
      var k := IndexIn(readings[n], readings, recorded);
      CostWithout(recorded, k);
      ElementsWithout(recorded, k);
      CostIgnoresOrder(readings[..n], recorded[..k] + recorded[k + 1..]);
    }
  }

  lemma {:induction false} CostWithout(readings: seq<Reading>, k: nat)
    requires k < |readings|
    ensures Cost(readings) == Cost(readings[..k] + readings[k + 1..]) + readings[k].cost
    decreases |readings|
  {
    var n := |readings| - 1;
    if k < n {
      CostWithout(readings[..n], k);
      var rest := readings[..k] + readings[k + 1..];
      assert rest[..|rest| - 1] == readings[..n][..k] + readings[..n][k + 1..];
    } else {
      assert readings[..k] + readings[k + 1..] == readings[..n];
    }
  }

  lemma ElementsWithout(readings: seq<Reading>, k: nat)
    requires k < |readings|
    ensures multiset(readings[..k] + readings[k + 1..]) == multiset(readings) - multiset{readings[k]}
  {
    assert readings == readings[..k] + [readings[k]] + readings[k + 1..];
  }

  /** However the readings of a true history were recorded, what is found is what others spent after
      the first reading, short of it by the first request's cost if another reading stood in for it. */
  lemma FoundInAnyOrder(points: int, history: seq<Spending>, recorded: seq<Reading>)
    requires |history| >= 2 && Left(points, history) >= 0
    requires multiset(recorded) == multiset(Readings(points, history))
    ensures |recorded| == |history|
    ensures SpentIn(recorded) == Some(Max(0, Others(history) + First(recorded).cost - history[0].cost))
    ensures First(recorded).cost == history[0].cost || First(recorded).cost == 0
  {
    hide Left, Readings, First, Least, Cost, Others, OwnCost;
    var readings := Readings(points, history);
    assert |recorded| == |multiset(recorded)| == |multiset(readings)| == |readings|;
    HistoryAddsUp(points, history);
    CostIgnoresOrder(readings, recorded);
    FirstHasMost(recorded);
    Extremes(points, history, recorded);
  }

  lemma Extremes(points: int, history: seq<Spending>, recorded: seq<Reading>)
    requires |history| >= 2 && Left(points, history) >= 0 && recorded != []
    requires multiset(recorded) == multiset(Readings(points, history))
    requires forall i :: 0 <= i < |recorded| ==> recorded[i].remaining <= First(recorded).remaining
    ensures var readings := Readings(points, history);
      && First(recorded).remaining == readings[0].remaining && Least(recorded) == Left(points, history)
      && (First(recorded).cost == history[0].cost || First(recorded).cost == 0)
  {
    hide Left, Readings, First, Least, Cost;
    var readings := Readings(points, history);
    HistoryAddsUp(points, history);
    PointsOnlyFall(points, history, 0);
    var top := IndexIn(readings[0], readings, recorded);
    var bottom := IndexIn(readings[|history| - 1], readings, recorded);
    var first := IndexIn(First(recorded), recorded, readings);
    PointsOnlyFall(points, history, first);
    var least :| 0 <= least < |recorded| && recorded[least].remaining == Least(recorded);
    var i := IndexIn(recorded[least], recorded, readings);
    PointsOnlyFall(points, history, i);
  }

  /** Of the readings with the most points left, none cost more than the one taken to be first. */
  predicate NoneDearer(recorded: seq<Reading>)
    requires recorded != []
  {
    forall i :: 0 <= i < |recorded| && recorded[i].remaining == First(recorded).remaining ==>
      recorded[i].cost <= First(recorded).cost
  }

  /** The greatest cost among the readings with `remaining` points left. */
  function DearestAt(recorded: seq<Reading>, remaining: nat): nat {
    if recorded == [] then 0
    else
      var before, last := DearestAt(recorded[..|recorded| - 1], remaining), recorded[|recorded| - 1];
      if last.remaining == remaining && last.cost > before then last.cost else before
  }

  /** The points that went are all accounted for by own requests, all but the dearest of the first. */
  predicate NothingElseSpent(recorded: seq<Reading>)
    requires recorded != []
  {
    First(recorded).remaining - Least(recorded) == Cost(recorded) - DearestAt(recorded, First(recorded).remaining)
  }

  lemma {:induction false} DearestIs(recorded: seq<Reading>, remaining: nat)
    ensures forall i :: 0 <= i < |recorded| && recorded[i].remaining == remaining ==>
      recorded[i].cost <= DearestAt(recorded, remaining)
    ensures DearestAt(recorded, remaining) > 0 ==>
      exists i :: 0 <= i < |recorded| && recorded[i].remaining == remaining &&
        recorded[i].cost == DearestAt(recorded, remaining)
  {
    if recorded != [] {
      var n := |recorded| - 1;
      DearestIs(recorded[..n], remaining);
      forall i | 0 <= i < n ensures recorded[..n][i] == recorded[i] {
      }
      if recorded[n].remaining != remaining || recorded[n].cost <= DearestAt(recorded[..n], remaining) {
        if DearestAt(recorded, remaining) > 0 {
          var i :| 0 <= i < n && recorded[..n][i].remaining == remaining &&
                   recorded[..n][i].cost == DearestAt(recorded[..n], remaining);
          assert recorded[i].cost == DearestAt(recorded, remaining);
        }
      }
    }
  }

  /** Of a true history's readings the dearest with the most points left is the first request's: any
      other with as many left was free. */
  lemma DearestIsTheFirst(points: int, history: seq<Spending>, recorded: seq<Reading>)
    requires |history| >= 2 && Left(points, history) >= 0 && recorded != []
    requires multiset(recorded) == multiset(Readings(points, history))
    ensures DearestAt(recorded, First(recorded).remaining) == history[0].cost
    ensures NoneDearer(recorded) <==> First(recorded).cost == history[0].cost
  {
    hide Left, Readings, First, Least, Cost, DearestAt;
    var readings, most := Readings(points, history), First(recorded).remaining;
    FirstHasMost(recorded);
    Extremes(points, history, recorded);
    HistoryAddsUp(points, history);
    var top := IndexIn(readings[0], readings, recorded);
    DearestIs(recorded, most);
    forall i | 0 <= i < |recorded| && recorded[i].remaining == most ensures recorded[i].cost <= history[0].cost {
      var k := IndexIn(recorded[i], recorded, readings);
      PointsOnlyFall(points, history, k);
    }
  }

  /** So the figure is exact if and only if the readings as recorded show that no reading with as
      many points left cost more than the one taken to be first, or that others spent nothing. */
  lemma ExactWhenNoneDearer(points: int, history: seq<Spending>, recorded: seq<Reading>)
    requires |history| >= 2 && Left(points, history) >= 0
    requires multiset(recorded) == multiset(Readings(points, history))
    ensures |recorded| == |history|
    ensures SpentIn(recorded) == Some(Others(history)) <==> NoneDearer(recorded) || NothingElseSpent(recorded)
    ensures SpentIn(recorded).Some? && SpentIn(recorded).value <= Others(history)
  {
    hide Left, Readings, First, Least, Cost, SpentIn, Others, OwnCost, DearestAt, NoneDearer;
    FoundInAnyOrder(points, history, recorded);
    FirstHasMost(recorded);
    Extremes(points, history, recorded);
    DearestIsTheFirst(points, history, recorded);
    HistoryAddsUp(points, history);
    CostIgnoresOrder(Readings(points, history), recorded);
  }

  /** Recorded in the order the points were spent, the figure is exact. */
  lemma ExactAsRecorded(points: int, history: seq<Spending>)
    requires |history| >= 2 && Left(points, history) >= 0
    ensures SpentIn(Readings(points, history)) == Some(Others(history))
  {
    hide Left, Readings, First, SpentIn, Others;
    var readings := Readings(points, history);
    FoundInAnyOrder(points, history, readings);
    forall i | 0 <= i < |readings| ensures readings[i].remaining <= readings[0].remaining {
      PointsOnlyFall(points, history, i);
    }
    FirstHasMost(readings);
    HistoryAddsUp(points, history);
  }

  /** With every own cost positive it is exact in whatever order the answers crossed. */
  lemma ExactInAnyOrder(points: int, history: seq<Spending>, recorded: seq<Reading>)
    requires |history| >= 2 && Left(points, history) >= 0
    requires multiset(recorded) == multiset(Readings(points, history))
    requires forall i :: 0 <= i < |history| ==> history[i].cost > 0
    ensures SpentIn(recorded) == Some(Others(history))
  {
    hide Left, Readings, First, SpentIn, Others;
    FoundInAnyOrder(points, history, recorded);
    var readings := Readings(points, history);
    var first := IndexIn(First(recorded), recorded, readings);
    CostsOfReadings(points, history, first);
  }

  lemma {:induction false} CostsOfReadings(points: int, history: seq<Spending>, i: nat)
    requires i < |history| && Left(points, history) >= 0
    ensures Readings(points, history)[i].cost == history[i].cost
  {
    if i < |history| - 1 {
      CostsOfReadings(points, history[..|history| - 1], i);
    }
  }

  /** A free request whose answer is recorded first hides the cost of the one before it. */
  lemma CrossedAnswersUnderReport()
    ensures var history := [Spending(3, 0), Spending(0, 0), Spending(1, 2)];
      var recorded := [Reading(97, 0), Reading(97, 3), Reading(94, 1)];
      && Left(100, history) >= 0 && multiset(recorded) == multiset(Readings(100, history))
      && Others(history) == 2 && SpentIn(recorded) == Some(0)
  {
    var history := [Spending(3, 0), Spending(0, 0), Spending(1, 2)];
    var recorded := [Reading(97, 0), Reading(97, 3), Reading(94, 1)];
    hide Left, Readings, First, Least, Cost, SpentIn, Others;
    ThreeReadings(history[0], history[1], history[2]);
    FirstOfThree(recorded[0], recorded[1], recorded[2]);
    assert Readings(100, history) == [Reading(97, 3), Reading(97, 0), Reading(94, 1)];
    Crossed(recorded[1], recorded[0], recorded[2]);
    FoundInAnyOrder(100, history, recorded);
  }

  lemma Crossed(a: Reading, b: Reading, c: Reading)
    ensures multiset([b, a, c]) == multiset([a, b, c])
  {
  }

  lemma FirstOfThree(a: Reading, b: Reading, c: Reading)
    requires a.remaining >= b.remaining && a.remaining >= c.remaining
    ensures First([a, b, c]) == a
  {
  }

  lemma ThreeReadings(a: Spending, b: Spending, c: Spending)
    requires a.others + a.cost + b.others + b.cost + c.others + c.cost <= 100
    ensures var history, left := [a, b, c], 100 - a.others - a.cost;
      && Left(100, history) == left - b.others - b.cost - c.others - c.cost
      && Readings(100, history) ==
        [Reading(left, a.cost), Reading(left - b.others - b.cost, b.cost),
         Reading(left - b.others - b.cost - c.others - c.cost, c.cost)]
      && Others(history) == b.others + c.others
  {
    var history := [a, b, c];
    assert history[..2] == [a, b] && history[..2][..1] == [a] && history[..2][..1][..0] == [];
    assert Left(100, [a]) == 100 - a.others - a.cost;
    assert Left(100, [a, b]) == 100 - a.others - a.cost - b.others - b.cost;
    assert Readings(100, [a]) == [Reading(Left(100, [a]), a.cost)];
    assert Others([a, b]) == b.others;
    assert Readings(100, [a, b]) == Readings(100, [a]) + [Reading(Left(100, [a, b]), b.cost)];
  }

  // -- Windows add up ----------------------------------------------------------------------------

  lemma {:induction false} WindowsAreThoseRead(requests: seq<Request>, window: int)
    ensures window in Windows(requests) <==> ReadingsOf(requests, window) != []
    ensures Distinct(Windows(requests))
  {
    if requests != [] {
      WindowsAreThoseRead(requests[..|requests| - 1], window);
    }
  }

  lemma {:induction false} SomeOverSome(requests: seq<Request>, windows: seq<int>)
    ensures SpentOver(requests, windows) == None <==>
      forall n :: 0 <= n < |windows| ==> |ReadingsOf(requests, windows[n])| < 2
  {
    hide ReadingsOf, First, Least, Cost;
    if windows != [] {
      SomeOverSome(requests, windows[..|windows| - 1]);
    }
  }

  /** There is nothing to compare exactly when no window was read twice. */
  lemma NothingUnlessReadTwice(requests: seq<Request>)
    ensures SpentOver(requests, Windows(requests)) == None <==>
      forall window :: |ReadingsOf(requests, window)| < 2
  {
    hide ReadingsOf, Windows, SpentOver;
    SomeOverSome(requests, Windows(requests));
    forall window | |ReadingsOf(requests, window)| >= 2
      ensures exists n :: 0 <= n < |Windows(requests)| && Windows(requests)[n] == window
    {
      WindowsAreThoseRead(requests, window);
    }
  }

  /** How one window's points were spent. */
  datatype Past = Past(points: int, history: seq<Spending>)

  /** The readings of `window` are those of its past, in whatever order they were recorded. */
  ghost predicate Tells(requests: seq<Request>, window: int, past: Past) {
    && Left(past.points, past.history) >= 0
    && multiset(ReadingsOf(requests, window)) == multiset(Readings(past.points, past.history))
  }

  ghost predicate TrueTo(requests: seq<Request>, pasts: map<int, Past>) {
    forall window :: window in Windows(requests) ==> window in pasts && Tells(requests, window, pasts[window])
  }

  ghost predicate EveryCostPositive(pasts: map<int, Past>) {
    forall window :: window in pasts ==>
      forall i :: 0 <= i < |pasts[window].history| ==> pasts[window].history[i].cost > 0
  }

  function OthersIn(past: Past): Option<nat> { if |past.history| < 2 then None else Some(Others(past.history)) }

  predicate Covers(pasts: map<int, Past>, windows: seq<int>) {
    forall n :: 0 <= n < |windows| ==> windows[n] in pasts
  }

  function OthersOver(pasts: map<int, Past>, windows: seq<int>): Option<nat>
    requires Covers(pasts, windows)
  {
    if windows == [] then None
    else Plus(OthersOver(pasts, windows[..|windows| - 1]), OthersIn(pasts[windows[|windows| - 1]]))
  }

  /** What the readings of one window show by themselves of their figure being exact. */
  predicate ShowsExactly(recorded: seq<Reading>) {
    |recorded| >= 2 ==> NoneDearer(recorded) || NothingElseSpent(recorded)
  }

  /** A figure that is absent with another, and never above it. */
  predicate AtMost(spent: Option<nat>, others: Option<nat>) {
    if spent.None? then others.None? else others.Some? && spent.value <= others.value
  }

  lemma WindowIsExactIf(requests: seq<Request>, window: int, past: Past)
    requires Tells(requests, window, past)
    ensures AtMost(SpentIn(ReadingsOf(requests, window)), OthersIn(past))
    ensures SpentIn(ReadingsOf(requests, window)) == OthersIn(past) <==> ShowsExactly(ReadingsOf(requests, window))
  {
    hide ReadingsOf, Readings, Left, First, Least, Cost, Others, NoneDearer, NothingElseSpent;
    var recorded, readings := ReadingsOf(requests, window), Readings(past.points, past.history);
    assert |recorded| == |multiset(recorded)| == |multiset(readings)| == |readings|;
    if |past.history| >= 2 {
      ExactWhenNoneDearer(past.points, past.history, recorded);
    }
  }

  lemma {:induction false} WindowsAddUp(requests: seq<Request>, pasts: map<int, Past>, windows: seq<int>)
    requires Covers(pasts, windows) && forall n :: 0 <= n < |windows| ==> Tells(requests, windows[n], pasts[windows[n]])
    ensures AtMost(SpentOver(requests, windows), OthersOver(pasts, windows))
    ensures SpentOver(requests, windows) == OthersOver(pasts, windows) <==>
      forall n :: 0 <= n < |windows| ==> ShowsExactly(ReadingsOf(requests, windows[n]))
  {
    hide Tells, SpentIn, OthersIn, ReadingsOf, ShowsExactly;
    if windows != [] {
      WindowsAddUp(requests, pasts, windows[..|windows| - 1]);
      WindowIsExactIf(requests, windows[|windows| - 1], pasts[windows[|windows| - 1]]);
    }
  }

  /** What is found over all windows is never more than others spent in each after its first reading,
      and is exactly that if and only if the readings of every window show it. */
  lemma SpendIsWhatOthersSpent(requests: seq<Request>, pasts: map<int, Past>)
    requires TrueTo(requests, pasts)
    ensures Covers(pasts, Windows(requests))
    ensures AtMost(SpentOver(requests, Windows(requests)), OthersOver(pasts, Windows(requests)))
    ensures SpentOver(requests, Windows(requests)) == OthersOver(pasts, Windows(requests)) <==>
      forall n :: 0 <= n < |Windows(requests)| ==> ShowsExactly(ReadingsOf(requests, Windows(requests)[n]))
  {
    hide Tells, Windows, SpentOver, OthersOver, ShowsExactly, AtMost;
    forall n | 0 <= n < |Windows(requests)|
      ensures Windows(requests)[n] in pasts && Tells(requests, Windows(requests)[n], pasts[Windows(requests)[n]])
    {
      var window := Windows(requests)[n];
      assert window in Windows(requests);
    }
    WindowsAddUp(requests, pasts, Windows(requests));
  }

  /** Readings told by positive costs always show it. */
  lemma PositiveCostsShowExactly(requests: seq<Request>, pasts: map<int, Past>)
    requires TrueTo(requests, pasts) && EveryCostPositive(pasts)
    ensures forall n :: 0 <= n < |Windows(requests)| ==> ShowsExactly(ReadingsOf(requests, Windows(requests)[n]))
  {
    hide ReadingsOf, Windows, Readings, Left, ShowsExactly, SpentIn;
    forall n | 0 <= n < |Windows(requests)| ensures ShowsExactly(ReadingsOf(requests, Windows(requests)[n])) {
      var window := Windows(requests)[n];
      assert window in Windows(requests);
      var past, recorded := pasts[window], ReadingsOf(requests, window);
      WindowIsExactIf(requests, window, past);
      if |past.history| >= 2 {
        ExactInAnyOrder(past.points, past.history, recorded);
      } else {
        assert |recorded| == |multiset(recorded)| == |multiset(Readings(past.points, past.history))| == |past.history|;
        TooFew(recorded);
      }
    }
  }

  lemma TooFew(recorded: seq<Reading>)
    requires |recorded| < 2
    ensures ShowsExactly(recorded)
  {
  }

  lemma {:induction false} OverWithout(pasts: map<int, Past>, windows: seq<int>, k: nat)
    requires k < |windows| && Covers(pasts, windows)
    ensures OthersOver(pasts, windows) ==
      Plus(OthersOver(pasts, windows[..k] + windows[k + 1..]), OthersIn(pasts[windows[k]]))
    decreases |windows|
  {
    hide OthersIn;
    var n := |windows| - 1;
    var rest := windows[..k] + windows[k + 1..];
    if k < n {
      OverWithout(pasts, windows[..n], k);
      assert rest[..n - 1] == windows[..n][..k] + windows[..n][k + 1..];
    } else {
      assert rest == windows[..n];
    }
  }

  ghost predicate SameWindows(windows: seq<int>, others: seq<int>) {
    && (forall i :: 0 <= i < |windows| ==> windows[i] in others)
    && (forall i :: 0 <= i < |others| ==> others[i] in windows)
  }

  lemma {:induction false} OverIgnoresOrder(pasts: map<int, Past>, windows: seq<int>, others: seq<int>)
    requires Distinct(windows) && Distinct(others) && SameWindows(windows, others)
    requires Covers(pasts, windows) && Covers(pasts, others)
    ensures OthersOver(pasts, windows) == OthersOver(pasts, others)
    decreases |windows|
  {
    hide OthersIn;
    if windows == [] {
      SomeIsSome(windows, others);
    } else {
      var n := |windows| - 1;
      assert windows[n] in others;
      var k :| 0 <= k < |others| && others[k] == windows[n];
      OverWithout(pasts, others, k);
      RestIsSame(windows, others, k);
      OverIgnoresOrder(pasts, windows[..n], others[..k] + others[k + 1..]);
    }
  }

  lemma SomeIsSome(windows: seq<int>, others: seq<int>)
    requires SameWindows(windows, others)
    ensures others != [] ==> windows != []
  {
    if others != [] {
      assert others[0] in windows;
    }
  }

  lemma RestIsSame(windows: seq<int>, others: seq<int>, k: nat)
    requires Distinct(windows) && Distinct(others) && SameWindows(windows, others)
    requires windows != [] && k < |others| && others[k] == windows[|windows| - 1]
    ensures var rest, left := others[..k] + others[k + 1..], windows[..|windows| - 1];
      Distinct(rest) && Distinct(left) && SameWindows(left, rest)
  {
  }

  lemma {:induction false} ReadingsConcat(requests: seq<Request>, more: seq<Request>, window: int)
    ensures ReadingsOf(requests + more, window) == ReadingsOf(requests, window) + ReadingsOf(more, window)
  {
    if more == [] {
      assert requests + more == requests;
    } else {
      ReadingsConcat(requests, more[..|more| - 1], window);
      assert (requests + more)[..|requests + more| - 1] == requests + more[..|more| - 1];
    }
  }

  lemma ReadingsWithout(requests: seq<Request>, k: nat, window: int)
    requires k < |requests|
    ensures var rest := requests[..k] + requests[k + 1..];
      && multiset(rest) == multiset(requests) - multiset{requests[k]}
      && multiset(ReadingsOf(requests, window)) ==
           multiset(ReadingsOf(rest, window)) + multiset(ReadingsOf([requests[k]], window))
  {
    hide ReadingsOf;
    assert requests == requests[..k] + [requests[k]] + requests[k + 1..];
    ReadingsConcat(requests[..k] + [requests[k]], requests[k + 1..], window);
    ReadingsConcat(requests[..k], [requests[k]], window);
    ReadingsConcat(requests[..k], requests[k + 1..], window);
  }

  lemma {:induction false} ReadingsIgnoreOrder(requests: seq<Request>, others: seq<Request>, window: int)
    requires multiset(requests) == multiset(others)
    ensures multiset(ReadingsOf(requests, window)) == multiset(ReadingsOf(others, window))
    decreases |requests|
  {
    hide *;
    if requests == [] {
      assert others == [] by { assert |multiset(others)| == 0; }
    } else {
      var k := IndexIn(requests[0], requests, others);
      ReadingsWithout(requests, 0, window);
      ReadingsWithout(others, k, window);
      ReadingsIgnoreOrder(requests[..0] + requests[1..], others[..k] + others[k + 1..], window);
    }
  }

  /** With every own cost positive the figure does not depend on the order of recording, within a
      window or between windows. */
  lemma OrderDoesNotMatter(requests: seq<Request>, others: seq<Request>, pasts: map<int, Past>)
    requires multiset(requests) == multiset(others)
    requires TrueTo(requests, pasts) && EveryCostPositive(pasts)
    ensures SpentOver(others, Windows(others)) == SpentOver(requests, Windows(requests))
  {
    hide ReadingsOf, Windows, SpentOver, OthersOver, Readings, Left, ShowsExactly, AtMost;
    forall window ensures window in Windows(requests) <==> window in Windows(others) {
      ReadingsIgnoreOrder(requests, others, window);
      SameEmptiness(ReadingsOf(requests, window), ReadingsOf(others, window));
      WindowsAreThoseRead(requests, window);
      WindowsAreThoseRead(others, window);
    }
    forall window | window in Windows(others) ensures window in pasts && Tells(others, window, pasts[window]) {
      assert Tells(requests, window, pasts[window]);
      ReadingsIgnoreOrder(requests, others, window);
    }
    WindowsAreThoseRead(requests, 0);
    WindowsAreThoseRead(others, 0);
    SpendIsWhatOthersSpent(requests, pasts);
    SpendIsWhatOthersSpent(others, pasts);
    PositiveCostsShowExactly(requests, pasts);
    PositiveCostsShowExactly(others, pasts);
    assert SameWindows(Windows(requests), Windows(others));
    OverIgnoresOrder(pasts, Windows(requests), Windows(others));
  }

  lemma SameEmptiness(readings: seq<Reading>, others: seq<Reading>)
    requires multiset(readings) == multiset(others)
    ensures readings == [] <==> others == []
  {
  }
}
