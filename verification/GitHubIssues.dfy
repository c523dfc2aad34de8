/** Enumerating a repository's Issues under one budget, whatever GitHub answers. */
module GitHubIssues {
  import opened Wrappers
  import opened StableSorting
  import opened GitHubPaging

  /** One Issue as listed: the first page of each connection its profile needs, and of its Linked
      Pull Requests, which need not be readable. */
  datatype Record = Record(
    id: nat,
    number: nat,
    updatedAt: int,
    connections: seq<Connection>,
    linked: Option<Connection>,
    linkedTotal: nat,
    comments: nat,
    colors: map<nat, nat>,
    wellFormed: bool)

  datatype Entry = Entry(record: Record, connections: seq<seq<Item>>)

  datatype Listing =
    | Listed(records: seq<Record>, hasNext: bool, endCursor: Option<string>)
    | ListingRefused
    | NotAListing

  datatype Activity = Activity(comments: nat, linked: seq<nat>, unlisted: nat)

  const MAX_LINKED: nat := 20

  /** What GitHub would answer to the `n`th request, asked for a listing or for a connection's page. */
  datatype GitHub = GitHub(listings: nat -> Listing, pages: nat -> Answer)

  datatype Collected = Collected(
    issues: seq<Entry>, activity: map<nat, Activity>, unlisted: seq<nat>, colors: map<nat, nat>)

  predicate NumberLe(a: Entry, b: Entry) { a.record.number <= b.record.number }

  predicate UpdatedLe(a: Entry, b: Entry) { a.record.updatedAt <= b.record.updatedAt }

  predicate Smaller(a: nat, b: nat) { a <= b }

  function FirstLinked(numbers: seq<nat>): seq<nat> {
    var sorted := Sort(numbers, Smaller);
    if |sorted| <= MAX_LINKED then sorted else sorted[..MAX_LINKED]
  }

  /** What is shown of an Issue whose Linked Pull Requests are these. */
  function ActivityOf(record: Record, linked: seq<nat>): Activity {
    var shown := FirstLinked(linked);
    Activity(record.comments, shown, if record.linkedTotal > |shown| then record.linkedTotal - |shown| else 0)
  }

  function FirstPage(record: Record): seq<nat> {
    if record.linked.None? then [] else record.linked.value.nodes
  }

  /** ... and of one whose Linked Pull Requests could not be completed. */
  function DegradedActivity(record: Record): Activity {
    var first := ActivityOf(record, FirstPage(record));
    first.(linked := [], unlisted := |first.linked| + first.unlisted)
  }

  // -- Observing records -------------------------------------------------------------------------

  /** Connections completed one after another by requests `from` to `to`. */
  ghost predicate CompletedInTurn(
    github: GitHub, connections: seq<Connection>, completed: seq<seq<Item>>, from: nat, to: nat)
  {
    |completed| == |connections| &&
    if connections == [] then from == to
    else
      var n := |connections| - 1;
      exists mid: nat :: CompletedInTurn(github, connections[..n], completed[..n], from, mid) &&
        Completed(github.pages, connections[n], mid, to, completed[n])
  }

  ghost predicate Observed(github: GitHub, record: Record, entry: Entry, from: nat, to: nat) {
    entry.record == record && record.wellFormed &&
    CompletedInTurn(github, record.connections, entry.connections, from, to)
  }

  /** Records observed one after another, each whole, by requests `from` to `to`. */
  ghost predicate ObservedInTurn(github: GitHub, records: seq<Record>, entries: seq<Entry>, from: nat, to: nat) {
    |entries| == |records| &&
    if records == [] then from == to
    else
      var n := |records| - 1;
      exists mid: nat :: ObservedInTurn(github, records[..n], entries[..n], from, mid) &&
        Observed(github, records[n], entries[n], mid, to)
  }

  ghost predicate DistinctRecords(records: seq<Record>) {
    forall i, j :: 0 <= i < j < |records| ==> records[i].id != records[j].id && records[i].number != records[j].number
  }

  lemma NothingCompleted(github: GitHub, at: nat)
    ensures CompletedInTurn(github, [], [], at, at)
  {
  }

  lemma CompletedOneMore(
    github: GitHub, connections: seq<Connection>, i: nat, completed: seq<seq<Item>>, nodes: seq<Item>,
    from: nat, mid: nat, to: nat)
    requires i < |connections| && CompletedInTurn(github, connections[..i], completed, from, mid)
    requires Completed(github.pages, connections[i], mid, to, nodes)
    ensures CompletedInTurn(github, connections[..i + 1], completed + [nodes], from, to)
  {
    assert connections[..i + 1][..i] == connections[..i];
    assert (completed + [nodes])[..i] == completed;
  }

  /** One connection could not be followed further, those before it having been, or else the record
      that came of them all is malformed. */
  ghost predicate RecordFails(github: GitHub, record: Record, from: nat, to: nat, fault: Fault) {
    || (exists i: nat, completed, mid: nat :: i < |record.connections| &&
          CompletedInTurn(github, record.connections[..i], completed, from, mid) &&
          Stopped(github.pages, record.connections[i], mid, to, fault))
    || (!record.wellFormed && fault == Malformed &&
        exists completed :: CompletedInTurn(github, record.connections, completed, from, to))
  }

  method ObserveRecord(meter: RefreshMeter, github: GitHub, record: Record) returns (entry: Result<Entry, Fault>)
    requires meter.Within()
    modifies meter
    ensures meter.Within() && old(meter.requests) <= meter.requests
    ensures entry.Success? ==> Observed(github, record, entry.value, old(meter.requests), meter.requests)
    ensures entry.Failure? ==> RecordFails(github, record, old(meter.requests), meter.requests, entry.error)
    ensures entry == Failure(BudgetSpent) ==> meter.Exhausted()
  {
    hide Completed, CompletedInTurn, Stopped;
    assert CompletedInTurn(github, [], [], meter.requests, meter.requests) by {
      NothingCompleted(github, meter.requests);
    }
    var completed: seq<seq<Item>> := [];
    ghost var from := meter.requests;
    for i := 0 to |record.connections|
      invariant meter.Within() && from <= meter.requests
      invariant CompletedInTurn(github, record.connections[..i], completed, from, meter.requests)
    {
      ghost var mid := meter.requests;
      var nodes := CompletePages(meter, github.pages, record.connections[i]);
      if nodes.Failure? { return Failure(nodes.error); }
      CompletedOneMore(github, record.connections, i, completed, nodes.value, from, mid, meter.requests);
      completed := completed + [nodes.value];
    }
    assert record.connections[..|record.connections|] == record.connections;
    if !record.wellFormed { return Failure(Malformed); }
    entry := Success(Entry(record, completed));
  }

  lemma ObservedOneMore(
    github: GitHub, records: seq<Record>, i: nat, entries: seq<Entry>, entry: Entry, from: nat, mid: nat, to: nat)
    requires i < |records| && ObservedInTurn(github, records[..i], entries, from, mid)
    requires Observed(github, records[i], entry, mid, to)
    ensures ObservedInTurn(github, records[..i + 1], entries + [entry], from, to)
  {
    assert records[..i + 1][..i] == records[..i];
    assert (entries + [entry])[..i] == entries;
  }

  /** Refuse a listing that repeats an identity or a number. */
  method CheckInvariants(records: seq<Record>) returns (unique: bool)
    ensures unique <==> DistinctRecords(records)
  {
    var ids, numbers: set<nat> := {}, {};
    for i := 0 to |records|
      invariant DistinctRecords(records[..i])
      invariant forall id :: id in ids <==> exists j :: 0 <= j < i && records[j].id == id
      invariant forall number :: number in numbers <==> exists j :: 0 <= j < i && records[j].number == number
    {
      if records[i].id in ids { return false; }
      if records[i].number in numbers { return false; }
      ids, numbers := ids + {records[i].id}, numbers + {records[i].number};
    }
    assert records[..|records|] == records;
    unique := true;
  }

  /** One record could not be observed, those before it having been, or else they repeat an identity
      or a number. */
  ghost predicate RecordsFail(github: GitHub, records: seq<Record>, from: nat, to: nat, fault: Fault) {
    || (exists i: nat, entries, mid: nat :: i < |records| &&
          ObservedInTurn(github, records[..i], entries, from, mid) && RecordFails(github, records[i], mid, to, fault))
    || (!DistinctRecords(records) && fault == Duplicate &&
        exists entries :: ObservedInTurn(github, records, entries, from, to))
  }

  lemma NothingObserved(github: GitHub, at: nat)
    ensures ObservedInTurn(github, [], [], at, at)
  {
  }

  /** Observe the Issues of one listing, in order. */
  method ObserveRecords(meter: RefreshMeter, github: GitHub, records: seq<Record>)
    returns (entries: Result<seq<Entry>, Fault>)
    requires meter.Within()
    modifies meter
    ensures meter.Within() && old(meter.requests) <= meter.requests
    ensures entries.Success? ==>
      ObservedInTurn(github, records, entries.value, old(meter.requests), meter.requests) && DistinctRecords(records)
    ensures entries.Failure? ==> RecordsFail(github, records, old(meter.requests), meter.requests, entries.error)
    ensures entries == Failure(BudgetSpent) ==> meter.Exhausted()
  {
    hide Observed, ObservedInTurn, RecordFails, DistinctRecords;
    assert ObservedInTurn(github, [], [], meter.requests, meter.requests) by { NothingObserved(github, meter.requests); }
    var observed: seq<Entry> := [];
    ghost var from := meter.requests;
    for i := 0 to |records|
      invariant meter.Within() && from <= meter.requests
      invariant ObservedInTurn(github, records[..i], observed, from, meter.requests)
    {
      ghost var mid := meter.requests;
      var entry := ObserveRecord(meter, github, records[i]);
      if entry.Failure? { return Failure(entry.error); }
      ObservedOneMore(github, records, i, observed, entry.value, from, mid, meter.requests);
      observed := observed + [entry.value];
    }
    assert records[..|records|] == records;
    var unique := CheckInvariants(records);
    if !unique { return Failure(Duplicate); }
    entries := Success(observed);
  }

  // -- The enumeration ---------------------------------------------------------------------------

  /** The cursors that follow these listings. */
  function Cursors(github: GitHub, listed: seq<nat>): set<string> {
    if listed == [] then {}
    else
      var last := github.listings(listed[|listed| - 1]);
      Cursors(github, listed[..|listed| - 1]) + (if last.Listed? then {last.endCursor.GetOr("")} else {})
  }

  /** The listings asked for, by request, each following the one before by a cursor none had
      followed; and the Issues of each, observed whole before the next was asked for. */
  ghost predicate Enumerated(github: GitHub, listed: seq<nat>, entries: seq<Entry>, to: nat) {
    if listed == [] then entries == [] && to == 0
    else
      var n := |listed| - 1;
      var at, before := listed[n], listed[..n];
      && github.listings(at).Listed?
      && |entries| >= |github.listings(at).records|
      && (var m := |entries| - |github.listings(at).records|;
          && Enumerated(github, before, entries[..m], at)
          && ObservedInTurn(github, github.listings(at).records, entries[m..], at + 1, to))
      && (before != [] ==> Continues(github, before))
  }

  ghost predicate Continues(github: GitHub, listed: seq<nat>)
    requires listed != []
  {
    var last := github.listings(listed[|listed| - 1]);
    last.Listed? && last.hasNext && Followable(Cursors(github, listed[..|listed| - 1]), last.endCursor)
  }

  lemma EnumeratedOneMore(github: GitHub, listed: seq<nat>, entries: seq<Entry>, at: nat, more: seq<Entry>, to: nat)
    requires Enumerated(github, listed, entries, at) && (listed != [] ==> Continues(github, listed))
    requires github.listings(at).Listed? && ObservedInTurn(github, github.listings(at).records, more, at + 1, to)
    ensures Enumerated(github, listed + [at], entries + more, to)
  {
  }

  /** Why an enumeration went no further than these listings and Issues. */
  ghost predicate EnumerationFails(
    github: GitHub, listed: seq<nat>, entries: seq<Entry>, at: nat, to: nat, fault: Fault)
  {
    && Enumerated(github, listed, entries, at)
    && (if fault == Pagination && at == to then
          && listed != [] && github.listings(listed[|listed| - 1]).Listed?
          && github.listings(listed[|listed| - 1]).hasNext && !Continues(github, listed)
        else
          && (listed != [] ==> Continues(github, listed))
          && match github.listings(at)
             case ListingRefused => (fault == BudgetSpent && to == at) || (fault == Refused && to == at + 1)
             case NotAListing => (fault == BudgetSpent && to == at) || (fault == Malformed && to == at + 1)
             case Listed(records, _, _) =>
               (fault == BudgetSpent && to == at) || RecordsFail(github, records, at + 1, to, fault))
  }

  /** Every Issue of every listing, page by page, until a listing is the last. */
  method Enumerate(meter: RefreshMeter, github: GitHub)
    returns (found: Result<seq<Entry>, Fault>, ghost listed: seq<nat>, ghost entries: seq<Entry>, ghost reached: nat)
    requires meter.Within() && meter.requests == 0
    modifies meter
    ensures meter.Within()
    ensures found.Success? ==>
      && found.value == entries && listed != [] && Enumerated(github, listed, entries, meter.requests)
      && !github.listings(listed[|listed| - 1]).hasNext
    ensures found.Failure? ==> EnumerationFails(github, listed, entries, reached, meter.requests, found.error)
    ensures found == Failure(BudgetSpent) ==> meter.Exhausted()
  {
    hide ObservedInTurn, Enumerated, RecordsFail, DistinctRecords;
    var issues: seq<Entry>, more := [], true;
    var trail := new CursorTrail();
    listed, entries, reached := [], [], 0;
    assert Enumerated(github, [], [], 0) by { NothingEnumerated(github); }
    while more
      invariant meter.Within() && reached == meter.requests && entries == issues
      invariant Enumerated(github, listed, issues, meter.requests)
      invariant more && listed != [] ==> Continues(github, listed)
      invariant more ==> trail.seen == Cursors(github, listed)
      invariant !more ==> listed != [] && github.listings(listed[|listed| - 1]).Listed? &&
                          !github.listings(listed[|listed| - 1]).hasNext
      decreases meter.budget.requests - meter.requests
    {
      var spent := meter.NextRequest();
      if !spent { return Failure(BudgetSpent), listed, entries, reached; }
      var listing := github.listings(meter.requests - 1);
      if listing.ListingRefused? { return Failure(Refused), listed, entries, reached; }
      if listing.NotAListing? { return Failure(Malformed), listed, entries, reached; }
      var observed := ObserveRecords(meter, github, listing.records);
      if observed.Failure? { return Failure(observed.error), listed, entries, reached; }
      EnumeratedOneMore(github, listed, issues, reached, observed.value, meter.requests);
      assert (listed + [reached])[..|listed|] == listed;
      issues, more := issues + observed.value, listing.hasNext;
      listed, entries, reached := listed + [reached], issues, meter.requests;
      if more {
        var cursor := trail.Follow(listing.endCursor);
        if cursor.Failure? { return Failure(cursor.error), listed, entries, reached; }
      }
    }
    found := Success(issues);
  }

  lemma NothingEnumerated(github: GitHub)
    ensures Enumerated(github, [], [], 0)
  {
  }

  /** No cursor of the listing is followed twice. */
  lemma {:induction false} NoListingTwice(github: GitHub, listed: seq<nat>, entries: seq<Entry>, to: nat, m: nat, n: nat)
    requires Enumerated(github, listed, entries, to) && m < n < |listed| - 1
    ensures github.listings(listed[m]).Listed? && github.listings(listed[n]).Listed?
    ensures github.listings(listed[m]).endCursor.Some? && github.listings(listed[n]).endCursor.Some?
    ensures github.listings(listed[m]).endCursor != github.listings(listed[n]).endCursor
  {
    var last := |listed| - 1;
    var before, rest := listed[..last], entries[..|entries| - |github.listings(listed[last]).records|];
    assert Enumerated(github, before, rest, listed[last]);
    if n == last - 1 {
      assert Continues(github, before);
      ListedAre(github, before, rest, listed[last], m);
      CursorsHold(github, before[..last - 1], m);
    } else {
      NoListingTwice(github, before, rest, listed[last], m, n);
    }
  }

  lemma {:induction false} CursorsHold(github: GitHub, listed: seq<nat>, m: nat)
    requires m < |listed| && github.listings(listed[m]).Listed?
    ensures github.listings(listed[m]).endCursor.GetOr("") in Cursors(github, listed)
  {
    if m < |listed| - 1 {
      CursorsHold(github, listed[..|listed| - 1], m);
    }
  }

  lemma {:induction false} ListedAre(github: GitHub, listed: seq<nat>, entries: seq<Entry>, to: nat, m: nat)
    requires Enumerated(github, listed, entries, to) && m < |listed| - 1
    ensures github.listings(listed[m]).Listed? && github.listings(listed[m]).endCursor.Some?
  {
    var last := |listed| - 1;
    if m < last - 1 {
      ListedAre(github, listed[..last], entries[..|entries| - |github.listings(listed[last]).records|], listed[last], m);
    } else {
      assert Continues(github, listed[..last]);
    }
  }

  // -- What is collected -------------------------------------------------------------------------

  /** One Issue's engagement: of its completed Linked Pull Requests, or degraded when their
      completion stopped. */
  ghost predicate ShownBy(github: GitHub, record: Record, shown: Activity, failed: bool, from: nat, to: nat) {
    if record.linked.None? then shown == ActivityOf(record, []) && !failed && from == to
    else if failed then
      shown == DegradedActivity(record) && exists fault :: Stopped(github.pages, record.linked.value, from, to, fault)
    else
      exists linked ::
        Completed(github.pages, record.linked.value, from, to, linked) && shown == ActivityOf(record, linked)
  }

  method DisplayActivity(meter: RefreshMeter, github: GitHub, entry: Entry) returns (shown: Activity, failed: bool)
    requires meter.Within()
    modifies meter
    ensures meter.Within() && old(meter.requests) <= meter.requests
    ensures ShownBy(github, entry.record, shown, failed, old(meter.requests), meter.requests)
  {
    var record := entry.record;
    if record.linked.None? { return ActivityOf(record, []), false; }
    var linked := CompletePages(meter, github.pages, record.linked.value);
    if linked.Failure? {
      shown, failed := DegradedActivity(record), true;
    } else {
      shown, failed := ActivityOf(record, linked.value), false;
    }
  }

  /** A failed completion leaves no Linked Pull Request listed, and counts every one known of. */
  lemma DegradedCountsThemAll(record: Record)
    ensures var shown, nodes := DegradedActivity(record), if record.linked.Some? then |record.linked.value.nodes| else 0;
      var known := if nodes < MAX_LINKED then nodes else MAX_LINKED;
      && shown.comments == record.comments && shown.linked == []
      && shown.unlisted == if record.linkedTotal > known then record.linkedTotal else known
  {
    ShowsTheLowest(record, FirstPage(record), 0, 0);
    hide FirstLinked;
  }

  /** What is shown is the lowest-numbered twenty, and how many there are besides. */
  lemma ShowsTheLowest(record: Record, linked: seq<nat>, i: nat, number: nat)
    ensures var shown := ActivityOf(record, linked).linked;
      && |shown| == (if |linked| < MAX_LINKED then |linked| else MAX_LINKED)
      && multiset(shown) <= multiset(linked)
      && (number in multiset(linked) - multiset(shown) && i < |shown| ==> shown[i] <= number)
      && (0 < i < |shown| ==> shown[i - 1] <= shown[i])
    ensures var activity := ActivityOf(record, linked);
      && |activity.linked| + activity.unlisted ==
         (if record.linkedTotal > |activity.linked| then record.linkedTotal else |activity.linked|)
      && activity.comments == record.comments
  {
    hide Sort, Sorted;
    SortSorts(linked, Smaller);
    var sorted := Sort(linked, Smaller);
    assert |sorted| == |linked| by { assert |multiset(sorted)| == |multiset(linked)|; }
    LowestOf(linked, sorted, if |sorted| <= MAX_LINKED then |sorted| else MAX_LINKED, i, number);
    assert sorted[..|sorted|] == sorted;
  }

  lemma LowestOf(numbers: seq<nat>, sorted: seq<nat>, n: nat, i: nat, number: nat)
    requires multiset(sorted) == multiset(numbers) && Sorted(sorted, Smaller) && n <= |sorted|
    ensures var shown := sorted[..n];
      && multiset(shown) <= multiset(numbers)
      && (number in multiset(numbers) - multiset(shown) && i < |shown| ==> shown[i] <= number)
      && (0 < i < |shown| ==> shown[i - 1] <= shown[i])
  {
    var shown, rest := sorted[..n], sorted[n..];
    assert sorted == shown + rest;
    assert 0 < i < n ==> Smaller(sorted[i - 1], sorted[i]);
    if i < n && number in multiset(rest) {
      var j :| 0 <= j < |rest| && rest[j] == number;
      assert Smaller(sorted[i], sorted[n + j]);
    }
  }

  /** Later entries of one identity replace earlier ones. */
  function ActivityById(issues: seq<Entry>, shown: seq<Activity>): map<nat, Activity>
    requires |shown| == |issues|
  {
    if issues == [] then map[]
    else
      var n := |issues| - 1;
      ActivityById(issues[..n], shown[..n])[issues[n].record.id := shown[n]]
  }

  function Unlisted(issues: seq<Entry>, failed: seq<bool>): seq<nat>
    requires |failed| == |issues|
  {
    if issues == [] then []
    else
      var n := |issues| - 1;
      Unlisted(issues[..n], failed[..n]) + if failed[n] then [issues[n].record.number] else []
  }

  /** The colours of an Issue updated later replace those of one updated earlier. */
  function ColorsOf(entries: seq<Entry>): map<nat, nat> {
    if entries == [] then map[] else ColorsOf(entries[..|entries| - 1]) + entries[|entries| - 1].record.colors
  }

  ghost predicate ShownInTurn(
    github: GitHub, issues: seq<Entry>, shown: seq<Activity>, failed: seq<bool>, from: nat, to: nat)
  {
    |shown| == |issues| && |failed| == |issues| &&
    if issues == [] then from == to
    else
      var n := |issues| - 1;
      exists mid: nat :: ShownInTurn(github, issues[..n], shown[..n], failed[..n], from, mid) &&
        ShownBy(github, issues[n].record, shown[n], failed[n], mid, to)
  }

  lemma ShownOneMore(
    github: GitHub, issues: seq<Entry>, i: nat, shown: seq<Activity>, failed: seq<bool>, next: Activity, fails: bool,
    from: nat, mid: nat, to: nat)
    requires i < |issues| && ShownInTurn(github, issues[..i], shown, failed, from, mid)
    requires ShownBy(github, issues[i].record, next, fails, mid, to)
    ensures ShownInTurn(github, issues[..i + 1], shown + [next], failed + [fails], from, to)
  {
    hide ShownBy, ActivityOf, DegradedActivity;
    var upTo, more, flags := issues[..i + 1], shown + [next], failed + [fails];
    assert upTo[..i] == issues[..i] && more[..i] == shown && flags[..i] == failed;
    assert ShownInTurn(github, upTo[..i], more[..i], flags[..i], from, mid);
  }

  lemma KeyedOneMore(issues: seq<Entry>, i: nat, shown: seq<Activity>, failed: seq<bool>, next: Activity, fails: bool)
    requires i < |issues| && |shown| == i && |failed| == i
    ensures ActivityById(issues[..i + 1], shown + [next]) == ActivityById(issues[..i], shown)[issues[i].record.id := next]
    ensures Unlisted(issues[..i + 1], failed + [fails]) ==
      Unlisted(issues[..i], failed) + if fails then [issues[i].record.number] else []
  {
    assert issues[..i + 1][..i] == issues[..i];
    assert (shown + [next])[..i] == shown && (failed + [fails])[..i] == failed;
  }

  /** The engagement of every Issue in turn, once all of them have been observed. */
  method DisplayAll(meter: RefreshMeter, github: GitHub, issues: seq<Entry>)
    returns (activity: map<nat, Activity>, unlisted: seq<nat>, ghost shown: seq<Activity>, ghost failed: seq<bool>)
    requires meter.Within()
    modifies meter
    ensures meter.Within() && old(meter.requests) <= meter.requests
    ensures ShownInTurn(github, issues, shown, failed, old(meter.requests), meter.requests)
    ensures activity == ActivityById(issues, shown) && unlisted == Unlisted(issues, failed)
  {
    hide ShownBy, ActivityById, Unlisted;
    activity, unlisted, shown, failed := map[], [], [], [];
    ghost var from := meter.requests;
    assert issues[..0] == [] && activity == ActivityById([], []) && unlisted == Unlisted([], []) by { NothingShown(); }
    for i := 0 to |issues|
      invariant meter.Within() && from <= meter.requests
      invariant ShownInTurn(github, issues[..i], shown, failed, from, meter.requests)
      invariant activity == ActivityById(issues[..i], shown) && unlisted == Unlisted(issues[..i], failed)
    {
      ghost var mid := meter.requests;
      var next, fails := DisplayActivity(meter, github, issues[i]);
      ShownOneMore(github, issues, i, shown, failed, next, fails, from, mid, meter.requests);
      KeyedOneMore(issues, i, shown, failed, next, fails);
      activity := activity[issues[i].record.id := next];
      if fails {
        unlisted := unlisted + [issues[i].record.number];
      }
      shown, failed := shown + [next], failed + [fails];
    }
    assert issues[..|issues|] == issues;
  }

  lemma NothingShown()
    ensures ActivityById([], []) == map[] && Unlisted([], []) == []
  {
  }

  /** Merge label colours, Issues updated later replacing those updated earlier. */
  method MergeColors(issues: seq<Entry>) returns (colors: map<nat, nat>)
    ensures colors == ColorsOf(Sort(issues, UpdatedLe))
    ensures forall tag :: tag in colors <==> exists i :: 0 <= i < |issues| && tag in issues[i].record.colors
    ensures forall tag :: tag in colors ==> IsNewestColor(issues, tag, colors[tag])
  {
    hide Sort;
    colors := map[];
    var sorted := Sort(issues, UpdatedLe);
    for i := 0 to |sorted|
      invariant colors == ColorsOf(sorted[..i])
    {
      assert sorted[..i + 1][..i] == sorted[..i];
      colors := colors + sorted[i].record.colors;
    }
    assert sorted[..|sorted|] == sorted;
    forall tag ensures tag in colors <==> exists i :: 0 <= i < |issues| && tag in issues[i].record.colors {
      ColoredByAnIssue(issues, tag);
    }
    forall tag | tag in colors ensures IsNewestColor(issues, tag, colors[tag]) {
      var winner := NewestColorWins(issues, tag);
    }
  }

  /** `color` is that of an Issue carrying the label, updated no earlier than any other that does. */
  ghost predicate IsNewestColor(issues: seq<Entry>, tag: nat, color: nat) {
    exists winner :: winner in issues && tag in winner.record.colors && winner.record.colors[tag] == color &&
      forall other :: other in issues && tag in other.record.colors ==>
        other.record.updatedAt <= winner.record.updatedAt
  }

  lemma ColoredByAnIssue(issues: seq<Entry>, tag: nat)
    ensures tag in ColorsOf(Sort(issues, UpdatedLe)) <==> exists i :: 0 <= i < |issues| && tag in issues[i].record.colors
  {
    var sorted := Sort(issues, UpdatedLe);
    var k := LastColorWins(sorted, tag);
    if tag in ColorsOf(sorted) {
      SameMember(issues, sorted, sorted[k]);
    }
    if exists i :: 0 <= i < |issues| && tag in issues[i].record.colors {
      var i :| 0 <= i < |issues| && tag in issues[i].record.colors;
      SameMember(issues, sorted, issues[i]);
      AnyColors(sorted, issues[i], tag);
    }
  }

  lemma {:induction false} AnyColors(entries: seq<Entry>, entry: Entry, tag: nat)
    requires entry in entries && tag in entry.record.colors
    ensures tag in ColorsOf(entries)
  {
    var n := |entries| - 1;
    if tag !in entries[n].record.colors {
      assert entries == entries[..n] + [entries[n]];
      AnyColors(entries[..n], entry, tag);
    }
  }

  /** Everything a collection says of itself once it returns: what was enumerated, by which requests,
      and the engagement shown by the requests after them. */
  ghost predicate IsCollection(
    github: GitHub, collected: Collected, listed: seq<nat>, found: seq<Entry>, spent: nat,
    shown: seq<Activity>, failed: seq<bool>, to: nat)
  {
    && listed != [] && Enumerated(github, listed, found, spent)
    && !github.listings(listed[|listed| - 1]).hasNext
    && collected.issues == Sort(found, NumberLe)
    && ShownInTurn(github, collected.issues, shown, failed, spent, to)
    && collected.activity == ActivityById(collected.issues, shown)
    && collected.unlisted == Unlisted(collected.issues, failed)
    && collected.colors == ColorsOf(Sort(collected.issues, UpdatedLe))
  }

  /** Enumerate one complete Issue collection. Whatever GitHub answers, this ends, having sent no
      more requests than the budget allows; and it fails only for a reason GitHub or the budget gave. */
  method Collect(budget: Budget, clock: nat -> int, github: GitHub)
    returns (collected: Result<Collected, Fault>, requests: nat,
             ghost listed: seq<nat>, ghost found: seq<Entry>, ghost spent: nat,
             ghost shown: seq<Activity>, ghost failed: seq<bool>)
    ensures requests <= budget.requests
    ensures collected.Success? ==>
      spent <= requests && IsCollection(github, collected.value, listed, found, spent, shown, failed, requests)
    ensures collected.Failure? ==> EnumerationFails(github, listed, found, spent, requests, collected.error)
    ensures collected == Failure(BudgetSpent) ==>
      requests == budget.requests || exists check :: clock(check) > budget.seconds
  {
    hide Enumerated, EnumerationFails, ShownInTurn, ActivityById, Unlisted, Sort;
    var meter := new RefreshMeter(budget, clock);
    shown, failed := [], [];
    var entries;
    entries, listed, found, spent := Enumerate(meter, github);
    if entries.Failure? { return Failure(entries.error), meter.requests, listed, found, spent, shown, failed; }
    spent := meter.requests;
    var issues := Sort(entries.value, NumberLe);
    var activity, unlisted;
    activity, unlisted, shown, failed := DisplayAll(meter, github, issues);
    var colors := MergeColors(issues);
    collected, requests := Success(Collected(issues, activity, unlisted, colors)), meter.requests;
  }

  // -- What a collection holds -------------------------------------------------------------------

  /** The records of some listings, one listing after another. */
  function RecordsOf(github: GitHub, listed: seq<nat>): seq<Record> {
    if listed == [] then []
    else
      var last := github.listings(listed[|listed| - 1]);
      RecordsOf(github, listed[..|listed| - 1]) + if last.Listed? then last.records else []
  }

  function Records(entries: seq<Entry>): seq<Record> {
    if entries == [] then [] else Records(entries[..|entries| - 1]) + [entries[|entries| - 1].record]
  }

  lemma {:induction false} RecordsConcat(entries: seq<Entry>, more: seq<Entry>)
    ensures Records(entries + more) == Records(entries) + Records(more)
  {
    if more == [] {
      assert entries + more == entries;
    } else {
      RecordsConcat(entries, more[..|more| - 1]);
      assert (entries + more)[..|entries + more| - 1] == entries + more[..|more| - 1];
    }
  }

  lemma {:induction false} ObservedAreTheRecords(
    github: GitHub, records: seq<Record>, entries: seq<Entry>, from: nat, to: nat)
    requires ObservedInTurn(github, records, entries, from, to)
    ensures Records(entries) == records
  {
    if records != [] {
      var n := |records| - 1;
      var mid: nat :| ObservedInTurn(github, records[..n], entries[..n], from, mid) &&
        Observed(github, records[n], entries[n], mid, to);
      ObservedAreTheRecords(github, records[..n], entries[..n], from, mid);
      assert records == records[..n] + [records[n]];
    }
  }

  lemma {:induction false} EnumeratedAreTheRecords(github: GitHub, listed: seq<nat>, entries: seq<Entry>, to: nat)
    requires Enumerated(github, listed, entries, to)
    ensures Records(entries) == RecordsOf(github, listed)
  {
    if listed != [] {
      var at := listed[|listed| - 1];
      var m := |entries| - |github.listings(at).records|;
      EnumeratedAreTheRecords(github, listed[..|listed| - 1], entries[..m], at);
      ObservedAreTheRecords(github, github.listings(at).records, entries[m..], at + 1, to);
      assert entries == entries[..m] + entries[m..];
      RecordsConcat(entries[..m], entries[m..]);
    }
  }

  predicate NoLaterRepeats(issues: seq<Entry>, i: nat) {
    i < |issues| && forall j :: i < j < |issues| ==> issues[j].record.id != issues[i].record.id
  }

  lemma {:induction false} EveryIssueHasActivity(issues: seq<Entry>, shown: seq<Activity>, i: nat)
    requires |shown| == |issues| && i < |issues|
    ensures issues[i].record.id in ActivityById(issues, shown)
    ensures NoLaterRepeats(issues, i) ==>
      ActivityById(issues, shown)[issues[i].record.id] == shown[i]
  {
    if i < |issues| - 1 {
      EveryIssueHasActivity(issues[..|issues| - 1], shown[..|issues| - 1], i);
    }
  }

  lemma {:induction false} UnlistedFailed(issues: seq<Entry>, failed: seq<bool>)
    requires |failed| == |issues|
    ensures forall number :: number in Unlisted(issues, failed) <==>
      exists k :: 0 <= k < |failed| && failed[k] && issues[k].record.number == number
  {
    if issues != [] {
      var n := |issues| - 1;
      UnlistedFailed(issues[..n], failed[..n]);
      assert forall k :: 0 <= k < n ==> failed[..n][k] == failed[k] && issues[..n][k] == issues[k];
    }
  }

  lemma ShownNeverGoesBack(github: GitHub, record: Record, shown: Activity, failed: bool, from: nat, to: nat)
    requires ShownBy(github, record, shown, failed, from, to)
    ensures from <= to
  {
  }

  /** Requests `from` to `to` hold a range that answered for the `i`th Issue's engagement. */
  ghost predicate ShownWithin(
    github: GitHub, issues: seq<Entry>, shown: seq<Activity>, failed: seq<bool>, from: nat, to: nat, i: nat)
    requires i < |issues| == |shown| == |failed|
  {
    exists first: nat, last: nat :: from <= first <= last <= to &&
      ShownBy(github, issues[i].record, shown[i], failed[i], first, last)
  }

  lemma {:induction false} EveryIssueIsShown(
    github: GitHub, issues: seq<Entry>, shown: seq<Activity>, failed: seq<bool>, from: nat, to: nat, i: nat)
    requires ShownInTurn(github, issues, shown, failed, from, to)
    ensures from <= to
    ensures i < |issues| ==> ShownWithin(github, issues, shown, failed, from, to, i)
  {
    hide ShownBy;
    if issues != [] {
      var n := |issues| - 1;
      var mid: nat :| ShownInTurn(github, issues[..n], shown[..n], failed[..n], from, mid) &&
        ShownBy(github, issues[n].record, shown[n], failed[n], mid, to);
      ShownNeverGoesBack(github, issues[n].record, shown[n], failed[n], mid, to);
      EveryIssueIsShown(github, issues[..n], shown[..n], failed[..n], from, mid, i);
    }
  }

  /** A collection holds every record of every page, ordered by number and then as listed, and no
      more; with engagement for each, which is its own, found by requests sent once all were
      observed, unless a later Issue repeats its identity. */
  lemma CollectionHoldsEveryPage(
    github: GitHub, collected: Collected, listed: seq<nat>, found: seq<Entry>, spent: nat,
    shown: seq<Activity>, failed: seq<bool>, to: nat, i: nat)
    requires IsCollection(github, collected, listed, found, spent, shown, failed, to)
    ensures Records(found) == RecordsOf(github, listed)
    ensures StablySorted(found, collected.issues, NumberLe) && multiset(collected.issues) == multiset(found)
    ensures forall j, k :: 0 <= j < k < |collected.issues| ==>
      collected.issues[j].record.number <= collected.issues[k].record.number
    ensures |failed| == |collected.issues| && forall number :: number in collected.unlisted <==>
      exists k :: 0 <= k < |failed| && failed[k] && collected.issues[k].record.number == number
    ensures i < |collected.issues| ==>
      && collected.issues[i].record.id in collected.activity
      && ShownWithin(github, collected.issues, shown, failed, spent, to, i)
      && (NoLaterRepeats(collected.issues, i) ==> collected.activity[collected.issues[i].record.id] == shown[i])
  {
    hide ShownInTurn, ShownWithin, Enumerated;
    EnumeratedAreTheRecords(github, listed, found, spent);
    SortIsStable(found, NumberLe);
    assert |shown| == |collected.issues| == |failed| by {
      AllAreShown(github, collected.issues, shown, failed, spent, to);
    }
    forall j, k | 0 <= j < k < |collected.issues|
      ensures collected.issues[j].record.number <= collected.issues[k].record.number
    {
      assert NumberLe(collected.issues[j], collected.issues[k]);
    }
    UnlistedFailed(collected.issues, failed);
    if i < |collected.issues| {
      EveryIssueHasActivity(collected.issues, shown, i);
      EveryIssueIsShown(github, collected.issues, shown, failed, spent, to, i);
    }
  }

  lemma AllAreShown(
    github: GitHub, issues: seq<Entry>, shown: seq<Activity>, failed: seq<bool>, from: nat, to: nat)
    requires ShownInTurn(github, issues, shown, failed, from, to)
    ensures |shown| == |issues| == |failed|
  {
  }

  /** `winner` gives a label its colour: no entry after it carries the label. */
  ghost predicate Wins(entries: seq<Entry>, tag: nat, k: nat) {
    && k < |entries| && tag in entries[k].record.colors
    && forall j :: k < j < |entries| ==> tag !in entries[j].record.colors
  }

  lemma {:induction false} LastColorWins(entries: seq<Entry>, tag: nat) returns (k: nat)
    ensures tag in ColorsOf(entries) <==> Wins(entries, tag, k)
    ensures tag in ColorsOf(entries) ==> ColorsOf(entries)[tag] == entries[k].record.colors[tag]
  {
    k := 0;
    if entries != [] {
      var n := |entries| - 1;
      if tag in entries[n].record.colors {
        k := n;
      } else {
        k := LastColorWins(entries[..n], tag);
        assert Wins(entries, tag, k) ==> Wins(entries[..n], tag, k);
        assert Wins(entries[..n], tag, k) ==> forall j :: k < j < n ==> entries[j] == entries[..n][j];
      }
    }
  }

  /** A label has the colour of an Issue that carries it and was updated no earlier than any other. */
  lemma NewestColorWins(entries: seq<Entry>, tag: nat) returns (winner: Entry)
    requires tag in ColorsOf(Sort(entries, UpdatedLe))
    ensures winner in entries && tag in winner.record.colors
    ensures ColorsOf(Sort(entries, UpdatedLe))[tag] == winner.record.colors[tag]
    ensures forall other :: other in entries && tag in other.record.colors ==>
      other.record.updatedAt <= winner.record.updatedAt
  {
    hide ColorsOf, Sort;
    var sorted := Sort(entries, UpdatedLe);
    var k := LastColorWins(sorted, tag);
    SortSorts(entries, UpdatedLe);
    winner := sorted[k];
    SameMember(entries, sorted, winner);
    forall other | other in entries && tag in other.record.colors
      ensures other.record.updatedAt <= winner.record.updatedAt
    {
      SameMember(entries, sorted, other);
      NoneIsNewer(sorted, tag, k, other);
    }
  }

  lemma SameMember(entries: seq<Entry>, sorted: seq<Entry>, entry: Entry)
    requires multiset(sorted) == multiset(entries)
    ensures entry in entries <==> entry in sorted
  {
    assert entry in multiset(entries) <==> entry in multiset(sorted);
  }

  lemma NoneIsNewer(sorted: seq<Entry>, tag: nat, k: nat, other: Entry)
    requires Sorted(sorted, UpdatedLe) && Wins(sorted, tag, k) && other in sorted && tag in other.record.colors
    ensures other.record.updatedAt <= sorted[k].record.updatedAt
  {
  }
}
