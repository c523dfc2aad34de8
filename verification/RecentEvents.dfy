/** The newest-first scan of the Event Log, which stops before it has read every file. */
module RecentEvents {
  import opened Sequences
  import opened StableSorting
  import opened EventSelection
  import opened EventLogFiles
  import opened EventLogMerge

  function AtOrAfter(events: seq<Event>, start: int): nat {
    if events == [] then 0
    else AtOrAfter(events[..|events| - 1], start) + (if events[|events| - 1].time >= start then 1 else 0)
  }

  function Last(events: seq<Event>, limit: int): seq<Event> {
    if limit <= 0 then []
    else if limit >= |events| then events
    else events[|events| - limit..]
  }

  /** Count the found events at or after `start`. */
  method CountFrom(events: seq<Event>, start: int) returns (count: nat)
    ensures count == AtOrAfter(events, start)
  {
    count := 0;
    for i := 0 to |events|
      invariant count == AtOrAfter(events[..i], start)
    {
      assert events[..i + 1][..i] == events[..i];
      if events[i].time >= start {
        count := count + 1;
      }
    }
    assert events[..|events|] == events;
  }

  /** The events of the days from the `n`th on that are no earlier than it starts. */
  ghost function Reached(files: seq<LogFile>, selection: Selection, days: seq<int>, n: nat): nat
    requires n < |days|
  {
    AtOrAfter(EventsOf(InDays(files, days[n..]), selection), StartOf(days[n]))
  }

  /** Read days newest first until one's start leaves `limit` events at or after it, and no further:
      no later day's did. */
  method ScanBack(byDay: map<int, seq<LogFile>>, days: seq<int>, selection: Selection, limit: int,
                  ghost files: seq<LogFile>)
    returns (found: seq<Event>, unread: nat)
    requires Ascending(days) && forall day :: day in days ==> day in byDay && byDay[day] == OfDay(files, day)
    requires forall file :: file in files ==> file.day in days
    ensures unread <= |days|
    ensures multiset(EventsOf(files, selection))
         == multiset(found) + multiset(EventsOf(InDays(files, days[..unread]), selection))
    ensures unread > 0 ==> unread < |days| && AtOrAfter(found, StartOf(days[unread])) >= limit
    ensures forall n :: unread < n < |days| ==> Reached(files, selection, days, n) < limit
  {
    hide EventsOf, InDays, OfDay, AtOrAfter;
    EveryDay(files, days);
    assert days[..|days|] == days && days[|days|..] == [];
    NoneFound(files, selection);
    found, unread := [], |days|;
    while unread > 0
      invariant unread <= |days|
      invariant multiset(EventsOf(files, selection))
        == multiset(found) + multiset(EventsOf(InDays(files, days[..unread]), selection))
      invariant multiset(found) == multiset(EventsOf(InDays(files, days[unread..]), selection))
      invariant forall n :: unread <= n < |days| ==> Reached(files, selection, days, n) < limit
    {
      unread := unread - 1;
      var day := days[unread];
      var added := ReadFiles(byDay[day], selection);
      assert days[..unread + 1] == days[..unread] + [day];
      OneMoreDay(files, selection, days[..unread], day);
      OneDayFurther(files, selection, days, unread);
      found := found + added;
      CountOfPermutation(found, EventsOf(InDays(files, days[unread..]), selection), StartOf(day));
      var count := CountFrom(found, StartOf(day));
      if count >= limit {
        break;
      }
    }
  }

  lemma NoneFound(files: seq<LogFile>, selection: Selection)
    ensures EventsOf(InDays(files, []), selection) == []
  {
    NoDay(files);
  }

  lemma {:induction false} SameDaysHeld(files: seq<LogFile>, days: seq<int>, others: seq<int>)
    requires forall day :: day in days <==> day in others
    ensures InDays(files, days) == InDays(files, others)
  {
    if files != [] {
      SameDaysHeld(files[..|files| - 1], days, others);
    }
  }

  lemma OneDayFurther(files: seq<LogFile>, selection: Selection, days: seq<int>, n: nat)
    requires Ascending(days) && n < |days|
    ensures multiset(EventsOf(InDays(files, days[n..]), selection)) ==
      multiset(EventsOf(InDays(files, days[n + 1..]), selection)) + multiset(EventsOf(OfDay(files, days[n]), selection))
  {
    hide EventsOf, InDays, OfDay;
    assert days[n..] == [days[n]] + days[n + 1..];
    SameDaysHeld(files, days[n..], days[n + 1..] + [days[n]]);
    OneMoreDay(files, selection, days[n + 1..], days[n]);
  }

  predicate SameInstants(events: seq<Event>, others: seq<Event>) {
    |events| == |others| && forall i :: 0 <= i < |events| ==> events[i].time == others[i].time
  }

  /** What is returned and what is not are all the selected events; the returned are in order, and
      when no event is stamped after its file's day none of the others is later than they are, and
      their instants are those of the last `limit` of all selected events sorted. */
  method RecentEventsOf(directories: seq<seq<LogFile>>, selection: Selection, limit: int)
    returns (recent: seq<Event>, ghost others: seq<Event>)
    ensures multiset(EventsOf(WantedOf(selection, Flattened(directories)), selection))
         == multiset(recent) + multiset(others)
    ensures Sorted(recent, EventLe) && (limit <= 0 ==> recent == [])
    ensures NoneAfterOwnDay(Flattened(directories), selection) && limit > 0 ==>
      IsTop(recent, others, limit) &&
      SameInstants(recent, Last(Sort(EventsOf(Flattened(directories), selection), EventLe), limit))
  {
    hide SameInstants;
    hide EventsOf, InDays, OfDay, Sort, Sorted, Last, NoneAfterOwnDay, WantedOf, Flattened, AtOrAfter, IsTop;
    ghost var files := WantedOf(selection, Flattened(directories));
    var byDay, keys := FilesByDay(directories, selection);
    SortedDays(keys);
    var days := Sort(keys, IntLe);
    var found, unread := ScanBack(byDay, days, selection, limit, files);
    recent := Last(Sort(found, EventLe), limit);
    ghost var passed := LastOfSorted(found, limit);
    ghost var unopened := EventsOf(InDays(files, days[..unread]), selection);
    others := passed + unopened;
    if NoneAfterOwnDay(Flattened(directories), selection) && limit > 0 {
      ScannedAreTop(Flattened(directories), selection, days, unread, found, passed, limit);
      SkippedFilesHoldNothing(Flattened(directories), selection);
      RecentInstantsAreExact(EventsOf(Flattened(directories), selection), recent, others, limit);
    }
  }

  lemma SplitBeforeLast(sorted: seq<Event>, limit: int) returns (passed: seq<Event>)
    ensures sorted == passed + Last(sorted, limit) && (limit <= 0 ==> Last(sorted, limit) == [])
    ensures Sorted(sorted, EventLe) ==> Sorted(Last(sorted, limit), EventLe)
    ensures multiset(sorted) == multiset(passed) + multiset(Last(sorted, limit))
  {
    passed := sorted[..|sorted| - |Last(sorted, limit)|];
    assert sorted == passed + Last(sorted, limit);
  }

  lemma LastOfSorted(found: seq<Event>, limit: int) returns (passed: seq<Event>)
    ensures var recent := Last(Sort(found, EventLe), limit);
      Sort(found, EventLe) == passed + recent && Sorted(recent, EventLe) && (limit <= 0 ==> recent == [])
    ensures multiset(found) == multiset(passed) + multiset(Last(Sort(found, EventLe), limit))
  {
    hide Last, Sort, Sorted;
    SortSorts(found, EventLe);
    passed := SplitBeforeLast(Sort(found, EventLe), limit);
  }

  lemma ScannedAreTop(files: seq<LogFile>, selection: Selection, days: seq<int>, unread: nat,
                      found: seq<Event>, passed: seq<Event>, limit: int)
    requires NoneAfterOwnDay(files, selection) && Ascending(days) && unread <= |days| && limit > 0
    requires unread > 0 ==> unread < |days| && AtOrAfter(found, StartOf(days[unread])) >= limit
    requires Sort(found, EventLe) == passed + Last(Sort(found, EventLe), limit)
    ensures IsTop(Last(Sort(found, EventLe), limit),
                  passed + EventsOf(InDays(WantedOf(selection, files), days[..unread]), selection), limit)
  {
    hide EventsOf, InDays, NoneAfterOwnDay, AtOrAfter, IsTop;
    SortSorts(found, EventLe);
    var sorted := Sort(found, EventLe);
    assert passed == sorted[..|sorted| - |Last(sorted, limit)|];
    if unread > 0 {
      UnopenedAreEarlier(files, selection, days, unread);
      SortKeepsCount(found, StartOf(days[unread]));
      LastOfFoundIsTop(sorted, EventsOf(InDays(WantedOf(selection, files), days[..unread]), selection),
                       StartOf(days[unread]), limit);
    } else {
      assert days[..0] == [];
      NothingUnopened(WantedOf(selection, files), selection);
      LastIsTop(sorted, limit);
      assert passed + [] == passed;
    }
  }

  lemma NothingUnopened(files: seq<LogFile>, selection: Selection)
    ensures EventsOf(InDays(files, []), selection) == []
  {
  }

  /** No event left out is later than one returned, and any are left out only for want of room. */
  ghost predicate IsTop(recent: seq<Event>, others: seq<Event>, limit: int) {
    && (others != [] ==> |recent| == limit)
    && |recent| <= limit
    && forall other, event :: other in others && event in recent ==> other.time <= event.time
  }

  lemma LastIsTop(sorted: seq<Event>, limit: int)
    requires Sorted(sorted, EventLe) && limit > 0
    ensures IsTop(Last(sorted, limit), sorted[..|sorted| - |Last(sorted, limit)|], limit)
  {
  }

  lemma LastOfFoundIsTop(sorted: seq<Event>, unopened: seq<Event>, start: int, limit: int)
    requires Sorted(sorted, EventLe) && AtOrAfter(sorted, start) >= limit > 0
    requires forall event :: event in unopened ==> event.time < start
    ensures IsTop(Last(sorted, limit), sorted[..|sorted| - |Last(sorted, limit)|] + unopened, limit)
  {
    hide Sorted, AtOrAfter;
    LastIsTop(sorted, limit);
    LastAreRecent(sorted, start, limit);
    var recent := Last(sorted, limit);
    assert recent == sorted[|sorted| - limit..];
  }

  method ReadFiles(files: seq<LogFile>, selection: Selection) returns (events: seq<Event>)
    ensures events == EventsOf(files, selection)
  {
    events := [];
    for f := 0 to |files|
      invariant events == EventsOf(files[..f], selection)
    {
      var read, bad := ReadFile(files[f].lines, selection);
      assert files[..f + 1][..f] == files[..f];
      events := events + read;
    }
    assert files[..|files|] == files;
  }

  lemma {:induction false} InsertKeepsCount(events: seq<Event>, event: Event, start: int)
    ensures AtOrAfter(Insert(events, event, EventLe), start) == AtOrAfter(events + [event], start)
  {
    assert (events + [event])[..|events|] == events;
    if events != [] && !EventLe(events[|events| - 1], event) {
      InsertKeepsCount(events[..|events| - 1], event, start);
      assert (events[..|events| - 1] + [event])[..|events| - 1] == events[..|events| - 1];
    }
  }

  lemma {:induction false} SortKeepsCount(events: seq<Event>, start: int)
    ensures AtOrAfter(Sort(events, EventLe), start) == AtOrAfter(events, start)
  {
    if events != [] {
      var sorted := Sort(events[..|events| - 1], EventLe);
      SortKeepsCount(events[..|events| - 1], start);
      InsertKeepsCount(sorted, events[|events| - 1], start);
      assert (sorted + [events[|events| - 1]])[..|sorted|] == sorted;
    }
  }

  lemma {:induction false} NoneAtOrAfter(events: seq<Event>, start: int)
    requires forall event :: event in events ==> event.time < start
    ensures AtOrAfter(events, start) == 0
  {
    if events != [] {
      assert events[|events| - 1] in events;
      NoneAtOrAfter(events[..|events| - 1], start);
    }
  }

  /** If `limit` sorted events are at or after `start`, they are the last `limit`. */
  lemma {:induction false} LastAreRecent(events: seq<Event>, start: int, limit: int)
    requires Sorted(events, EventLe) && AtOrAfter(events, start) >= limit > 0
    ensures limit <= |events|
    ensures forall i :: |events| - limit <= i < |events| ==> events[i].time >= start
  {
    if events != [] {
      var last := events[|events| - 1];
      if last.time < start {
        forall i | 0 <= i < |events| ensures events[i].time < start {
          assert i < |events| - 1 ==> EventLe(events[i], events[|events| - 1]);
        }
        NoneAtOrAfter(events, start);
      } else if limit > 1 {
        LastAreRecent(events[..|events| - 1], start, limit - 1);
      }
    }
  }

  lemma {:induction false} EventsHaveFiles(files: seq<LogFile>, selection: Selection, days: seq<int>)
    ensures forall event :: event in EventsOf(InDays(files, days), selection) ==>
      exists file :: file in files && file.day in days && event in SelectedOf(selection, file.lines)
  {
    if files != [] {
      var front, last := files[..|files| - 1], files[|files| - 1];
      EventsHaveFiles(front, selection, days);
      EventsOfOneMore(InDays(front, days), last, selection);
      assert last in files && forall file :: file in front ==> file in files;
    }
  }

  /** Files of earlier days hold no event of this day, when none is stamped after its own. */
  lemma UnopenedAreEarlier(files: seq<LogFile>, selection: Selection, days: seq<int>, unread: nat)
    requires NoneAfterOwnDay(files, selection) && Ascending(days) && unread < |days|
    ensures forall event ::
      event in EventsOf(InDays(WantedOf(selection, files), days[..unread]), selection) ==>
        event.time < StartOf(days[unread])
  {
    EventsHaveFiles(WantedOf(selection, files), selection, days[..unread]);
    WantedAreFiles(selection, files);
    forall event | event in EventsOf(InDays(WantedOf(selection, files), days[..unread]), selection)
      ensures event.time < StartOf(days[unread])
    {
      var file :| file in WantedOf(selection, files) && file.day in days[..unread]
        && event in SelectedOf(selection, file.lines);
      assert file in files;
      var k :| 0 <= k < unread && days[k] == file.day;
      assert file.day + 1 <= days[unread];
    }
  }

  lemma {:induction false} WantedAreFiles(selection: Selection, files: seq<LogFile>)
    ensures forall file :: file in WantedOf(selection, files) ==> file in files
  {
    if files != [] {
      WantedAreFiles(selection, files[..|files| - 1]);
    }
  }

  // -- The last `limit` of everything, sorted --------------------------------------------------

  lemma RemovedFromCount(events: seq<Event>, k: nat, start: int)
    requires k < |events|
    ensures multiset(events[..k] + events[k + 1..]) == multiset(events) - multiset{events[k]}
    ensures AtOrAfter(events[..k] + events[k + 1..], start) + (if events[k].time >= start then 1 else 0)
         == AtOrAfter(events, start)
  {
    assert events == events[..k] + [events[k]] + events[k + 1..];
    CountConcat(events[..k] + [events[k]], events[k + 1..], start);
    CountConcat(events[..k], [events[k]], start);
    CountConcat(events[..k], events[k + 1..], start);
    assert [events[k]][..0] == [];
  }

  lemma {:induction false} CountConcat(xs: seq<Event>, ys: seq<Event>, start: int)
    ensures AtOrAfter(xs + ys, start) == AtOrAfter(xs, start) + AtOrAfter(ys, start)
  {
    if ys == [] {
      assert xs + ys == xs;
    } else {
      CountConcat(xs, ys[..|ys| - 1], start);
      assert (xs + ys)[..|xs + ys| - 1] == xs + ys[..|ys| - 1];
    }
  }

  lemma {:induction false} CountOfPermutation(xs: seq<Event>, ys: seq<Event>, start: int)
    requires multiset(xs) == multiset(ys)
    ensures AtOrAfter(xs, start) == AtOrAfter(ys, start)
    decreases |xs|
  {
    hide AtOrAfter;
    assert |xs| == |multiset(xs)| == |multiset(ys)| == |ys|;
    if xs != [] {
      var k := IndexIn(xs[0], xs, ys);
      RemovedFromCount(xs, 0, start);
      RemovedFromCount(ys, k, start);
      CountOfPermutation(xs[..0] + xs[1..], ys[..k] + ys[k + 1..], start);
    }
  }

  lemma {:induction false} CountOfSorted(events: seq<Event>, i: nat, start: int)
    requires Sorted(events, EventLe) && i < |events|
    ensures events[i].time >= start ==> AtOrAfter(events, start) >= |events| - i
    ensures events[i].time < start ==> AtOrAfter(events, start) < |events| - i
  {
    if i < |events| - 1 {
      CountOfSorted(events[..|events| - 1], i, start);
      assert EventLe(events[i], events[|events| - 1]);
    } else if events[i].time < start {
      forall event | event in events ensures event.time < start {
        var j :| 0 <= j < |events| && events[j] == event;
        assert j < i ==> EventLe(events[j], events[i]);
      }
      NoneAtOrAfter(events, start);
    }
  }

  /** Two arrangements of the same events sorted by instant show the same instants. */
  lemma SortedSameInstants(xs: seq<Event>, ys: seq<Event>, i: nat)
    requires Sorted(xs, EventLe) && Sorted(ys, EventLe) && multiset(xs) == multiset(ys)
    requires i < |xs| == |ys|
    ensures xs[i].time == ys[i].time
  {
    CountOfPermutation(xs, ys, xs[i].time);
    CountOfPermutation(xs, ys, ys[i].time);
    CountOfSorted(xs, i, xs[i].time);
    CountOfSorted(xs, i, ys[i].time);
    CountOfSorted(ys, i, xs[i].time);
    CountOfSorted(ys, i, ys[i].time);
  }

  /** Whatever tops a split of some events has the instants of the last `limit` of them sorted. */
  lemma RecentInstantsAreExact(all: seq<Event>, recent: seq<Event>, others: seq<Event>, limit: int)
    requires multiset(all) == multiset(recent) + multiset(others)
    requires Sorted(recent, EventLe) && limit > 0 && IsTop(recent, others, limit)
    ensures SameInstants(recent, Last(Sort(all, EventLe), limit))
  {
    hide IsTop, Sort, Sorted, TotalPreorder;
    SortSorts(all, EventLe) by { EventsAreOrdered(); }
    OthersThenRecent(recent, others, limit);
    var sorted, before := Sort(all, EventLe), Sort(others, EventLe);
    SameLast(before, recent, sorted);
    SameSize(before, others);
  }

  lemma SameSize(before: seq<Event>, others: seq<Event>)
    requires multiset(before) == multiset(others)
    ensures |before| == |others|
  {
    assert |before| == |multiset(before)| == |multiset(others)| == |others|;
  }

  lemma EventsAreOrdered()
    ensures TotalPreorder(EventLe)
  {
  }

  lemma SameLast(before: seq<Event>, recent: seq<Event>, sorted: seq<Event>)
    requires Sorted(before + recent, EventLe) && Sorted(sorted, EventLe)
    requires multiset(before + recent) == multiset(sorted)
    ensures |sorted| == |before| + |recent|
    ensures forall i :: 0 <= i < |recent| ==> recent[i].time == sorted[|before| + i].time
  {
    hide Sorted;
    assert |before + recent| == |multiset(before + recent)| == |multiset(sorted)| == |sorted|;
    forall i | 0 <= i < |recent| ensures recent[i].time == sorted[|before| + i].time {
      SortedSameInstants(before + recent, sorted, |before| + i);
    }
  }

  lemma OthersThenRecent(recent: seq<Event>, others: seq<Event>, limit: int)
    requires Sorted(recent, EventLe) && IsTop(recent, others, limit)
    ensures Sorted(Sort(others, EventLe) + recent, EventLe)
    ensures |recent| <= limit && (others != [] ==> |recent| == limit)
  {
    SortSorts(others, EventLe);
    var before := Sort(others, EventLe);
    forall i, event | 0 <= i < |before| && event in recent ensures EventLe(before[i], event) {
      assert before[i] in multiset(before);
    }
  }
}
