/** What the merged stream is: one arrangement of every selected event, and how far it is sorted. */
module EventLogMerge {
  import opened Sequences
  import opened StableSorting
  import opened EventSelection
  import opened EventLogFiles

  lemma FirstComesFirst(a: seq<Entry>, x: Entry)
    requires Arranged(a) && x in a
    ensures x == a[0] || ComesBefore(a[0], x)
  {
  }

  lemma SameFirst(a: seq<Entry>, b: seq<Entry>)
    requires Arranged(a) && Arranged(b) && multiset(a) == multiset(b) && a != []
    ensures b != [] && a[0] == b[0]
  {
    // Were the two first events different, each would come before the other.
    assert a[0] in multiset(b);
    FirstComesFirst(b, a[0]);
    assert b[0] in multiset(a);
    FirstComesFirst(a, b[0]);
  }

  lemma RestArranged(a: seq<Entry>)
    requires Arranged(a) && a != []
    ensures Arranged(a[1..])
  {
  }

  lemma SameRest(a: seq<Entry>, b: seq<Entry>)
    requires a != [] && b != [] && a[0] == b[0] && multiset(a) == multiset(b)
    ensures multiset(a[1..]) == multiset(b[1..])
  {
    assert a == [a[0]] + a[1..] && b == [b[0]] + b[1..];
    assert multiset(a[1..]) == multiset(a) - multiset{a[0]} == multiset(b[1..]);
  }

  /** What was read leaves one stream to yield. */
  lemma {:induction false} MergeIsDetermined(a: seq<Entry>, b: seq<Entry>)
    requires Arranged(a) && Arranged(b) && multiset(a) == multiset(b)
    ensures a == b
    decreases |a|
  {
    hide Arranged;
    if a == [] {
      assert b == [] by { assert |multiset(b)| == 0; }
    } else {
      SameFirst(a, b);
      RestArranged(a);
      RestArranged(b);
      SameRest(a, b);
      MergeIsDetermined(a[1..], b[1..]);
      assert a == [a[0]] + a[1..] && b == [b[0]] + b[1..];
    }
  }

  /** Of equal instants, the one read first is yielded first. */
  lemma EqualInstantsKeepReadOrder(read: seq<Entry>, merged: seq<Entry>, i: nat, j: nat)
    requires IsMerge(read, merged) && i < j < |merged| && merged[i].time == merged[j].time
    ensures merged[i].order < merged[j].order
  {
  }

  /** A later event is yielded ahead of an earlier one exactly when the earlier one's file was
      opened only after the later was settled; it is then stamped before its file's carry-over. */
  lemma DisorderIsLateStamps(read: seq<Entry>, days: seq<int>, merged: seq<Entry>, x: Entry, y: Entry)
    requires IsMerge(read, merged) && InReadOrder(read, days)
    requires x in merged && y in merged
    ensures Overtaken(x, y) <==>
      y.time < x.time && exists i, j :: 0 <= i < j < |merged| && merged[i] == x && merged[j] == y
    ensures Overtaken(x, y) ==> y.time < StartOf(y.day) - SPAN_CARRY_OVER
  {
    assert x in multiset(merged) && y in multiset(merged);
    assert x in read && y in read;
    var i :| 0 <= i < |merged| && merged[i] == x;
    var j :| 0 <= j < |merged| && merged[j] == y;
    assert j < i ==> ComesBefore(merged[j], merged[i]);
    assert Overtaken(x, y) ==> x.order < y.order;
    if y.time < x.time && exists a, b :: 0 <= a < b < |merged| && merged[a] == x && merged[b] == y {
      var a, b :| 0 <= a < b < |merged| && merged[a] == x && merged[b] == y;
      assert ComesBefore(merged[a], merged[b]);
    }
  }

  ghost predicate InKeyOrder(xs: seq<Entry>) {
    forall i, j :: 0 <= i < j < |xs| ==> KeyLess(xs[i], xs[j])
  }

  lemma {:induction false} InsertedInKeyOrder(xs: seq<Entry>, x: Entry)
    requires InKeyOrder(xs) && forall e :: e in xs ==> e.order < x.order
    ensures InKeyOrder(Insert(xs, x, InstantLe))
  {
    if xs != [] && !InstantLe(xs[|xs| - 1], x) {
      var front, last := xs[..|xs| - 1], xs[|xs| - 1];
      InsertedInKeyOrder(front, x);
      InsertElements(front, x, InstantLe);
      var placed := Insert(front, x, InstantLe);
      forall i | 0 <= i < |placed| ensures KeyLess(placed[i], last) {
        assert placed[i] in multiset(placed);
        if placed[i] != x {
          var k :| 0 <= k < |front| && front[k] == placed[i];
          assert KeyLess(xs[k], xs[|xs| - 1]);
        }
      }
    }
  }

  /** Sorting what was read by instant keeps the read order among equal instants. */
  lemma {:induction false} SortedInKeyOrder(read: seq<Entry>)
    requires forall i :: 0 <= i < |read| ==> read[i].order == i
    ensures InKeyOrder(Sort(read, InstantLe))
  {
    if read != [] {
      var front := read[..|read| - 1];
      SortedInKeyOrder(front);
      var sorted := Sort(front, InstantLe);
      forall e | e in sorted ensures e.order < read[|read| - 1].order {
        assert e in multiset(sorted);
        assert e in front;
      }
      InsertedInKeyOrder(sorted, read[|read| - 1]);
    }
  }

  lemma NoneOvertakenKeyOrder(read: seq<Entry>, sorted: seq<Entry>)
    requires forall x, y :: x in read && y in read ==> !Overtaken(x, y)
    requires InKeyOrder(sorted) && forall e :: e in sorted ==> e in read
    requires forall x, y :: x in read && y in read && x.order == y.order ==> x == y
    ensures Arranged(sorted)
  {
  }

  /** The stream is the stable sort by instant exactly when no event is overtaken. */
  lemma StreamIsStableSortIffNoneOvertaken(read: seq<Entry>, days: seq<int>, merged: seq<Entry>)
    requires IsMerge(read, merged) && InReadOrder(read, days)
    ensures merged == Sort(read, InstantLe) <==>
      forall x, y :: x in read && y in read ==> !Overtaken(x, y)
  {
    var sorted := Sort(read, InstantLe);
    SortedInKeyOrder(read);
    if forall x, y :: x in read && y in read ==> !Overtaken(x, y) {
      forall e | e in sorted ensures e in read {
        assert e in multiset(sorted);
      }
      NoneOvertakenKeyOrder(read, sorted);
      MergeIsDetermined(merged, sorted);
    }
    if merged == sorted {
      forall x, y | x in read && y in read ensures !Overtaken(x, y) {
        assert x in multiset(read) && y in multiset(read);
        assert x in merged && y in merged;
        DisorderIsLateStamps(read, days, merged, x, y);
      }
    }
  }

  ghost predicate NoneOvertaken(read: seq<Entry>) {
    forall x, y :: x in read && y in read ==> !Overtaken(x, y)
  }

  lemma InstantsStand(read: seq<Entry>, days: seq<int>, entries: seq<Entry>, i: nat)
    requires InReadOrder(read, days) && multiset(entries) == multiset(read) && i < |entries|
    ensures Payloads(entries)[i].time == entries[i].time
  {
    assert entries[i] in multiset(read);
  }

  ghost predicate InInstantOrder(events: seq<Event>) {
    forall i, j :: 0 <= i < j < |events| ==> events[i].time <= events[j].time
  }

  lemma OrderedPayloadsOvertakeNone(read: seq<Entry>, days: seq<int>, merged: seq<Entry>)
    requires IsMerge(read, merged) && InReadOrder(read, days) && InInstantOrder(Payloads(merged))
    ensures NoneOvertaken(read)
  {
    hide Arranged, Payloads;
    forall x, y | x in read && y in read ensures !Overtaken(x, y) {
      assert x in multiset(read) && y in multiset(read);
      DisorderIsLateStamps(read, days, merged, x, y);
      forall i, j | 0 <= i < j < |merged| && merged[i] == x && merged[j] == y ensures x.time <= y.time {
        InstantsStand(read, days, merged, i);
        InstantsStand(read, days, merged, j);
      }
    }
  }

  lemma SortedPayloadsAreInOrder(read: seq<Entry>, days: seq<int>)
    requires InReadOrder(read, days)
    ensures InInstantOrder(Payloads(Sort(read, InstantLe)))
  {
    hide Payloads, Sort;
    var sorted := Sort(read, InstantLe);
    SortSorts(read, InstantLe);
    forall i, j | 0 <= i < j < |sorted| ensures Payloads(sorted)[i].time <= Payloads(sorted)[j].time {
      InstantsStand(read, days, sorted, i);
      InstantsStand(read, days, sorted, j);
      assert InstantLe(sorted[i], sorted[j]);
    }
  }

  // -- Nothing is lost, and nothing is added ------------------------------------------------

  function CountIn(files: seq<LogFile>, selection: Selection, event: Event): nat {
    multiset(EventsOf(files, selection))[event]
  }

  lemma CountGains(files: seq<LogFile>, file: LogFile, selection: Selection, event: Event)
    ensures CountIn(files + [file], selection, event)
         == CountIn(files, selection, event) + multiset(SelectedOf(selection, file.lines))[event]
  {
  }

  lemma LastFile(files: seq<LogFile>, days: seq<int>, day: int)
    requires files != []
    ensures var front, last := files[..|files| - 1], files[|files| - 1];
      && InDays(files, days) == (if last.day in days then InDays(front, days) + [last] else InDays(front, days))
      && OfDay(files, day) == (if last.day == day then OfDay(front, day) + [last] else OfDay(front, day))
  {
  }

  lemma NoFiles(days: seq<int>, day: int)
    ensures InDays([], days) == [] && OfDay([], day) == []
  {
  }

  lemma {:induction false} OneMoreDayCounts(
    files: seq<LogFile>, selection: Selection, days: seq<int>, day: int, event: Event)
    requires day !in days
    ensures CountIn(InDays(files, days + [day]), selection, event)
         == CountIn(InDays(files, days), selection, event) + CountIn(OfDay(files, day), selection, event)
  {
    hide *;
    if files == [] {
      NoFiles(days, day);
      NoFiles(days + [day], day);
      NoneCounted(selection, event);
    } else {
      var front, last := files[..|files| - 1], files[|files| - 1];
      OneMoreDayCounts(front, selection, days, day, event);
      LastFile(files, days, day);
      LastFile(files, days + [day], day);
      assert last.day in days + [day] <==> last.day in days || last.day == day;
      CountGains(InDays(front, days + [day]), last, selection, event);
      CountGains(InDays(front, days), last, selection, event);
      CountGains(OfDay(front, day), last, selection, event);
    }
  }

  lemma NoneCounted(selection: Selection, event: Event)
    ensures CountIn([], selection, event) == 0
  {
  }

  lemma OneMoreDay(files: seq<LogFile>, selection: Selection, days: seq<int>, day: int)
    requires day !in days
    ensures multiset(EventsOf(InDays(files, days + [day]), selection))
         == multiset(EventsOf(InDays(files, days), selection)) + multiset(EventsOf(OfDay(files, day), selection))
  {
    hide InDays, OfDay, EventsOf;
    var all := multiset(EventsOf(InDays(files, days + [day]), selection));
    var before := multiset(EventsOf(InDays(files, days), selection));
    var added := multiset(EventsOf(OfDay(files, day), selection));
    forall event ensures all[event] == (before + added)[event] {
      OneMoreDayCounts(files, selection, days, day, event);
    }
  }

  lemma EventsOfOneMore(files: seq<LogFile>, file: LogFile, selection: Selection)
    ensures EventsOf(files + [file], selection) == EventsOf(files, selection) + SelectedOf(selection, file.lines)
  {
  }

  lemma {:induction false} EveryDay(files: seq<LogFile>, days: seq<int>)
    requires forall file :: file in files ==> file.day in days
    ensures InDays(files, days) == files
  {
    if files != [] {
      assert files[|files| - 1] in files;
      EveryDay(files[..|files| - 1], days);
    }
  }

  lemma {:induction false} NoDay(files: seq<LogFile>)
    ensures InDays(files, []) == []
  {
    if files != [] {
      NoDay(files[..|files| - 1]);
    }
  }

  lemma {:induction false} ReadHoldsDays(files: seq<LogFile>, selection: Selection, days: seq<int>, n: nat)
    requires n <= |days| && Ascending(days)
    ensures multiset(Payloads(ReadBy(files, selection, days, n)))
         == multiset(EventsOf(InDays(files, days[..n]), selection))
  {
    hide InDays, OfDay, Stamped;
    if n == 0 {
      NoDay(files);
      assert days[..0] == [];
    } else {
      hide EventsOf, Payloads, ReadBy, Ascending;
      assert days[..n] == days[..n - 1] + [days[n - 1]];
      ReadHoldsDays(files, selection, days, n - 1);
      ReadGains(files, selection, days, n);
      OneMoreDay(files, selection, days[..n - 1], days[n - 1]);
    }
  }

  lemma ReadGains(files: seq<LogFile>, selection: Selection, days: seq<int>, n: nat)
    requires 0 < n <= |days|
    ensures multiset(Payloads(ReadBy(files, selection, days, n)))
         == multiset(Payloads(ReadBy(files, selection, days, n - 1)))
          + multiset(EventsOf(OfDay(files, days[n - 1]), selection))
  {
    StampedPayloadsAfter(ReadBy(files, selection, days, n - 1),
                         EventsOf(OfDay(files, days[n - 1]), selection), days[n - 1]);
  }

  lemma StampedPayloadsAfter(before: seq<Entry>, events: seq<Event>, day: int)
    ensures Payloads(before + Stamped(events, day, |before|)) == Payloads(before) + events
  {
  }

  function Without(xs: seq<Entry>, k: nat): seq<Entry>
    requires k < |xs|
  {
    xs[..k] + xs[k + 1..]
  }

  lemma RemovedAt(xs: seq<Entry>, k: nat)
    requires k < |xs|
    ensures |Without(xs, k)| == |xs| - 1
    ensures multiset(Without(xs, k)) == multiset(xs) - multiset{xs[k]}
    ensures multiset(Payloads(xs)) == multiset(Payloads(Without(xs, k))) + multiset{xs[k].event}
  {
    assert xs == xs[..k] + [xs[k]] + xs[k + 1..];
    PayloadsConcat(xs[..k] + [xs[k]], xs[k + 1..]);
    PayloadsConcat(xs[..k], [xs[k]]);
    PayloadsConcat(xs[..k], xs[k + 1..]);
    assert Payloads([xs[k]]) == [xs[k].event];
  }

  lemma {:induction false} PayloadsOfPermutation(xs: seq<Entry>, ys: seq<Entry>)
    requires multiset(xs) == multiset(ys)
    ensures multiset(Payloads(xs)) == multiset(Payloads(ys))
    decreases |xs|
  {
    hide *;
    if xs == [] {
      assert ys == [] by { assert |multiset(ys)| == 0; }
    } else {
      var k := IndexIn(xs[0], xs, ys);
      RemovedAt(xs, 0);
      RemovedAt(ys, k);
      PayloadsOfPermutation(Without(xs, 0), Without(ys, k));
    }
  }

  /** The stream is a permutation of the selected events of the files it opens. */
  lemma StreamIsEveryEventOpened(files: seq<LogFile>, selection: Selection, days: seq<int>, merged: seq<Entry>)
    requires DaysOf(files, days) && IsMerge(ReadBy(files, selection, days, |days|), merged)
    ensures multiset(Payloads(merged)) == multiset(EventsOf(files, selection))
  {
    ReadHoldsDays(files, selection, days, |days|);
    assert days[..|days|] == days;
    EveryDay(files, days);
    PayloadsOfPermutation(ReadBy(files, selection, days, |days|), merged);
  }

  /** A span is stamped when it started, so a file holds no event from after its own day. */
  ghost predicate NoneAfterOwnDay(files: seq<LogFile>, selection: Selection) {
    forall file, event :: file in files && event in SelectedOf(selection, file.lines)
      ==> event.time < StartOf(file.day + 1)
  }

  /** Files from before the selection's first day are skipped at no loss. */
  lemma {:induction false} SkippedFilesHoldNothing(files: seq<LogFile>, selection: Selection)
    requires NoneAfterOwnDay(files, selection)
    ensures EventsOf(files, selection) == EventsOf(WantedOf(selection, files), selection)
  {
    if files != [] {
      var front, last := files[..|files| - 1], files[|files| - 1];
      assert last in files && forall file :: file in front ==> file in files;
      SkippedFilesHoldNothing(front, selection);
      if Wanted(selection, last) {
        EventsOfOneMore(WantedOf(selection, front), last, selection);
      } else {
        SelectedAreAdmitted(selection, last.lines);
        var since := selection.since.value;
        DayHoldsInstant(since);
        assert last.day + 1 <= DayOf(since);
        assert forall event :: event in SelectedOf(selection, last.lines) ==> event.time < since;
        FirstIsMember(SelectedOf(selection, last.lines));
      }
    }
  }

  lemma FirstIsMember(events: seq<Event>)
    ensures events == [] || events[0] in events
  {
  }

  lemma DayHoldsInstant(instant: int)
    ensures StartOf(DayOf(instant)) <= instant < StartOf(DayOf(instant) + 1)
  {
  }

  /** The whole promise: every selected event of every file, once. */
  lemma StreamIsEverySelectedEvent(directories: seq<seq<LogFile>>, selection: Selection, events: seq<Event>)
    requires IsStream(directories, selection, events) && NoneAfterOwnDay(Flattened(directories), selection)
    ensures multiset(events) == multiset(EventsOf(Flattened(directories), selection))
  {
    hide DaysOf, IsMerge, WantedOf, Flattened, EventsOf, ReadBy, Payloads, NoneAfterOwnDay;
    var days, merged :| Streams(directories, selection, days, merged) && events == Payloads(merged);
    StreamIsEveryEventOpened(WantedOf(selection, Flattened(directories)), selection, days, merged);
    SkippedFilesHoldNothing(Flattened(directories), selection);
  }

  lemma {:induction false} SameDays(days: seq<int>, others: seq<int>)
    requires Ascending(days) && Ascending(others) && forall day :: day in days <==> day in others
    ensures days == others
  {
    if days == [] || others == [] {
      NoDayOf(days, others);
      NoDayOf(others, days);
    } else {
      var n, m := |days| - 1, |others| - 1;
      SameLastDay(days, others);
      assert days == days[..n] + [days[n]] && others == others[..m] + [others[m]];
      forall day ensures day in days[..n] <==> day in others[..m] {
        assert day in days[..n] <==> day in days && day != days[n];
        assert day in others[..m] <==> day in others && day != others[m];
      }
      SameDays(days[..n], others[..m]);
    }
  }

  lemma NoDayOf(days: seq<int>, others: seq<int>)
    requires forall day :: day in days <==> day in others
    ensures days != [] ==> others != []
  {
    if days != [] {
      var day := days[0];
      assert day in days;
      assert day in others;
      var i :| 0 <= i < |others| && others[i] == day;
    }
  }

  lemma SameLastDay(days: seq<int>, others: seq<int>)
    requires Ascending(days) && Ascending(others) && forall day :: day in days <==> day in others
    requires days != [] && others != []
    ensures days[|days| - 1] == others[|others| - 1]
  {
    var last, other := days[|days| - 1], others[|others| - 1];
    assert last in others && other in days;
    var i :| 0 <= i < |others| && others[i] == last;
    var j :| 0 <= j < |days| && days[j] == other;
  }

  /** The files and the selection leave one stream. */
  lemma StreamIsDetermined(
    directories: seq<seq<LogFile>>, selection: Selection, events: seq<Event>, others: seq<Event>)
    requires IsStream(directories, selection, events) && IsStream(directories, selection, others)
    ensures events == others
  {
    hide IsMerge, WantedOf, Flattened, ReadBy, Payloads, Arranged;
    var days, merged :| Streams(directories, selection, days, merged) && events == Payloads(merged);
    var days', merged' :| Streams(directories, selection, days', merged') && others == Payloads(merged');
    SameDays(days, days');
    OneMerge(ReadBy(WantedOf(selection, Flattened(directories)), selection, days, |days|), merged, merged');
  }

  lemma OneMerge(read: seq<Entry>, merged: seq<Entry>, others: seq<Entry>)
    requires IsMerge(read, merged) && IsMerge(read, others)
    ensures merged == others
  {
    MergeIsDetermined(merged, others);
  }

  /** What `ReadEventLogs` streams is in order of instants exactly when nothing it reads is overtaken,
      and exactly then it is the stable sort of what it reads. */
  lemma StreamIsSortedIffNoneOvertaken(
    directories: seq<seq<LogFile>>, selection: Selection, days: seq<int>, events: seq<Event>)
    requires IsStream(directories, selection, events)
    requires DaysOf(WantedOf(selection, Flattened(directories)), days)
    ensures var read := ReadBy(WantedOf(selection, Flattened(directories)), selection, days, |days|);
      && (InInstantOrder(events) <==> NoneOvertaken(read))
      && (events == Payloads(Sort(read, InstantLe)) <==> NoneOvertaken(read))
  {
    hide WantedOf, Flattened, ReadBy, Payloads, Arranged, Sort, InReadOrder, Overtaken, InInstantOrder;
    var files := WantedOf(selection, Flattened(directories));
    var found, merged :| Streams(directories, selection, found, merged) && events == Payloads(merged);
    SameDays(found, days);
    var read := ReadBy(files, selection, days, |days|);
    ReadInOrder(files, selection, days, |days|);
    assert days[..|days|] == days;
    SortedPayloadsAreInOrder(read, days);
    StreamIsStableSortIffNoneOvertaken(read, days, merged);
    if InInstantOrder(events) {
      OrderedPayloadsOvertakeNone(read, days, merged);
    }
  }
}
