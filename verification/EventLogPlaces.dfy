/** Where each event of the stream stands in the files, and the order of the stream told by that alone. */
module EventLogPlaces {
  import opened Wrappers
  import opened EventSelection
  import opened EventLogFiles

  /** A line of a file: the file's day, its directory among those given, and its place in both. */
  datatype Place = Place(day: int, directory: nat, file: nat, line: nat)

  /** Earlier by day, then by directory, file and line. */
  predicate Before(p: Place, q: Place) {
    || p.day < q.day
    || (p.day == q.day && p.directory < q.directory)
    || (p.day == q.day && p.directory == q.directory && p.file < q.file)
    || (p.day == q.day && p.directory == q.directory && p.file == q.file && p.line < q.line)
  }

  /** The microseconds of a day. */
  const DAY_LENGTH: int := 24 * 60 * 60 * 1_000_000

  /** The line at this place holds this event, and the selection asks for both the file and the event. */
  ghost predicate HasEvent(directories: seq<seq<LogFile>>, selection: Selection, p: Place, event: Event) {
    && p.directory < |directories| && p.file < |directories[p.directory]|
    && var file := directories[p.directory][p.file];
      && file.day == p.day && (selection.since.Some? ==> selection.since.value < (p.day + 1) * DAY_LENGTH)
      && p.line < |file.lines| && Keeps(selection, file.lines[p.line], event)
  }

  /** The second event's file was opened only after the first, though later, had been let go. */
  predicate LetGo(x: Event, p: Place, y: Event, q: Place) {
    p.day < q.day && y.time < x.time < (q.day - 2) * DAY_LENGTH
  }

  /** Whether `x`, from `p`, is streamed ahead of `y`, from `q`. */
  predicate Ahead(x: Event, p: Place, y: Event, q: Place) {
    if Before(p, q) then x.time <= y.time || LetGo(x, p, y, q)
    else Before(q, p) && x.time < y.time && !LetGo(y, q, x, p)
  }

  ghost predicate EachAhead(events: seq<Event>, places: seq<Place>)
    requires |places| == |events|
  {
    forall i, j :: 0 <= i < j < |places| ==> Ahead(events[i], places[i], events[j], places[j])
  }

  /** Each of `events` stands at its place, each is ahead of the next, and none is missing. */
  ghost predicate IsPlaced(directories: seq<seq<LogFile>>, selection: Selection, events: seq<Event>, places: seq<Place>)
  {
    && |places| == |events|
    && (forall i :: 0 <= i < |places| ==> HasEvent(directories, selection, places[i], events[i]))
    && EachAhead(events, places)
    && (forall p, event :: HasEvent(directories, selection, p, event) ==> p in places)
  }

  // -- The files in the order they are given -----------------------------------------------------

  type FilePlace = (nat, nat)

  predicate FileBefore(p: FilePlace, q: FilePlace) { p.0 < q.0 || (p.0 == q.0 && p.1 < q.1) }

  predicate IsFile(directories: seq<seq<LogFile>>, p: FilePlace) {
    p.0 < |directories| && p.1 < |directories[p.0]|
  }

  function InDirectory(directory: nat, n: nat): (places: seq<FilePlace>)
    ensures |places| == n && forall i :: 0 <= i < n ==> places[i] == (directory, i)
  {
    seq(n, i => (directory, i))
  }

  function FilePlaces(directories: seq<seq<LogFile>>): seq<FilePlace> {
    if directories == [] then []
    else
      var n := |directories| - 1;
      FilePlaces(directories[..n]) + InDirectory(n, |directories[n]|)
  }

  /** `files` stand at `at`, in order. */
  ghost predicate FilesAt(directories: seq<seq<LogFile>>, files: seq<LogFile>, at: seq<FilePlace>) {
    && |at| == |files|
    && (forall k :: 0 <= k < |at| ==> IsFile(directories, at[k]) && directories[at[k].0][at[k].1] == files[k])
    && (forall j, k :: 0 <= j < k < |at| ==> FileBefore(at[j], at[k]))
  }

  lemma {:induction false} FlattenedInOrder(directories: seq<seq<LogFile>>)
    ensures FilesAt(directories, Flattened(directories), FilePlaces(directories))
    ensures forall p :: IsFile(directories, p) <==> p in FilePlaces(directories)
  {
    if directories != [] {
      var n := |directories| - 1;
      FlattenedInOrder(directories[..n]);
      var before, at := FilePlaces(directories[..n]), FilePlaces(directories);
      forall k | 0 <= k < |before| ensures at[k] == before[k] && IsFile(directories, at[k]) && at[k].0 < n {
        assert IsFile(directories[..n], before[k]);
      }
      forall p ensures IsFile(directories, p) <==> p in at {
        if IsFile(directories, p) && p.0 == n {
          assert at[|before| + p.1] == p;
        } else if IsFile(directories, p) {
          assert IsFile(directories[..n], p);
        }
      }
    }
  }

  // -- One file, and one day ---------------------------------------------------------------------

  function LinePlaces(day: int, file: FilePlace, lines: seq<nat>): (places: seq<Place>)
    ensures |places| == |lines|
    ensures forall k :: 0 <= k < |lines| ==> places[k] == Place(day, file.0, file.1, lines[k])
  {
    seq(|lines|, k requires 0 <= k < |lines| => Place(day, file.0, file.1, lines[k]))
  }

  function DayPlaces(files: seq<LogFile>, at: seq<FilePlace>, selection: Selection, day: int): seq<Place>
    requires |at| == |files|
  {
    if files == [] then []
    else
      var n := |files| - 1;
      var before := DayPlaces(files[..n], at[..n], selection, day);
      if files[n].day == day && Wanted(selection, files[n])
      then before + LinePlaces(day, at[n], KeptAt(selection, files[n].lines))
      else before
  }

  ghost predicate Ascending(places: seq<Place>) {
    forall j, k :: 0 <= j < k < |places| ==> Before(places[j], places[k])
  }

  lemma AscendingJoin(places: seq<Place>, after: seq<Place>)
    requires Ascending(places) && Ascending(after)
    requires forall p, q :: p in places && q in after ==> Before(p, q)
    ensures Ascending(places + after)
  {
    hide Before;
  }

  /** Every event of one day's files among those at `at` has its place, in order. */
  ghost predicate DayPlaced(
    directories: seq<seq<LogFile>>, selection: Selection, day: int, at: seq<FilePlace>, events: seq<Event>,
    places: seq<Place>)
  {
    && |places| == |events|
    && (forall k :: 0 <= k < |places| ==>
        HasEvent(directories, selection, places[k], events[k]) && places[k].day == day &&
        (places[k].directory, places[k].file) in at)
    && Ascending(places)
    && (forall p, event :: HasEvent(directories, selection, p, event) && p.day == day && (p.directory, p.file) in at ==>
        p in places)
  }

  lemma FileIsPlaced(
    directories: seq<seq<LogFile>>, selection: Selection, file: FilePlace, events: seq<Event>, lines: seq<nat>)
    requires IsFile(directories, file) && Wanted(selection, directories[file.0][file.1])
    requires InLineOrder(selection, directories[file.0][file.1].lines, events, lines)
    ensures var day := directories[file.0][file.1].day;
      DayPlaced(directories, selection, day, [file], events, LinePlaces(day, file, lines))
  {
    hide Keeps;
    var day := directories[file.0][file.1].day;
    var places := LinePlaces(day, file, lines);
    forall k | 0 <= k < |places| ensures (places[k].directory, places[k].file) in [file] {
      assert [file][0] == file;
    }
    forall p, event | HasEvent(directories, selection, p, event) && p.day == day && (p.directory, p.file) in [file]
      ensures p in places
    {
      var k :| 0 <= k < |lines| && lines[k] == p.line;
      assert places[k] == p;
    }
  }

  lemma LaterFileIsAfter(p: Place, q: Place)
    ensures p.day == q.day && FileBefore((p.directory, p.file), (q.directory, q.file)) ==> Before(p, q)
  {
  }

  lemma LaterFilePlaced(
    directories: seq<seq<LogFile>>, selection: Selection, day: int, at: seq<FilePlace>, file: FilePlace,
    events: seq<Event>, places: seq<Place>, more: seq<Event>, after: seq<Place>)
    requires DayPlaced(directories, selection, day, at, events, places)
    requires DayPlaced(directories, selection, day, [file], more, after)
    requires forall p :: p in at ==> FileBefore(p, file)
    ensures DayPlaced(directories, selection, day, at + [file], events + more, places + after)
  {
    hide HasEvent, Ascending, Before;
    var all := places + after;
    forall p, q | p in places && q in after ensures Before(p, q) {
      assert (q.directory, q.file) in [file];
      LaterFileIsAfter(p, q);
    }
    AscendingJoin(places, after);
    forall p, event
      | HasEvent(directories, selection, p, event) && p.day == day && (p.directory, p.file) in at + [file]
      ensures p in all
    {
      assert (p.directory, p.file) in at || (p.directory, p.file) in [file];
    }
  }

  lemma NoneOfTheFile(
    directories: seq<seq<LogFile>>, selection: Selection, day: int, at: seq<FilePlace>, file: FilePlace,
    events: seq<Event>, places: seq<Place>)
    requires DayPlaced(directories, selection, day, at, events, places) && IsFile(directories, file)
    requires directories[file.0][file.1].day != day || !Wanted(selection, directories[file.0][file.1])
    ensures DayPlaced(directories, selection, day, at + [file], events, places)
  {
    hide Keeps;
  }

  lemma LastOfDay(files: seq<LogFile>, selection: Selection, day: int)
    requires files != []
    ensures var front, last := files[..|files| - 1], files[|files| - 1];
      EventsOf(OfDay(WantedOf(selection, files), day), selection) ==
        EventsOf(OfDay(WantedOf(selection, front), day), selection) +
        if last.day == day && Wanted(selection, last) then SelectedOf(selection, last.lines) else []
  {
    var front, last := files[..|files| - 1], files[|files| - 1];
    if Wanted(selection, last) {
      var wanted := WantedOf(selection, front);
      assert (wanted + [last])[..|wanted|] == wanted;
      var those := OfDay(wanted, day);
      assert (those + [last])[..|those|] == those;
    }
  }

  lemma {:induction false} DayInOrder(
    directories: seq<seq<LogFile>>, files: seq<LogFile>, at: seq<FilePlace>, selection: Selection, day: int)
    requires FilesAt(directories, files, at)
    ensures DayPlaced(directories, selection, day, at, EventsOf(OfDay(WantedOf(selection, files), day), selection),
                      DayPlaces(files, at, selection, day))
  {
    hide EventsOf, OfDay, WantedOf, DayPlaced, HasEvent, Wanted, LinePlaces;
    if files == [] {
      NothingPlaced(directories, selection, day);
    } else {
      var n := |files| - 1;
      var events := EventsOf(OfDay(WantedOf(selection, files[..n]), day), selection);
      var places := DayPlaces(files[..n], at[..n], selection, day);
      DayInOrder(directories, files[..n], at[..n], selection, day);
      LastOfDay(files, selection, day);
      assert at == at[..n] + [at[n]];
      if files[n].day == day && Wanted(selection, files[n]) {
        SelectedInLineOrder(selection, files[n].lines);
        FileIsPlaced(directories, selection, at[n], SelectedOf(selection, files[n].lines),
                     KeptAt(selection, files[n].lines));
        LaterFilePlaced(directories, selection, day, at[..n], at[n], events, places,
                        SelectedOf(selection, files[n].lines), LinePlaces(day, at[n], KeptAt(selection, files[n].lines)));
      } else {
        NoneOfTheFile(directories, selection, day, at[..n], at[n], events, places);
        assert events + [] == events;
      }
    }
  }

  lemma NothingPlaced(directories: seq<seq<LogFile>>, selection: Selection, day: int)
    ensures DayPlaced(directories, selection, day, [], EventsOf(OfDay(WantedOf(selection, []), day), selection),
                      DayPlaces([], [], selection, day))
  {
  }

  // -- Everything read ---------------------------------------------------------------------------

  ghost predicate EntryAt(directories: seq<seq<LogFile>>, selection: Selection, days: seq<int>, p: Place, entry: Entry) {
    HasEvent(directories, selection, p, entry.event) && p.day == entry.day && p.day in days
  }

  ghost predicate EntriesAt(
    directories: seq<seq<LogFile>>, selection: Selection, days: seq<int>, read: seq<Entry>, places: seq<Place>)
  {
    |places| == |read| && forall k :: 0 <= k < |places| ==> EntryAt(directories, selection, days, places[k], read[k])
  }

  ghost predicate CoversDays(directories: seq<seq<LogFile>>, selection: Selection, days: seq<int>, places: seq<Place>) {
    forall p, event :: HasEvent(directories, selection, p, event) && p.day in days ==> p in places
  }

  /** Everything read of these days has its place, in order of day, directory, file and line. */
  ghost predicate ReadPlaced(
    directories: seq<seq<LogFile>>, selection: Selection, days: seq<int>, read: seq<Entry>, places: seq<Place>)
  {
    && EntriesAt(directories, selection, days, read, places)
    && Ascending(places)
    && CoversDays(directories, selection, days, places)
  }

  function ReadPlaces(directories: seq<seq<LogFile>>, selection: Selection, days: seq<int>, n: nat): seq<Place>
    requires n <= |days| && |FilePlaces(directories)| == |Flattened(directories)|
  {
    if n == 0 then []
    else
      ReadPlaces(directories, selection, days, n - 1) +
      DayPlaces(Flattened(directories), FilePlaces(directories), selection, days[n - 1])
  }

  lemma LaterDayPlaced(
    directories: seq<seq<LogFile>>, selection: Selection, days: seq<int>, day: int, at: seq<FilePlace>,
    read: seq<Entry>, places: seq<Place>, events: seq<Event>, after: seq<Place>)
    requires ReadPlaced(directories, selection, days, read, places)
    requires DayPlaced(directories, selection, day, at, events, after)
    requires forall earlier :: earlier in days ==> earlier < day
    requires forall p :: IsFile(directories, p) ==> p in at
    ensures ReadPlaced(directories, selection, days + [day], read + Stamped(events, day, |read|), places + after)
  {
    hide HasEvent, Ascending, Before;
    forall p, q | p in places && q in after ensures Before(p, q) {
      LaterDayIsAfter(p, q);
    }
    AscendingJoin(places, after);
    LaterEntries(directories, selection, days, day, at, read, places, events, after);
    LaterCovers(directories, selection, days, day, at, places, events, after);
  }

  lemma LaterEntries(
    directories: seq<seq<LogFile>>, selection: Selection, days: seq<int>, day: int, at: seq<FilePlace>,
    read: seq<Entry>, places: seq<Place>, events: seq<Event>, after: seq<Place>)
    requires EntriesAt(directories, selection, days, read, places)
    requires DayPlaced(directories, selection, day, at, events, after)
    ensures EntriesAt(directories, selection, days + [day], read + Stamped(events, day, |read|), places + after)
  {
    hide HasEvent, Ascending, Stamped;
    var days' := days + [day];
    assert days'[|days|] == day && forall each :: each in days ==> each in days';
  }

  lemma LaterCovers(
    directories: seq<seq<LogFile>>, selection: Selection, days: seq<int>, day: int, at: seq<FilePlace>,
    places: seq<Place>, events: seq<Event>, after: seq<Place>)
    requires CoversDays(directories, selection, days, places)
    requires DayPlaced(directories, selection, day, at, events, after)
    requires forall p :: IsFile(directories, p) ==> p in at
    ensures CoversDays(directories, selection, days + [day], places + after)
  {
    hide HasEvent, Ascending;
    var all, days' := places + after, days + [day];
    forall p, event | HasEvent(directories, selection, p, event) && p.day in days' ensures p in all {
      EventIsInFile(directories, selection, p, event);
      assert p.day in days || p.day == day;
    }
  }

  lemma LaterDayIsAfter(p: Place, q: Place)
    ensures p.day < q.day ==> Before(p, q)
  {
  }

  lemma EventIsInFile(directories: seq<seq<LogFile>>, selection: Selection, p: Place, event: Event)
    ensures HasEvent(directories, selection, p, event) ==> IsFile(directories, (p.directory, p.file))
  {
  }

  lemma {:induction false} ReadInPlaces(
    directories: seq<seq<LogFile>>, selection: Selection, days: seq<int>, n: nat)
    requires n <= |days| && EventLogFiles.Ascending(days)
    requires |FilePlaces(directories)| == |Flattened(directories)|
    ensures ReadPlaced(directories, selection, days[..n],
                       ReadBy(WantedOf(selection, Flattened(directories)), selection, days, n),
                       ReadPlaces(directories, selection, days, n))
  {
    hide ReadPlaced, DayPlaced, EventsOf, OfDay, WantedOf, Flattened, FilePlaces, DayPlaces, HasEvent, Stamped;
    if n == 0 {
      NothingReadIsPlaced(directories, selection);
      assert days[..0] == [];
    } else {
      var files := WantedOf(selection, Flattened(directories));
      ReadInPlaces(directories, selection, days, n - 1);
      FlattenedInOrder(directories);
      DayInOrder(directories, Flattened(directories), FilePlaces(directories), selection, days[n - 1]);
      LaterDayPlaced(directories, selection, days[..n - 1], days[n - 1], FilePlaces(directories),
                     ReadBy(files, selection, days, n - 1), ReadPlaces(directories, selection, days, n - 1),
                     EventsOf(OfDay(files, days[n - 1]), selection),
                     DayPlaces(Flattened(directories), FilePlaces(directories), selection, days[n - 1]));
      assert days[..n] == days[..n - 1] + [days[n - 1]];
    }
  }

  lemma NothingReadIsPlaced(directories: seq<seq<LogFile>>, selection: Selection)
    ensures ReadPlaced(directories, selection, [], [], [])
  {
  }

  // -- The stream --------------------------------------------------------------------------------

  lemma {:induction false} WantedFilesStay(files: seq<LogFile>, selection: Selection, file: LogFile)
    requires file in files && Wanted(selection, file)
    ensures file in WantedOf(selection, files)
  {
    var n := |files| - 1;
    if file == files[n] {
      assert WantedOf(selection, files)[|WantedOf(selection, files)| - 1] == file;
    } else {
      assert files == files[..n] + [files[n]];
      WantedFilesStay(files[..n], selection, file);
    }
  }

  /** Whatever stands anywhere the selection asks for is of one of the days read. */
  lemma EveryPlaceIsRead(directories: seq<seq<LogFile>>, selection: Selection, days: seq<int>, p: Place, event: Event)
    requires DaysOf(WantedOf(selection, Flattened(directories)), days)
    requires HasEvent(directories, selection, p, event)
    ensures p.day in days
  {
    hide WantedOf, Flattened, FilePlaces, Keeps;
    FlattenedInOrder(directories);
    var at := FilePlaces(directories);
    assert IsFile(directories, (p.directory, p.file));
    var k :| 0 <= k < |at| && at[k] == (p.directory, p.file);
    var file := directories[p.directory][p.file];
    assert Flattened(directories)[k] == file;
    WantedFilesStay(Flattened(directories), selection, file);
  }

  function Following(places: seq<Place>, merged: seq<Entry>): (streamed: seq<Place>)
    requires forall e :: e in merged ==> e.order < |places|
    ensures |streamed| == |merged| && forall i :: 0 <= i < |merged| ==> streamed[i] == places[merged[i].order]
  {
    seq(|merged|, i requires 0 <= i < |merged| => places[merged[i].order])
  }

  lemma OrdersAreIndexes(read: seq<Entry>, days: seq<int>, merged: seq<Entry>)
    requires InReadOrder(read, days) && IsMerge(read, merged)
    ensures forall e :: e in merged ==> e.order < |read| && read[e.order] == e
  {
    hide Arranged;
    forall e | e in merged ensures e.order < |read| && read[e.order] == e {
      assert e in multiset(read);
    }
  }

  lemma MergedIsPlaced(
    directories: seq<seq<LogFile>>, selection: Selection, days: seq<int>, read: seq<Entry>, merged: seq<Entry>,
    places: seq<Place>)
    requires ReadPlaced(directories, selection, days, read, places)
    requires InReadOrder(read, days) && IsMerge(read, merged)
    requires forall p, event :: HasEvent(directories, selection, p, event) ==> p.day in days
    ensures exists streamed :: IsPlaced(directories, selection, Payloads(merged), streamed)
  {
    hide HasEvent, Arranged, Ahead, Before;
    OrdersAreIndexes(read, days, merged);
    var streamed := Following(places, merged);
    assert EachAhead(Payloads(merged), streamed) by {
      forall i, j | 0 <= i < j < |merged|
        ensures Ahead(merged[i].event, streamed[i], merged[j].event, streamed[j])
      {
        InOrderOfPlaces(directories, selection, days, read, merged, places, i, j);
      }
    }
    hide EachAhead, Ascending, InReadOrder;
    forall p, event | HasEvent(directories, selection, p, event) ensures p in streamed {
      PlaceIsStreamed(read, merged, places, p);
    }
    assert forall e :: e in merged ==> e.order < |read| && HasEvent(directories, selection, places[e.order], e.event);
    assert IsPlaced(directories, selection, Payloads(merged), streamed);
  }

  lemma PlaceIsStreamed(read: seq<Entry>, merged: seq<Entry>, places: seq<Place>, p: Place)
    requires |places| == |read| && multiset(merged) == multiset(read) && p in places
    requires forall k :: 0 <= k < |read| ==> read[k].order == k
    ensures exists j :: 0 <= j < |merged| && merged[j].order < |places| && places[merged[j].order] == p
  {
    var k :| 0 <= k < |places| && places[k] == p;
    assert read[k] in multiset(merged);
  }

  lemma InOrderOfPlaces(
    directories: seq<seq<LogFile>>, selection: Selection, days: seq<int>, read: seq<Entry>, merged: seq<Entry>,
    places: seq<Place>, i: nat, j: nat)
    requires ReadPlaced(directories, selection, days, read, places)
    requires InReadOrder(read, days) && Arranged(merged) && i < j < |merged|
    requires forall e :: e in merged ==> e.order < |read| && read[e.order] == e
    ensures var x, y := merged[i], merged[j]; Ahead(x.event, places[x.order], y.event, places[y.order])
  {
    hide HasEvent;
    var x, y := merged[i], merged[j];
    assert x in merged && y in merged;
    assert ComesBefore(x, y);
  }

  /** What is streamed, told by where each event stands in the files alone: every event of a file not
      before the first day that the selection admits, once; of two, whichever is earlier, and of one
      instant whichever stands first by day, directory, file and line, except that a file whose day
      starts more than the carry-over later than an event finds it already let go. */
  lemma StreamIsPlaced(directories: seq<seq<LogFile>>, selection: Selection, events: seq<Event>)
    requires IsStream(directories, selection, events)
    ensures exists places :: IsPlaced(directories, selection, events, places)
  {
    hide WantedOf, Flattened, FilePlaces, ReadBy, Payloads, IsMerge, InReadOrder;
    hide ReadPlaced, HasEvent, ReadPlaces, IsPlaced;
    var days, merged :| Streams(directories, selection, days, merged) && events == Payloads(merged);
    var read := ReadBy(WantedOf(selection, Flattened(directories)), selection, days, |days|);
    FlattenedInOrder(directories);
    ReadInPlaces(directories, selection, days, |days|);
    ReadInOrder(WantedOf(selection, Flattened(directories)), selection, days, |days|);
    assert days[..|days|] == days;
    forall p, event | HasEvent(directories, selection, p, event) ensures p.day in days {
      EveryPlaceIsRead(directories, selection, days, p, event);
    }
    MergedIsPlaced(directories, selection, days, read, merged, ReadPlaces(directories, selection, days, |days|));
  }

  /** Of one instant the stream keeps the order of days, directories, files and lines. */
  lemma EqualInstantsKeepPlaces(
    directories: seq<seq<LogFile>>, selection: Selection, events: seq<Event>, places: seq<Place>, i: nat, j: nat)
    requires IsPlaced(directories, selection, events, places) && i < j < |events| && events[i].time == events[j].time
    ensures Before(places[i], places[j])
  {
  }

  lemma AheadIsOneWay(x: Event, p: Place, y: Event, q: Place)
    ensures !(Ahead(x, p, y, q) && Ahead(y, q, x, p))
  {
  }

  lemma OneEventAtAPlace(directories: seq<seq<LogFile>>, selection: Selection, p: Place, event: Event, other: Event)
    requires HasEvent(directories, selection, p, event) && HasEvent(directories, selection, p, other)
    ensures event == other
  {
    var fields := directories[p.directory][p.file].lines[p.line].fields;
    EventIsValidated(fields, event);
    EventIsValidated(fields, other);
  }

  lemma PlacesDiffer(
    directories: seq<seq<LogFile>>, selection: Selection, events: seq<Event>, places: seq<Place>, i: nat, j: nat)
    requires IsPlaced(directories, selection, events, places) && i < j < |places|
    ensures places[i] != places[j]
  {
    hide HasEvent, Ahead;
    if places[i] == places[j] {
      OneEventAtAPlace(directories, selection, places[i], events[i], events[j]);
    }
    AheadIsOneWay(events[i], places[i], events[j], places[j]);
  }

  ghost predicate SameUpTo(places: seq<Place>, places': seq<Place>, n: nat) {
    n <= |places| && n <= |places'| && forall k :: 0 <= k < n ==> places[k] == places'[k]
  }

  lemma FoundFrom(
    directories: seq<seq<LogFile>>, selection: Selection, events: seq<Event>, places: seq<Place>,
    events': seq<Event>, places': seq<Place>, k: nat) returns (j: nat)
    requires IsPlaced(directories, selection, events, places) && IsPlaced(directories, selection, events', places')
    requires SameUpTo(places, places', k) && k < |places|
    ensures k <= j < |places'| && places'[j] == places[k] && events'[j] == events[k]
  {
    hide HasEvent, EachAhead;
    assert HasEvent(directories, selection, places[k], events[k]);
    j :| 0 <= j < |places'| && places'[j] == places[k];
    OneEventAtAPlace(directories, selection, places[k], events[k], events'[j]);
    if j < k { PlacesDiffer(directories, selection, events, places, j, k); }
  }

  lemma AheadAt(events: seq<Event>, places: seq<Place>, i: nat, j: nat)
    requires |places| == |events| && EachAhead(events, places) && i <= j < |places|
    ensures i < j ==> Ahead(events[i], places[i], events[j], places[j])
  {
  }

  lemma {:induction false} SamePlacesSoFar(
    directories: seq<seq<LogFile>>, selection: Selection, events: seq<Event>, places: seq<Place>,
    events': seq<Event>, places': seq<Place>, n: nat)
    requires IsPlaced(directories, selection, events, places) && IsPlaced(directories, selection, events', places')
    requires n <= |places|
    ensures SameUpTo(places, places', n)
  {
    if n > 0 {
      SamePlacesSoFar(directories, selection, events, places, events', places', n - 1);
      var j := FoundFrom(directories, selection, events, places, events', places', n - 1);
      var i := FoundFrom(directories, selection, events', places', events, places, n - 1);
      AheadAt(events', places', n - 1, j);
      AheadAt(events, places, n - 1, i);
      hide *;
      AheadIsOneWay(events[n - 1], places[n - 1], events'[n - 1], places'[n - 1]);
      SameOneMore(places, places', n);
    }
  }

  lemma SameOneMore(places: seq<Place>, places': seq<Place>, n: nat)
    requires 0 < n <= |places| && n <= |places'| && SameUpTo(places, places', n - 1)
    ensures places[n - 1] == places'[n - 1] ==> SameUpTo(places, places', n)
  {
  }

  /** And its places leave no choice: whatever is placed so is the stream. */
  lemma PlacedStreamIsOne(
    directories: seq<seq<LogFile>>, selection: Selection, events: seq<Event>, places: seq<Place>,
    events': seq<Event>, places': seq<Place>)
    requires IsPlaced(directories, selection, events, places) && IsPlaced(directories, selection, events', places')
    ensures events == events'
  {
    hide HasEvent, EachAhead;
    SamePlacesSoFar(directories, selection, events, places, events', places', |places|);
    SamePlacesSoFar(directories, selection, events', places', events, places, |places'|);
    forall k | 0 <= k < |events| ensures events[k] == events'[k] {
      OneEventAtAPlace(directories, selection, places[k], events[k], events'[k]);
    }
  }
}
