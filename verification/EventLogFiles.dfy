/** Merging Event Log files: the streaming reader and the newest-first scan.

Instants are microseconds and a day is the count of days, so day `d` starts at `d * DAY`. */
module EventLogFiles {
  import opened Wrappers
  import opened Sequences
  import opened StableSorting
  import opened EventSelection

  const DAY: int := 86_400_000_000
  const SPAN_CARRY_OVER: int := 2 * DAY

  datatype LogFile = LogFile(day: int, lines: seq<Line>)

  /** What the heap holds for one event, with the day of the file it was read from. */
  datatype Entry = Entry(time: int, order: nat, day: int, event: Event)

  function StartOf(day: int): int { day * DAY }

  /** The instant before which nothing is held back once only files from `following` on remain. */
  function SettledBefore(following: int): int { StartOf(following) - SPAN_CARRY_OVER }

  function DayOf(instant: int): int { instant / DAY }

  function FirstDay(selection: Selection): Option<int> {
    match selection.since
    case None => None
    case Some(since) => Some(DayOf(since))
  }

  predicate IntLe(a: int, b: int) { a <= b }

  predicate InstantLe(a: Entry, b: Entry) { a.time <= b.time }

  predicate EventLe(a: Event, b: Event) { a.time <= b.time }

  predicate KeyLess(a: Entry, b: Entry) {
    a.time < b.time || (a.time == b.time && a.order < b.order)
  }

  // -- The files, by day -----------------------------------------------------------------

  predicate Wanted(selection: Selection, file: LogFile) {
    FirstDay(selection).None? || file.day >= FirstDay(selection).value
  }

  function WantedOf(selection: Selection, files: seq<LogFile>): seq<LogFile> {
    if files == [] then []
    else
      var rest := WantedOf(selection, files[..|files| - 1]);
      var last := files[|files| - 1];
      if Wanted(selection, last) then rest + [last] else rest
  }

  function OfDay(files: seq<LogFile>, day: int): seq<LogFile> {
    if files == [] then []
    else
      var rest := OfDay(files[..|files| - 1], day);
      var last := files[|files| - 1];
      if last.day == day then rest + [last] else rest
  }

  /** The files of any of `days`, as they stand in `files`. */
  function InDays(files: seq<LogFile>, days: seq<int>): seq<LogFile> {
    if files == [] then []
    else
      var rest := InDays(files[..|files| - 1], days);
      var last := files[|files| - 1];
      if last.day in days then rest + [last] else rest
  }

  function Flattened(directories: seq<seq<LogFile>>): seq<LogFile> {
    if directories == [] then []
    else Flattened(directories[..|directories| - 1]) + directories[|directories| - 1]
  }

  /** `byDay` holds `files` under their days, each day's in order, and `days` its keys as inserted. */
  ghost predicate GroupedByDay(files: seq<LogFile>, byDay: map<int, seq<LogFile>>, days: seq<int>) {
    && Distinct(days)
    && (forall day :: day in days <==> day in byDay)
    && (forall day :: day in byDay <==> exists file :: file in files && file.day == day)
    && (forall day :: day in byDay ==> byDay[day] == OfDay(files, day))
  }

  lemma {:induction false} OfDayNone(files: seq<LogFile>, day: int)
    requires forall file :: file in files ==> file.day != day
    ensures OfDay(files, day) == []
  {
    if files != [] {
      assert files[|files| - 1] in files;
      OfDayNone(files[..|files| - 1], day);
    }
  }

  lemma NothingGrouped()
    ensures GroupedByDay([], map[], [])
  {
  }

  lemma GroupKnownDay(files: seq<LogFile>, byDay: map<int, seq<LogFile>>, days: seq<int>, file: LogFile)
    requires GroupedByDay(files, byDay, days) && file.day in byDay
    ensures GroupedByDay(files + [file], byDay[file.day := byDay[file.day] + [file]], days)
  {
  }

  lemma GroupNewDay(files: seq<LogFile>, byDay: map<int, seq<LogFile>>, days: seq<int>, file: LogFile)
    requires GroupedByDay(files, byDay, days) && file.day !in byDay
    ensures GroupedByDay(files + [file], byDay[file.day := [file]], days + [file.day])
  {
    assert (files + [file])[..|files|] == files;
    assert file in files + [file];
    assert forall each :: each in files + [file] <==> each in files || each == file;
    OfDayNone(files, file.day);
  }

  method FilesByDay(directories: seq<seq<LogFile>>, selection: Selection)
    returns (byDay: map<int, seq<LogFile>>, days: seq<int>)
    ensures GroupedByDay(WantedOf(selection, Flattened(directories)), byDay, days)
  {
    hide GroupedByDay, OfDay;
    byDay, days := map[], [];
    NothingGrouped();
    for d := 0 to |directories|
      invariant GroupedByDay(WantedOf(selection, Flattened(directories[..d])), byDay, days)
    {
      var files := directories[d];
      ghost var before := Flattened(directories[..d]);
      assert before + files[..0] == before;
      for f := 0 to |files|
        invariant GroupedByDay(WantedOf(selection, before + files[..f]), byDay, days)
      {
        var file := files[f];
        assert (before + files[..f + 1])[..|before| + f] == before + files[..f];
        if FirstDay(selection).None? || file.day >= FirstDay(selection).value {
          if file.day in byDay {
            GroupKnownDay(WantedOf(selection, before + files[..f]), byDay, days, file);
            byDay := byDay[file.day := byDay[file.day] + [file]];
          } else {
            GroupNewDay(WantedOf(selection, before + files[..f]), byDay, days, file);
            byDay, days := byDay[file.day := [file]], days + [file.day];
          }
        }
      }
      assert directories[..d + 1][..d] == directories[..d];
      assert files[..|files|] == files;
    }
    assert directories[..|directories|] == directories;
  }

  // -- The streaming merge ---------------------------------------------------------------

  /** The events of some files, in the order of the files and of their lines. */
  function EventsOf(files: seq<LogFile>, selection: Selection): seq<Event> {
    if files == [] then []
    else EventsOf(files[..|files| - 1], selection) + SelectedOf(selection, files[|files| - 1].lines)
  }

  function Stamped(events: seq<Event>, day: int, first: nat): (entries: seq<Entry>)
    ensures |entries| == |events|
    ensures forall i :: 0 <= i < |events| ==> entries[i] == Entry(events[i].time, first + i, day, events[i])
  {
    if events == [] then []
    else
      var last := events[|events| - 1];
      Stamped(events[..|events| - 1], day, first) + [Entry(last.time, first + |events| - 1, day, last)]
  }

  /** Everything read by the end of the first `n` of `days`, in read order. */
  function ReadBy(files: seq<LogFile>, selection: Selection, days: seq<int>, n: nat): (read: seq<Entry>)
    requires n <= |days|
  {
    if n == 0 then []
    else
      var before := ReadBy(files, selection, days, n - 1);
      before + Stamped(EventsOf(OfDay(files, days[n - 1]), selection), days[n - 1], |before|)
  }

  ghost predicate InReadOrder(read: seq<Entry>, days: seq<int>) {
    && (forall i :: 0 <= i < |read| ==>
         read[i].order == i && read[i].time == read[i].event.time && read[i].day in days)
    && (forall i, j :: 0 <= i < j < |read| ==> read[i].day <= read[j].day)
  }

  lemma {:induction false} ReadInOrder(files: seq<LogFile>, selection: Selection, days: seq<int>, n: nat)
    requires n <= |days| && Ascending(days)
    ensures InReadOrder(ReadBy(files, selection, days, n), days[..n])
  {
    hide OfDay, EventsOf;
    if n > 0 {
      ReadInOrder(files, selection, days, n - 1);
      var before := ReadBy(files, selection, days, n - 1);
      var more := Stamped(EventsOf(OfDay(files, days[n - 1]), selection), days[n - 1], |before|);
      assert ReadBy(files, selection, days, n) == before + more;
      assert days[..n] == days[..n - 1] + [days[n - 1]];
      assert forall i :: 0 <= i < |more| ==> more[i].day == days[n - 1];
    }
  }

  ghost predicate Ascending(days: seq<int>) {
    forall i, j :: 0 <= i < j < |days| ==> days[i] < days[j]
  }

  /** `x` was read before `y` and left before `y` was read, although `y` is stamped earlier. */
  predicate Overtaken(x: Entry, y: Entry) {
    x.day < y.day && y.time < x.time < SettledBefore(y.day)
  }

  /** Of two events, which the stream yields first. */
  predicate ComesBefore(x: Entry, y: Entry) {
    if x.order < y.order then x.time <= y.time || Overtaken(x, y)
    else y.order < x.order && x.time < y.time && !Overtaken(y, x)
  }

  ghost predicate Arranged(merged: seq<Entry>) {
    forall i, j :: 0 <= i < j < |merged| ==> ComesBefore(merged[i], merged[j])
  }

  /** Exactly the entries `read`, in the one order `ComesBefore` gives them. */
  ghost predicate IsMerge(read: seq<Entry>, merged: seq<Entry>) {
    multiset(merged) == multiset(read) && Arranged(merged)
  }

  function Payloads(entries: seq<Entry>): (events: seq<Event>)
    ensures |events| == |entries|
    ensures forall i :: 0 <= i < |events| ==> events[i] == entries[i].event
  {
    if entries == [] then []
    else Payloads(entries[..|entries| - 1]) + [entries[|entries| - 1].event]
  }

  ghost function Elements(entries: seq<Entry>): set<Entry> { set e | e in entries }

  /** What is yielded and what is held are, between them, what was read; what is yielded stands
      as the merge has it, and ahead of everything held. */
  ghost predicate Streaming(read: set<Entry>, merged: seq<Entry>, held: set<Entry>) {
    && read == Elements(merged) + held
    && (forall x, y :: x in read && y in read && x.order == y.order ==> x == y)
    && Arranged(merged)
    && (forall x, y :: x in merged && y in held ==> ComesBefore(x, y))
  }

  // Once the files of `day` are being read, what was yielded was settled before it ...
  ghost predicate YieldedBefore(merged: seq<Entry>, day: int) {
    forall e :: e in merged ==> e.day < day && e.time < SettledBefore(day)
  }

  // ... and what is held from an earlier day was not.
  ghost predicate HeldUpTo(held: set<Entry>, day: int) {
    forall e :: e in held ==> e.day == day || (e.day < day && e.time >= SettledBefore(day))
  }

  lemma {:induction false} LeastHeld(held: set<Entry>) returns (least: Entry)
    requires held != {}
    requires forall x, y :: x in held && y in held && x.order == y.order ==> x == y
    ensures least in held && forall e :: e in held && e != least ==> KeyLess(least, e)
    decreases |held|
  {
    var some :| some in held;
    var rest := held - {some};
    if rest == {} {
      least := some;
      assert held == {some};
    } else {
      var inner := LeastHeld(rest);
      least := if KeyLess(some, inner) then some else inner;
      forall e | e in held && e != least ensures KeyLess(least, e) {
        if e != some { assert e in rest; }
      }
    }
  }

  lemma PushKeeps(read: set<Entry>, merged: seq<Entry>, held: set<Entry>, entry: Entry)
    requires Streaming(read, merged, held)
    requires YieldedBefore(merged, entry.day) && HeldUpTo(held, entry.day)
    requires forall e :: e in read ==> e.order < entry.order
    ensures Streaming(read + {entry}, merged, held + {entry}) && HeldUpTo(held + {entry}, entry.day)
  {
    assert forall e :: e in merged ==> e in read;
  }

  lemma PopKeeps(read: set<Entry>, merged: seq<Entry>, held: set<Entry>, least: Entry, day: int)
    requires Streaming(read, merged, held) && HeldUpTo(held, day)
    requires least in held && forall e :: e in held && e != least ==> KeyLess(least, e)
    ensures Streaming(read, merged + [least], held - {least}) && HeldUpTo(held - {least}, day)
  {
    assert forall e :: e in merged + [least] <==> e in merged || e == least;
    forall e | e in held - {least} ensures ComesBefore(least, e) {
      assert e in read && least in read;
      assert !Overtaken(e, least);
    }
  }

  lemma SortedDays(keys: seq<int>)
    requires Distinct(keys)
    ensures Ascending(Sort(keys, IntLe))
    ensures forall day :: day in Sort(keys, IntLe) <==> day in keys
  {
    SortIsStable(keys, IntLe);
    var sorted := Sort(keys, IntLe);
    forall day ensures day in sorted <==> day in keys {
      assert day in multiset(sorted) <==> day in multiset(keys);
    }
    forall i, j | 0 <= i < j < |sorted| ensures sorted[i] < sorted[j] {
      DistinctCounts(keys, sorted[i]);
      if sorted[i] == sorted[j] {
        CountedTwice(sorted, i, j);
      }
    }
  }

  lemma CountedTwice(days: seq<int>, i: nat, j: nat)
    requires i < j < |days| && days[i] == days[j]
    ensures multiset(days)[days[i]] >= 2
  {
    assert days == days[..j] + days[j..];
    assert days[..j][i] in multiset(days[..j]) && days[j..][0] in multiset(days[j..]);
  }

  lemma {:induction false} DistinctCounts(keys: seq<int>, day: int)
    requires Distinct(keys)
    ensures multiset(keys)[day] <= 1
  {
    if keys != [] {
      var front, last := keys[..|keys| - 1], keys[|keys| - 1];
      assert keys == front + [last];
      DistinctCounts(front, day);
      if day == last { assert day !in front; }
    }
  }

  /** Push one file's events, in line order. */
  method PushFile(events: seq<Event>, day: int, held0: set<Entry>, first: nat,
                  ghost read: set<Entry>, ghost merged: seq<Entry>)
    returns (held: set<Entry>)
    requires Streaming(read, merged, held0) && YieldedBefore(merged, day) && HeldUpTo(held0, day)
    requires forall e :: e in read ==> e.order < first
    ensures Streaming(read + Elements(Stamped(events, day, first)), merged, held) && HeldUpTo(held, day)
  {
    hide Streaming, HeldUpTo, YieldedBefore, Elements;
    held := held0;
    ghost var now := read;
    ReadNone(read, day, first);
    for i := 0 to |events|
      invariant Streaming(now, merged, held) && HeldUpTo(held, day)
      invariant forall e :: e in now ==> e.order < first + i
      invariant now == read + Elements(Stamped(events[..i], day, first))
    {
      var entry := Entry(events[i].time, first + i, day, events[i]);
      PushKeeps(now, merged, held, entry);
      PushOne(read, events, i, day, first, entry);
      held, now := held + {entry}, now + {entry};
    }
    assert events[..|events|] == events;
  }

  lemma PushOne(read: set<Entry>, events: seq<Event>, i: nat, day: int, first: nat, entry: Entry)
    requires i < |events| && entry == Entry(events[i].time, first + i, day, events[i])
    ensures read + Elements(Stamped(events[..i], day, first)) + {entry}
         == read + Elements(Stamped(events[..i + 1], day, first))
  {
    assert Stamped(events[..i + 1], day, first) == Stamped(events[..i], day, first) + [entry];
    ElementsConcat(Stamped(events[..i], day, first), [entry]);
    assert Elements([entry]) == {entry};
  }

  /** Read one day's files in turn, holding what they add. */
  method PushDay(paths: seq<LogFile>, selection: Selection, day: int, held0: set<Entry>, first: nat,
                 ghost read: set<Entry>, ghost merged: seq<Entry>)
    returns (held: set<Entry>, order: nat)
    requires Streaming(read, merged, held0) && YieldedBefore(merged, day) && HeldUpTo(held0, day)
    requires forall e :: e in read ==> e.order < first
    ensures order == first + |EventsOf(paths, selection)|
    ensures Streaming(read + Elements(Stamped(EventsOf(paths, selection), day, first)), merged, held)
    ensures HeldUpTo(held, day)
  {
    hide Streaming, HeldUpTo, YieldedBefore, Elements, EventsOf, Stamped;
    held, order := held0, first;
    ghost var already: seq<Event> := [];
    ghost var now := read;
    ReadNone(read, day, first);
    NoEvents(selection);
    for p := 0 to |paths|
      invariant already == EventsOf(paths[..p], selection) && order == first + |already|
      invariant now == read + Elements(Stamped(already, day, first))
      invariant Streaming(now, merged, held) && HeldUpTo(held, day)
    {
      var selected, bad := ReadFile(paths[p].lines, selection);
      EventsOfPrefix(paths, selection, p);
      ReadOneMore(read, already, selected, day, first);
      held := PushFile(selected, day, held, order, now, merged);
      order := order + |selected|;
      already := already + selected;
      now := read + Elements(Stamped(already, day, first));
    }
    assert paths[..|paths|] == paths;
  }

  lemma NoEvents(selection: Selection)
    ensures EventsOf([], selection) == []
  {
  }

  lemma EventsOfPrefix(files: seq<LogFile>, selection: Selection, p: nat)
    requires p < |files|
    ensures EventsOf(files[..p + 1], selection)
         == EventsOf(files[..p], selection) + SelectedOf(selection, files[p].lines)
  {
    assert files[..p + 1][..p] == files[..p];
  }

  lemma ReadOneMore(read: set<Entry>, already: seq<Event>, more: seq<Event>, day: int, first: nat)
    requires forall e :: e in read ==> e.order < first
    ensures forall e :: e in read + Elements(Stamped(already, day, first)) ==> e.order < first + |already|
    ensures read + Elements(Stamped(already, day, first)) + Elements(Stamped(more, day, first + |already|))
         == read + Elements(Stamped(already + more, day, first))
  {
    StampedConcat(already, more, day, first);
    ElementsConcat(Stamped(already, day, first), Stamped(more, day, first + |already|));
  }

  lemma ReadNone(read: set<Entry>, day: int, first: nat)
    ensures read + Elements(Stamped([], day, first)) == read
  {
  }

  lemma ElementsConcat(xs: seq<Entry>, ys: seq<Entry>)
    ensures Elements(xs + ys) == Elements(xs) + Elements(ys)
  {
  }

  lemma StampedConcat(xs: seq<Event>, ys: seq<Event>, day: int, first: nat)
    ensures Stamped(xs + ys, day, first) == Stamped(xs, day, first) + Stamped(ys, day, first + |xs|)
  {
  }

  /** Yield what is settled before the files of `following`, or everything after the last day. */
  method Drain(held0: set<Entry>, following: Option<int>, day: int, ghost read: set<Entry>, ghost merged0: seq<Entry>)
    returns (held: set<Entry>, events: seq<Event>, ghost merged: seq<Entry>)
    requires Streaming(read, merged0, held0) && HeldUpTo(held0, day)
    requires YieldedBefore(merged0, day) && (following.Some? ==> day < following.value)
    ensures Streaming(read, merged0 + merged, held)
    ensures events == Payloads(merged)
    ensures following.Some? ==> YieldedBefore(merged0 + merged, following.value) && HeldUpTo(held, following.value)
    ensures following.None? ==> held == {}
  {
    hide Streaming, YieldedBefore, HeldUpTo;
    held, events, merged := held0, [], [];
    assert merged0 + merged == merged0;
    if following.Some? { SettlesLater(merged0, day, following.value); }
    while held != {}
      invariant Streaming(read, merged0 + merged, held) && HeldUpTo(held, day)
      invariant following.Some? ==> YieldedBefore(merged0 + merged, following.value)
      invariant events == Payloads(merged)
      decreases held
    {
      ghost var least := LeastStreaming(read, merged0 + merged, held);
      var next :| next in held && forall e :: e in held && e != next ==> KeyLess(next, e);
      if following.Some? && next.time >= SettledBefore(following.value) {
        HeldIsUnsettled(held, next, day, following.value);
        break;
      }
      PopKeeps(read, merged0 + merged, held, next, day);
      if following.Some? { YieldOne(merged0 + merged, held, next, day, following.value); }
      assert merged0 + merged + [next] == merged0 + (merged + [next]);
      assert (merged + [next])[..|merged|] == merged;
      held, events, merged := held - {next}, events + [next.event], merged + [next];
    }
    NothingRead();
  }

  lemma LeastStreaming(read: set<Entry>, merged: seq<Entry>, held: set<Entry>) returns (least: Entry)
    requires Streaming(read, merged, held) && held != {}
    ensures least in held && forall e :: e in held && e != least ==> KeyLess(least, e)
  {
    least := LeastHeld(held);
  }

  lemma SettlesLater(merged: seq<Entry>, day: int, following: int)
    requires YieldedBefore(merged, day) && day < following
    ensures YieldedBefore(merged, following)
  {
  }

  lemma YieldOne(merged: seq<Entry>, held: set<Entry>, next: Entry, day: int, following: int)
    requires YieldedBefore(merged, following) && HeldUpTo(held, day) && day < following
    requires next in held && next.time < SettledBefore(following)
    ensures YieldedBefore(merged + [next], following)
    ensures HeldUpTo(held - {next}, day)
  {
  }

  lemma HeldIsUnsettled(held: set<Entry>, least: Entry, day: int, following: int)
    requires HeldUpTo(held, day) && day < following
    requires least in held && forall e :: e in held && e != least ==> KeyLess(least, e)
    requires least.time >= SettledBefore(following)
    ensures HeldUpTo(held, following)
  {
  }

  /** `days` are those of some of `files`, each once and in order. */
  ghost predicate DaysOf(files: seq<LogFile>, days: seq<int>) {
    Ascending(days) && forall day :: day in days <==> exists file :: file in files && file.day == day
  }

  /** `merged` is what the files of `directories` the selection asks for, read day by day, come to. */
  ghost predicate Streams(directories: seq<seq<LogFile>>, selection: Selection, days: seq<int>, merged: seq<Entry>) {
    && DaysOf(WantedOf(selection, Flattened(directories)), days)
    && IsMerge(ReadBy(WantedOf(selection, Flattened(directories)), selection, days, |days|), merged)
  }

  ghost predicate IsStream(directories: seq<seq<LogFile>>, selection: Selection, events: seq<Event>) {
    exists days, merged :: Streams(directories, selection, days, merged) && events == Payloads(merged)
  }

  /** Stream every selected event: those of the entries read, in the merge's order. */
  method ReadEventLogs(directories: seq<seq<LogFile>>, selection: Selection) returns (events: seq<Event>)
    ensures IsStream(directories, selection, events)
  {
    ghost var days, merged;
    hide Streaming, HeldUpTo, YieldedBefore, Elements, IsMerge, InReadOrder;
    hide WantedOf, Flattened, OfDay, EventsOf, Payloads, Stamped;
    ghost var files := WantedOf(selection, Flattened(directories));
    var byDay, keys := FilesByDay(directories, selection);
    SortedDays(keys);
    var sorted := Sort(keys, IntLe);
    days := sorted;
    var held: set<Entry> := {};
    var order := 0;
    events, merged := [], [];
    ghost var read: seq<Entry> := [];
    NothingRead();
    for index := 0 to |sorted|
      invariant read == ReadBy(files, selection, days, index) && order == |read|
      invariant Streaming(Elements(read), merged, held)
      invariant index < |days| ==> YieldedBefore(merged, days[index]) && HeldUpTo(held, days[index])
      invariant index == |days| ==> held == {}
      invariant events == Payloads(merged)
    {
      var day := sorted[index];
      assert day in sorted;
      ReadInOrder(files, selection, days, index);
      ReadBefore(read, days[..index]);
      held, order := PushDay(byDay[day], selection, day, held, order, Elements(read), merged);
      ghost var more := Stamped(EventsOf(byDay[day], selection), day, |read|);
      ElementsConcat(read, more);
      read := read + more;
      var following := if index + 1 < |sorted| then Some(sorted[index + 1]) else None;
      ghost var yielded;
      var released;
      held, released, yielded := Drain(held, following, day, Elements(read), merged);
      PayloadsConcat(merged, yielded);
      events, merged := events + released, merged + yielded;
    }
    ReadInOrder(files, selection, days, |days|);
    assert days[..|days|] == days;
    AllYielded(read, merged, days);
    assert Streams(directories, selection, days, merged);
  }

  lemma ReadBefore(read: seq<Entry>, days: seq<int>)
    requires InReadOrder(read, days)
    ensures forall e :: e in Elements(read) ==> e.order < |read|
  {
  }

  lemma NothingRead()
    ensures Elements([]) == {} && Streaming({}, [], {})
    ensures forall day :: YieldedBefore([], day) && HeldUpTo({}, day)
  {
  }

  lemma AllYielded(read: seq<Entry>, merged: seq<Entry>, days: seq<int>)
    requires InReadOrder(read, days) && Streaming(Elements(read), merged, {})
    ensures IsMerge(read, merged)
  {
    forall e ensures multiset(merged)[e] == multiset(read)[e] {
      ArrangedCounts(merged, e);
      InOrderCounts(read, e);
      assert e in read <==> e in Elements(read);
      assert e in merged <==> e in Elements(merged);
    }
  }

  lemma {:induction false} ArrangedCounts(merged: seq<Entry>, e: Entry)
    requires Arranged(merged)
    ensures multiset(merged)[e] == if e in merged then 1 else 0
  {
    if merged != [] {
      var front, last := merged[..|merged| - 1], merged[|merged| - 1];
      assert merged == front + [last];
      ArrangedCounts(front, e);
      assert last !in front;
    }
  }

  lemma {:induction false} InOrderCounts(read: seq<Entry>, e: Entry)
    requires forall i :: 0 <= i < |read| ==> read[i].order == i
    ensures multiset(read)[e] == if e in read then 1 else 0
  {
    if read != [] {
      var front, last := read[..|read| - 1], read[|read| - 1];
      assert read == front + [last];
      InOrderCounts(front, e);
    }
  }

  lemma PayloadsConcat(xs: seq<Entry>, ys: seq<Entry>)
    ensures Payloads(xs + ys) == Payloads(xs) + Payloads(ys)
  {
  }
}
