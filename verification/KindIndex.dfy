/** The generated index of each kind of document: its table, and the gate that it is up to date.

A text is its lines: what lies between line breaks, the last possibly empty. */
module KindIndex {
  import opened Wrappers
  import opened StableSorting
  import opened ColumnOrder

  type Text = seq<string>

  const GENERATED := "<!-- Generated"
  const TABLE_START := GENERATED + " by scripts/maintain_docs.py --write-indexes from each document's title " +
                       "and frontmatter: edit the introduction above, never the table. -->"
  const TABLE_END := "<!-- End of the generated table. -->"
  const FENCE := "---"

  datatype KindEntry = KindEntry(title: string, status: string, date: string, filename: string)

  // -- Collecting entries ------------------------------------------------------------------------

  predicate StringLe(a: string, b: string) {
    a == [] || (b != [] && (a[0] < b[0] || (a[0] == b[0] && StringLe(a[1..], b[1..]))))
  }

  predicate FilenameLe(a: KindEntry, b: KindEntry) { StringLe(a.filename, b.filename) }

  function DateOf(): KindEntry -> Option<string> { (entry: KindEntry) => Some(entry.date) }

  /** Newest first, and of one date by filename. */
  function Collected(documents: seq<KindEntry>): seq<KindEntry> {
    SortByColumn(documents, DateOf(), StringLe, FilenameLe, true)
  }

  lemma {:induction false} StringLeTotal(a: string, b: string)
    ensures StringLe(a, b) || StringLe(b, a)
    ensures StringLe(a, b) && StringLe(b, a) ==> a == b
  {
    if a != [] && b != [] && a[0] == b[0] {
      StringLeTotal(a[1..], b[1..]);
      assert a == [a[0]] + a[1..] && b == [b[0]] + b[1..];
    }
  }

  lemma {:induction false} StringLeTransitive(a: string, b: string, c: string)
    requires StringLe(a, b) && StringLe(b, c)
    ensures StringLe(a, c)
  {
    if a != [] && a[0] == b[0] && b[0] == c[0] {
      StringLeTransitive(a[1..], b[1..], c[1..]);
    }
  }

  lemma {:induction false} CommonStart(same: string, a: string, b: string)
    ensures StringLe(same + a, same + b) <==> StringLe(a, b)
  {
    hide StringLe;
    if same == "" {
      assert same + a == a && same + b == b;
    } else {
      CommonStart(same[1..], a, b);
      assert same + a == [same[0]] + (same[1..] + a) && same + b == [same[0]] + (same[1..] + b);
      CommonFirst(same[0], same[1..] + a, same[1..] + b);
    }
  }

  lemma CommonFirst(first: char, a: string, b: string)
    ensures StringLe([first] + a, [first] + b) <==> StringLe(a, b)
  {
    assert ([first] + a)[1..] == a && ([first] + b)[1..] == b;
  }

  /** Strings compare at their first difference, and a beginning comes before what it begins. */
  lemma ComparedAtFirstDifference(same: string, a: string, b: string)
    requires a != "" && b != "" && a[0] < b[0]
    ensures StringLe(same + a, same + b) && !StringLe(same + b, same + a)
    ensures StringLe(same + "", same + b) && !StringLe(same + b, same + "")
  {
    CommonStart(same, a, b);
    CommonStart(same, b, a);
    CommonStart(same, "", b);
    CommonStart(same, b, "");
  }

  lemma StringsAreOrdered()
    ensures TotalPreorder(StringLe) && TotalPreorder(FilenameLe)
  {
    forall a, b ensures StringLe(a, b) || StringLe(b, a) { StringLeTotal(a, b); }
    forall a, b, c | StringLe(a, b) && StringLe(b, c) ensures StringLe(a, c) { StringLeTransitive(a, b, c); }
  }

  /** The entries come newest first and, of one date, by filename; and since no two documents of a
      directory share a filename, the order their paths came in plays no part. */
  lemma EntriesAreOfTheDocuments(documents: seq<KindEntry>, others: seq<KindEntry>, i: nat, j: nat)
    requires multiset(documents) == multiset(others)
    requires forall x, y :: x in documents && y in documents && x.filename == y.filename ==> x == y
    ensures Collected(documents) == Collected(others)
    ensures var entries := Collected(documents);
      && multiset(entries) == multiset(documents)
      && (i < j < |entries| ==>
          && StringLe(entries[j].date, entries[i].date)
          && (entries[i].date == entries[j].date ==> StringLe(entries[i].filename, entries[j].filename)))
  {
    hide SortByColumn;
    StringsAreOrdered();
    forall x, y | x in documents && y in documents && FilenameLe(x, y) && FilenameLe(y, x) ensures x == y {
      StringLeTotal(x.filename, y.filename);
    }
    ArrangementPlaysNoPart(documents, others, DateOf(), StringLe, FilenameLe, true);
    SortedByColumn(documents, DateOf(), StringLe, FilenameLe, true, i, j);
    var entries := Collected(documents);
    if i < j < |entries| && entries[i].date == entries[j].date {
      StringLeTotal(entries[i].date, entries[j].date);
    }
  }

  // -- Finding the table -------------------------------------------------------------------------

  predicate IsBlank(c: char) {
    || c == ' ' || '\t' == c || '\U{000B}' <= c <= '\r' || '\U{001C}' <= c <= '\U{001F}'
    || c == '\U{0085}' || c == '\U{00A0}' || c == '\U{1680}' || '\U{2000}' <= c <= '\U{200A}'
    || c == '\U{2028}' || c == '\U{2029}' || c == '\U{202F}' || c == '\U{205F}' || c == '\U{3000}'
  }

  predicate IsMarker(line: string, marker: string) {
    |line| >= |marker| && line[..|marker|] == marker && forall i :: |marker| <= i < |line| ==> IsBlank(line[i])
  }

  function Marked(text: Text, marker: string): seq<nat> {
    if text == [] then []
    else Marked(text[..|text| - 1], marker) + if IsMarker(text[|text| - 1], marker) then [|text| - 1] else []
  }

  /** The lines of the table's two markers, when each stands once and the opening one first. */
  function TableBounds(text: Text): Option<(nat, nat)> {
    var starts, ends := Marked(text, TABLE_START), Marked(text, TABLE_END);
    if |starts| != 1 || |ends| != 1 || ends[0] < starts[0] then None else Some((starts[0], ends[0]))
  }

  /** The line after a closing fence at or past `from`, which must have a line break after it. */
  function AfterFence(text: Text, from: nat): (after: Option<nat>)
    ensures after.Some? ==> from < after.value < |text|
    decreases |text| - from
  {
    if from + 1 >= |text| then None
    else if text[from] == FENCE then Some(from + 1)
    else AfterFence(text, from + 1)
  }

  /** The line after the frontmatter. Its body is at least one line, so no fence before line 2 closes it. */
  function FrontmatterEnd(text: Text): Option<nat> {
    if text != [] && text[0] == FENCE then AfterFence(text, 2) else None
  }

  /** It is the line after the first fence past one line of body, if a line break ends that fence. */
  lemma FrontmatterEndsAtItsFence(text: Text, end: nat)
    ensures FrontmatterEnd(text) == Some(end) <==>
      && 3 <= end < |text| && text[0] == FENCE && text[end - 1] == FENCE
      && forall i :: 2 <= i < end - 1 ==> text[i] != FENCE
  {
    if text != [] {
      AfterFirstFence(text, 2, end);
    }
  }

  lemma {:induction false} AfterFirstFence(text: Text, from: nat, end: nat)
    ensures AfterFence(text, from) == Some(end) <==>
      from < end < |text| && text[end - 1] == FENCE && forall i :: from <= i < end - 1 ==> text[i] != FENCE
    decreases |text| - from
  {
    if from + 1 < |text| && text[from] != FENCE {
      AfterFirstFence(text, from + 1, end);
    }
  }

  // -- Rendering ---------------------------------------------------------------------------------

  function EscapeCell(cell: string): string {
    if cell == [] then []
    else (if cell[0] == '|' then "\\|" else [cell[0]]) + EscapeCell(cell[1..])
  }

  /** No text ends its cell: every bar in an escaped cell follows a backslash. */
  lemma {:induction false} EscapedCellsDoNotEnd(cell: string, i: nat)
    requires i < |EscapeCell(cell)| && EscapeCell(cell)[i] == '|'
    ensures i > 0 && EscapeCell(cell)[i - 1] == '\\'
  {
    var width := if cell[0] == '|' then 2 else 1;
    if i >= width {
      EscapedCellsDoNotEnd(cell[1..], i - width);
    }
  }

  function Row(entry: KindEntry): string {
    "| [" + EscapeCell(entry.title) + "](" + entry.filename + ") | " + EscapeCell(entry.status) + " | " +
    EscapeCell(entry.date) + " |"
  }

  function Rows(entries: seq<KindEntry>): (rows: Text)
    ensures |rows| == |entries|
    ensures forall i :: 0 <= i < |rows| ==> rows[i] == Row(entries[i])
  {
    if entries == [] then [] else Rows(entries[..|entries| - 1]) + [Row(entries[|entries| - 1])]
  }

  function Newest(entries: seq<KindEntry>): string {
    if entries == [] then ""
    else if |entries| == 1 then entries[0].date
    else
      var before, last := Newest(entries[..|entries| - 1]), entries[|entries| - 1].date;
      if StringLe(last, before) then before else last
  }

  function Frontmatter(entries: seq<KindEntry>): Text {
    [FENCE, "status: living", "date: " + Newest(entries), FENCE]
  }

  function Table(entries: seq<KindEntry>): Text {
    [TABLE_START, "", "| Document | Status | Date |", "| --- | --- | --- |"] + Rows(entries) + ["", TABLE_END]
  }

  /** Where the introduction starts: after the frontmatter, unless the table is marked inside it. */
  function IntroductionStart(text: Text, start: nat): (first: nat)
    ensures first <= start
  {
    match FrontmatterEnd(text)
    case Some(end) => if end <= start then end else 0
    case None => 0
  }

  function Introduction(text: Text): Text {
    match TableBounds(text)
    case Some((start, end)) =>
      (BoundsAreMarkers(text); text[IntroductionStart(text, start)..start])
    case None => []
  }

  function Trailing(text: Text): Text {
    match TableBounds(text)
    case Some((start, end)) => (BoundsAreMarkers(text); text[end + 1..])
    case None => []
  }

  function Rendered(entries: seq<KindEntry>, committed: Text): Option<Text> {
    if TableBounds(committed).None? then None
    else Some(Frontmatter(entries) + Introduction(committed) + Table(entries) + Trailing(committed))
  }

  // -- Rendering is a fixpoint -------------------------------------------------------------------

  /** `marker` stands on line `at` and on no other. */
  ghost predicate StandsOnly(text: Text, marker: string, at: nat) {
    at < |text| && IsMarker(text[at], marker) && forall i :: 0 <= i < |text| && i != at ==> !IsMarker(text[i], marker)
  }

  lemma {:induction false} MarkedAreMarkers(text: Text, marker: string)
    ensures forall i :: i in Marked(text, marker) <==> 0 <= i < |text| && IsMarker(text[i], marker)
    ensures forall k :: 0 <= k < |Marked(text, marker)| ==> Marked(text, marker)[k] < |text|
    ensures forall i, j :: 0 <= i < j < |Marked(text, marker)| ==> Marked(text, marker)[i] < Marked(text, marker)[j]
  {
    hide IsMarker;
    if text != [] {
      MarkedAreMarkers(text[..|text| - 1], marker);
    }
  }

  lemma OneOf(marked: seq<nat>, at: nat)
    requires forall i, j :: 0 <= i < j < |marked| ==> marked[i] < marked[j]
    requires forall k :: 0 <= k < |marked| ==> marked[k] == at
    ensures |marked| <= 1
  {
    FirstTwoDiffer(marked);
  }

  lemma FirstTwoDiffer(marked: seq<nat>)
    requires forall i, j :: 0 <= i < j < |marked| ==> marked[i] < marked[j]
    ensures |marked| > 1 ==> marked[0] < marked[1]
  {
  }

  lemma MarkedOnce(text: Text, marker: string, at: nat)
    ensures Marked(text, marker) == [at] <==> StandsOnly(text, marker, at)
  {
    hide IsMarker, Marked;
    var marked := Marked(text, marker);
    MarkedAreMarkers(text, marker);
    if StandsOnly(text, marker, at) {
      assert at in marked;
      forall k | 0 <= k < |marked| ensures marked[k] == at {
        assert marked[k] in marked;
      }
      OneOf(marked, at);
    }
    if marked == [at] {
      assert at in marked;
      forall i | 0 <= i < |text| && IsMarker(text[i], marker) ensures i == at {
        assert i in marked;
      }
    }
  }

  lemma MarkersDiffer(line: string)
    ensures !(IsMarker(line, TABLE_START) && IsMarker(line, TABLE_END))
    ensures line == [] || line[0] != '<' ==> !IsMarker(line, TABLE_START) && !IsMarker(line, TABLE_END)
  {
    assert TABLE_START[0] == GENERATED[0] == '<' && TABLE_START[5] == GENERATED[5] == 'G';
    assert TABLE_END[0] == '<' && TABLE_END[5] == 'E';
    assert IsMarker(line, TABLE_START) ==> line[..|TABLE_START|][5] == line[5] && line[..|TABLE_START|][0] == line[0];
    assert IsMarker(line, TABLE_END) ==> line[..|TABLE_END|][5] == line[5] && line[..|TABLE_END|][0] == line[0];
  }

  lemma BoundsAreMarkers(text: Text)
    ensures TableBounds(text).Some? ==>
      var (start, end) := TableBounds(text).value;
      start < end < |text| && StandsOnly(text, TABLE_START, start) && StandsOnly(text, TABLE_END, end)
  {
    hide IsMarker;
    if TableBounds(text).Some? {
      var (start, end) := TableBounds(text).value;
      MarkedOnce(text, TABLE_START, start);
      MarkedOnce(text, TABLE_END, end);
      assert Marked(text, TABLE_START) == [start] && Marked(text, TABLE_END) == [end];
      MarkersDiffer(text[start]);
    }
  }

  lemma BoundsWhere(text: Text, start: nat, end: nat)
    requires start < end && StandsOnly(text, TABLE_START, start) && StandsOnly(text, TABLE_END, end)
    ensures TableBounds(text) == Some((start, end))
  {
    MarkedOnce(text, TABLE_START, start);
    MarkedOnce(text, TABLE_END, end);
  }

  lemma TableMarks(entries: seq<KindEntry>)
    ensures var table := Table(entries);
      StandsOnly(table, TABLE_START, 0) && StandsOnly(table, TABLE_END, |table| - 1)
  {
    var table := Table(entries);
    forall i | 0 < i < |table| - 1 ensures !IsMarker(table[i], TABLE_START) && !IsMarker(table[i], TABLE_END) {
      assert table[i] == [] || table[i][0] == '|' by {
        if 4 <= i < |table| - 2 { assert table[i] == Row(entries[i - 4]); }
      }
      MarkersDiffer(table[i]);
    }
    MarkersDiffer(TABLE_START);
    MarkersDiffer(TABLE_END);
  }

  lemma FrontmatterMarksNothing(entries: seq<KindEntry>, i: nat)
    requires i < 4
    ensures !IsMarker(Frontmatter(entries)[i], TABLE_START) && !IsMarker(Frontmatter(entries)[i], TABLE_END)
  {
    MarkersDiffer(Frontmatter(entries)[i]);
  }

  /** A rendered index has the new frontmatter, the committed introduction, the new table and what
      followed the old one, and is found to have them. */
  lemma RenderedParts(entries: seq<KindEntry>, committed: Text)
    requires Rendered(entries, committed).Some?
    ensures var rendered := Rendered(entries, committed).value;
      && TableBounds(rendered).Some? && FrontmatterEnd(rendered) == Some(4)
      && Introduction(rendered) == Introduction(committed) && Trailing(rendered) == Trailing(committed)
      && rendered[..4] == Frontmatter(entries)
  {
    hide IsMarker, Row, Rows, Marked;
    var rendered := Rendered(entries, committed).value;
    var front, intro, table, rest := Frontmatter(entries), Introduction(committed), Table(entries), Trailing(committed);
    var start := 4 + |intro|;
    var end := start + |table| - 1;
    RenderedMarks(entries, committed, TABLE_START);
    RenderedMarks(entries, committed, TABLE_END);
    BoundsWhere(rendered, start, end);
    FenceIsClosed(rendered, entries);
    assert rendered[4..start] == intro;
    assert rendered[end + 1..] == rest;
  }

  lemma FenceIsClosed(rendered: Text, entries: seq<KindEntry>)
    requires |rendered| > 4 && rendered[..4] == Frontmatter(entries)
    ensures FrontmatterEnd(rendered) == Some(4)
  {
    assert rendered[0] == Frontmatter(entries)[0] && rendered[3] == Frontmatter(entries)[3];
    assert rendered[2] == Frontmatter(entries)[2] && rendered[2][0] == 'd' && FENCE[0] == '-';
    assert AfterFence(rendered, 3) == Some(4);
  }

  lemma RenderedMarks(entries: seq<KindEntry>, committed: Text, marker: string)
    requires Rendered(entries, committed).Some? && marker in {TABLE_START, TABLE_END}
    ensures var rendered, start := Rendered(entries, committed).value, 4 + |Introduction(committed)|;
      StandsOnly(rendered, marker, if marker == TABLE_START then start else start + |Table(entries)| - 1)
  {
    hide IsMarker, Row, Rows, Marked, Table, Frontmatter;
    var rendered := Rendered(entries, committed).value;
    var front, intro, table, rest := Frontmatter(entries), Introduction(committed), Table(entries), Trailing(committed);
    assert |front| == 4 by { FourLines(entries); }
    TableMarks(entries);
    BoundsAreMarkers(committed);
    var (first, last) := TableBounds(committed).value;
    var at := 4 + |intro| + if marker == TABLE_START then 0 else |table| - 1;
    assert IsMarker(rendered[at], marker) by { assert rendered[at] == table[at - 4 - |intro|]; }
    forall i | 0 <= i < |rendered| && i != at ensures !IsMarker(rendered[i], marker) {
      if i < 4 {
        assert rendered[i] == front[i];
        FrontmatterMarksNothing(entries, i);
      } else if i < 4 + |intro| {
        assert rendered[i] == committed[IntroductionStart(committed, first) + i - 4];
      } else if i < 4 + |intro| + |table| {
        assert rendered[i] == table[i - 4 - |intro|];
      } else {
        assert rendered[i] == committed[last + 1 + i - 4 - |intro| - |table|];
      }
    }
  }

  lemma FourLines(entries: seq<KindEntry>)
    ensures |Frontmatter(entries)| == 4
  {
  }

  /** Rendering what was rendered changes nothing, whether or not the committed index had frontmatter. */
  lemma RenderingIsAFixpoint(entries: seq<KindEntry>, committed: Text)
    requires Rendered(entries, committed).Some?
    ensures Rendered(entries, Rendered(entries, committed).value) == Rendered(entries, committed)
  {
    hide IsMarker, Table, Frontmatter, TableBounds, Introduction, Trailing, FrontmatterEnd;
    RenderedParts(entries, committed);
  }

  /** Only the introduction and what follows the table survive: of two committed indexes that agree
      on those, one index is rendered. */
  lemma OnlyTheProseIsKept(entries: seq<KindEntry>, committed: Text, others: seq<KindEntry>)
    requires Rendered(others, committed).Some?
    ensures Rendered(entries, Rendered(others, committed).value) == Rendered(entries, committed)
  {
    hide IsMarker, Table, Frontmatter, TableBounds, Introduction, Trailing, FrontmatterEnd;
    RenderedParts(others, committed);
    assert TableBounds(committed).Some? by { BoundsOfRendered(others, committed); }
  }

  lemma BoundsOfRendered(entries: seq<KindEntry>, committed: Text)
    ensures Rendered(entries, committed).Some? <==> TableBounds(committed).Some?
  {
  }

  /** The frontmatter's date is the newest document's, which the table lists first. */
  lemma {:induction false} NewestIsFirst(documents: seq<KindEntry>)
    requires documents != []
    ensures |Collected(documents)| == |documents|
    ensures Newest(Collected(documents)) == Collected(documents)[0].date
  {
    hide SortByColumn;
    StringsAreOrdered();
    SortedByColumn(documents, DateOf(), StringLe, FilenameLe, true, 0, 0);
    var entries := Collected(documents);
    assert |entries| == |multiset(entries)| == |multiset(documents)| == |documents|;
    forall j | 0 < j < |entries| ensures StringLe(entries[j].date, entries[0].date) {
      SortedByColumn(documents, DateOf(), StringLe, FilenameLe, true, 0, j);
    }
    NewestOf(entries);
  }

  lemma {:induction false} NewestOf(entries: seq<KindEntry>)
    requires entries != [] && forall j :: 0 < j < |entries| ==> StringLe(entries[j].date, entries[0].date)
    ensures Newest(entries) == entries[0].date
  {
    if |entries| > 1 {
      NewestOf(entries[..|entries| - 1]);
    }
  }

  // -- Writing the indexes, and the gate ---------------------------------------------------------

  /** One kind's directory: its documents, in the order their paths are listed, and its index. */
  datatype Directory = Directory(documents: seq<KindEntry>, index: Option<Text>)

  datatype Problem =
    | Untitled(directory: nat, filename: string)
    | Missing(directory: nat)
    | Unmarked(directory: nat)
    | OutOfDate(directory: nat)

  datatype Outcome = Next(text: Text) | Prevented(problem: Problem) | NothingToIndex

  function UntitledIn(directory: nat, entries: seq<KindEntry>): seq<Problem> {
    if entries == [] then []
    else
      UntitledIn(directory, entries[..|entries| - 1]) +
      if entries[|entries| - 1].title == "" then [Untitled(directory, entries[|entries| - 1].filename)] else []
  }

  function Regenerated(n: nat, directory: Directory): Outcome {
    var entries := Collected(directory.documents);
    match directory.index
    case None => if entries == [] then NothingToIndex else Prevented(Missing(n))
    case Some(text) =>
      match Rendered(entries, text)
      case None => Prevented(Unmarked(n))
      case Some(next) => Next(next)
  }

  /** What the gate reports of one directory. */
  function CheckedOne(n: nat, directory: Directory): seq<Problem> {
    var untitled := UntitledIn(n, Collected(directory.documents));
    if untitled != [] then untitled
    else
      match Regenerated(n, directory)
      case NothingToIndex => []
      case Prevented(problem) => [problem]
      case Next(text) => if directory.index != Some(text) then [OutOfDate(n)] else []
  }

  function Checked(directories: seq<Directory>): seq<Problem> {
    if directories == [] then []
    else
      var n := |directories| - 1;
      Checked(directories[..n]) + CheckedOne(n, directories[n])
  }

  // What the gate's report means, in terms of the documents and the index as they stand.

  predicate AllTitled(directory: Directory) {
    forall document :: document in directory.documents ==> document.title != ""
  }

  /** The index is there with one marked table, and is its own rendering; or there is nothing to list. */
  predicate UpToDate(directory: Directory) {
    match directory.index
    case None => directory.documents == []
    case Some(text) => Rendered(Collected(directory.documents), text) == Some(text)
  }

  predicate Stands(directory: Directory, problem: Problem) {
    match problem
    case Untitled(_, filename) =>
      exists document :: document in directory.documents && document.title == "" && document.filename == filename
    case Missing(_) => AllTitled(directory) && directory.index.None? && directory.documents != []
    case Unmarked(_) => AllTitled(directory) && directory.index.Some? && TableBounds(directory.index.value).None?
    case OutOfDate(_) =>
      AllTitled(directory) && directory.index.Some? && TableBounds(directory.index.value).Some? && !UpToDate(directory)
  }

  /** Exactly the problems that stand are reported, directory by directory. */
  ghost predicate ReportsWhatStands(directories: seq<Directory>, problems: seq<Problem>) {
    && (forall problem :: problem in problems <==>
        problem.directory < |directories| && Stands(directories[problem.directory], problem))
    && (forall i, j :: 0 <= i < j < |problems| ==> problems[i].directory <= problems[j].directory)
  }

  lemma CollectedHolds(documents: seq<KindEntry>)
    ensures forall entry :: entry in Collected(documents) <==> entry in documents
    ensures Collected(documents) == [] <==> documents == []
  {
    hide Sort, ColumnLe;
    var entries := Collected(documents);
    assert multiset(entries) == multiset(documents);
    assert |entries| == |multiset(entries)| == |multiset(documents)| == |documents|;
    forall entry ensures entry in entries <==> entry in documents {
      assert entry in multiset(entries) <==> entry in multiset(documents);
    }
  }

  lemma {:induction false} UntitledAre(n: nat, entries: seq<KindEntry>)
    ensures forall problem :: problem in UntitledIn(n, entries) <==>
      problem.Untitled? && problem.directory == n &&
      exists entry :: entry in entries && entry.title == "" && entry.filename == problem.filename
    ensures UntitledIn(n, entries) == [] <==> forall entry :: entry in entries ==> entry.title != ""
  {
    if entries != [] {
      var front, last := entries[..|entries| - 1], entries[|entries| - 1];
      UntitledAre(n, front);
      assert forall entry :: entry in entries <==> entry in front || entry == last by {
        assert entries == front + [last];
      }
    }
  }

  lemma CheckedOneIsWhatStands(n: nat, directory: Directory)
    ensures forall problem ::
      problem in CheckedOne(n, directory) <==> problem.directory == n && Stands(directory, problem)
  {
    hide Collected, UntitledIn, TableBounds, Introduction, Trailing, Table, Frontmatter;
    var entries := Collected(directory.documents);
    CollectedHolds(directory.documents);
    UntitledAre(n, entries);
    assert UntitledIn(n, entries) == [] <==> AllTitled(directory);
    if directory.index.Some? {
      BoundsOfRendered(entries, directory.index.value);
    }
  }

  lemma {:induction false} CheckedIsWhatStands(directories: seq<Directory>)
    ensures ReportsWhatStands(directories, Checked(directories))
  {
    hide CheckedOne, Stands;
    if directories != [] {
      var n := |directories| - 1;
      CheckedIsWhatStands(directories[..n]);
      CheckedOneIsWhatStands(n, directories[n]);
      var before, last := Checked(directories[..n]), CheckedOne(n, directories[n]);
      forall k | 0 <= k < |before| ensures before[k].directory < n {
        assert before[k] in before;
      }
      forall k | 0 <= k < |last| ensures last[k].directory == n {
        assert last[k] in last;
      }
    }
  }

  /** Nothing is reported exactly when every document has a title and every index is up to date. */
  lemma NothingReportedWhenUpToDate(directories: seq<Directory>)
    ensures Checked(directories) == [] <==>
      forall n :: 0 <= n < |directories| ==> AllTitled(directories[n]) && UpToDate(directories[n])
  {
    hide Checked, Stands, AllTitled, UpToDate;
    var problems := Checked(directories);
    CheckedIsWhatStands(directories);
    if problems == [] {
      forall n | 0 <= n < |directories| ensures AllTitled(directories[n]) && UpToDate(directories[n]) {
        OneStands(n, directories[n]);
      }
    } else {
      assert problems[0] in problems;
      NoneStands(problems[0], directories[problems[0].directory]);
    }
  }

  lemma OneStands(n: nat, directory: Directory)
    ensures
      || (AllTitled(directory) && UpToDate(directory))
      || Stands(directory, Missing(n)) || Stands(directory, Unmarked(n)) || Stands(directory, OutOfDate(n))
      || exists filename :: Stands(directory, Untitled(n, filename))
  {
    hide Collected, TableBounds, Rendered;
    if !AllTitled(directory) {
      var document :| document in directory.documents && document.title == "";
      assert Stands(directory, Untitled(n, document.filename));
    }
  }

  lemma NoneStands(problem: Problem, directory: Directory)
    requires Stands(directory, problem)
    ensures !AllTitled(directory) || !UpToDate(directory)
  {
    hide Collected;
    if problem.Unmarked? {
      BoundsOfRendered(Collected(directory.documents), directory.index.value);
    }
  }

  method CheckKindIndexes(directories: seq<Directory>) returns (problems: seq<Problem>)
    ensures problems == Checked(directories) && ReportsWhatStands(directories, problems)
  {
    CheckedIsWhatStands(directories);
    hide Regenerated, Collected, UntitledIn, ReportsWhatStands;
    problems := [];
    for n := 0 to |directories|
      invariant problems == Checked(directories[..n])
    {
      assert directories[..n + 1][..n] == directories[..n];
      var untitled := UntitledIn(n, Collected(directories[n].documents));
      if untitled != [] {
        problems := problems + untitled;
        continue;
      }
      var outcome := Regenerated(n, directories[n]);
      if outcome.NothingToIndex? { continue; }
      if outcome.Prevented? {
        problems := problems + [outcome.problem];
        continue;
      }
      if directories[n].index != Some(outcome.text) {
        problems := problems + [OutOfDate(n)];
      }
    }
    assert directories[..|directories|] == directories;
  }

  /** Rewrite every index that can be, and report each that cannot. Documents are left alone, an
      index is only ever replaced by its regenerated text, and not while a document has no title; and
      the gate then reports exactly the problems reported here: those that still stand. */
  method WriteIndexes(directories: seq<Directory>) returns (written: seq<Directory>, problems: seq<Problem>)
    ensures |written| == |directories|
    ensures forall n :: 0 <= n < |written| ==>
      && written[n].documents == directories[n].documents
      && (written[n].index == directories[n].index ||
          (written[n].index.Some? && Next(written[n].index.value) == Regenerated(n, directories[n])))
      && (!AllTitled(directories[n]) ==> written[n] == directories[n])
    ensures problems == Checked(written) && ReportsWhatStands(written, problems)
    ensures forall problem :: problem in problems ==> !problem.OutOfDate?
  {
    hide Collected, Rendered, UntitledIn, ReportsWhatStands, AllTitled;
    written, problems := [], [];
    for n := 0 to |directories|
      invariant |written| == n
      invariant forall k :: 0 <= k < n ==>
        && written[k].documents == directories[k].documents
        && (written[k].index == directories[k].index ||
            (written[k].index.Some? && Next(written[k].index.value) == Regenerated(k, directories[k])))
        && (!AllTitled(directories[k]) ==> written[k] == directories[k])
      invariant problems == Checked(written)
      invariant forall problem :: problem in problems ==> !problem.OutOfDate?
    {
      var directory := directories[n];
      var untitled := UntitledIn(n, Collected(directory.documents));
      TitledWhen(n, directory);
      var next := directory;
      var added: seq<Problem> := [];
      if untitled != [] {
        UntitledAreNotOutOfDate(n, Collected(directory.documents));
        added := untitled;
      } else {
        var outcome := Regenerated(n, directory);
        if outcome.Prevented? {
          added := [outcome.problem];
        } else if outcome.Next? {
          WrittenIsUpToDate(n, directory);
          next := directory.(index := Some(outcome.text));
        }
      }
      CheckedOneMore(written, next);
      written, problems := written + [next], problems + added;
    }
    CheckedIsWhatStands(written);
  }

  lemma TitledWhen(n: nat, directory: Directory)
    ensures UntitledIn(n, Collected(directory.documents)) == [] <==> AllTitled(directory)
  {
    hide Collected, UntitledIn;
    CollectedHolds(directory.documents);
    UntitledAre(n, Collected(directory.documents));
  }

  lemma CheckedOneMore(directories: seq<Directory>, next: Directory)
    ensures Checked(directories + [next]) == Checked(directories) + CheckedOne(|directories|, next)
  {
  }

  lemma {:induction false} UntitledAreNotOutOfDate(n: nat, entries: seq<KindEntry>)
    ensures forall problem :: problem in UntitledIn(n, entries) ==> problem.Untitled?
  {
    if entries != [] {
      UntitledAreNotOutOfDate(n, entries[..|entries| - 1]);
    }
  }

  /** Once written, an index is what would be written again. */
  lemma WrittenIsUpToDate(n: nat, directory: Directory)
    requires Regenerated(n, directory).Next?
    ensures var text := Regenerated(n, directory).text;
      Regenerated(n, directory.(index := Some(text))) == Next(text)
  {
    hide Collected, Rendered;
    RenderingIsAFixpoint(Collected(directory.documents), directory.index.value);
  }
}
