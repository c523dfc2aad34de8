/** What a reader of a rendered index finds in its table. */
module KindTable {
  import opened Wrappers
  import opened KindIndex

  /** The cells of one line, as a Markdown reader sees them: a bar ends a cell unless a backslash
      stands before it, and then stands for itself. */
  function ReadCells(line: string): (cells: seq<string>)
    ensures cells != []
    decreases |line|
  {
    if line == "" then [""]
    else if line[0] == '\\' && |line| > 1 && line[1] == '|' then Prepend("|", ReadCells(line[2..]))
    else if line[0] == '|' then [""] + ReadCells(line[1..])
    else Prepend([line[0]], ReadCells(line[1..]))
  }

  function Prepend(text: string, cells: seq<string>): (longer: seq<string>)
    requires cells != []
    ensures longer != []
  {
    [text + cells[0]] + cells[1..]
  }

  /** A link's text ends here and its target begins. */
  predicate Joins(text: string, k: int) { 0 <= k < |text| - 1 && text[k] == ']' && text[k + 1] == '(' }

  function LastJoint(link: string): (at: Option<nat>)
    ensures at.None? ==> forall k :: !Joins(link, k)
    ensures at.Some? ==> Joins(link, at.value) && forall k :: k > at.value ==> !Joins(link, k)
  {
    if Joins(link, |link| - 2) then Some(|link| - 2)
    else if |link| < 2 then None
    else
      var front := link[..|link| - 1];
      assert forall k :: Joins(link, k) <==> Joins(front, k) || (k == |link| - 2 && Joins(link, k));
      LastJoint(front)
  }

  /** The text and the target of a link that fills its cell. */
  function ReadLink(cell: string): Option<(string, string)> {
    if |cell| < 4 || cell[..2] != " [" || cell[|cell| - 2..] != ") " then None
    else
      var link := cell[2..|cell| - 2];
      match LastJoint(link)
      case None => None
      case Some(at) => Some((link[..at], link[at + 2..]))
  }

  /** A cell's text without the blank on either side of it. */
  function ReadText(cell: string): Option<string> {
    if |cell| < 2 || cell[0] != ' ' || cell[|cell| - 1] != ' ' then None else Some(cell[1..|cell| - 1])
  }

  /** The document a row lists, under the headings Document, Status and Date. */
  function ReadEntry(row: string): Option<KindEntry> {
    var cells := ReadCells(row);
    if |cells| != 5 || cells[0] != "" || cells[4] != "" then None
    else
      var link, status, date := ReadLink(cells[1]), ReadText(cells[2]), ReadText(cells[3]);
      if link.None? || status.None? || date.None? then None
      else Some(KindEntry(link.value.0, status.value, date.value, link.value.1))
  }

  /** A filename that cannot be taken for the end of its cell or the start of a link's target. */
  ghost predicate Readable(filename: string) {
    '|' !in filename && forall k :: !Joins(filename, k)
  }

  // -- One row -----------------------------------------------------------------------------------

  lemma PrependMore(a: string, b: string, cells: seq<string>)
    requires cells != []
    ensures Prepend(a, Prepend(b, cells)) == Prepend(a + b, cells)
  {
    assert a + (b + cells[0]) == a + b + cells[0];
  }

  lemma PrependNothing(cells: seq<string>)
    requires cells != []
    ensures Prepend("", cells) == cells
  {
    assert "" + cells[0] == cells[0];
  }

  predicate StartsWithBar(text: string) { text != "" && text[0] == '|' }

  lemma EscapedStart(cell: string, rest: string)
    requires !StartsWithBar(rest)
    ensures !StartsWithBar(EscapeCell(cell) + rest)
  {
  }

  /** An escaped text is read back whole, whatever follows it but a bar. */
  lemma {:induction false} EscapedIsRead(cell: string, rest: string)
    requires !StartsWithBar(rest)
    ensures ReadCells(EscapeCell(cell) + rest) == Prepend(cell, ReadCells(rest))
  {
    if cell == "" {
      PrependNothing(ReadCells(rest));
      assert EscapeCell(cell) + rest == rest;
    } else {
      var first := if cell[0] == '|' then "\\|" else [cell[0]];
      var tail := EscapeCell(cell[1..]) + rest;
      EscapedIsRead(cell[1..], rest);
      EscapedStart(cell[1..], rest);
      assert EscapeCell(cell) + rest == first + tail;
      assert (first + tail)[|first|..] == tail;
      PrependMore([cell[0]], cell[1..], ReadCells(rest));
      assert [cell[0]] + cell[1..] == cell;
    }
  }

  /** So is a text without bars. */
  lemma {:induction false} PlainIsEscaped(text: string)
    requires '|' !in text
    ensures EscapeCell(text) == text
  {
    if text != "" {
      PlainIsEscaped(text[1..]);
    }
  }

  lemma BarIsRead(rest: string)
    ensures ReadCells("|" + rest) == [""] + ReadCells(rest)
    ensures ReadCells(" " + rest) == Prepend(" ", ReadCells(rest))
  {
    assert ("|" + rest)[1..] == rest && (" " + rest)[1..] == rest;
  }

  /** One more cell in front of those of `rest`. */
  lemma CellIsRead(text: string, rest: string)
    ensures ReadCells(" " + EscapeCell(text) + " |" + rest) == [" " + text + " "] + ReadCells(rest)
  {
    hide ReadCells, EscapeCell;
    var closed := " " + ("|" + rest);
    BarIsRead(rest);
    BarIsRead("|" + rest);
    EscapedIsRead(text, closed);
    BarIsRead(EscapeCell(text) + closed);
    assert " " + EscapeCell(text) + " |" + rest == " " + (EscapeCell(text) + closed);
    assert " " + (text + (" " + "")) == " " + text + " ";
  }

  /** A text without bars and backslashes is read as it stands, even before a bar. */
  lemma {:induction false} PlainIsRead(text: string, rest: string)
    requires '|' !in text && '\\' !in text
    ensures ReadCells(text + rest) == Prepend(text, ReadCells(rest))
  {
    if text == "" {
      PrependNothing(ReadCells(rest));
      assert text + rest == rest;
    } else {
      PlainIsRead(text[1..], rest);
      assert (text + rest)[1..] == text[1..] + rest;
      PrependMore([text[0]], text[1..], ReadCells(rest));
      assert [text[0]] + text[1..] == text;
    }
  }

  /** A link fills its cell; its target is not escaped. */
  lemma LinkIsRead(text: string, target: string, rest: string)
    requires '|' !in target
    ensures ReadCells(" [" + EscapeCell(text) + "](" + target + ") |" + rest) ==
      [" [" + text + "](" + target + ") "] + ReadCells(rest)
  {
    hide ReadCells, EscapeCell;
    var closed := ") " + ("|" + rest);
    BarIsRead(rest);
    PlainIsRead(") ", "|" + rest);
    PlainIsEscaped(target);
    EscapedIsRead(target, closed);
    var linked := "](" + (target + closed);
    PlainIsRead("](", target + closed);
    EscapedIsRead(text, linked);
    PlainIsRead(" [", EscapeCell(text) + linked);
    assert " [" + EscapeCell(text) + "](" + target + ") |" + rest == " [" + (EscapeCell(text) + linked);
    assert " [" + (text + ("](" + (target + (") " + "")))) == " [" + text + "](" + target + ") ";
  }

  function CellsOf(entry: KindEntry): seq<string> {
    ["", " [" + entry.title + "](" + entry.filename + ") ", " " + entry.status + " ", " " + entry.date + " ", ""]
  }

  lemma RowIsRead(entry: KindEntry)
    requires '|' !in entry.filename
    ensures ReadCells(Row(entry)) == CellsOf(entry)
  {
    hide ReadCells, EscapeCell;
    var date := " " + EscapeCell(entry.date) + " |" + "";
    var status := " " + EscapeCell(entry.status) + " |" + date;
    var link := " [" + EscapeCell(entry.title) + "](" + entry.filename + ") |" + status;
    NothingIsRead();
    CellIsRead(entry.date, "");
    CellIsRead(entry.status, date);
    LinkIsRead(entry.title, entry.filename, status);
    BarIsRead(link);
    assert Row(entry) == "|" + link;
  }

  lemma NothingIsRead()
    ensures ReadCells("") == [""]
  {
  }

  /** The cells a document is read from are its own, but for where its link is taken to be joined. */
  lemma EntryIsOfItsCells(row: string, entry: KindEntry)
    ensures ReadEntry(row) == Some(entry) ==> ReadCells(row) == CellsOf(entry)
    ensures ReadCells(row) == CellsOf(entry) ==>
      (ReadEntry(row) == Some(entry) <==> ReadLink(CellsOf(entry)[1]) == Some((entry.title, entry.filename)))
  {
    hide ReadCells, LastJoint;
    var cells := ReadCells(row);
    if ReadEntry(row) == Some(entry) {
      LinkFillsItsCell(cells[1], entry.title, entry.filename);
      TextFillsItsCell(cells[2], entry.status);
      TextFillsItsCell(cells[3], entry.date);
      assert cells == [cells[0], cells[1], cells[2], cells[3], cells[4]];
    }
    TextFillsItsCell(CellsOf(entry)[2], entry.status);
    TextFillsItsCell(CellsOf(entry)[3], entry.date);
  }

  lemma TextFillsItsCell(cell: string, text: string)
    ensures ReadText(cell) == Some(text) <==> cell == " " + text + " "
  {
    if ReadText(cell) == Some(text) {
      assert cell == [cell[0]] + cell[1..|cell| - 1] + [cell[|cell| - 1]];
    }
  }

  lemma LinkFillsItsCell(cell: string, text: string, target: string)
    requires ReadLink(cell) == Some((text, target))
    ensures cell == " [" + text + "](" + target + ") "
  {
    var link := cell[2..|cell| - 2];
    assert cell == cell[..2] + link + cell[|cell| - 2..];
    var at := LastJoint(link).value;
    assert link == link[..at] + [link[at], link[at + 1]] + link[at + 2..];
  }

  /** Text and target are told apart exactly when the target holds no such joint. */
  lemma LinkIsTakenApart(text: string, target: string)
    ensures ReadLink(" [" + text + "](" + target + ") ") == Some((text, target)) <==> forall k :: !Joins(target, k)
  {
    hide LastJoint;
    var cell := " [" + text + "](" + target + ") ";
    var link := text + "](" + target;
    assert cell == " [" + link + ") " && cell[2..|cell| - 2] == link;
    assert Joins(link, |text|);
    assert forall k :: Joins(target, k) <==> k >= 0 && Joins(link, |text| + 2 + k);
    assert !Joins(link, |text| + 1);
    var at := LastJoint(link).value;
    if at == |text| {
      assert link[..at] == text && link[at + 2..] == target;
      forall k ensures !Joins(target, k) {
        assert k >= 0 ==> !Joins(link, |text| + 2 + k);
      }
    } else {
      assert Joins(target, at - |text| - 2);
      assert |link[..at]| != |text|;
    }
  }

  // -- A bar in a filename -----------------------------------------------------------------------

  function Bars(text: string): nat { if text == "" then 0 else (if text[0] == '|' then 1 else 0) + Bars(text[1..]) }

  function BarsIn(cells: seq<string>): nat { if cells == [] then 0 else Bars(cells[0]) + BarsIn(cells[1..]) }

  function Length(cells: seq<string>): nat { if cells == [] then 0 else |cells[0]| + Length(cells[1..]) }

  lemma {:induction false} BarsJoin(a: string, b: string)
    ensures Bars(a + b) == Bars(a) + Bars(b)
  {
    if a == "" {
      assert a + b == b;
    } else {
      BarsJoin(a[1..], b);
      assert (a + b)[1..] == a[1..] + b;
    }
  }

  lemma {:induction false} NoBars(text: string)
    ensures Bars(text) == 0 <==> '|' !in text
  {
    if text != "" {
      NoBars(text[1..]);
    }
  }

  lemma {:induction false} EscapedLength(text: string)
    ensures |EscapeCell(text)| == |text| + Bars(text)
  {
    if text != "" {
      EscapedLength(text[1..]);
    }
  }

  /** A line is as long as what is read from it, the bars between, and the escapes before the others. */
  lemma {:induction false} LineAccount(line: string)
    ensures var cells := ReadCells(line); |line| == Length(cells) + |cells| - 1 + BarsIn(cells)
    decreases |line|
  {
    if line == "" {
      assert ReadCells(line)[1..] == [];
    } else if line[0] == '\\' && |line| > 1 && line[1] == '|' {
      LineAccount(line[2..]);
      BarsJoin("|", ReadCells(line[2..])[0]);
    } else {
      LineAccount(line[1..]);
      BarsJoin([line[0]], ReadCells(line[1..])[0]);
    }
  }

  lemma OwnCellsHoldNoBar(entry: KindEntry)
    requires ReadCells(Row(entry)) == CellsOf(entry)
    ensures '|' !in entry.filename
  {
    hide ReadCells, EscapeCell, Bars;
    LineAccount(Row(entry));
    EscapedLength(entry.title);
    EscapedLength(entry.status);
    EscapedLength(entry.date);
    FiveCells(CellsOf(entry));
    TextBars(" ", entry.status, " ");
    TextBars(" ", entry.date, " ");
    TextBars(" [", entry.title, "](");
    TextBars(" [" + entry.title + "](", entry.filename, ") ");
    NoBars(" ");
    NoBars(" [");
    NoBars("](");
    NoBars(") ");
    NoBars("");
    NoBars(entry.filename);
  }

  lemma FiveCells(cells: seq<string>)
    requires |cells| == 5
    ensures Length(cells) == |cells[0]| + |cells[1]| + |cells[2]| + |cells[3]| + |cells[4]|
    ensures BarsIn(cells) == Bars(cells[0]) + Bars(cells[1]) + Bars(cells[2]) + Bars(cells[3]) + Bars(cells[4])
  {
    hide Bars;
    assert cells[1..][1..] == cells[2..] && cells[2..][1..] == cells[3..];
    assert cells[3..][1..] == cells[4..] && cells[4..][1..] == [];
    assert BarsIn(cells[4..]) == Bars(cells[4]) && BarsIn(cells[3..]) == Bars(cells[3]) + Bars(cells[4]);
    assert Length(cells[4..]) == |cells[4]| && Length(cells[3..]) == |cells[3]| + |cells[4]|;
    assert BarsIn(cells[2..]) == Bars(cells[2]) + BarsIn(cells[3..]);
    assert Length(cells[2..]) == |cells[2]| + Length(cells[3..]);
    assert BarsIn(cells[1..]) == Bars(cells[1]) + BarsIn(cells[2..]);
    assert Length(cells[1..]) == |cells[1]| + Length(cells[2..]);
  }

  lemma TextBars(a: string, b: string, c: string)
    ensures Bars(a + b + c) == Bars(a) + Bars(b) + Bars(c)
  {
    BarsJoin(a + b, c);
    BarsJoin(a, b);
  }

  /** A row is read back as its document exactly when its filename is readable. */
  lemma RowReadsBack(entry: KindEntry)
    ensures ReadEntry(Row(entry)) == Some(entry) <==> Readable(entry.filename)
  {
    hide ReadCells, ReadLink, Row, Joins, ReadEntry;
    EntryIsOfItsCells(Row(entry), entry);
    LinkIsTakenApart(entry.title, entry.filename);
    if ReadCells(Row(entry)) == CellsOf(entry) {
      OwnCellsHoldNoBar(entry);
    } else if '|' !in entry.filename {
      RowIsRead(entry);
    }
  }

  // -- The whole table ---------------------------------------------------------------------------

  const HEADING := "| Document | Status | Date |"
  const DELIMITERS := "| --- | --- | --- |"

  /** The rows between a rendered text's markers: after a blank line, the heading and its delimiters,
      and up to the blank line before the closing marker. */
  ghost predicate HasTable(text: Text, start: nat, rows: nat) {
    && start + rows + 5 < |text|
    && text[start] == TABLE_START && text[start + 1] == "" && text[start + 2] == HEADING
    && text[start + 3] == DELIMITERS
    && text[start + 4 + rows] == "" && text[start + 5 + rows] == TABLE_END
  }

  /** A reader of a rendered index finds, between the two markers and under the heading, one row for
      each document, in the order collected; and each is read back as its document exactly when its
      filename is readable. */
  lemma RenderedListsEveryDocument(documents: seq<KindEntry>, committed: Text, i: nat)
    requires Rendered(Collected(documents), committed).Some?
    ensures var entries, rendered := Collected(documents), Rendered(Collected(documents), committed).value;
      && |entries| == |documents|
      && TableBounds(rendered).Some?
      && var (start, end) := TableBounds(rendered).value;
        && end == start + |documents| + 5 && HasTable(rendered, start, |documents|)
        && (i < |documents| ==>
            (ReadEntry(rendered[start + 4 + i]) == Some(entries[i]) <==> Readable(entries[i].filename)))
  {
    hide IsMarker, Row, ReadEntry, Readable, Collected, Rendered, HasTable;
    var entries := Collected(documents);
    CollectedAreTheDocuments(documents);
    RenderedTable(entries, committed);
    if i < |documents| {
      RowReadsBack(entries[i]);
    }
  }

  /** Its frontmatter gives the newest document's date, or none. */
  lemma RenderedFrontmatter(documents: seq<KindEntry>, committed: Text)
    requires Rendered(Collected(documents), committed).Some?
    ensures var rendered := Rendered(Collected(documents), committed).value;
      && |rendered| > 4 && rendered[0] == "---" && rendered[1] == "status: living" && rendered[3] == "---"
      && (documents == [] ==> rendered[2] == "date: ")
      && (documents != [] ==> |Collected(documents)| > 0 && rendered[2] == "date: " + Collected(documents)[0].date)
  {
    hide IsMarker, Collected, Rendered, HasTable, StringLe;
    CollectedAreTheDocuments(documents);
    var entries := Collected(documents);
    var rendered := Rendered(entries, committed).value;
    RenderedTable(entries, committed);
    assert rendered[..4][0] == rendered[0] && rendered[..4][1] == rendered[1];
    assert rendered[..4][2] == rendered[2] && rendered[..4][3] == rendered[3];
    if documents != [] { NewestIsFirst(documents); }
  }

  lemma CollectedAreTheDocuments(documents: seq<KindEntry>)
    ensures |Collected(documents)| == |documents|
  {
    assert |multiset(Collected(documents))| == |multiset(documents)|;
  }

  lemma RenderedTable(entries: seq<KindEntry>, committed: Text)
    requires Rendered(entries, committed).Some?
    ensures var rendered := Rendered(entries, committed).value;
      && TableBounds(rendered).Some?
      && var (start, end) := TableBounds(rendered).value;
        && start >= 4 && end == start + |entries| + 5 && HasTable(rendered, start, |entries|)
        && (forall i :: 0 <= i < |entries| ==> rendered[start + 4 + i] == Row(entries[i]))
        && |rendered| > 4 && rendered[..4] == Frontmatter(entries)
  {
    hide IsMarker, Row, Marked;
    var rendered := Rendered(entries, committed).value;
    var intro, table := Introduction(committed), Table(entries);
    var start := 4 + |intro|;
    RenderedMarks(entries, committed, TABLE_START);
    RenderedMarks(entries, committed, TABLE_END);
    BoundsWhere(rendered, start, start + |table| - 1);
    assert rendered[start..start + |table|] == table;
  }
}
