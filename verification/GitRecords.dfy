/** Reading what Git prints between NULs: refs of fixed fields, and worktrees of keys and values. */
module GitRecords {
  const NUL := '\U{0000}'

  predicate Free(text: string, c: char) { c !in text }

  /** The same parts, the last of them longer by `c`. */
  function Lengthened(parts: seq<string>, c: char): (longer: seq<string>)
    requires |parts| >= 1
    ensures |longer| == |parts|
  {
    parts[..|parts| - 1] + [parts[|parts| - 1] + [c]]
  }

  /** Python's `split` on NUL: always at least one part. */
  function Split(text: string): (parts: seq<string>)
    ensures |parts| >= 1
  {
    if text == "" then [""]
    else
      var before := Split(text[..|text| - 1]);
      if text[|text| - 1] == NUL then before + [""] else Lengthened(before, text[|text| - 1])
  }

  lemma SplitOneMore(text: string, c: char)
    ensures Split(text + [c]) == if c == NUL then Split(text) + [""] else Lengthened(Split(text), c)
    ensures Split("") == [""]
  {
  }

  lemma {:induction false} SplitOfFree(text: string)
    requires Free(text, NUL)
    ensures Split(text) == [text]
  {
    hide Split;
    if text == "" {
      SplitOneMore("", NUL);
    } else {
      var front, c := text[..|text| - 1], text[|text| - 1];
      assert text == front + [c] && c in text;
      SplitOfFree(front);
      SplitOneMore(front, c);
      assert Lengthened([front], c) == [front + [c]];
    }
  }

  lemma LengthenedAfter(before: seq<string>, after: seq<string>, c: char)
    requires |after| >= 1
    ensures Lengthened(before + after, c) == before + Lengthened(after, c)
  {
  }

  /** Each NUL ends a part, whatever follows. */
  lemma {:induction false} SplitAfter(text: string, rest: string)
    ensures Split(text + [NUL] + rest) == Split(text) + Split(rest)
  {
    hide *;
    if rest == "" {
      assert text + [NUL] + rest == text + [NUL];
      SplitOneMore(text, NUL);
    } else {
      var front, c := rest[..|rest| - 1], rest[|rest| - 1];
      assert rest == front + [c];
      SplitAfter(text, front);
      SplitOneMore(text + [NUL] + front, c);
      SplitOneMore(front, c);
      assert text + [NUL] + front + [c] == text + [NUL] + rest;
      if c != NUL {
        LengthenedAfter(Split(text), Split(front), c);
      } else {
        assert Split(text) + Split(front) + [""] == Split(text) + (Split(front) + [""]);
      }
    }
  }

  // -- Refs --------------------------------------------------------------------------------------

  function PrintFields(fields: seq<string>): string {
    if fields == [] then "" else fields[0] + [NUL] + PrintFields(fields[1..])
  }

  /** What `for-each-ref` prints: each record's fields, a NUL after each, and a line break. */
  function PrintRefs(records: seq<seq<string>>): string {
    if records == [] then "" else PrintFields(records[0]) + "\n" + PrintRefs(records[1..])
  }

  function RemovePrefix(text: string, prefix: string): string {
    if prefix <= text then text[|prefix|..] else text
  }

  /** The records in the parts left, the first of them at the front of the output or not. */
  function ListedFrom(parts: seq<string>, width: nat, front: bool): seq<seq<string>>
    requires width > 0
  {
    if |parts| <= 1 || |parts| < width then []
    else
      var record := parts[..width];
      [if front then record else record[0 := RemovePrefix(record[0], "\n")]] + ListedFrom(parts[width..], width, false)
  }

  lemma OneMoreListed(parts: seq<string>, start: nat, width: nat)
    requires width > 0 && start <= |parts|
    ensures |parts| - start <= 1 || |parts| - start < width ==> ListedFrom(parts[start..], width, start == 0) == []
    ensures |parts| - start > 1 && |parts| - start >= width ==>
      var record := parts[start..start + width];
      ListedFrom(parts[start..], width, start == 0) ==
        [if start == 0 then record else record[0 := RemovePrefix(record[0], "\n")]] +
        ListedFrom(parts[start + width..], width, false)
  {
    if |parts| - start >= width {
      assert parts[start..][..width] == parts[start..start + width];
      assert parts[start..][width..] == parts[start + width..];
    }
  }

  method Records(stdout: string, width: nat) returns (listed: seq<seq<string>>)
    requires width > 0
    ensures listed == ListedFrom(Split(stdout), width, true)
  {
    hide Split, ListedFrom;
    var parts := Split(stdout);
    listed := [];
    var start := 0;
    assert parts[0..] == parts;
    while start < |parts| - 1
      invariant start <= |parts|
      invariant ListedFrom(parts, width, true) == listed + ListedFrom(parts[start..], width, start == 0)
    {
      OneMoreListed(parts, start, width);
      if |parts| - start < width {
        break;
      }
      var record := parts[start..start + width];
      if start > 0 {
        record := record[0 := RemovePrefix(record[0], "\n")];
      }
      listed := listed + [record];
      start := start + width;
    }
    OneMoreListed(parts, start, width);
  }

  predicate Printable(record: seq<string>, width: nat) {
    |record| == width && forall i :: 0 <= i < |record| ==> Free(record[i], NUL)
  }

  lemma {:induction false} SplitFields(fields: seq<string>, rest: string)
    requires forall i :: 0 <= i < |fields| ==> Free(fields[i], NUL)
    ensures Split(PrintFields(fields) + rest) == fields + Split(rest)
  {
    hide Split;
    if fields == [] {
      assert PrintFields(fields) + rest == rest;
    } else {
      var more := PrintFields(fields[1..]) + rest;
      assert PrintFields(fields) + rest == fields[0] + [NUL] + more;
      SplitAfter(fields[0], more);
      SplitOfFree(fields[0]);
      SplitFields(fields[1..], rest);
    }
  }

  /** A line break before a record lands at the front of its first field, and nowhere else. */
  lemma SplitShifted(record: seq<string>, rest: string)
    requires record != [] && forall i :: 0 <= i < |record| ==> Free(record[i], NUL)
    ensures Split("\n" + PrintFields(record) + rest) == record[0 := "\n" + record[0]] + Split(rest)
  {
    var shifted := record[0 := "\n" + record[0]];
    assert shifted[1..] == record[1..];
    assert "\n" + PrintFields(record) + rest == PrintFields(shifted) + rest;
    SplitFields(shifted, rest);
  }

  /** The records still to come, past the line break that ended the one before. */
  lemma {:induction false} LaterRefsRoundTrip(records: seq<seq<string>>, width: nat)
    requires width > 0 && forall i :: 0 <= i < |records| ==> Printable(records[i], width)
    ensures ListedFrom(Split("\n" + PrintRefs(records)), width, false) == records
  {
    if records == [] {
      assert "\n" + PrintRefs(records) == "\n";
      SplitOfFree("\n");
    } else {
      var record, rest := records[0], "\n" + PrintRefs(records[1..]);
      assert "\n" + PrintRefs(records) == "\n" + PrintFields(record) + rest;
      SplitShifted(record, rest);
      LaterRefsRoundTrip(records[1..], width);
      ReadsOneRecord(record[0 := "\n" + record[0]], Split(rest), width, false);
      assert RemovePrefix("\n" + record[0], "\n") == record[0];
      assert record[0 := "\n" + record[0]][0 := record[0]] == record;
      assert records == [record] + records[1..];
    }
  }

  lemma ReadsOneRecord(record: seq<string>, rest: seq<string>, width: nat, front: bool)
    requires |record| == width > 0 && |rest| >= 1
    ensures ListedFrom(record + rest, width, front) ==
      [if front then record else record[0 := RemovePrefix(record[0], "\n")]] + ListedFrom(rest, width, false)
  {
  }

  /** Reading undoes printing for every list of records of one width, whatever line breaks their
      fields hold. */
  lemma RefsRoundTrip(records: seq<seq<string>>, width: nat)
    requires width > 0 && forall i :: 0 <= i < |records| ==> Printable(records[i], width)
    ensures ListedFrom(Split(PrintRefs(records)), width, true) == records
  {
    if records != [] {
      var record, rest := records[0], "\n" + PrintRefs(records[1..]);
      assert PrintRefs(records) == PrintFields(record) + rest;
      SplitFields(record, rest);
      LaterRefsRoundTrip(records[1..], width);
      ReadsOneRecord(record, Split(rest), width, true);
      assert records == [record] + records[1..];
    }
  }

  // -- Worktrees ---------------------------------------------------------------------------------

  datatype Field = Field(key: string, value: string)

  /** A key without a value is printed alone. */
  function PrintField(field: Field): string {
    if field.value == "" then field.key else field.key + " " + field.value
  }

  function Lines(record: seq<Field>): seq<string> {
    if record == [] then [] else [PrintField(record[0])] + Lines(record[1..])
  }

  /** What `worktree list -z` prints: each record's lines, a NUL after each and one more after all. */
  function PrintWorktrees(records: seq<seq<Field>>): string {
    if records == [] then "" else PrintFields(Lines(records[0])) + [NUL] + PrintWorktrees(records[1..])
  }

  /** Where the first space is, or the end. */
  function FirstSpace(text: string): (at: nat)
    ensures at <= |text|
  {
    if text == "" || text[0] == ' ' then 0 else 1 + FirstSpace(text[1..])
  }

  function Partition(line: string): Field {
    var at := FirstSpace(line);
    if at < |line| then Field(line[..at], line[at + 1..]) else Field(line, "")
  }

  function ParsedFrom(lines: seq<string>, current: map<string, string>): seq<map<string, string>> {
    if lines == [] then if current != map[] then [current] else []
    else if lines[0] == "" then
      (if current != map[] then [current] else []) + ParsedFrom(lines[1..], map[])
    else
      var field := Partition(lines[0]);
      ParsedFrom(lines[1..], current[field.key := field.value])
  }

  method ParseWorktreeRecords(raw: string) returns (records: seq<map<string, string>>)
    ensures records == ParsedFrom(Split(raw), map[])
  {
    var lines := Split(raw);
    records := [];
    var current: map<string, string> := map[];
    assert lines[0..] == lines;
    for i := 0 to |lines|
      invariant ParsedFrom(lines, map[]) == records + ParsedFrom(lines[i..], current)
    {
      var line := lines[i];
      assert lines[i..][0] == line && lines[i..][1..] == lines[i + 1..];
      if line == "" {
        if current != map[] {
          records := records + [current];
          current := map[];
        }
        continue;
      }
      var field := Partition(line);
      current := current[field.key := field.value];
    }
    if current != map[] {
      records := records + [current];
    }
  }

  predicate WellKeyed(field: Field) {
    field.key != "" && Free(field.key, ' ') && Free(field.key, NUL) && Free(field.value, NUL)
  }

  predicate Worktree(record: seq<Field>) {
    record != [] && forall i :: 0 <= i < |record| ==> WellKeyed(record[i])
  }

  /** A record as a dictionary: of one key printed twice, the later value. */
  function AsMap(record: seq<Field>): map<string, string> {
    if record == [] then map[] else AsMap(record[..|record| - 1])[record[|record| - 1].key := record[|record| - 1].value]
  }

  lemma {:induction false} SpaceAfter(key: string, rest: string)
    requires Free(key, ' ') && (rest == "" || rest[0] == ' ')
    ensures FirstSpace(key + rest) == |key|
  {
    if key == "" {
      assert key + rest == rest;
    } else {
      assert key[0] in key && (key + rest)[1..] == key[1..] + rest;
      SpaceAfter(key[1..], rest);
    }
  }

  lemma PartitionUndoesPrinting(field: Field)
    requires WellKeyed(field)
    ensures Partition(PrintField(field)) == field && PrintField(field) != "" && Free(PrintField(field), NUL)
  {
    if field.value == "" {
      SpaceAfter(field.key, "");
      assert field.key + "" == field.key;
    } else {
      SpaceAfter(field.key, " " + field.value);
      assert field.key + (" " + field.value) == PrintField(field);
    }
  }

  lemma {:induction false} LinesAreFree(record: seq<Field>)
    requires forall i :: 0 <= i < |record| ==> WellKeyed(record[i])
    ensures |Lines(record)| == |record| && forall i :: 0 <= i < |record| ==> Free(Lines(record)[i], NUL)
  {
    if record != [] {
      PartitionUndoesPrinting(record[0]);
      LinesAreFree(record[1..]);
    }
  }

  /** The dictionary so far, and the rest of the record still to be read. */
  function Extended(current: map<string, string>, record: seq<Field>): map<string, string>
    decreases |record|
  {
    if record == [] then current else Extended(current[record[0].key := record[0].value], record[1..])
  }

  lemma {:induction false} ReadsOneWorktree(record: seq<Field>, rest: seq<string>, current: map<string, string>)
    requires forall i :: 0 <= i < |record| ==> WellKeyed(record[i])
    requires current != map[] || record != []
    ensures ParsedFrom(Lines(record) + [""] + rest, current) == [Extended(current, record)] + ParsedFrom(rest, map[])
  {
    var lines := Lines(record) + [""] + rest;
    if record == [] {
      assert lines[0] == "" && lines[1..] == rest;
    } else {
      PartitionUndoesPrinting(record[0]);
      assert lines[0] == PrintField(record[0]) && lines[1..] == Lines(record[1..]) + [""] + rest;
      var next := current[record[0].key := record[0].value];
      assert record[0].key in next;
      ReadsOneWorktree(record[1..], rest, next);
    }
  }

  lemma {:induction false} ExtendedIsAsMap(record: seq<Field>, current: seq<Field>)
    ensures Extended(AsMap(current), record) == AsMap(current + record)
    decreases |record|
  {
    if record == [] {
      assert current + record == current;
    } else {
      var next := current + [record[0]];
      assert next[..|next| - 1] == current;
      ExtendedIsAsMap(record[1..], next);
      assert next + record[1..] == current + record;
    }
  }

  function AsMaps(records: seq<seq<Field>>): seq<map<string, string>> {
    if records == [] then [] else [AsMap(records[0])] + AsMaps(records[1..])
  }

  lemma OneWorktreeParses(record: seq<Field>, rest: string)
    requires Worktree(record)
    ensures ParsedFrom(Split(PrintFields(Lines(record)) + [NUL] + rest), map[]) ==
      [AsMap(record)] + ParsedFrom(Split(rest), map[])
  {
    hide Split, Lines, PrintFields, ParsedFrom, Extended, AsMap;
    var lines := Lines(record);
    LinesAreFree(record);
    SplitFields(lines, [NUL] + rest);
    SplitAfter("", rest);
    SplitOneMore("", NUL);
    assert "" + [NUL] + rest == [NUL] + rest;
    assert PrintFields(lines) + [NUL] + rest == PrintFields(lines) + ([NUL] + rest);
    assert lines + ([""] + Split(rest)) == lines + [""] + Split(rest);
    ReadsOneWorktree(record, Split(rest), map[]);
    assert AsMap([]) == map[] by { NoFields(); }
    ExtendedIsAsMap(record, []);
    assert [] + record == record;
  }

  lemma NoFields()
    ensures AsMap([]) == map[]
  {
  }

  /** Parsing undoes printing for every list of worktrees, flags read as an empty value. */
  lemma {:induction false} WorktreesRoundTrip(records: seq<seq<Field>>)
    requires forall i :: 0 <= i < |records| ==> Worktree(records[i])
    ensures ParsedFrom(Split(PrintWorktrees(records)), map[]) == AsMaps(records)
  {
    if records == [] {
      NothingParsed();
    } else {
      hide Split, ParsedFrom;
      OneWorktreeParses(records[0], PrintWorktrees(records[1..]));
      WorktreesRoundTrip(records[1..]);
    }
  }

  lemma NothingParsed()
    ensures ParsedFrom(Split(""), map[]) == []
  {
  }

  /** With distinct keys, the dictionary holds every printed value and nothing else. */
  lemma {:induction false} EveryValueIsKept(record: seq<Field>, key: string)
    requires forall i, j :: 0 <= i < j < |record| ==> record[i].key != record[j].key
    ensures key in AsMap(record) <==> exists i :: 0 <= i < |record| && record[i].key == key
    ensures forall i :: 0 <= i < |record| && record[i].key == key ==> AsMap(record)[key] == record[i].value
  {
    if record != [] {
      EveryValueIsKept(record[..|record| - 1], key);
    }
  }
}
