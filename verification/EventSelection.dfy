/** Which Runtime Events a reader keeps, asked of raw lines and of validated events. */
module EventSelection {
  import opened Wrappers

  datatype Level = Standard | Full

  // What kind of body an event carries, as far as an outcome depends on it.
  datatype BodyKind = Bookkeeping | ProcessEnd | SpanEnded | OtherBody

  /** A decoded line naming a known event. `valid` is the strict reader's verdict on it and
      `known` the names its kind of span keeps among the attributes. */
  datatype RawFields = RawFields(
    kind: BodyKind,
    level: Option<Level>,
    run: Option<string>,
    stamp: Option<int>,
    exitCode: Option<int>,
    failed: bool,
    values: map<string, string>,
    attributes: Option<map<string, string>>,
    known: set<string>,
    valid: bool)

  datatype Event = Event(
    kind: BodyKind,
    level: Level,
    run: string,
    time: int,
    exitCode: int,
    failed: bool,
    values: map<string, string>,
    attributes: Option<map<string, string>>)

  datatype Line = Undecodable | Decoded(fields: RawFields)

  datatype Selection = Selection(
    identities: map<string, string>,
    since: Option<int>,
    level: Option<Level>,
    excludeRun: Option<string>,
    outcomesOnly: bool)

  /** The strict reader: an event's values are its line's values unchanged. */
  function Validated(fields: RawFields): Option<Event> {
    if fields.valid && fields.level.Some? && fields.run.Some? && fields.stamp.Some?
       && (fields.kind == ProcessEnd ==> fields.exitCode.Some?)
    then
      Some(Event(fields.kind, fields.level.value, fields.run.value, fields.stamp.value,
                 fields.exitCode.GetOr(0), fields.failed, fields.values,
                 match fields.attributes
                 case None => None
                 case Some(a) => Some(map name | name in a && name in fields.known :: a[name])))
    else None
  }

  predicate IsOutcome(event: Event) {
    match event.kind
    case Bookkeeping => false
    case ProcessEnd => event.exitCode != 0
    case SpanEnded => event.failed
    case OtherBody => event.level == Standard
  }

  predicate MayBeOutcome(fields: RawFields) {
    match fields.kind
    case Bookkeeping => false
    case ProcessEnd => fields.exitCode != Some(0)
    case SpanEnded => fields.failed
    case OtherBody => fields.level == Some(Standard)
  }

  predicate Holds(values: map<string, string>, name: string, value: string) {
    name in values && values[name] == value
  }

  predicate MayAdmit(selection: Selection, fields: RawFields) {
    && !(selection.level == Some(Standard) && fields.level != Some(Standard))
    && !(selection.excludeRun.Some? && fields.run == selection.excludeRun)
    && !(selection.since.Some? && fields.stamp.Some? && fields.stamp.value < selection.since.value)
    && !(selection.outcomesOnly && !MayBeOutcome(fields))
    && forall name :: name in selection.identities ==>
         || Holds(fields.values, name, selection.identities[name])
         || (fields.attributes.Some?
             && Holds(fields.attributes.value, name, selection.identities[name]))
  }

  predicate Admits(selection: Selection, event: Event) {
    && !(selection.level == Some(Standard) && event.level != Standard)
    && !(selection.excludeRun.Some? && event.run == selection.excludeRun.value)
    && !(selection.since.Some? && event.time < selection.since.value)
    && !(selection.outcomesOnly && !IsOutcome(event))
    && var fields := event.values + event.attributes.GetOr(map[]);
       forall name :: name in selection.identities ==> Holds(fields, name, selection.identities[name])
  }

  /** What reading a line means: validate it, then keep it if the selection admits the event. */
  function Selected(selection: Selection, line: Line): (kept: seq<Event>) {
    match line
    case Undecodable => []
    case Decoded(fields) =>
      match Validated(fields)
      case None => []
      case Some(event) => if Admits(selection, event) then [event] else []
  }

  /** The raw fields never refuse a line whose event the selection keeps. */
  lemma AdmittedPassesRawFields(selection: Selection, fields: RawFields, event: Event)
    requires Validated(fields) == Some(event) && Admits(selection, event)
    ensures MayAdmit(selection, fields)
  {
  }

  /** And they refuse every other, where the strict reader drops no attribute and none hides a value. */
  lemma RawFieldsAreExact(selection: Selection, fields: RawFields, event: Event)
    requires Validated(fields) == Some(event)
    requires fields.attributes.Some? ==>
      fields.attributes.value.Keys <= fields.known && fields.attributes.value.Keys !! fields.values.Keys
    ensures MayAdmit(selection, fields) <==> Admits(selection, event)
  {
    if fields.attributes.Some? {
      var raw := fields.attributes.value;
      assert forall name :: name in raw ==> name in raw.Keys;
      assert event.attributes.value == raw;
    }
  }

  function SelectedOf(selection: Selection, lines: seq<Line>): seq<Event> {
    if lines == [] then []
    else SelectedOf(selection, lines[..|lines| - 1]) + Selected(selection, lines[|lines| - 1])
  }

  /** The event is what a strict reader takes the fields for: each of its own, and of the attributes
      those its kind of span knows. */
  ghost predicate IsEventOf(fields: RawFields, event: Event) {
    && fields.valid && fields.kind == event.kind && fields.level == Some(event.level)
    && fields.run == Some(event.run) && fields.stamp == Some(event.time) && fields.failed == event.failed
    && fields.values == event.values
    && (fields.exitCode.Some? ==> event.exitCode == fields.exitCode.value)
    && (fields.exitCode.None? ==> event.exitCode == 0 && event.kind != ProcessEnd)
    && (fields.attributes.Some? <==> event.attributes.Some?)
    && (fields.attributes.Some? ==>
        var raw, kept := fields.attributes.value, event.attributes.value;
        forall name ::
          (name in kept <==> name in raw && name in fields.known) && (name in kept ==> kept[name] == raw[name]))
  }

  /** The event says of itself that something came of it. */
  predicate TellsOutcome(event: Event) {
    || (event.kind == ProcessEnd && event.exitCode != 0)
    || (event.kind == SpanEnded && event.failed)
    || (event.kind == OtherBody && event.level == Standard)
  }

  /** Everything the selection asks for is so: an identity is looked for among the attributes first. */
  predicate IsAsked(selection: Selection, event: Event) {
    && (selection.level == Some(Standard) ==> event.level == Standard)
    && (selection.excludeRun.Some? ==> event.run != selection.excludeRun.value)
    && (selection.since.Some? ==> selection.since.value <= event.time)
    && (selection.outcomesOnly ==> TellsOutcome(event))
    && forall name :: name in selection.identities ==>
         if event.attributes.Some? && name in event.attributes.value
         then event.attributes.value[name] == selection.identities[name]
         else name in event.values && event.values[name] == selection.identities[name]
  }

  /** The line holds an event the selection asks for. */
  ghost predicate Keeps(selection: Selection, line: Line, event: Event) {
    line.Decoded? && IsEventOf(line.fields, event) && IsAsked(selection, event)
  }

  lemma EventIsValidated(fields: RawFields, event: Event)
    ensures IsEventOf(fields, event) <==> Validated(fields) == Some(event)
  {
    if IsEventOf(fields, event) && fields.attributes.Some? {
      assert Validated(fields).value.attributes.value == event.attributes.value;
    }
  }

  lemma AskedIsAdmitted(selection: Selection, event: Event)
    ensures IsAsked(selection, event) <==> Admits(selection, event)
  {
  }

  lemma KeptIsAdmitted(selection: Selection, line: Line, event: Event)
    ensures Keeps(selection, line, event) <==>
      line.Decoded? && Validated(line.fields) == Some(event) && Admits(selection, event)
  {
    hide IsEventOf, IsAsked, Validated, Admits;
    if line.Decoded? { EventIsValidated(line.fields, event); }
    AskedIsAdmitted(selection, event);
  }

  /** `events` are those of the lines at `at`: every line kept, each before the lines after it. */
  ghost predicate InLineOrder(selection: Selection, lines: seq<Line>, events: seq<Event>, at: seq<nat>) {
    && |at| == |events|
    && (forall k :: 0 <= k < |at| ==> at[k] < |lines| && Keeps(selection, lines[at[k]], events[k]))
    && (forall j, k :: 0 <= j < k < |at| ==> at[j] < at[k])
    && (forall n, event :: 0 <= n < |lines| && Keeps(selection, lines[n], event) ==> n in at)
  }

  function KeptAt(selection: Selection, lines: seq<Line>): seq<nat> {
    if lines == [] then []
    else
      var before := KeptAt(selection, lines[..|lines| - 1]);
      if Selected(selection, lines[|lines| - 1]) == [] then before else before + [|lines| - 1]
  }

  lemma LineNotKept(selection: Selection, lines: seq<Line>, line: Line, events: seq<Event>, at: seq<nat>)
    requires InLineOrder(selection, lines, events, at) && forall event :: !Keeps(selection, line, event)
    ensures InLineOrder(selection, lines + [line], events, at)
  {
    hide Keeps;
  }

  lemma LineKept(selection: Selection, lines: seq<Line>, line: Line, events: seq<Event>, at: seq<nat>, event: Event)
    requires InLineOrder(selection, lines, events, at) && Keeps(selection, line, event)
    ensures InLineOrder(selection, lines + [line], events + [event], at + [|lines|])
  {
    hide Keeps;
    var all := lines + [line];
    forall n, other | 0 <= n < |all| && Keeps(selection, all[n], other) ensures n in at + [|lines|] {
      assert n < |lines| ==> Keeps(selection, lines[n], other);
    }
  }

  lemma SelectedIsKept(selection: Selection, line: Line)
    ensures Selected(selection, line) == [] ==> forall event :: !Keeps(selection, line, event)
    ensures Selected(selection, line) != [] ==>
      |Selected(selection, line)| == 1 && Keeps(selection, line, Selected(selection, line)[0])
  {
    hide Keeps, Validated, Admits;
    forall event ensures Keeps(selection, line, event) <==> Selected(selection, line) == [event] {
      KeptIsAdmitted(selection, line, event);
    }
  }

  lemma {:induction false} SelectedInLineOrder(selection: Selection, lines: seq<Line>)
    ensures InLineOrder(selection, lines, SelectedOf(selection, lines), KeptAt(selection, lines))
  {
    hide Selected, Keeps;
    if lines != [] {
      hide InLineOrder;
      var front, last := lines[..|lines| - 1], lines[|lines| - 1];
      SelectedInLineOrder(selection, front);
      SelectedIsKept(selection, last);
      assert lines == front + [last];
      var event := Selected(selection, last);
      if event == [] {
        assert SelectedOf(selection, lines) == SelectedOf(selection, front);
        LineNotKept(selection, front, last, SelectedOf(selection, front), KeptAt(selection, front));
      } else {
        assert event == [event[0]];
        LineKept(selection, front, last, SelectedOf(selection, front), KeptAt(selection, front), event[0]);
      }
    }
  }

  /** Read one file, validating only the lines the raw fields let through. The numbers reported
      bad are of unreadable lines; a known event's line left out by its raw fields never is one. */
  method ReadFile(lines: seq<Line>, selection: Selection) returns (events: seq<Event>, bad: seq<int>)
    ensures events == SelectedOf(selection, lines)
    ensures exists at :: InLineOrder(selection, lines, events, at)
    ensures forall n :: n in bad <==>
      1 <= n <= |lines| &&
      match lines[n - 1]
      case Undecodable => true
      case Decoded(fields) => MayAdmit(selection, fields) && Validated(fields).None?
  {
    hide InLineOrder, KeptAt;
    events, bad := [], [];
    for number := 0 to |lines|
      invariant events == SelectedOf(selection, lines[..number])
      invariant forall n :: n in bad <==>
        1 <= n <= number &&
        match lines[n - 1]
        case Undecodable => true
        case Decoded(fields) => MayAdmit(selection, fields) && Validated(fields).None?
    {
      assert lines[..number + 1][..number] == lines[..number];
      match lines[number] {
        case Undecodable =>
          bad := bad + [number + 1];
        case Decoded(fields) =>
          if MayAdmit(selection, fields) {
            match Validated(fields) {
              case None => bad := bad + [number + 1];
              case Some(event) =>
                if Admits(selection, event) {
                  events := events + [event];
                }
            }
          } else if Validated(fields).Some? && Admits(selection, Validated(fields).value) {
            AdmittedPassesRawFields(selection, fields, Validated(fields).value);
          }
      }
    }
    assert lines[..|lines|] == lines;
    SelectedInLineOrder(selection, lines);
  }

  lemma {:induction false} SelectedAreAdmitted(selection: Selection, lines: seq<Line>)
    ensures forall event :: event in SelectedOf(selection, lines) ==>
      Admits(selection, event) && exists line :: line in lines && Selected(selection, line) == [event]
  {
    if lines != [] {
      SelectedAreAdmitted(selection, lines[..|lines| - 1]);
      var last := lines[|lines| - 1];
      assert last in lines;
      forall event | event in SelectedOf(selection, lines)
        ensures Admits(selection, event) && exists line :: line in lines && Selected(selection, line) == [event]
      {
        if event in SelectedOf(selection, lines[..|lines| - 1]) {
          var line :| line in lines[..|lines| - 1] && Selected(selection, line) == [event];
          assert line in lines;
        } else {
          assert Selected(selection, last) == [event];
        }
      }
    }
  }
}
