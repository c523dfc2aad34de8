/** Keyed records replaced under a lock: one record, its lock file and its writers' temporaries. */
module RecordStore {
  import opened Wrappers
  import FileLocks

  type Contents = Option<string>

  /** What a read-modify-write makes of the contents it read; `None` deletes the record. */
  datatype Update = Update(apply: Contents -> Contents)

  /** Where the holder of the lock stands in its block. */
  datatype Write =
    | Between
    | Loaded(seen: Contents)
    | Writing(update: Update, content: string, temporary: Option<string>)
    | Written(update: Update, content: string, temporary: Option<string>)
    | Vetted   // a pruner that found no record

  /** `acquisitions` numbers every successful `locked_path`; `applied` is the history of the
      updates that took effect, each with the acquisition it was made under. */
  datatype State = State(
    locks: FileLocks.State,
    record: Contents,
    writers: map<nat, Write>,
    acquisitions: nat,
    acquired: map<nat, nat>,
    applied: seq<(nat, Update)>)

  datatype Step =
    | Lock(step: FileLocks.Step)
    | Load(p: nat)
    | Create(p: nat, update: Update)   // open a temporary for the new contents
    | Extend(p: nat, count: nat)       // write some more of it
    | Finish(p: nat)                   // all of it is written and flushed
    | Rename(p: nat)
    | Delete(p: nat, update: Update)
    | Sweep(p: nat)                    // the temporary is removed by someone's sweep
    | Vet(p: nat)

  function WriteOf(s: State, p: nat): Write { if p in s.writers then s.writers[p] else Between }

  predicate Holds(s: State, p: nat) { FileLocks.Of(s.locks, p).phase.Holding? }

  function Became(s: State, p: nat, write: Write): State { s.(writers := s.writers[p := write]) }

  function Took(s: State, p: nat, update: Update, contents: Contents): State {
    Became(s, p, Between).(record := contents,
                           applied := s.applied + [(if p in s.acquired then s.acquired[p] else 0, update)])
  }

  /** The lock steps of a process that is not past the check, or that leaves its block. A pruner
      deletes the lock file only once it has found no record. */
  function Locking(s: State, step: FileLocks.Step): State {
    if step.Unlink? && WriteOf(s, step.p) != Vetted then s
    else
      var t := s.(locks := FileLocks.Apply(s.locks, step));
      if Holds(t, step.p) && !Holds(s, step.p)
      then Became(t, step.p, Between).(acquired := s.acquired[step.p := s.acquisitions],
                                       acquisitions := s.acquisitions + 1)
      else if Holds(s, step.p) && !Holds(t, step.p) then Became(t, step.p, Between)
      else t
  }

  function Apply(s: State, step: Step): State {
    match step
    case Lock(lock) => Locking(s, lock)
    case Load(p) => if Holds(s, p) then Became(s, p, Loaded(s.record)) else s
    case Create(p, update) =>
      var write := WriteOf(s, p);
      if write.Loaded? && update.apply(write.seen).Some?
      then Became(s, p, Writing(update, update.apply(write.seen).value, Some("")))
      else s
    case Extend(p, count) =>
      var write := WriteOf(s, p);
      if write.Writing? && write.temporary.Some? && |write.temporary.value| + count <= |write.content|
      then Became(s, p, Writing(write.update, write.content, Some(write.content[..|write.temporary.value| + count])))
      else s
    case Finish(p) =>
      var write := WriteOf(s, p);
      if write.Writing? && (write.temporary.Some? ==> |write.temporary.value| == |write.content|)
      then Became(s, p, Written(write.update, write.content, write.temporary))
      else s
    case Rename(p) =>
      var write := WriteOf(s, p);
      if !write.Written? then s
      else if write.temporary.None? then Became(s, p, Between)   // the rename fails; the record stands
      else Took(s, p, write.update, Some(write.temporary.value))
    case Delete(p, update) =>
      var write := WriteOf(s, p);
      if write.Loaded? && update.apply(write.seen).None? then Took(s, p, update, None) else s
    case Sweep(p) =>
      var write := WriteOf(s, p);
      if write.Writing? || write.Written? then Became(s, p, write.(temporary := None)) else s
    case Vet(p) => if Holds(s, p) && s.record.None? then Became(s, p, Vetted) else s
  }

  function Initial(record: Contents): State {
    State(FileLocks.INITIAL, record, map[], 0, map[], [])
  }

  function RunFrom(s: State, steps: seq<Step>): State {
    if steps == [] then s else Apply(RunFrom(s, steps[..|steps| - 1]), steps[|steps| - 1])
  }

  function Run(record: Contents, steps: seq<Step>): State { RunFrom(Initial(record), steps) }

  /** The updates applied to the contents one after the other. */
  function Replay(record: Contents, applied: seq<(nat, Update)>): Contents {
    if applied == [] then record
    else applied[|applied| - 1].1.apply(Replay(record, applied[..|applied| - 1]))
  }

  ghost predicate WriterInv(s: State, p: nat) {
    var write := WriteOf(s, p);
    && (write != Between ==> Holds(s, p))
    && (Holds(s, p) ==> p in s.acquired && s.acquired[p] + 1 == s.acquisitions)
    && (write.Loaded? ==> write.seen == s.record)
    && (write.Writing? || write.Written? ==> write.update.apply(s.record) == Some(write.content))
    && (write.Writing? && write.temporary.Some? ==> write.temporary.value <= write.content)
    && (write.Written? && write.temporary.Some? ==> write.temporary.value == write.content)
    && (write.Vetted? ==> s.record.None?)
  }

  ghost predicate Inv(s: State, initial: Contents) {
    && FileLocks.Inv(s.locks)
    && (forall p :: WriterInv(s, p))
    && (forall p, q :: Holds(s, p) && Holds(s, q) ==> p == q)
    && s.record == Replay(initial, s.applied)
    && (forall i :: 0 <= i < |s.applied| ==> s.applied[i].0 < s.acquisitions)
    && (forall i, j :: 0 <= i < j < |s.applied| ==> s.applied[i].0 <= s.applied[j].0)
  }

  lemma LockingKeepsWriter(s: State, step: FileLocks.Step, initial: Contents, p: nat)
    requires Inv(s, initial) && FileLocks.Inv(Locking(s, step).locks)
    ensures WriterInv(Locking(s, step), p)
  {
    var t := Locking(s, step);
    assert WriterInv(s, p) && WriterInv(s, step.p);
    assert p != step.p ==> Holds(t, p) == Holds(s, p);
    if Holds(t, p) && Holds(t, step.p) {
      FileLocks.HoldersAreOne(t.locks, p, step.p);
    }
  }

  lemma LockingKeepsWriters(s: State, step: FileLocks.Step, initial: Contents)
    requires Inv(s, initial)
    ensures var t := Locking(s, step);
      && FileLocks.Inv(t.locks) && (forall p :: WriterInv(t, p))
      && (forall p, q :: Holds(t, p) && Holds(t, q) ==> p == q)
  {
    hide WriterInv;
    FileLocks.StepKeeps(s.locks, step);
    var t := Locking(s, step);
    forall p, q | Holds(t, p) && Holds(t, q) ensures p == q {
      FileLocks.HoldersAreOne(t.locks, p, q);
    }
    forall p ensures WriterInv(t, p) {
      LockingKeepsWriter(s, step, initial, p);
    }
  }

  lemma TookKeeps(s: State, p: nat, update: Update, contents: Contents, initial: Contents)
    requires Inv(s, initial) && Holds(s, p) && update.apply(s.record) == contents
    ensures Inv(Took(s, p, update, contents), initial)
  {
    var t := Took(s, p, update, contents);
    assert WriterInv(s, p);
    assert t.applied[..|t.applied| - 1] == s.applied;
    forall q ensures WriterInv(t, q) {
      assert WriterInv(s, q);
      assert Holds(t, q) == Holds(s, q);
    }
    assert forall q, r :: Holds(t, q) && Holds(t, r) ==> Holds(s, q) && Holds(s, r);
  }

  lemma BecameKeeps(s: State, p: nat, write: Write, initial: Contents)
    requires Inv(s, initial) && WriterInv(Became(s, p, write), p)
    ensures Inv(Became(s, p, write), initial)
  {
    var t := Became(s, p, write);
    forall q ensures WriterInv(t, q) {
      assert WriterInv(s, q);
    }
    assert forall q, r :: Holds(t, q) && Holds(t, r) ==> Holds(s, q) && Holds(s, r);
  }

  lemma StepKeeps(s: State, step: Step, initial: Contents)
    requires Inv(s, initial)
    ensures Inv(Apply(s, step), initial)
  {
    match step
    case Lock(lock) => LockingKeepsWriters(s, lock, initial);
    case Rename(p) =>
      var write := WriteOf(s, p);
      assert WriterInv(s, p);
      if write.Written? && write.temporary.Some? {
        TookKeeps(s, p, write.update, Some(write.temporary.value), initial);
      } else if write.Written? {
        BecameKeeps(s, p, Between, initial);
      }
    case Delete(p, update) =>
      assert WriterInv(s, p);
      if WriteOf(s, p).Loaded? && update.apply(WriteOf(s, p).seen).None? {
        TookKeeps(s, p, update, None, initial);
      }
    case _ =>
      assert WriterInv(s, step.p);
      if Apply(s, step) != s {
        BecameKeeps(s, step.p, WriteOf(Apply(s, step), step.p), initial);
      }
  }

  lemma {:induction false} EveryRunKeeps(initial: Contents, steps: seq<Step>)
    ensures Inv(Run(initial, steps), initial)
  {
    if steps != [] {
      EveryRunKeeps(initial, steps[..|steps| - 1]);
      StepKeeps(Run(initial, steps[..|steps| - 1]), steps[|steps| - 1], initial);
    }
  }

  /** Updates serialise: in every state of every run, with pruners, sweeps and crashes anywhere,
      the record is the updates that took effect applied in the order their locks were acquired. */
  lemma UpdatesSerialise(initial: Contents, steps: seq<Step>)
    ensures var s := Run(initial, steps);
      && s.record == Replay(initial, s.applied)
      && forall i, j :: 0 <= i < j < |s.applied| ==> s.applied[i].0 <= s.applied[j].0
  {
    EveryRunKeeps(initial, steps);
  }

  /** An update takes effect on the very contents its writer read: none is lost in between. */
  lemma UpdateSeesWhatItReplaces(initial: Contents, steps: seq<Step>, p: nat)
    requires WriteOf(Run(initial, steps), p).Written? && WriteOf(Run(initial, steps), p).temporary.Some?
    ensures var s := Run(initial, steps);
      Apply(s, Rename(p)).record == WriteOf(s, p).update.apply(s.record)
  {
    EveryRunKeeps(initial, steps);
    assert WriterInv(Run(initial, steps), p);
  }

  /** So does one that deletes the record. */
  lemma DeletionSeesWhatItDeletes(initial: Contents, steps: seq<Step>, p: nat, update: Update)
    requires WriteOf(Run(initial, steps), p).Loaded? && update.apply(WriteOf(Run(initial, steps), p).seen).None?
    ensures var s := Run(initial, steps);
      update.apply(s.record).None? && Apply(s, Delete(p, update)).record.None?
  {
    EveryRunKeeps(initial, steps);
    assert WriterInv(Run(initial, steps), p);
  }

  ghost predicate MadeByPrefix(record: Contents, initial: Contents, applied: seq<(nat, Update)>) {
    exists k :: 0 <= k <= |applied| && record == Replay(initial, applied[..k])
  }

  /** A reader sees only contents some prefix of the updates made whole, never part of a write. */
  lemma {:induction false} ReadersSeeWholeRecords(initial: Contents, steps: seq<Step>, n: nat)
    requires n <= |steps|
    ensures MadeByPrefix(Run(initial, steps[..n]).record, initial, Run(initial, steps).applied)
  {
    EveryRunKeeps(initial, steps[..n]);
    var early, late := Run(initial, steps[..n]), Run(initial, steps);
    AppliedOnlyGrows(initial, steps, n);
    assert late.applied[..|early.applied|] == early.applied;
  }

  lemma {:induction false} AppliedOnlyGrows(initial: Contents, steps: seq<Step>, n: nat)
    requires n <= |steps|
    ensures Run(initial, steps[..n]).applied <= Run(initial, steps).applied
  {
    if n < |steps| {
      AppliedOnlyGrows(initial, steps[..|steps| - 1], n);
      assert steps[..|steps| - 1][..n] == steps[..n];
    } else {
      assert steps[..n] == steps;
    }
  }

  /** A lock file is deleted only while the record it guards is absent. */
  lemma LockFileOutlivesItsRecord(initial: Contents, steps: seq<Step>, step: Step)
    requires var s := Run(initial, steps);
      s.locks.linked.Some? && Apply(s, step).locks.linked.None?
    ensures Run(initial, steps).record.None?
  {
    EveryRunKeeps(initial, steps);
    var s := Run(initial, steps);
    assert step.Lock?;
    assert WriterInv(s, step.step.p);
  }

  // -- Sweeping a directory ----------------------------------------------------------------------

  datatype File = File(regular: bool, modifiedAt: int)

  /** The characters `mkstemp` adds to its prefix, none of them a dot. */
  const RANDOM_WIDTH: nat := 8

  predicate EndsWith(text: string, suffix: string) {
    |text| >= |suffix| && text[|text| - |suffix|..] == suffix
  }

  function LastDot(text: string): (at: Option<nat>)
    ensures at.Some? ==> at.value < |text| && text[at.value] == '.' && '.' !in text[at.value + 1..]
    ensures at.None? ==> '.' !in text
  {
    if text == "" then None
    else if text[|text| - 1] == '.' then Some(|text| - 1)
    else
      assert text == text[..|text| - 1] + [text[|text| - 1]];
      LastDot(text[..|text| - 1])
  }

  predicate Dotted(name: string) { name != "" && name[0] == '.' }

  /** A name a writer of this store could have given a temporary: a dot, a key, a dot and the rest. */
  predicate IsTemporaryName(name: string, isKey: string -> bool) {
    && Dotted(name) && !EndsWith(name, ".lock") && !EndsWith(name, ".json")
    && LastDot(name[1..]).Some? && isKey(name[1..][..LastDot(name[1..]).value])
  }

  lemma SuffixStarts(text: string, suffix: string)
    requires suffix != ""
    ensures EndsWith(text, suffix) ==> text[|text| - |suffix|] == suffix[0]
  {
    if EndsWith(text, suffix) {
      assert text[|text| - |suffix|..][0] == suffix[0];
    }
  }

  lemma {:induction false} DotBeforeIsLast(key: string, random: string)
    requires '.' !in random
    ensures LastDot(key + "." + random) == Some(|key|)
  {
    var name := key + "." + random;
    if random == "" {
      assert name[|name| - 1] == '.';
    } else {
      var n := |random| - 1;
      assert random[n] in random && name[|name| - 1] == random[n];
      assert name[..|name| - 1] == key + "." + random[..n];
      DotBeforeIsLast(key, random[..n]);
    }
  }

  /** Every temporary's name is known for one, and no lock file's and no record's ever is. */
  lemma OnlyTemporariesAreTaken(key: string, random: string, isKey: string -> bool)
    requires isKey(key)
    ensures |random| == RANDOM_WIDTH && '.' !in random ==> IsTemporaryName("." + key + "." + random, isKey)
    ensures !IsTemporaryName("." + key + ".lock", isKey) && !IsTemporaryName(key + ".json", isKey)
  {
    hide LastDot;
    var lock, record := "." + key + ".lock", key + ".json";
    assert lock[|lock| - 5..] == ".lock" && record[|record| - 5..] == ".json";
    if |random| == RANDOM_WIDTH && '.' !in random {
      var name, rest := "." + key + "." + random, key + "." + random;
      assert name[1..] == rest && rest[..|key|] == key;
      assert name[|name| - 5] == random[RANDOM_WIDTH - 5];
      SuffixStarts(name, ".lock");
      SuffixStarts(name, ".json");
      DotBeforeIsLast(key, random);
    }
  }

  predicate IsSwept(name: string, file: File, isKey: string -> bool, now: int, maxAge: int) {
    IsTemporaryName(name, isKey) && file.regular && now - file.modifiedAt >= maxAge
  }

  function SweptOf(files: map<string, File>, isKey: string -> bool, now: int, maxAge: int): set<string> {
    set name | name in files && IsSwept(name, files[name], isKey, now, maxAge)
  }

  /** Of what a store makes, a sweep takes the temporaries that are regular files last changed at
      least `maxAge` ago, and never a lock file or a record. */
  lemma SweepTakesAgedTemporaries(
    files: map<string, File>, isKey: string -> bool, now: int, maxAge: int, key: string, random: string)
    requires isKey(key) && |random| == RANDOM_WIDTH && '.' !in random
    ensures var swept, name := SweptOf(files, isKey, now, maxAge), "." + key + "." + random;
      && (name in swept <==> name in files && files[name].regular && files[name].modifiedAt <= now - maxAge)
      && "." + key + ".lock" !in swept && key + ".json" !in swept
  {
    hide IsTemporaryName;
    OnlyTemporariesAreTaken(key, random, isKey);
  }

  class StoreDirectory {
    /** The pattern of the store's keys. */
    const isKey: string -> bool
    var files: map<string, File>

    constructor (isKey: string -> bool, found: map<string, File>)
      ensures this.isKey == isKey && files == found
    {
      this.isKey, files := isKey, found;
    }

    /** Remove every aged temporary of the store's keys and nothing else, and count them. `listing`
        is the directory's names that begin with a dot, in order. */
    method SweepTemporaries(listing: seq<string>, now: int, maxAge: int) returns (removed: nat)
      requires forall i, j :: 0 <= i < j < |listing| ==> listing[i] != listing[j]
      requires forall name :: name in listing <==> name in files && Dotted(name)
      modifies this
      ensures files == old(files) - SweptOf(old(files), isKey, now, maxAge)
      ensures removed == |SweptOf(old(files), isKey, now, maxAge)|
    {
      hide EndsWith, SweptOf, IsSwept, IsTemporaryName;
      removed := 0;
      ghost var before := files;
      ghost var gone: set<string> := {};
      for i := 0 to |listing|
        invariant files == before - gone && removed == |gone|
        invariant forall name :: name in gone <==>
          name in listing[..i] && name in before && IsSwept(name, before[name], isKey, now, maxAge)
      {
        var name := listing[i];
        NotYet(listing, i);
        assert listing[..i + 1] == listing[..i] + [name];
        var file := files[name];
        SweptWhen(name, file, isKey, now, maxAge);
        if EndsWith(name, ".lock") || EndsWith(name, ".json") || !file.regular { continue; }
        var at := LastDot(name[1..]);
        if at.None? || !isKey(name[1..][..at.value]) { continue; }
        if now - file.modifiedAt >= maxAge {
          files := files - {name};
          gone := gone + {name};
          removed := removed + 1;
        }
      }
      assert listing[..|listing|] == listing;
      SweptAre(before, listing, gone, isKey, now, maxAge);
    }
  }

  lemma SweptWhen(name: string, file: File, isKey: string -> bool, now: int, maxAge: int)
    requires Dotted(name)
    ensures IsSwept(name, file, isKey, now, maxAge) <==>
      && !EndsWith(name, ".lock") && !EndsWith(name, ".json") && file.regular && now - file.modifiedAt >= maxAge
      && LastDot(name[1..]).Some? && isKey(name[1..][..LastDot(name[1..]).value])
  {
    hide EndsWith, LastDot;
  }

  lemma NotYet(listing: seq<string>, i: nat)
    requires i < |listing| && forall k, j :: 0 <= k < j < |listing| ==> listing[k] != listing[j]
    ensures listing[i] in listing && listing[i] !in listing[..i]
  {
  }

  lemma SweptAre(
    files: map<string, File>, listing: seq<string>, gone: set<string>, isKey: string -> bool, now: int, maxAge: int)
    requires forall name :: name in listing <==> name in files && Dotted(name)
    requires forall name :: name in gone <==>
      name in listing && name in files && IsSwept(name, files[name], isKey, now, maxAge)
    ensures gone == SweptOf(files, isKey, now, maxAge)
  {
    hide EndsWith, LastDot;
  }
}
