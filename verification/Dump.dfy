/**
 The dump phase of `FileReader`: blinded questions written to one file and their owners to
 another, merged over any number of runs.
 */
module Dump {
  import opened Prelude
  import opened Sorting
  import opened Lines
  import opened Json
  import opened JsonLines
  import opened JsonParse
  import Prompt

  type Id = string

  /** A line of the dump, or an item of its key file. */
  datatype Item<V> = Item(id: Id, value: V)

  datatype Asked = Asked(systemPrompt: string, prompt: string)
  datatype Owner = Owner(system: string, question: string)
  datatype KeyFile = KeyFile(seed: int, items: seq<Item<Owner>>)

  /** The two files, when they exist: the dump is text, the key file one JSON document. */
  datatype Disk = Disk(dump: Option<string>, key: Option<KeyFile>)

  const NO_FILES := Disk(None, None)

  // ---- the lines of the dump ---------------------------------------------------------

  function Shape(item: Item<Asked>): (fs: Fields) {
    Field("id", Text(item.id), Field("system_prompt", Text(item.value.systemPrompt), Field("prompt", Text(item.value.prompt), End)))
  }

  /** `json.loads` of a line, and its id: `None` for a line that raises. */
  type Parser = string -> Option<Item<Asked>>

  function Rows(parse: Parser): (f: Format<Item<Asked>>) {
    Format(Shape, parse, (item: Item<Asked>) => item)
  }

  /** What is asked of the parser. RFC 8259 grants it of `json.loads`. */
  ghost predicate Parses(parse: Parser) {
    && (forall item, ws :: ReadsBehind(Rows(parse), item, ws))
    && (forall line :: parse(line).Some? ==> IsObject(line))
  }

  /** No character in it that `splitlines` cuts on and JSON leaves raw. */
  predicate HasNoBreak(item: Item<Asked>) {
    !HasRawBreak(item.id) && !HasRawBreak(item.value.systemPrompt) && !HasRawBreak(item.value.prompt)
  }

  lemma {:induction false} ShapeFits(item: Item<Asked>)
    ensures WellFormed(Shape(item)) && Shape(item).Field?
    ensures Clean(Shape(item)) <==> HasNoBreak(item)
  {
    var prompt := Field("prompt", Text(item.value.prompt), End);
    FieldFits("prompt", Text(item.value.prompt), End);
    FieldFits("system_prompt", Text(item.value.systemPrompt), prompt);
    FieldFits("id", Text(item.id), Field("system_prompt", Text(item.value.systemPrompt), prompt));
  }

  lemma {:induction false} ParsesIsSound(parse: Parser)
    requires Parses(parse)
    ensures Sound(Rows(parse))
  {
    forall item ensures HasShape(Rows(parse), item) {
      ShapeFits(item);
    }
  }

  function ReadFields(fs: Fields): Option<Item<Asked>> {
    Some(Item(TextUnder(fs, "id"), Asked(TextUnder(fs, "system_prompt"), TextUnder(fs, "prompt"))))
  }

  /** Every part of a line is printed under the name it is read under. */
  lemma {:induction false} ReadFieldsOf(item: Item<Asked>)
    ensures ReadFields(Shape(item)) == Some(item)
  {
    var prompt := Field("prompt", Text(item.value.prompt), End);
    LookupNext("prompt", Text(item.value.prompt), End, "prompt");
    LookupNext("system_prompt", Text(item.value.systemPrompt), prompt, "prompt");
    LookupNext("system_prompt", Text(item.value.systemPrompt), prompt, "system_prompt");
    var system := Field("system_prompt", Text(item.value.systemPrompt), prompt);
    LookupNext("id", Text(item.id), system, "id");
    LookupNext("id", Text(item.id), system, "system_prompt");
    LookupNext("id", Text(item.id), system, "prompt");
  }

  /** What is asked of the parser can be met. */
  lemma {:induction false} SomeParserParses()
    ensures Parses(ReaderOf(ReadFields))
  {
    var same := (item: Item<Asked>) => item;
    forall item ensures WellFormed(Shape(item)) && Shape(item).Field? && ReadFields(Shape(item)) == Some(same(item)) {
      ShapeFits(item);
      ReadFieldsOf(item);
    }
    ReaderIsSound(Shape, ReadFields, same);
    var f := Format(Shape, ReaderOf(ReadFields), same);
    forall item, ws ensures ReadsBehind(Rows(ReaderOf(ReadFields)), item, ws) {
      assert ReadsBehind(f, item, ws);
    }
  }

  // ---- one run -----------------------------------------------------------------------

  /** A random shuffle of a list, which depends on its seed and on the list. */
  type Shuffle = (int, seq<Id>) -> seq<Id>

  ghost predicate Permutes(shuffle: Shuffle) {
    forall seed, ids :: multiset(shuffle(seed, ids)) == multiset(ids)
  }

  /** What a file holds: a later line of the same id replaces an earlier one. */
  function Loaded<V>(lines: seq<Item<V>>): (m: map<Id, V>) {
    if lines == [] then map[] else Loaded(lines[..|lines| - 1])[lines[|lines| - 1].id := lines[|lines| - 1].value]
  }

  /** `setdefault` of every item of `more`: what is there already stays. */
  function Merged<V>(there: map<Id, V>, more: map<Id, V>): (m: map<Id, V>) {
    more + there
  }

  function OwnedBy(system: string, asked: Asked): Owner {
    Owner(system, Strip(Prompt.SplitPrompt(asked.prompt).0))
  }

  function Owners(system: string, pending: map<Id, Asked>): map<Id, Owner> {
    map id | id in pending :: OwnedBy(system, pending[id])
  }

  /** The ids of a set in order: `sorted` of a dict. */
  ghost predicate IsSorted(ids: seq<Id>, s: set<Id>) {
    Sorted(StrLe(), ids) && Distinct(ids) && forall id :: id in ids <==> id in s
  }

  lemma {:induction false} SortedExists(s: set<Id>) returns (ids: seq<Id>)
    ensures IsSorted(ids, s)
  {
    ids := [];
    var left := s;
    while left != {}
      invariant left <= s && Distinct(ids) && forall id :: id in ids <==> id in s - left
    {
      var id :| id in left;
      DistinctSnoc(ids, id);
      ids, left := ids + [id], left - {id};
    }
    SortIsSorted(ids);
    ids := Sort(StrLe(), ids);
  }

  lemma {:induction false} SortIsSorted(ids: seq<Id>)
    requires Distinct(ids)
    ensures IsSorted(Sort(StrLe(), ids), set id | id in ids)
  {
    StrLeIsOrder();
    SortSorts(StrLe(), ids);
    SortPermutes(StrLe(), ids);
    SameElements(Sort(StrLe(), ids), ids);
    PermutationKeepsDistinct(ids, Sort(StrLe(), ids));
  }

  ghost function SortedIds(s: set<Id>): (ids: seq<Id>)
    ensures IsSorted(ids, s)
  {
    assert exists ids :: IsSorted(ids, s) by {
      var ids := SortedExists(s);
    }
    var ids :| IsSorted(ids, s);
    ids
  }

  lemma {:induction false} SortedIdsUnique(ids: seq<Id>, s: set<Id>)
    requires IsSorted(ids, s)
    ensures ids == SortedIds(s)
  {
    StrLeIsOrder();
    SortedIsUnique(StrLe(), ids, SortedIds(s));
  }

  /** The items of a dict in a given order of ids. */
  function Listed<V>(m: map<Id, V>, order: seq<Id>): (items: seq<Item<V>>)
    requires forall id :: id in order ==> id in m
    ensures |items| == |order| && forall i :: 0 <= i < |order| ==> items[i] == Item(order[i], m[order[i]])
  {
    seq(|order|, i requires 0 <= i < |order| => Item(order[i], m[order[i]]))
  }

  /** One run of the harness in the dump phase. */
  datatype Run = Run(seed: int, system: string, pending: map<Id, Asked>)

  ghost function Order(shuffle: Shuffle, seed: int, ids: set<Id>): (order: seq<Id>)
    requires Permutes(shuffle)
    ensures Distinct(order) && forall id :: id in order <==> id in ids
  {
    PermutationKeepsDistinct(SortedIds(ids), shuffle(seed, SortedIds(ids)));
    SameElements(SortedIds(ids), shuffle(seed, SortedIds(ids)));
    shuffle(seed, SortedIds(ids))
  }

  /** What the dump holds, or `None` when one of its lines does not parse. */
  function RowsOf(parse: Parser, disk: Disk): (rows: Option<map<Id, Asked>>) {
    if disk.dump.None? then Some(map[])
    else match ReadAll(Rows(parse), disk.dump.value)
      case None => None
      case Some(items) => Some(Loaded(items))
  }

  function OwnersOf(disk: Disk): map<Id, Owner> {
    if disk.key.Some? then Loaded(disk.key.value.items) else map[]
  }

  /** How `finish` ends: both files written, or an exception. */
  datatype Ending = Wrote | BadLine | UnknownId

  /** What `finish` leaves on disk. A line of the dump that does not parse raises before anything
      is written; an id of the dump that the key file does not own raises after the dump has
      been rewritten and before the key file is. */
  ghost function Finished(parse: Parser, shuffle: Shuffle, disk: Disk, run: Run): (r: (Disk, Ending))
    requires Permutes(shuffle)
  {
    match RowsOf(parse, disk)
    case None => (disk, BadLine)
    case Some(there) =>
      var rows := Merged(there, run.pending);
      var owners := Merged(OwnersOf(disk), Owners(run.system, run.pending));
      var order := Order(shuffle, run.seed, rows.Keys);
      var text := Written(Rows(parse), Listed(rows, order));
      if forall id :: id in order ==> id in owners then
        (Disk(Some(text), Some(KeyFile(run.seed, Listed(owners, order)))), Wrote)
      else
        (Disk(Some(text), disk.key), UnknownId)
  }

  /** The items of `more` whose ids are `done` were merged into `there`. */
  ghost predicate Partly<V>(m: map<Id, V>, there: map<Id, V>, more: map<Id, V>, done: set<Id>) {
    && done <= more.Keys
    && (forall id :: id in m <==> id in there || id in done)
    && (forall id :: id in m ==> m[id] == if id in there then there[id] else more[id])
  }

  lemma {:induction false} PartlyNext<V>(m: map<Id, V>, there: map<Id, V>, more: map<Id, V>, done: set<Id>, id: Id)
    requires Partly(m, there, more, done) && id in more
    ensures Partly(if id in m then m else m[id := more[id]], there, more, done + {id})
  {
  }

  lemma {:induction false} PartlyDone<V>(m: map<Id, V>, there: map<Id, V>, more: map<Id, V>)
    requires Partly(m, there, more, more.Keys)
    ensures m == Merged(there, more)
  {
  }

  class FileReader {
    const seed: int
    const systemLabel: string
    const itemId: string -> Id
    var pending: map<Id, Asked>
    var calls: nat

    constructor (seed: int, systemLabel: string, itemId: string -> Id)
      ensures this.seed == seed && this.systemLabel == systemLabel && this.itemId == itemId
      ensures pending == map[] && calls == 0
    {
      this.seed, this.systemLabel, this.itemId := seed, systemLabel, itemId;
      pending, calls := map[], 0;
    }

    method Ask(system: string, prompt: string) returns (answer: Answer)
      modifies this
      ensures pending == old(pending)[itemId(prompt) := Asked(system, prompt)] && calls == old(calls) + 1
      ensures answer == Answer("", "file-dump", 0, 0, 0, 0, "")
    {
      calls := calls + 1;
      pending := pending[itemId(prompt) := Asked(system, prompt)];
      answer := Answer("", "file-dump", 0, 0, 0, 0, "");
    }

    /** The two `setdefault` loops over the pending items, in whatever order they come. */
    method Merge(there: map<Id, Asked>, owned: map<Id, Owner>) returns (rows: map<Id, Asked>, owners: map<Id, Owner>)
      ensures rows == Merged(there, pending)
      ensures owners == Merged(owned, Owners(systemLabel, pending))
    {
      rows, owners := there, owned;
      var left := pending.Keys;
      while left != {}
        invariant left <= pending.Keys
        invariant Partly(rows, there, pending, pending.Keys - left)
        invariant Partly(owners, owned, Owners(systemLabel, pending), pending.Keys - left)
      {
        var id :| id in left;
        PartlyNext(rows, there, pending, pending.Keys - left, id);
        PartlyNext(owners, owned, Owners(systemLabel, pending), pending.Keys - left, id);
        if id !in rows {
          rows := rows[id := pending[id]];
        }
        if id !in owners {
          owners := owners[id := OwnedBy(systemLabel, pending[id])];
        }
        assert pending.Keys - left + {id} == pending.Keys - (left - {id});
        left := left - {id};
      }
      PartlyDone(rows, there, pending);
      PartlyDone(owners, owned, Owners(systemLabel, pending));
    }

    /** The dump as it is on disk: later lines of an id replace earlier ones. */
    method ReadDump(parse: Parser, disk: Disk) returns (rows: Option<map<Id, Asked>>)
      ensures rows == RowsOf(parse, disk)
    {
      if disk.dump.None? {
        return Some(map[]);
      }
      var items := ReadStrictly(Rows(parse), disk.dump.value);
      match items {
        case None => return None;
        case Some(listed) => return Some(Loaded(listed));
      }
    }

    /** Merges the pending items into what is on disk and writes both files again. */
    method Finish(parse: Parser, shuffle: Shuffle, disk: Disk) returns (files: Disk, ending: Ending)
      requires Permutes(shuffle)
      ensures (files, ending) == Finished(parse, shuffle, disk, Run(seed, systemLabel, pending))
    {
      var there := ReadDump(parse, disk);
      if there.None? {
        return disk, BadLine;
      }
      var rows, owners := Merge(there.value, OwnersOf(disk));
      var ids := SortedKeys(rows);
      SortedIdsUnique(ids, rows.Keys);
      ghost var order := Order(shuffle, seed, rows.Keys);
      var listed := shuffle(seed, ids);
      files := Disk(Some(Written(Rows(parse), Listed(rows, listed))), disk.key);
      if forall id :: id in listed ==> id in owners {
        files := files.(key := Some(KeyFile(seed, Listed(owners, listed))));
        ending := Wrote;
      } else {
        ending := UnknownId;
      }
    }

    /** `sorted(rows)`: the keys, in whatever order the dict gives them, then sorted. */
    method SortedKeys(rows: map<Id, Asked>) returns (ids: seq<Id>)
      ensures IsSorted(ids, rows.Keys)
    {
      ids := [];
      var left := rows.Keys;
      while left != {}
        invariant left <= rows.Keys && Distinct(ids) && forall id :: id in ids <==> id in rows.Keys - left
      {
        var id :| id in left;
        DistinctSnoc(ids, id);
        ids, left := ids + [id], left - {id};
      }
      SortIsSorted(ids);
      ids := Sort(StrLe(), ids);
    }
  }

  // ---- any number of runs ------------------------------------------------------------

  lemma {:induction false} LoadedSnoc<V>(items: seq<Item<V>>, item: Item<V>)
    ensures Loaded(items + [item]) == Loaded(items)[item.id := item.value]
  {
    assert (items + [item])[..|items|] == items;
  }

  lemma {:induction false} LoadedListed<V>(m: map<Id, V>, order: seq<Id>)
    requires Distinct(order) && forall id :: id in order ==> id in m
    ensures Loaded(Listed(m, order)).Keys == set id | id in order
    ensures forall id :: id in order ==> Loaded(Listed(m, order))[id] == m[id]
  {
    if order == [] {
    } else {
      var before, last := order[..|order| - 1], order[|order| - 1];
      assert order == before + [last];
      assert Listed(m, order) == Listed(m, before) + [Item(last, m[last])];
      LoadedListed(m, before);
      LoadedSnoc(Listed(m, before), Item(last, m[last]));
    }
  }

  lemma {:induction false} LoadedIsAll<V>(m: map<Id, V>, order: seq<Id>)
    requires Distinct(order) && forall id :: id in order <==> id in m
    ensures Loaded(Listed(m, order)) == m
  {
    LoadedListed(m, order);
  }

  /** No row of the dump quotes a character that `splitlines` cuts on and JSON leaves raw. */
  predicate AllClean(rows: map<Id, Asked>) {
    forall id :: id in rows ==> HasNoBreak(Item(id, rows[id]))
  }

  /** The files that list these rows and owners under one order. */
  ghost function Files(parse: Parser, shuffle: Shuffle, seed: int, rows: map<Id, Asked>, owners: map<Id, Owner>): (disk: Disk)
    requires Permutes(shuffle) && rows.Keys == owners.Keys
  {
    var order := Order(shuffle, seed, rows.Keys);
    Disk(Some(Written(Rows(parse), Listed(rows, order))), Some(KeyFile(seed, Listed(owners, order))))
  }

  lemma {:induction false} KeptIsAll(parse: Parser, items: seq<Item<Asked>>)
    requires JsonLines.AllClean(Rows(parse), items)
    ensures Kept(Rows(parse), items) == items
  {
    if items == [] {
    } else {
      KeptIsAll(parse, items[1..]);
      assert items == [items[0]] + items[1..];
    }
  }

  lemma {:induction false} CleanListing(parse: Parser, rows: map<Id, Asked>, order: seq<Id>)
    requires forall id :: id in order <==> id in rows
    ensures JsonLines.AllClean(Rows(parse), Listed(rows, order)) <==> AllClean(rows)
  {
    var items := Listed(rows, order);
    forall item ensures IsClean(Rows(parse), item) <==> HasNoBreak(item) {
      ShapeFits(item);
    }
    if AllClean(rows) {
      forall item | item in items ensures HasNoBreak(item) {
        assert item.id in order;
      }
    }
    forall id | id in rows ensures Item(id, rows[id]) in items {
      var i :| 0 <= i < |order| && order[i] == id;
      assert items[i] == Item(id, rows[id]);
    }
  }

  lemma {:induction false} ListingReadsBack(parse: Parser, rows: map<Id, Asked>, order: seq<Id>)
    requires Parses(parse) && Distinct(order) && forall id :: id in order <==> id in rows
    ensures ReadAll(Rows(parse), Written(Rows(parse), Listed(rows, order))) == if AllClean(rows) then Some(Listed(rows, order)) else None
  {
    ParsesIsSound(parse);
    WrittenStrictly(Rows(parse), Listed(rows, order));
    CleanListing(parse, rows, order);
    if AllClean(rows) {
      KeptIsAll(parse, Listed(rows, order));
    }
  }

  /** The files can be read again if and only if no row in them has a raw break. */
  lemma {:induction false} FilesReadBack(parse: Parser, shuffle: Shuffle, seed: int, rows: map<Id, Asked>, owners: map<Id, Owner>)
    requires Parses(parse) && Permutes(shuffle) && rows.Keys == owners.Keys
    ensures RowsOf(parse, Files(parse, shuffle, seed, rows, owners)) == if AllClean(rows) then Some(rows) else None
    ensures OwnersOf(Files(parse, shuffle, seed, rows, owners)) == owners
  {
    var order := Order(shuffle, seed, rows.Keys);
    ListingReadsBack(parse, rows, order);
    LoadedIsAll(rows, order);
    LoadedIsAll(owners, order);
  }

  ghost function AfterRuns(parse: Parser, shuffle: Shuffle, runs: seq<Run>): (disk: Disk)
    requires Permutes(shuffle)
  {
    if runs == [] then NO_FILES
    else Finished(parse, shuffle, AfterRuns(parse, shuffle, runs[..|runs| - 1]), runs[|runs| - 1]).0
  }

  /** The rows the runs asked for, each under the run that asked for it first. */
  function FirstRows(runs: seq<Run>): map<Id, Asked> {
    if runs == [] then map[] else Merged(FirstRows(runs[..|runs| - 1]), runs[|runs| - 1].pending)
  }

  function FirstOwners(runs: seq<Run>): map<Id, Owner> {
    if runs == [] then map[]
    else Merged(FirstOwners(runs[..|runs| - 1]), Owners(runs[|runs| - 1].system, runs[|runs| - 1].pending))
  }

  lemma {:induction false} SameOwners(runs: seq<Run>)
    ensures FirstRows(runs).Keys == FirstOwners(runs).Keys
  {
    if runs == [] {
    } else {
      SameOwners(runs[..|runs| - 1]);
    }
  }

  lemma {:induction false} OneRun(parse: Parser, shuffle: Shuffle, disk: Disk, run: Run, rows: map<Id, Asked>, owners: map<Id, Owner>)
    requires Permutes(shuffle) && rows.Keys == owners.Keys
    requires RowsOf(parse, disk) == Some(rows) && OwnersOf(disk) == owners
    ensures Finished(parse, shuffle, disk, run)
            == (Files(parse, shuffle, run.seed, Merged(rows, run.pending), Merged(owners, Owners(run.system, run.pending))), Wrote)
  {
  }

  /** Starting from no files: a run can read what is there if and only if no earlier run dumped a
      row with a raw break. Then it writes both files, and they list the same ids in the same
      order, each with its first row and owner; otherwise it raises and leaves both alone. No
      run meets an id it cannot look up. */
  lemma {:induction false} RunsLeaveFiles(parse: Parser, shuffle: Shuffle, runs: seq<Run>)
    requires Parses(parse) && Permutes(shuffle) && runs != []
    ensures var before, last := runs[..|runs| - 1], runs[|runs| - 1];
            && FirstRows(runs).Keys == FirstOwners(runs).Keys
            && Finished(parse, shuffle, AfterRuns(parse, shuffle, before), last).1
               == (if AllClean(FirstRows(before)) then Wrote else BadLine)
            && AfterRuns(parse, shuffle, runs)
               == if AllClean(FirstRows(before)) then Files(parse, shuffle, last.seed, FirstRows(runs), FirstOwners(runs))
                  else AfterRuns(parse, shuffle, before)
    decreases |runs|, 0
  {
    var before, last := runs[..|runs| - 1], runs[|runs| - 1];
    SameOwners(runs);
    SameOwners(before);
    WhatIsThere(parse, shuffle, before);
    if AllClean(FirstRows(before)) {
      OneRun(parse, shuffle, AfterRuns(parse, shuffle, before), last, FirstRows(before), FirstOwners(before));
    }
  }

  /** What the next run finds: the first rows and owners, or a dump it cannot read. */
  lemma {:induction false} WhatIsThere(parse: Parser, shuffle: Shuffle, runs: seq<Run>)
    requires Parses(parse) && Permutes(shuffle)
    ensures RowsOf(parse, AfterRuns(parse, shuffle, runs)) == if AllClean(FirstRows(runs)) then Some(FirstRows(runs)) else None
    ensures AllClean(FirstRows(runs)) ==> OwnersOf(AfterRuns(parse, shuffle, runs)) == FirstOwners(runs)
    decreases |runs|, 1
  {
    if runs == [] {
    } else {
      var before, last := runs[..|runs| - 1], runs[|runs| - 1];
      RunsLeaveFiles(parse, shuffle, runs);
      if AllClean(FirstRows(before)) {
        FilesReadBack(parse, shuffle, last.seed, FirstRows(runs), FirstOwners(runs));
      } else {
        WhatIsThere(parse, shuffle, before);
        var id :| id in FirstRows(before) && !HasNoBreak(Item(id, FirstRows(before)[id]));
        assert id in FirstRows(runs) && FirstRows(runs)[id] == FirstRows(before)[id];
      }
    }
  }

  lemma {:induction false} ADirtyRunIsTheLast(parse: Parser, shuffle: Shuffle, first: Run, again: Run)
    requires Parses(parse) && Permutes(shuffle) && !AllClean(first.pending)
    ensures Finished(parse, shuffle, NO_FILES, first).1 == Wrote
    ensures Finished(parse, shuffle, AfterRuns(parse, shuffle, [first]), again) == (AfterRuns(parse, shuffle, [first]), BadLine)
  {
    assert [first][..0] == [] && [first, again][..1] == [first];
    assert FirstRows([first]) == first.pending;
    RunsLeaveFiles(parse, shuffle, [first]);
    WhatIsThere(parse, shuffle, [first]);
  }

  /** One line separator in a prompt is enough: the run that dumps it succeeds, and every run
      after it raises. */
  lemma {:induction false} ALineSeparatorStopsTheDump(parse: Parser, shuffle: Shuffle, seed: int, system: string, id: Id, again: Run)
    requires Parses(parse) && Permutes(shuffle)
    ensures var first := Run(seed, system, map[id := Asked("", "\U{2028}")]);
            && Finished(parse, shuffle, NO_FILES, first).1 == Wrote
            && Finished(parse, shuffle, AfterRuns(parse, shuffle, [first]), again) == (AfterRuns(parse, shuffle, [first]), BadLine)
  {
    var first := Run(seed, system, map[id := Asked("", "\U{2028}")]);
    ALineSeparatorIsRaw(id);
    assert id in first.pending && !AllClean(first.pending);
    ADirtyRunIsTheLast(parse, shuffle, first, again);
  }

  lemma {:induction false} ALineSeparatorIsRaw(id: Id)
    ensures !HasNoBreak(Item(id, Asked("", "\U{2028}")))
  {
    assert IsRawBreak("\U{2028}"[0]);
  }

  /** On any two files whose dump can be read, the lookup is defined if and only if every id of
      the dump is in the key file or among the items now being added. */
  lemma {:induction false} LookupDefinedIff(parse: Parser, shuffle: Shuffle, disk: Disk, run: Run)
    requires Permutes(shuffle)
    ensures Finished(parse, shuffle, disk, run).1
            == match RowsOf(parse, disk)
               case None => BadLine
               case Some(rows) => if rows.Keys <= OwnersOf(disk).Keys + run.pending.Keys then Wrote else UnknownId
  {
  }

  /** An item keeps the question and the owner of the first run that asked it. */
  lemma {:induction false} FirstRunKeepsIt(runs: seq<Run>, i: nat, id: Id)
    requires i < |runs| && id in runs[i].pending && forall j :: 0 <= j < i ==> id !in runs[j].pending
    ensures id in FirstRows(runs) && FirstRows(runs)[id] == runs[i].pending[id]
    ensures id in FirstOwners(runs) && FirstOwners(runs)[id] == OwnedBy(runs[i].system, runs[i].pending[id])
  {
    var before := runs[..|runs| - 1];
    if i < |before| {
      FirstRunKeepsIt(before, i, id);
    } else {
      HeldIfAsked(before, id);
    }
  }

  /** The files after runs of which the last did not raise. */
  lemma {:induction false} KeyFileIs(parse: Parser, shuffle: Shuffle, runs: seq<Run>)
    requires Parses(parse) && Permutes(shuffle) && runs != [] && AllClean(FirstRows(runs[..|runs| - 1]))
    ensures FirstRows(runs).Keys == FirstOwners(runs).Keys
    ensures OwnersOf(AfterRuns(parse, shuffle, runs)) == FirstOwners(runs)
    ensures AfterRuns(parse, shuffle, runs) == Files(parse, shuffle, runs[|runs| - 1].seed, FirstRows(runs), FirstOwners(runs))
  {
    RunsLeaveFiles(parse, shuffle, runs);
    FilesReadBack(parse, shuffle, runs[|runs| - 1].seed, FirstRows(runs), FirstOwners(runs));
  }

  lemma {:induction false} OwnerOfBuilt(system: string, asked: Asked, question: string, context: string)
    requires '\n' !in question && asked.prompt == "Question: " + question + "\n--- retrieved memory ---\n" + context
    ensures OwnedBy(system, asked) == Owner(system, Strip("Question: " + question))
  {
    Prompt.OneLineQuestions(question, context, None);
    assert "Question: " + question + "" == "Question: " + question;
    assert asked.prompt == Prompt.BuildPrompt(question, context, None);
  }

  /** The key file says of an item which system asked it first, and the question of its prompt
      up to the marker, for a prompt that was built from a one-line question. */
  lemma {:induction false} KeyNamesTheQuestion(parse: Parser, shuffle: Shuffle, runs: seq<Run>, i: nat, id: Id,
                                               question: string, context: string)
    requires Parses(parse) && Permutes(shuffle) && runs != [] && AllClean(FirstRows(runs[..|runs| - 1]))
    requires i < |runs| && id in runs[i].pending && forall j :: 0 <= j < i ==> id !in runs[j].pending
    requires '\n' !in question && runs[i].pending[id].prompt == "Question: " + question + "\n--- retrieved memory ---\n" + context
    ensures var owners := OwnersOf(AfterRuns(parse, shuffle, runs));
            id in owners && owners[id] == Owner(runs[i].system, Strip("Question: " + question))
  {
    KeyFileIs(parse, shuffle, runs);
    FirstRunKeepsIt(runs, i, id);
    OwnerOfBuilt(runs[i].system, runs[i].pending[id], question, context);
  }

  /** The lines of both files stand in the order into which the seed shuffles the sorted ids:
      whose item a line is cannot be told from where it stands. */
  lemma {:induction false} LinesAreShuffled(parse: Parser, shuffle: Shuffle, runs: seq<Run>) returns (rows: seq<Item<Asked>>)
    requires Parses(parse) && Permutes(shuffle) && runs != [] && AllClean(FirstRows(runs[..|runs| - 1]))
    ensures var disk, seed := AfterRuns(parse, shuffle, runs), runs[|runs| - 1].seed;
            var order := shuffle(seed, SortedIds(FirstRows(runs).Keys));
            && disk.dump == Some(Written(Rows(parse), rows)) && disk.key.Some? && disk.key.value.seed == seed
            && |rows| == |disk.key.value.items| == |order|
            && forall k :: 0 <= k < |order| ==> rows[k].id == order[k] == disk.key.value.items[k].id
  {
    KeyFileIs(parse, shuffle, runs);
    rows := Listed(FirstRows(runs), Order(shuffle, runs[|runs| - 1].seed, FirstRows(runs).Keys));
  }

  ghost predicate AskedIn(runs: seq<Run>, id: Id) {
    exists j :: 0 <= j < |runs| && id in runs[j].pending
  }

  lemma {:induction false} HeldIfAsked(runs: seq<Run>, id: Id)
    ensures id in FirstRows(runs) <==> AskedIn(runs, id)
    ensures id in FirstOwners(runs) <==> AskedIn(runs, id)
  {
    if runs == [] {
    } else {
      var before := runs[..|runs| - 1];
      HeldIfAsked(before, id);
      assert forall j :: 0 <= j < |before| ==> before[j] == runs[j];
      assert AskedIn(runs, id) <==> AskedIn(before, id) || id in runs[|runs| - 1].pending;
    }
  }

  /** The rows of the dump in the order of its lines, after runs none of which raised. */
  ghost function Listing(shuffle: Shuffle, runs: seq<Run>): (items: seq<Item<Asked>>)
    requires Permutes(shuffle) && runs != []
  {
    Listed(FirstRows(runs), Order(shuffle, runs[|runs| - 1].seed, FirstRows(runs).Keys))
  }

  /** The order of the lines depends only on which ids were asked and on the last seed, so two
      systems dumped either way round are shuffled the same way, when neither order raises. */
  lemma {:induction false} OrderIgnoresRunOrder(parse: Parser, shuffle: Shuffle, a: seq<Run>, b: seq<Run>)
    requires Parses(parse) && Permutes(shuffle) && a != [] && b != [] && a[|a| - 1].seed == b[|b| - 1].seed
    requires AllClean(FirstRows(a[..|a| - 1])) && AllClean(FirstRows(b[..|b| - 1]))
    requires forall id :: AskedIn(a, id) <==> AskedIn(b, id)
    ensures AfterRuns(parse, shuffle, a).dump == Some(Written(Rows(parse), Listing(shuffle, a)))
    ensures AfterRuns(parse, shuffle, b).dump == Some(Written(Rows(parse), Listing(shuffle, b)))
    ensures var x, y := Listing(shuffle, a), Listing(shuffle, b);
            |x| == |y| && forall i :: 0 <= i < |x| ==> x[i].id == y[i].id
  {
    RunsLeaveFiles(parse, shuffle, a);
    RunsLeaveFiles(parse, shuffle, b);
    SameIds(a, b);
  }

  lemma {:induction false} SameIds(a: seq<Run>, b: seq<Run>)
    requires forall id :: AskedIn(a, id) <==> AskedIn(b, id)
    ensures FirstRows(a).Keys == FirstRows(b).Keys
  {
    forall id ensures id in FirstRows(a).Keys <==> id in FirstRows(b).Keys {
      HeldIfAsked(a, id);
      HeldIfAsked(b, id);
    }
  }

  lemma {:induction false} MergeNothingNew<V>(there: map<Id, V>, more: map<Id, V>)
    requires more.Keys <= there.Keys
    ensures Merged(there, more) == there
  {
  }

  /** A run that asks only what was already asked, under the seed in use, changes neither file:
      it writes them again as they are, or, when a row in them has a raw break, raises. */
  lemma {:induction false} RepeatChangesNothing(parse: Parser, shuffle: Shuffle, runs: seq<Run>, again: Run)
    requires Parses(parse) && Permutes(shuffle) && runs != [] && again.seed == runs[|runs| - 1].seed
    requires forall id :: id in again.pending ==> AskedIn(runs, id)
    ensures Finished(parse, shuffle, AfterRuns(parse, shuffle, runs), again)
            == (AfterRuns(parse, shuffle, runs), if AllClean(FirstRows(runs)) then Wrote else BadLine)
  {
    RunsLeaveFiles(parse, shuffle, runs);
    RunsLeaveFiles(parse, shuffle, runs + [again]);
    assert (runs + [again])[..|runs + [again]| - 1] == runs;
    forall id | id in again.pending ensures id in FirstRows(runs) && id in FirstOwners(runs) {
      HeldIfAsked(runs, id);
    }
    MergeNothingNew(FirstRows(runs), again.pending);
    MergeNothingNew(FirstOwners(runs), Owners(again.system, again.pending));
    if AllClean(FirstRows(runs)) {
      CleanBefore(runs);
    }
  }

  lemma {:induction false} CleanBefore(runs: seq<Run>)
    requires runs != [] && AllClean(FirstRows(runs))
    ensures AllClean(FirstRows(runs[..|runs| - 1]))
  {
    var before := FirstRows(runs[..|runs| - 1]);
    forall id | id in before ensures HasNoBreak(Item(id, before[id])) {
      assert id in FirstRows(runs) && FirstRows(runs)[id] == before[id];
    }
  }
}
