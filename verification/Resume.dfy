/** A scored run over questions and arms, interrupted and resumed from its file of rows. */
module Resuming {
  import opened Prelude
  import opened Sorting
  import opened Lines
  import opened Json
  import opened JsonLines
  import opened JsonParse
  import Bytes
  import opened Tallies

  /** A tally whose reasons are names of the program's own, as all of its reasons are. */
  predicate Named(t: Totals) {
    forall key :: key in t.fallbacks.Keys + t.refused.Keys ==> IsName(key)
  }

  type Tallied = t: Totals | Named(t) witness Nothing()

  datatype Row = Row(
    arm: string,
    qid: string,
    category: string,
    judged: Option<bool>,
    prediction: string,
    gold: string,
    extraction: Tallied)

  // ---- the lines of the file ---------------------------------------------------------

  /** The order in which a dict lists its keys. */
  type Order = set<string> -> seq<string>

  ghost predicate Enumerates(keys: seq<string>, s: set<string>) {
    Distinct(keys) && forall key :: key in keys <==> key in s
  }

  ghost predicate Orders(order: Order) {
    forall s :: Enumerates(order(s), s)
  }

  const COUNTS: seq<string> := [
    "writes", "turns", "llm_calls", "tokens_in", "tokens_out", "claims_written", "reinforced", "ended", "retired",
    "unextracted", "failed", "live_claims", "duplicate_same_slot", "duplicate_other_predicate", "agentic_runs"]

  function Values(c: Counts): (values: seq<int>)
    ensures |values| == |COUNTS|
  {
    [c.writes, c.turns, c.llmCalls, c.tokensIn, c.tokensOut, c.claimsWritten, c.reinforced, c.ended, c.retired,
     c.unextracted, c.failed, c.liveClaims, c.sameSlot, c.otherPredicate, c.agenticRuns]
  }

  function Numbered(names: seq<string>, values: seq<int>, rest: Fields): (fs: Fields)
    requires |names| == |values|
  {
    if names == [] then rest else Field(names[0], Token(Decimal(values[0])), Numbered(names[1..], values[1..], rest))
  }

  function DictFields(counts: map<string, int>, keys: seq<string>): (fs: Fields) {
    if keys == [] then End else Field(keys[0], Token(Decimal(Get(counts, keys[0]))), DictFields(counts, keys[1..]))
  }

  /** `to_dict` */
  function Listed(order: Order, t: Totals): (fs: Fields) {
    Numbered(COUNTS, Values(t.counts),
      Field("fallbacks", Nested(DictFields(t.fallbacks, order(t.fallbacks.Keys))),
        Field("refused", Nested(DictFields(t.refused, order(t.refused.Keys))), End)))
  }

  function Judged(judged: Option<bool>): (token: string)
    ensures IsToken(token)
  {
    match judged
    case None => ['n', 'u', 'l', 'l']
    case Some(yes) => if yes then ['t', 'r', 'u', 'e'] else ['f', 'a', 'l', 's', 'e']
  }

  function Quotes(row: Row, last: Fields): (fs: Fields) {
    Field("prediction", Text(row.prediction), Field("gold", Text(row.gold), last))
  }

  /** The row, around what its tally is printed as. */
  function Around(row: Row, extraction: Fields): (fs: Fields) {
    Field("arm", Text(row.arm), Field("qid", Text(row.qid), Field("category", Text(row.category),
      Field("judged", Token(Judged(row.judged)), Quotes(row, Field("extraction", Nested(extraction), End))))))
  }

  function Shape(order: Order, row: Row): (fs: Fields) {
    Around(row, Listed(order, row.extraction))
  }

  /** `json.loads` of a line, and the reading of its fields: `None` for a line that raises. */
  type Parser = string -> Option<Row>

  function Rows(parse: Parser, order: Order): (f: Format<Row>) {
    Format((row: Row) => Shape(order, row), parse, (row: Row) => row)
  }

  /** What is asked of the parser. RFC 8259 grants it of `json.loads`. */
  ghost predicate Parses(parse: Parser, order: Order) {
    && Orders(order)
    && (forall row, ws :: ReadsBehind(Rows(parse, order), row, ws))
    && (forall line :: parse(line).Some? ==> IsObject(line))
  }

  /** No character in it that `splitlines` cuts on and JSON leaves raw. */
  predicate HasNoBreak(row: Row) {
    !HasRawBreak(row.arm) && !HasRawBreak(row.qid) && !HasRawBreak(row.category)
    && !HasRawBreak(row.prediction) && !HasRawBreak(row.gold)
  }

  lemma {:induction false} NumberedFit(names: seq<string>, values: seq<int>, rest: Fields)
    requires |names| == |values| && forall name :: name in names ==> IsName(name)
    ensures WellFormed(Numbered(names, values, rest)) <==> WellFormed(rest)
    ensures Clean(Numbered(names, values, rest)) <==> Clean(rest)
  {
    if names == [] {
    } else {
      NumberedFit(names[1..], values[1..], rest);
      FieldFits(names[0], Token(Decimal(values[0])), Numbered(names[1..], values[1..], rest));
    }
  }

  lemma {:induction false} DictFits(counts: map<string, int>, keys: seq<string>)
    requires forall key :: key in keys ==> IsName(key)
    ensures WellFormed(DictFields(counts, keys)) && Clean(DictFields(counts, keys))
  {
    if keys == [] {
    } else {
      DictFits(counts, keys[1..]);
      FieldFits(keys[0], Token(Decimal(Get(counts, keys[0]))), DictFields(counts, keys[1..]));
    }
  }

  lemma {:induction false} CountsAreNames(i: nat)
    requires i < |COUNTS|
    ensures IsName(COUNTS[i])
  {
  }

  lemma {:induction false} ListedFits(order: Order, t: Tallied)
    requires Orders(order)
    ensures WellFormed(Listed(order, t)) && Clean(Listed(order, t))
  {
    var first, second := order(t.fallbacks.Keys), order(t.refused.Keys);
    assert Enumerates(first, t.fallbacks.Keys) && Enumerates(second, t.refused.Keys);
    DictFits(t.fallbacks, first);
    DictFits(t.refused, second);
    var last := Field("refused", Nested(DictFields(t.refused, second)), End);
    FieldFits("refused", Nested(DictFields(t.refused, second)), End);
    FieldFits("fallbacks", Nested(DictFields(t.fallbacks, first)), last);
    forall name | name in COUNTS ensures IsName(name) {
      var i: nat :| i < |COUNTS| && COUNTS[i] == name;
      CountsAreNames(i);
    }
    NumberedFit(COUNTS, Values(t.counts), Field("fallbacks", Nested(DictFields(t.fallbacks, first)), last));
  }

  lemma {:induction false} QuotesFit(row: Row, last: Fields)
    ensures WellFormed(Quotes(row, last)) <==> WellFormed(last)
    ensures Clean(Quotes(row, last)) <==> !HasRawBreak(row.prediction) && !HasRawBreak(row.gold) && Clean(last)
  {
    FieldFits("gold", Text(row.gold), last);
    FieldFits("prediction", Text(row.prediction), Field("gold", Text(row.gold), last));
  }

  lemma {:induction false} AroundFits(row: Row, extraction: Fields)
    requires WellFormed(extraction) && Clean(extraction)
    ensures WellFormed(Around(row, extraction)) && Around(row, extraction).Field?
    ensures Clean(Around(row, extraction)) <==> HasNoBreak(row)
  {
    var last := Field("extraction", Nested(extraction), End);
    var judged := Field("judged", Token(Judged(row.judged)), Quotes(row, last));
    var category := Field("category", Text(row.category), judged);
    FieldFits("extraction", Nested(extraction), End);
    QuotesFit(row, last);
    FieldFits("judged", Token(Judged(row.judged)), Quotes(row, last));
    FieldFits("category", Text(row.category), judged);
    FieldFits("qid", Text(row.qid), category);
    FieldFits("arm", Text(row.arm), Field("qid", Text(row.qid), category));
  }

  lemma {:induction false} ShapeFits(order: Order, row: Row)
    requires Orders(order)
    ensures WellFormed(Shape(order, row)) && Shape(order, row).Field?
    ensures Clean(Shape(order, row)) <==> HasNoBreak(row)
  {
    ListedFits(order, row.extraction);
    AroundFits(row, Listed(order, row.extraction));
  }

  lemma {:induction false} ParsesIsSound(parse: Parser, order: Order)
    requires Parses(parse, order)
    ensures Sound(Rows(parse, order))
    ensures forall row :: IsClean(Rows(parse, order), row) <==> HasNoBreak(row)
  {
    forall row ensures HasShape(Rows(parse, order), row) && (IsClean(Rows(parse, order), row) <==> HasNoBreak(row)) {
      ShapeFits(order, row);
    }
  }

  // ---- a parser that is enough -------------------------------------------------------

  lemma {:induction false} NumberedAt(names: seq<string>, values: seq<int>, rest: Fields, i: nat)
    requires |names| == |values| && i < |names| && Distinct(names)
    ensures Lookup(Numbered(names, values, rest), names[i]) == Some(Token(Decimal(values[i])))
  {
    LookupNext(names[0], Token(Decimal(values[0])), Numbered(names[1..], values[1..], rest), names[i]);
    if i == 0 {
    } else {
      assert names[0] != names[i];
      NumberedAt(names[1..], values[1..], rest, i - 1);
    }
  }

  lemma {:induction false} NumberedBehind(names: seq<string>, values: seq<int>, rest: Fields, key: string)
    requires |names| == |values| && key !in names
    ensures Lookup(Numbered(names, values, rest), key) == Lookup(rest, key)
  {
    if names == [] {
    } else {
      LookupNext(names[0], Token(Decimal(values[0])), Numbered(names[1..], values[1..], rest), key);
      NumberedBehind(names[1..], values[1..], rest, key);
    }
  }

  function CountsIn(fs: Fields): Counts {
    Counts(NumberUnder(fs, "writes"), NumberUnder(fs, "turns"), NumberUnder(fs, "llm_calls"), NumberUnder(fs, "tokens_in"),
           NumberUnder(fs, "tokens_out"), NumberUnder(fs, "claims_written"), NumberUnder(fs, "reinforced"),
           NumberUnder(fs, "ended"), NumberUnder(fs, "retired"), NumberUnder(fs, "unextracted"), NumberUnder(fs, "failed"),
           NumberUnder(fs, "live_claims"), NumberUnder(fs, "duplicate_same_slot"),
           NumberUnder(fs, "duplicate_other_predicate"), NumberUnder(fs, "agentic_runs"))
  }

  lemma {:induction false} CountNamesDiffer(i: nat, j: nat)
    requires i < j < |COUNTS|
    ensures COUNTS[i] != COUNTS[j]
  {
  }

  lemma {:induction false} CountUnder(c: Counts, rest: Fields, i: nat)
    requires i < |COUNTS|
    ensures NumberUnder(Numbered(COUNTS, Values(c), rest), COUNTS[i]) == Values(c)[i]
  {
    forall a: nat, b: nat | a < b < |COUNTS| ensures COUNTS[a] != COUNTS[b] {
      CountNamesDiffer(a, b);
    }
    NumberedAt(COUNTS, Values(c), rest, i);
    NumberUnderIs(Numbered(COUNTS, Values(c), rest), COUNTS[i], Values(c)[i]);
  }

  lemma {:induction false} CountsInOf(c: Counts, rest: Fields)
    ensures CountsIn(Numbered(COUNTS, Values(c), rest)) == c
  {
    var fs := Numbered(COUNTS, Values(c), rest);
    forall i: nat | i < |COUNTS| ensures NumberUnder(fs, COUNTS[i]) == Values(c)[i] {
      CountUnder(c, rest, i);
    }
    assert COUNTS[0] == "writes" && COUNTS[1] == "turns" && COUNTS[2] == "llm_calls" && COUNTS[3] == "tokens_in";
    assert COUNTS[4] == "tokens_out" && COUNTS[5] == "claims_written" && COUNTS[6] == "reinforced" && COUNTS[7] == "ended";
    assert COUNTS[8] == "retired" && COUNTS[9] == "unextracted" && COUNTS[10] == "failed" && COUNTS[11] == "live_claims";
    assert COUNTS[12] == "duplicate_same_slot" && COUNTS[13] == "duplicate_other_predicate" && COUNTS[14] == "agentic_runs";
  }

  function DictIn(fs: Fields): map<string, int> {
    if fs.End? then map[] else DictIn(fs.rest)[fs.key := if fs.value.Token? then Undecimal(fs.value.token) else 0]
  }

  lemma {:induction false} DictInOf(counts: map<string, int>, keys: seq<string>)
    requires forall key :: key in keys ==> key in counts
    ensures forall key :: key in DictIn(DictFields(counts, keys)) <==> key in keys
    ensures forall key :: key in keys ==> DictIn(DictFields(counts, keys))[key] == counts[key]
  {
    if keys == [] {
    } else {
      DictInOf(counts, keys[1..]);
      UndecimalOf(counts[keys[0]]);
      assert forall key :: key in keys <==> key == keys[0] || key in keys[1..];
    }
  }

  function TotalsIn(fs: Fields): Totals {
    Totals(CountsIn(fs), DictIn(FieldsUnder(fs, "fallbacks")), DictIn(FieldsUnder(fs, "refused")))
  }

  lemma {:induction false} DictBack(order: Order, counts: map<string, int>)
    requires Orders(order)
    ensures DictIn(DictFields(counts, order(counts.Keys))) == counts
  {
    assert Enumerates(order(counts.Keys), counts.Keys);
    DictInOf(counts, order(counts.Keys));
  }

  lemma {:induction false} NoCount(i: nat)
    requires i < |COUNTS|
    ensures COUNTS[i] != "fallbacks" && COUNTS[i] != "refused"
  {
  }

  lemma {:induction false} DictsUnder(c: Counts, fallbacks: Fields, refused: Fields)
    ensures var fs := Numbered(COUNTS, Values(c), Field("fallbacks", Nested(fallbacks), Field("refused", Nested(refused), End)));
            FieldsUnder(fs, "fallbacks") == fallbacks && FieldsUnder(fs, "refused") == refused
  {
    var last := Field("refused", Nested(refused), End);
    forall i: nat | i < |COUNTS| ensures COUNTS[i] != "fallbacks" && COUNTS[i] != "refused" {
      NoCount(i);
    }
    NumberedBehind(COUNTS, Values(c), Field("fallbacks", Nested(fallbacks), last), "fallbacks");
    NumberedBehind(COUNTS, Values(c), Field("fallbacks", Nested(fallbacks), last), "refused");
    LookupNext("fallbacks", Nested(fallbacks), last, "fallbacks");
    LookupNext("fallbacks", Nested(fallbacks), last, "refused");
    LookupNext("refused", Nested(refused), End, "refused");
  }

  /** `from_dict` gets back what `to_dict` wrote, each count under its own name. */
  lemma {:induction false} TotalsInOf(order: Order, t: Totals)
    requires Orders(order)
    ensures TotalsIn(Listed(order, t)) == t
  {
    var fallbacks, refused := DictFields(t.fallbacks, order(t.fallbacks.Keys)), DictFields(t.refused, order(t.refused.Keys));
    DictBack(order, t.fallbacks);
    DictBack(order, t.refused);
    CountsInOf(t.counts, Field("fallbacks", Nested(fallbacks), Field("refused", Nested(refused), End)));
    DictsUnder(t.counts, fallbacks, refused);
  }

  function JudgedIn(value: Option<Value>): Option<bool> {
    if value == Some(Token("null")) then None else Some(value == Some(Token("true")))
  }

  function ReadFields(fs: Fields): Option<Row> {
    var totals := TotalsIn(FieldsUnder(fs, "extraction"));
    Some(Row(TextUnder(fs, "arm"), TextUnder(fs, "qid"), TextUnder(fs, "category"), JudgedIn(Lookup(fs, "judged")),
             TextUnder(fs, "prediction"), TextUnder(fs, "gold"), if Named(totals) then totals else Nothing()))
  }

  lemma {:induction false} UnderAround(row: Row, extraction: Fields, key: string)
    ensures Lookup(Around(row, extraction), key)
            == if key == "arm" then Some(Text(row.arm))
               else if key == "qid" then Some(Text(row.qid))
               else if key == "category" then Some(Text(row.category))
               else if key == "judged" then Some(Token(Judged(row.judged)))
               else if key == "prediction" then Some(Text(row.prediction))
               else if key == "gold" then Some(Text(row.gold))
               else if key == "extraction" then Some(Nested(extraction))
               else None
  {
    var last := Field("extraction", Nested(extraction), End);
    var gold := Field("gold", Text(row.gold), last);
    var prediction := Field("prediction", Text(row.prediction), gold);
    var judged := Field("judged", Token(Judged(row.judged)), prediction);
    var category := Field("category", Text(row.category), judged);
    LookupNext("extraction", Nested(extraction), End, key);
    LookupNext("gold", Text(row.gold), last, key);
    LookupNext("prediction", Text(row.prediction), gold, key);
    LookupNext("judged", Token(Judged(row.judged)), prediction, key);
    LookupNext("category", Text(row.category), judged, key);
    LookupNext("qid", Text(row.qid), category, key);
    LookupNext("arm", Text(row.arm), Field("qid", Text(row.qid), category), key);
  }

  /** Every part of a row is printed under the name it is read under. */
  lemma {:induction false} ReadAround(row: Row, nested: Fields)
    requires TotalsIn(nested) == row.extraction
    ensures ReadFields(Around(row, nested)) == Some(row)
  {
    UnderAround(row, nested, "arm");
    UnderAround(row, nested, "qid");
    UnderAround(row, nested, "category");
    UnderAround(row, nested, "judged");
    UnderAround(row, nested, "prediction");
    UnderAround(row, nested, "gold");
    UnderAround(row, nested, "extraction");
  }

  lemma {:induction false} ReadFieldsOf(order: Order, row: Row)
    requires Orders(order)
    ensures ReadFields(Shape(order, row)) == Some(row)
  {
    TotalsInOf(order, row.extraction);
    ReadAround(row, Listed(order, row.extraction));
  }

  ghost function Enumeration(s: set<string>): (keys: seq<string>)
    ensures Enumerates(keys, s)
  {
    if s == {} then [] else var key :| key in s; [key] + Enumeration(s - {key})
  }

  /** What is asked of the parser can be met. */
  lemma {:induction false} SomeParserParses()
    ensures Parses(ReaderOf(ReadFields), Enumeration)
  {
    var shape, same := (row: Row) => Shape(Enumeration, row), (row: Row) => row;
    forall row ensures WellFormed(shape(row)) && shape(row).Field? && ReadFields(shape(row)) == Some(same(row)) {
      ShapeFits(Enumeration, row);
      ReadFieldsOf(Enumeration, row);
    }
    ReaderIsSound(shape, ReadFields, same);
    var f := Format(shape, ReaderOf(ReadFields), same);
    forall row, ws ensures ReadsBehind(Rows(ReaderOf(ReadFields), Enumeration), row, ws) {
      assert ReadsBehind(f, row, ws);
    }
  }

  // ---- jobs and sessions -------------------------------------------------------------

  datatype Job = Job(arm: string, qid: string)

  const ARMS: seq<string> := ["single_call", "agentic"]

  function KeyOf(row: Row): Job {
    Job(row.arm, row.qid)
  }

  function Keys(rows: seq<Row>): set<Job> {
    set row | row in rows :: KeyOf(row)
  }

  function Asked(ids: seq<string>): Row -> bool {
    (row: Row) => row.qid in ids
  }

  /** `(item, arm) for item in items for arm in ARMS if not done` */
  function Jobs(ids: seq<string>, done: set<Job>): (jobs: seq<Job>) {
    if ids == [] then []
    else OneIf(NotIn(done), Job(ARMS[0], ids[0])) + OneIf(NotIn(done), Job(ARMS[1], ids[0])) + Jobs(ids[1..], done)
  }

  function NotIn(done: set<Job>): Job -> bool {
    (job: Job) => job !in done
  }

  lemma {:induction false} JobsAre(ids: seq<string>, done: set<Job>)
    ensures forall job :: job in Jobs(ids, done) <==> job.arm in ARMS && job.qid in ids && job !in done
  {
    if ids == [] {
    } else {
      JobsAre(ids[1..], done);
      assert ids == [ids[0]] + ids[1..];
    }
  }

  ghost predicate DistinctKeys(rows: seq<Row>) {
    forall i, j :: 0 <= i < j < |rows| ==> KeyOf(rows[i]) != KeyOf(rows[j])
  }

  /** A row that a kill cut: its first `kept` characters are in the file. */
  datatype Cut = Cut(row: Row, kept: nat)

  /** One invocation: the questions it was asked, the rows that were written before it was
      stopped, in the order in which the pool finished them, and the one it was killed in. */
  datatype Session = Session(ids: seq<string>, finished: seq<Row>, cut: Option<Cut>)

  function CutRows(cut: Option<Cut>): (rows: seq<Row>) {
    if cut.Some? then [cut.value.row] else []
  }

  function CutAppends(cut: Option<Cut>): (appends: seq<Append<Row>>) {
    if cut.Some? then [Killed(cut.value.row, cut.value.kept)] else []
  }

  /** What the sessions appended to the file. */
  function Appends(sessions: seq<Session>): (appends: seq<Append<Row>>) {
    if sessions == [] then []
    else
      var last := sessions[|sessions| - 1];
      Appends(sessions[..|sessions| - 1]) + (Wholes(last.finished) + CutAppends(last.cut))
  }

  /** The rows of which the sessions wrote every character. */
  function AllRows(f: Format<Row>, sessions: seq<Session>): (rows: seq<Row>) {
    InFull(f, Appends(sessions))
  }

  /** What a session starts from: the rows of the file that answer its questions. */
  function Resumed(rows: seq<Row>, ids: seq<string>): (mine: seq<Row>) {
    Filter(Asked(ids), rows)
  }

  /** The pool answers jobs of the session, each of them once. */
  ghost predicate Answers(before: seq<Row>, ids: seq<string>, rows: seq<Row>) {
    DistinctKeys(rows) && forall row :: row in rows ==> KeyOf(row) in Jobs(ids, Keys(Resumed(before, ids)))
  }

  /** The file that the sessions leave. */
  function FileOf(f: Format<Row>, sessions: seq<Session>): (text: string) {
    TextOf(f, Appends(sessions))
  }

  /** Any history of runs, each asked for questions of its own and stopped at any character of
      a write. A session starts when it can read the file the earlier ones left, and takes it
      from there. */
  ghost predicate History(f: Format<Row>, sessions: seq<Session>) {
    sessions != [] ==>
      var n := |sessions| - 1;
      var stored := ReadAll(f, FileOf(f, sessions[..n]));
      History(f, sessions[..n]) && stored.Some?
      && Answers(stored.value, sessions[n].ids, sessions[n].finished + CutRows(sessions[n].cut))
  }

  /** The last session was not stopped. */
  ghost predicate Completed(before: seq<Row>, session: Session) {
    session.cut.None? && Answers(before, session.ids, session.finished)
    && forall job :: job in Jobs(session.ids, Keys(Resumed(before, session.ids))) ==> job in Keys(session.finished)
  }

  /** One invocation on the file: `finished` is what the pool hands back before it stops. */
  method RunSession(f: Format<Row>, text: string, ids: seq<string>, finished: seq<Row>) returns (out: Option<(string, seq<Row>)>)
    ensures out.None? <==> ReadAll(f, text).None?
    ensures out.Some? ==> out.value.0 == text + Written(f, finished)
    ensures out.Some? ==> out.value.1 == Resumed(ReadAll(f, text).value, ids) + finished
  {
    var stored := ReadStrictly(f, text);
    if stored.None? {
      return None;
    }
    var rows, sink := Resumed(stored.value, ids), text;
    assert Wholes<Row>([]) == [] && text + "" == text;
    for i := 0 to |finished|
      invariant rows == Resumed(stored.value, ids) + finished[..i] && sink == text + Written(f, finished[..i])
    {
      WrittenNext(f, finished, i);
      Associate(text, Written(f, finished[..i]), Printed(f, finished[i]) + "\n");
      rows := rows + [finished[i]];
      sink := sink + (Printed(f, finished[i]) + "\n");
      assert finished[..i + 1] == finished[..i] + [finished[i]];
    }
    assert finished[..|finished|] == finished;
    return Some((sink, rows));
  }

  /** What a session appends is all that it does to the file. */
  lemma {:induction false} FileGrows(f: Format<Row>, sessions: seq<Session>, session: Session)
    ensures FileOf(f, sessions + [session]) == FileOf(f, sessions) + TextOf(f, Wholes(session.finished) + CutAppends(session.cut))
    ensures session.cut.None? ==> FileOf(f, sessions + [session]) == FileOf(f, sessions) + Written(f, session.finished)
  {
    var all := sessions + [session];
    assert all[..|all| - 1] == sessions && all[|all| - 1] == session;
    TextAppend(f, Appends(sessions), Wholes(session.finished) + CutAppends(session.cut));
    assert Wholes(session.finished) + [] == Wholes(session.finished);
  }

  lemma {:induction false} WrittenNext(f: Format<Row>, rows: seq<Row>, i: nat)
    requires i < |rows|
    ensures Written(f, rows[..i + 1]) == Written(f, rows[..i]) + (Printed(f, rows[i]) + "\n")
  {
    assert Wholes(rows[..i + 1]) == Wholes(rows[..i]) + [Whole(rows[i])];
    TextAppend(f, Wholes(rows[..i]), [Whole(rows[i])]);
    TextCons(f, Whole(rows[i]), []);
    assert [Whole(rows[i])] + [] == [Whole(rows[i])];
    assert Printed(f, rows[i]) + "\n" + "" == Printed(f, rows[i]) + "\n";
  }

  // ---- which files can be resumed from -----------------------------------------------

  /** A session starts if and only if no row before it has a raw break, and no write before it
      was cut but those that wrote nothing, or the last one short of its line feed alone. It
      starts from every row that was written in full. */
  lemma {:induction false} StartsIff(parse: Parser, order: Order, sessions: seq<Session>)
    requires Parses(parse, order)
    ensures var f := Rows(parse, order);
            StrictlyReads(f, Appends(sessions), if Intact(f, false, Appends(sessions)) then Some(AllRows(f, sessions)) else None)
  {
    ParsesIsSound(parse, order);
    StrictReadsInFull(Rows(parse, order), Appends(sessions));
  }

  /** Which file with one kill in it a session can start from, and what it finds there. */
  lemma {:induction false} StartsAfterKillIff(parse: Parser, order: Order, before: seq<Row>, row: Row, kept: nat, after: seq<Row>)
    requires Parses(parse, order)
    ensures var f := Rows(parse, order);
            StrictlyReads(f, Wholes(before) + ([Killed(row, kept)] + Wholes(after)),
              if && (forall r :: r in before || r in after ==> HasNoBreak(r))
                 && (kept == 0 || (after == [] && kept >= |Printed(f, row)| && HasNoBreak(row)))
              then Some(AroundKill(f, before, row, kept, after)) else None)
  {
    ParsesIsSound(parse, order);
    StrictAroundKill(Rows(parse, order), before, row, kept, after);
  }

  /** `_read_rows` of a file of bytes. It raises, too, when they are not UTF-8. */
  ghost function ReadBytes(f: Format<Row>, bytes: seq<Bytes.Byte>): (rows: Option<seq<Row>>) {
    match Bytes.Decoded(bytes)
    case None => None
    case Some(text) => ReadAll(f, text)
  }

  /** Of a file cut at any bytes, a session starts if and only if, besides, no kill came in the
      middle of a character. */
  lemma {:induction false} StartsOnBytesIff(parse: Parser, order: Order, appends: seq<Append<Row>>)
    requires Parses(parse, order)
    ensures var f := Rows(parse, order);
            var cut := Bytes.AllCounted(f, appends);
            ReadBytes(f, Bytes.FileOf(f, appends))
            == if Bytes.NoneSplit(f, appends) && Intact(f, false, cut) then Some(InFull(f, cut)) else None
  {
    var f := Rows(parse, order);
    ParsesIsSound(parse, order);
    Bytes.FileDecodesIff(f, appends);
    StrictReadsInFull(f, Bytes.AllCounted(f, appends));
  }

  // ---- each question once in each arm ------------------------------------------------

  /** A session never answers what the file holds already, whoever asked for it. */
  lemma {:induction false} NothingTwice(before: seq<Row>, ids: seq<string>, rows: seq<Row>)
    requires DistinctKeys(before) && Answers(before, ids, rows)
    ensures DistinctKeys(before + rows)
  {
    var mine := Resumed(before, ids);
    JobsAre(ids, Keys(mine));
    InFilter(Asked(ids), before);
    forall row, earlier | row in rows && earlier in before ensures KeyOf(row) != KeyOf(earlier) {
      assert KeyOf(row) in Jobs(ids, Keys(mine));
      assert KeyOf(row) == KeyOf(earlier) ==> earlier in mine;
    }
    var all := before + rows;
    forall i, j | 0 <= i < j < |all| ensures KeyOf(all[i]) != KeyOf(all[j]) {
      if i < |before| <= j {
        assert all[i] in before && all[j] in rows;
      }
    }
  }

  lemma {:induction false} RereadsAre(parse: Parser, order: Order, rows: seq<Row>)
    ensures Rereads(Rows(parse, order), rows) == rows
  {
    if rows == [] {
    } else {
      RereadsAre(parse, order, rows[1..]);
      assert rows == [rows[0]] + rows[1..];
    }
  }

  /** A session adds its rows to the file, but for one that a kill cut. */
  lemma {:induction false} SessionAdds(parse: Parser, order: Order, sessions: seq<Session>)
    requires sessions != []
    ensures var f, last := Rows(parse, order), sessions[|sessions| - 1];
            && AllRows(f, sessions) == AllRows(f, sessions[..|sessions| - 1]) + (last.finished + InFull(f, CutAppends(last.cut)))
            && InFull(f, CutAppends(last.cut)) <= CutRows(last.cut)
  {
    var f, last := Rows(parse, order), sessions[|sessions| - 1];
    InFullAppend(f, Appends(sessions[..|sessions| - 1]), Wholes(last.finished) + CutAppends(last.cut));
    WholesInFull(f, last.finished, CutAppends(last.cut));
    RereadsAre(parse, order, last.finished);
  }

  lemma {:induction false} PrefixDistinct(rows: seq<Row>, first: seq<Row>)
    requires DistinctKeys(rows) && first <= rows
    ensures DistinctKeys(first)
  {
    forall i, j | 0 <= i < j < |first| ensures KeyOf(first[i]) != KeyOf(first[j]) {
      assert first[i] == rows[i] && first[j] == rows[j];
    }
  }

  lemma {:induction false} EachJobOnce(parse: Parser, order: Order, sessions: seq<Session>)
    requires Parses(parse, order) && History(Rows(parse, order), sessions)
    ensures DistinctKeys(AllRows(Rows(parse, order), sessions))
    decreases |sessions|
  {
    if sessions == [] {
    } else {
      var f, n := Rows(parse, order), |sessions| - 1;
      var before, last := AllRows(f, sessions[..n]), sessions[n];
      EachJobOnce(parse, order, sessions[..n]);
      StartsIff(parse, order, sessions[..n]);
      NothingTwice(before, last.ids, last.finished + CutRows(last.cut));
      SessionAdds(parse, order, sessions);
      PrefixDistinct(before + (last.finished + CutRows(last.cut)), AllRows(f, sessions));
    }
  }

  lemma {:induction false} FilterKeepsKeys(p: Row -> bool, rows: seq<Row>)
    requires DistinctKeys(rows)
    ensures DistinctKeys(Filter(p, rows))
  {
    if rows == [] {
    } else {
      FilterKeepsKeys(p, rows[1..]);
      InFilter(p, rows[1..]);
      assert forall row :: row in rows[1..] ==> KeyOf(rows[0]) != KeyOf(row);
      var rest := Filter(p, rows[1..]);
      assert Filter(p, rows) == OneIf(p, rows[0]) + rest;
      assert forall i :: 0 <= i < |rest| ==> rest[i] in rows[1..];
    }
  }

  /** What the last session reports on: its own rows and those it resumed. */
  function Reported(stored: seq<Row>, session: Session): (rows: seq<Row>) {
    Resumed(stored, session.ids) + session.finished
  }

  lemma {:induction false} ReportedKeys(stored: seq<Row>, session: Session, row: Row)
    requires Answers(stored, session.ids, session.finished) && row in Reported(stored, session)
    ensures row.qid in session.ids
  {
    InFilter(Asked(session.ids), stored);
    JobsAre(session.ids, Keys(Resumed(stored, session.ids)));
    if row in session.finished {
      assert KeyOf(row) in Jobs(session.ids, Keys(Resumed(stored, session.ids)));
    }
  }

  lemma {:induction false} AllReported(stored: seq<Row>, session: Session, job: Job)
    requires Completed(stored, session) && job.arm in ARMS && job.qid in session.ids
    ensures job in Keys(Reported(stored, session))
  {
    var mine := Resumed(stored, session.ids);
    JobsAre(session.ids, Keys(mine));
    if job in Keys(mine) {
      var row :| row in mine && KeyOf(row) == job;
      assert row in Reported(stored, session);
    } else {
      assert job in Keys(session.finished);
      var row :| row in session.finished && KeyOf(row) == job;
      assert row in Reported(stored, session);
    }
  }

  /** A session that was not stopped, after any history of such as were, and the rows it found
      in the file. */
  ghost predicate LastOf(f: Format<Row>, before: seq<Session>, stored: seq<Row>, session: Session) {
    History(f, before) && ReadAll(f, FileOf(f, before)) == Some(stored) && Completed(stored, session)
  }

  lemma {:induction false} StoredOnce(parse: Parser, order: Order, before: seq<Session>, stored: seq<Row>, session: Session)
    requires Parses(parse, order) && LastOf(Rows(parse, order), before, stored, session)
    ensures DistinctKeys(stored) && DistinctKeys(stored + session.finished)
  {
    EachJobOnce(parse, order, before);
    StartsIff(parse, order, before);
    NothingTwice(stored, session.ids, session.finished);
  }

  /** However often the run was stopped, the last session reports on every question in every
      arm exactly once, and on nothing else. */
  lemma {:induction false} ReportIsComplete(parse: Parser, order: Order, before: seq<Session>, stored: seq<Row>, session: Session)
    requires Parses(parse, order) && LastOf(Rows(parse, order), before, stored, session)
    ensures DistinctKeys(Reported(stored, session))
    ensures forall job: Job :: job.arm in ARMS ==> (job in Keys(Reported(stored, session)) <==> job.qid in session.ids)
  {
    StoredOnce(parse, order, before, stored, session);
    FilterKeepsKeys(Asked(session.ids), stored + session.finished);
    FilterAppend(Asked(session.ids), stored, session.finished);
    forall row | row in session.finished ensures Asked(session.ids)(row) {
      assert row in Reported(stored, session);
      ReportedKeys(stored, session, row);
    }
    FilterAll(Asked(session.ids), session.finished);
    forall job: Job | job.arm in ARMS ensures job in Keys(Reported(stored, session)) <==> job.qid in session.ids {
      if job.qid in session.ids {
        AllReported(stored, session, job);
      } else if job in Keys(Reported(stored, session)) {
        var row :| row in Reported(stored, session) && KeyOf(row) == job;
        ReportedKeys(stored, session, row);
      }
    }
  }

  // ---- the totals of the last session ------------------------------------------------

  function Extractions(rows: seq<Row>): (tallies: seq<Totals>)
    ensures |tallies| == |rows|
  {
    seq(|rows|, i requires 0 <= i < |rows| => rows[i].extraction)
  }

  function OfArm(arm: string): Row -> bool {
    (row: Row) => row.arm == arm
  }

  /** An arm's tally: those of its rows, merged. */
  function ArmTotal(rows: seq<Row>, arm: string): (total: Totals) {
    MergedAll(Extractions(Filter(OfArm(arm), rows)))
  }

  function WithRow(total: Totals, row: Row, arm: string): Totals {
    if row.arm == arm then Merged(total, row.extraction) else total
  }

  lemma {:induction false} ArmTotalNext(rows: seq<Row>, i: nat, arm: string)
    requires i < |rows|
    ensures ArmTotal(rows[..i + 1], arm) == WithRow(ArmTotal(rows[..i], arm), rows[i], arm)
  {
    var before := Filter(OfArm(arm), rows[..i]);
    assert rows[..i + 1] == rows[..i] + [rows[i]];
    FilterAppend(OfArm(arm), rows[..i], [rows[i]]);
    if rows[i].arm == arm {
      assert Filter(OfArm(arm), rows[..i + 1]) == before + [rows[i]];
      assert Extractions(before + [rows[i]]) == Extractions(before) + [rows[i].extraction];
      assert (Extractions(before) + [rows[i].extraction])[..|before|] == Extractions(before);
    } else {
      assert Filter(OfArm(arm), rows[..i + 1]) == before;
    }
  }

  /** `tallies[row.arm].merge(row.extraction)`; a row of neither arm is a KeyError. */
  method MergeRow(single: Tally, agentic: Tally, row: Row, arm: string, other: string) returns (ok: bool)
    requires single != agentic && arm != other
    modifies single, agentic
    ensures ok <==> row.arm == arm || row.arm == other
    ensures ok ==> single.View() == WithRow(old(single.View()), row, arm)
    ensures ok ==> agentic.View() == WithRow(old(agentic.View()), row, other)
  {
    if row.arm == arm {
      single.Merge(row.extraction);
    } else if row.arm == other {
      agentic.Merge(row.extraction);
    }
    ok := row.arm == arm || row.arm == other;
  }

  predicate OfArms(rows: seq<Row>, arm: string, other: string) {
    forall i :: 0 <= i < |rows| ==> rows[i].arm == arm || rows[i].arm == other
  }

  /** The two tallies after the first `i` rows. */
  ghost predicate Summed(rows: seq<Row>, i: nat, arm: string, other: string, one: Totals, two: Totals) {
    i <= |rows| && OfArms(rows[..i], arm, other) && one == ArmTotal(rows[..i], arm) && two == ArmTotal(rows[..i], other)
  }

  lemma {:induction false} SummedNext(rows: seq<Row>, i: nat, arm: string, other: string, one: Totals, two: Totals)
    requires i < |rows| && Summed(rows, i, arm, other, one, two)
    ensures if rows[i].arm == arm || rows[i].arm == other
            then Summed(rows, i + 1, arm, other, WithRow(one, rows[i], arm), WithRow(two, rows[i], other))
            else !OfArms(rows, arm, other)
  {
    ArmTotalNext(rows, i, arm);
    ArmTotalNext(rows, i, other);
    assert rows[..i + 1] == rows[..i] + [rows[i]];
  }

  /** The report's loop over the rows, for its two arms. */
  method MergeRows(rows: seq<Row>, arm: string, other: string) returns (totals: Option<(Totals, Totals)>)
    requires arm != other
    ensures totals.Some? <==> OfArms(rows, arm, other)
    ensures totals.Some? ==> totals.value.0 == ArmTotal(rows, arm) && totals.value.1 == ArmTotal(rows, other)
  {
    var single := new Tally();
    var agentic := new Tally();
    for i := 0 to |rows|
      invariant single != agentic && fresh(single) && fresh(agentic)
      invariant Summed(rows, i, arm, other, single.View(), agentic.View())
    {
      SummedNext(rows, i, arm, other, single.View(), agentic.View());
      var ok := MergeRow(single, agentic, rows[i], arm, other);
      if !ok {
        return None;
      }
    }
    assert rows[..|rows|] == rows;
    return Some((single.View(), agentic.View()));
  }

  /** The rows of one uninterrupted run of an arm, question by question. */
  function Scored(score: Job -> Row, ids: seq<string>, arm: string): (rows: seq<Row>)
    ensures |rows| == |ids| && forall i :: 0 <= i < |ids| ==> rows[i] == score(Job(arm, ids[i]))
  {
    seq(|ids|, i requires 0 <= i < |ids| => score(Job(arm, ids[i])))
  }

  /** Scoring a question in an arm always gives the same row. */
  ghost predicate ScoredBy(score: Job -> Row, rows: seq<Row>) {
    forall row :: row in rows ==> row == score(KeyOf(row))
  }

  ghost predicate Labels(score: Job -> Row) {
    forall job :: KeyOf(score(job)) == job
  }

  lemma {:induction false} SameRows(a: seq<Row>, b: seq<Row>)
    requires Distinct(a) && Distinct(b) && forall row :: row in a <==> row in b
    ensures multiset(a) == multiset(b)
  {
    DistinctCounts(a);
    DistinctCounts(b);
    forall row ensures multiset(a)[row] == multiset(b)[row] {
      assert row in a <==> row in multiset(a);
      assert row in b <==> row in multiset(b);
    }
  }

  lemma {:induction false} ExtractionsPermute(a: seq<Row>, b: seq<Row>)
    requires multiset(a) == multiset(b)
    ensures multiset(Extractions(a)) == multiset(Extractions(b))
  {
    if a == [] {
      assert |multiset(b)| == 0;
    } else {
      var i := FindFirst(a, b);
      ExtractionsPermute(a[1..], Without(b, i));
      WithoutMultiset(Extractions(a), 0);
      WithoutMultiset(Extractions(b), i);
      assert Extractions(a[1..]) == Without(Extractions(a), 0);
      assert Extractions(Without(b, i)) == Without(Extractions(b), i);
    }
  }

  lemma {:induction false} ReportOfArm(parse: Parser, order: Order, before: seq<Session>, stored: seq<Row>, session: Session,
      score: Job -> Row, arm: string)
    requires Parses(parse, order) && LastOf(Rows(parse, order), before, stored, session)
    requires Distinct(session.ids) && arm in ARMS && Labels(score) && ScoredBy(score, Reported(stored, session))
    ensures multiset(Filter(OfArm(arm), Reported(stored, session))) == multiset(Scored(score, session.ids, arm))
  {
    var rows := Reported(stored, session);
    var mine, all := Filter(OfArm(arm), rows), Scored(score, session.ids, arm);
    ReportIsComplete(parse, order, before, stored, session);
    FilterKeepsKeys(OfArm(arm), rows);
    InFilter(OfArm(arm), rows);
    forall i, j | 0 <= i < j < |all| ensures all[i] != all[j] {
      assert KeyOf(all[i]).qid == session.ids[i] && KeyOf(all[j]).qid == session.ids[j];
    }
    forall row | row in mine ensures row in all {
      assert KeyOf(row) in Keys(rows) && row.qid in session.ids;
      var i :| 0 <= i < |session.ids| && session.ids[i] == row.qid;
      assert all[i] == row;
    }
    forall i | 0 <= i < |all| ensures all[i] in mine {
      assert KeyOf(all[i]) == Job(arm, session.ids[i]) && KeyOf(all[i]) in Keys(rows);
      var row :| row in rows && KeyOf(row) == KeyOf(all[i]);
      assert row == score(KeyOf(row)) == all[i];
    }
    SameRows(mine, all);
  }

  /** Interrupted and resumed any number of times, the run totals what one run would have. */
  lemma {:induction false} ResumedTotals(parse: Parser, order: Order, before: seq<Session>, stored: seq<Row>, session: Session,
      score: Job -> Row, arm: string)
    requires Parses(parse, order) && LastOf(Rows(parse, order), before, stored, session)
    requires Distinct(session.ids) && arm in ARMS && Labels(score) && ScoredBy(score, Reported(stored, session))
    ensures ArmTotal(Reported(stored, session), arm) == MergedAll(Extractions(Scored(score, session.ids, arm)))
  {
    var mine := Filter(OfArm(arm), Reported(stored, session));
    ReportOfArm(parse, order, before, stored, session, score, arm);
    ExtractionsPermute(mine, Scored(score, session.ids, arm));
    MergedAllPermutes(Extractions(mine), Extractions(Scored(score, session.ids, arm)));
  }
}
