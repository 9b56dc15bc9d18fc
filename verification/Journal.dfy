/**
 The checkpoint's file: one printed row a line, appended as each call completes, and read
 back after a crash.
 */
module Journal {
  import opened Prelude
  import opened Lines
  import opened Json
  import opened JsonLines
  import opened JsonParse
  import Bytes

  datatype Row = Row(id: Key, answer: Answer)

  /** `dict.setdefault` for each row in turn: the first row of a key wins. */
  function FirstWins(rows: map<Key, Answer>, lines: seq<Row>): (m: map<Key, Answer>)
    ensures rows.Keys <= m.Keys
    ensures forall k :: k in rows ==> m[k] == rows[k]
  {
    if lines == [] then rows
    else
      var before := FirstWins(rows, lines[..|lines| - 1]);
      var last := lines[|lines| - 1];
      if last.id in before then before else before[last.id := last.answer]
  }

  lemma {:induction false} FirstWinsSnoc(rows: map<Key, Answer>, lines: seq<Row>, row: Row)
    ensures var m := FirstWins(rows, lines);
            FirstWins(rows, lines + [row]) == if row.id in m then m else m[row.id := row.answer]
  {
  }

  lemma {:induction false} FirstWinsAppend(rows: map<Key, Answer>, a: seq<Row>, b: seq<Row>)
    ensures FirstWins(rows, a + b) == FirstWins(FirstWins(rows, a), b)
    decreases |b|
  {
    if b == [] {
      assert a + b == a;
    } else {
      FirstWinsAppend(rows, a, b[..|b| - 1]);
      assert (a + b)[..|a + b| - 1] == a + b[..|b| - 1];
    }
  }

  // ---- printed rows ------------------------------------------------------------------

  function Numbers(answer: Answer, rest: Fields): (fs: Fields) {
    Field("input_tokens", Token(Decimal(answer.inputTokens)),
      Field("output_tokens", Token(Decimal(answer.outputTokens)),
        Field("cache_read_tokens", Token(Decimal(answer.cacheReadTokens)),
          Field("cache_write_tokens", Token(Decimal(answer.cacheWriteTokens)), rest))))
  }

  /** The fields that `put` prints, in its order. */
  function Shape(row: Row): (fs: Fields) {
    Field("id", Text(row.id), Field("answer", Text(row.answer.text), Field("model", Text(row.answer.model),
      Numbers(row.answer, Field("stop_reason", Text(row.answer.stopReason), End)))))
  }

  /** What a printed row reads back as: an empty model name becomes `stub`. */
  function Reread(row: Row): Row {
    row.(answer := row.answer.(model := if row.answer.model == "" then "stub" else row.answer.model))
  }

  /** `json.loads` of a line, and the reading of its fields: `None` for a line that raises. */
  type Parser = string -> Option<Row>

  function Rows(parse: Parser): (f: Format<Row>) {
    Format(Shape, parse, Reread)
  }

  /** What is asked of the parser. RFC 8259 grants it of `json.loads`. */
  ghost predicate Parses(parse: Parser) {
    && (forall row, ws :: ReadsBehind(Rows(parse), row, ws))
    && (forall line :: parse(line).Some? ==> IsObject(line))
  }

  /** A row with no raw break in any of its texts. */
  predicate HasNoBreak(row: Row) {
    !HasRawBreak(row.id) && !HasRawBreak(row.answer.text) && !HasRawBreak(row.answer.model)
    && !HasRawBreak(row.answer.stopReason)
  }

  lemma {:induction false} NumbersFit(answer: Answer, rest: Fields)
    ensures WellFormed(Numbers(answer, rest)) <==> WellFormed(rest)
    ensures Clean(Numbers(answer, rest)) <==> Clean(rest)
  {
    var last := Field("cache_write_tokens", Token(Decimal(answer.cacheWriteTokens)), rest);
    var third := Field("cache_read_tokens", Token(Decimal(answer.cacheReadTokens)), last);
    var second := Field("output_tokens", Token(Decimal(answer.outputTokens)), third);
    FieldFits("cache_write_tokens", Token(Decimal(answer.cacheWriteTokens)), rest);
    FieldFits("cache_read_tokens", Token(Decimal(answer.cacheReadTokens)), last);
    FieldFits("output_tokens", Token(Decimal(answer.outputTokens)), third);
    FieldFits("input_tokens", Token(Decimal(answer.inputTokens)), second);
  }

  lemma {:induction false} ShapeFits(row: Row)
    ensures WellFormed(Shape(row)) && Shape(row).Field?
    ensures Clean(Shape(row)) <==> HasNoBreak(row)
  {
    var stop := Field("stop_reason", Text(row.answer.stopReason), End);
    var numbers := Numbers(row.answer, stop);
    var model := Field("model", Text(row.answer.model), numbers);
    FieldFits("stop_reason", Text(row.answer.stopReason), End);
    NumbersFit(row.answer, stop);
    FieldFits("model", Text(row.answer.model), numbers);
    FieldFits("answer", Text(row.answer.text), model);
    FieldFits("id", Text(row.id), Field("answer", Text(row.answer.text), model));
  }

  lemma {:induction false} ParsesIsSound(parse: Parser)
    requires Parses(parse)
    ensures Sound(Rows(parse))
  {
    forall row ensures HasShape(Rows(parse), row) {
      ShapeFits(row);
    }
  }

  // ---- reading the file back ---------------------------------------------------------

  /** What `Checkpoint.__init__` reads from a file holding `text`. */
  function Reload(parse: Parser, text: string): (rows: map<Key, Answer>) {
    FirstWins(map[], Readable(Rows(parse), SplitLines(text)))
  }

  lemma {:induction false} KeptIs(parse: Parser, rows: seq<Row>)
    ensures Kept(Rows(parse), rows) == rows <==> forall row :: row in rows ==> HasNoBreak(row) && row.answer.model != ""
  {
    if rows == [] {
    } else {
      KeptIs(parse, rows[1..]);
      ShapeFits(rows[0]);
      assert rows == [rows[0]] + rows[1..];
      assert |Kept(Rows(parse), rows[1..])| <= |rows| - 1;
      if Kept(Rows(parse), rows) == rows {
        assert Kept(Rows(parse), rows)[1..] == rows[1..] && rows[0] == Reread(rows[0]);
      }
    }
  }

  /** A file written without a crash reads back as written if and only if every row has a model
      name and no text that `str.splitlines` cuts. */
  lemma {:induction false} RoundTrip(parse: Parser, rows: seq<Row>)
    requires Parses(parse)
    ensures Readable(Rows(parse), SplitLines(Written(Rows(parse), rows))) == rows
            <==> forall row :: row in rows ==> HasNoBreak(row) && row.answer.model != ""
  {
    ParsesIsSound(parse);
    WrittenReadsBack(Rows(parse), rows);
    KeptIs(parse, rows);
  }

  /** What the next process loads from a file that any number of processes appended to, any of
      them killed at any character of a write: the first survivor of each key. */
  lemma {:induction false} CrashAndResume(parse: Parser, appends: seq<Append<Row>>)
    requires Parses(parse)
    ensures Reload(parse, TextOf(Rows(parse), appends)) == FirstWins(map[], Survivors(Rows(parse), Fresh, appends))
  {
    ParsesIsSound(parse);
    FileReadsBack(Rows(parse), appends);
  }

  /** A kill that left all of a row but its line feed loses that row and the next one written:
      the next process finds an empty checkpoint. */
  lemma {:induction false} AKillCanCostTwo(parse: Parser, first: Row, second: Row)
    requires Parses(parse) && HasNoBreak(first)
    ensures Reload(parse, TextOf(Rows(parse), [Killed(first, |Printed(Rows(parse), first)|), Whole(second)])) == map[]
  {
    var f := Rows(parse);
    ParsesIsSound(parse);
    ShapeFits(first);
    PrintBegins(Shape(first));
    OneKill(f, [], first, |Printed(f, first)|, [second]);
    assert Wholes<Row>([]) + ([Killed(first, |Printed(f, first)|)] + Wholes([second]))
           == [Killed(first, |Printed(f, first)|), Whole(second)];
  }

  // ---- the file as bytes -------------------------------------------------------------

  /** What the next process loads from a file of bytes. It raises when they are not UTF-8. */
  ghost function ReloadBytes(parse: Parser, bytes: seq<Bytes.Byte>): (rows: Option<map<Key, Answer>>) {
    match Bytes.Decoded(bytes)
    case None => None
    case Some(text) => Some(Reload(parse, text))
  }

  /** After kills at any byte, the file can be loaded if and only if none of them came in the
      middle of a character; then it gives the first survivor of each key. */
  lemma {:induction false} LoadsIff(parse: Parser, appends: seq<Append<Row>>)
    requires Parses(parse)
    ensures var f := Rows(parse);
            ReloadBytes(parse, Bytes.FileOf(f, appends))
            == if Bytes.NoneSplit(f, appends) then Some(FirstWins(map[], Survivors(f, Fresh, Bytes.AllCounted(f, appends)))) else None
  {
    Bytes.FileDecodesIff(Rows(parse), appends);
    CrashAndResume(parse, Bytes.AllCounted(Rows(parse), appends));
  }

  lemma {:induction false} StaysInBody(s: string, tail: string, c: char)
    requires c as int >= 0x80 && (c in s || c in tail)
    ensures c in BodyThen(s, tail)
  {
    if s == "" {
    } else {
      assert s == [s[0]] + s[1..] && BodyThen(s, tail) == Escape(s[0]) + BodyThen(s[1..], tail);
      if c in s[1..] || c in tail {
        StaysInBody(s[1..], tail, c);
      } else {
        assert c in Escape(s[0]);
      }
    }
  }

  lemma {:induction false} StaysInField(key: string, s: string, rest: Fields, tail: string, c: char)
    requires c as int >= 0x80 && rest.Field? && (c in s || c in ItemsThen(rest, tail))
    ensures c in ItemsThen(Field(key, Text(s), rest), tail)
  {
    var more := [',', ' '] + ItemsThen(rest, tail);
    StaysInBody(s, ['"'] + more, c);
    assert c in [':', ' '] + QuotedThen(s, more);
    StaysInBody(key, ['"'] + ([':', ' '] + QuotedThen(s, more)), c);
  }

  lemma {:induction false} StaysInRow(parse: Parser, row: Row, c: char)
    requires c as int >= 0x80 && c in row.answer.text
    ensures Bytes.IsWide(Rows(parse), row)
  {
    var more := Field("model", Text(row.answer.model), Numbers(row.answer, Field("stop_reason", Text(row.answer.stopReason), End)));
    StaysInField("answer", row.answer.text, more, ['}'], c);
    StaysInField("id", row.id, Field("answer", Text(row.answer.text), more), ['}'], c);
    assert c in Printed(Rows(parse), row);
  }

  /** One answer with a character outside ASCII, cut inside that character, and no later process
      can load anything: not what the file held before, nor what was appended since. */
  lemma {:induction false} AKillCanLoseAll(parse: Parser, before: seq<Append<Row>>, row: Row, c: char) returns (kept: nat)
    requires c as int >= 0x80 && c in row.answer.text
    ensures Bytes.LosesAll(Rows(parse), before, row, kept)
  {
    StaysInRow(parse, row, c);
    kept := Bytes.FileIsLost(Rows(parse), before, row);
  }

  // ---- a parser that is enough -------------------------------------------------------

  /** The row that printed these fields. */
  function RowOf(fs: Fields): Row {
    Row(TextUnder(fs, "id"), Answer(TextUnder(fs, "answer"), TextUnder(fs, "model"), NumberUnder(fs, "input_tokens"),
      NumberUnder(fs, "output_tokens"), NumberUnder(fs, "cache_read_tokens"), NumberUnder(fs, "cache_write_tokens"),
      TextUnder(fs, "stop_reason")))
  }

  lemma {:induction false} UnderNumbers(answer: Answer, rest: Fields, key: string)
    ensures Lookup(Numbers(answer, rest), key)
            == if key == "input_tokens" then Some(Token(Decimal(answer.inputTokens)))
               else if key == "output_tokens" then Some(Token(Decimal(answer.outputTokens)))
               else if key == "cache_read_tokens" then Some(Token(Decimal(answer.cacheReadTokens)))
               else if key == "cache_write_tokens" then Some(Token(Decimal(answer.cacheWriteTokens)))
               else Lookup(rest, key)
  {
    var last := Field("cache_write_tokens", Token(Decimal(answer.cacheWriteTokens)), rest);
    var third := Field("cache_read_tokens", Token(Decimal(answer.cacheReadTokens)), last);
    var second := Field("output_tokens", Token(Decimal(answer.outputTokens)), third);
    LookupNext("cache_write_tokens", Token(Decimal(answer.cacheWriteTokens)), rest, key);
    LookupNext("cache_read_tokens", Token(Decimal(answer.cacheReadTokens)), last, key);
    LookupNext("output_tokens", Token(Decimal(answer.outputTokens)), third, key);
    LookupNext("input_tokens", Token(Decimal(answer.inputTokens)), second, key);
  }

  /** Under which name each part of a row is printed. */
  lemma {:induction false} UnderShape(row: Row, key: string)
    ensures Lookup(Shape(row), key)
            == if key == "id" then Some(Text(row.id))
               else if key == "answer" then Some(Text(row.answer.text))
               else if key == "model" then Some(Text(row.answer.model))
               else if key == "input_tokens" then Some(Token(Decimal(row.answer.inputTokens)))
               else if key == "output_tokens" then Some(Token(Decimal(row.answer.outputTokens)))
               else if key == "cache_read_tokens" then Some(Token(Decimal(row.answer.cacheReadTokens)))
               else if key == "cache_write_tokens" then Some(Token(Decimal(row.answer.cacheWriteTokens)))
               else if key == "stop_reason" then Some(Text(row.answer.stopReason))
               else None
  {
    var stop := Field("stop_reason", Text(row.answer.stopReason), End);
    var numbers := Numbers(row.answer, stop);
    var model := Field("model", Text(row.answer.model), numbers);
    LookupNext("stop_reason", Text(row.answer.stopReason), End, key);
    UnderNumbers(row.answer, stop, key);
    LookupNext("model", Text(row.answer.model), numbers, key);
    LookupNext("answer", Text(row.answer.text), model, key);
    LookupNext("id", Text(row.id), Field("answer", Text(row.answer.text), model), key);
  }

  lemma {:induction false} TextsUnder(row: Row)
    ensures var fs := Shape(row);
            && TextUnder(fs, "id") == row.id && TextUnder(fs, "answer") == row.answer.text
            && TextUnder(fs, "model") == row.answer.model && TextUnder(fs, "stop_reason") == row.answer.stopReason
  {
    UnderShape(row, "id");
    UnderShape(row, "answer");
    UnderShape(row, "model");
    UnderShape(row, "stop_reason");
  }

  lemma {:induction false} NumbersUnder(row: Row)
    ensures var fs := Shape(row);
            && NumberUnder(fs, "input_tokens") == row.answer.inputTokens
            && NumberUnder(fs, "output_tokens") == row.answer.outputTokens
            && NumberUnder(fs, "cache_read_tokens") == row.answer.cacheReadTokens
            && NumberUnder(fs, "cache_write_tokens") == row.answer.cacheWriteTokens
  {
    UnderShape(row, "input_tokens");
    UnderShape(row, "output_tokens");
    UnderShape(row, "cache_read_tokens");
    UnderShape(row, "cache_write_tokens");
    NumberUnderIs(Shape(row), "input_tokens", row.answer.inputTokens);
    NumberUnderIs(Shape(row), "output_tokens", row.answer.outputTokens);
    NumberUnderIs(Shape(row), "cache_read_tokens", row.answer.cacheReadTokens);
    NumberUnderIs(Shape(row), "cache_write_tokens", row.answer.cacheWriteTokens);
  }

  /** Every part of a row is printed under the name it is read under. */
  lemma {:induction false} RowOfShape(row: Row)
    ensures RowOf(Shape(row)) == row
  {
    TextsUnder(row);
    NumbersUnder(row);
  }

  function ReadFields(fs: Fields): Option<Row> {
    Some(Reread(RowOf(fs)))
  }

  /** What is asked of the parser can be met. */
  lemma {:induction false} SomeParserParses()
    ensures Parses(ReaderOf(ReadFields))
  {
    forall row ensures WellFormed(Shape(row)) && Shape(row).Field? {
      ShapeFits(row);
    }
    forall row ensures ReadFields(Shape(row)) == Some(Reread(row)) {
      RowOfShape(row);
    }
    ReaderIsSound(Shape, ReadFields, Reread);
  }
}
