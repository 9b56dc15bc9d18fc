/** A parser for what `Json` prints, which shows that what is asked of a parser can be met. */
module JsonParse {
  import opened Prelude
  import opened Lines
  import opened Json
  import opened JsonLines

  function Unhex(c: char): nat {
    if '0' <= c <= '9' then c as int - '0' as int
    else if 'a' <= c <= 'f' then c as int - 'a' as int + 10 else 0
  }

  /** The character of four hexadecimal digits; one half of a pair reads as a replacement. */
  function Escaped(a: char, b: char, c: char, d: char): char {
    var n := 16 * (16 * (16 * Unhex(a) + Unhex(b)) + Unhex(c)) + Unhex(d);
    if n < 0xD800 then n as char else '\U{FFFD}'
  }

  /** The character that begins an escaped string, and what comes after it. */
  function FirstChar(s: string): (r: (char, string))
    requires s != ""
    ensures |r.1| < |s|
  {
    if s[0] != '\\' || |s| < 2 then (s[0], s[1..])
    else match s[1]
      case 'n' => ('\n', s[2..])
      case 'r' => ('\r', s[2..])
      case 't' => ('\t', s[2..])
      case 'f' => ('\U{0C}', s[2..])
      case 'b' => ('\U{08}', s[2..])
      case 'u' => if |s| < 6 then ('u', s[2..]) else (Escaped(s[2], s[3], s[4], s[5]), s[6..])
      case c => (c, s[2..])
  }

  /** A string up to its closing quote, and what comes after the quote. */
  function Body(s: string): (r: Option<(string, string)>)
    ensures r.Some? ==> |r.value.1| < |s|
    decreases |s|
  {
    if s == "" then None
    else if s[0] == '"' then Some(("", s[1..]))
    else
      var (c, rest) := FirstChar(s);
      match Body(rest)
      case None => None
      case Some((more, after)) => Some(([c] + more, after))
  }

  lemma {:induction false} FirstCharOf(c: char, rest: string)
    ensures Escape(c) + rest != "" && FirstChar(Escape(c) + rest) == (c, rest)
    ensures (Escape(c) + rest)[0] != '"'
  {
    EscapeIs(c);
    var s := Escape(c) + rest;
    assert s[|Escape(c)|..] == rest;
    assert forall i :: 0 <= i < |Escape(c)| ==> s[i] == Escape(c)[i];
  }

  lemma {:induction false} BodyOf(s: string, rest: string)
    ensures Body(BodyThen(s, ['"'] + rest)) == Some((s, rest))
  {
    if s == "" {
      assert (['"'] + rest)[1..] == rest;
    } else {
      FirstCharOf(s[0], BodyThen(s[1..], ['"'] + rest));
      BodyOf(s[1..], rest);
      assert s == [s[0]] + s[1..];
    }
  }

  /** The plain characters at the beginning. */
  function PlainPrefix(s: string): (n: nat)
    ensures n <= |s|
  {
    if s == "" || !IsPlain(s[0]) then 0 else 1 + PlainPrefix(s[1..])
  }

  function ParseValue(s: string): (r: Option<(Value, string)>)
    ensures r.Some? ==> |r.value.1| < |s|
    decreases |s|, 0
  {
    if s == "" then None
    else if s[0] == '"' then
      match Body(s[1..])
      case None => None
      case Some((text, rest)) => Some((Text(text), rest))
    else if s[0] == '{' then
      match ParseItems(s[1..])
      case None => None
      case Some((fields, rest)) => Some((Nested(fields), rest))
    else if PlainPrefix(s) == 0 then None
    else Some((Token(s[..PlainPrefix(s)]), s[PlainPrefix(s)..]))
  }

  /** The fields of an object whose brace has been read. */
  function ParseItems(s: string): (r: Option<(Fields, string)>)
    ensures r.Some? ==> |r.value.1| < |s|
    decreases |s|, 1
  {
    if s == "" then None
    else if s[0] == '}' then Some((End, s[1..]))
    else match Body(s[1..])
      case None => None
      case Some((key, rest)) =>
        if |rest| < 2 then None
        else match ParseValue(rest[2..])
          case None => None
          case Some((value, after)) =>
            if after == "" then None
            else if after[0] == '}' then Some((Field(key, value, End), after[1..]))
            else if |after| < 2 then None
            else match ParseItems(after[2..])
              case None => None
              case Some((fields, last)) => Some((Field(key, value, fields), last))
  }

  lemma {:induction false} PlainPrefixOf(t: string, tail: string)
    requires (forall i :: 0 <= i < |t| ==> IsPlain(t[i])) && (tail == "" || !IsPlain(tail[0]))
    ensures PlainPrefix(t + tail) == |t|
  {
    if t == "" {
      assert t + tail == tail;
    } else {
      PlainPrefixOf(t[1..], tail);
      assert (t + tail)[1..] == t[1..] + tail;
    }
  }

  lemma {:induction false} ParseValueOf(v: Value, tail: string)
    requires WellFormedValue(v) && Continues(tail)
    ensures ParseValue(ValueThen(v, tail)) == Some((v, tail))
    decreases v
  {
    match v
    case Text(s) =>
      BodyOf(s, tail);
      assert QuotedThen(s, tail)[1..] == BodyThen(s, ['"'] + tail);
    case Token(t) =>
      PlainPrefixOf(t, tail);
      assert IsPlain((t + tail)[0]) && (t + tail)[..|t|] == t && (t + tail)[|t|..] == tail;
    case Nested(fs) =>
      ParseItemsOf(fs, tail);
      assert (['{'] + ItemsThen(fs, ['}'] + tail))[1..] == ItemsThen(fs, ['}'] + tail);
  }

  lemma {:induction false} ParseItemsOf(fs: Fields, tail: string)
    requires WellFormed(fs)
    ensures ParseItems(ItemsThen(fs, ['}'] + tail)) == Some((fs, tail))
    decreases fs
  {
    match fs
    case End =>
      assert (['}'] + tail)[1..] == tail;
    case Field(key, value, rest) =>
      var after := if rest.End? then ['}'] + tail else [',', ' '] + ItemsThen(rest, ['}'] + tail);
      var text := ValueThen(value, after);
      BodyOf(key, [':', ' '] + text);
      assert QuotedThen(key, [':', ' '] + text)[1..] == BodyThen(key, ['"'] + ([':', ' '] + text));
      assert ([':', ' '] + text)[2..] == text;
      ParseValueOf(value, after);
      if rest.End? {
        assert after[1..] == tail;
      } else {
        ParseItemsOf(rest, tail);
        assert after[2..] == ItemsThen(rest, ['}'] + tail);
      }
  }

  /** What comes after the white space at the beginning of a line. */
  function SkipWs(s: string): (r: string) {
    if s != "" && IsWs(s[0]) then SkipWs(s[1..]) else s
  }

  lemma {:induction false} SkipWsOf(ws: string, s: string)
    requires OnlyWs(ws) && s != "" && !IsWs(s[0])
    ensures SkipWs(ws + s) == s
  {
    if ws == "" {
      assert ws + s == s;
    } else {
      OnlyWsRest(ws);
      SkipWsOf(ws[1..], s);
      assert (ws + s)[1..] == ws[1..] + s;
    }
  }

  /** The fields of a line that is an object. */
  function ParseLine(line: string): (r: Option<Fields>)
    ensures r.Some? ==> IsObject(line)
  {
    if !IsObject(line) || SkipWs(line) == "" then None
    else match ParseItems(SkipWs(line)[1..])
      case None => None
      case Some((fields, _)) => Some(fields)
  }

  lemma {:induction false} ParseLineOf(ws: string, fs: Fields)
    requires OnlyWs(ws) && WellFormed(fs) && fs.Field?
    ensures ParseLine(ws + Print(fs)) == Some(fs)
  {
    PrintIsObject(fs);
    ScanAppend(Start, ws, Print(fs));
    ScanToStart(Start, ws);
    assert '"' in ws + Print(fs);
    SkipWsOf(ws, Print(fs));
    ParseItemsOf(fs, "");
    assert ['}'] + "" == ['}'];
    assert Print(fs)[1..] == ItemsThen(fs, ['}']);
  }

  /** A row reader made of this parser and of how the fields of a row are taken apart. */
  function ReaderOf<R>(back: Fields -> Option<R>): (parse: string -> Option<R>) {
    (line: string) => match ParseLine(line)
      case None => None
      case Some(fields) => back(fields)
  }

  /** It is as sound as is asked, for every kind of row that can be taken apart. */
  lemma {:induction false} ReaderIsSound<R(!new)>(shape: R -> Fields, back: Fields -> Option<R>, reread: R -> R)
    requires forall row :: WellFormed(shape(row)) && shape(row).Field?
    requires forall row :: back(shape(row)) == Some(reread(row))
    ensures Sound(Format(shape, ReaderOf(back), reread))
  {
    var f := Format(shape, ReaderOf(back), reread);
    forall row, ws ensures HasShape(f, row) && ReadsBehind(f, row, ws) {
      if OnlyWs(ws) {
        ParseLineOf(ws, shape(row));
      }
    }
    forall line | f.parse(line).Some? ensures IsObject(line) {
      assert ParseLine(line).Some?;
    }
  }

  // ---- taking fields apart -----------------------------------------------------------

  /** `row.get(key)` */
  function Lookup(fs: Fields, key: string): (value: Option<Value>)
    decreases fs
  {
    if fs.End? then None else if fs.key == key then Some(fs.value) else Lookup(fs.rest, key)
  }

  /** One field under its own key, and the others behind it. */
  predicate Heads(key: string, value: Value, rest: Fields, other: string) {
    Lookup(Field(key, value, rest), other) == if other == key then Some(value) else Lookup(rest, other)
  }

  lemma {:induction false} LookupNext(key: string, value: Value, rest: Fields, other: string)
    ensures Heads(key, value, rest, other)
  {
  }

  function TextUnder(fs: Fields, key: string): string {
    match Lookup(fs, key)
    case Some(Text(text)) => text
    case _ => ""
  }

  function NumberUnder(fs: Fields, key: string): int {
    match Lookup(fs, key)
    case Some(Token(token)) => Undecimal(token)
    case _ => 0
  }

  function FieldsUnder(fs: Fields, key: string): Fields {
    match Lookup(fs, key)
    case Some(Nested(fields)) => fields
    case _ => End
  }

  function Number(s: string): (n: int) {
    if s == "" then 0 else 10 * Number(s[..|s| - 1]) + (s[|s| - 1] as int - '0' as int)
  }

  function Undecimal(s: string): (n: int) {
    if s != "" && s[0] == '-' then -Number(s[1..]) else Number(s)
  }

  lemma {:induction false} NumberOf(n: nat)
    ensures Number(Digits(n)) == n
  {
    var s := Digits(n);
    assert s[..|s| - 1] == if n < 10 then "" else Digits(n / 10);
    if n < 10 {
    } else {
      NumberOf(n / 10);
    }
  }

  lemma {:induction false} Sign(digits: string)
    requires digits != "" && digits[0] != '-'
    ensures Undecimal("-" + digits) == -Number(digits) && Undecimal(digits) == Number(digits)
  {
    assert ("-" + digits)[1..] == digits;
  }

  lemma {:induction false} UndecimalOf(n: int)
    ensures Undecimal(Decimal(n)) == n
  {
    var size: nat := if n < 0 then -n else n;
    NumberOf(size);
    Sign(Digits(size));
  }

  lemma {:induction false} NumberUnderIs(fs: Fields, key: string, n: int)
    requires Lookup(fs, key) == Some(Token(Decimal(n)))
    ensures NumberUnder(fs, key) == n
  {
    UndecimalOf(n);
  }
}
