/**
 What `json.dumps(row, ensure_ascii=False)` prints, and which texts can be read as an object.

 Printing is written out. Of reading, RFC 8259 gives one necessary condition, `IsObject`,
 which a scanner decides; the rest of a parser stays abstract.
 */
module Json {
  import opened Lines

  /** A value: text, a token with no text in it (a number, true, false, null), or an object. */
  datatype Value = Text(text: string) | Token(token: string) | Nested(fields: Fields)

  datatype Fields = End | Field(key: string, value: Value, rest: Fields)

  // ---- printing ----------------------------------------------------------------------

  function Hex(n: nat): char
    requires n < 16
  {
    if n < 10 then (n + '0' as int) as char else (n - 10 + 'a' as int) as char
  }

  /** A character as it stands inside a printed string. */
  function Escape(c: char): (e: string) {
    match c
    case '"' => ['\\', '"']
    case '\\' => ['\\', '\\']
    case '\n' => ['\\', 'n']
    case '\r' => ['\\', 'r']
    case '\t' => ['\\', 't']
    case '\U{0C}' => ['\\', 'f']
    case '\U{08}' => ['\\', 'b']
    case _ => if c < ' ' then ['\\', 'u', '0', '0', Hex(c as int / 16), Hex(c as int % 16)] else [c]
  }

  /** The characters of `s`, escaped, and then `tail`. */
  function BodyThen(s: string, tail: string): (printed: string) {
    if s == "" then tail else Escape(s[0]) + BodyThen(s[1..], tail)
  }

  function QuotedThen(s: string, tail: string): (printed: string) {
    ['"'] + BodyThen(s, ['"'] + tail)
  }

  function ValueThen(v: Value, tail: string): (printed: string)
    decreases v
  {
    match v
    case Text(s) => QuotedThen(s, tail)
    case Token(t) => t + tail
    case Nested(fs) => ['{'] + ItemsThen(fs, ['}'] + tail)
  }

  /** `"key": value` for each field, separated by a comma and a space, and then `tail`. */
  function ItemsThen(fs: Fields, tail: string): (printed: string)
    decreases fs
  {
    match fs
    case End => tail
    case Field(key, value, rest) =>
      QuotedThen(key, [':', ' '] + ValueThen(value, if rest.End? then tail else [',', ' '] + ItemsThen(rest, tail)))
  }

  function Print(fs: Fields): (printed: string) {
    ['{'] + ItemsThen(fs, ['}'])
  }

  predicate IsLetter(c: char) {
    'a' <= c <= 'z' || 'A' <= c <= 'Z'
  }

  /** What the tokens are made of. */
  predicate IsPlain(c: char) {
    IsLetter(c) || '0' <= c <= '9' || c == '-' || c == '+' || c == '.'
  }

  predicate IsToken(t: string) {
    t != "" && forall i :: 0 <= i < |t| ==> IsPlain(t[i])
  }

  /** The digits of a number, as `json.dumps` prints it. */
  function Digits(n: nat): (s: string)
    ensures s != "" && forall i :: 0 <= i < |s| ==> '0' <= s[i] <= '9'
  {
    (if n < 10 then "" else Digits(n / 10)) + [(n % 10 + '0' as int) as char]
  }

  function Decimal(n: int): (s: string)
    ensures IsToken(s)
  {
    if n < 0 then "-" + Digits(-n) else Digits(n)
  }

  lemma {:induction false} DigitsLead(n: nat)
    ensures Digits(n)[0] == '0' <==> n == 0
  {
    if n < 10 {
    } else {
      DigitsLead(n / 10);
    }
  }

  /** A number is printed without a leading zero, and with a sign only when it is negative. */
  lemma {:induction false} DecimalLeads(n: int)
    ensures Decimal(n)[0] == '-' <==> n < 0
    ensures Decimal(n)[0] == '0' <==> n == 0
  {
    if n >= 0 {
      DigitsLead(n);
    }
  }

  predicate IsKey(key: string) {
    key != "" && IsLetter(key[0]) && !HasRawBreak(key)
  }

  predicate WellFormedValue(v: Value)
    decreases v
  {
    match v
    case Text(_) => true
    case Token(t) => IsToken(t)
    case Nested(fs) => WellFormed(fs)
  }

  /** Keys begin with a letter, as every name of a field does. */
  predicate WellFormed(fs: Fields)
    decreases fs
  {
    fs.End? || (IsKey(fs.key) && WellFormedValue(fs.value) && WellFormed(fs.rest))
  }

  predicate CleanValue(v: Value)
    decreases v
  {
    match v
    case Text(s) => !HasRawBreak(s)
    case Token(_) => true
    case Nested(fs) => Clean(fs)
  }

  /** No text in it has a character that `splitlines` cuts on and JSON leaves raw. */
  predicate Clean(fs: Fields)
    decreases fs
  {
    fs.End? || (CleanValue(fs.value) && Clean(fs.rest))
  }

  /** A name made of letters and underscores. */
  predicate IsName(key: string) {
    key != "" && IsLetter(key[0]) && forall i :: 0 <= i < |key| ==> IsLetter(key[i]) || key[i] == '_'
  }

  /** Another field, under a name of the program's own. */
  lemma {:induction false} FieldFits(key: string, value: Value, rest: Fields)
    requires IsName(key)
    ensures WellFormed(Field(key, value, rest)) <==> WellFormedValue(value) && WellFormed(rest)
    ensures Clean(Field(key, value, rest)) <==> CleanValue(value) && Clean(rest)
  {
  }

  /** Inside a printed string only raw breaks are line breaks, and a character that is not
      printed as itself is printed as a backslash and plain characters. */
  lemma {:induction false} EscapeIs(c: char)
    ensures if c >= ' ' && c != '"' && c != '\\' then Escape(c) == [c]
            else |Escape(c)| >= 2 && Escape(c)[0] == '\\' && !IsRawBreak(c)
                 && (forall i :: 0 <= i < |Escape(c)| ==> !IsBreak(Escape(c)[i]))
                 && (forall i :: 2 <= i < |Escape(c)| ==> Escape(c)[i] != '"' && Escape(c)[i] != '\\')
  {
  }

  // ---- the scanner -------------------------------------------------------------------

  /** Where a scan of an object's text is: `above` is how many objects and arrays are open
      besides the outermost. `After` has just closed a string, `Closed` the outermost object. */
  datatype Scanner = Start | Out(above: nat) | In(above: nat) | Escaped(above: nat) | After(above: nat) | Closed | Bad

  predicate IsWs(c: char) {
    c == ' ' || c == '\t' || c == '\n' || c == '\r'
  }

  predicate OnlyWs(s: string) {
    forall i :: 0 <= i < |s| ==> IsWs(s[i])
  }

  function Pop(above: nat): Scanner {
    if above == 0 then Closed else Out(above - 1)
  }

  function Next(q: Scanner, c: char): Scanner {
    match q
    case Start => if IsWs(c) then Start else if c == '{' then Out(0) else Bad
    case Out(n) =>
      if c == '"' then In(n) else if c == '\\' then Bad
      else if c == '{' || c == '[' then Out(n + 1) else if c == '}' || c == ']' then Pop(n) else Out(n)
    case In(n) => if c == '"' then After(n) else if c == '\\' then Escaped(n) else In(n)
    case Escaped(n) => In(n)
    case After(n) =>
      if IsWs(c) then After(n) else if c == ',' || c == ':' then Out(n)
      else if c == '}' || c == ']' then Pop(n) else Bad
    case Closed => if IsWs(c) then Closed else Bad
    case Bad => Bad
  }

  function Scan(q: Scanner, s: string): (r: Scanner)
    decreases |s|
  {
    if s == "" then q else Scan(Next(q, s[0]), s[1..])
  }

  /** What every text that parses to an object with a field in it satisfies: quotes and
      brackets close, a string is followed by a comma, a colon or a closing bracket, no
      backslash stands outside a string and nothing but white space outside the object. */
  predicate IsObject(line: string) {
    Scan(Start, line) == Closed && '"' in line
  }

  lemma {:induction false} ScanAppend(q: Scanner, a: string, b: string)
    ensures Scan(q, a + b) == Scan(Scan(q, a), b)
    decreases |a|
  {
    if a == "" {
      assert a + b == b;
    } else {
      ScanAppend(Next(q, a[0]), a[1..], b);
      assert (a + b)[1..] == a[1..] + b;
    }
  }

  lemma {:induction false} ScanCons(q: Scanner, c: char, s: string)
    ensures Scan(q, [c] + s) == Scan(Next(q, c), s)
  {
    assert ([c] + s)[1..] == s;
  }

  lemma {:induction false} ScanBad(s: string)
    ensures Scan(Bad, s) == Bad
  {
    if s == "" {
    } else {
      ScanBad(s[1..]);
    }
  }

  /** Only white space is read before the object. */
  lemma {:induction false} ScanToStart(q: Scanner, s: string)
    ensures Scan(q, s) == Start <==> q == Start && OnlyWs(s)
    decreases |s|
  {
    if s == "" {
    } else {
      ScanToStart(Next(q, s[0]), s[1..]);
      OnlyWsRest(s);
    }
  }

  lemma {:induction false} OnlyWsRest(s: string)
    requires s != ""
    ensures OnlyWs(s) <==> IsWs(s[0]) && OnlyWs(s[1..])
  {
    if IsWs(s[0]) && OnlyWs(s[1..]) {
      forall i | 0 <= i < |s| ensures IsWs(s[i]) {
        assert i > 0 ==> s[i] == s[1..][i - 1];
      }
    }
  }

  // ---- a printed object is an object -------------------------------------------------

  lemma {:induction false} ScanInside(n: nat, s: string)
    requires forall i :: 0 <= i < |s| ==> s[i] != '"' && s[i] != '\\'
    ensures Scan(In(n), s) == In(n)
  {
    if s == "" {
    } else {
      ScanInside(n, s[1..]);
    }
  }

  lemma {:induction false} ScanEscape(n: nat, c: char, tail: string)
    ensures Scan(In(n), Escape(c) + tail) == Scan(In(n), tail)
  {
    EscapeIs(c);
    var e := Escape(c);
    ScanAppend(In(n), e, tail);
    assert Scan(In(n), e) == In(n) by {
      if |e| == 1 {
        ScanInside(n, e);
      } else {
        ScanCons(In(n), e[0], e[1..]);
        ScanCons(Escaped(n), e[1], e[2..]);
        ScanInside(n, e[2..]);
        assert e == [e[0]] + e[1..] && e[1..] == [e[1]] + e[2..];
      }
    }
  }

  lemma {:induction false} ScanBody(n: nat, s: string, tail: string)
    ensures Scan(In(n), BodyThen(s, tail)) == Scan(In(n), tail)
  {
    if s == "" {
    } else {
      ScanBody(n, s[1..], tail);
      ScanEscape(n, s[0], BodyThen(s[1..], tail));
    }
  }

  lemma {:induction false} ScanQuoted(n: nat, s: string, tail: string)
    ensures Scan(Out(n), QuotedThen(s, tail)) == Scan(After(n), tail)
  {
    ScanCons(Out(n), '"', BodyThen(s, ['"'] + tail));
    ScanBody(n, s, ['"'] + tail);
    ScanCons(In(n), '"', tail);
  }

  lemma {:induction false} ScanToken(n: nat, t: string, tail: string)
    requires forall i :: 0 <= i < |t| ==> IsPlain(t[i])
    ensures Scan(Out(n), t + tail) == Scan(Out(n), tail)
  {
    if t == "" {
      assert t + tail == tail;
    } else {
      ScanToken(n, t[1..], tail);
      assert (t + tail)[1..] == t[1..] + tail;
    }
  }

  /** What follows a value: a comma or a closing brace. */
  predicate Continues(tail: string) {
    tail != "" && (tail[0] == ',' || tail[0] == '}')
  }

  lemma {:induction false} ScanValue(n: nat, v: Value, tail: string)
    requires WellFormedValue(v) && Continues(tail)
    ensures Scan(Out(n), ValueThen(v, tail)) == Scan(Out(n), tail)
    decreases v
  {
    match v
    case Text(s) =>
      ScanQuoted(n, s, tail);
    case Token(t) =>
      ScanToken(n, t, tail);
    case Nested(fs) =>
      ScanCons(Out(n), '{', ItemsThen(fs, ['}'] + tail));
      ScanItems(n + 1, fs, ['}'] + tail);
      ScanCons(Out(n + 1), '}', tail);
  }

  lemma {:induction false} ScanItems(n: nat, fs: Fields, tail: string)
    requires WellFormed(fs) && Continues(tail)
    ensures Scan(Out(n), ItemsThen(fs, tail)) == Scan(Out(n), tail)
    decreases fs
  {
    match fs
    case End =>
    case Field(key, value, rest) =>
      var after := if rest.End? then tail else [',', ' '] + ItemsThen(rest, tail);
      var text := ValueThen(value, after);
      ScanQuoted(n, key, [':', ' '] + text);
      ScanTwo(After(n), ':', ' ', text);
      ScanValue(n, value, after);
      if rest.Field? {
        ScanTwo(Out(n), ',', ' ', ItemsThen(rest, tail));
        ScanItems(n, rest, tail);
      }
  }

  lemma {:induction false} ScanTwo(q: Scanner, c: char, d: char, s: string)
    ensures Scan(q, [c, d] + s) == Scan(Next(Next(q, c), d), s)
  {
    ScanCons(q, c, [d] + s);
    ScanCons(Next(q, c), d, s);
    assert [c, d] + s == [c] + ([d] + s);
  }

  lemma {:induction false} BracesNest(n: nat, items: string)
    requires Scan(Out(n + 1), items) == Scan(Out(n + 1), ['}'])
    ensures Scan(Out(n), ['{'] + items) == Out(n)
  {
    ScanCons(Out(n), '{', items);
    ScanCons(Out(n + 1), '}', []);
    assert ['}'] + [] == ['}'];
  }

  lemma {:induction false} PrintNests(n: nat, fs: Fields)
    requires WellFormed(fs)
    ensures Scan(Out(n), Print(fs)) == Out(n)
  {
    ScanItems(n + 1, fs, ['}']);
    BracesNest(n, ItemsThen(fs, ['}']));
  }

  lemma {:induction false} PrintIsObject(fs: Fields)
    requires WellFormed(fs) && fs.Field?
    ensures IsObject(Print(fs))
  {
    ScanCons(Start, '{', ItemsThen(fs, ['}']));
    ScanItems(0, fs, ['}']);
    ScanCons(Out(0), '}', []);
    assert Print(fs)[1] == '"';
  }

  // ---- a beginning of one is not -----------------------------------------------------

  predicate Inside(q: Scanner) {
    q.Out? || q.In? || q.Escaped? || q.After?
  }

  /** Every proper beginning of `s`, read from `q`, leaves `open` more objects unclosed. */
  predicate Opens(q: Scanner, s: string, open: nat)
    decreases |s|
  {
    s == "" || (Inside(q) && q.above >= open && Opens(Next(q, s[0]), s[1..], open))
  }

  lemma {:induction false} OpensCons(q: Scanner, c: char, s: string, open: nat)
    ensures Opens(q, [c] + s, open) <==> Inside(q) && q.above >= open && Opens(Next(q, c), s, open)
  {
    assert ([c] + s)[1..] == s;
  }

  lemma {:induction false} OpensMeans(q: Scanner, s: string, open: nat, n: nat)
    requires Opens(q, s, open) && n < |s|
    ensures Inside(Scan(q, s[..n])) && Scan(q, s[..n]).above >= open
    decreases n
  {
    if n == 0 {
    } else {
      OpensMeans(Next(q, s[0]), s[1..], open, n - 1);
      assert s[..n][1..] == s[1..][..n - 1];
    }
  }

  /** Characters that keep the scan inside the string they stand in. */
  lemma {:induction false} OpensInside(n: nat, s: string, tail: string, open: nat)
    requires n >= open && Opens(In(n), tail, open) && forall i :: 0 <= i < |s| ==> s[i] != '"' && s[i] != '\\'
    ensures Opens(In(n), s + tail, open)
  {
    if s == "" {
      assert s + tail == tail;
    } else {
      OpensInside(n, s[1..], tail, open);
      OpensCons(In(n), s[0], s[1..] + tail, open);
      assert s + tail == [s[0]] + (s[1..] + tail);
    }
  }

  lemma {:induction false} OpensEscape(n: nat, c: char, tail: string, open: nat)
    requires n >= open && Opens(In(n), tail, open)
    ensures Opens(In(n), Escape(c) + tail, open)
  {
    EscapeIs(c);
    var e := Escape(c);
    if |e| == 1 {
      OpensInside(n, e, tail, open);
    } else {
      OpensInside(n, e[2..], tail, open);
      OpensCons(Escaped(n), e[1], e[2..] + tail, open);
      OpensCons(In(n), e[0], [e[1]] + (e[2..] + tail), open);
      assert e + tail == [e[0]] + ([e[1]] + (e[2..] + tail));
    }
  }

  lemma {:induction false} OpensBody(n: nat, s: string, tail: string, open: nat)
    requires n >= open && Opens(In(n), tail, open)
    ensures Opens(In(n), BodyThen(s, tail), open)
  {
    if s == "" {
    } else {
      OpensBody(n, s[1..], tail, open);
      OpensEscape(n, s[0], BodyThen(s[1..], tail), open);
    }
  }

  lemma {:induction false} OpensQuoted(n: nat, s: string, tail: string, open: nat)
    requires n >= open && Opens(After(n), tail, open)
    ensures Opens(Out(n), QuotedThen(s, tail), open)
  {
    OpensCons(In(n), '"', tail, open);
    OpensBody(n, s, ['"'] + tail, open);
    OpensCons(Out(n), '"', BodyThen(s, ['"'] + tail), open);
  }

  lemma {:induction false} OpensToken(n: nat, t: string, tail: string, open: nat)
    requires n >= open && Opens(Out(n), tail, open) && forall i :: 0 <= i < |t| ==> IsPlain(t[i])
    ensures Opens(Out(n), t + tail, open)
  {
    if t == "" {
      assert t + tail == tail;
    } else {
      OpensToken(n, t[1..], tail, open);
      OpensCons(Out(n), t[0], t[1..] + tail, open);
      assert t + tail == [t[0]] + (t[1..] + tail);
    }
  }

  lemma {:induction false} OpensValue(n: nat, v: Value, tail: string, open: nat)
    requires WellFormedValue(v) && n >= open && Continues(tail) && Opens(Out(n), tail, open)
    ensures Opens(Out(n), ValueThen(v, tail), open)
    decreases v
  {
    match v
    case Text(s) =>
      OpensCons(Out(n), tail[0], tail[1..], open);
      OpensCons(After(n), tail[0], tail[1..], open);
      assert tail == [tail[0]] + tail[1..];
      OpensQuoted(n, s, tail, open);
    case Token(t) =>
      OpensToken(n, t, tail, open);
    case Nested(fs) =>
      OpensCons(Out(n + 1), '}', tail, open);
      OpensItems(n + 1, fs, ['}'] + tail, open);
      OpensCons(Out(n), '{', ItemsThen(fs, ['}'] + tail), open);
  }

  lemma {:induction false} OpensTwo(q: Scanner, c: char, d: char, s: string, open: nat)
    requires Inside(q) && Inside(Next(q, c)) && q.above >= open && Next(q, c).above >= open && Opens(Next(Next(q, c), d), s, open)
    ensures Opens(q, [c, d] + s, open)
  {
    OpensCons(Next(q, c), d, s, open);
    OpensCons(q, c, [d] + s, open);
    assert [c, d] + s == [c] + ([d] + s);
  }

  lemma {:induction false} OpensItems(n: nat, fs: Fields, tail: string, open: nat)
    requires WellFormed(fs) && n >= open && Continues(tail) && Opens(Out(n), tail, open)
    ensures Opens(Out(n), ItemsThen(fs, tail), open)
    decreases fs
  {
    match fs
    case End =>
    case Field(key, value, rest) =>
      var after := if rest.End? then tail else [',', ' '] + ItemsThen(rest, tail);
      if rest.Field? {
        OpensItems(n, rest, tail, open);
        OpensTwo(Out(n), ',', ' ', ItemsThen(rest, tail), open);
      }
      OpensValue(n, value, after, open);
      OpensTwo(After(n), ':', ' ', ValueThen(value, after), open);
      OpensQuoted(n, key, [':', ' '] + ValueThen(value, after), open);
  }

  lemma {:induction false} OpensPrint(n: nat, fs: Fields)
    requires WellFormed(fs)
    ensures Opens(Out(n), ItemsThen(fs, ['}']), n)
  {
    OpensCons(Out(n), '}', [], n);
    assert ['}'] + [] == ['}'];
    OpensItems(n, fs, ['}'], n);
  }

  /** A proper beginning of a printed object leaves it open. */
  lemma {:induction false} BeginningIsOpen(fs: Fields, n: nat)
    requires WellFormed(fs) && 0 < n < |Print(fs)|
    ensures Inside(Scan(Start, Print(fs)[..n]))
  {
    OpensPrint(0, fs);
    OpensMeans(Out(0), ItemsThen(fs, ['}']), 0, n - 1);
    ScanCons(Start, '{', ItemsThen(fs, ['}'])[..n - 1]);
    assert Print(fs)[..n] == ['{'] + ItemsThen(fs, ['}'])[..n - 1];
  }

  /** A scan that can no longer end well by reading beginnings of printed objects. */
  predicate Spoilt(q: Scanner) {
    !q.Start? && !q.Closed?
  }

  lemma {:induction false} PieceNested(above: nat, fs: Fields, n: nat)
    requires WellFormed(fs) && 0 < n <= |Print(fs)|
    ensures Spoilt(Scan(Out(above), Print(fs)[..n]))
  {
    if n == |Print(fs)| {
      PrintNests(above, fs);
      assert Print(fs)[..n] == Print(fs);
    } else {
      OpensPrint(above + 1, fs);
      OpensMeans(Out(above + 1), ItemsThen(fs, ['}']), above + 1, n - 1);
      ScanCons(Out(above), '{', ItemsThen(fs, ['}'])[..n - 1]);
      assert Print(fs)[..n] == ['{'] + ItemsThen(fs, ['}'])[..n - 1];
    }
  }

  /** A printed object begins with a brace, a quote and a letter. */
  lemma {:induction false} PrintBegins(fs: Fields)
    requires WellFormed(fs) && fs.Field?
    ensures |Print(fs)| >= 3 && Print(fs)[0] == '{' && Print(fs)[1] == '"' && IsLetter(Print(fs)[2])
  {
    ItemsBegin(fs, ['}']);
  }

  lemma {:induction false} PieceInString(above: nat, fs: Fields, n: nat)
    requires WellFormed(fs) && fs.Field? && 0 < n <= |Print(fs)|
    ensures Spoilt(Scan(In(above), Print(fs)[..n])) && Spoilt(Scan(Escaped(above), Print(fs)[..n]))
  {
    var p := Print(fs)[..n];
    PrintBegins(fs);
    if n >= 2 {
      assert p == [p[0]] + ([p[1]] + p[2..]);
      ScanCons(In(above), p[0], [p[1]] + p[2..]);
      ScanCons(Escaped(above), p[0], [p[1]] + p[2..]);
      ScanCons(In(above), p[1], p[2..]);
      if n >= 3 {
        ScanBad(p[3..]);
        assert p[2..][1..] == p[3..];
      }
    }
  }

  /** What follows anything but white space: a printed object, or a beginning of one, read from
      there never completes an object. */
  lemma {:induction false} PieceSpoils(q: Scanner, fs: Fields, n: nat)
    requires q != Start && WellFormed(fs) && fs.Field? && 0 < n <= |Print(fs)|
    ensures Spoilt(Scan(q, Print(fs)[..n]))
  {
    ScanBad(Print(fs)[..n][1..]);
    match q
    case Out(above) => PieceNested(above, fs, n);
    case In(above) => PieceInString(above, fs, n);
    case Escaped(above) => PieceInString(above, fs, n);
    case _ =>
  }

  // ---- nor is what is left after a raw break -----------------------------------------

  /** No beginning of `s`, read from `q`, completes an object with a quote in it; `quoted` says
      whether one was read before. */
  predicate Never(q: Scanner, quoted: bool, s: string)
    decreases |s|
  {
    !(q == Closed && quoted) && (s == "" || Never(Next(q, s[0]), quoted || s[0] == '"', s[1..]))
  }

  lemma {:induction false} NeverCons(q: Scanner, quoted: bool, c: char, s: string)
    ensures Never(q, quoted, [c] + s) <==> !(q == Closed && quoted) && Never(Next(q, c), quoted || c == '"', s)
  {
    assert ([c] + s)[1..] == s;
  }

  lemma {:induction false} NeverMeans(q: Scanner, quoted: bool, s: string, n: nat)
    requires Never(q, quoted, s) && n <= |s|
    ensures !(Scan(q, s[..n]) == Closed && (quoted || '"' in s[..n]))
    decreases n
  {
    if n == 0 {
    } else {
      NeverMeans(Next(q, s[0]), quoted || s[0] == '"', s[1..], n - 1);
      assert s[..n] == [s[0]] + s[1..][..n - 1];
      ScanCons(q, s[0], s[1..][..n - 1]);
    }
  }

  lemma {:induction false} NeverBad(quoted: bool, s: string)
    ensures Never(Bad, quoted, s)
    decreases |s|
  {
    if s == "" {
    } else {
      NeverBad(quoted || s[0] == '"', s[1..]);
    }
  }

  /** Read as the inside of a string, `s` never leaves it for good: its first quote, if it has
      one, comes before a letter. */
  predicate Deaf(s: string) {
    s == "" || (if s[0] == '"' then |s| == 1 || IsLetter(s[1]) else s[0] != '\\' && Deaf(s[1..]))
  }

  lemma {:induction false} DeafCons(c: char, s: string)
    requires c != '"' && c != '\\'
    ensures Deaf([c] + s) <==> Deaf(s)
  {
    assert ([c] + s)[1..] == s;
  }

  lemma {:induction false} DeafNever(n: nat, s: string)
    requires Deaf(s)
    ensures Never(In(n), true, s)
  {
    if s == "" {
    } else if s[0] != '"' {
      DeafNever(n, s[1..]);
    } else if |s| > 1 {
      NeverBad(true, s[2..]);
      assert s[1..][1..] == s[2..];
    }
  }

  /** The rest of a string, read as if it began a line. */
  predicate Inert(q: Scanner) {
    q.Start? || q.Out? || q.Closed? || q.Bad?
  }

  lemma {:induction false} NeverQuote(q: Scanner, rest: string)
    requires Inert(q) && Deaf(rest)
    ensures Never(q, false, ['"'] + rest)
  {
    NeverCons(q, false, '"', rest);
    if q.Out? {
      DeafNever(q.above, rest);
    } else {
      NeverBad(true, rest);
    }
  }

  lemma {:induction false} NeverEscape(q: Scanner, c: char, more: string)
    requires Inert(q) && (Escape(c) == [c] ==> Inert(Next(q, c)) && Never(Next(q, c), false, more))
    ensures Never(q, false, Escape(c) + more)
  {
    EscapeIs(c);
    var e := Escape(c);
    if e == [c] {
      NeverCons(q, false, c, more);
    } else {
      NeverBad(false, e[1..] + more);
      NeverCons(q, false, '\\', e[1..] + more);
      assert e + more == ['\\'] + (e[1..] + more);
    }
  }

  lemma {:induction false} StaysInert(q: Scanner, c: char)
    requires Inert(q) && Escape(c) == [c]
    ensures Inert(Next(q, c))
  {
    EscapeIs(c);
  }

  lemma {:induction false} NeverBody(q: Scanner, s: string, rest: string)
    requires Inert(q) && Deaf(rest)
    ensures Never(q, false, BodyThen(s, ['"'] + rest))
    decreases |s|
  {
    if s == "" {
      NeverQuote(q, rest);
    } else {
      if Escape(s[0]) == [s[0]] {
        StaysInert(q, s[0]);
        NeverBody(Next(q, s[0]), s[1..], rest);
      }
      NeverEscape(q, s[0], BodyThen(s[1..], ['"'] + rest));
    }
  }

  /** The rest of a string, its closing quote, and what then can follow in a printed object. */
  ghost predicate IsRemnant(s: string) {
    exists body, rest :: s == BodyThen(body, ['"'] + rest) && Deaf(rest)
  }

  lemma {:induction false} RemnantIsNoObject(s: string, n: nat)
    requires IsRemnant(s) && n <= |s|
    ensures !IsObject(s[..n])
  {
    var body, rest :| s == BodyThen(body, ['"'] + rest) && Deaf(rest);
    NeverBody(Start, body, rest);
    NeverMeans(Start, false, s, n);
  }

  /** After every line break of `s`, a remnant. */
  ghost predicate Breaks(s: string) {
    forall b: nat :: b < |s| ==> BreakLeaves(s, b)
  }

  ghost predicate BreakLeaves(s: string, b: nat)
    requires b < |s|
  {
    IsBreak(s[b]) ==> IsRemnant(s[b + 1..])
  }

  lemma {:induction false} BreaksCons(c: char, s: string)
    requires Breaks(s) && (IsBreak(c) ==> IsRemnant(s))
    ensures Breaks([c] + s)
  {
    forall b: nat | b < |s| + 1 ensures BreakLeaves([c] + s, b) {
      if b == 0 {
        assert ([c] + s)[1..] == s;
      } else {
        assert BreakLeaves(s, b - 1) && ([c] + s)[b + 1..] == s[b..];
      }
    }
  }

  lemma {:induction false} BreaksAppend(a: string, s: string)
    requires Breaks(s) && OneLine(a)
    ensures Breaks(a + s)
  {
    if a == "" {
      assert a + s == s;
    } else {
      BreaksAppend(a[1..], s);
      BreaksCons(a[0], a[1..] + s);
      assert a + s == [a[0]] + (a[1..] + s);
    }
  }

  lemma {:induction false} BreaksBody(s: string, rest: string)
    requires Deaf(rest) && Breaks(rest)
    ensures Breaks(BodyThen(s, ['"'] + rest))
  {
    if s == "" {
      BreaksCons('"', rest);
    } else {
      BreaksBody(s[1..], rest);
      var more := BodyThen(s[1..], ['"'] + rest);
      EscapeIs(s[0]);
      assert IsRemnant(more);
      if |Escape(s[0])| == 1 {
        BreaksCons(s[0], more);
      } else {
        BreaksAppend(Escape(s[0]), more);
      }
    }
  }

  /** The same of a key, which has no raw break: whatever follows it. */
  lemma {:induction false} BreaksKey(key: string, tail: string)
    requires !HasRawBreak(key) && Breaks(tail)
    ensures Breaks(BodyThen(key, tail))
  {
    if key == "" {
    } else {
      assert forall i :: 0 <= i < |key[1..]| ==> key[1..][i] == key[i + 1];
      BreaksKey(key[1..], tail);
      EscapeIs(key[0]);
      assert !IsRawBreak(key[0]);
      BreaksAppend(Escape(key[0]), BodyThen(key[1..], tail));
    }
  }

  lemma {:induction false} BreaksValue(v: Value, tail: string)
    requires WellFormedValue(v) && Deaf(tail) && Breaks(tail)
    ensures Breaks(ValueThen(v, tail))
    decreases v
  {
    match v
    case Text(s) =>
      BreaksBody(s, tail);
      BreaksCons('"', BodyThen(s, ['"'] + tail));
    case Token(t) =>
      BreaksAppend(t, tail);
    case Nested(fs) =>
      DeafCons('}', tail);
      BreaksCons('}', tail);
      BreaksItems(fs, ['}'] + tail);
      BreaksCons('{', ItemsThen(fs, ['}'] + tail));
  }

  lemma {:induction false} ItemsBegin(fs: Fields, tail: string)
    requires WellFormed(fs) && fs.Field?
    ensures |ItemsThen(fs, tail)| >= 2 && ItemsThen(fs, tail)[0] == '"' && IsLetter(ItemsThen(fs, tail)[1])
  {
    EscapeIs(fs.key[0]);
  }

  /** The first quote of the next field comes before its key's first letter. */
  lemma {:induction false} FieldIsDeaf(items: string)
    requires |items| >= 2 && items[0] == '"' && IsLetter(items[1])
    ensures Deaf([',', ' '] + items)
  {
    DeafCons(' ', items);
    DeafCons(',', [' '] + items);
    assert [',', ' '] + items == [','] + ([' '] + items);
  }

  lemma {:induction false} BreaksItems(fs: Fields, tail: string)
    requires WellFormed(fs) && Deaf(tail) && Breaks(tail)
    ensures Breaks(ItemsThen(fs, tail))
    decreases fs
  {
    match fs
    case End =>
    case Field(key, value, rest) =>
      var after := if rest.End? then tail else [',', ' '] + ItemsThen(rest, tail);
      if rest.Field? {
        BreaksItems(rest, tail);
        BreaksAppend([',', ' '], ItemsThen(rest, tail));
        ItemsBegin(rest, tail);
        FieldIsDeaf(ItemsThen(rest, tail));
      }
      BreaksValue(value, after);
      BreaksAppend([':', ' '], ValueThen(value, after));
      BreaksCons('"', [':', ' '] + ValueThen(value, after));
      BreaksKey(key, ['"'] + ([':', ' '] + ValueThen(value, after)));
      BreaksCons('"', BodyThen(key, ['"'] + ([':', ' '] + ValueThen(value, after))));
  }

  lemma {:induction false} PrintBreaks(fs: Fields)
    requires WellFormed(fs)
    ensures Breaks(Print(fs))
  {
    BreaksCons('}', []);
    assert ['}'] + [] == ['}'];
    BreaksItems(fs, ['}']);
    BreaksCons('{', ItemsThen(fs, ['}']));
  }

  lemma {:induction false} BreakPart(s: string, b: nat, n: nat)
    requires Breaks(s) && b < n <= |s| && IsBreak(s[b])
    ensures !IsObject(s[b + 1..n])
  {
    assert BreakLeaves(s, b);
    RemnantIsNoObject(s[b + 1..], n - b - 1);
    assert s[b + 1..][..n - b - 1] == s[b + 1..n];
  }

  /** A line break in a printed object stands inside one of its texts, so no part of the object
      that begins after it and ends anywhere is an object. */
  lemma {:induction false} PartIsNoObject(fs: Fields, b: nat, n: nat)
    requires WellFormed(fs) && b < n <= |Print(fs)| && IsBreak(Print(fs)[b])
    ensures !IsObject(Print(fs)[b + 1..n])
  {
    PrintBreaks(fs);
    BreakPart(Print(fs), b, n);
  }

  // ---- when a printed object is one line ---------------------------------------------

  lemma {:induction false} OneLineAppend(a: string, b: string)
    ensures OneLine(a + b) <==> OneLine(a) && OneLine(b)
  {
    if OneLine(a + b) {
      assert forall i :: 0 <= i < |a| ==> a[i] == (a + b)[i];
      assert forall i :: 0 <= i < |b| ==> b[i] == (a + b)[|a| + i];
    }
  }

  lemma {:induction false} OneLineBody(s: string, tail: string)
    ensures OneLine(BodyThen(s, tail)) <==> !HasRawBreak(s) && OneLine(tail)
  {
    if s == "" {
    } else {
      OneLineBody(s[1..], tail);
      EscapeIs(s[0]);
      OneLineAppend(Escape(s[0]), BodyThen(s[1..], tail));
      assert s == [s[0]] + s[1..];
      assert HasRawBreak(s) <==> IsRawBreak(s[0]) || HasRawBreak(s[1..]) by {
        assert forall i :: 0 <= i < |s[1..]| ==> s[1..][i] == s[i + 1];
        assert forall i :: 0 < i < |s| ==> s[i] == s[1..][i - 1];
      }
      assert |Escape(s[0])| == 1 ==> (OneLine(Escape(s[0])) <==> !IsRawBreak(s[0]));
    }
  }

  lemma {:induction false} OneLineQuoted(s: string, tail: string)
    ensures OneLine(QuotedThen(s, tail)) <==> !HasRawBreak(s) && OneLine(tail)
  {
    OneLineAppend(['"'], BodyThen(s, ['"'] + tail));
    OneLineBody(s, ['"'] + tail);
    OneLineAppend(['"'], tail);
  }

  lemma {:induction false} OneLineValue(v: Value, tail: string)
    requires WellFormedValue(v)
    ensures OneLine(ValueThen(v, tail)) <==> CleanValue(v) && OneLine(tail)
    decreases v
  {
    match v
    case Text(s) =>
      OneLineQuoted(s, tail);
    case Token(t) =>
      OneLineAppend(t, tail);
    case Nested(fs) =>
      OneLineAppend(['{'], ItemsThen(fs, ['}'] + tail));
      OneLineItems(fs, ['}'] + tail);
      OneLineAppend(['}'], tail);
  }

  lemma {:induction false} OneLineItems(fs: Fields, tail: string)
    requires WellFormed(fs)
    ensures OneLine(ItemsThen(fs, tail)) <==> Clean(fs) && OneLine(tail)
    decreases fs
  {
    match fs
    case End =>
    case Field(key, value, rest) =>
      var after := if rest.End? then tail else [',', ' '] + ItemsThen(rest, tail);
      if rest.Field? {
        OneLineItems(rest, tail);
        OneLineAppend([',', ' '], ItemsThen(rest, tail));
      }
      OneLineValue(value, after);
      OneLineAppend([':', ' '], ValueThen(value, after));
      OneLineQuoted(key, [':', ' '] + ValueThen(value, after));
  }

  /** `splitlines` leaves a printed object in one piece exactly when no text in it has a raw
      break: every other line break is printed as an escape. */
  lemma {:induction false} OneLineIffClean(fs: Fields)
    requires WellFormed(fs)
    ensures OneLine(Print(fs)) <==> Clean(fs)
  {
    OneLineItems(fs, ['}']);
    OneLineAppend(['{'], ItemsThen(fs, ['}']));
  }
}
