/**
 Files of printed rows, one a line: appended by processes that may be killed in the middle of
 a write, and read back through `splitlines`, leniently or strictly.
 */
module JsonLines {
  import opened Prelude
  import opened Lines
  import opened Json

  /** How a row is printed, and how a line is read: `None` for a line that raises. `reread` is
      what a printed row reads back as. */
  datatype Format<!R> = Format(shape: R -> Fields, parse: string -> Option<R>, reread: R -> R)

  /** The facts used of a parser: a printed row reads back, behind any white space, and what
      reads as a row is an object. */
  ghost predicate Sound<R(!new)>(f: Format<R>) {
    && (forall row :: HasShape(f, row))
    && (forall row, ws :: ReadsBehind(f, row, ws))
    && (forall line :: f.parse(line).Some? ==> IsObject(line))
  }

  ghost predicate HasShape<R>(f: Format<R>, row: R) {
    WellFormed(f.shape(row)) && f.shape(row).Field?
  }

  ghost predicate ReadsBehind<R>(f: Format<R>, row: R, ws: string) {
    OnlyWs(ws) ==> f.parse(ws + Printed(f, row)) == Some(f.reread(row))
  }

  function Printed<R>(f: Format<R>, row: R): (line: string) {
    Print(f.shape(row))
  }

  /** A row whose printed form `splitlines` leaves in one piece. */
  predicate IsClean<R>(f: Format<R>, row: R) {
    Clean(f.shape(row))
  }

  // ---- reading -----------------------------------------------------------------------

  function RowsIn<R>(f: Format<R>, line: string): (rows: seq<R>) {
    if Blank(line) then []
    else match f.parse(line)
      case Some(row) => [row]
      case None => []
  }

  /** The rows that the readable lines hold, in order. */
  function Readable<R>(f: Format<R>, lines: seq<string>): (rows: seq<R>) {
    if lines == [] then [] else RowsIn(f, lines[0]) + Readable(f, lines[1..])
  }

  function IsUnreadable<R>(f: Format<R>): string -> bool {
    (line: string) => !Blank(line) && f.parse(line) == None
  }

  /** How many lines are neither blank nor readable. */
  function Unreadable<R>(f: Format<R>, lines: seq<string>): (n: nat) {
    Count(IsUnreadable(f), lines)
  }

  /** A reader that raises at the first line it cannot read. */
  function ReadAll<R>(f: Format<R>, text: string): (rows: Option<seq<R>>) {
    if Unreadable(f, SplitLines(text)) == 0 then Some(Readable(f, SplitLines(text))) else None
  }

  lemma {:induction false} ReadableCons<R>(f: Format<R>, line: string, rest: seq<string>)
    ensures Readable(f, [line] + rest) == RowsIn(f, line) + Readable(f, rest)
    ensures Unreadable(f, [line] + rest) == Unreadable(f, rest) + if IsUnreadable(f)(line) then 1 else 0
  {
    assert ([line] + rest)[1..] == rest;
  }

  lemma {:induction false} ReadableAppend<R>(f: Format<R>, a: seq<string>, b: seq<string>)
    ensures Readable(f, a + b) == Readable(f, a) + Readable(f, b)
  {
    if a == [] {
      assert a + b == b;
    } else {
      ReadableAppend(f, a[1..], b);
      assert (a + b)[1..] == a[1..] + b;
      Associate(RowsIn(f, a[0]), Readable(f, a[1..]), Readable(f, b));
    }
  }

  /** The strict reader's loop. */
  method ReadStrictly<R>(f: Format<R>, text: string) returns (rows: Option<seq<R>>)
    ensures rows == ReadAll(f, text)
  {
    var lines := SplitLines(text);
    var read: seq<R> := [];
    for i := 0 to |lines|
      invariant read == Readable(f, lines[..i]) && Unreadable(f, lines[..i]) == 0
    {
      ReadNext(f, lines, i);
      if !Blank(lines[i]) {
        match f.parse(lines[i]) {
          case Some(row) => read := read + [row];
          case None => return None;
        }
      }
    }
    assert lines[..|lines|] == lines;
    return Some(read);
  }

  lemma {:induction false} ReadNext<R>(f: Format<R>, lines: seq<string>, i: nat)
    requires i < |lines|
    ensures Readable(f, lines[..i + 1]) == Readable(f, lines[..i]) + RowsIn(f, lines[i])
    ensures Unreadable(f, lines[..i + 1]) == Unreadable(f, lines[..i]) + if IsUnreadable(f)(lines[i]) then 1 else 0
    ensures Unreadable(f, lines[..i + 1]) <= Unreadable(f, lines)
  {
    assert lines[..i + 1] == lines[..i] + [lines[i]];
    ReadableAppend(f, lines[..i], [lines[i]]);
    assert Readable(f, [lines[i]]) == RowsIn(f, lines[i]) + [];
    CountAppend(IsUnreadable(f), lines[..i], [lines[i]]);
    CountAppend(IsUnreadable(f), lines[..i + 1], lines[i + 1..]);
    assert lines == lines[..i + 1] + lines[i + 1..];
  }

  // ---- writing -----------------------------------------------------------------------

  /** One append to a file: all of it, or, when the process is killed during it, its first
      `kept` characters. Another process opens the file after a kill. */
  datatype Append<R> = Whole(row: R) | Killed(row: R, kept: nat)

  function Beginning(line: string, kept: nat): (s: string)
    ensures s <= line
  {
    if kept <= |line| then line[..kept] else line
  }

  function Piece<R>(f: Format<R>, a: Append<R>): (s: string) {
    match a
    case Whole(row) => Printed(f, row) + "\n"
    case Killed(row, kept) => Beginning(Printed(f, row), kept)
  }

  function Pieces<R>(f: Format<R>, appends: seq<Append<R>>): (pieces: seq<string>)
    ensures |pieces| == |appends|
  {
    if appends == [] then [] else [Piece(f, appends[0])] + Pieces(f, appends[1..])
  }

  /** The file after the appends, each by whichever process was running. */
  function TextOf<R>(f: Format<R>, appends: seq<Append<R>>): (text: string) {
    Concat(Pieces(f, appends))
  }

  function Wholes<R>(rows: seq<R>): (appends: seq<Append<R>>)
    ensures |appends| == |rows|
  {
    seq(|rows|, i requires 0 <= i < |rows| => Whole(rows[i]))
  }

  /** A file of these rows, written without a kill. */
  function Written<R>(f: Format<R>, rows: seq<R>): (text: string) {
    TextOf(f, Wholes(rows))
  }

  lemma {:induction false} TextCons<R>(f: Format<R>, a: Append<R>, rest: seq<Append<R>>)
    ensures TextOf(f, [a] + rest) == Piece(f, a) + TextOf(f, rest)
  {
    assert ([a] + rest)[1..] == rest;
    assert ([Piece(f, a)] + Pieces(f, rest))[1..] == Pieces(f, rest);
  }

  lemma {:induction false} PiecesAppend<R>(f: Format<R>, a: seq<Append<R>>, b: seq<Append<R>>)
    ensures Pieces(f, a + b) == Pieces(f, a) + Pieces(f, b)
  {
    if a == [] {
      assert a + b == b;
    } else {
      PiecesAppend(f, a[1..], b);
      assert (a + b)[1..] == a[1..] + b;
      Associate([Piece(f, a[0])], Pieces(f, a[1..]), Pieces(f, b));
    }
  }

  lemma {:induction false} TextAppend<R>(f: Format<R>, a: seq<Append<R>>, b: seq<Append<R>>)
    ensures TextOf(f, a + b) == TextOf(f, a) + TextOf(f, b)
  {
    PiecesAppend(f, a, b);
    ConcatAppend(Pieces(f, a), Pieces(f, b));
  }

  function Kills<R>(appends: seq<Append<R>>): (n: nat) {
    if appends == [] then 0 else (if appends[0].Killed? then 1 else 0) + Kills(appends[1..])
  }

  /** How many of the rows written have a raw break. */
  function Dirty<R>(f: Format<R>, appends: seq<Append<R>>): (n: nat) {
    if appends == [] then 0 else (if IsClean(f, appends[0].row) then 0 else 1) + Dirty(f, appends[1..])
  }

  // ---- what survives -----------------------------------------------------------------

  /** The unfinished last line of a file: nothing but white space, one complete row without its
      line feed, or something that no row can follow. */
  datatype Tail<R> = Fresh | Complete(row: R) | Stuck

  function LastLine(s: string): (line: string)
    ensures |line| <= |s| && line == s[|s| - |line|..] && OneLine(line)
    ensures |line| < |s| ==> IsBreak(s[|s| - |line| - 1])
  {
    if s == "" || IsBreak(s[|s| - 1]) then "" else LastLine(s[..|s| - 1]) + [s[|s| - 1]]
  }

  /** The unfinished line once the first `kept` characters of a row were appended to it. */
  function Torn<R>(f: Format<R>, tail: Tail<R>, row: R, kept: nat): (t: Tail<R>) {
    var piece := Beginning(Printed(f, row), kept);
    if piece == "" then tail
    else if !OneLine(piece) then (if OnlyWs(LastLine(piece)) then Fresh else Stuck)
    else if tail.Fresh? && piece == Printed(f, row) then Complete(row)
    else Stuck
  }

  function Yield<R>(f: Format<R>, tail: Tail<R>): (rows: seq<R>) {
    if tail.Complete? then [f.reread(tail.row)] else []
  }

  /** The rows that can be read back, when the file so far ends in the unfinished line `tail`. */
  function Survivors<R>(f: Format<R>, tail: Tail<R>, appends: seq<Append<R>>): (rows: seq<R>)
    decreases |appends|
  {
    if appends == [] then Yield(f, tail)
    else match appends[0]
      case Whole(row) => Yield(f, Torn(f, tail, row, |Printed(f, row)|)) + Survivors(f, Fresh, appends[1..])
      case Killed(row, kept) => Survivors(f, Torn(f, tail, row, kept), appends[1..])
  }

  /** `x` is an unfinished line of the kind `tail`. */
  ghost predicate IsTail<R>(f: Format<R>, x: string, tail: Tail<R>) {
    OneLine(x) && match tail
                  case Fresh => OnlyWs(x)
                  case Complete(row) => IsClean(f, row) && Scan(Start, x) != Start && Reads(f, x, row)
                  case Stuck => Scan(Start, x) != Start && !IsObject(x)
  }

  ghost predicate Reads<R>(f: Format<R>, x: string, row: R) {
    f.parse(x) == Some(f.reread(row)) && !Blank(x)
  }

  lemma {:induction false} WsIsBlank(x: string)
    requires OnlyWs(x)
    ensures Blank(x)
  {
  }

  lemma {:induction false} NotBlank(x: string, y: string)
    requires y != "" && y[0] == '{'
    ensures !Blank(x + y)
  {
    assert (x + y)[|x|] == '{';
  }

  /** A line that is no object holds no row. */
  lemma {:induction false} NoRowIn<R(!new)>(f: Format<R>, line: string)
    requires Sound(f) && !IsObject(line)
    ensures RowsIn(f, line) == []
    ensures !Blank(line) ==> IsUnreadable(f)(line)
  {
  }

  /** A clean row behind white space is read. */
  lemma {:induction false} RowBehind<R(!new)>(f: Format<R>, ws: string, row: R)
    requires Sound(f) && OnlyWs(ws)
    ensures Reads(f, ws + Printed(f, row), row)
  {
    assert ReadsBehind(f, row, ws) && HasShape(f, row);
    PrintBegins(f.shape(row));
    NotBlank(ws, Printed(f, row));
  }

  lemma {:induction false} YieldIs<R(!new)>(f: Format<R>, x: string, tail: Tail<R>)
    requires Sound(f) && IsTail(f, x, tail)
    ensures RowsIn(f, x) == Yield(f, tail)
  {
    match tail
    case Fresh => WsIsBlank(x);
    case Complete(_) =>
    case Stuck => NoRowIn(f, x);
  }

  /** No part of `s` between a line break and a later place is an object. */
  ghost predicate NoParts(s: string) {
    forall b: nat, n: nat :: b < n <= |s| ==> PartIsNone(s, b, n)
  }

  ghost predicate PartIsNone(s: string, b: nat, n: nat)
    requires b < n <= |s|
  {
    IsBreak(s[b]) ==> !IsObject(s[b + 1..n])
  }

  /** What the scan of a printed row, or of a beginning of it, comes to. */
  ghost predicate IsRowText(s: string) {
    && |s| >= 3 && s[0] == '{' && IsObject(s) && NoParts(s)
    && (forall n: nat :: 0 < n < |s| ==> LeavesOpen(s, n))
    && (forall q, n: nat :: q != Start && 0 < n <= |s| ==> Spoils(s, q, n))
  }

  ghost predicate LeavesOpen(s: string, n: nat)
    requires n <= |s|
  {
    Spoilt(Scan(Start, s[..n]))
  }

  ghost predicate Spoils(s: string, q: Scanner, n: nat)
    requires n <= |s|
  {
    Spoilt(Scan(q, s[..n]))
  }

  lemma {:induction false} RowText<R(!new)>(f: Format<R>, row: R)
    requires Sound(f)
    ensures IsRowText(Printed(f, row))
  {
    assert HasShape(f, row);
    var s, fs := Printed(f, row), f.shape(row);
    PrintBegins(fs);
    PrintIsObject(fs);
    forall b: nat, n: nat | b < n <= |s| ensures PartIsNone(s, b, n) {
      if IsBreak(s[b]) {
        PartIsNoObject(fs, b, n);
      }
    }
    forall n: nat | 0 < n < |s| ensures LeavesOpen(s, n) {
      BeginningIsOpen(fs, n);
    }
    forall q, n: nat | q != Start && 0 < n <= |s| ensures Spoils(s, q, n) {
      PieceSpoils(q, fs, n);
    }
  }

  /** The beginning of a row, on any unfinished line; all of it, if the line is not white space. */
  lemma {:induction false} PieceOnLine(x: string, s: string, n: nat)
    requires IsRowText(s) && 0 < n <= |s| && (OnlyWs(x) ==> n < |s|)
    ensures Spoilt(Scan(Start, x + s[..n])) && !Blank(x + s[..n])
  {
    ScanAppend(Start, x, s[..n]);
    ScanToStart(Start, x);
    NotBlank(x, s[..n]);
    assert OnlyWs(x) ==> LeavesOpen(s, n);
    assert !OnlyWs(x) ==> Spoils(s, Scan(Start, x), n);
  }

  lemma {:induction false} RestHasNoParts(s: string, e: nat)
    requires NoParts(s) && e < |s|
    ensures NoParts(s[e + 1..])
    ensures IsBreak(s[e]) ==> Headless(s[e + 1..])
  {
    var rest := s[e + 1..];
    forall b: nat, n: nat | b < n <= |rest| ensures PartIsNone(rest, b, n) {
      assert PartIsNone(s, e + 1 + b, e + 1 + n);
      assert rest[b + 1..n] == s[e + 1 + b + 1..e + 1 + n];
    }
    if IsBreak(s[e]) {
      forall n: nat | n <= |rest| ensures BeginsNone(rest, n) {
        assert PartIsNone(s, e, e + 1 + n);
        assert rest[..n] == s[e + 1..e + 1 + n];
      }
    }
  }

  /** No beginning of `s` is an object. */
  ghost predicate Headless(s: string) {
    forall n: nat :: n <= |s| ==> BeginsNone(s, n)
  }

  ghost predicate BeginsNone(s: string, n: nat)
    requires n <= |s|
  {
    !IsObject(s[..n])
  }

  predicate ReadsNothing<R>(f: Format<R>, s: string) {
    Readable(f, SplitLines(s)) == []
  }

  lemma {:induction false} FirstLine<R>(f: Format<R>, s: string, line: string, rest: string)
    requires SplitLines(s) == [line] + SplitLines(rest) && RowsIn(f, line) == [] && ReadsNothing(f, rest)
    ensures ReadsNothing(f, s)
  {
    ReadableCons(f, line, SplitLines(rest));
  }

  /** Every line of it is ended by a break. */
  predicate Terminated(s: string) {
    s == "" || IsBreak(s[|s| - 1])
  }

  lemma {:induction false} RestIsTerminated(s: string)
    requires s != "" && Terminated(s)
    ensures FirstBreak(s) < |s| && IsBreak(s[FirstBreak(s)]) && Terminated(s[FirstBreak(s) + 1..])
  {
    FirstBreakOf(s, |s| - 1);
  }

  lemma {:induction false} HeadlessLine<R(!new)>(f: Format<R>, s: string, e: nat)
    requires Sound(f) && Headless(s) && e <= |s|
    ensures RowsIn(f, s[..e]) == []
  {
    assert BeginsNone(s, e);
    NoRowIn(f, s[..e]);
  }

  /** Nothing can be read from what follows a line break of a row, up to a later one. */
  lemma {:induction false} RemainderReadsNothing<R(!new)>(f: Format<R>, s: string)
    requires Sound(f) && NoParts(s) && Headless(s) && Terminated(s)
    ensures ReadsNothing(f, s)
    decreases |s|
  {
    if s == "" {
    } else {
      var e := FirstBreak(s);
      RestIsTerminated(s);
      SplitFirst(s);
      HeadlessLine(f, s, e);
      RestHasNoParts(s, e);
      RemainderReadsNothing(f, s[e + 1..]);
      FirstLine(f, s, s[..e], s[e + 1..]);
    }
  }

  lemma {:induction false} BeginningHasNoParts(s: string, n: nat)
    requires NoParts(s) && n <= |s|
    ensures NoParts(s[..n])
  {
    forall b: nat, m: nat | b < m <= n ensures PartIsNone(s[..n], b, m) {
      assert PartIsNone(s, b, m) && s[..n][b + 1..m] == s[b + 1..m];
    }
  }

  lemma {:induction false} FirstBreakOf(s: string, b: nat)
    requires b < |s| && IsBreak(s[b])
    ensures FirstBreak(s) <= b && IsBreak(s[FirstBreak(s)]) && OneLine(s[..FirstBreak(s)])
  {
  }

  /** The line that a row was appended to, ended by the row's first line break. */
  ghost predicate FirstLineIsNone(x: string, s: string) {
    OneLine(x) && !IsObject(x + s[..FirstBreak(s)]) && !Blank(x + s[..FirstBreak(s)])
  }

  lemma {:induction false} FirstLineOfRow(x: string, s: string, b: nat)
    requires OneLine(x) && IsRowText(s) && b < |s| && IsBreak(s[b])
    ensures FirstLineIsNone(x, s)
  {
    FirstBreakOf(s, b);
    PieceOnLine(x, s, FirstBreak(s));
  }

  lemma {:induction false} FirstLineSplits(x: string, s: string, e: nat, more: string)
    requires OneLine(x) && e < |s| && IsBreak(s[e]) && OneLine(s[..e])
    ensures SplitLines(x + s[..e] + ([s[e]] + more)) == [x + s[..e]] + SplitLines(more)
  {
    OneLineAppend(x, s[..e]);
    SplitAtBreak(x + s[..e], s[e], more);
  }

  /** Up to any line break of the row, nothing can be read. */
  lemma {:induction false} HeadReadsNothing<R(!new)>(f: Format<R>, x: string, s: string, b: nat)
    requires Sound(f) && FirstLineIsNone(x, s) && NoParts(s) && b < |s| && IsBreak(s[b])
    ensures ReadsNothing(f, x + s[..b + 1])
  {
    var e := FirstBreak(s);
    FirstBreakOf(s, b);
    RestReadsNothing(f, s, e, b);
    NoRowIn(f, x + s[..e]);
    FirstLineSplits(x, s, e, s[e + 1..b + 1]);
    HeadInTwo(f, x, s, e, b + 1);
  }

  lemma {:induction false} HeadInTwo<R>(f: Format<R>, x: string, s: string, e: nat, n: nat)
    requires e < n <= |s| && SplitLines(x + s[..e] + ([s[e]] + s[e + 1..n])) == [x + s[..e]] + SplitLines(s[e + 1..n])
    requires RowsIn(f, x + s[..e]) == [] && ReadsNothing(f, s[e + 1..n])
    ensures ReadsNothing(f, x + s[..n])
  {
    SliceAround(s, e, n);
    Associate(x, s[..e], [s[e]] + s[e + 1..n]);
    FirstLine(f, x + s[..n], x + s[..e], s[e + 1..n]);
  }

  lemma {:induction false} SliceAround(s: string, e: nat, n: nat)
    requires e < n <= |s|
    ensures s[..n] == s[..e] + ([s[e]] + s[e + 1..n])
  {
  }

  lemma {:induction false} RestReadsNothing<R(!new)>(f: Format<R>, s: string, e: nat, b: nat)
    requires Sound(f) && NoParts(s) && e <= b < |s| && IsBreak(s[e]) && IsBreak(s[b])
    ensures ReadsNothing(f, s[e + 1..b + 1])
  {
    BeginningHasNoParts(s, b + 1);
    RestHasNoParts(s[..b + 1], e);
    assert s[..b + 1][e + 1..] == s[e + 1..b + 1];
    RemainderReadsNothing(f, s[e + 1..b + 1]);
  }

  ghost predicate SameReading<R>(f: Format<R>, s: string, t: string) {
    Readable(f, SplitLines(s)) == Readable(f, SplitLines(t))
  }

  lemma {:induction false} LastLineIs(s: string)
    ensures !OneLine(s) ==> |LastLine(s)| < |s|
  {
    if |LastLine(s)| == |s| {
      assert s[0..] == s;
    }
  }

  /** Of a beginning of a row with a line break in it, only what follows the last one counts. */
  lemma {:induction false} BrokenPiece<R(!new)>(f: Format<R>, x: string, s: string, n: nat, rest: string)
    requires Sound(f) && OneLine(x) && IsRowText(s) && n <= |s| && !OneLine(s[..n])
    ensures SameReading(f, x + s[..n] + rest, LastLine(s[..n]) + rest)
  {
    LastLineIs(s[..n]);
    var last := LastLine(s[..n]);
    var b := n - |last| - 1;
    assert s[..n][b] == s[b] && s[..n] == s[..b + 1] + last && s[..b + 1] == s[..b] + [s[b]];
    FirstLineOfRow(x, s, b);
    HeadReadsNothing(f, x, s, b);
    SplitHead(x + s[..b], s[b], last, rest);
    Associate(x, s[..b], [s[b]]);
    Associate(x, s[..b + 1], last);
    ReadableAppend(f, SplitLines(x + s[..b + 1]), SplitLines(last + rest));
  }

  lemma {:induction false} SplitHead(s: string, c: char, last: string, rest: string)
    requires IsBreak(c)
    ensures SplitLines(s + [c] + last + rest) == SplitLines(s + [c]) + SplitLines(last + rest)
  {
    SplitTerminated(s, c, last + rest);
    Associate(s, [c], last + rest);
    Associate(s + [c], last, rest);
  }

  /** What appending the beginning of a row does to an unfinished line. */
  lemma {:induction false} TornIs<R(!new)>(f: Format<R>, x: string, tail: Tail<R>, row: R, kept: nat) returns (y: string)
    requires Sound(f) && IsTail(f, x, tail)
    ensures IsTail(f, y, Torn(f, tail, row, kept))
    ensures forall rest :: SameReading(f, x + Beginning(Printed(f, row), kept) + rest, y + rest)
  {
    var s := Printed(f, row);
    var piece := Beginning(s, kept);
    RowText(f, row);
    if piece == "" {
      y := x;
      assert x + piece == x;
    } else if OneLine(piece) {
      y := x + piece;
      assert piece == s[..|piece|] && (piece == s <==> |piece| == |s|);
      UnbrokenPiece(f, x, tail, row, |piece|);
    } else {
      y := LastLine(piece);
      BrokenStands(f, x, s, piece);
    }
  }

  lemma {:induction false} BrokenStands<R(!new)>(f: Format<R>, x: string, s: string, piece: string)
    requires Sound(f) && OneLine(x) && IsRowText(s) && piece <= s && !OneLine(piece)
    ensures IsTail(f, LastLine(piece), if OnlyWs(LastLine(piece)) then Fresh else Stuck)
    ensures forall rest :: SameReading(f, x + piece + rest, LastLine(piece) + rest)
  {
    assert piece == s[..|piece|];
    LastLineOfRow(f, s, |piece|);
    forall rest ensures SameReading(f, x + piece + rest, LastLine(piece) + rest) {
      BrokenPiece(f, x, s, |piece|, rest);
    }
  }

  lemma {:induction false} UnbrokenPiece<R(!new)>(f: Format<R>, x: string, tail: Tail<R>, row: R, n: nat)
    requires Sound(f) && IsTail(f, x, tail) && 0 < n <= |Printed(f, row)| && OneLine(Printed(f, row)[..n])
    ensures IsTail(f, x + Printed(f, row)[..n], if tail.Fresh? && n == |Printed(f, row)| then Complete(row) else Stuck)
  {
    var s := Printed(f, row);
    RowText(f, row);
    OneLineAppend(x, s[..n]);
    ScanToStart(Start, x);
    if tail.Fresh? && n == |s| {
      assert s[..n] == s && HasShape(f, row);
      OneLineIffClean(f.shape(row));
      ScanAppend(Start, x, s);
      RowBehind(f, x, row);
    } else {
      PieceOnLine(x, s, n);
    }
  }

  lemma {:induction false} LastPartIsNone(s: string, n: nat)
    requires NoParts(s) && n <= |s| && !OneLine(s[..n])
    ensures !IsObject(LastLine(s[..n]))
  {
    LastLineIs(s[..n]);
    var last := LastLine(s[..n]);
    var b := n - |last| - 1;
    assert s[..n][b] == s[b] && s[..n][b + 1..] == s[b + 1..n];
    assert PartIsNone(s, b, n);
  }

  lemma {:induction false} LastLineOfRow<R(!new)>(f: Format<R>, s: string, n: nat)
    requires NoParts(s) && n <= |s| && !OneLine(s[..n])
    ensures var last := LastLine(s[..n]); IsTail(f, last, if OnlyWs(last) then Fresh else Stuck)
  {
    LastPartIsNone(s, n);
    ScanToStart(Start, LastLine(s[..n]));
  }

  /** A line feed ends the unfinished line. */
  lemma {:induction false} LineEnds<R(!new)>(f: Format<R>, x: string, tail: Tail<R>, rest: string)
    requires Sound(f) && IsTail(f, x, tail)
    ensures Readable(f, SplitLines(x + ("\n" + rest))) == Yield(f, tail) + Readable(f, SplitLines(rest))
  {
    SplitAtBreak(x, '\n', rest);
    assert ['\n'] + rest == "\n" + rest;
    ReadableCons(f, x, SplitLines(rest));
    YieldIs(f, x, tail);
  }

  lemma {:induction false} FileEnds<R(!new)>(f: Format<R>, x: string, tail: Tail<R>)
    requires Sound(f) && IsTail(f, x, tail)
    ensures Readable(f, SplitLines(x)) == Yield(f, tail)
  {
    SplitOneLine(x);
    YieldIs(f, x, tail);
    if x == "" {
      assert Blank(x);
    } else {
      ReadableCons(f, x, []);
      assert [x] + [] == [x];
    }
  }

  /** What is read back is what survives, whatever was appended and wherever a kill cut it. */
  lemma {:induction false} ReadsBack<R(!new)>(f: Format<R>, x: string, tail: Tail<R>, appends: seq<Append<R>>)
    requires Sound(f) && IsTail(f, x, tail)
    ensures Readable(f, SplitLines(x + TextOf(f, appends))) == Survivors(f, tail, appends)
    decreases |appends|
  {
    if appends == [] {
      assert x + TextOf(f, appends) == x;
      FileEnds(f, x, tail);
    } else {
      var a, rest := appends[0], appends[1..];
      var text := TextOf(f, rest);
      assert appends == [a] + rest;
      TextCons(f, a, rest);
      match a
      case Killed(row, kept) =>
        var y := TornIs(f, x, tail, row, kept);
        ReadsBack(f, y, Torn(f, tail, row, kept), rest);
        Associate(x, Beginning(Printed(f, row), kept), text);
        assert SameReading(f, x + Beginning(Printed(f, row), kept) + text, y + text);
      case Whole(row) =>
        WholeReadsBack(f, x, tail, row, text);
        ReadsBack(f, "", Fresh, rest);
        NothingBefore(text);
    }
  }

  lemma {:induction false} WholeReadsBack<R(!new)>(f: Format<R>, x: string, tail: Tail<R>, row: R, text: string)
    requires Sound(f) && IsTail(f, x, tail)
    ensures Readable(f, SplitLines(x + (Printed(f, row) + "\n" + text)))
            == Yield(f, Torn(f, tail, row, |Printed(f, row)|)) + Readable(f, SplitLines(text))
  {
    var s := Printed(f, row);
    var y := TornIs(f, x, tail, row, |s|);
    assert Beginning(s, |s|) == s;
    assert SameReading(f, x + Beginning(s, |s|) + ("\n" + text), y + ("\n" + text));
    LineEnds(f, y, Torn(f, tail, row, |s|), text);
    Associate(s, "\n", text);
    Associate(x, s, "\n" + text);
  }

  /** A file that any number of processes appended to, any of them killed at any character of a
      write, gives back exactly the survivors. */
  lemma {:induction false} FileReadsBack<R(!new)>(f: Format<R>, appends: seq<Append<R>>)
    requires Sound(f)
    ensures Readable(f, SplitLines(TextOf(f, appends))) == Survivors(f, Fresh, appends)
  {
    ReadsBack(f, "", Fresh, appends);
    NothingBefore(TextOf(f, appends));
  }

  // ---- what a kill costs -------------------------------------------------------------

  /** No row of these has a raw break. */
  ghost predicate AllClean<R(!new)>(f: Format<R>, rows: seq<R>) {
    forall row :: row in rows ==> IsClean(f, row)
  }

  /** Rows written without a kill, those that read back. */
  function Kept<R>(f: Format<R>, rows: seq<R>): (kept: seq<R>)
    ensures |kept| <= |rows|
  {
    if rows == [] then [] else (if IsClean(f, rows[0]) then [f.reread(rows[0])] else []) + Kept(f, rows[1..])
  }

  /** A whole row, on an unfinished line. */
  lemma {:induction false} TornWhole<R(!new)>(f: Format<R>, tail: Tail<R>, row: R, kept: nat)
    requires Sound(f) && kept >= |Printed(f, row)|
    ensures Torn(f, tail, row, kept).Complete? <==> tail.Fresh? && IsClean(f, row)
    ensures Torn(f, tail, row, kept).Complete? ==> Torn(f, tail, row, kept) == Complete(row)
  {
    assert HasShape(f, row);
    OneLineIffClean(f.shape(row));
    PrintBegins(f.shape(row));
    assert Beginning(Printed(f, row), kept) == Printed(f, row);
  }

  lemma {:induction false} LossBound<R(!new)>(f: Format<R>, tail: Tail<R>, appends: seq<Append<R>>)
    requires Sound(f)
    ensures |appends| <= |Survivors(f, tail, appends)| + 2 * Kills(appends) + Dirty(f, appends) + if tail.Fresh? then 0 else 1
    decreases |appends|
  {
    if appends == [] {
    } else {
      match appends[0]
      case Whole(row) =>
        TornWhole(f, tail, row, |Printed(f, row)|);
        LossBound(f, Fresh, appends[1..]);
      case Killed(row, kept) =>
        LossBound(f, Torn(f, tail, row, kept), appends[1..]);
    }
  }

  /** A kill in the middle of a write costs at most two of the rows written that a reader could
      have read at all: the one it cuts, and the one appended onto the unfinished line. */
  lemma {:induction false} AKillCostsTwo<R(!new)>(f: Format<R>, appends: seq<Append<R>>)
    requires Sound(f)
    ensures |appends| - |Readable(f, SplitLines(TextOf(f, appends)))| <= 2 * Kills(appends) + Dirty(f, appends)
  {
    FileReadsBack(f, appends);
    LossBound(f, Fresh, appends);
  }

  lemma {:induction false} WholesSurvive<R(!new)>(f: Format<R>, rows: seq<R>, rest: seq<Append<R>>)
    requires Sound(f)
    ensures Survivors(f, Fresh, Wholes(rows) + rest) == Kept(f, rows) + Survivors(f, Fresh, rest)
  {
    if rows == [] {
      assert Wholes(rows) + rest == rest;
    } else {
      var more := Wholes(rows[1..]) + rest;
      assert Wholes(rows) + rest == [Whole(rows[0])] + more;
      TornWhole(f, Fresh, rows[0], |Printed(f, rows[0])|);
      WholesSurvive(f, rows[1..], rest);
      SurvivorsNext(f, Fresh, Whole(rows[0]), more);
      Associate(Yield(f, Torn(f, Fresh, rows[0], |Printed(f, rows[0])|)), Kept(f, rows[1..]), Survivors(f, Fresh, rest));
    }
  }

  lemma {:induction false} SurvivorsNext<R>(f: Format<R>, tail: Tail<R>, a: Append<R>, rest: seq<Append<R>>)
    ensures Survivors(f, tail, [a] + rest)
            == match a
               case Whole(row) => Yield(f, Torn(f, tail, row, |Printed(f, row)|)) + Survivors(f, Fresh, rest)
               case Killed(row, kept) => Survivors(f, Torn(f, tail, row, kept), rest)
  {
    assert ([a] + rest)[1..] == rest;
  }

  /** The rows read back around one kill, of a row that has no raw break. */
  function AroundKill<R>(f: Format<R>, before: seq<R>, row: R, kept: nat, after: seq<R>): (rows: seq<R>) {
    Kept(f, before) +
    if kept == 0 then Kept(f, after)
    else if after != [] then Kept(f, after[1..])
    else if kept >= |Printed(f, row)| then [f.reread(row)] else []
  }

  lemma {:induction false} OnlyWholes<R(!new)>(f: Format<R>, rows: seq<R>)
    requires Sound(f)
    ensures Survivors(f, Fresh, Wholes(rows)) == Kept(f, rows)
  {
    WholesSurvive(f, rows, []);
    assert Wholes(rows) + [] == Wholes(rows) && Kept(f, rows) + [] == Kept(f, rows);
  }

  /** The row after an unfinished line is lost with it. */
  lemma {:induction false} AfterUnfinished<R(!new)>(f: Format<R>, tail: Tail<R>, rows: seq<R>)
    requires Sound(f) && !tail.Fresh? && rows != []
    ensures Survivors(f, tail, Wholes(rows)) == Kept(f, rows[1..])
  {
    assert Wholes(rows) == [Whole(rows[0])] + Wholes(rows[1..]);
    TornWhole(f, tail, rows[0], |Printed(f, rows[0])|);
    SurvivorsNext(f, tail, Whole(rows[0]), Wholes(rows[1..]));
    OnlyWholes(f, rows[1..]);
  }

  lemma {:induction false} TornClean<R(!new)>(f: Format<R>, row: R, kept: nat)
    requires Sound(f) && IsClean(f, row)
    ensures Torn(f, Fresh, row, kept) == if kept == 0 then Fresh else if kept >= |Printed(f, row)| then Complete(row) else Stuck
  {
    var s := Printed(f, row);
    assert HasShape(f, row);
    PrintBegins(f.shape(row));
    OneLineIffClean(f.shape(row));
    var piece := Beginning(s, kept);
    assert OneLine(piece) && (piece == "" <==> kept == 0) && (piece == s <==> kept >= |s|);
  }

  lemma {:induction false} AfterKill<R(!new)>(f: Format<R>, row: R, kept: nat, after: seq<R>)
    requires Sound(f) && IsClean(f, row)
    ensures Survivors(f, Fresh, [Killed(row, kept)] + Wholes(after)) == AroundKill(f, [], row, kept, after)
  {
    TornClean(f, row, kept);
    SurvivorsNext(f, Fresh, Killed(row, kept), Wholes(after));
    if kept == 0 {
      OnlyWholes(f, after);
    } else if after != [] {
      AfterUnfinished(f, Torn(f, Fresh, row, kept), after);
    }
  }

  /** Exactly what a file with one kill in it gives back. */
  lemma {:induction false} OneKill<R(!new)>(f: Format<R>, before: seq<R>, row: R, kept: nat, after: seq<R>)
    requires Sound(f) && IsClean(f, row)
    ensures Readable(f, SplitLines(TextOf(f, Wholes(before) + ([Killed(row, kept)] + Wholes(after))))) == AroundKill(f, before, row, kept, after)
  {
    FileReadsBack(f, Wholes(before) + ([Killed(row, kept)] + Wholes(after)));
    WholesSurvive(f, before, [Killed(row, kept)] + Wholes(after));
    AfterKill(f, row, kept, after);
  }

  lemma {:induction false} KeptAll<R(!new)>(f: Format<R>, rows: seq<R>)
    requires AllClean(f, rows)
    ensures |Kept(f, rows)| == |rows|
  {
    if rows == [] {
    } else {
      KeptAll(f, rows[1..]);
    }
  }

  /** Of rows that can be read at all, a kill costs more than the one it cuts if and only if it
      leaves something of that row and another row is appended. */
  lemma {:induction false} AKillCostsOneIff<R(!new)>(f: Format<R>, before: seq<R>, row: R, kept: nat, after: seq<R>)
    requires Sound(f) && AllClean(f, before + [row] + after)
    ensures var all := Wholes(before) + ([Killed(row, kept)] + Wholes(after));
            var lost := |all| - |Readable(f, SplitLines(TextOf(f, all)))|;
            && (lost <= 1 <==> kept == 0 || after == [])
            && (lost == 0 <==> kept >= |Printed(f, row)| && after == [])
            && lost <= 2
  {
    var rows := before + [row] + after;
    assert row in rows && HasShape(f, row);
    assert forall r :: r in before || r in after ==> r in rows;
    PrintBegins(f.shape(row));
    OneKill(f, before, row, kept, after);
    KeptAll(f, before);
    KeptAll(f, after);
    if after != [] {
      KeptAll(f, after[1..]);
    }
  }

  /** A file written without a kill gives back its rows, but for those that `splitlines` cuts. */
  lemma {:induction false} WrittenReadsBack<R(!new)>(f: Format<R>, rows: seq<R>)
    requires Sound(f)
    ensures Readable(f, SplitLines(Written(f, rows))) == Kept(f, rows)
  {
    FileReadsBack(f, Wholes(rows));
    OnlyWholes(f, rows);
  }

  // ---- when a strict reader can read the file ----------------------------------------

  /** Every line of the file is one clean row. `full` says that the unfinished line already
      holds one: then nothing more may be appended to it. */
  predicate Intact<R>(f: Format<R>, full: bool, appends: seq<Append<R>>)
    decreases |appends|
  {
    appends == [] ||
    match appends[0]
    case Whole(row) => !full && IsClean(f, row) && Intact(f, false, appends[1..])
    case Killed(row, kept) =>
      if kept == 0 then Intact(f, full, appends[1..])
      else !full && IsClean(f, row) && kept >= |Printed(f, row)| && Intact(f, true, appends[1..])
  }

  ghost predicate Fails<R>(f: Format<R>, text: string) {
    Unreadable(f, SplitLines(text)) > 0
  }

  lemma {:induction false} LineFails<R(!new)>(f: Format<R>, line: string, c: char, more: string)
    requires Sound(f) && OneLine(line) && IsBreak(c) && !Blank(line) && !IsObject(line)
    ensures Fails(f, line + ([c] + more))
  {
    SplitAtBreak(line, c, more);
    NoRowIn(f, line);
    ReadableCons(f, line, SplitLines(more));
  }

  lemma {:induction false} LastLineFails<R(!new)>(f: Format<R>, line: string)
    requires Sound(f) && OneLine(line) && !Blank(line) && !IsObject(line)
    ensures Fails(f, line)
  {
    SplitOneLine(line);
    NoRowIn(f, line);
    ReadableCons(f, line, []);
    assert [line] + [] == [line];
  }

  lemma {:induction false} LineReads<R(!new)>(f: Format<R>, row: R, more: string)
    requires Sound(f) && IsClean(f, row)
    ensures Fails(f, Printed(f, row) + "\n" + more) <==> Fails(f, more)
    ensures !Fails(f, Printed(f, row))
  {
    var s := Printed(f, row);
    assert HasShape(f, row);
    OneLineIffClean(f.shape(row));
    RowBehind(f, "", row);
    NothingBefore(s);
    SplitAtBreak(s, '\n', more);
    Associate(s, "\n", more);
    assert ['\n'] + more == "\n" + more;
    ReadableCons(f, s, SplitLines(more));
    SplitOneLine(s);
    ReadableCons(f, s, []);
    assert [s] + [] == [s];
  }

  /** A beginning of a row with a line break in it, on any line. */
  lemma {:induction false} BrokenFails<R(!new)>(f: Format<R>, x: string, s: string, n: nat, rest: string)
    requires Sound(f) && OneLine(x) && IsRowText(s) && n <= |s| && !OneLine(s[..n])
    ensures Fails(f, x + (s[..n] + rest))
  {
    var b: nat :| b < n && IsBreak(s[..n][b]);
    var e := FirstBreak(s);
    FirstBreakOf(s, b);
    FirstLineOfRow(x, s, b);
    OneLineAppend(x, s[..e]);
    LineFails(f, x + s[..e], s[e], s[e + 1..n] + rest);
    SliceAround(s, e, n);
    Regroup(x, s[..e], [s[e]], s[e + 1..n], rest);
  }

  lemma {:induction false} Regroup(x: string, a: string, b: string, c: string, d: string)
    ensures x + ((a + (b + c)) + d) == x + a + (b + (c + d))
  {
    Associate(b, c, d);
    Associate(a, b + c, d);
    Associate(x, a, b + c + d);
  }

  /** A line that can no longer become a row makes the file unreadable, whatever is appended. */
  lemma {:induction false} StuckFails<R(!new)>(f: Format<R>, x: string, appends: seq<Append<R>>)
    requires Sound(f) && OneLine(x) && !Blank(x) && Spoilt(Scan(Start, x))
    ensures Fails(f, x + TextOf(f, appends))
    decreases |appends|
  {
    if appends == [] {
      assert x + TextOf(f, appends) == x;
      LastLineFails(f, x);
    } else {
      var a, rest := appends[0], appends[1..];
      var s, text := Printed(f, a.row), TextOf(f, rest);
      assert appends == [a] + rest;
      TextCons(f, a, rest);
      RowText(f, a.row);
      ScanToStart(Start, x);
      match a
      case Whole(_) =>
        StuckThen(f, x, s, |s|, "\n" + text);
        assert s[..|s|] == s;
        if OneLine(s) {
          LineFails(f, x + s, '\n', text);
          assert ['\n'] + text == "\n" + text;
        }
        Associate(s, "\n", text);
        Associate(x, s, "\n" + text);
      case Killed(_, kept) =>
        var piece := Beginning(s, kept);
        assert piece == s[..|piece|];
        if piece == "" {
          StuckFails(f, x, rest);
          NothingBefore(text);
        } else {
          StuckThen(f, x, s, |piece|, text);
          if OneLine(piece) {
            StuckFails(f, x + piece, rest);
            Associate(x, piece, text);
          }
        }
    }
  }

  lemma {:induction false} StuckThen<R(!new)>(f: Format<R>, x: string, s: string, n: nat, rest: string)
    requires Sound(f) && OneLine(x) && !OnlyWs(x) && IsRowText(s) && 0 < n <= |s|
    ensures OneLine(s[..n]) ==> OneLine(x + s[..n]) && !Blank(x + s[..n]) && Spoilt(Scan(Start, x + s[..n]))
    ensures !OneLine(s[..n]) ==> Fails(f, x + (s[..n] + rest))
  {
    if OneLine(s[..n]) {
      OneLineAppend(x, s[..n]);
      PieceOnLine(x, s, n);
    } else {
      BrokenFails(f, x, s, n, rest);
    }
  }

  /** The unfinished line of a file that is still readable: empty, or one clean row. */
  ghost predicate IsReadableTail<R(!new)>(f: Format<R>, x: string, full: bool) {
    if full then exists row :: IsClean(f, row) && x == Printed(f, row) else x == ""
  }

  lemma {:induction false} WholeStrict<R(!new)>(f: Format<R>, x: string, full: bool, row: R, text: string)
    requires Sound(f) && IsReadableTail(f, x, full)
    ensures Fails(f, x + (Printed(f, row) + "\n" + text)) <==> full || !IsClean(f, row) || Fails(f, text)
  {
    var s := Printed(f, row);
    assert HasShape(f, row);
    OneLineIffClean(f.shape(row));
    RowText(f, row);
    assert s[..|s|] == s;
    Associate(s, "\n", text);
    if full {
      var earlier :| IsClean(f, earlier) && x == Printed(f, earlier);
      FullLine(f, x, earlier);
      StuckThen(f, x, s, |s|, "\n" + text);
      if OneLine(s) {
        LineFails(f, x + s, '\n', text);
        assert ['\n'] + text == "\n" + text;
        Associate(x, s, "\n" + text);
      }
    } else {
      NothingBefore(s + "\n" + text);
      if IsClean(f, row) {
        LineReads(f, row, text);
      } else {
        BrokenFails(f, "", s, |s|, "\n" + text);
        NothingBefore(s + ("\n" + text));
      }
    }
  }

  lemma {:induction false} FullLine<R(!new)>(f: Format<R>, x: string, row: R)
    requires Sound(f) && IsClean(f, row) && x == Printed(f, row)
    ensures OneLine(x) && !OnlyWs(x)
  {
    assert HasShape(f, row);
    OneLineIffClean(f.shape(row));
    RowText(f, row);
    ScanToStart(Start, x);
  }

  lemma {:induction false} KilledStrict<R(!new)>(f: Format<R>, x: string, full: bool, row: R, kept: nat, rest: seq<Append<R>>)
    requires Sound(f) && IsReadableTail(f, x, full) && kept > 0 && !(!full && IsClean(f, row) && kept >= |Printed(f, row)|)
    ensures Fails(f, x + (Beginning(Printed(f, row), kept) + TextOf(f, rest)))
  {
    var s, text := Printed(f, row), TextOf(f, rest);
    var piece := Beginning(s, kept);
    assert HasShape(f, row);
    OneLineIffClean(f.shape(row));
    RowText(f, row);
    assert piece == s[..|piece|] && 0 < |piece| && (piece == s <==> |piece| == |s|);
    if full {
      var earlier :| IsClean(f, earlier) && x == Printed(f, earlier);
      FullLine(f, x, earlier);
    }
    if !OneLine(piece) {
      BrokenFails(f, x, s, |piece|, text);
    } else {
      OneLineAppend(x, piece);
      PieceOnLine(x, s, |piece|);
      StuckFails(f, x + piece, rest);
      Associate(x, piece, text);
    }
  }

  ghost predicate StrictFor<R>(f: Format<R>, x: string, full: bool, appends: seq<Append<R>>) {
    Fails(f, x + TextOf(f, appends)) <==> !Intact(f, full, appends)
  }

  lemma {:induction false} IntactCons<R>(f: Format<R>, full: bool, a: Append<R>, rest: seq<Append<R>>)
    ensures Intact(f, full, [a] + rest) <==>
              match a
              case Whole(row) => !full && IsClean(f, row) && Intact(f, false, rest)
              case Killed(row, kept) =>
                if kept == 0 then Intact(f, full, rest)
                else !full && IsClean(f, row) && kept >= |Printed(f, row)| && Intact(f, true, rest)
  {
    assert ([a] + rest)[1..] == rest;
  }

  lemma {:induction false} StrictWhole<R(!new)>(f: Format<R>, x: string, full: bool, row: R, rest: seq<Append<R>>)
    requires Sound(f) && IsReadableTail(f, x, full) && StrictFor(f, "", false, rest)
    ensures StrictFor(f, x, full, [Whole(row)] + rest)
  {
    TextCons(f, Whole(row), rest);
    IntactCons(f, full, Whole(row), rest);
    WholeStrict(f, x, full, row, TextOf(f, rest));
    NothingBefore(TextOf(f, rest));
  }

  lemma {:induction false} StrictNothing<R>(f: Format<R>, x: string, full: bool, row: R, rest: seq<Append<R>>)
    requires StrictFor(f, x, full, rest)
    ensures StrictFor(f, x, full, [Killed(row, 0)] + rest)
  {
    TextCons(f, Killed(row, 0), rest);
    IntactCons(f, full, Killed(row, 0), rest);
    NothingBefore(TextOf(f, rest));
  }

  lemma {:induction false} StrictComplete<R>(f: Format<R>, row: R, kept: nat, rest: seq<Append<R>>)
    requires IsClean(f, row) && kept >= |Printed(f, row)| && kept > 0 && StrictFor(f, Printed(f, row), true, rest)
    ensures StrictFor(f, "", false, [Killed(row, kept)] + rest)
  {
    TextCons(f, Killed(row, kept), rest);
    IntactCons(f, false, Killed(row, kept), rest);
    assert Beginning(Printed(f, row), kept) == Printed(f, row);
    NothingBefore(Printed(f, row) + TextOf(f, rest));
  }

  lemma {:induction false} StrictTorn<R(!new)>(f: Format<R>, x: string, full: bool, row: R, kept: nat, rest: seq<Append<R>>)
    requires Sound(f) && IsReadableTail(f, x, full) && kept > 0 && !(!full && IsClean(f, row) && kept >= |Printed(f, row)|)
    ensures StrictFor(f, x, full, [Killed(row, kept)] + rest)
  {
    TextCons(f, Killed(row, kept), rest);
    IntactCons(f, full, Killed(row, kept), rest);
    KilledStrict(f, x, full, row, kept, rest);
  }

  /** A strict reader can read a file if and only if no row written to it has a raw break, and
      every write a kill cut wrote nothing, or was the last and wrote all but the line feed. */
  lemma {:induction false} StrictIff<R(!new)>(f: Format<R>, x: string, full: bool, appends: seq<Append<R>>)
    requires Sound(f) && IsReadableTail(f, x, full)
    ensures StrictFor(f, x, full, appends)
    decreases |appends|
  {
    if appends == [] {
      assert x + TextOf(f, appends) == x;
      if full {
        var earlier :| IsClean(f, earlier) && x == Printed(f, earlier);
        LineReads(f, earlier, "");
      }
    } else {
      var rest := appends[1..];
      assert appends == [appends[0]] + rest;
      match appends[0]
      case Whole(row) =>
        StrictIff(f, "", false, rest);
        StrictWhole(f, x, full, row, rest);
      case Killed(row, kept) =>
        if kept == 0 {
          StrictIff(f, x, full, rest);
          StrictNothing(f, x, full, row, rest);
        } else if !full && IsClean(f, row) && kept >= |Printed(f, row)| {
          StrictIff(f, Printed(f, row), true, rest);
          StrictComplete(f, row, kept, rest);
        } else {
          StrictTorn(f, x, full, row, kept, rest);
        }
    }
  }

  lemma {:induction false} StrictlyReadable<R(!new)>(f: Format<R>, appends: seq<Append<R>>)
    requires Sound(f)
    ensures ReadAll(f, TextOf(f, appends))
            == if Intact(f, false, appends) then Some(Survivors(f, Fresh, appends)) else None
  {
    StrictIff(f, "", false, appends);
    NothingBefore(TextOf(f, appends));
    FileReadsBack(f, appends);
  }

  lemma {:induction false} WholesIntact<R(!new)>(f: Format<R>, rows: seq<R>, rest: seq<Append<R>>)
    ensures Intact(f, false, Wholes(rows) + rest) <==> AllClean(f, rows) && Intact(f, false, rest)
  {
    if rows == [] {
      assert Wholes(rows) + rest == rest;
    } else {
      WholesIntact(f, rows[1..], rest);
      var all := Wholes(rows) + rest;
      assert all[0] == Whole(rows[0]) && all[1..] == Wholes(rows[1..]) + rest;
      assert rows == [rows[0]] + rows[1..];
    }
  }

  /** A file written without a kill can be read strictly if and only if no row in it has a raw
      break. */
  lemma {:induction false} WrittenStrictly<R(!new)>(f: Format<R>, rows: seq<R>)
    requires Sound(f)
    ensures ReadAll(f, Written(f, rows)) == if AllClean(f, rows) then Some(Kept(f, rows)) else None
  {
    StrictlyReadable(f, Wholes(rows));
    WholesIntact(f, rows, []);
    assert Wholes(rows) + [] == Wholes(rows);
    WrittenReadsBack(f, rows);
  }

  /** The rows of which every character was written. */
  function InFull<R>(f: Format<R>, appends: seq<Append<R>>): (rows: seq<R>) {
    if appends == [] then []
    else (match appends[0]
          case Whole(row) => [f.reread(row)]
          case Killed(row, kept) => if kept >= |Printed(f, row)| then [f.reread(row)] else []) + InFull(f, appends[1..])
  }

  lemma {:induction false} InFullCons<R>(f: Format<R>, a: Append<R>, rest: seq<Append<R>>)
    ensures InFull(f, [a] + rest) == InFull(f, [a]) + InFull(f, rest)
  {
    assert ([a] + rest)[1..] == rest;
    assert InFull(f, []) == [] && [a][1..] == [];
  }

  lemma {:induction false} InFullAppend<R>(f: Format<R>, a: seq<Append<R>>, b: seq<Append<R>>)
    ensures InFull(f, a + b) == InFull(f, a) + InFull(f, b)
  {
    if a == [] {
      assert a + b == b;
    } else {
      InFullAppend(f, a[1..], b);
      InFullCons(f, a[0], a[1..] + b);
      InFullCons(f, a[0], a[1..]);
      assert a + b == [a[0]] + (a[1..] + b) && a == [a[0]] + a[1..];
      Associate(InFull(f, [a[0]]), InFull(f, a[1..]), InFull(f, b));
    }
  }

  lemma {:induction false} NextSurvives<R(!new)>(f: Format<R>, tail: Tail<R>, a: Append<R>, rest: seq<Append<R>>)
    requires Sound(f) && !tail.Stuck? && Intact(f, tail.Complete?, [a] + rest)
    ensures var next := if a.Whole? then Fresh else Torn(f, tail, a.row, a.kept);
            && !next.Stuck? && Intact(f, next.Complete?, rest)
            && Survivors(f, tail, [a] + rest) == (if a.Whole? then [f.reread(a.row)] else []) + Survivors(f, next, rest)
            && Yield(f, tail) + InFull(f, [a]) == (if a.Whole? then [f.reread(a.row)] else []) + Yield(f, next)
  {
    IntactCons(f, tail.Complete?, a, rest);
    SurvivorsNext(f, tail, a, rest);
    TornWhole(f, tail, a.row, |Printed(f, a.row)|);
    assert [a][1..] == [];
    if a.Killed? {
      assert HasShape(f, a.row);
      PrintBegins(f.shape(a.row));
      if a.kept > 0 {
        TornWhole(f, tail, a.row, a.kept);
      }
    }
  }

  /** Of a file that a strict reader can read, it misses nothing that was written in full. */
  lemma {:induction false} IntactSurvives<R(!new)>(f: Format<R>, tail: Tail<R>, appends: seq<Append<R>>)
    requires Sound(f) && !tail.Stuck? && Intact(f, tail.Complete?, appends)
    ensures Survivors(f, tail, appends) == Yield(f, tail) + InFull(f, appends)
    decreases |appends|
  {
    if appends == [] {
    } else {
      var a, rest := appends[0], appends[1..];
      assert appends == [a] + rest;
      NextSurvives(f, tail, a, rest);
      var next := if a.Whole? then Fresh else Torn(f, tail, a.row, a.kept);
      IntactSurvives(f, next, rest);
      InFullCons(f, a, rest);
      Associate(Yield(f, tail), InFull(f, [a]), InFull(f, rest));
      Associate(if a.Whole? then [f.reread(a.row)] else [], Yield(f, next), InFull(f, rest));
    }
  }

  lemma {:induction false} IntactHasAll<R(!new)>(f: Format<R>, appends: seq<Append<R>>)
    requires Sound(f)
    ensures Intact(f, false, appends) ==> Survivors(f, Fresh, appends) == InFull(f, appends)
  {
    if Intact(f, false, appends) {
      IntactSurvives(f, Fresh, appends);
    }
  }

  predicate StrictlyReads<R(==)>(f: Format<R>, appends: seq<Append<R>>, rows: Option<seq<R>>) {
    ReadAll(f, TextOf(f, appends)) == rows
  }

  /** What a strict reader reads is what was written in full. */
  lemma {:induction false} StrictReadsInFull<R(!new)>(f: Format<R>, appends: seq<Append<R>>)
    requires Sound(f)
    ensures StrictlyReads(f, appends, if Intact(f, false, appends) then Some(InFull(f, appends)) else None)
  {
    StrictlyReadable(f, appends);
    IntactHasAll(f, appends);
  }

  function Rereads<R>(f: Format<R>, rows: seq<R>): (again: seq<R>) {
    if rows == [] then [] else [f.reread(rows[0])] + Rereads(f, rows[1..])
  }

  lemma {:induction false} WholeInFull<R>(f: Format<R>, row: R, rest: seq<Append<R>>)
    ensures InFull(f, [Whole(row)] + rest) == [f.reread(row)] + InFull(f, rest)
  {
    assert ([Whole(row)] + rest)[1..] == rest;
  }

  lemma {:induction false} WholesCons<R>(rows: seq<R>, rest: seq<Append<R>>)
    requires rows != []
    ensures Wholes(rows) + rest == [Whole(rows[0])] + (Wholes(rows[1..]) + rest)
  {
  }

  lemma {:induction false} WholesInFull<R>(f: Format<R>, rows: seq<R>, rest: seq<Append<R>>)
    ensures InFull(f, Wholes(rows) + rest) == Rereads(f, rows) + InFull(f, rest)
  {
    if rows == [] {
      assert Wholes(rows) + rest == rest;
    } else {
      WholesInFull(f, rows[1..], rest);
      WholesCons(rows, rest);
      WholeInFull(f, rows[0], Wholes(rows[1..]) + rest);
      Associate([f.reread(rows[0])], Rereads(f, rows[1..]), InFull(f, rest));
    }
  }

  lemma {:induction false} KeptRereads<R(!new)>(f: Format<R>, rows: seq<R>)
    requires AllClean(f, rows)
    ensures Kept(f, rows) == Rereads(f, rows)
  {
    if rows == [] {
    } else {
      KeptRereads(f, rows[1..]);
    }
  }

  /** Which files with one kill in them a strict reader can read: no row has a raw break, and of
      the row cut nothing was written, or all but its line feed and nothing after it. */
  ghost predicate Passable<R(!new)>(f: Format<R>, before: seq<R>, row: R, kept: nat, after: seq<R>) {
    && AllClean(f, before) && AllClean(f, after)
    && (kept == 0 || (after == [] && kept >= |Printed(f, row)| && IsClean(f, row)))
  }

  lemma {:induction false} PassableIff<R(!new)>(f: Format<R>, before: seq<R>, row: R, kept: nat, after: seq<R>)
    requires Sound(f)
    ensures Intact(f, false, Wholes(before) + ([Killed(row, kept)] + Wholes(after))) <==> Passable(f, before, row, kept, after)
  {
    var rest := [Killed(row, kept)] + Wholes(after);
    assert rest[1..] == Wholes(after) && Wholes(after) + [] == Wholes(after);
    WholesIntact(f, before, rest);
    WholesIntact(f, after, []);
  }

  lemma {:induction false} RestInFull<R(!new)>(f: Format<R>, row: R, kept: nat, after: seq<R>)
    requires Sound(f) && AllClean(f, after) && (kept == 0 || after == [])
    ensures InFull(f, [Killed(row, kept)] + Wholes(after)) == AroundKill(f, [], row, kept, after)
  {
    assert ([Killed(row, kept)] + Wholes(after))[1..] == Wholes(after) && Wholes(after) + [] == Wholes(after);
    WholesInFull(f, after, []);
    KeptRereads(f, after);
    assert HasShape(f, row);
    PrintBegins(f.shape(row));
  }

  lemma {:induction false} AroundKillSplits<R>(f: Format<R>, before: seq<R>, row: R, kept: nat, after: seq<R>)
    ensures AroundKill(f, before, row, kept, after) == Kept(f, before) + AroundKill(f, [], row, kept, after)
  {
    assert Kept(f, []) == [];
  }

  lemma {:induction false} KillInFull<R(!new)>(f: Format<R>, before: seq<R>, row: R, kept: nat, after: seq<R>)
    requires Sound(f) && Passable(f, before, row, kept, after)
    ensures InFull(f, Wholes(before) + ([Killed(row, kept)] + Wholes(after))) == AroundKill(f, before, row, kept, after)
  {
    WholesInFull(f, before, [Killed(row, kept)] + Wholes(after));
    KeptRereads(f, before);
    RestInFull(f, row, kept, after);
    AroundKillSplits(f, before, row, kept, after);
  }

  lemma {:induction false} PassableReads<R(!new)>(f: Format<R>, before: seq<R>, row: R, kept: nat, after: seq<R>)
    requires Sound(f)
    ensures var all := Wholes(before) + ([Killed(row, kept)] + Wholes(after));
            Intact(f, false, all) ==> InFull(f, all) == AroundKill(f, before, row, kept, after)
  {
    PassableIff(f, before, row, kept, after);
    if Passable(f, before, row, kept, after) {
      KillInFull(f, before, row, kept, after);
    }
  }

  lemma {:induction false} StrictAroundKill<R(!new)>(f: Format<R>, before: seq<R>, row: R, kept: nat, after: seq<R>)
    requires Sound(f)
    ensures StrictlyReads(f, Wholes(before) + ([Killed(row, kept)] + Wholes(after)),
              if Passable(f, before, row, kept, after) then Some(AroundKill(f, before, row, kept, after)) else None)
  {
    StrictReadsInFull(f, Wholes(before) + ([Killed(row, kept)] + Wholes(after)));
    PassableIff(f, before, row, kept, after);
    PassableReads(f, before, row, kept, after);
  }
}
