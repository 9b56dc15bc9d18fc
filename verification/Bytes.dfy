/**
 Files of printed rows as bytes. A kill stops a write after any byte, and a file that is not
 UTF-8 cannot be read as text at all.
 */
module Bytes {
  import opened Prelude
  import opened Json
  import opened JsonLines

  type Byte = n: int | 0 <= n < 256

  predicate IsTrail(b: Byte) {
    0x80 <= b < 0xC0
  }

  /** How many bytes the character has that begins with this one. */
  function Size(b: Byte): nat {
    if b < 0x80 then 1 else if b < 0xE0 then 2 else if b < 0xF0 then 3 else 4
  }

  /** One character, as section 3 of RFC 3629 encodes it. */
  function Encode(c: char): (bytes: seq<Byte>)
    ensures bytes != [] && !IsTrail(bytes[0]) && |bytes| == Size(bytes[0])
    ensures forall i :: 0 < i < |bytes| ==> IsTrail(bytes[i])
  {
    var n := c as int;
    var high := n / 64;
    if n < 0x80 then [n]
    else if n < 0x800 then [0xC0 + high, 0x80 + n % 64]
    else if n < 0x10000 then [0xE0 + high / 64, 0x80 + high % 64, 0x80 + n % 64]
    else [0xF0 + high / 64 / 64, 0x80 + high / 64 % 64, 0x80 + high % 64, 0x80 + n % 64]
  }

  /** The number of the character that these bytes encode. */
  function Code(b: seq<int>): int {
    match |b|
    case 1 => b[0]
    case 2 => 64 * (b[0] - 0xC0) + (b[1] - 0x80)
    case 3 => 64 * (64 * (b[0] - 0xE0) + (b[1] - 0x80)) + (b[2] - 0x80)
    case 4 => 64 * (64 * (64 * (b[0] - 0xF0) + (b[1] - 0x80)) + (b[2] - 0x80)) + (b[3] - 0x80)
    case _ => 0
  }

  lemma {:induction false} CodeOf(c: char)
    ensures Code(Encode(c)) == c as int
  {
  }

  function Utf8(s: string): (bytes: seq<Byte>)
    ensures bytes == [] || !IsTrail(bytes[0])
  {
    if s == "" then [] else Encode(s[0]) + Utf8(s[1..])
  }

  /** What strict decoding gives: the text these bytes encode, if there is one. */
  ghost function Decoded(bytes: seq<Byte>): (text: Option<string>) {
    if s :| Utf8(s) == bytes then Some(s) else None
  }

  lemma {:induction false} SameCharacter(c: char, x: seq<Byte>, d: char, y: seq<Byte>)
    requires Encode(c) + x == Encode(d) + y
    ensures c == d && x == y
  {
    var a, b := Encode(c) + x, Encode(d) + y;
    assert a[0] == Encode(c)[0] && b[0] == Encode(d)[0];
    assert a[..|Encode(c)|] == Encode(c) && b[..|Encode(d)|] == Encode(d);
    CodeOf(c);
    CodeOf(d);
    assert a[|Encode(c)|..] == x && b[|Encode(d)|..] == y;
  }

  /** The first character, and what comes after it, can be told from the bytes. */
  lemma {:induction false} FirstCharacter(c: char, x: seq<Byte>, d: char, y: seq<Byte>)
    ensures Encode(c) + x == Encode(d) + y <==> c == d && x == y
  {
    if Encode(c) + x == Encode(d) + y {
      SameCharacter(c, x, d, y);
    }
  }

  lemma {:induction false} Utf8Append(a: string, b: string)
    ensures Utf8(a + b) == Utf8(a) + Utf8(b)
  {
    if a == "" {
      assert a + b == b;
    } else {
      Utf8Append(a[1..], b);
      assert (a + b)[1..] == a[1..] + b;
      Associate(Encode(a[0]), Utf8(a[1..]), Utf8(b));
    }
  }

  lemma {:induction false} Utf8Injective(a: string, b: string)
    requires Utf8(a) == Utf8(b)
    ensures a == b
  {
    if a == "" || b == "" {
    } else {
      FirstCharacter(a[0], Utf8(a[1..]), b[0], Utf8(b[1..]));
      Utf8Injective(a[1..], b[1..]);
      assert a == [a[0]] + a[1..] && b == [b[0]] + b[1..];
    }
  }

  lemma {:induction false} DecodedOf(s: string)
    ensures Decoded(Utf8(s)) == Some(s)
  {
    var t :| Utf8(t) == Utf8(s) && Decoded(Utf8(s)) == Some(t);
    Utf8Injective(s, t);
  }

  /** The beginning of a character, and not all of it. */
  ghost predicate IsPart(part: seq<Byte>) {
    exists c: char :: part < Encode(c) && part != []
  }

  /** What can follow a cut: nothing, or something that begins with a character. */
  predicate BeginsWhole(bytes: seq<Byte>) {
    bytes == [] || !IsTrail(bytes[0])
  }

  lemma {:induction false} CharacterGoesOn(s: string, part: seq<Byte>)
    requires s != "" && IsPart(part) && Utf8(s)[0] == part[0]
    ensures |part| < |Utf8(s)| && IsTrail(Utf8(s)[|part|])
  {
    var c: char :| part < Encode(c) && part != [];
    var first := Encode(s[0]);
    assert part[0] == Encode(c)[0] && Utf8(s)[0] == first[0];
    assert Utf8(s)[|part|] == first[|part|];
  }

  lemma {:induction false} PartIsNoText(part: seq<Byte>, more: seq<Byte>, s: string)
    requires IsPart(part) && BeginsWhole(more)
    ensures Utf8(s) != part + more
  {
    assert (part + more)[0] == part[0] && (more != [] ==> (part + more)[|part|] == more[0]);
    if s == "" {
    } else if Utf8(s)[0] == part[0] {
      CharacterGoesOn(s, part);
    }
  }

  /** A character cut short makes a text unreadable, whatever comes before and after. */
  lemma {:induction false} CutIsNoText(before: string, part: seq<Byte>, more: seq<Byte>, s: string)
    requires IsPart(part) && BeginsWhole(more)
    ensures Utf8(s) != Utf8(before) + (part + more)
    decreases |before|
  {
    if before == "" {
      assert Utf8(before) + (part + more) == part + more;
      PartIsNoText(part, more, s);
    } else {
      var rest := Utf8(before[1..]) + (part + more);
      Associate(Encode(before[0]), Utf8(before[1..]), part + more);
      if s == "" {
        assert Encode(before[0]) + rest != [];
      } else {
        FirstCharacter(s[0], Utf8(s[1..]), before[0], rest);
        CutIsNoText(before[1..], part, more, s[1..]);
      }
    }
  }

  // ---- cutting a text ----------------------------------------------------------------

  /** The first `kept` bytes of a text end inside a character. */
  predicate Splits(s: string, kept: nat) {
    s != "" && kept > 0 && (kept < |Encode(s[0])| || Splits(s[1..], kept - |Encode(s[0])|))
  }

  /** How many whole characters they hold. */
  function Characters(s: string, kept: nat): (n: nat)
    ensures n <= |s|
  {
    if s == "" || kept < |Encode(s[0])| then 0 else 1 + Characters(s[1..], kept - |Encode(s[0])|)
  }

  /** What they hold of one more. */
  function Part(s: string, kept: nat): (part: seq<Byte>) {
    if s == "" then []
    else if kept < |Encode(s[0])| then Encode(s[0])[..kept]
    else Part(s[1..], kept - |Encode(s[0])|)
  }

  function FirstBytes(bytes: seq<Byte>, kept: nat): (first: seq<Byte>) {
    if kept <= |bytes| then bytes[..kept] else bytes
  }

  lemma {:induction false} PartIs(s: string, kept: nat)
    ensures if Splits(s, kept) then IsPart(Part(s, kept)) else Part(s, kept) == []
  {
    if s == "" {
    } else if kept < |Encode(s[0])| {
      assert Encode(s[0])[..kept] < Encode(s[0]);
    } else {
      PartIs(s[1..], kept - |Encode(s[0])|);
    }
  }

  lemma {:induction false} FirstBytesAre(s: string, kept: nat)
    ensures FirstBytes(Utf8(s), kept) == Utf8(s[..Characters(s, kept)]) + Part(s, kept)
  {
    if s == "" {
    } else if kept < |Encode(s[0])| {
      assert s[..0] == "" && Utf8(s)[..kept] == Encode(s[0])[..kept];
    } else {
      var n, left := Characters(s[1..], kept - |Encode(s[0])|), kept - |Encode(s[0])|;
      FirstBytesAre(s[1..], left);
      assert FirstBytes(Utf8(s), kept) == Encode(s[0]) + FirstBytes(Utf8(s[1..]), left);
      assert s[..n + 1][1..] == s[1..][..n];
      Associate(Encode(s[0]), Utf8(s[1..][..n]), Part(s[1..], left));
    }
  }

  // ---- files -------------------------------------------------------------------------

  /** What one append writes, when `kept` counts bytes. */
  function BytesOf<R>(f: Format<R>, a: Append<R>): (bytes: seq<Byte>) {
    match a
    case Whole(row) => Utf8(Printed(f, row) + "\n")
    case Killed(row, kept) => FirstBytes(Utf8(Printed(f, row)), kept)
  }

  function FileOf<R>(f: Format<R>, appends: seq<Append<R>>): (bytes: seq<Byte>) {
    if appends == [] then [] else BytesOf(f, appends[0]) + FileOf(f, appends[1..])
  }

  predicate SplitsRow<R>(f: Format<R>, a: Append<R>) {
    a.Killed? && Splits(Printed(f, a.row), a.kept)
  }

  /** No kill came in the middle of a character. */
  predicate NoneSplit<R>(f: Format<R>, appends: seq<Append<R>>) {
    appends == [] || (!SplitsRow(f, appends[0]) && NoneSplit(f, appends[1..]))
  }

  /** The same append, its `kept` counted in characters. */
  function Counted<R>(f: Format<R>, a: Append<R>): Append<R> {
    if a.Killed? then a.(kept := Characters(Printed(f, a.row), a.kept)) else a
  }

  function AllCounted<R>(f: Format<R>, appends: seq<Append<R>>): seq<Append<R>> {
    if appends == [] then [] else [Counted(f, appends[0])] + AllCounted(f, appends[1..])
  }

  function PartOf<R>(f: Format<R>, a: Append<R>): (part: seq<Byte>) {
    if a.Killed? then Part(Printed(f, a.row), a.kept) else []
  }

  lemma {:induction false} BytesAre<R>(f: Format<R>, a: Append<R>)
    ensures BytesOf(f, a) == Utf8(Piece(f, Counted(f, a))) + PartOf(f, a)
    ensures if SplitsRow(f, a) then IsPart(PartOf(f, a)) else PartOf(f, a) == []
  {
    if a.Killed? {
      FirstBytesAre(Printed(f, a.row), a.kept);
      PartIs(Printed(f, a.row), a.kept);
    }
  }

  lemma {:induction false} PartBegins(part: seq<Byte>)
    requires IsPart(part)
    ensures part != [] && !IsTrail(part[0])
  {
    var c: char :| part < Encode(c) && part != [];
    assert part[0] == Encode(c)[0];
  }

  /** What was appended later begins with a character, even if it was cut. */
  lemma {:induction false} FileBegins<R>(f: Format<R>, appends: seq<Append<R>>)
    ensures BeginsWhole(FileOf(f, appends))
  {
    if appends == [] {
    } else {
      FileBegins(f, appends[1..]);
      BytesAre(f, appends[0]);
      if SplitsRow(f, appends[0]) {
        PartBegins(PartOf(f, appends[0]));
      }
    }
  }

  ghost predicate Reads<R>(f: Format<R>, bytes: seq<Byte>, before: string, appends: seq<Append<R>>) {
    Decoded(bytes) == if NoneSplit(f, appends) then Some(before + TextOf(f, AllCounted(f, appends))) else None
  }

  lemma {:induction false} NoText(bytes: seq<Byte>)
    requires forall s :: Utf8(s) != bytes
    ensures Decoded(bytes) == None
  {
  }

  lemma {:induction false} ReadsFrom<R>(f: Format<R>, before: string, appends: seq<Append<R>>)
    ensures Reads(f, Utf8(before) + FileOf(f, appends), before, appends)
    decreases |appends|
  {
    if appends == [] {
      assert Utf8(before) + FileOf(f, appends) == Utf8(before) && before + TextOf(f, AllCounted(f, appends)) == before;
      DecodedOf(before);
    } else {
      var a, rest := appends[0], appends[1..];
      var piece, part, more := Piece(f, Counted(f, a)), PartOf(f, a), FileOf(f, rest);
      BytesAre(f, a);
      Utf8Append(before, piece);
      Associate(Utf8(piece), part, more);
      Associate(Utf8(before), Utf8(piece), part + more);
      if SplitsRow(f, a) {
        FileBegins(f, rest);
        forall s ensures Utf8(s) != Utf8(before) + FileOf(f, appends) {
          CutIsNoText(before + piece, part, more, s);
        }
        NoText(Utf8(before) + FileOf(f, appends));
      } else {
        ReadsFrom(f, before + piece, rest);
        assert part + more == more;
        TextCons(f, Counted(f, a), AllCounted(f, rest));
        Associate(before, piece, TextOf(f, AllCounted(f, rest)));
      }
    }
  }

  /** A file can be read as text if and only if no kill came in the middle of a character; then
      it is the text that the same appends leave when cut between characters. */
  lemma {:induction false} FileDecodesIff<R>(f: Format<R>, appends: seq<Append<R>>)
    ensures Decoded(FileOf(f, appends)) == if NoneSplit(f, appends) then Some(TextOf(f, AllCounted(f, appends))) else None
  {
    ReadsFrom(f, "", appends);
    assert Utf8("") + FileOf(f, appends) == FileOf(f, appends);
    assert "" + TextOf(f, AllCounted(f, appends)) == TextOf(f, AllCounted(f, appends));
  }

  // ---- a kill inside a character -----------------------------------------------------

  lemma {:induction false} SplitsBehind(s: string, i: nat)
    requires i < |s| && |Encode(s[i])| > 1
    ensures |Utf8(s[..i])| + 1 < |Utf8(s)| && Splits(s, |Utf8(s[..i])| + 1)
  {
    if i == 0 {
      assert s[..0] == "";
    } else {
      SplitsBehind(s[1..], i - 1);
      assert s[..i][1..] == s[1..][..i - 1] && s[1..][i - 1] == s[i];
    }
  }

  lemma {:induction false} SplitAmong<R>(f: Format<R>, before: seq<Append<R>>, a: Append<R>, after: seq<Append<R>>)
    requires SplitsRow(f, a)
    ensures !NoneSplit(f, before + ([a] + after))
  {
    if before == [] {
      assert before + ([a] + after) == [a] + after;
    } else {
      SplitAmong(f, before[1..], a, after);
      assert (before + ([a] + after))[1..] == before[1..] + ([a] + after);
    }
  }

  /** The printed row holds a character outside ASCII. */
  ghost predicate IsWide<R>(f: Format<R>, row: R) {
    exists i: nat :: i < |Printed(f, row)| && Printed(f, row)[i] as int >= 0x80
  }

  /** A kill before the end of the row, after which the file can never be read as text, whatever
      is appended behind the cut. */
  ghost predicate LosesAll<R(!new)>(f: Format<R>, before: seq<Append<R>>, row: R, kept: nat) {
    kept < |Utf8(Printed(f, row))| && forall after :: Decoded(FileOf(f, before + ([Killed(row, kept)] + after))) == None
  }

  /** A row with a character outside ASCII in it can be cut so that the file is never read
      again, whatever it held before and whatever is appended later. */
  lemma {:induction false} FileIsLost<R(!new)>(f: Format<R>, before: seq<Append<R>>, row: R) returns (kept: nat)
    requires IsWide(f, row)
    ensures LosesAll(f, before, row, kept)
  {
    var i: nat :| i < |Printed(f, row)| && Printed(f, row)[i] as int >= 0x80;
    SplitsBehind(Printed(f, row), i);
    kept := |Utf8(Printed(f, row)[..i])| + 1;
    forall after ensures Decoded(FileOf(f, before + ([Killed(row, kept)] + after))) == None {
      SplitAmong(f, before, Killed(row, kept), after);
      FileDecodesIff(f, before + ([Killed(row, kept)] + after));
    }
  }
}
