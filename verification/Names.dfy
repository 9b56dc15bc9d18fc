/** The made-up names of a timing store, and the batches its facts are written in. */
module Names {
  import opened Prelude
  import opened Sorting

  const SYLLABLES := [
    "ta", "lo", "vi", "ren", "mar", "zo", "quin", "el", "dri", "kan", "sol", "bex",
    "nu", "or", "phi", "gal", "tor", "wen", "ix", "ul", "vas", "pem", "rud", "yo"]

  /** Syllables that can be told apart from the left: none begins another. */
  ghost predicate PrefixFree(alphabet: seq<string>) {
    && Distinct(alphabet)
    && (forall x :: x in alphabet ==> x != "")
    && (forall x, y :: x in alphabet && y in alphabet && x <= y ==> x == y)
  }

  /** The place of a syllable, from its first two letters. */
  function Place(a: char, b: char): nat {
    match a
    case 't' => if b == 'a' then 0 else 16
    case 'v' => if b == 'i' then 2 else 20
    case 'r' => if b == 'e' then 3 else 22
    case 'l' => 1
    case 'm' => 4
    case 'z' => 5
    case 'q' => 6
    case 'e' => 7
    case 'd' => 8
    case 'k' => 9
    case 's' => 10
    case 'b' => 11
    case 'n' => 12
    case 'o' => 13
    case 'p' => if b == 'h' then 14 else 21
    case 'g' => 15
    case 'w' => 17
    case 'i' => 18
    case 'u' => 19
    case _ => 23
  }

  lemma {:induction false} PlacesLow(i: nat)
    requires i < 12
    ensures |SYLLABLES[i]| >= 2 && Place(SYLLABLES[i][0], SYLLABLES[i][1]) == i
  {
  }

  lemma {:induction false} PlacesHigh(i: nat)
    requires 12 <= i < 24
    ensures |SYLLABLES[i]| >= 2 && Place(SYLLABLES[i][0], SYLLABLES[i][1]) == i
  {
  }

  lemma {:induction false} SyllablesTellApart(i: nat, j: nat)
    requires i < 24 && j < 24 && SYLLABLES[i] <= SYLLABLES[j]
    ensures i == j
  {
    if i < 12 { PlacesLow(i); } else { PlacesHigh(i); }
    if j < 12 { PlacesLow(j); } else { PlacesHigh(j); }
  }

  lemma {:induction false} SyllableIsLong(i: nat)
    requires i < 24
    ensures SYLLABLES[i] != ""
  {
  }

  lemma {:induction false} SyllablesArePrefixFree()
    ensures PrefixFree(SYLLABLES)
  {
    forall i: nat, j: nat | i < 24 && j < 24 && SYLLABLES[i] <= SYLLABLES[j] ensures i == j {
      SyllablesTellApart(i, j);
    }
    forall i: nat | i < 24 ensures SYLLABLES[i] != "" {
      SyllableIsLong(i);
    }
  }

  lemma {:induction false} PermutationKeepsPrefixFree(a: seq<string>, b: seq<string>)
    requires multiset(a) == multiset(b) && PrefixFree(a)
    ensures PrefixFree(b)
  {
    PermutationKeepsDistinct(a, b);
    SameElements(a, b);
  }

  predicate LowerCase(word: string) {
    forall i :: 0 <= i < |word| ==> 'a' <= word[i] <= 'z'
  }

  lemma {:induction false} SyllablesAreLowerCase(i: nat)
    requires i < 24
    ensures LowerCase(SYLLABLES[i])
  {
  }

  /** All that the names need of their syllables. */
  ghost predicate Alphabet(alphabet: seq<string>) {
    |alphabet| == BASE && PrefixFree(alphabet) && forall x :: x in alphabet ==> LowerCase(x)
  }

  lemma {:induction false} SyllablesAreAnAlphabet()
    ensures Alphabet(SYLLABLES)
  {
    SyllablesArePrefixFree();
    forall i: nat | i < 24 ensures LowerCase(SYLLABLES[i]) {
      SyllablesAreLowerCase(i);
    }
  }

  lemma {:induction false} PermutationKeepsAlphabet(a: seq<string>, b: seq<string>)
    requires multiset(a) == multiset(b) && Alphabet(a)
    ensures Alphabet(b)
  {
    PermutationKeepsPrefixFree(a, b);
    SameElements(a, b);
    assert |a| == |multiset(a)| && |b| == |multiset(b)|;
  }

  /** However the syllables are shuffled, they make an alphabet. */
  lemma {:induction false} EveryShuffleIsAnAlphabet(shuffled: seq<string>)
    ensures multiset(shuffled) == multiset(SYLLABLES) ==> Alphabet(shuffled)
  {
    SyllablesAreAnAlphabet();
    if multiset(shuffled) == multiset(SYLLABLES) {
      PermutationKeepsAlphabet(SYLLABLES, shuffled);
    }
  }

  const BASE := 24

  // ---- words -------------------------------------------------------------------------

  /** The digits of `number` to the base of the alphabet, lowest first, as syllables. */
  function Word(alphabet: seq<string>, number: nat, length: nat): (word: string)
    requires |alphabet| == BASE
  {
    if length == 0 then "" else alphabet[number % BASE] + Word(alphabet, number / BASE, length - 1)
  }

  /** The inner `word` of `build_store`. */
  method MakeWord(alphabet: seq<string>, number: nat, length: nat) returns (word: string)
    requires |alphabet| == BASE
    ensures word == Word(alphabet, number, length)
  {
    word := "";
    var left: nat := number;
    for i := 0 to length
      invariant word + Word(alphabet, left, length - i) == Word(alphabet, number, length)
    {
      var digit := left % BASE;
      left := left / BASE;
      word := word + alphabet[digit];
    }
  }

  /** How many words of a length there are. */
  function Words(length: nat): (n: nat)
    ensures n > 0
  {
    if length == 0 then 1 else BASE * Words(length - 1)
  }

  /** Reads a word back: the place of its first syllable, then the rest. */
  function Decoded(alphabet: seq<string>, word: string): (r: Option<(nat, nat)>)
    requires forall x :: x in alphabet ==> x != ""
    decreases |word|
  {
    if word == "" then Some((0, 0))
    else match FirstSyllable(alphabet, word, 0)
      case None => None
      case Some(digit) =>
        assert alphabet[digit] in alphabet;
        match Decoded(alphabet, word[|alphabet[digit]|..])
        case None => None
        case Some((number, length)) => Some((digit + BASE * number, length + 1))
  }

  function FirstSyllable(alphabet: seq<string>, word: string, from: nat): (digit: Option<nat>)
    requires from <= |alphabet|
    ensures digit.Some? ==> digit.value < |alphabet| && alphabet[digit.value] <= word
    ensures digit.None? ==> forall i :: from <= i < |alphabet| ==> !(alphabet[i] <= word)
    decreases |alphabet| - from
  {
    if from == |alphabet| then None
    else if alphabet[from] <= word then Some(from)
    else FirstSyllable(alphabet, word, from + 1)
  }

  /** Of two beginnings of a word, one begins the other. */
  lemma {:induction false} BeginningsNest(x: string, y: string, word: string)
    requires x <= word && y <= word
    ensures x <= y || y <= x
  {
  }

  lemma {:induction false} OneFirstSyllable(alphabet: seq<string>, digit: nat, rest: string)
    requires PrefixFree(alphabet) && digit < |alphabet|
    ensures FirstSyllable(alphabet, alphabet[digit] + rest, 0) == Some(digit)
  {
    var word := alphabet[digit] + rest;
    assert alphabet[digit] <= word;
    var found := FirstSyllable(alphabet, word, 0);
    assert found.Some?;
    BeginningsNest(alphabet[digit], alphabet[found.value], word);
    assert alphabet[digit] in alphabet && alphabet[found.value] in alphabet;
  }

  /** Decoding a word gives back the number and the length it was made from. */
  lemma {:induction false} WordRoundTrip(alphabet: seq<string>, number: nat, length: nat)
    requires PrefixFree(alphabet) && |alphabet| == BASE && number < Words(length)
    ensures Decoded(alphabet, Word(alphabet, number, length)) == Some((number, length))
    decreases length
  {
    if length == 0 {
    } else {
      var digit, rest := number % BASE, Word(alphabet, number / BASE, length - 1);
      WordRoundTrip(alphabet, number / BASE, length - 1);
      OneFirstSyllable(alphabet, digit, rest);
      assert alphabet[digit] in alphabet;
      assert (alphabet[digit] + rest)[|alphabet[digit]|..] == rest;
    }
  }

  /** Two names agree only if their numbers and their lengths do. */
  lemma {:induction false} WordsAreDistinct(alphabet: seq<string>, m: nat, k: nat, n: nat, l: nat)
    requires Alphabet(alphabet) && m < Words(k) && n < Words(l)
    requires Word(alphabet, m, k) == Word(alphabet, n, l)
    ensures m == n && k == l
  {
    WordRoundTrip(alphabet, m, k);
    WordRoundTrip(alphabet, n, l);
  }

  lemma {:induction false} WholeTurn(number: nat, turns: nat)
    ensures (number + BASE * turns) % BASE == number % BASE && (number + BASE * turns) / BASE == number / BASE + turns
  {
  }

  /** Numbers a whole turn of the digits apart make the same word. */
  lemma {:induction false} WordsWrap(alphabet: seq<string>, number: nat, length: nat)
    requires |alphabet| == BASE
    ensures Word(alphabet, number + Words(length), length) == Word(alphabet, number, length)
  {
    if length == 0 {
    } else {
      WholeTurn(number, Words(length - 1));
      WordsWrap(alphabet, number / BASE, length - 1);
    }
  }

  // ---- the store ---------------------------------------------------------------------

  /** `str.capitalize` of a word in lower-case letters. */
  function Capitalized(word: string): (name: string) {
    if word != "" && 'a' <= word[0] <= 'z' then [(word[0] as int - 32) as char] + word[1..] else word
  }

  lemma {:induction false} CapitalsTellApart(x: string, y: string)
    requires LowerCase(x) && LowerCase(y) && Capitalized(x) == Capitalized(y)
    ensures x == y
  {
    if x != "" && y != "" {
      assert x == [x[0]] + x[1..] && y == [y[0]] + y[1..];
      assert Capitalized(x)[0] == Capitalized(y)[0] && Capitalized(x)[1..] == x[1..] && Capitalized(y)[1..] == y[1..];
    }
  }

  lemma {:induction false} WordsAreLowerCase(alphabet: seq<string>, number: nat, length: nat)
    requires Alphabet(alphabet)
    ensures LowerCase(Word(alphabet, number, length))
  {
    if length == 0 {
    } else {
      WordsAreLowerCase(alphabet, number / BASE, length - 1);
      assert alphabet[number % BASE] in alphabet;
    }
  }

  const PREDICATES := ["lives_in", "works_at", "likes", "likes"]

  function Person(alphabet: seq<string>, n: nat): string
    requires |alphabet| == BASE
  {
    Capitalized(Word(alphabet, n, 4))
  }

  function Item(alphabet: seq<string>, n: nat): string
    requires |alphabet| == BASE
  {
    Word(alphabet, n + 2_000, 3)
  }

  /** A name of three syllables. */
  function PlaceName(alphabet: seq<string>, n: nat): string
    requires |alphabet| == BASE
  {
    Capitalized(Word(alphabet, n, 3))
  }

  function City(alphabet: seq<string>, n: nat): string
    requires |alphabet| == BASE
  {
    PlaceName(alphabet, n)
  }

  function Company(alphabet: seq<string>, n: nat): string
    requires |alphabet| == BASE
  {
    PlaceName(alphabet, n + 1_000)
  }

  /** One of forty cities, of forty employers, or of three hundred things to like. */
  ghost predicate Tells(alphabet: seq<string>, d: nat, obj: string)
    requires |alphabet| == BASE
  {
    if d == 0 then exists n: nat :: n < 40 && obj == City(alphabet, n)
    else if d == 1 then exists n: nat :: n < 40 && obj == Company(alphabet, n)
    else exists n: nat :: n < 300 && obj == Item(alphabet, n)
  }

  /** Each person has four facts in a row: a city, an employer and two different likes. */
  ghost predicate AreFacts(alphabet: seq<string>, people: seq<string>, facts: seq<Fact>, n: nat)
    requires |alphabet| == BASE
  {
    && n <= |people| && |facts| == 4 * n
    && (forall f :: 0 <= f < |facts| ==> facts[f].subject == people[f / 4] && facts[f].predicate_ == PREDICATES[f % 4])
    && (forall f :: 0 <= f < |facts| && f % 4 == 3 ==> facts[f].obj != facts[f - 1].obj)
    && (forall f :: 0 <= f < |facts| ==> Tells(alphabet, f % 4, facts[f].obj))
  }

  lemma {:induction false} ItemsDiffer(alphabet: seq<string>, a: nat, b: nat)
    requires Alphabet(alphabet) && a < 300 && b < 300 && a != b
    ensures Item(alphabet, a) != Item(alphabet, b)
  {
    assert Words(3) == 24 * 24 * 24;
    if Item(alphabet, a) == Item(alphabet, b) {
      WordsAreDistinct(alphabet, a + 2_000, 3, b + 2_000, 3);
    }
  }

  /** The names repeat exactly when there are more people than words of four syllables. */
  lemma {:induction false} PeopleDiffer(alphabet: seq<string>, people: seq<string>)
    requires Alphabet(alphabet) && forall i :: 0 <= i < |people| ==> people[i] == Person(alphabet, i)
    ensures Distinct(people) <==> |people| <= Words(4)
  {
    if |people| <= Words(4) {
      forall i: nat, j: nat | i < j < |people| ensures people[i] != people[j] {
        if people[i] == people[j] {
          WordsAreLowerCase(alphabet, i, 4);
          WordsAreLowerCase(alphabet, j, 4);
          CapitalsTellApart(Word(alphabet, i, 4), Word(alphabet, j, 4));
          WordsAreDistinct(alphabet, i, 4, j, 4);
        }
      }
    } else {
      WordsWrap(alphabet, 0, 4);
      assert people[0] == people[Words(4)];
    }
  }

  lemma {:induction false} WordsOfThree()
    ensures Words(3) == 13_824
  {
    assert Words(1) == 24 * Words(0) && Words(2) == 24 * Words(1);
  }

  lemma {:induction false} NamesTellApart(alphabet: seq<string>, a: nat, b: nat, length: nat)
    requires Alphabet(alphabet) && a < Words(length) && b < Words(length)
    ensures Capitalized(Word(alphabet, a, length)) == Capitalized(Word(alphabet, b, length)) <==> a == b
  {
    WordsAreLowerCase(alphabet, a, length);
    WordsAreLowerCase(alphabet, b, length);
    if Capitalized(Word(alphabet, a, length)) == Capitalized(Word(alphabet, b, length)) {
      CapitalsTellApart(Word(alphabet, a, length), Word(alphabet, b, length));
      WordsAreDistinct(alphabet, a, length, b, length);
    }
  }

  lemma {:induction false} PlacesTellApart(alphabet: seq<string>, a: nat, b: nat)
    requires Alphabet(alphabet) && a < 13_824 && b < 13_824
    ensures PlaceName(alphabet, a) == PlaceName(alphabet, b) <==> a == b
  {
    WordsOfThree();
    NamesTellApart(alphabet, a, b, 3);
  }

  lemma {:induction false} CitiesDiffer(alphabet: seq<string>, a: nat, b: nat)
    requires Alphabet(alphabet) && a < 40 && b < 40 && a != b
    ensures City(alphabet, a) != City(alphabet, b)
  {
    PlacesTellApart(alphabet, a, b);
  }

  lemma {:induction false} CompaniesDiffer(alphabet: seq<string>, a: nat, b: nat)
    requires Alphabet(alphabet) && a < 40 && b < 40 && a != b
    ensures Company(alphabet, a) != Company(alphabet, b)
  {
    PlacesTellApart(alphabet, a + 1_000, b + 1_000);
  }

  lemma {:induction false} NoCityIsACompany(alphabet: seq<string>, a: nat, b: nat)
    requires Alphabet(alphabet) && a < 40 && b < 40
    ensures City(alphabet, a) != Company(alphabet, b)
  {
    PlacesTellApart(alphabet, a, b + 1_000);
  }

  /** The forty cities and the forty employers are named differently, each from all the others. */
  lemma {:induction false} PlacesDiffer(alphabet: seq<string>, a: nat, b: nat)
    requires Alphabet(alphabet) && a < 40 && b < 40
    ensures City(alphabet, a) != Company(alphabet, b)
    ensures a != b ==> City(alphabet, a) != City(alphabet, b) && Company(alphabet, a) != Company(alphabet, b)
  {
    NoCityIsACompany(alphabet, a, b);
    if a != b {
      CitiesDiffer(alphabet, a, b);
      CompaniesDiffer(alphabet, a, b);
    }
  }

  /** No fact is written twice, as long as no name is. */
  lemma {:induction false} FactsDiffer(alphabet: seq<string>, people: seq<string>, facts: seq<Fact>)
    requires |alphabet| == BASE && AreFacts(alphabet, people, facts, |people|) && Distinct(people)
    ensures Distinct(facts)
  {
  }

  /** A city, an employer and two different likes of one person. */
  ghost predicate FourFacts(alphabet: seq<string>, person: string, four: seq<Fact>)
    requires |alphabet| == BASE
  {
    && |four| == 4 && four[3].obj != four[2].obj
    && (forall d: nat :: d < 4 ==> IsFact(alphabet, person, four[d], d))
  }

  ghost predicate IsFact(alphabet: seq<string>, person: string, f: Fact, d: nat)
    requires |alphabet| == BASE && d < 4
  {
    f.subject == person && f.predicate_ == PREDICATES[d] && Tells(alphabet, d, f.obj)
  }

  method PickCity(alphabet: seq<string>) returns (name: string)
    requires Alphabet(alphabet)
    ensures Tells(alphabet, 0, name)
  {
    var city: nat :| city < 40;
    var home := MakeWord(alphabet, city, 3);
    name := Capitalized(home);
    assert name == City(alphabet, city);
  }

  method PickCompany(alphabet: seq<string>) returns (name: string)
    requires Alphabet(alphabet)
    ensures Tells(alphabet, 1, name)
  {
    var company: nat :| company < 40;
    var employer := MakeWord(alphabet, company + 1_000, 3);
    name := Capitalized(employer);
    assert name == Company(alphabet, company);
  }

  method PickItem(alphabet: seq<string>, n: nat) returns (item: string)
    requires Alphabet(alphabet) && n < 300
    ensures item == Item(alphabet, n)
  {
    item := MakeWord(alphabet, n + 2_000, 3);
  }

  /** `rng.sample(items, 2)` */
  method PickLikes(alphabet: seq<string>) returns (liked: string, other: string)
    requires Alphabet(alphabet)
    ensures Tells(alphabet, 2, liked) && Tells(alphabet, 3, other) && liked != other
  {
    var first: nat, second: nat :| first < 300 && second < 300 && first != second by {
      assert 0 < 300 && 1 < 300 && 0 != 1;
    }
    liked := PickItem(alphabet, first);
    other := PickItem(alphabet, second);
    ItemsDiffer(alphabet, first, second);
  }

  method MakeFour(alphabet: seq<string>, person: string) returns (four: seq<Fact>)
    requires Alphabet(alphabet)
    ensures FourFacts(alphabet, person, four)
  {
    var home := PickCity(alphabet);
    var employer := PickCompany(alphabet);
    var liked, other := PickLikes(alphabet);
    four := [Fact(person, "lives_in", home), Fact(person, "works_at", employer),
             Fact(person, "likes", liked), Fact(person, "likes", other)];
  }

  /** The facts of a store of `claims` claims, before they are written. */
  method MakeFacts(alphabet: seq<string>, claims: nat) returns (people: seq<string>, facts: seq<Fact>)
    requires Alphabet(alphabet)
    ensures |people| == (claims + 3) / 4 && forall i :: 0 <= i < |people| ==> people[i] == Person(alphabet, i)
    ensures AreFacts(alphabet, people, facts, |people|)
  {
    people := [];
    for i := 0 to (claims + 3) / 4
      invariant |people| == i && forall j :: 0 <= j < i ==> people[j] == Person(alphabet, j)
    {
      var word := MakeWord(alphabet, i, 4);
      people := people + [Capitalized(word)];
    }
    facts := [];
    for i := 0 to |people|
      invariant AreFacts(alphabet, people, facts, i)
    {
      var four := MakeFour(alphabet, people[i]);
      AreFactsNext(alphabet, people, facts, four, i);
      facts := facts + four;
    }
  }

  lemma {:induction false} AreFactsNext(alphabet: seq<string>, people: seq<string>, before: seq<Fact>, four: seq<Fact>, n: nat)
    requires |alphabet| == BASE && n < |people| && AreFacts(alphabet, people, before, n) && FourFacts(alphabet, people[n], four)
    ensures AreFacts(alphabet, people, before + four, n + 1)
  {
    var after := before + four;
    forall f | 0 <= f < |after|
      ensures after[f].subject == people[f / 4] && after[f].predicate_ == PREDICATES[f % 4]
      ensures f % 4 == 3 ==> after[f].obj != after[f - 1].obj
      ensures Tells(alphabet, f % 4, after[f].obj)
    {
      if f < |before| {
        assert after[f] == before[f] && (f > 0 ==> after[f - 1] == before[f - 1]);
      } else {
        var d: nat := f - 4 * n;
        assert d < 4 && f / 4 == n && f % 4 == d;
        assert IsFact(alphabet, people[n], four[d], d) && after[f] == four[d] && (d > 0 ==> after[f - 1] == four[d - 1]);
      }
    }
  }

  function Flat(batches: seq<seq<Fact>>): (facts: seq<Fact>) {
    if batches == [] then [] else Flat(batches[..|batches| - 1]) + batches[|batches| - 1]
  }

  /** The transactions a store's facts are written in, a thousand at a time. */
  method WriteBatches(facts: seq<Fact>, claims: nat) returns (batches: seq<seq<Fact>>)
    requires claims <= |facts|
    ensures Flat(batches) == facts[..claims]
    ensures forall b :: b in batches ==> 0 < |b| <= 1_000
    ensures |batches| == (claims + 999) / 1_000
  {
    batches := [];
    var start := 0;
    while start < claims
      invariant start == 1_000 * |batches| && start < claims + 1_000
      invariant Flat(batches) == facts[..if start < claims then start else claims]
      invariant forall b :: b in batches ==> 0 < |b| <= 1_000
    {
      var end := if start + 1_000 < claims then start + 1_000 else claims;
      assert (batches + [facts[start..end]])[..|batches|] == batches;
      assert facts[..start] + facts[start..end] == facts[..end];
      batches := batches + [facts[start..end]];
      start := start + 1_000;
    }
  }

  /** The fact at `f` is about the person whose turn it is: where they live, where they work, or
      something they like. */
  ghost predicate IsClaim(alphabet: seq<string>, people: seq<string>, f: nat, fact: Fact)
    requires |alphabet| == BASE && f < 4 * |people|
  {
    && fact.subject == people[f / 4] && fact.predicate_ == ["lives_in", "works_at", "likes", "likes"][f % 4]
    && Tells(alphabet, f % 4, fact.obj)
  }

  /** `build_store`: exactly `claims` facts are written, and all of them differ as long as the
      people do not outnumber the words of four syllables. */
  method BuildStore(alphabet: seq<string>, claims: nat) returns (people: seq<string>, batches: seq<seq<Fact>>)
    requires Alphabet(alphabet)
    ensures |people| == (claims + 3) / 4 && |Flat(batches)| == claims
    ensures Distinct(people) <==> |people| <= Words(4)
    ensures |people| <= Words(4) ==> Distinct(Flat(batches))
    ensures forall f :: 0 <= f < claims ==> IsClaim(alphabet, people, f, Flat(batches)[f])
  {
    var facts: seq<Fact>;
    people, facts := MakeFacts(alphabet, claims);
    batches := WriteBatches(facts, claims);
    PeopleDiffer(alphabet, people);
    if |people| <= Words(4) {
      FactsDiffer(alphabet, people, facts);
    }
  }
}
