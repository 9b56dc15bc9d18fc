/** Made-up words, never the same one twice in a run. */
module MadeUp {
  import opened Names
  import opened Sorting

  function Capitals(words: seq<string>): (names: seq<string>)
    ensures |names| == |words|
  {
    seq(|words|, i requires 0 <= i < |words| => Capitalized(words[i]))
  }

  lemma {:induction false} CapitalsStayDistinct(words: seq<string>)
    requires Distinct(words) && forall w :: w in words ==> LowerCase(w)
    ensures Distinct(Capitals(words))
  {
    forall i, j | 0 <= i < j < |words| ensures Capitals(words)[i] != Capitals(words)[j] {
      if Capitalized(words[i]) == Capitalized(words[j]) {
        CapitalsTellApart(words[i], words[j]);
      }
    }
  }

  lemma {:induction false} LongestOf(words: set<string>) returns (longest: nat)
    ensures forall w :: w in words ==> |w| <= longest
  {
    if words == {} {
      longest := 0;
    } else {
      var one :| one in words;
      var rest := LongestOf(words - {one});
      longest := if rest < |one| then |one| else rest;
    }
  }

  lemma {:induction false} ElementsAppend(a: seq<string>, b: seq<string>)
    ensures Elements(a + b) == Elements(a) + Elements(b)
  {
  }

  class Words {
    var used: set<string>
    /** Every word given out, in order. */
    ghost var made: seq<string>

    ghost predicate Valid()
      reads this
    {
      Distinct(made) && used == Elements(made) && forall w :: w in made ==> LowerCase(w)
    }

    constructor ()
      ensures Valid() && made == []
    {
      used, made := {}, [];
    }

    /** Any word of so many syllables. */
    method Draw(syllables: nat) returns (word: string)
      ensures |word| >= syllables && LowerCase(word)
    {
      SyllablesAreAnAlphabet();
      word := "";
      for n := 0 to syllables
        invariant |word| >= n && LowerCase(word)
      {
        var digit: nat :| digit < |SYLLABLES|;
        assert SYLLABLES[digit] in SYLLABLES;
        word := word + SYLLABLES[digit];
      }
    }

    /** Twenty tries at each length, and one more syllable when they were all taken. The
        loop ends: a word with more syllables than the longest one has letters is new. */
    method New(first: nat) returns (word: string)
      requires Valid()
      modifies this
      ensures Valid() && |word| >= first && LowerCase(word) && word !in old(used)
      ensures made == old(made) + [word] && used == old(used) + {word}
    {
      var syllables := first;
      ghost var longest := LongestOf(used);
      while true
        invariant used == old(used) && made == old(made) && syllables >= first
        decreases if syllables <= longest then longest - syllables + 1 else 0
      {
        for attempt := 0 to 20
          invariant used == old(used) && made == old(made)
          invariant attempt > 0 ==> syllables <= longest
        {
          word := Draw(syllables);
          if word !in used {
            used := used + {word};
            DistinctSnoc(made, word);
            ElementsAppend(made, [word]);
            made := made + [word];
            return;
          }
        }
        syllables := syllables + 1;
      }
    }

    method Several(count: nat) returns (words: seq<string>)
      requires Valid()
      modifies this
      ensures Valid() && |words| == count && made == old(made) + words
      ensures Distinct(words) && Elements(words) <= used && old(used) <= used && old(used) !! Elements(words)
      ensures forall w :: w in words ==> LowerCase(w) && w != ""
    {
      words := [];
      for n := 0 to count
        invariant Valid() && |words| == n && made == old(made) + words
        invariant forall w :: w in words ==> LowerCase(w) && w != ""
      {
        var word := New(3);
        words := words + [word];
      }
      LaterWordsAreNew(old(made), words);
      ElementsAppend(old(made), words);
    }

    /** A word of its own for every key: a dict comprehension over `new()`. */
    method ForEach(keys: seq<string>) returns (words: map<string, string>)
      requires Valid()
      modifies this
      ensures Valid() && words.Keys == Elements(keys) && old(used) <= used
      ensures forall key :: key in words ==> words[key] in used && words[key] !in old(used) && LowerCase(words[key]) && words[key] != ""
      ensures forall k, l :: k in words && l in words && words[k] == words[l] ==> k == l
      ensures Distinct(keys) ==> made == old(made) + Values(words, keys)
    {
      words := map[];
      for n := 0 to |keys|
        invariant Valid() && words.Keys == Elements(keys[..n]) && old(used) <= used
        invariant forall key :: key in words ==> words[key] in used && words[key] !in old(used) && LowerCase(words[key]) && words[key] != ""
        invariant forall k, l :: k in words && l in words && words[k] == words[l] ==> k == l
        invariant Distinct(keys) ==> made == old(made) + Values(words, keys[..n])
      {
        var word := New(3);
        ValuesNext(words, keys, n, word);
        words := words[keys[n] := word];
        ElementsAppend(keys[..n], [keys[n]]);
        assert keys[..n + 1] == keys[..n] + [keys[n]];
      }
      assert keys[..|keys|] == keys;
    }
  }

  /** The values of a dict, key by key. */
  function Values(dict: map<string, string>, keys: seq<string>): (values: seq<string>)
    requires dict.Keys == Elements(keys)
    ensures |values| == |keys| && forall i :: 0 <= i < |keys| ==> keys[i] in dict && values[i] == dict[keys[i]]
  {
    assert forall i :: 0 <= i < |keys| ==> keys[i] in Elements(keys);
    seq(|keys|, i requires 0 <= i < |keys| => dict[keys[i]])
  }

  lemma {:induction false} ValuesNext(dict: map<string, string>, keys: seq<string>, n: nat, word: string)
    requires n < |keys| && dict.Keys == Elements(keys[..n])
    ensures dict[keys[n] := word].Keys == Elements(keys[..n + 1])
    ensures Distinct(keys) ==> Values(dict[keys[n] := word], keys[..n + 1]) == Values(dict, keys[..n]) + [word]
  {
    assert keys[..n + 1] == keys[..n] + [keys[n]];
    ElementsAppend(keys[..n], [keys[n]]);
    if Distinct(keys) {
      assert forall i :: 0 <= i < n ==> keys[i] != keys[n];
    }
  }

  /** Words given out one after another differ, from each other and from earlier ones. */
  lemma {:induction false} LaterWordsAreNew(before: seq<string>, words: seq<string>)
    requires Distinct(before + words)
    ensures Distinct(words) && Elements(before) !! Elements(words)
  {
    DistinctAppend(before, words);
  }

  /** Which of the words are capitalized. */
  function Spelt(words: seq<string>, capital: nat -> bool): (names: seq<string>)
    ensures |names| == |words|
  {
    seq(|words|, i requires 0 <= i < |words| => if capital(i) then Capitalized(words[i]) else words[i])
  }

  lemma {:induction false} CapitalIsNoWord(x: string, y: string)
    requires LowerCase(x) && LowerCase(y) && x != ""
    ensures Capitalized(x) != y
  {
    assert Capitalized(x)[0] < 'a' <= x[0];
  }

  lemma {:induction false} SpellingKeepsDistinct(words: seq<string>, capital: nat -> bool)
    requires Distinct(words) && forall w :: w in words ==> LowerCase(w) && w != ""
    ensures Distinct(Spelt(words, capital))
  {
    var names := Spelt(words, capital);
    forall i: nat, j: nat | i < j < |words| ensures names[i] != names[j] {
      var x, y := words[i], words[j];
      assert x in words && y in words;
      CapitalIsNoWord(x, y);
      CapitalIsNoWord(y, x);
      if Capitalized(x) == Capitalized(y) {
        CapitalsTellApart(x, y);
      }
    }
  }
}
