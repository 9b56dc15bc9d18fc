/** Value types shared by the modules of the model. */
module Prelude {

  datatype Option<+T> = None | Some(value: T)

  /** A Python call that either returns or raises. */
  datatype Outcome<+T, +E> = Ok(value: T) | Raised(error: E)

  /** One reader or judge response, with the tokens it cost. */
  datatype Answer = Answer(
    text: string,
    model: string,
    inputTokens: int,
    outputTokens: int,
    cacheReadTokens: int,
    cacheWriteTokens: int,
    stopReason: string)

  /** What a claim or an extracted memory says of its subject. */
  datatype Fact = Fact(subject: string, predicate_: string, obj: string)

  /** A digest standing for one call: what `call_id` and `item_id` return. */
  type Key = string

  /** The sum of `f` over a sequence, left to right. */
  function Sum<T>(f: T -> real, s: seq<T>): (r: real) {
    if s == [] then 0.0 else f(s[0]) + Sum(f, s[1..])
  }

  lemma {:induction false} SumAppend<T>(f: T -> real, a: seq<T>, b: seq<T>)
    ensures Sum(f, a + b) == Sum(f, a) + Sum(f, b)
  {
    if a == [] {
      assert a + b == b;
    } else {
      SumAppend(f, a[1..], b);
      assert (a + b)[1..] == a[1..] + b;
    }
  }

  lemma {:induction false} Associate<T>(a: seq<T>, b: seq<T>, c: seq<T>)
    ensures a + (b + c) == (a + b) + c
  {
  }

  /** How many elements of a sequence satisfy `p`. */
  function Count<T>(p: T -> bool, s: seq<T>): (n: nat)
    ensures n <= |s|
  {
    if s == [] then 0 else (if p(s[0]) then 1 else 0) + Count(p, s[1..])
  }

  lemma {:induction false} CountAppend<T>(p: T -> bool, a: seq<T>, b: seq<T>)
    ensures Count(p, a + b) == Count(p, a) + Count(p, b)
  {
    if a == [] {
      assert a + b == b;
    } else {
      CountAppend(p, a[1..], b);
      assert (a + b)[1..] == a[1..] + b;
    }
  }

  lemma {:induction false} CountUpdate<T>(p: T -> bool, s: seq<T>, i: nat, x: T)
    requires i < |s|
    ensures Count(p, s[i := x]) + (if p(s[i]) then 1 else 0) == Count(p, s) + (if p(x) then 1 else 0)
  {
    if i == 0 {
      assert s[0 := x][1..] == s[1..];
    } else {
      CountUpdate(p, s[1..], i - 1, x);
      assert s[i := x][1..] == s[1..][i - 1 := x];
    }
  }

  /** A strict weakening counts strictly more, given a witness of the difference. */
  lemma {:induction false} CountStrict<T>(p: T -> bool, q: T -> bool, s: seq<T>, i: nat)
    requires forall x :: x in s && p(x) ==> q(x)
    requires i < |s| && q(s[i]) && !p(s[i])
    ensures Count(p, s) < Count(q, s)
  {
    if i == 0 {
      CountMonotone(p, q, s[1..]);
    } else {
      CountStrict(p, q, s[1..], i - 1);
    }
  }

  lemma {:induction false} CountMonotone<T>(p: T -> bool, q: T -> bool, s: seq<T>)
    requires forall x :: x in s && p(x) ==> q(x)
    ensures Count(p, s) <= Count(q, s)
  {
    if s == [] {
    } else {
      CountMonotone(p, q, s[1..]);
    }
  }

  lemma {:induction false} CountNone<T>(p: T -> bool, s: seq<T>)
    requires forall x :: x in s ==> !p(x)
    ensures Count(p, s) == 0
  {
    if s == [] {
    } else {
      CountNone(p, s[1..]);
    }
  }

  lemma {:induction false} CountAll<T>(p: T -> bool, s: seq<T>)
    requires forall x :: x in s ==> p(x)
    ensures Count(p, s) == |s|
  {
    if s == [] {
    } else {
      CountAll(p, s[1..]);
    }
  }

  function Without<T>(s: seq<T>, i: nat): (r: seq<T>)
    requires i < |s|
    ensures |r| == |s| - 1
  {
    s[..i] + s[i + 1..]
  }

  lemma {:induction false} WithoutMultiset<T>(s: seq<T>, i: nat)
    requires i < |s|
    ensures multiset(s) == multiset(Without(s, i)) + multiset{s[i]}
  {
    assert s == s[..i] + [s[i]] + s[i + 1..];
  }

  /** Where a permutation puts the first element of a sequence. */
  lemma {:induction false} FindFirst<T>(a: seq<T>, b: seq<T>) returns (i: nat)
    requires multiset(a) == multiset(b) && a != []
    ensures i < |b| && b[i] == a[0] && multiset(a[1..]) == multiset(Without(b, i))
  {
    WithoutMultiset(a, 0);
    assert Without(a, 0) == a[1..];
    assert a[0] in multiset(b);
    i :| 0 <= i < |b| && b[i] == a[0];
    WithoutMultiset(b, i);
    assert multiset(Without(b, i)) == multiset(b) - multiset{a[0]} == multiset(a) - multiset{a[0]} == multiset(Without(a, 0));
  }

  lemma {:induction false} SumWithout<T>(f: T -> real, s: seq<T>, i: nat)
    requires i < |s|
    ensures Sum(f, s) == f(s[i]) + Sum(f, Without(s, i))
  {
    SumAppend(f, s[..i], s[i..]);
    SumAppend(f, s[..i], s[i + 1..]);
    assert s == s[..i] + s[i..];
  }

  lemma {:induction false} SumPermutes<T>(f: T -> real, a: seq<T>, b: seq<T>)
    requires multiset(a) == multiset(b)
    ensures Sum(f, a) == Sum(f, b)
  {
    if a == [] {
      assert |multiset(b)| == 0;
    } else {
      var i := FindFirst(a, b);
      SumWithout(f, b, i);
      SumPermutes(f, a[1..], Without(b, i));
    }
  }

  lemma {:induction false} CountWithout<T>(p: T -> bool, s: seq<T>, i: nat)
    requires i < |s|
    ensures Count(p, s) == (if p(s[i]) then 1 else 0) + Count(p, Without(s, i))
  {
    CountAppend(p, s[..i], s[i..]);
    CountAppend(p, s[..i], s[i + 1..]);
    assert s == s[..i] + s[i..];
  }

  lemma {:induction false} CountPermutes<T>(p: T -> bool, a: seq<T>, b: seq<T>)
    requires multiset(a) == multiset(b)
    ensures Count(p, a) == Count(p, b)
  {
    if a == [] {
      assert |multiset(b)| == 0;
    } else {
      var i := FindFirst(a, b);
      CountWithout(p, b, i);
      CountPermutes(p, a[1..], Without(b, i));
    }
  }

  // ---- folding an addition -----------------------------------------------------------

  ghost predicate Commutes<T>(plus: (T, T) -> T, a: T, b: T) {
    plus(a, b) == plus(b, a)
  }

  ghost predicate Associates<T>(plus: (T, T) -> T, a: T, b: T, c: T) {
    plus(plus(a, b), c) == plus(a, plus(b, c))
  }

  ghost predicate IsUnit<T>(plus: (T, T) -> T, zero: T, a: T) {
    plus(a, zero) == a
  }

  ghost predicate Addition<T(!new)>(plus: (T, T) -> T, zero: T) {
    && (forall a, b :: Commutes(plus, a, b))
    && (forall a, b, c :: Associates(plus, a, b, c))
    && (forall a :: IsUnit(plus, zero, a))
  }

  function Fold<T>(plus: (T, T) -> T, zero: T, s: seq<T>): (r: T) {
    if s == [] then zero else plus(Fold(plus, zero, s[..|s| - 1]), s[|s| - 1])
  }

  lemma {:induction false} FoldAppend<T(!new)>(plus: (T, T) -> T, zero: T, a: seq<T>, b: seq<T>)
    requires Addition(plus, zero)
    ensures Fold(plus, zero, a + b) == plus(Fold(plus, zero, a), Fold(plus, zero, b))
  {
    if b == [] {
      assert a + b == a;
      assert IsUnit(plus, zero, Fold(plus, zero, a));
    } else {
      var n := |b| - 1;
      FoldAppend(plus, zero, a, b[..n]);
      assert (a + b)[..|a| + n] == a + b[..n];
      assert Associates(plus, Fold(plus, zero, a), Fold(plus, zero, b[..n]), b[n]);
    }
  }

  lemma {:induction false} FoldWithout<T(!new)>(plus: (T, T) -> T, zero: T, s: seq<T>, i: nat)
    requires Addition(plus, zero) && i < |s|
    ensures Fold(plus, zero, s) == plus(s[i], Fold(plus, zero, Without(s, i)))
  {
    var before, after := s[..i], s[i + 1..];
    FoldAppend(plus, zero, s[..i + 1], after);
    FoldAppend(plus, zero, before, after);
    assert s[..i + 1] + after == s && s[..i + 1][..i] == before;
    assert Commutes(plus, Fold(plus, zero, before), s[i]);
    assert Associates(plus, s[i], Fold(plus, zero, before), Fold(plus, zero, after));
  }

  lemma {:induction false} FoldPermutes<T(!new)>(plus: (T, T) -> T, zero: T, a: seq<T>, b: seq<T>)
    requires Addition(plus, zero) && multiset(a) == multiset(b)
    ensures Fold(plus, zero, a) == Fold(plus, zero, b)
  {
    if a == [] {
      assert |multiset(b)| == 0;
    } else {
      var i := FindFirst(a, b);
      FoldWithout(plus, zero, a, 0);
      FoldWithout(plus, zero, b, i);
      assert Without(a, 0) == a[1..];
      FoldPermutes(plus, zero, a[1..], Without(b, i));
    }
  }
}
