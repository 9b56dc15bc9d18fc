/** The paths of a test run, sorted so that those inside each folder are next to each other. */
module Grouping {
  import opened Sorting

  /** `PurePath(arg.split("::", 1)[0]).parts`, whatever the platform's rules for paths. */
  type Parts = string -> seq<string>

  function ByParts(parts: Parts): (string, string) -> bool {
    (a: string, b: string) => LexLe(StrLe(), parts(a), parts(b))
  }

  function GroupedByFolder(parts: Parts, args: seq<string>): (grouped: seq<string>) {
    Sort(ByParts(parts), args)
  }

  lemma {:induction false} PartsOrder(parts: Parts)
    ensures TotalPreorder(ByParts(parts))
  {
    StrLeIsOrder();
    LexIsOrder(StrLe());
    assert forall a, b :: ByParts(parts)(a, b) == Lex(StrLe())(parts(a), parts(b));
  }

  /** What lies inside a folder is convex: between two of its paths there is no other. */
  lemma {:induction false} FoldersAreConvex(folder: seq<string>, a: seq<string>, b: seq<string>, c: seq<string>)
    requires LexLe(StrLe(), a, b) && LexLe(StrLe(), b, c) && folder <= a && folder <= c
    ensures folder <= b
  {
    if folder == [] {
    } else {
      StrLeIsOrder();
      assert a[0] == folder[0] == c[0];
      assert StrLe()(a[0], b[0]) && StrLe()(b[0], c[0]);
      FoldersAreConvex(folder[1..], a[1..], b[1..], c[1..]);
      assert folder == [folder[0]] + folder[1..] && b == [b[0]] + b[1..];
    }
  }

  /** A name before another: up to some place they agree, and there the first ends or has the
      smaller character. */
  ghost predicate NameBefore(a: string, b: string, n: nat) {
    n <= |a| && n <= |b| && a[..n] == b[..n] && (n == |a| || (n < |b| && a[n] < b[n]))
  }

  /** A path before another: up to some folder they agree, and there the first ends or has the
      name that comes before. */
  ghost predicate PathBefore(a: seq<string>, b: seq<string>, n: nat) {
    n <= |a| && n <= |b| && a[..n] == b[..n] && (n == |a| || (n < |b| && a[n] != b[n] && exists m :: NameBefore(a[n], b[n], m)))
  }

  lemma {:induction false} NamesInOrder(a: string, b: string)
    requires StrLe()(a, b)
    ensures exists n :: NameBefore(a, b, n)
  {
    LexIs(CharLe, a, b);
    var n: nat :| LexAt(CharLe, a, b, n);
    assert NameBefore(a, b, n);
  }

  /** Earlier paths come first. */
  lemma {:induction false} PathsAscend(parts: Parts, args: seq<string>, i: nat, j: nat)
    requires i < j < |args|
    ensures exists n :: PathBefore(parts(GroupedByFolder(parts, args)[i]), parts(GroupedByFolder(parts, args)[j]), n)
  {
    var grouped := GroupedByFolder(parts, args);
    PartsOrder(parts);
    SortSorts(ByParts(parts), args);
    var a, b := parts(grouped[i]), parts(grouped[j]);
    assert ByParts(parts)(grouped[i], grouped[j]);
    LexIs(StrLe(), a, b);
    var n: nat :| LexAt(StrLe(), a, b, n);
    if n < |a| {
      NamesInOrder(a[n], b[n]);
    }
    assert PathBefore(a, b, n);
  }

  /** For every folder, the paths inside it come out contiguous. */
  lemma {:induction false} FoldersAreContiguous(parts: Parts, args: seq<string>, folder: seq<string>, i: nat, j: nat, k: nat)
    requires i <= j <= k < |args|
    requires folder <= parts(GroupedByFolder(parts, args)[i]) && folder <= parts(GroupedByFolder(parts, args)[k])
    ensures folder <= parts(GroupedByFolder(parts, args)[j])
  {
    var grouped := GroupedByFolder(parts, args);
    PartsOrder(parts);
    SortSorts(ByParts(parts), args);
    if i < j < k {
      assert ByParts(parts)(grouped[i], grouped[j]) && ByParts(parts)(grouped[j], grouped[k]);
      FoldersAreConvex(folder, parts(grouped[i]), parts(grouped[j]), parts(grouped[k]));
    }
  }

  /** Every path of the run is still collected, as often as it was given. */
  lemma {:induction false} EveryPathIsKept(parts: Parts, args: seq<string>)
    ensures multiset(GroupedByFolder(parts, args)) == multiset(args)
  {
    SortPermutes(ByParts(parts), args);
  }

  function Has(parts: Parts, key: seq<string>): string -> bool {
    (arg: string) => parts(arg) == key
  }

  /** Arguments that name the same path, such as two tests of one file, keep their order. */
  lemma {:induction false} SamePathKeepsOrder(parts: Parts, args: seq<string>, key: seq<string>)
    ensures Filter(Has(parts, key), GroupedByFolder(parts, args)) == Filter(Has(parts, key), args)
  {
    PartsOrder(parts);
    SortStable(ByParts(parts), Has(parts, key), args);
  }

  /** Sorting what is sorted changes nothing, so a second grouping keeps the first. */
  lemma {:induction false} GroupedStays(parts: Parts, args: seq<string>)
    ensures GroupedByFolder(parts, GroupedByFolder(parts, args)) == GroupedByFolder(parts, args)
  {
    PartsOrder(parts);
    SortSorts(ByParts(parts), args);
    SortOfSorted(ByParts(parts), GroupedByFolder(parts, args));
  }
}
