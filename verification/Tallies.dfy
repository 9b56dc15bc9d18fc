/** What extraction did, summed over the writes of an arm. */
module Tallies {
  import opened Prelude

  datatype Counts = Counts(
    writes: int,
    turns: int,
    llmCalls: int,
    tokensIn: int,
    tokensOut: int,
    claimsWritten: int,
    reinforced: int,
    ended: int,
    retired: int,
    unextracted: int,
    failed: int,
    liveClaims: int,
    sameSlot: int,
    otherPredicate: int,
    agenticRuns: int)
  {
    function Plus(other: Counts): Counts {
      Counts(writes + other.writes, turns + other.turns, llmCalls + other.llmCalls, tokensIn + other.tokensIn,
             tokensOut + other.tokensOut, claimsWritten + other.claimsWritten, reinforced + other.reinforced,
             ended + other.ended, retired + other.retired, unextracted + other.unextracted, failed + other.failed,
             liveClaims + other.liveClaims, sameSlot + other.sameSlot, otherPredicate + other.otherPredicate,
             agenticRuns + other.agenticRuns)
    }
  }

  /** A tally as `to_dict` writes it and `from_dict` reads it. */
  datatype Totals = Totals(counts: Counts, fallbacks: map<string, int>, refused: map<string, int>)

  function Nothing(): Totals {
    Totals(Counts(0, 0, 0, 0, 0, 0, 0, 0, 0, 0, 0, 0, 0, 0, 0), map[], map[])
  }

  function Get(counts: map<string, int>, key: string): int {
    if key in counts then counts[key] else 0
  }

  /** `_bump` */
  function Bump(counts: map<string, int>, key: string, n: int): (r: map<string, int>) {
    counts[key := Get(counts, key) + n]
  }

  function AddedUp(a: map<string, int>, b: map<string, int>): (r: map<string, int>) {
    map key | key in a.Keys + b.Keys :: Get(a, key) + Get(b, key)
  }

  /** Two tallies as one. */
  function Merged(a: Totals, b: Totals): (r: Totals) {
    Totals(a.counts.Plus(b.counts), AddedUp(a.fallbacks, b.fallbacks), AddedUp(a.refused, b.refused))
  }

  /** Merging all of a sequence, left to right. */
  function MergedAll(tallies: seq<Totals>): (r: Totals) {
    Fold(Merged, Nothing(), tallies)
  }

  /** What a write reports; the lists count by their length. */
  datatype Receipt = Receipt(
    deferred: bool,
    llmCalls: int,
    tokensIn: int,
    tokensOut: int,
    added: seq<string>,
    reinforced: seq<string>,
    ended: seq<string>,
    retired: seq<string>,
    unextracted: int,
    fallback: string,
    refusals: seq<string>)

  function Reasons(refusals: seq<string>): (counts: map<string, int>) {
    if refusals == [] then map[]
    else Bump(Reasons(refusals[..|refusals| - 1]), refusals[|refusals| - 1], 1)
  }

  /** The tally of one receipt. `write` is false for a store-only write on the worker path. */
  function OneReceipt(receipt: Receipt, write: bool): Totals {
    Totals(Counts(if write then 1 else 0, 0, receipt.llmCalls, receipt.tokensIn, receipt.tokensOut,
                  |receipt.added|, |receipt.reinforced|, |receipt.ended|, |receipt.retired|, receipt.unextracted,
                  if write && receipt.deferred then 1 else 0, 0, 0, 0, 0),
           if receipt.fallback != "" then map[receipt.fallback := 1] else map[], Reasons(receipt.refusals))
  }

  lemma {:induction false} BumpsAddUp(mine: map<string, int>, theirs: map<string, int>, key: string, n: int)
    ensures Bump(AddedUp(mine, theirs), key, n) == AddedUp(mine, Bump(theirs, key, n))
  {
  }

  lemma {:induction false} NothingAdded(mine: map<string, int>)
    ensures AddedUp(mine, map[]) == mine
  {
  }

  lemma {:induction false} PartAdded(mine: map<string, int>, theirs: map<string, int>, left: set<string>, key: string)
    requires left <= theirs.Keys && key in left
    ensures Bump(AddedUp(mine, theirs - left), key, theirs[key]) == AddedUp(mine, theirs - (left - {key}))
  {
  }

  class Tally {
    var counts: Counts
    var fallbacks: map<string, int>
    var refused: map<string, int>

    function View(): Totals
      reads this
    {
      Totals(counts, fallbacks, refused)
    }

    constructor ()
      ensures View() == Nothing()
    {
      counts, fallbacks, refused := Nothing().counts, map[], map[];
    }

    static method BumpAll(mine: map<string, int>, theirs: map<string, int>) returns (sum: map<string, int>)
      ensures sum == AddedUp(mine, theirs)
    {
      sum := mine;
      var left := theirs.Keys;
      assert theirs - left == map[];
      NothingAdded(mine);
      while left != {}
        invariant left <= theirs.Keys && sum == AddedUp(mine, theirs - left)
        decreases |left|
      {
        var key :| key in left;
        PartAdded(mine, theirs, left, key);
        sum := Bump(sum, key, theirs[key]);
        left := left - {key};
      }
      assert theirs - left == theirs;
    }

    method Merge(other: Totals)
      modifies this
      ensures View() == Merged(old(View()), other)
    {
      counts := counts.Plus(other.counts);
      fallbacks := BumpAll(fallbacks, other.fallbacks);
      refused := BumpAll(refused, other.refused);
    }

    method RecordCounts(receipt: Receipt, write: bool)
      modifies this`counts
      ensures counts == old(counts).Plus(OneReceipt(receipt, write).counts)
    {
      if write {
        counts := counts.(writes := counts.writes + 1, failed := counts.failed + if receipt.deferred then 1 else 0);
      }
      counts := counts.(llmCalls := counts.llmCalls + receipt.llmCalls,
                        tokensIn := counts.tokensIn + receipt.tokensIn,
                        tokensOut := counts.tokensOut + receipt.tokensOut,
                        claimsWritten := counts.claimsWritten + |receipt.added|,
                        reinforced := counts.reinforced + |receipt.reinforced|,
                        ended := counts.ended + |receipt.ended|,
                        retired := counts.retired + |receipt.retired|,
                        unextracted := counts.unextracted + receipt.unextracted);
    }

    /** Recording a receipt is merging the tally of that receipt alone. */
    method Record(receipt: Receipt, write: bool)
      modifies this
      ensures View() == Merged(old(View()), OneReceipt(receipt, write))
    {
      RecordCounts(receipt, write);
      NothingAdded(fallbacks);
      if receipt.fallback != "" {
        BumpsAddUp(fallbacks, map[], receipt.fallback, 1);
        fallbacks := Bump(fallbacks, receipt.fallback, 1);
      }
      NothingAdded(refused);
      ghost var before := refused;
      for i := 0 to |receipt.refusals|
        invariant refused == AddedUp(before, Reasons(receipt.refusals[..i]))
        invariant counts == old(counts).Plus(OneReceipt(receipt, write).counts)
        invariant fallbacks == AddedUp(old(fallbacks), OneReceipt(receipt, write).fallbacks)
      {
        assert receipt.refusals[..i + 1][..i] == receipt.refusals[..i];
        BumpsAddUp(before, Reasons(receipt.refusals[..i]), receipt.refusals[i], 1);
        refused := Bump(refused, receipt.refusals[i], 1);
      }
      assert receipt.refusals[..|receipt.refusals|] == receipt.refusals;
    }
  }

  // ---- what a receipt adds -----------------------------------------------------------

  lemma {:induction false} ReasonsAre(refusals: seq<string>, key: string)
    ensures Get(Reasons(refusals), key) == multiset(refusals)[key]
    ensures key in Reasons(refusals) <==> key in refusals
  {
    if refusals == [] {
    } else {
      var n := |refusals| - 1;
      ReasonsAre(refusals[..n], key);
      assert refusals == refusals[..n] + [refusals[n]];
    }
  }

  /** Each number of a receipt goes to the counter of its name, each list by its length; a
      store-only write is no write and fails none. */
  lemma {:induction false} ReceiptCounts(before: Totals, receipt: Receipt, write: bool)
    ensures var c, c' := before.counts, Merged(before, OneReceipt(receipt, write)).counts;
            && c'.writes == c.writes + (if write then 1 else 0)
            && c'.failed == c.failed + (if write && receipt.deferred then 1 else 0)
            && c'.llmCalls == c.llmCalls + receipt.llmCalls
            && c'.tokensIn == c.tokensIn + receipt.tokensIn && c'.tokensOut == c.tokensOut + receipt.tokensOut
            && c'.claimsWritten == c.claimsWritten + |receipt.added| && c'.reinforced == c.reinforced + |receipt.reinforced|
            && c'.ended == c.ended + |receipt.ended| && c'.retired == c.retired + |receipt.retired|
            && c'.unextracted == c.unextracted + receipt.unextracted
            && c'.turns == c.turns && c'.liveClaims == c.liveClaims && c'.agenticRuns == c.agenticRuns
            && c'.sameSlot == c.sameSlot && c'.otherPredicate == c.otherPredicate
  {
  }

  /** A fallback is counted under its reason, unless there was none, and every refusal under its. */
  lemma {:induction false} ReceiptReasons(before: Totals, receipt: Receipt, write: bool, key: string)
    ensures var after := Merged(before, OneReceipt(receipt, write));
            && Get(after.fallbacks, key) == Get(before.fallbacks, key) + (if key == receipt.fallback && key != "" then 1 else 0)
            && Get(after.refused, key) == Get(before.refused, key) + multiset(receipt.refusals)[key]
            && (key in after.fallbacks <==> key in before.fallbacks || (key == receipt.fallback && key != ""))
            && (key in after.refused <==> key in before.refused || key in receipt.refusals)
  {
    ReasonsAre(receipt.refusals, key);
  }

  // ---- merging is addition -----------------------------------------------------------

  lemma {:induction false} AddedUpAssociates(a: map<string, int>, b: map<string, int>, c: map<string, int>)
    ensures AddedUp(AddedUp(a, b), c) == AddedUp(a, AddedUp(b, c))
  {
  }

  lemma {:induction false} MergeCommutes(a: Totals, b: Totals)
    ensures Merged(a, b) == Merged(b, a)
  {
  }

  lemma {:induction false} MergeAssociates(a: Totals, b: Totals, c: Totals)
    ensures Merged(Merged(a, b), c) == Merged(a, Merged(b, c))
  {
    AddedUpAssociates(a.fallbacks, b.fallbacks, c.fallbacks);
    AddedUpAssociates(a.refused, b.refused, c.refused);
  }

  lemma {:induction false} MergeNothing(a: Totals)
    ensures Merged(a, Nothing()) == a == Merged(Nothing(), a)
  {
  }

  /** Merging is addition: it commutes, associates and has a zero. */
  lemma {:induction false} MergeIsAddition()
    ensures Addition(Merged, Nothing())
  {
    forall a, b ensures Commutes(Merged, a, b) {
      MergeCommutes(a, b);
    }
    forall a, b, c ensures Associates(Merged, a, b, c) {
      MergeAssociates(a, b, c);
    }
    forall a ensures IsUnit(Merged, Nothing(), a) {
      MergeNothing(a);
    }
  }

  /** The order in which tallies are merged does not count. */
  lemma {:induction false} MergedAllPermutes(a: seq<Totals>, b: seq<Totals>)
    requires multiset(a) == multiset(b)
    ensures MergedAll(a) == MergedAll(b)
  {
    MergeIsAddition();
    FoldPermutes(Merged, Nothing(), a, b);
  }
}
