/** Evidence recall of a ranking, read off at every cut-off in one pass down the ranking. */
module RecallCurve {
  import opened Prelude
  import opened Sorting

  type Label = string

  /** The part of `EvidenceGold` the evidence measure reads. */
  datatype Gold = Gold(labels: set<Label>, hasLabels: bool)

  /** The evidence fields of `RetrievalScore`; `None` means not measurable. */
  datatype Evidence = Evidence(rank: Option<nat>, found: nat, total: nat, recallAt: Option<map<int, real>>)

  /** The distinct gold labels among the first `k` items: what recall at `k` means. */
  function FoundBy(items: seq<set<Label>>, gold: set<Label>, k: int): (found: set<Label>)
    ensures found <= gold
  {
    set l | l in gold && exists i :: 0 <= i < |items| && i < k && l in items[i]
  }

  function Recall(items: seq<set<Label>>, gold: set<Label>, k: int): (r: real)
    requires gold != {}
  {
    |FoundBy(items, gold, k)| as real / |gold| as real
  }

  /** The 1-based rank of the first item that carries a gold label. */
  ghost predicate IsRank(items: seq<set<Label>>, gold: set<Label>, rank: Option<nat>) {
    match rank
    case Some(r) =>
      1 <= r <= |items| && items[r - 1] * gold != {} && forall i :: 0 <= i < r - 1 ==> items[i] * gold == {}
    case None => forall i :: 0 <= i < |items| ==> items[i] * gold == {}
  }

  /** What the pass reports at a cut-off. A cut-off below 1 is never reached, and since the
      queue is in order it holds up every other: all are then read at the end of the ranking. */
  ghost function Reported(items: seq<set<Label>>, gold: set<Label>, ks: seq<int>, k: int): real
    requires gold != {}
  {
    if forall j :: j in ks ==> j >= 1 then Recall(items, gold, k) else Recall(items, gold, |items|)
  }

  predicate Below(x: int, y: int) { x <= y }

  ghost predicate Strict(all: seq<int>) {
    forall i, j :: 0 <= i < j < |all| ==> all[i] < all[j]
  }

  lemma {:induction false} StrictCuts(ks: seq<int>)
    ensures var cuts := Sort(Below, Dedupe(ks));
            && Strict(cuts)
            && (forall k :: k in cuts <==> k in ks)
  {
    var cuts := Sort(Below, Dedupe(ks));
    SortSorts(Below, Dedupe(ks));
    SortPermutes(Below, Dedupe(ks));
    PermutationKeepsDistinct(Dedupe(ks), cuts);
    SameElements(cuts, Dedupe(ks));
    assert forall i, j :: 0 <= i < j < |cuts| ==> Below(cuts[i], cuts[j]) && cuts[i] != cuts[j];
  }

  lemma {:induction false} FoundByNext(items: seq<set<Label>>, gold: set<Label>, k: nat)
    requires k < |items|
    ensures FoundBy(items, gold, k + 1) == FoundBy(items, gold, k) + items[k] * gold
  {
  }

  lemma {:induction false} PastTheEnd(items: seq<set<Label>>, gold: set<Label>, k: int)
    requires k >= |items|
    ensures FoundBy(items, gold, k) == FoundBy(items, gold, |items|)
  {
  }

  /** `left` cut-offs are still to be read off, and those before them were, `r` items down. */
  ghost predicate ReadOff(items: seq<set<Label>>, gold: set<Label>, all: seq<int>, left: nat, recall: map<int, real>, r: nat)
    requires gold != {}
  {
    && left <= |all|
    && (forall k :: k in recall <==> k in all[..|all| - left])
    && (forall k :: k in recall ==> k <= r && recall[k] == Recall(items, gold, k))
  }

  /** The last `left` cut-offs are all deeper than rank `r`, or the first is never reached. */
  ghost predicate Pending(all: seq<int>, left: nat, r: nat) {
    left <= |all| && if all == [] || all[0] >= 1 then forall j :: |all| - left <= j < |all| ==> all[j] > r else left == |all|
  }

  lemma {:induction false} ReadOffNext(items: seq<set<Label>>, gold: set<Label>, all: seq<int>, left: nat,
                                       recall: map<int, real>, r: nat)
    requires gold != {} && ReadOff(items, gold, all, left, recall, r + 1)
    requires Pending(all, left, r) && 0 < left && all[|all| - left] == r + 1
    ensures ReadOff(items, gold, all, left - 1, recall[r + 1 := Recall(items, gold, r + 1)], r + 1)
    ensures Pending(all, left - 1, r)
    ensures all[|all| - left..][1..] == all[|all| - (left - 1)..]
  {
  }

  lemma {:induction false} PendingNext(all: seq<int>, left: nat, r: nat)
    requires Strict(all) && Pending(all, left, r) && (left == 0 || all[|all| - left] != r + 1)
    ensures Pending(all, left, r + 1)
  {
  }

  /** The first `n` cut-offs were read off, each as `Reported` says. */
  ghost predicate Filled(items: seq<set<Label>>, gold: set<Label>, ks: seq<int>, all: seq<int>, n: nat, recall: map<int, real>)
    requires gold != {}
  {
    && n <= |all|
    && (forall k :: k in recall <==> k in all[..n])
    && (forall k :: k in recall ==> recall[k] == Reported(items, gold, ks, k))
  }

  lemma {:induction false} FilledNext(items: seq<set<Label>>, gold: set<Label>, ks: seq<int>, all: seq<int>, n: nat,
                                      recall: map<int, real>)
    requires gold != {} && Filled(items, gold, ks, all, n, recall) && n < |all|
    requires (forall j :: j in ks ==> j >= 1) ==> all[n] >= |items|
    ensures Filled(items, gold, ks, all, n + 1, recall[all[n] := Recall(items, gold, |items|)])
  {
    assert all[..n + 1] == all[..n] + [all[n]];
    if forall j :: j in ks ==> j >= 1 {
      PastTheEnd(items, gold, all[n]);
    }
  }

  lemma {:induction false} PendingIsFilled(items: seq<set<Label>>, gold: set<Label>, ks: seq<int>, all: seq<int>, left: nat,
                                          recall: map<int, real>)
    requires gold != {} && Strict(all) && forall k :: k in all <==> k in ks
    requires ReadOff(items, gold, all, left, recall, |items|) && Pending(all, left, |items|)
    ensures Filled(items, gold, ks, all, |all| - left, recall)
    ensures (forall j :: j in ks ==> j >= 1) ==> forall j :: |all| - left <= j < |all| ==> all[j] >= |items|
  {
    assert all != [] ==> all[0] in ks;
    assert forall k :: k in ks ==> k in all && all[0] <= k;
  }

  lemma {:induction false} RankNext(items: seq<set<Label>>, gold: set<Label>, rank: Option<nat>, r: nat)
    requires r < |items| && IsRank(items[..r], gold, rank)
    ensures IsRank(items[..r + 1], gold, if items[r] * gold != {} && rank == None then Some(r + 1) else rank)
  {
  }

  /** Reads off every cut-off that rank `r + 1` reaches: the inner loop of the pass. */
  method TakeCuts(items: seq<set<Label>>, gold: set<Label>, ghost all: seq<int>, queue: seq<int>,
                  before: map<int, real>, r: nat, share: real)
    returns (cuts: seq<int>, recall: map<int, real>)
    requires gold != {} && share == Recall(items, gold, r + 1) && Strict(all)
    requires |queue| <= |all| && queue == all[|all| - |queue|..]
    requires ReadOff(items, gold, all, |queue|, before, r + 1) && Pending(all, |queue|, r)
    ensures |cuts| <= |all| && cuts == all[|all| - |cuts|..]
    ensures ReadOff(items, gold, all, |cuts|, recall, r + 1) && Pending(all, |cuts|, r + 1)
  {
    cuts, recall := queue, before;
    while cuts != [] && cuts[0] == r + 1
      invariant |cuts| <= |all| && cuts == all[|all| - |cuts|..]
      invariant ReadOff(items, gold, all, |cuts|, recall, r + 1)
      invariant Pending(all, |cuts|, r)
    {
      ReadOffNext(items, gold, all, |cuts|, recall, r);
      recall := recall[cuts[0] := share];
      cuts := cuts[1..];
    }
    PendingNext(all, |cuts|, r);
  }

  /** Gives every cut-off deeper than the ranking what the ranking ended with. */
  method TakeRest(items: seq<set<Label>>, gold: set<Label>, ghost ks: seq<int>, ghost all: seq<int>, cuts: seq<int>,
                  before: map<int, real>, share: real)
    returns (recall: map<int, real>)
    requires gold != {} && share == Recall(items, gold, |items|)
    requires |cuts| <= |all| && cuts == all[|all| - |cuts|..] && Filled(items, gold, ks, all, |all| - |cuts|, before)
    requires (forall j :: j in ks ==> j >= 1) ==> forall j :: |all| - |cuts| <= j < |all| ==> all[j] >= |items|
    ensures Filled(items, gold, ks, all, |all|, recall)
  {
    recall := before;
    for i := 0 to |cuts|
      invariant Filled(items, gold, ks, all, |all| - |cuts| + i, recall)
    {
      FilledNext(items, gold, ks, all, |all| - |cuts| + i, recall);
      recall := recall[cuts[i] := share];
    }
  }

  /** The evidence half of `score_retrieval`. */
  method ScoreEvidence(items: seq<set<Label>>, gold: Gold, ks: seq<int>) returns (score: Evidence)
    ensures score.recallAt.Some? <==> gold.hasLabels && gold.labels != {}
    ensures score.recallAt.None? ==> score == Evidence(None, 0, 0, None)
    ensures score.recallAt.Some? ==>
              && IsRank(items, gold.labels, score.rank)
              && score.found == |FoundBy(items, gold.labels, |items|)|
              && score.total == |gold.labels|
              && (forall k :: k in score.recallAt.value <==> k in ks)
              && (forall k :: k in score.recallAt.value ==>
                    score.recallAt.value[k] == Reported(items, gold.labels, ks, k))
  {
    if !gold.hasLabels || gold.labels == {} {
      return Evidence(None, 0, 0, None);
    }
    var seen: set<Label> := {};
    var recall: map<int, real> := map[];
    var rank: Option<nat> := None;
    var cuts := Sort(Below, Dedupe(ks));
    ghost var all := cuts;
    StrictCuts(ks);
    for r := 0 to |items|
      invariant seen == FoundBy(items, gold.labels, r)
      invariant IsRank(items[..r], gold.labels, rank)
      invariant |cuts| <= |all| && cuts == all[|all| - |cuts|..]
      invariant ReadOff(items, gold.labels, all, |cuts|, recall, r) && Pending(all, |cuts|, r)
    {
      var found := items[r] * gold.labels;
      RankNext(items, gold.labels, rank, r);
      if found != {} && rank == None {
        rank := Some(r + 1);
      }
      FoundByNext(items, gold.labels, r);
      seen := seen + found;
      cuts, recall := TakeCuts(items, gold.labels, all, cuts, recall, r, |seen| as real / |gold.labels| as real);
    }
    assert items[..|items|] == items;
    PendingIsFilled(items, gold.labels, ks, all, |cuts|, recall);
    recall := TakeRest(items, gold.labels, ks, all, cuts, recall, |seen| as real / |gold.labels| as real);
    assert all[..|all|] == all;
    score := Evidence(rank, |seen|, |gold.labels|, Some(recall));
  }

  // ---- what the curve means ----------------------------------------------------------

  lemma {:induction false} SubsetSize<T>(a: set<T>, b: set<T>)
    requires a <= b
    ensures |a| <= |b|
    ensures |a| == |b| ==> a == b
  {
    assert b == a + (b - a);
  }

  lemma {:induction false} Shares(a: nat, b: nat, n: nat)
    requires a <= b && n > 0
    ensures a as real / n as real <= b as real / n as real
  {
  }

  lemma {:induction false} Whole(n: nat)
    requires n > 0
    ensures n as real / n as real == 1.0
  {
  }

  /** The gold labels that the item at `k` is the first to show. */
  function NewAt(items: seq<set<Label>>, gold: set<Label>, k: nat): (labels: set<Label>)
    requires k < |items|
  {
    set l | l in gold && l in items[k] && forall i :: 0 <= i < k ==> l !in items[i]
  }

  /** Recall begins at zero and grows, item by item, by the share of gold that is new with it:
      that is what it is at every depth. */
  lemma {:induction false} RecallGrows(items: seq<set<Label>>, gold: set<Label>, k: nat)
    requires gold != {} && k < |items|
    ensures Recall(items, gold, 0) == 0.0
    ensures Recall(items, gold, k + 1) == Recall(items, gold, k) + |NewAt(items, gold, k)| as real / |gold| as real
  {
    assert FoundBy(items, gold, 0) == {};
    assert FoundBy(items, gold, k + 1) == FoundBy(items, gold, k) + NewAt(items, gold, k);
    assert FoundBy(items, gold, k) !! NewAt(items, gold, k);
  }

  /** Past the end of the ranking it stays where it is. */
  lemma {:induction false} RecallStays(items: seq<set<Label>>, gold: set<Label>, k: nat)
    requires gold != {} && k >= |items|
    ensures Recall(items, gold, k) == Recall(items, gold, |items|)
  {
    PastTheEnd(items, gold, k);
  }

  lemma {:induction false} CurveIsMonotone(items: seq<set<Label>>, gold: set<Label>, k: int, k': int)
    requires gold != {} && k <= k'
    ensures 0.0 <= Recall(items, gold, k) <= Recall(items, gold, k') <= 1.0
  {
    SubsetSize(FoundBy(items, gold, k), FoundBy(items, gold, k'));
    SubsetSize(FoundBy(items, gold, k'), gold);
    Shares(0, |FoundBy(items, gold, k)|, |gold|);
    Shares(|FoundBy(items, gold, k)|, |FoundBy(items, gold, k')|, |gold|);
    Shares(|FoundBy(items, gold, k')|, |gold|, |gold|);
    Whole(|gold|);
  }

  /** The curve leaves zero exactly at the evidence rank. */
  lemma {:induction false} NonzeroFromTheRank(items: seq<set<Label>>, gold: set<Label>, rank: Option<nat>, k: int)
    requires gold != {} && IsRank(items, gold, rank)
    ensures Recall(items, gold, k) > 0.0 <==> rank.Some? && rank.value <= k
  {
    var found := FoundBy(items, gold, k);
    if rank.Some? && rank.value <= k {
      var l :| l in items[rank.value - 1] * gold;
      assert l in found;
    } else {
      forall l ensures l !in found {
        assert forall i :: 0 <= i < |items| && i < k ==> l !in items[i] * gold;
      }
      assert found == {};
    }
  }

  /** It reaches one exactly when every gold label was retrieved. */
  lemma {:induction false} OneMeansAllFound(items: seq<set<Label>>, gold: set<Label>, k: int)
    requires gold != {}
    ensures Recall(items, gold, k) == 1.0 <==> forall l :: l in gold ==> exists i :: 0 <= i < |items| && i < k && l in items[i]
  {
    SubsetSize(FoundBy(items, gold, k), gold);
    assert FoundBy(items, gold, k) == gold <==> forall l :: l in gold ==> l in FoundBy(items, gold, k);
  }

  lemma {:induction false} FoundAtMostK(items: seq<set<Label>>, gold: set<Label>, k: nat)
    requires k <= |items| && forall i :: 0 <= i < |items| ==> |items[i]| <= 1
    ensures |FoundBy(items, gold, k)| <= k
  {
    if k == 0 {
    } else {
      FoundAtMostK(items, gold, k - 1);
      FoundByNext(items, gold, k - 1);
      SubsetSize(items[k - 1] * gold, items[k - 1]);
    }
  }

  /** With at most one label an item, `k` items cannot show more than `k` labels. */
  lemma {:induction false} OneLabelEach(items: seq<set<Label>>, gold: set<Label>, k: nat)
    requires gold != {} && forall i :: 0 <= i < |items| ==> |items[i]| <= 1
    ensures Recall(items, gold, k) <= (if k < |gold| then k else |gold|) as real / |gold| as real
  {
    SubsetSize(FoundBy(items, gold, k), gold);
    if k <= |items| {
      FoundAtMostK(items, gold, k);
    } else {
      FoundAtMostK(items, gold, |items|);
      PastTheEnd(items, gold, k);
    }
    Shares(|FoundBy(items, gold, k)|, if k < |gold| then k else |gold|, |gold|);
  }

  /** The one-pass curve is the recall curve, for every ranking, if and only if no cut-off is
      below 1. */
  lemma {:induction false} CurveIsRecallIffPositive(ks: seq<int>)
    ensures (forall items: seq<set<Label>>, gold: set<Label>, k :: gold != {} && k in ks ==>
               Reported(items, gold, ks, k) == Recall(items, gold, k))
            <==> (forall k :: k in ks ==> k >= 1)
  {
    if k :| k in ks && k < 1 {
      var items: seq<set<Label>>, gold: set<Label> := [{"gold"}], {"gold"};
      assert "gold" in items[0];
      assert FoundBy(items, gold, |items|) == {"gold"} && FoundBy(items, gold, k) == {};
      assert Reported(items, gold, ks, k) != Recall(items, gold, k);
    }
  }
}
