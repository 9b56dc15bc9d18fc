/**
 The ranked read replayed on a pool of turns: what order is rendered, and how much of the
 evidence fits in a token budget.
 */
module Replaying {
  import opened Prelude
  import opened Sorting

  datatype PoolTurn = PoolTurn(text: string, role: string, gold: bool)

  datatype Pool = Pool(question: string, turns: seq<PoolTurn>)

  /** Positions in the pool: the reranked order, the candidates, and what is shown. */
  datatype Replay = Replay(order: seq<nat>, scope: seq<nat>, rendered: seq<nat>)

  datatype ReplayError = ScoresMissing | UnknownRendering

  /** `range(n)` */
  function Range(n: nat): (r: seq<nat>)
    ensures |r| == n && forall i :: 0 <= i < n ==> r[i] == i
  {
    seq(n, i requires 0 <= i < n => i)
  }

  /** `s[:n]`, where a negative `n` counts from the end. */
  function Slice<T>(s: seq<T>, n: int): (r: seq<T>)
    ensures r <= s
  {
    if n < 0 then (if |s| + n < 0 then [] else s[..|s| + n])
    else if n < |s| then s[..n] else s
  }

  /** Higher scores first. */
  function ByScore(scores: seq<real>): (nat, nat) -> bool {
    (a: nat, b: nat) => ScoreOf(scores, a) >= ScoreOf(scores, b)
  }

  function ScoreOf(scores: seq<real>, i: nat): real {
    if i < |scores| then scores[i] else 0.0
  }

  /** `sorted(range(n), key=lambda i: -scores[i])` */
  function Ranking(scores: seq<real>, n: nat): (ranked: seq<nat>)
    ensures |ranked| == n
  {
    Sort(ByScore(scores), Range(n))
  }

  function Among(chosen: set<nat>): nat -> bool { (i: nat) => i in chosen }

  function Outside(chosen: set<nat>): nat -> bool { (i: nat) => i !in chosen }

  function HasRole(pool: Pool, role: string): nat -> bool {
    (i: nat) => i < |pool.turns| && pool.turns[i].role == role
  }

  /** The pool by falling score. */
  function Order(pool: Pool, rerank: seq<real>): (order: seq<nat>) {
    Ranking(rerank, |pool.turns|)
  }

  /** The candidates: the questioner's role when it has a turn, and no more than `topN`. */
  function Scope(pool: Pool, rerank: seq<real>, roleOf: string -> string, route: bool, topN: int): (scope: seq<nat>) {
    var order := Order(pool, rerank);
    var routed := if route then Filter(HasRole(pool, roleOf(pool.question)), order) else [];
    Slice(if routed != [] then routed else order, topN)
  }

  /** `kept` is None when no selector ran. */
  function ReplayOf(pool: Pool, rerank: seq<real>, roleOf: string -> string, kept: Option<set<nat>>, route: bool, topN: int): (r: Replay)
    requires |rerank| == |pool.turns|
  {
    var order := Order(pool, rerank);
    var scope := Scope(pool, rerank, roleOf, route, topN);
    match kept
    case None => Replay(order, scope, order)
    case Some(chosen) =>
      var keep := chosen * Elements(scope);
      Replay(order, scope, Filter(Among(keep), scope) + Filter(Outside(keep), order))
  }

  // ---- partitions of a sequence ------------------------------------------------------

  lemma {:induction false} FilterSplits<T(!new)>(p: T -> bool, q: T -> bool, s: seq<T>)
    requires forall x :: q(x) <==> !p(x)
    ensures multiset(Filter(p, s) + Filter(q, s)) == multiset(s)
  {
    if s == [] {
    } else {
      FilterSplits(p, q, s[1..]);
      assert s == [s[0]] + s[1..];
    }
  }

  /** The chosen elements of a prefix, when none was chosen beyond it. */
  lemma {:induction false} FilterPrefix(chosen: set<nat>, prefix: seq<nat>, s: seq<nat>)
    requires Distinct(s) && prefix <= s && chosen <= Elements(prefix)
    ensures Filter(Among(chosen), prefix) == Filter(Among(chosen), s)
  {
    var rest := s[|prefix|..];
    assert s == prefix + rest;
    assert forall b :: 0 <= b < |rest| ==> rest[b] == s[|prefix| + b];
    assert forall x :: x in rest ==> x !in prefix;
    FilterAppend(Among(chosen), prefix, rest);
    FilterNone(Among(chosen), rest);
  }

  // ---- what a replay renders ---------------------------------------------------------

  lemma {:induction false} ScoresOrder(scores: seq<real>)
    ensures TotalPreorder(ByScore(scores))
  {
  }

  lemma {:induction false} RankingPermutes(scores: seq<real>, n: nat)
    ensures multiset(Ranking(scores, n)) == multiset(Range(n)) && Distinct(Ranking(scores, n))
    ensures forall i: nat :: i in Ranking(scores, n) <==> i < n
  {
    var ranked := Ranking(scores, n);
    SortPermutes(ByScore(scores), Range(n));
    PermutationKeepsDistinct(Range(n), ranked);
    SameElements(ranked, Range(n));
    forall i: nat ensures i in Range(n) <==> i < n {
      assert i < n ==> Range(n)[i] == i;
    }
  }

  /** Of two positions in a ranking the first scored higher, or as high and came first. */
  lemma {:induction false} RankingFalls(scores: seq<real>, n: nat, i: nat, j: nat)
    requires i < j < n <= |scores|
    ensures var ranked := Ranking(scores, n);
            && ranked[i] < n && ranked[j] < n
            && (scores[ranked[i]] > scores[ranked[j]] || (scores[ranked[i]] == scores[ranked[j]] && ranked[i] < ranked[j]))
  {
    var ranked := Ranking(scores, n);
    RankingPermutes(scores, n);
    ScoresOrder(scores);
    SortSorts(ByScore(scores), Range(n));
    assert ranked[i] in ranked && ranked[j] in ranked && ByScore(scores)(ranked[i], ranked[j]);
    if scores[ranked[i]] == scores[ranked[j]] {
      var tied := (k: nat) => k < |scores| && scores[k] == scores[ranked[i]];
      SortStable(ByScore(scores), tied, Range(n));
      FilterKeepsOrder(tied, ranked, i, j);
      FilterSorted(tied, Range(n));
    }
  }

  /** The reranked order is a permutation of the pool. */
  lemma {:induction false} OrderIs(pool: Pool, rerank: seq<real>)
    requires |rerank| == |pool.turns|
    ensures multiset(Order(pool, rerank)) == multiset(Range(|pool.turns|)) && Distinct(Order(pool, rerank))
    ensures forall i: nat :: i in Order(pool, rerank) <==> i < |pool.turns|
  {
    RankingPermutes(rerank, |pool.turns|);
  }

  lemma {:induction false} RerankedOrder(pool: Pool, rerank: seq<real>, i: nat, j: nat)
    requires |rerank| == |pool.turns| && i < j < |pool.turns|
    ensures var order := Order(pool, rerank);
            && order[i] < |rerank| && order[j] < |rerank|
            && (rerank[order[i]] > rerank[order[j]] || (rerank[order[i]] == rerank[order[j]] && order[i] < order[j]))
  {
    RankingFalls(rerank, |pool.turns|, i, j);
  }

  lemma {:induction false} FilterSorted(p: nat -> bool, s: seq<nat>)
    requires forall a, b :: 0 <= a < b < |s| ==> s[a] < s[b]
    ensures forall a, b :: 0 <= a < b < |Filter(p, s)| ==> Filter(p, s)[a] < Filter(p, s)[b]
  {
    if s == [] {
    } else {
      FilterSorted(p, s[1..]);
      InFilter(p, s[1..]);
      var rest := Filter(p, s[1..]);
      forall b | 0 <= b < |rest| ensures s[0] < rest[b] {
        assert rest[b] in s[1..];
      }
      assert Filter(p, s) == OneIf(p, s[0]) + rest;
    }
  }

  /** Two selected elements stand in a filtered sequence as they stood before. */
  lemma {:induction false} FilterKeepsOrder<T(!new)>(p: T -> bool, s: seq<T>, i: nat, j: nat)
    requires i < j < |s| && p(s[i]) && p(s[j])
    ensures exists a, b :: 0 <= a < b < |Filter(p, s)| && Filter(p, s)[a] == s[i] && Filter(p, s)[b] == s[j]
  {
    FilterAppend(p, s[..j], s[j..]);
    assert s == s[..j] + s[j..];
    InFilter(p, s[..j]);
    assert s[..j][i] in s[..j];
    var a :| 0 <= a < |Filter(p, s[..j])| && Filter(p, s[..j])[a] == s[i];
    var b := |Filter(p, s[..j])|;
    assert Filter(p, s[j..])[0] == s[j];
    assert Filter(p, s)[a] == s[i] && Filter(p, s)[b] == s[j];
  }

  /** The candidates stand in the reranked order. */
  lemma {:induction false} ScopeIsOrdered(pool: Pool, rerank: seq<real>, roleOf: string -> string, route: bool, topN: int, keep: set<nat>)
    requires |rerank| == |pool.turns|
    requires keep <= Elements(Scope(pool, rerank, roleOf, route, topN))
    ensures Filter(Among(keep), Scope(pool, rerank, roleOf, route, topN)) == Filter(Among(keep), Order(pool, rerank))
  {
    var order, scope := Order(pool, rerank), Scope(pool, rerank, roleOf, route, topN);
    var role := HasRole(pool, roleOf(pool.question));
    var routed := if route then Filter(role, order) else [];
    OrderIs(pool, rerank);
    FilterDistinct(role, order);
    if routed != [] {
      InFilter(role, order);
      var kept := (i: nat) => i in keep && role(i);
      FilterPrefix(keep, scope, routed);
      forall i | i in keep ensures role(i) {
        assert i in scope && i in routed;
      }
      FilterTwice(Among(keep), role, order);
    } else {
      FilterPrefix(keep, scope, order);
    }
  }

  /** Rendering is a stable partition of the reranked order: what was kept of the
      candidates, then the rest, each part in the order it had. */
  lemma {:induction false} RenderedIsAPartition(pool: Pool, rerank: seq<real>, roleOf: string -> string, kept: set<nat>, route: bool, topN: int)
    requires |rerank| == |pool.turns|
    ensures var r := ReplayOf(pool, rerank, roleOf, Some(kept), route, topN);
            var keep := kept * Elements(r.scope);
            r.rendered == Filter(Among(keep), r.order) + Filter(Outside(keep), r.order)
  {
    var keep := kept * Elements(Scope(pool, rerank, roleOf, route, topN));
    ScopeIsOrdered(pool, rerank, roleOf, route, topN, keep);
  }

  /** So nothing of the pool is lost or shown twice. */
  lemma {:induction false} RenderedIsThePool(pool: Pool, rerank: seq<real>, roleOf: string -> string, kept: Option<set<nat>>, route: bool, topN: int)
    requires |rerank| == |pool.turns|
    ensures multiset(ReplayOf(pool, rerank, roleOf, kept, route, topN).rendered) == multiset(Range(|pool.turns|))
  {
    OrderIs(pool, rerank);
    if kept.Some? {
      var r := ReplayOf(pool, rerank, roleOf, kept, route, topN);
      var keep := kept.value * Elements(r.scope);
      RenderedIsAPartition(pool, rerank, roleOf, kept.value, route, topN);
      FilterSplits(Among(keep), Outside(keep), r.order);
    }
  }

  /** With no selector the reranked order is rendered as it is; with or without one, a replay
      reports that order and the candidates. */
  lemma {:induction false} UnselectedIsTheOrder(pool: Pool, rerank: seq<real>, roleOf: string -> string, kept: Option<set<nat>>, route: bool, topN: int)
    requires |rerank| == |pool.turns|
    ensures var r := ReplayOf(pool, rerank, roleOf, kept, route, topN);
            && r.order == Order(pool, rerank) && r.scope == Scope(pool, rerank, roleOf, route, topN)
            && (kept.None? ==> r.rendered == Order(pool, rerank))
  {
  }

  // ---- local selectors ---------------------------------------------------------------

  /** A selector: which positions of its candidates it keeps, given their scores. */
  ghost predicate KeepsPositions(keep: seq<real> -> seq<nat>) {
    forall scores: seq<real>, a :: 0 <= a < |keep(scores)| ==> keep(scores)[a] < |scores|
  }

  function Values(scope: seq<nat>, select: seq<Option<real>>): (values: Option<seq<real>>)
    ensures values.Some? ==> |values.value| == |scope|
    ensures values.Some? ==> forall p :: 0 <= p < |scope| ==> scope[p] < |select| && select[scope[p]] == Some(values.value[p])
  {
    if scope == [] then Some([])
    else if scope[0] >= |select| || select[scope[0]].None? then None
    else match Values(scope[1..], select)
      case None => None
      case Some(rest) => Some([select[scope[0]].value] + rest)
  }

  /** The candidates by the selector's own scores. */
  function BySelector(scope: seq<nat>, scores: seq<real>): (head: seq<nat>)
    requires |scores| == |scope|
  {
    At(scope, Ranking(scores, |scope|))
  }

  /** `[s[p] for p in positions]` */
  function At(s: seq<nat>, positions: seq<nat>): (r: seq<nat>)
    ensures |r| == |positions|
  {
    seq(|positions|, a requires 0 <= a < |positions| => if positions[a] < |s| then s[positions[a]] else 0)
  }

  function LocalReplay(pool: Pool, rerank: seq<real>, roleOf: string -> string, select: seq<Option<real>>,
                       keep: seq<real> -> seq<nat>, route: bool, topN: int, render: string): (r: Outcome<(Replay, set<nat>), ReplayError>)
    requires |rerank| == |pool.turns| == |select|
  {
    var scope := Scope(pool, rerank, roleOf, route, topN);
    match Values(scope, select)
    case None => Raised(ScoresMissing)
    case Some(scores) =>
      var kept := Elements(At(scope, keep(scores)));
      var rep := ReplayOf(pool, rerank, roleOf, Some(kept), route, topN);
      var rest := Filter(Outside(Elements(scope)), rep.order);
      if render == "server" then Ok((rep, kept))
      else if render == "routed-first" then
        Ok((Replay(rep.order, scope, Filter(Among(kept), scope) + Filter(Outside(kept), scope) + rest), kept))
      else if render == "selector-order" then
        Ok((Replay(rep.order, scope, BySelector(scope, scores) + rest), kept))
      else Raised(UnknownRendering)
  }

  lemma {:induction false} AtAppend(s: seq<nat>, a: seq<nat>, b: seq<nat>)
    ensures At(s, a + b) == At(s, a) + At(s, b)
  {
  }

  /** Reordering positions reorders what stands there. */
  lemma {:induction false} AtPermutes(s: seq<nat>, a: seq<nat>, b: seq<nat>)
    requires multiset(a) == multiset(b)
    ensures multiset(At(s, a)) == multiset(At(s, b))
  {
    if a == [] {
      assert |multiset(b)| == 0;
    } else {
      var i := FindFirst(a, b);
      AtPermutes(s, a[1..], Without(b, i));
      assert a == [a[0]] + a[1..] && b == b[..i] + [b[i]] + b[i + 1..];
      AtAppend(s, [a[0]], a[1..]);
      AtAppend(s, b[..i], b[i + 1..]);
      AtAppend(s, b[..i], [b[i]]);
      AtAppend(s, b[..i] + [b[i]], b[i + 1..]);
    }
  }

  lemma {:induction false} BySelectorPermutes(scope: seq<nat>, scores: seq<real>)
    requires |scores| == |scope|
    ensures multiset(BySelector(scope, scores)) == multiset(scope)
  {
    SortPermutes(ByScore(scores), Range(|scope|));
    AtPermutes(scope, Ranking(scores, |scope|), Range(|scope|));
    assert At(scope, Range(|scope|)) == scope;
  }

  /** Any order of the candidates, then the rest of the pool, is the pool. */
  lemma {:induction false} ScopeFirstIsThePool(pool: Pool, rerank: seq<real>, roleOf: string -> string, route: bool, topN: int, head: seq<nat>)
    requires |rerank| == |pool.turns|
    requires multiset(head) == multiset(Scope(pool, rerank, roleOf, route, topN))
    ensures var order, scope := Order(pool, rerank), Scope(pool, rerank, roleOf, route, topN);
            multiset(head + Filter(Outside(Elements(scope)), order)) == multiset(Range(|pool.turns|))
  {
    var order, scope := Order(pool, rerank), Scope(pool, rerank, roleOf, route, topN);
    OrderIs(pool, rerank);
    ScopeIsOrdered(pool, rerank, roleOf, route, topN, Elements(scope));
    FilterAll(Among(Elements(scope)), scope);
    FilterSplits(Among(Elements(scope)), Outside(Elements(scope)), order);
  }

  /** Every rendering shows the whole pool, each turn once. */
  lemma {:induction false} EveryRenderingIsThePool(pool: Pool, rerank: seq<real>, roleOf: string -> string, select: seq<Option<real>>,
                                                   keep: seq<real> -> seq<nat>, route: bool, topN: int, render: string)
    requires |rerank| == |pool.turns| == |select|
    ensures var r := LocalReplay(pool, rerank, roleOf, select, keep, route, topN, render);
            r.Ok? ==> multiset(r.value.0.rendered) == multiset(Range(|pool.turns|))
  {
    var r := LocalReplay(pool, rerank, roleOf, select, keep, route, topN, render);
    var scope := Scope(pool, rerank, roleOf, route, topN);
    if r.Ok? {
      var scores, kept := Values(scope, select).value, r.value.1;
      if render == "server" {
        RenderedIsThePool(pool, rerank, roleOf, Some(kept), route, topN);
      } else if render == "routed-first" {
        FilterSplits(Among(kept), Outside(kept), scope);
        ScopeFirstIsThePool(pool, rerank, roleOf, route, topN, Filter(Among(kept), scope) + Filter(Outside(kept), scope));
      } else {
        BySelectorPermutes(scope, scores);
        ScopeFirstIsThePool(pool, rerank, roleOf, route, topN, BySelector(scope, scores));
      }
    }
  }

  /** Whichever of the two renderings shows them, the kept candidates come first, in the
      order of the candidates. */
  lemma {:induction false} KeptComeFirst(pool: Pool, rerank: seq<real>, roleOf: string -> string, select: seq<Option<real>>,
                                         keep: seq<real> -> seq<nat>, route: bool, topN: int, render: string)
    requires |rerank| == |pool.turns| == |select| && KeepsPositions(keep) && render in {"server", "routed-first"}
    ensures var r := LocalReplay(pool, rerank, roleOf, select, keep, route, topN, render);
            r.Ok? ==> r.value.1 <= Elements(r.value.0.scope) && Filter(Among(r.value.1), r.value.0.scope) <= r.value.0.rendered
  {
    var r := LocalReplay(pool, rerank, roleOf, select, keep, route, topN, render);
    var scope := Scope(pool, rerank, roleOf, route, topN);
    if r.Ok? {
      var scores, kept := Values(scope, select).value, r.value.1;
      var chosen := keep(scores);
      assert forall a :: 0 <= a < |chosen| ==> chosen[a] < |scores|;
      assert forall a :: 0 <= a < |chosen| ==> At(scope, chosen)[a] in scope;
      assert kept <= Elements(scope);
      assert kept * Elements(scope) == kept;
    }
  }

  lemma {:induction false} BySelectorFalls(scope: seq<nat>, scores: seq<real>, i: nat, j: nat) returns (p: nat, q: nat)
    requires |scores| == |scope| && i < j < |scope|
    ensures p < |scope| && q < |scope| && BySelector(scope, scores)[i] == scope[p] && BySelector(scope, scores)[j] == scope[q]
    ensures scores[p] > scores[q] || (scores[p] == scores[q] && p < q)
  {
    RankingFalls(scores, |scope|, i, j);
    var ranked := Ranking(scores, |scope|);
    p, q := ranked[i], ranked[j];
  }

  /** The selector scored the candidate at `p` higher than the one at `q`, or as high and it
      stands first among the candidates. */
  ghost predicate Outranks(scope: seq<nat>, select: seq<Option<real>>, p: nat, q: nat) {
    && p < |scope| && q < |scope| && scope[p] < |select| && scope[q] < |select|
    && select[scope[p]].Some? && select[scope[q]].Some?
    && (select[scope[p]].value > select[scope[q]].value || (select[scope[p]].value == select[scope[q]].value && p < q))
  }

  /** Rendered in the selector's order, the candidates come first and fall by its scores. */
  lemma {:induction false} SelectorOrderFalls(pool: Pool, rerank: seq<real>, roleOf: string -> string, select: seq<Option<real>>,
                                              keep: seq<real> -> seq<nat>, route: bool, topN: int, i: nat, j: nat)
    requires |rerank| == |pool.turns| == |select| && i < j
    ensures var r := LocalReplay(pool, rerank, roleOf, select, keep, route, topN, "selector-order");
            r.Ok? && j < |r.value.0.scope| ==>
              var scope, rendered := r.value.0.scope, r.value.0.rendered;
              |scope| <= |rendered| &&
              exists p: nat, q: nat :: Outranks(scope, select, p, q) && rendered[i] == scope[p] && rendered[j] == scope[q]
  {
    var r := LocalReplay(pool, rerank, roleOf, select, keep, route, topN, "selector-order");
    if r.Ok? && j < |r.value.0.scope| {
      var scope := r.value.0.scope;
      var scores := Values(scope, select).value;
      var p, q := BySelectorFalls(scope, scores, i, j);
      assert Outranks(scope, select, p, q);
      assert r.value.0.rendered[i] == BySelector(scope, scores)[i] && r.value.0.rendered[j] == BySelector(scope, scores)[j];
    }
  }

  // ---- who is a candidate, and where it is shown -------------------------------------

  /** The reranker puts the turn at `i` before the one at `j`. */
  predicate Better(rerank: seq<real>, i: nat, j: nat) {
    i < |rerank| && j < |rerank| && (rerank[i] > rerank[j] || (rerank[i] == rerank[j] && i < j))
  }

  ghost predicate Falls(rerank: seq<real>, s: seq<nat>) {
    forall a, b :: 0 <= a < b < |s| ==> Better(rerank, s[a], s[b])
  }

  lemma {:induction false} OrderFalls(pool: Pool, rerank: seq<real>)
    requires |rerank| == |pool.turns|
    ensures Falls(rerank, Order(pool, rerank))
  {
    forall a: nat, b: nat | a < b < |Order(pool, rerank)| ensures Better(rerank, Order(pool, rerank)[a], Order(pool, rerank)[b]) {
      RerankedOrder(pool, rerank, a, b);
    }
  }

  lemma {:induction false} FilterFalls(rerank: seq<real>, p: nat -> bool, s: seq<nat>)
    requires Falls(rerank, s)
    ensures Falls(rerank, Filter(p, s))
  {
    if s == [] {
    } else {
      assert forall b :: 0 <= b < |s[1..]| ==> Better(rerank, s[0], s[1..][b]);
      FilterFalls(rerank, p, s[1..]);
      InFilter(p, s[1..]);
      var rest := Filter(p, s[1..]);
      assert Filter(p, s) == OneIf(p, s[0]) + rest;
      forall b | 0 <= b < |rest| ensures Better(rerank, s[0], rest[b]) {
        assert rest[b] in s[1..];
      }
    }
  }

  lemma {:induction false} ElementCount(s: seq<nat>)
    requires Distinct(s)
    ensures |Elements(s)| == |s|
  {
    if s == [] {
    } else {
      ElementCount(s[1..]);
      assert s == [s[0]] + s[1..] && Elements(s) == {s[0]} + Elements(s[1..]);
    }
  }

  /** The turns that may be candidates: those of the questioner's role, or all when routing is
      off or no turn has the role. */
  function Eligible(pool: Pool, roleOf: string -> string, route: bool): (turns: set<nat>) {
    var same := set i: nat | i < |pool.turns| && pool.turns[i].role == roleOf(pool.question);
    set i: nat | i < |pool.turns| && (route && same != {} ==> pool.turns[i].role == roleOf(pool.question))
  }

  lemma {:induction false} SliceIs(s: seq<nat>, n: int)
    ensures Slice(s, n) <= s
    ensures |Slice(s, n)| == if n < 0 then (if |s| + n > 0 then |s| + n else 0) else if n < |s| then n else |s|
  {
  }

  /** The turns of the questioner's role, or all of them, as the reranker ordered them. */
  function Routed(pool: Pool, rerank: seq<real>, roleOf: string -> string, route: bool): (all: seq<nat>) {
    var same := Filter(HasRole(pool, roleOf(pool.question)), Order(pool, rerank));
    if route && same != [] then same else Order(pool, rerank)
  }

  lemma {:induction false} SameRole(pool: Pool, rerank: seq<real>, role: string)
    requires |rerank| == |pool.turns|
    ensures Distinct(Filter(HasRole(pool, role), Order(pool, rerank))) && Falls(rerank, Filter(HasRole(pool, role), Order(pool, rerank)))
    ensures Elements(Filter(HasRole(pool, role), Order(pool, rerank))) == set i: nat | i < |pool.turns| && pool.turns[i].role == role
  {
    OrderIs(pool, rerank);
    OrderFalls(pool, rerank);
    FilterDistinct(HasRole(pool, role), Order(pool, rerank));
    InFilter(HasRole(pool, role), Order(pool, rerank));
    FilterFalls(rerank, HasRole(pool, role), Order(pool, rerank));
  }

  lemma {:induction false} RoutedIs(pool: Pool, rerank: seq<real>, roleOf: string -> string, route: bool)
    requires |rerank| == |pool.turns|
    ensures var all := Routed(pool, rerank, roleOf, route);
            Distinct(all) && Falls(rerank, all) && Elements(all) == Eligible(pool, roleOf, route)
  {
    var same := Filter(HasRole(pool, roleOf(pool.question)), Order(pool, rerank));
    SameRole(pool, rerank, roleOf(pool.question));
    assert same != [] ==> same[0] in Elements(same);
    assert same == [] ==> Elements(same) == {};
    OrderIs(pool, rerank);
    OrderFalls(pool, rerank);
  }

  /** `scope` holds turns of `eligible`, each once, falling, and none outside is better. */
  ghost predicate BestOf(rerank: seq<real>, scope: seq<nat>, eligible: set<nat>) {
    && Distinct(scope) && Falls(rerank, scope) && Elements(scope) <= eligible
    && forall i, j :: i in scope && j in eligible - Elements(scope) ==> Better(rerank, i, j)
  }

  lemma {:induction false} BestPrefix(rerank: seq<real>, all: seq<nat>, scope: seq<nat>)
    requires Distinct(all) && Falls(rerank, all) && scope <= all
    ensures BestOf(rerank, scope, Elements(all))
  {
    assert forall c :: 0 <= c < |scope| ==> scope[c] == all[c];
    forall i, j | i in scope && j in Elements(all) - Elements(scope) ensures Better(rerank, i, j) {
      var a :| 0 <= a < |scope| && scope[a] == i;
      var b :| 0 <= b < |all| && all[b] == j;
      assert all[a] == i;
    }
  }

  /** The candidates are the best of the eligible turns by the reranker, best first: `topN` of
      them when there are as many, and with a negative `topN` all but so many. */
  lemma {:induction false} ScopeIs(pool: Pool, rerank: seq<real>, roleOf: string -> string, route: bool, topN: int)
    requires |rerank| == |pool.turns|
    ensures var scope, eligible := Scope(pool, rerank, roleOf, route, topN), Eligible(pool, roleOf, route);
            && BestOf(rerank, scope, eligible)
            && |scope| == if topN < 0 then (if |eligible| + topN > 0 then |eligible| + topN else 0)
                          else if topN < |eligible| then topN else |eligible|
  {
    var all := Routed(pool, rerank, roleOf, route);
    RoutedIs(pool, rerank, roleOf, route);
    ElementCount(all);
    SliceIs(all, topN);
    BestPrefix(rerank, all, Slice(all, topN));
  }

  /** Shown class by class, and within a class as the reranker ordered them. */
  ghost predicate ByClass(rerank: seq<real>, class_: nat -> nat, s: seq<nat>) {
    forall a, b :: 0 <= a < b < |s| ==>
      class_(s[a]) < class_(s[b]) || (class_(s[a]) == class_(s[b]) && Better(rerank, s[a], s[b]))
  }

  lemma {:induction false} OneClass(rerank: seq<real>, class_: nat -> nat, s: seq<nat>, n: nat)
    requires Falls(rerank, s) && forall i :: i in s ==> class_(i) == n
    ensures ByClass(rerank, class_, s)
  {
  }

  lemma {:induction false} MoreClasses(rerank: seq<real>, class_: nat -> nat, s: seq<nat>, t: seq<nat>)
    requires ByClass(rerank, class_, s) && ByClass(rerank, class_, t)
    requires forall i, j :: i in s && j in t ==> class_(i) < class_(j)
    ensures ByClass(rerank, class_, s + t)
  {
    var all := s + t;
    forall a, b | 0 <= a < b < |all|
      ensures class_(all[a]) < class_(all[b]) || (class_(all[a]) == class_(all[b]) && Better(rerank, all[a], all[b]))
    {
      if b < |s| {
      } else if a < |s| {
        assert all[a] in s && all[b] in t;
      } else {
        assert all[a] == t[a - |s|] && all[b] == t[b - |s|];
      }
    }
  }

  /** What is kept comes first; a rendering that shows the routed turns first has the other
      candidates next; then comes the rest. */
  function ClassOf(kept: set<nat>, scope: set<nat>, render: string): nat -> nat {
    (i: nat) => if i in kept then 0 else if render == "routed-first" && i in scope then 1 else 2
  }

  lemma {:induction false} PartFalls(pool: Pool, rerank: seq<real>, p: nat -> bool, s: seq<nat>, class_: nat -> nat, n: nat)
    requires |rerank| == |pool.turns| && Falls(rerank, s) && forall i :: i in s && p(i) ==> class_(i) == n
    ensures ByClass(rerank, class_, Filter(p, s)) && forall i :: i in Filter(p, s) ==> class_(i) == n
  {
    FilterFalls(rerank, p, s);
    InFilter(p, s);
    OneClass(rerank, class_, Filter(p, s), n);
  }

  lemma {:induction false} ServerByClass(pool: Pool, rerank: seq<real>, roleOf: string -> string, kept: set<nat>, route: bool, topN: int)
    requires |rerank| == |pool.turns| && kept <= Elements(Scope(pool, rerank, roleOf, route, topN))
    ensures ByClass(rerank, ClassOf(kept, Elements(Scope(pool, rerank, roleOf, route, topN)), "server"),
                    ReplayOf(pool, rerank, roleOf, Some(kept), route, topN).rendered)
  {
    var order, scope := Order(pool, rerank), Scope(pool, rerank, roleOf, route, topN);
    var class_ := ClassOf(kept, Elements(scope), "server");
    OrderFalls(pool, rerank);
    ScopeIs(pool, rerank, roleOf, route, topN);
    assert kept * Elements(scope) == kept;
    PartFalls(pool, rerank, Among(kept), scope, class_, 0);
    PartFalls(pool, rerank, Outside(kept), order, class_, 2);
    MoreClasses(rerank, class_, Filter(Among(kept), scope), Filter(Outside(kept), order));
  }

  lemma {:induction false} RoutedByClass(pool: Pool, rerank: seq<real>, roleOf: string -> string, kept: set<nat>, route: bool, topN: int)
    requires |rerank| == |pool.turns| && kept <= Elements(Scope(pool, rerank, roleOf, route, topN))
    ensures var order, scope := Order(pool, rerank), Scope(pool, rerank, roleOf, route, topN);
            ByClass(rerank, ClassOf(kept, Elements(scope), "routed-first"),
                    Filter(Among(kept), scope) + Filter(Outside(kept), scope) + Filter(Outside(Elements(scope)), order))
  {
    var order, scope := Order(pool, rerank), Scope(pool, rerank, roleOf, route, topN);
    var class_ := ClassOf(kept, Elements(scope), "routed-first");
    var first, second, last := Filter(Among(kept), scope), Filter(Outside(kept), scope), Filter(Outside(Elements(scope)), order);
    OrderFalls(pool, rerank);
    ScopeIs(pool, rerank, roleOf, route, topN);
    PartFalls(pool, rerank, Among(kept), scope, class_, 0);
    PartFalls(pool, rerank, Outside(kept), scope, class_, 1);
    PartFalls(pool, rerank, Outside(Elements(scope)), order, class_, 2);
    MoreClasses(rerank, class_, first, second);
    MoreClasses(rerank, class_, first + second, last);
  }

  /** The scores a local selector saw: those of its candidates, in candidate order. */
  ghost predicate AreScores(scope: seq<nat>, select: seq<Option<real>>, scores: seq<real>) {
    |scores| == |scope| && forall p :: 0 <= p < |scope| ==> scope[p] < |select| && select[scope[p]] == Some(scores[p])
  }

  /** A local selection raises when a candidate has no score, and else when the rendering has no
      such name. */
  lemma {:induction false} SelectionEnds(pool: Pool, rerank: seq<real>, roleOf: string -> string, select: seq<Option<real>>,
                                         keep: seq<real> -> seq<nat>, route: bool, topN: int, render: string)
    requires |rerank| == |pool.turns| == |select|
    ensures var r, scope := LocalReplay(pool, rerank, roleOf, select, keep, route, topN, render), Scope(pool, rerank, roleOf, route, topN);
            && (r == Raised(ScoresMissing) <==> !AllScored(scope, select))
            && (r.Ok? <==> AllScored(scope, select) && (render == "server" || render == "routed-first" || render == "selector-order"))
            && (r.Ok? ==> r.value.0.scope == scope && r.value.0.order == Order(pool, rerank))
  {
    ValuesIff(Scope(pool, rerank, roleOf, route, topN), select);
  }

  /** It keeps the candidates at the positions that the rule picks from their scores. */
  lemma {:induction false} KeptAre(pool: Pool, rerank: seq<real>, roleOf: string -> string, select: seq<Option<real>>,
                                   keep: seq<real> -> seq<nat>, route: bool, topN: int, render: string, scores: seq<real>)
    requires |rerank| == |pool.turns| == |select| && KeepsPositions(keep)
    requires AreScores(Scope(pool, rerank, roleOf, route, topN), select, scores)
    ensures var r, scope := LocalReplay(pool, rerank, roleOf, select, keep, route, topN, render), Scope(pool, rerank, roleOf, route, topN);
            r.Ok? ==> forall i :: i in r.value.1 <==> IsKept(scope, keep(scores), i)
  {
    var r, scope := LocalReplay(pool, rerank, roleOf, select, keep, route, topN, render), Scope(pool, rerank, roleOf, route, topN);
    if r.Ok? {
      assert Values(scope, select).value == scores;
      var chosen := keep(scores);
      assert r.value.1 == Elements(At(scope, chosen));
      assert forall a :: 0 <= a < |chosen| ==> chosen[a] < |scores|;
      assert forall a :: 0 <= a < |chosen| ==> At(scope, chosen)[a] == scope[chosen[a]];
    }
  }

  ghost predicate IsKept(scope: seq<nat>, chosen: seq<nat>, i: nat) {
    exists a :: 0 <= a < |chosen| && chosen[a] < |scope| && scope[chosen[a]] == i
  }

  predicate AllScored(scope: seq<nat>, select: seq<Option<real>>) {
    forall p :: 0 <= p < |scope| ==> scope[p] < |select| && select[scope[p]].Some?
  }

  lemma {:induction false} ValuesIff(scope: seq<nat>, select: seq<Option<real>>)
    ensures Values(scope, select).Some? <==> AllScored(scope, select)
  {
    if scope == [] {
    } else {
      ValuesIff(scope[1..], select);
      assert forall p :: 0 < p < |scope| ==> scope[p] == scope[1..][p - 1];
      assert forall p :: 0 <= p < |scope[1..]| ==> scope[1..][p] == scope[p + 1];
    }
  }

  /** Where every turn stands in the two renderings that keep the reranked order. */
  lemma {:induction false} RenderedByClass(pool: Pool, rerank: seq<real>, roleOf: string -> string, select: seq<Option<real>>,
                                           keep: seq<real> -> seq<nat>, route: bool, topN: int, render: string)
    requires |rerank| == |pool.turns| == |select| && KeepsPositions(keep) && render in {"server", "routed-first"}
    ensures var r := LocalReplay(pool, rerank, roleOf, select, keep, route, topN, render);
            r.Ok? ==> ByClass(rerank, ClassOf(r.value.1, Elements(r.value.0.scope), render), r.value.0.rendered)
  {
    var r := LocalReplay(pool, rerank, roleOf, select, keep, route, topN, render);
    KeptComeFirst(pool, rerank, roleOf, select, keep, route, topN, render);
    if r.Ok? {
      ServerByClass(pool, rerank, roleOf, r.value.1, route, topN);
      RoutedByClass(pool, rerank, roleOf, r.value.1, route, topN);
    }
  }

  /** In the third rendering the candidates come first, and then the rest as reranked. */
  lemma {:induction false} SelectorOrderEnds(pool: Pool, rerank: seq<real>, roleOf: string -> string, select: seq<Option<real>>,
                                             keep: seq<real> -> seq<nat>, route: bool, topN: int)
    requires |rerank| == |pool.turns| == |select|
    ensures var r := LocalReplay(pool, rerank, roleOf, select, keep, route, topN, "selector-order");
            r.Ok? ==>
              var scope, rendered := r.value.0.scope, r.value.0.rendered;
              && |scope| <= |rendered| && multiset(rendered[..|scope|]) == multiset(scope)
              && Falls(rerank, rendered[|scope|..]) && forall i :: i in rendered[|scope|..] ==> i !in scope
  {
    var r := LocalReplay(pool, rerank, roleOf, select, keep, route, topN, "selector-order");
    if r.Ok? {
      var scope := r.value.0.scope;
      var scores := Values(scope, select).value;
      var rest := Filter(Outside(Elements(scope)), Order(pool, rerank));
      BySelectorPermutes(scope, scores);
      OrderFalls(pool, rerank);
      FilterFalls(rerank, Outside(Elements(scope)), Order(pool, rerank));
      InFilter(Outside(Elements(scope)), Order(pool, rerank));
      assert r.value.0.rendered == BySelector(scope, scores) + rest;
      assert r.value.0.rendered[..|scope|] == BySelector(scope, scores) && r.value.0.rendered[|scope|..] == rest;
    }
  }

  // ---- the greedy fill ---------------------------------------------------------------

  /** A turn of the rendered order: what it costs, and whether it is evidence. */
  datatype Priced = Priced(tokens: nat, gold: bool)

  function Prices(pool: Pool, count: string -> nat, rendered: seq<nat>): (items: seq<Priced>)
    requires forall a :: 0 <= a < |rendered| ==> rendered[a] < |pool.turns|
    ensures |items| == |rendered|
  {
    seq(|rendered|, a requires 0 <= a < |rendered| => Priced(count(pool.turns[rendered[a]].text), pool.turns[rendered[a]].gold))
  }

  /** The tokens of the turns taken. */
  ghost function Tokens(items: seq<Priced>, taken: seq<bool>): nat
    requires |taken| == |items|
  {
    if items == [] then 0
    else
      var n := |items| - 1;
      Tokens(items[..n], taken[..n]) + if taken[n] then items[n].tokens else 0
  }

  /** The evidence among them. */
  ghost function Evidence(items: seq<Priced>, taken: seq<bool>): nat
    requires |taken| == |items|
  {
    if items == [] then 0
    else
      var n := |items| - 1;
      Evidence(items[..n], taken[..n]) + if taken[n] && items[n].gold then 1 else 0
  }

  /** Whether the turn at `a` still fits after those taken before it. */
  ghost predicate FitsAt(items: seq<Priced>, budget: int, taken: seq<bool>, a: nat)
    requires |taken| == |items| && a < |items|
  {
    Tokens(items[..a], taken[..a]) + items[a].tokens <= budget
  }

  /** What is taken is what fits, in the order rendered. */
  ghost predicate Greedy(items: seq<Priced>, budget: int, taken: seq<bool>)
    requires |taken| == |items|
  {
    forall a: nat :: a < |items| ==> (taken[a] <==> FitsAt(items, budget, taken, a))
  }

  function IsGold(): PoolTurn -> bool { (t: PoolTurn) => t.gold }

  lemma {:induction false} TakeNext(items: seq<Priced>, budget: int, taken: seq<bool>, item: Priced, fits: bool)
    requires |taken| == |items| && Greedy(items, budget, taken) && fits == (Tokens(items, taken) + item.tokens <= budget)
    ensures Greedy(items + [item], budget, taken + [fits])
    ensures Tokens(items + [item], taken + [fits]) == Tokens(items, taken) + (if fits then item.tokens else 0)
    ensures Evidence(items + [item], taken + [fits]) == Evidence(items, taken) + (if fits && item.gold then 1 else 0)
  {
    var more, chosen := items + [item], taken + [fits];
    assert more[..|items|] == items && chosen[..|items|] == taken;
    forall a: nat | a < |more| ensures chosen[a] <==> FitsAt(more, budget, chosen, a) {
      if a < |items| {
        assert more[..a] == items[..a] && chosen[..a] == taken[..a];
        assert taken[a] <==> FitsAt(items, budget, taken, a);
      }
    }
  }

  /** A turn that does not fit is skipped, and the next one is tried. */
  method Coverage(pool: Pool, rendered: seq<nat>, count: string -> nat, budget: int) returns (got: nat, total: nat, ghost taken: seq<bool>)
    requires forall a :: 0 <= a < |rendered| ==> rendered[a] < |pool.turns|
    ensures |taken| == |rendered| && Greedy(Prices(pool, count, rendered), budget, taken)
    ensures got == Evidence(Prices(pool, count, rendered), taken) && total == Count(IsGold(), pool.turns)
  {
    ghost var items := Prices(pool, count, rendered);
    var used := 0;
    got, taken := 0, [];
    for a := 0 to |rendered|
      invariant |taken| == a && Greedy(items[..a], budget, taken)
      invariant used == Tokens(items[..a], taken) && got == Evidence(items[..a], taken)
    {
      var n, turn := count(pool.turns[rendered[a]].text), pool.turns[rendered[a]];
      ghost var fits := used + n <= budget;
      TakeNext(items[..a], budget, taken, items[a], fits);
      assert items[..a + 1] == items[..a] + [items[a]];
      taken := taken + [fits];
      if used + n <= budget {
        used := used + n;
        got := got + if turn.gold then 1 else 0;
      }
    }
    assert items[..|rendered|] == items;
    total := Count(IsGold(), pool.turns);
  }

  lemma {:induction false} GreedyPrefix(items: seq<Priced>, budget: int, taken: seq<bool>, n: nat)
    requires |taken| == |items| && Greedy(items, budget, taken) && n <= |items|
    ensures Greedy(items[..n], budget, taken[..n])
  {
    forall a: nat | a < n ensures taken[..n][a] <==> FitsAt(items[..n], budget, taken[..n], a) {
      assert items[..n][..a] == items[..a] && taken[..n][..a] == taken[..a];
      assert taken[a] <==> FitsAt(items, budget, taken, a);
    }
  }

  lemma {:induction false} TokensGrow(items: seq<Priced>, taken: seq<bool>, n: nat)
    requires |taken| == |items| && n <= |items|
    ensures Tokens(items[..n], taken[..n]) <= Tokens(items, taken)
  {
    if n == |items| {
      assert items[..n] == items && taken[..n] == taken;
    } else {
      var m := |items| - 1;
      TokensGrow(items[..m], taken[..m], n);
      assert items[..m][..n] == items[..n] && taken[..m][..n] == taken[..n];
    }
  }

  /** The fill stays in a budget that is not negative. */
  lemma {:induction false} FillIsWithinBudget(items: seq<Priced>, budget: nat, taken: seq<bool>)
    requires |taken| == |items| && Greedy(items, budget, taken)
    ensures Tokens(items, taken) <= budget
  {
    if items == [] {
    } else {
      var n := |items| - 1;
      GreedyPrefix(items, budget, taken, n);
      FillIsWithinBudget(items[..n], budget, taken[..n]);
      assert taken[n] <==> FitsAt(items, budget, taken, n);
    }
  }

  /** No turn that was skipped would still fit at the end. */
  lemma {:induction false} FillIsMaximal(items: seq<Priced>, budget: int, taken: seq<bool>, a: nat)
    requires |taken| == |items| && Greedy(items, budget, taken) && a < |items| && !taken[a]
    ensures Tokens(items, taken) + items[a].tokens > budget
  {
    assert taken[a] <==> FitsAt(items, budget, taken, a);
    TokensGrow(items, taken, a);
  }

  /** When the whole pool fits, all of the evidence is counted. */
  lemma {:induction false} RoomForAll(items: seq<Priced>, budget: nat, taken: seq<bool>, all: seq<bool>)
    requires |taken| == |items| == |all| && Greedy(items, budget, taken) && (forall a :: 0 <= a < |all| ==> all[a])
    requires Tokens(items, all) <= budget
    ensures taken == all
  {
    if items == [] {
    } else {
      var n := |items| - 1;
      GreedyPrefix(items, budget, taken, n);
      RoomForAll(items[..n], budget, taken[..n], all[..n]);
      assert taken[n] <==> FitsAt(items, budget, taken, n);
      assert taken == taken[..n] + [taken[n]] && all == all[..n] + [all[n]];
    }
  }

  function IsEvidence(): Priced -> bool { (item: Priced) => item.gold }

  function GoldAt(pool: Pool): nat -> bool { (i: nat) => i < |pool.turns| && pool.turns[i].gold }

  lemma {:induction false} EvidenceAtMost(items: seq<Priced>, taken: seq<bool>)
    requires |taken| == |items|
    ensures Evidence(items, taken) <= Count(IsEvidence(), items)
    ensures (forall a :: 0 <= a < |taken| ==> taken[a]) ==> Evidence(items, taken) == Count(IsEvidence(), items)
  {
    if items == [] {
    } else {
      var n := |items| - 1;
      EvidenceAtMost(items[..n], taken[..n]);
      CountAppend(IsEvidence(), items[..n], [items[n]]);
      assert items == items[..n] + [items[n]];
    }
  }

  lemma {:induction false} EvidenceInRendered(pool: Pool, count: string -> nat, rendered: seq<nat>)
    requires forall a :: 0 <= a < |rendered| ==> rendered[a] < |pool.turns|
    ensures Count(IsEvidence(), Prices(pool, count, rendered)) == Count(GoldAt(pool), rendered)
  {
    if rendered == [] {
    } else {
      EvidenceInRendered(pool, count, rendered[1..]);
      assert Prices(pool, count, rendered)[1..] == Prices(pool, count, rendered[1..]);
    }
  }

  lemma {:induction false} EvidenceInPool(pool: Pool, m: nat)
    requires m <= |pool.turns|
    ensures Count(GoldAt(pool), Range(m)) == Count(IsGold(), pool.turns[..m])
  {
    if m == 0 {
    } else {
      var last: nat := m - 1;
      EvidenceInPool(pool, last);
      CountAppend(GoldAt(pool), Range(last), [last]);
      CountAppend(IsGold(), pool.turns[..last], [pool.turns[last]]);
      assert Range(m) == Range(last) + [last];
      assert pool.turns[..m] == pool.turns[..last] + [pool.turns[last]];
    }
  }

  /** Of a rendering of the whole pool, coverage counts no more evidence than there is, and
      all of it when everything fits. */
  lemma {:induction false} CoverageIsAShare(pool: Pool, count: string -> nat, rendered: seq<nat>, taken: seq<bool>)
    requires multiset(rendered) == multiset(Range(|pool.turns|)) && |taken| == |rendered|
    requires forall a :: 0 <= a < |rendered| ==> rendered[a] < |pool.turns|
    ensures Evidence(Prices(pool, count, rendered), taken) <= Count(IsGold(), pool.turns)
    ensures (forall a :: 0 <= a < |taken| ==> taken[a]) ==>
              Evidence(Prices(pool, count, rendered), taken) == Count(IsGold(), pool.turns)
  {
    EvidenceAtMost(Prices(pool, count, rendered), taken);
    EvidenceInRendered(pool, count, rendered);
    CountPermutes(GoldAt(pool), rendered, Range(|pool.turns|));
    EvidenceInPool(pool, |pool.turns|);
    assert pool.turns[..|pool.turns|] == pool.turns;
  }
}
