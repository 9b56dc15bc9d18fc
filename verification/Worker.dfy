/** The worker path of one arm: stored turns are read `batch` at a time, oldest first. */
module Workers {
  import opened Prelude
  import opened Sorting
  import opened Tallies

  /** At most `n` of a sequence; none when `n` is not positive. */
  function Take<T>(s: seq<T>, n: int): (r: seq<T>)
    ensures r <= s && (n <= 0 ==> r == [])
    ensures n > 0 ==> |r| <= n && (r == [] <==> s == []) && (|r| < n ==> r == s)
  {
    if n <= 0 then [] else if n < |s| then s[..n] else s
  }

  function Flatten(batches: seq<seq<string>>): (ids: seq<string>) {
    if batches == [] then [] else Flatten(batches[..|batches| - 1]) + batches[|batches| - 1]
  }

  class Store {
    /** The stored turns, oldest first. */
    const episodes: seq<string>
    /** What the gate says of a turn. */
    const carriesFact: string -> bool
    /** The turns that have a claim of their own. */
    var claimed: set<string>

    constructor (episodes: seq<string>, carriesFact: string -> bool, claimed: set<string>)
      ensures this.episodes == episodes && this.carriesFact == carriesFact && this.claimed == claimed
    {
      this.episodes, this.carriesFact, this.claimed := episodes, carriesFact, claimed;
    }

    /** Up to `limit` turns that state a fact, have no claim and are not excluded. */
    method PendingExtraction(limit: int, exclude: set<string>) returns (out: seq<string>)
      ensures out == Take(Filter(Pending(carriesFact, claimed + exclude), episodes), limit)
    {
      out := [];
      var pending := Pending(carriesFact, claimed + exclude);
      for i := 0 to |episodes|
        invariant out == Filter(pending, episodes[..i]) && (limit <= 0 ==> out == []) && (limit > 0 ==> |out| <= limit)
      {
        FilterAppend(pending, episodes[..i], episodes[i..]);
        assert episodes == episodes[..i] + episodes[i..];
        if |out| >= limit {
          return out;
        }
        FilterAppend(pending, episodes[..i], [episodes[i]]);
        assert episodes[..i + 1] == episodes[..i] + [episodes[i]];
        if episodes[i] !in exclude && carriesFact(episodes[i]) && episodes[i] !in claimed {
          out := out + [episodes[i]];
        }
      }
      assert episodes[..|episodes|] == episodes;
    }

    /** Reading turns gives any of them claims of their own, and no other turn. */
    method Reextract(batch: seq<string>) returns (receipt: Receipt)
      modifies this`claimed
      ensures old(claimed) <= claimed <= old(claimed) + Elements(batch)
    {
      assert {} <= Elements(batch);
      var written: set<string> :| written <= Elements(batch);
      claimed := claimed + written;
      receipt := *;
    }
  }

  function Pending(carriesFact: string -> bool, skip: set<string>): string -> bool {
    (id: string) => carriesFact(id) && id !in skip
  }

  /** The work list holds the turns that state a fact and are not to be skipped, and no others,
      in the order in which they are stored. */
  lemma {:induction false} WorkListIs(episodes: seq<string>, carriesFact: string -> bool, skip: set<string>)
    ensures forall id :: id in Filter(Pending(carriesFact, skip), episodes) <==> id in episodes && carriesFact(id) && id !in skip
    ensures InOrder(Filter(Pending(carriesFact, skip), episodes), episodes)
  {
    if episodes == [] {
    } else {
      var first, rest := episodes[0], episodes[1..];
      WorkListIs(rest, carriesFact, skip);
      assert episodes == [first] + rest;
      var work := Filter(Pending(carriesFact, skip), rest);
      assert Filter(Pending(carriesFact, skip), episodes) == OneIf(Pending(carriesFact, skip), first) + work;
      if Pending(carriesFact, skip)(first) {
        assert ([first] + work)[1..] == work;
      } else {
        assert [] + work == work;
      }
    }
  }

  /** One sequence can be had from the other by leaving elements out. */
  predicate InOrder(part: seq<string>, all: seq<string>)
    decreases |all|
  {
    part == [] || (all != [] && (InOrder(part, all[1..]) || (part[0] == all[0] && InOrder(part[1..], all[1..]))))
  }

  /** What is still pending once some of the work list has been handed out, whatever
      claims the reads of those wrote. */
  lemma {:induction false} StillPending(episodes: seq<string>, carriesFact: string -> bool, before: set<string>, handed: seq<string>, now: set<string>)
    requires Distinct(episodes) && handed <= Filter(Pending(carriesFact, before), episodes)
    requires before <= now <= before + Elements(handed)
    ensures Filter(Pending(carriesFact, now + Elements(handed)), episodes)
            == Filter(Pending(carriesFact, before), episodes)[|handed|..]
  {
    var want, work := Pending(carriesFact, now + Elements(handed)), Filter(Pending(carriesFact, before), episodes);
    var rest := work[|handed|..];
    FilterDistinct(Pending(carriesFact, before), episodes);
    InFilter(Pending(carriesFact, before), episodes);
    FilterTwice(want, Pending(carriesFact, before), episodes);
    assert work == handed + rest;
    FilterAppend(want, handed, rest);
    FilterNone(want, handed);
    forall id | id in rest ensures want(id) {
      assert id in work;
      NotInPrefix(work, |handed|, id);
    }
    FilterAll(want, rest);
  }

  lemma {:induction false} NotInPrefix(s: seq<string>, n: nat, x: string)
    requires Distinct(s) && n <= |s| && x in s[n..]
    ensures x !in s[..n]
  {
  }

  /** The reads: full batches, but for the last. */
  predicate InBatches(batches: seq<seq<string>>, batch: int) {
    && (forall r :: 0 <= r < |batches| ==> 0 < |batches[r]| <= batch)
    && (forall r :: 0 <= r < |batches| - 1 ==> |batches[r]| == batch)
  }

  /** The reads so far hand out a prefix of the work list, in batches. */
  ghost predicate Progress(work: seq<string>, batches: seq<seq<string>>, batch: int) {
    && Flatten(batches) <= work && InBatches(batches, batch)
    && (batches != [] && Flatten(batches) != work ==> |batches[|batches| - 1]| == batch)
    && (batch <= 0 ==> batches == [])
  }

  lemma {:induction false} OneMoreRead(work: seq<string>, batches: seq<seq<string>>, batch: int)
    requires Progress(work, batches, batch)
    ensures var pending := Take(work[|Flatten(batches)|..], batch);
            if pending == [] then batch > 0 ==> Flatten(batches) == work
            else Progress(work, batches + [pending], batch) && |Flatten(batches + [pending])| > |Flatten(batches)|
                 && Elements(Flatten(batches + [pending])) == Elements(Flatten(batches)) + Elements(pending)
  {
  }

  /** Every turn that was pending is handed out exactly once, oldest first, whichever claims
      the reads write; and with `batch` at zero or below none is. The loop ends. */
  method Work(store: Store, batch: int, tally: Tally) returns (batches: seq<seq<string>>)
    requires Distinct(store.episodes)
    modifies store`claimed, tally
    ensures InBatches(batches, batch) && tally.counts.writes == old(tally.counts.writes) + |batches|
    ensures batch > 0 ==> InOrder(Flatten(batches), store.episodes) && Distinct(Flatten(batches))
    ensures batch > 0 ==> forall id :: id in Flatten(batches) <==>
              id in store.episodes && store.carriesFact(id) && id !in old(store.claimed)
    ensures Flatten(batches) == if batch <= 0 then [] else Filter(Pending(store.carriesFact, old(store.claimed)), store.episodes)
  {
    batches := [];
    var seen: set<string> := {};
    ghost var work := Filter(Pending(store.carriesFact, old(store.claimed)), store.episodes);
    WorkListIs(store.episodes, store.carriesFact, store.claimed);
    FilterDistinct(Pending(store.carriesFact, store.claimed), store.episodes);
    while true
      invariant seen == Elements(Flatten(batches)) && Progress(work, batches, batch)
      invariant old(store.claimed) <= store.claimed <= old(store.claimed) + seen
      invariant tally.counts.writes == old(tally.counts.writes) + |batches|
      decreases |work| - |Flatten(batches)|
    {
      StillPending(store.episodes, store.carriesFact, old(store.claimed), Flatten(batches), store.claimed);
      OneMoreRead(work, batches, batch);
      var pending := store.PendingExtraction(batch, seen);
      if pending == [] {
        return;
      }
      seen := seen + Elements(pending);
      batches := batches + [pending];
      var receipt := store.Reextract(pending);
      tally.Record(receipt, true);
    }
  }
}
