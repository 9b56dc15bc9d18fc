/**
 The vector-memory baseline: each new fact may delete one similar memory of its slot among
 the `top_k` nearest. Similarity and the order of equal similarities are arbitrary.
 */
module Baseline {
  import opened Prelude
  import opened Sorting

  datatype Memory = Memory(text: string, subject: string, predicate_: string, obj: string, deleted: bool)

  /** `rank` sorts positions by falling similarity; `sim(query, stored)` is the similarity. */
  datatype Config = Config(sim: (string, string) -> real, rank: seq<real> -> seq<nat>, topK: nat, threshold: real)

  /** The memories, and what the stats count. */
  datatype Store = Store(memories: seq<Memory>, llmCalls: nat, embeds: nat, detected: nat, missed: nat)

  predicate Unused(s: Store) {
    s.memories == [] && s.llmCalls == s.embeds == s.detected == s.missed == 0
  }

  function Spaced(s: string): string {
    if s == "" then "" else [if s[0] == '_' then ' ' else s[0]] + Spaced(s[1..])
  }

  function TextOf(f: Fact): string {
    f.subject + " " + Spaced(f.predicate_) + " " + f.obj
  }

  predicate SameSlot(m: Memory, f: Fact) {
    m.subject == f.subject && m.predicate_ == f.predicate_
  }

  function IsLive(): Memory -> bool { (m: Memory) => !m.deleted }

  /** The positions of the memories that are not deleted, in order. */
  function Live(memories: seq<Memory>): (live: seq<nat>)
    ensures Inside(live, |memories|)
  {
    if memories == [] then []
    else
      var n := |memories| - 1;
      Live(memories[..n]) + if memories[n].deleted then [] else [n]
  }

  predicate Inside(near: seq<nat>, n: nat) {
    forall a :: 0 <= a < |near| ==> near[a] < n
  }

  lemma {:induction false} LiveIncrease(memories: seq<Memory>)
    ensures forall a, b :: 0 <= a < b < |Live(memories)| ==> Live(memories)[a] < Live(memories)[b]
  {
    if memories == [] {
    } else {
      LiveIncrease(memories[..|memories| - 1]);
    }
  }

  lemma {:induction false} LiveAreUndeleted(memories: seq<Memory>)
    ensures forall i: nat :: i in Live(memories) <==> i < |memories| && !memories[i].deleted
  {
    if memories == [] {
    } else {
      LiveAreUndeleted(memories[..|memories| - 1]);
    }
  }

  lemma {:induction false} LiveAreCounted(memories: seq<Memory>)
    ensures |Live(memories)| == Count(IsLive(), memories)
  {
    if memories == [] {
    } else {
      var n := |memories| - 1;
      LiveAreCounted(memories[..n]);
      assert memories == memories[..n] + [memories[n]];
      CountAppend(IsLive(), memories[..n], [memories[n]]);
    }
  }

  lemma {:induction false} LiveIs(memories: seq<Memory>)
    ensures forall i: nat :: i in Live(memories) <==> i < |memories| && !memories[i].deleted
    ensures forall a :: 0 <= a < |Live(memories)| ==> !memories[Live(memories)[a]].deleted
    ensures |Live(memories)| == Count(IsLive(), memories)
    ensures forall a, b :: 0 <= a < b < |Live(memories)| ==> Live(memories)[a] < Live(memories)[b]
  {
    LiveIncrease(memories);
    LiveAreUndeleted(memories);
    LiveAreCounted(memories);
    assert forall a :: 0 <= a < |Live(memories)| ==> Live(memories)[a] in Live(memories);
  }

  /** Every position once, more similar ones first. */
  ghost predicate IsRanking(order: seq<nat>, sims: seq<real>) {
    && |order| == |sims|
    && (forall i :: 0 <= i < |sims| ==> i in order)
    && (forall a :: 0 <= a < |order| ==> order[a] < |sims|)
    && (forall a, b :: 0 <= a < b < |order| ==> sims[order[a]] >= sims[order[b]] && order[a] != order[b])
  }

  ghost predicate Ranks(rank: seq<real> -> seq<nat>) {
    forall sims :: IsRanking(rank(sims), sims)
  }

  function Similarities(c: Config, memories: seq<Memory>, text: string): (sims: seq<real>) {
    var live := Live(memories);
    seq(|live|, i requires 0 <= i < |live| => c.sim(text, memories[live[i]].text))
  }

  /** The positions of the nearest live memories, nearest first: `_search_vecs`. */
  function Nearest(c: Config, memories: seq<Memory>, text: string): (near: seq<nat>)
    requires Ranks(c.rank)
    ensures Inside(near, |memories|)
  {
    var live := Live(memories);
    var order := c.rank(Similarities(c, memories, text));
    assert IsRanking(order, Similarities(c, memories, text));
    var k := if c.topK < |order| then c.topK else |order|;
    seq(k, i requires 0 <= i < k => live[order[i]])
  }

  /** `near` holds the `topK` live memories most similar to the text, or all when there are
      fewer: each once, the more similar first, and none outside more similar than one inside. */
  ghost predicate AreNearest(c: Config, memories: seq<Memory>, text: string, near: seq<nat>) {
    && Inside(near, |memories|) && Distinct(near)
    && |near| == (if c.topK < Count(IsLive(), memories) then c.topK else Count(IsLive(), memories))
    && (forall a :: 0 <= a < |near| ==> !memories[near[a]].deleted)
    && (forall a, b :: 0 <= a < b < |near| ==> c.sim(text, memories[near[a]].text) >= c.sim(text, memories[near[b]].text))
    && (forall i: nat :: i < |memories| && !memories[i].deleted && i !in near ==> NoneNearer(c, memories, text, near, i))
  }

  ghost predicate NoneNearer(c: Config, memories: seq<Memory>, text: string, near: seq<nat>, i: nat)
    requires i < |memories| && Inside(near, |memories|)
  {
    forall a :: 0 <= a < |near| ==> c.sim(text, memories[near[a]].text) >= c.sim(text, memories[i].text)
  }

  /** Where a live memory stands in the ranking. */
  lemma {:induction false} PlaceOf(c: Config, memories: seq<Memory>, text: string, i: nat) returns (d: nat)
    requires Ranks(c.rank) && i < |memories| && !memories[i].deleted
    ensures var order := c.rank(Similarities(c, memories, text));
            d < |order| && order[d] < |Live(memories)| && Live(memories)[order[d]] == i
  {
    var order := c.rank(Similarities(c, memories, text));
    assert IsRanking(order, Similarities(c, memories, text));
    LiveAreUndeleted(memories);
    var b :| 0 <= b < |Live(memories)| && Live(memories)[b] == i;
    assert b in order;
    d :| d < |order| && order[d] == b;
  }

  /** A live memory outside the neighbours is ranked behind all of them. */
  lemma {:induction false} OthersAreBehind(c: Config, memories: seq<Memory>, text: string, i: nat)
    requires Ranks(c.rank) && i < |memories| && !memories[i].deleted && i !in Nearest(c, memories, text)
    ensures NoneNearer(c, memories, text, Nearest(c, memories, text), i)
  {
    var live, sims, near := Live(memories), Similarities(c, memories, text), Nearest(c, memories, text);
    var order := c.rank(sims);
    assert IsRanking(order, sims);
    var d := PlaceOf(c, memories, text, i);
    assert forall a :: 0 <= a < |near| ==> near[a] == live[order[a]];
    assert forall a :: 0 <= a < |near| ==> sims[order[a]] >= sims[order[d]];
  }

  lemma {:induction false} NearestAre(c: Config, memories: seq<Memory>, text: string)
    requires Ranks(c.rank)
    ensures AreNearest(c, memories, text, Nearest(c, memories, text))
  {
    var live, sims, near := Live(memories), Similarities(c, memories, text), Nearest(c, memories, text);
    var order := c.rank(sims);
    assert IsRanking(order, sims);
    LiveIs(memories);
    forall i: nat | i < |memories| && !memories[i].deleted && i !in near ensures NoneNearer(c, memories, text, near, i) {
      OthersAreBehind(c, memories, text, i);
    }
    forall a, b | 0 <= a < b < |near|
      ensures near[a] != near[b] && c.sim(text, memories[near[a]].text) >= c.sim(text, memories[near[b]].text)
    {
      assert sims[order[a]] >= sims[order[b]] && order[a] != order[b];
    }
  }

  predicate Replaces(c: Config, m: Memory, f: Fact) {
    SameSlot(m, f) && c.sim(TextOf(f), m.text) >= c.threshold
  }

  /** The first of the neighbours that the new fact replaces. */
  function FirstReplaced(c: Config, memories: seq<Memory>, near: seq<nat>, f: Fact): (r: Option<nat>)
    requires Inside(near, |memories|)
    ensures r.Some? ==> r.value < |memories|
  {
    if near == [] then None
    else if Replaces(c, memories[near[0]], f) then Some(near[0])
    else FirstReplaced(c, memories, near[1..], f)
  }

  lemma {:induction false} FirstReplacedIs(c: Config, memories: seq<Memory>, near: seq<nat>, f: Fact)
    requires Inside(near, |memories|)
    ensures var r := FirstReplaced(c, memories, near, f);
            match r
            case Some(i) => Replaces(c, memories[i], f) && exists a :: 0 <= a < |near| && near[a] == i
            case None => forall a :: 0 <= a < |near| ==> !Replaces(c, memories[near[a]], f)
  {
    if near == [] || Replaces(c, memories[near[0]], f) {
    } else {
      FirstReplacedIs(c, memories, near[1..], f);
      assert forall a :: 0 < a < |near| ==> near[a] == near[1..][a - 1];
      assert forall a :: 0 <= a < |near[1..]| ==> near[1..][a] == near[a + 1];
    }
  }

  /** What is replaced is live. */
  lemma {:induction false} ReplacedIsLive(c: Config, memories: seq<Memory>, f: Fact)
    requires Ranks(c.rank)
    ensures var r := FirstReplaced(c, memories, Nearest(c, memories, TextOf(f)), f);
            r.Some? ==> !memories[r.value].deleted && Replaces(c, memories[r.value], f)
  {
    var near := Nearest(c, memories, TextOf(f));
    var order := c.rank(Similarities(c, memories, TextOf(f)));
    assert IsRanking(order, Similarities(c, memories, TextOf(f)));
    FirstReplacedIs(c, memories, near, f);
    LiveIs(memories);
  }

  /** A live memory of the slot that says something else. */
  predicate Conflicts(m: Memory, f: Fact) {
    !m.deleted && SameSlot(m, f) && m.obj != f.obj
  }

  predicate AnyConflict(memories: seq<Memory>, f: Fact) {
    exists i :: 0 <= i < |memories| && Conflicts(memories[i], f)
  }

  function Deleted(memories: seq<Memory>, i: nat): seq<Memory>
    requires i < |memories|
  {
    memories[i := memories[i].(deleted := true)]
  }

  function NewMemory(f: Fact): Memory {
    Memory(TextOf(f), f.subject, f.predicate_, f.obj, false)
  }

  /** What writing one fact does to the store. */
  function Written(c: Config, s: Store, f: Fact): (r: Store)
    requires Ranks(c.rank)
  {
    var replaced := FirstReplaced(c, s.memories, Nearest(c, s.memories, TextOf(f)), f);
    var kept := if replaced.Some? then Deleted(s.memories, replaced.value) else s.memories;
    Store(kept + [NewMemory(f)], s.llmCalls + 1, s.embeds + 1,
          s.detected + (if replaced.Some? then 1 else 0),
          s.missed + if replaced.None? && AnyConflict(kept, f) then 1 else 0)
  }

  function AllWritten(c: Config, s: Store, facts: seq<Fact>): (r: Store)
    requires Ranks(c.rank)
    decreases |facts|
  {
    if facts == [] then s else Written(c, AllWritten(c, s, facts[..|facts| - 1]), facts[|facts| - 1])
  }

  lemma {:induction false} AllWrittenNext(c: Config, s: Store, facts: seq<Fact>, i: nat)
    requires Ranks(c.rank) && i < |facts|
    ensures AllWritten(c, s, facts[..i + 1]) == Written(c, AllWritten(c, s, facts[..i]), facts[i])
  {
    assert facts[..i + 1][..i] == facts[..i];
  }

  /** Every turn costs an extraction call, whatever it yields. */
  function TurnAdded(c: Config, extractor: string -> seq<Fact>, s: Store, turn: string): (r: Store)
    requires Ranks(c.rank)
  {
    AllWritten(c, s.(llmCalls := s.llmCalls + 1), extractor(turn))
  }

  function Added(c: Config, extractor: string -> seq<Fact>, s: Store, turns: seq<string>): (r: Store)
    requires Ranks(c.rank)
  {
    if turns == [] then s
    else TurnAdded(c, extractor, Added(c, extractor, s, turns[..|turns| - 1]), turns[|turns| - 1])
  }

  lemma {:induction false} AddedNext(c: Config, extractor: string -> seq<Fact>, s: Store, turns: seq<string>, t: nat)
    requires Ranks(c.rank) && t < |turns|
    ensures Added(c, extractor, s, turns[..t + 1]) == TurnAdded(c, extractor, Added(c, extractor, s, turns[..t]), turns[t])
  {
    assert turns[..t + 1][..t] == turns[..t];
  }

  class Mem0StyleMemory {
    const config: Config
    const extractor: string -> seq<Fact>
    var memories: seq<Memory>
    var llmCalls: nat
    var embeds: nat
    var detected: nat
    var missed: nat

    function View(): Store
      reads this
    {
      Store(memories, llmCalls, embeds, detected, missed)
    }

    constructor (config: Config, extractor: string -> seq<Fact>)
      ensures this.config == config && this.extractor == extractor && Unused(View())
    {
      this.config, this.extractor := config, extractor;
      memories, llmCalls, embeds, detected, missed := [], 0, 0, 0, 0;
    }

    /** The second call: marks the first neighbour that the fact replaces. */
    method Adjudicate(near: seq<nat>, f: Fact) returns (replaced: bool)
      requires Inside(near, |memories|)
      modifies this`memories
      ensures var found := FirstReplaced(config, old(memories), near, f);
              replaced == found.Some? && memories == if replaced then Deleted(old(memories), found.value) else old(memories)
    {
      for i := 0 to |near|
        invariant memories == old(memories)
        invariant FirstReplaced(config, memories, near, f) == FirstReplaced(config, memories, near[i..], f)
      {
        if Replaces(config, memories[near[i]], f) {
          memories := Deleted(memories, near[i]);
          return true;
        }
      }
      return false;
    }

    method WriteFact(f: Fact)
      requires Ranks(config.rank)
      modifies this
      ensures View() == Written(config, old(View()), f)
      ensures detected == Written(config, old(View()), f).detected && missed == Written(config, old(View()), f).missed
      ensures embeds == old(embeds) + 1 && llmCalls == old(llmCalls) + 1
    {
      embeds := embeds + 1;
      var near := Nearest(config, memories, TextOf(f));
      llmCalls := llmCalls + 1;
      var replaced := Adjudicate(near, f);
      if AnyConflict(memories, f) && !replaced {
        missed := missed + 1;
      } else if replaced {
        detected := detected + 1;
      }
      memories := memories + [NewMemory(f)];
    }

    /** The extracted facts of a turn, one after the other. */
    method WriteFacts(facts: seq<Fact>)
      requires Ranks(config.rank)
      modifies this
      ensures View() == AllWritten(config, old(View()), facts)
    {
      for i := 0 to |facts|
        invariant View() == AllWritten(config, old(View()), facts[..i])
      {
        AllWrittenNext(config, old(View()), facts, i);
        WriteFact(facts[i]);
      }
      assert facts[..|facts|] == facts;
    }

    method AddTurn(turn: string)
      requires Ranks(config.rank)
      modifies this
      ensures View() == TurnAdded(config, extractor, old(View()), turn)
    {
      llmCalls := llmCalls + 1;
      WriteFacts(extractor(turn));
    }

    method Add(turns: seq<string>)
      requires Ranks(config.rank)
      modifies this
      ensures View() == Added(config, extractor, old(View()), turns)
    {
      for t := 0 to |turns|
        invariant View() == Added(config, extractor, old(View()), turns[..t])
      {
        AddedNext(config, extractor, old(View()), turns, t);
        AddTurn(turns[t]);
      }
      assert turns[..|turns|] == turns;
    }
  }

  // ---- what one fact does ------------------------------------------------------------

  lemma {:induction false} SpacedIs(s: string)
    ensures |Spaced(s)| == |s| && forall i :: 0 <= i < |s| ==> Spaced(s)[i] == if s[i] == '_' then ' ' else s[i]
  {
    if s == "" {
    } else {
      SpacedIs(s[1..]);
    }
  }

  /** The memory is of the fact's slot and similar enough to be taken for it. */
  ghost predicate Qualifies(c: Config, m: Memory, f: Fact) {
    && m.subject == f.subject && m.predicate_ == f.predicate_
    && c.sim(f.subject + " " + Spaced(f.predicate_) + " " + f.obj, m.text) >= c.threshold
  }

  /** `a` is the first of the neighbours that qualifies, if any does. */
  ghost predicate IsFirst(c: Config, memories: seq<Memory>, near: seq<nat>, f: Fact, a: Option<nat>)
    requires Inside(near, |memories|)
  {
    match a
    case Some(n) => n < |near| && Qualifies(c, memories[near[n]], f) && forall b :: 0 <= b < n ==> !Qualifies(c, memories[near[b]], f)
    case None => forall b :: 0 <= b < |near| ==> !Qualifies(c, memories[near[b]], f)
  }

  lemma {:induction false} FirstQualifies(c: Config, memories: seq<Memory>, near: seq<nat>, f: Fact) returns (a: Option<nat>)
    requires Inside(near, |memories|)
    ensures IsFirst(c, memories, near, f, a)
    ensures FirstReplaced(c, memories, near, f) == if a.Some? then Some(near[a.value]) else None
  {
    if near == [] {
      a := None;
    } else if Qualifies(c, memories[near[0]], f) {
      a := Some(0);
    } else {
      a := FirstQualifies(c, memories, near[1..], f);
      assert forall b :: 0 <= b < |near[1..]| ==> near[1..][b] == near[b + 1];
      assert forall b :: 0 < b < |near| ==> near[b] == near[1..][b - 1];
      a := if a.Some? then Some(a.value + 1) else None;
    }
  }

  /** A live memory of the fact's slot says something else. */
  ghost predicate SomeDisagrees(memories: seq<Memory>, f: Fact) {
    exists i :: 0 <= i < |memories| && !memories[i].deleted
                && memories[i].subject == f.subject && memories[i].predicate_ == f.predicate_ && memories[i].obj != f.obj
  }

  /** Writing a fact deletes the first of its nearest memories that qualifies, and counts a
      detected conflict. When none does, nothing is deleted, and a missed conflict is counted
      if and only if a live memory of the slot says something else. */
  lemma {:induction false} OneFactIs(c: Config, s: Store, f: Fact) returns (near: seq<nat>, a: Option<nat>)
    requires Ranks(c.rank)
    ensures AreNearest(c, s.memories, f.subject + " " + Spaced(f.predicate_) + " " + f.obj, near)
    ensures IsFirst(c, s.memories, near, f, a)
    ensures var r := Written(c, s, f);
            && |r.memories| == |s.memories| + 1
            && r.memories[|s.memories|] == Memory(f.subject + " " + Spaced(f.predicate_) + " " + f.obj, f.subject, f.predicate_, f.obj, false)
            && (forall i: nat :: i < |s.memories| ==>
                  r.memories[i] == if a.Some? && near[a.value] == i then s.memories[i].(deleted := true) else s.memories[i])
            && r.detected == s.detected + (if a.Some? then 1 else 0)
            && r.missed == s.missed + (if a.None? && SomeDisagrees(s.memories, f) then 1 else 0)
  {
    near := Nearest(c, s.memories, TextOf(f));
    NearestAre(c, s.memories, TextOf(f));
    a := FirstQualifies(c, s.memories, near, f);
    if SomeDisagrees(s.memories, f) {
      var i :| 0 <= i < |s.memories| && !s.memories[i].deleted
               && s.memories[i].subject == f.subject && s.memories[i].predicate_ == f.predicate_ && s.memories[i].obj != f.obj;
      assert Conflicts(s.memories[i], f);
    }
  }

  // ---- what is conserved, whatever retrieval finds -----------------------------------

  function LiveCount(s: Store): nat {
    Count(IsLive(), s.memories)
  }

  /** The books of a store that took `facts` facts out of `turns` turns. */
  ghost predicate Balanced(s: Store, turns: nat, facts: nat) {
    && |s.memories| == s.embeds == facts
    && s.llmCalls == turns + facts
    && LiveCount(s) == facts - s.detected
    && s.detected + s.missed <= facts
  }

  /** One fact adds one live memory and deletes at most one, which is counted. */
  lemma {:induction false} OneFact(c: Config, s: Store, f: Fact, turns: nat, facts: nat)
    requires Ranks(c.rank) && Balanced(s, turns, facts)
    ensures Balanced(Written(c, s, f), turns, facts + 1)
  {
    var near := Nearest(c, s.memories, TextOf(f));
    var replaced := FirstReplaced(c, s.memories, near, f);
    var kept := if replaced.Some? then Deleted(s.memories, replaced.value) else s.memories;
    ReplacedIsLive(c, s.memories, f);
    if replaced.Some? {
      var i := replaced.value;
      CountUpdate(IsLive(), s.memories, i, s.memories[i].(deleted := true));
    }
    CountAppend(IsLive(), kept, [NewMemory(f)]);
  }

  lemma {:induction false} FactsBalance(c: Config, s: Store, more: seq<Fact>, turns: nat, facts: nat)
    requires Ranks(c.rank) && Balanced(s, turns, facts)
    ensures Balanced(AllWritten(c, s, more), turns, facts + |more|)
    decreases |more|
  {
    if more == [] {
    } else {
      var before := more[..|more| - 1];
      FactsBalance(c, s, before, turns, facts);
      OneFact(c, AllWritten(c, s, before), more[|more| - 1], turns, facts + |before|);
    }
  }

  function Extracted(extractor: string -> seq<Fact>, turns: seq<string>): (facts: seq<Fact>) {
    if turns == [] then [] else Extracted(extractor, turns[..|turns| - 1]) + extractor(turns[|turns| - 1])
  }

  lemma {:induction false} TurnBalances(c: Config, extractor: string -> seq<Fact>, s: Store, turn: string, turns: nat, facts: nat)
    requires Ranks(c.rank) && Balanced(s, turns, facts)
    ensures Balanced(TurnAdded(c, extractor, s, turn), turns + 1, facts + |extractor(turn)|)
  {
    CallBalances(s, turns, facts);
    FactsBalance(c, s.(llmCalls := s.llmCalls + 1), extractor(turn), turns + 1, facts);
  }

  lemma {:induction false} CallBalances(s: Store, turns: nat, facts: nat)
    requires Balanced(s, turns, facts)
    ensures Balanced(s.(llmCalls := s.llmCalls + 1), turns + 1, facts)
  {
  }

  lemma {:induction false} TurnsBalance(c: Config, extractor: string -> seq<Fact>, s: Store, turns: seq<string>)
    requires Ranks(c.rank) && Unused(s)
    ensures Balanced(Added(c, extractor, s, turns), |turns|, |Extracted(extractor, turns)|)
  {
    if turns == [] {
    } else {
      var before := turns[..|turns| - 1];
      TurnsBalance(c, extractor, s, before);
      TurnBalances(c, extractor, Added(c, extractor, s, before), turns[|turns| - 1], |before|, |Extracted(extractor, before)|);
    }
  }

  /** After any turns: the live memories are the facts stored less the conflicts detected, and
      the calls are one a turn and one a fact. */
  lemma {:induction false} Conservation(c: Config, extractor: string -> seq<Fact>, s: Store, turns: seq<string>)
    requires Ranks(c.rank) && Unused(s)
    ensures var r, facts := Added(c, extractor, s, turns), |Extracted(extractor, turns)|;
            |Live(r.memories)| == facts - r.detected && |r.memories| == facts && r.llmCalls == |turns| + facts
  {
    TurnsBalance(c, extractor, s, turns);
    LiveIs(Added(c, extractor, s, turns).memories);
  }

  // ---- when retrieval sees every live memory -----------------------------------------

  type Slot = (string, string)

  function SlotOf(f: Fact): Slot { (f.subject, f.predicate_) }
  function MemorySlot(m: Memory): Slot { (m.subject, m.predicate_) }

  /** The last thing each slot was told: what a dictionary would hold. */
  function LastSaid(facts: seq<Fact>): (m: map<Slot, string>) {
    if facts == [] then map[] else LastSaid(facts[..|facts| - 1])[SlotOf(facts[|facts| - 1]) := facts[|facts| - 1].obj]
  }

  /** Facts of one slot are similar enough to be taken for one another. */
  ghost predicate AlikeInSlot(c: Config, facts: seq<Fact>) {
    forall f, g :: f in facts && g in facts && SlotOf(f) == SlotOf(g) ==> c.sim(TextOf(f), TextOf(g)) >= c.threshold
  }

  predicate LiveIn(memories: seq<Memory>, i: nat, slot: Slot) {
    i < |memories| && !memories[i].deleted && MemorySlot(memories[i]) == slot
  }

  /** One live memory a slot, which says what the slot was last told. */
  ghost predicate OneLiveASlot(memories: seq<Memory>, said: map<Slot, string>) {
    && (forall i, j, k :: LiveIn(memories, i, k) && LiveIn(memories, j, k) ==> i == j)
    && (forall i: nat, k :: LiveIn(memories, i, k) ==> k in said && memories[i].obj == said[k])
    && (forall k :: k in said ==> exists i :: LiveIn(memories, i, k))
  }

  /** Every memory was written from one of the facts. */
  ghost predicate FromFacts(memories: seq<Memory>, facts: seq<Fact>) {
    forall i :: 0 <= i < |memories| ==> FromOne(memories[i], facts)
  }

  ghost predicate FromOne(m: Memory, facts: seq<Fact>) {
    exists f :: f in facts && m.text == TextOf(f) && SameSlot(m, f)
  }

  /** Live memories are no more than the slots told, when each slot has one. */
  lemma {:induction false} LiveFits(memories: seq<Memory>, said: map<Slot, string>)
    requires OneLiveASlot(memories, said)
    ensures |Live(memories)| == |said|
  {
    var live := Live(memories);
    LiveIs(memories);
    assert forall a :: 0 <= a < |live| ==> LiveIn(memories, live[a], MemorySlot(memories[live[a]]));
    ImageSize(memories, live);
    var slots := set a | 0 <= a < |live| :: MemorySlot(memories[live[a]]);
    forall k ensures k in slots <==> k in said.Keys {
      if k in said {
        var i: nat :| LiveIn(memories, i, k);
        var a :| 0 <= a < |live| && live[a] == i;
        assert MemorySlot(memories[live[a]]) in slots;
      }
    }
    assert slots == said.Keys;
  }

  lemma {:induction false} ImageSize(memories: seq<Memory>, live: seq<nat>)
    requires forall a :: 0 <= a < |live| ==> live[a] < |memories|
    requires forall a, b :: 0 <= a < b < |live| ==> MemorySlot(memories[live[a]]) != MemorySlot(memories[live[b]])
    ensures |set a | 0 <= a < |live| :: MemorySlot(memories[live[a]])| == |live|
  {
    if live == [] {
    } else {
      var n := |live| - 1;
      ImageSize(memories, live[..n]);
      var less := set a | 0 <= a < n :: MemorySlot(memories[live[..n][a]]);
      var more := set a | 0 <= a < |live| :: MemorySlot(memories[live[a]]);
      assert forall a :: 0 <= a < n ==> live[..n][a] == live[a];
      assert more == less + {MemorySlot(memories[live[n]])};
      assert MemorySlot(memories[live[n]]) !in less;
    }
  }

  /** When `topK` covers the live memories, every one of them is among the neighbours. */
  lemma {:induction false} AllAreNear(c: Config, memories: seq<Memory>, text: string, i: nat)
    requires Ranks(c.rank) && |Live(memories)| <= c.topK && i < |memories| && !memories[i].deleted
    ensures exists a :: 0 <= a < |Nearest(c, memories, text)| && Nearest(c, memories, text)[a] == i
  {
    var live, sims := Live(memories), Similarities(c, memories, text);
    var order := c.rank(sims);
    assert IsRanking(order, sims);
    LiveIs(memories);
    var b :| 0 <= b < |live| && live[b] == i;
    assert b in order;
    var a :| 0 <= a < |order| && order[a] == b;
    assert Nearest(c, memories, text)[a] == i;
  }

  /** The state of a run over `facts` that has been covered and alike all along. */
  ghost predicate Faithful(s: Store, facts: seq<Fact>) {
    OneLiveASlot(s.memories, LastSaid(facts)) && FromFacts(s.memories, facts) && s.missed == 0
  }

  /** A live memory of the slot is replaced, and it is the only one. */
  lemma {:induction false} SlotIsReplaced(c: Config, s: Store, facts: seq<Fact>, f: Fact, i: nat)
    requires Ranks(c.rank) && Faithful(s, facts) && AlikeInSlot(c, facts + [f])
    requires |Live(s.memories)| <= c.topK && LiveIn(s.memories, i, SlotOf(f))
    ensures FirstReplaced(c, s.memories, Nearest(c, s.memories, TextOf(f)), f) == Some(i)
  {
    var near := Nearest(c, s.memories, TextOf(f));
    AllAreNear(c, s.memories, TextOf(f), i);
    assert FromOne(s.memories[i], facts);
    var g :| g in facts && s.memories[i].text == TextOf(g) && SameSlot(s.memories[i], g);
    assert f in facts + [f] && g in facts + [f];
    assert Replaces(c, s.memories[i], f);
    var found := FirstReplaced(c, s.memories, near, f);
    FirstReplacedIs(c, s.memories, near, f);
    ReplacedIsLive(c, s.memories, f);
    assert found.Some?;
    assert LiveIn(s.memories, found.value, SlotOf(f));
  }

  lemma {:induction false} ReplacedSlot(memories: seq<Memory>, said: map<Slot, string>, f: Fact, i: nat)
    requires OneLiveASlot(memories, said) && LiveIn(memories, i, SlotOf(f))
    ensures OneLiveASlot(Deleted(memories, i) + [NewMemory(f)], said[SlotOf(f) := f.obj])
    ensures !AnyConflict(Deleted(memories, i), f)
  {
    var after := Deleted(memories, i) + [NewMemory(f)];
    var n := |memories|;
    forall j: nat, k | LiveIn(after, j, k) ensures if j < n then LiveIn(memories, j, k) && k != SlotOf(f) else k == SlotOf(f) {
      if j < n {
        assert LiveIn(memories, j, k);
      }
    }
    var told := said[SlotOf(f) := f.obj];
    forall k | k in told ensures exists j :: LiveIn(after, j, k) {
      if k == SlotOf(f) {
        assert LiveIn(after, n, k);
      } else {
        var j: nat :| LiveIn(memories, j, k);
        assert LiveIn(after, j, k);
      }
    }
    forall j | 0 <= j < n ensures !Conflicts(Deleted(memories, i)[j], f) {
      assert Conflicts(memories[j], f) ==> LiveIn(memories, j, SlotOf(f));
    }
  }

  lemma {:induction false} NewSlot(memories: seq<Memory>, said: map<Slot, string>, f: Fact)
    requires OneLiveASlot(memories, said) && SlotOf(f) !in said
    ensures OneLiveASlot(memories + [NewMemory(f)], said[SlotOf(f) := f.obj])
    ensures !AnyConflict(memories, f)
  {
    var after := memories + [NewMemory(f)];
    var n := |memories|;
    forall j: nat, k | LiveIn(after, j, k) ensures if j < n then LiveIn(memories, j, k) else k == SlotOf(f) {
    }
    var told := said[SlotOf(f) := f.obj];
    forall k | k in told ensures exists j :: LiveIn(after, j, k) {
      if k == SlotOf(f) {
        assert LiveIn(after, n, k);
      } else {
        var j: nat :| LiveIn(memories, j, k);
        assert LiveIn(after, j, k);
      }
    }
    forall j | 0 <= j < n ensures !Conflicts(memories[j], f) {
      assert Conflicts(memories[j], f) ==> LiveIn(memories, j, SlotOf(f));
    }
  }

  lemma {:induction false} FromFactsNext(memories: seq<Memory>, kept: seq<Memory>, facts: seq<Fact>, f: Fact)
    requires FromFacts(memories, facts) && |kept| == |memories|
    requires forall i :: 0 <= i < |kept| ==> kept[i] == memories[i].(deleted := kept[i].deleted)
    ensures FromFacts(kept + [NewMemory(f)], facts + [f])
  {
  }

  /** A slot that was told before: its live memory gives way to the new one. */
  lemma {:induction false} ToldAgain(c: Config, s: Store, facts: seq<Fact>, f: Fact)
    requires Ranks(c.rank) && Faithful(s, facts) && AlikeInSlot(c, facts + [f]) && |Live(s.memories)| <= c.topK
    requires SlotOf(f) in LastSaid(facts)
    ensures Faithful(Written(c, s, f), facts + [f])
  {
    assert (facts + [f])[..|facts|] == facts;
    var i: nat :| LiveIn(s.memories, i, SlotOf(f));
    SlotIsReplaced(c, s, facts, f, i);
    assert Written(c, s, f).memories == Deleted(s.memories, i) + [NewMemory(f)];
    FromFactsNext(s.memories, Deleted(s.memories, i), facts, f);
    ReplacedSlot(s.memories, LastSaid(facts), f, i);
  }

  /** A slot that was never told: nothing is replaced and nothing conflicts. */
  lemma {:induction false} ToldFirst(c: Config, s: Store, facts: seq<Fact>, f: Fact)
    requires Ranks(c.rank) && Faithful(s, facts) && SlotOf(f) !in LastSaid(facts)
    ensures Faithful(Written(c, s, f), facts + [f])
  {
    var replaced := FirstReplaced(c, s.memories, Nearest(c, s.memories, TextOf(f)), f);
    ReplacedIsLive(c, s.memories, f);
    assert replaced.Some? ==> LiveIn(s.memories, replaced.value, SlotOf(f));
    NewSlot(s.memories, LastSaid(facts), f);
    FromFactsNext(s.memories, s.memories, facts, f);
    assert (facts + [f])[..|facts|] == facts;
    assert Written(c, s, f).memories == s.memories + [NewMemory(f)];
  }

  lemma {:induction false} FaithfulNext(c: Config, s: Store, facts: seq<Fact>, f: Fact)
    requires Ranks(c.rank) && Faithful(s, facts) && AlikeInSlot(c, facts + [f]) && |LastSaid(facts)| <= c.topK
    ensures Faithful(Written(c, s, f), facts + [f])
  {
    LiveFits(s.memories, LastSaid(facts));
    if SlotOf(f) in LastSaid(facts) {
      ToldAgain(c, s, facts, f);
    } else {
      ToldFirst(c, s, facts, f);
    }
  }

  lemma {:induction false} SlotsGrow(facts: seq<Fact>, n: nat)
    requires n <= |facts|
    ensures |LastSaid(facts[..n])| <= |LastSaid(facts)|
  {
    if n == |facts| {
      assert facts[..n] == facts;
    } else {
      var before := facts[..|facts| - 1];
      assert before[..n] == facts[..n];
      SlotsGrow(before, n);
      var f := facts[|facts| - 1];
      assert LastSaid(facts) == LastSaid(before)[SlotOf(f) := f.obj];
      assert SlotOf(f) !in LastSaid(before) ==> |LastSaid(facts)| == |LastSaid(before)| + 1;
      assert SlotOf(f) in LastSaid(before) ==> LastSaid(facts).Keys == LastSaid(before).Keys;
    }
  }

  /** When `topK` covers the slots ever told and facts of a slot are alike, the baseline is a
      dictionary: one live memory a slot, holding what was said last, and no conflict missed. */
  lemma {:induction false} CoveredMeansFaithful(c: Config, s: Store, facts: seq<Fact>)
    requires Ranks(c.rank) && Unused(s) && AlikeInSlot(c, facts) && |LastSaid(facts)| <= c.topK
    ensures Faithful(AllWritten(c, s, facts), facts)
    decreases |facts|
  {
    if facts == [] {
    } else {
      var before, f := facts[..|facts| - 1], facts[|facts| - 1];
      assert facts == before + [f];
      SlotsGrow(facts, |facts| - 1);
      CoveredMeansFaithful(c, s, before);
      FaithfulNext(c, AllWritten(c, s, before), before, f);
    }
  }

  lemma {:induction false} CoveredLive(c: Config, s: Store, facts: seq<Fact>)
    requires Ranks(c.rank) && Unused(s) && AlikeInSlot(c, facts) && |LastSaid(facts)| <= c.topK
    ensures LiveCount(AllWritten(c, s, facts)) == |LastSaid(facts)|
    ensures AllWritten(c, s, facts).missed == 0
  {
    CoveredMeansFaithful(c, s, facts);
    LiveFits(AllWritten(c, s, facts).memories, LastSaid(facts));
    LiveIs(AllWritten(c, s, facts).memories);
  }

  lemma {:induction false} DetectedFrom(c: Config, s: Store, facts: seq<Fact>)
    requires Ranks(c.rank) && Balanced(s, 0, 0)
    ensures var r := AllWritten(c, s, facts); r.detected == |facts| - LiveCount(r)
  {
    FactsBalance(c, s, facts, 0, 0);
  }

  /** So the conflicts it detects are the facts that told a slot something again. */
  lemma {:induction false} CoveredConflicts(c: Config, s: Store, facts: seq<Fact>)
    requires Ranks(c.rank) && Unused(s) && AlikeInSlot(c, facts) && |LastSaid(facts)| <= c.topK
    ensures AllWritten(c, s, facts).detected == |facts| - |LastSaid(facts)|
    ensures AllWritten(c, s, facts).missed == 0
  {
    CoveredLive(c, s, facts);
    DetectedFrom(c, s, facts);
  }
}
