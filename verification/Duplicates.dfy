/** How many live claims repeat another's value. */
module Duplicates {
  import opened Prelude

  datatype Claim = Claim(subject: string, predicate_: string, obj: string)

  /** A claim's place, after case, spacing and edge punctuation are ignored. */
  datatype Slot = Slot(subject: string, predicate_: string, value: string)

  datatype Pair = Pair(subject: string, value: string)

  /** `_norm`, which may be any function. */
  type Norm = string -> string

  function SlotOf(norm: Norm, c: Claim): Slot {
    Slot(norm(c.subject), norm(c.predicate_), norm(c.obj))
  }

  function PairOf(slot: Slot): Pair {
    Pair(slot.subject, slot.value)
  }

  function Slots(norm: Norm, claims: seq<Claim>): set<Slot> {
    set c | c in claims :: SlotOf(norm, c)
  }

  function Pairs(norm: Norm, claims: seq<Claim>): set<Pair> {
    set c | c in claims :: PairOf(SlotOf(norm, c))
  }

  function InSlot(norm: Norm, slot: Slot): Claim -> bool {
    (c: Claim) => SlotOf(norm, c) == slot
  }

  function InSlots(norm: Norm, done: set<Slot>): Claim -> bool {
    (c: Claim) => SlotOf(norm, c) in done
  }

  lemma {:induction false} SlotsNext(norm: Norm, claims: seq<Claim>, i: nat)
    requires i < |claims|
    ensures Slots(norm, claims[..i + 1]) == Slots(norm, claims[..i]) + {SlotOf(norm, claims[i])}
    ensures forall slot :: Count(InSlot(norm, slot), claims[..i + 1])
                           == Count(InSlot(norm, slot), claims[..i]) + if SlotOf(norm, claims[i]) == slot then 1 else 0
  {
    assert claims[..i + 1] == claims[..i] + [claims[i]];
    forall slot
      ensures Count(InSlot(norm, slot), claims[..i + 1])
              == Count(InSlot(norm, slot), claims[..i]) + if SlotOf(norm, claims[i]) == slot then 1 else 0
    {
      CountAppend(InSlot(norm, slot), claims[..i], [claims[i]]);
    }
  }

  /** The counter of the claims, slot by slot. */
  ghost predicate Counted(norm: Norm, claims: seq<Claim>, slots: map<Slot, nat>) {
    && slots.Keys == Slots(norm, claims)
    && forall slot :: slot in slots ==> slots[slot] == Count(InSlot(norm, slot), claims)
  }

  lemma {:induction false} NotCounted(norm: Norm, claims: seq<Claim>, slot: Slot)
    requires slot !in Slots(norm, claims)
    ensures Count(InSlot(norm, slot), claims) == 0
  {
    CountNone(InSlot(norm, slot), claims);
  }

  method CountSlots(norm: Norm, claims: seq<Claim>) returns (slots: map<Slot, nat>)
    ensures Counted(norm, claims, slots)
  {
    slots := map[];
    for i := 0 to |claims|
      invariant Counted(norm, claims[..i], slots)
    {
      var slot := SlotOf(norm, claims[i]);
      SlotsNext(norm, claims, i);
      if slot !in slots {
        NotCounted(norm, claims[..i], slot);
      }
      slots := slots[slot := (if slot in slots then slots[slot] else 0) + 1];
    }
    assert claims[..|claims|] == claims;
  }

  lemma {:induction false} OneSlotMore(norm: Norm, claims: seq<Claim>, done: set<Slot>, slot: Slot)
    requires slot !in done
    ensures Count(InSlots(norm, done + {slot}), claims) == Count(InSlots(norm, done), claims) + Count(InSlot(norm, slot), claims)
  {
    if claims == [] {
    } else {
      OneSlotMore(norm, claims[1..], done, slot);
    }
  }

  /** One more element done of a set taken element by element. */
  lemma {:induction false} OneMoreDone<T>(all: set<T>, left: set<T>, x: T)
    requires left <= all && x in left
    ensures all - (left - {x}) == (all - left) + {x} && |(all - left) + {x}| == |all - left| + 1
  {
  }

  lemma {:induction false} NoneOrAll(norm: Norm, claims: seq<Claim>)
    ensures Count(InSlots(norm, {}), claims) == 0
    ensures Count(InSlots(norm, Slots(norm, claims)), claims) == |claims|
  {
    CountNone(InSlots(norm, {}), claims);
    CountAll(InSlots(norm, Slots(norm, claims)), claims);
  }

  /** `extra` counts the claims of the slots in `done`, beyond one a slot. */
  ghost predicate Copies(norm: Norm, claims: seq<Claim>, done: set<Slot>, extra: int) {
    extra == Count(InSlots(norm, done), claims) - |done|
  }

  lemma {:induction false} CopiesNext(norm: Norm, claims: seq<Claim>, slots: map<Slot, nat>, left: set<Slot>, slot: Slot, extra: int)
    requires left <= slots.Keys && slot in left && slots[slot] == Count(InSlot(norm, slot), claims)
    ensures Copies(norm, claims, slots.Keys - left, extra) ==> Copies(norm, claims, slots.Keys - (left - {slot}), extra + slots[slot] - 1)
  {
    OneSlotMore(norm, claims, slots.Keys - left, slot);
    OneMoreDone(slots.Keys, left, slot);
  }

  lemma {:induction false} CopiesAtEnds(norm: Norm, claims: seq<Claim>, slots: set<Slot>, extra: int)
    requires slots == Slots(norm, claims)
    ensures Copies(norm, claims, slots - slots, 0)
    ensures Copies(norm, claims, slots - {}, extra) ==> extra == |claims| - |slots|
  {
    NoneOrAll(norm, claims);
    assert slots - slots == {} && slots - {} == slots;
  }

  /** `sum(n - 1 for n in slots.values())` */
  method ExtraCopies(norm: Norm, claims: seq<Claim>, slots: map<Slot, nat>) returns (extra: int)
    requires Counted(norm, claims, slots)
    ensures extra == |claims| - |Slots(norm, claims)|
  {
    extra := 0;
    var left := slots.Keys;
    CopiesAtEnds(norm, claims, slots.Keys, 0);
    while left != {}
      invariant left <= slots.Keys && Copies(norm, claims, slots.Keys - left, extra)
      decreases |left|
    {
      var slot :| slot in left;
      CopiesNext(norm, claims, slots, left, slot, extra);
      extra := extra + slots[slot] - 1;
      left := left - {slot};
    }
    CopiesAtEnds(norm, claims, slots.Keys, extra);
  }

  /** The predicates under which a subject holds a value. */
  function PredicatesAt(slots: set<Slot>, pair: Pair): (names: set<string>) {
    set slot | slot in slots && PairOf(slot) == pair :: slot.predicate_
  }

  function SlotsAt(slots: set<Slot>, pairs: set<Pair>): (r: set<Slot>) {
    set slot | slot in slots && PairOf(slot) in pairs
  }

  ghost predicate Grouped(slots: set<Slot>, predicates: map<Pair, set<string>>) {
    && predicates.Keys == (set slot | slot in slots :: PairOf(slot))
    && forall pair :: pair in predicates ==> predicates[pair] == PredicatesAt(slots, pair)
  }

  method GroupPredicates(slots: set<Slot>) returns (predicates: map<Pair, set<string>>)
    ensures Grouped(slots, predicates)
  {
    predicates := map[];
    var left := slots;
    while left != {}
      invariant left <= slots && Grouped(slots - left, predicates)
      decreases |left|
    {
      var slot :| slot in left;
      var pair := PairOf(slot);
      GroupNext(slots - left, predicates, slot);
      OneMoreDone(slots, left, slot);
      predicates := predicates[pair := (if pair in predicates then predicates[pair] else {}) + {slot.predicate_}];
      left := left - {slot};
    }
    assert slots - left == slots;
  }

  lemma {:induction false} GroupNext(done: set<Slot>, predicates: map<Pair, set<string>>, slot: Slot)
    requires Grouped(done, predicates)
    ensures var pair := PairOf(slot);
            Grouped(done + {slot}, predicates[pair := (if pair in predicates then predicates[pair] else {}) + {slot.predicate_}])
  {
  }

  lemma {:induction false} PredicatesAre(slots: set<Slot>, pair: Pair)
    ensures forall name :: name in PredicatesAt(slots, pair) <==> Slot(pair.subject, name, pair.value) in slots
  {
  }

  lemma {:induction false} PredicateAway(slots: set<Slot>, slot: Slot)
    requires slot in slots
    ensures |PredicatesAt(slots, PairOf(slot))| == |PredicatesAt(slots - {slot}, PairOf(slot))| + 1
  {
    var pair, fewer := PairOf(slot), slots - {slot};
    PredicatesAre(slots, pair);
    PredicatesAre(fewer, pair);
    assert slot == Slot(pair.subject, slot.predicate_, pair.value);
    assert PredicatesAt(slots, pair) == PredicatesAt(fewer, pair) + {slot.predicate_};
  }

  lemma {:induction false} SlotAway(slots: set<Slot>, slot: Slot)
    requires slot in slots
    ensures |SlotsAt(slots, {PairOf(slot)})| == |SlotsAt(slots - {slot}, {PairOf(slot)})| + 1
  {
    assert SlotsAt(slots, {PairOf(slot)}) == SlotsAt(slots - {slot}, {PairOf(slot)}) + {slot};
  }

  /** A slot is its pair and its predicate. */
  lemma {:induction false} OnePredicateASlot(slots: set<Slot>, pair: Pair)
    ensures |PredicatesAt(slots, pair)| == |SlotsAt(slots, {pair})|
    decreases |slots|
  {
    if slot :| slot in slots && PairOf(slot) == pair {
      OnePredicateASlot(slots - {slot}, pair);
      PredicateAway(slots, slot);
      SlotAway(slots, slot);
    } else {
      assert PredicatesAt(slots, pair) == {} && SlotsAt(slots, {pair}) == {};
    }
  }

  lemma {:induction false} OnePairMore(slots: set<Slot>, done: set<Pair>, pair: Pair)
    requires pair !in done
    ensures |SlotsAt(slots, done + {pair})| == |SlotsAt(slots, done)| + |PredicatesAt(slots, pair)|
  {
    OnePredicateASlot(slots, pair);
    assert SlotsAt(slots, done + {pair}) == SlotsAt(slots, done) + SlotsAt(slots, {pair});
    assert SlotsAt(slots, done) !! SlotsAt(slots, {pair});
  }

  /** `sum(len(p) - 1 for p in predicates.values())` */
  method ExtraPredicates(slots: set<Slot>, predicates: map<Pair, set<string>>) returns (extra: int)
    requires Grouped(slots, predicates)
    ensures extra == |slots| - |predicates|
  {
    extra := 0;
    var left := predicates.Keys;
    assert SlotsAt(slots, predicates.Keys - left) == {};
    while left != {}
      invariant left <= predicates.Keys
      invariant extra == |SlotsAt(slots, predicates.Keys - left)| - |predicates.Keys - left|
      decreases |left|
    {
      var pair :| pair in left;
      OnePairMore(slots, predicates.Keys - left, pair);
      OneMoreDone(predicates.Keys, left, pair);
      extra := extra + |predicates[pair]| - 1;
      left := left - {pair};
    }
    assert predicates.Keys - left == predicates.Keys;
    assert SlotsAt(slots, predicates.Keys) == slots;
  }

  /** Copies in the same slot, and further predicates of the same value. Whatever the order
      of the claims, the copies are the claims beyond one a slot, and both together are the
      claims beyond one a subject and value. */
  method CountDuplicates(norm: Norm, claims: seq<Claim>) returns (sameSlot: int, other: int)
    ensures sameSlot == |claims| - |Slots(norm, claims)|
    ensures sameSlot + other == |claims| - |Pairs(norm, claims)|
    ensures sameSlot >= 0 && other >= 0
  {
    var slots := CountSlots(norm, claims);
    sameSlot := ExtraCopies(norm, claims, slots);
    var predicates := GroupPredicates(slots.Keys);
    other := ExtraPredicates(slots.Keys, predicates);
    assert predicates.Keys == Pairs(norm, claims) by {
      assert forall c :: c in claims ==> SlotOf(norm, c) in slots.Keys;
    }
    SlotsFit(norm, claims);
    PairsFit(slots.Keys);
    assert predicates.Keys == set slot | slot in slots.Keys :: PairOf(slot);
  }

  lemma {:induction false} SlotsFit(norm: Norm, claims: seq<Claim>)
    ensures |Slots(norm, claims)| <= |claims|
  {
    if claims == [] {
    } else {
      var n := |claims| - 1;
      SlotsFit(norm, claims[..n]);
      SlotsNext(norm, claims, n);
      assert claims[..n + 1] == claims;
    }
  }

  lemma {:induction false} PairsFit(slots: set<Slot>)
    ensures |set slot | slot in slots :: PairOf(slot)| <= |slots|
  {
    if slots == {} {
    } else {
      var slot :| slot in slots;
      PairsFit(slots - {slot});
      assert (set s | s in slots :: PairOf(s)) == (set s | s in slots - {slot} :: PairOf(s)) + {PairOf(slot)};
    }
  }

  /** The two counts do not depend on the order of the claims. */
  lemma {:induction false} OrderDoesNotCount(norm: Norm, a: seq<Claim>, b: seq<Claim>)
    requires multiset(a) == multiset(b)
    ensures |a| == |b| && Slots(norm, a) == Slots(norm, b) && Pairs(norm, a) == Pairs(norm, b)
  {
    assert |a| == |multiset(a)| && |b| == |multiset(b)|;
    assert forall c :: c in a <==> c in multiset(a);
    assert forall c :: c in b <==> c in multiset(b);
  }

  /** Two claims are copies when subject, predicate and value agree once normalized, and hold
      the same value when subject and value do. */
  lemma {:induction false} SameSlotIff(norm: Norm, a: Claim, b: Claim)
    ensures SlotOf(norm, a) == SlotOf(norm, b)
            <==> norm(a.subject) == norm(b.subject) && norm(a.predicate_) == norm(b.predicate_) && norm(a.obj) == norm(b.obj)
    ensures PairOf(SlotOf(norm, a)) == PairOf(SlotOf(norm, b))
            <==> norm(a.subject) == norm(b.subject) && norm(a.obj) == norm(b.obj)
  {
  }
}
