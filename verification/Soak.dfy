/**
 The soak workload: a random machine that talks about a cast it made up. What it emits has
 to agree with what it said before, because the detectors read the turns as ground truth.
 */
module Soak {
  import opened Prelude
  import opened Sorting
  import opened Names
  import opened MadeUp

  const PEOPLE := 16
  const CITIES := 12
  const COMPANIES := 8
  const PANEL := 8
  const FAVOURITES := 4
  const MIN_TURNS := 100
  const INTRODUCTIONS := PEOPLE + PANEL + 3 + FAVOURITES + 5

  datatype Slot = LivesIn | WorksAt | WorkingOn | Likes

  datatype Spelling = AsWritten | WithAlways | WithoutArticle

  /** What one turn does: a direct write, something the user says, or a read. */
  datatype Op =
    | Remember(subject: string, slot: Slot, value: string)
    | Prefer(which: nat, spelling: Spelling)
    | NameIs(name: string)
    | LiveIn(city: string)
    | WorkAt(company: string)
    | Like(item: string)
    | NoLongerLike(item: string)
    | PersonalData(at: nat)
    | OtherScript
    | Filler
    | Probe(person: string, gold: string)
    | PanelRead
    | Recall

  datatype Turn = Turn(index: nat, op: Op)

  /** What a run makes up once, before its first turn. */
  datatype Cast = Cast(
    people: seq<string>,
    cities: seq<string>,
    companies: seq<string>,
    panel: seq<string>,
    topics: map<string, string>,
    heavy: map<string, string>,
    name: string,
    favourites: seq<string>)
  {
    ghost predicate Valid() {
      && |people| == PEOPLE && |cities| == CITIES && |companies| == COMPANIES && |panel| == PANEL
      && |favourites| == FAVOURITES
      && Distinct(people) && Distinct(cities) && Distinct(companies) && Distinct(panel) && Distinct(favourites)
      && topics.Keys == Elements(panel) && heavy.Keys == Elements(people)
    }

    /** Every name and word made up before the first turn, in the order in which it was drawn. */
    ghost function Names(): seq<string>
      requires Valid()
    {
      people + cities + companies + panel + (Values(topics, panel) + Values(heavy, people)) + ([name] + favourites)
    }

    /** Every person's city is told, in order, and then the panel's first values. */
    ghost predicate OpensOn(said: seq<Turn>)
      requires Valid()
    {
      && |said| >= PEOPLE + PANEL
      && (forall k: nat :: k < PEOPLE ==> Says(said[k].op, people[k], LivesIn))
      && forall k: nat :: k < PANEL ==> said[PEOPLE + k].op == Remember(panel[k], WorkingOn, Values(topics, panel)[k])
    }

    /** Then the user's name, home and job, the favourites, one like and its retraction, the
        planted personal data, and one preference in two spellings. */
    ghost predicate IntroducesOn(said: seq<Turn>)
      requires Valid()
    {
      && OpensOn(said) && |said| >= INTRODUCTIONS
      && said[24].op == NameIs(name) && said[25].op.LiveIn? && said[26].op.WorkAt?
      && (forall i: nat :: i < FAVOURITES ==> said[27 + i].op == Like(favourites[i]))
      && said[31].op.Like? && said[31].op.item !in favourites && said[32].op == NoLongerLike(said[31].op.item)
      && said[33].op == PersonalData(33) && said[34].op == Prefer(0, AsWritten) && said[35].op == Prefer(0, WithAlways)
    }

    /** The half of the panel that restates one value. */
    function Steady(): seq<string>
      requires |panel| == PANEL
    {
      panel[..PANEL / 2]
    }

    function Churning(): seq<string>
      requires |panel| == PANEL
    {
      panel[PANEL / 2..]
    }
  }

  lemma {:induction false} CapitalsAppend(a: seq<string>, b: seq<string>)
    ensures Capitals(a + b) == Capitals(a) + Capitals(b)
  {
  }

  /** Capital letters leave the words of a run as different as they were drawn. */
  lemma {:induction false} NamesDiffer(proper: seq<string>, common: seq<string>, name: string, favourites: seq<string>)
    requires Distinct(proper + common + ([name] + favourites))
    requires forall w :: w in proper + common + ([name] + favourites) ==> LowerCase(w) && w != ""
    ensures Distinct(Capitals(proper) + common + ([Capitalized(name)] + favourites))
  {
    var capital := (i: nat) => i < |proper| || i == |proper| + |common|;
    SpellingKeepsDistinct(proper + common + ([name] + favourites), capital);
    assert Capitals(proper) + common + ([Capitalized(name)] + favourites) == Spelt(proper + common + ([name] + favourites), capital);
  }

  // ---- what a history says -----------------------------------------------------------

  predicate Says(op: Op, who: string, slot: Slot) {
    op.Remember? && op.subject == who && op.slot == slot
  }

  /** The value last remembered of a subject. */
  function LastSaid(said: seq<Turn>, who: string, slot: Slot): (value: Option<string>) {
    if said == [] then None
    else
      var op := said[|said| - 1].op;
      if Says(op, who, slot) then Some(op.value) else LastSaid(said[..|said| - 1], who, slot)
  }

  /** The user said they like it, and has not taken it back since. */
  predicate StillLiked(said: seq<Turn>, item: string) {
    if said == [] then false
    else
      var op := said[|said| - 1].op;
      op == Like(item) || (op != NoLongerLike(item) && StillLiked(said[..|said| - 1], item))
  }

  predicate EverSaid(said: seq<Turn>, op: Op) {
    exists i :: 0 <= i < |said| && said[i].op == op
  }

  /** The made-up words a turn shows as values. */
  function WordsOf(op: Op): set<string> {
    match op
    case Remember(_, slot, value) => if slot == WorkingOn || slot == Likes then {value} else {}
    case Like(item) => {item}
    case NoLongerLike(item) => {item}
    case _ => {}
  }

  ghost predicate NeverShown(said: seq<Turn>, word: string) {
    forall i :: 0 <= i < |said| ==> word !in WordsOf(said[i].op)
  }

  /** What a direct write has to agree with. */
  ghost predicate FactAgrees(cast: Cast, said: seq<Turn>, who: string, slot: Slot, value: string)
    requires cast.Valid()
  {
    match slot
    case LivesIn => who in cast.people && value in cast.cities && LastSaid(said, who, LivesIn) != Some(value)
    case WorksAt => who in cast.people && value in cast.companies && LastSaid(said, who, WorksAt) != Some(value)
    case WorkingOn =>
      && who in cast.panel
      && (who in cast.Steady() ==> LastSaid(said, who, WorkingOn) in {None, Some(value)})
      && (who in cast.Churning() ==> !EverSaid(said, Remember(who, WorkingOn, value)))
    case Likes => who in cast.people && (value == cast.heavy[who] || NeverShown(said, value))
  }

  /** A turn agrees with everything said before it. */
  ghost predicate Agrees(cast: Cast, said: seq<Turn>, op: Op)
    requires cast.Valid()
  {
    match op
    case Remember(who, slot, value) => FactAgrees(cast, said, who, slot, value)
    case Like(item) => item in cast.favourites || NeverShown(said, item)
    case NoLongerLike(item) => item !in cast.favourites && StillLiked(said, item)
    case Probe(person, gold) => person in cast.people && LastSaid(said, person, LivesIn) == Some(gold)
    case NameIs(name) => name == cast.name
    case LiveIn(city) => city in cast.cities
    case WorkAt(company) => company in cast.companies
    case PersonalData(at) => at == |said|
    case Prefer(which, _) => which < 3
    case _ => true
  }

  ghost predicate AgreesAt(cast: Cast, said: seq<Turn>, i: nat)
    requires cast.Valid() && i < |said|
  {
    said[i].index == i && Agrees(cast, said[..i], said[i].op)
  }

  /** Every turn of the history agrees with the turns before it, and is numbered. */
  ghost predicate Consistent(cast: Cast, said: seq<Turn>)
    requires cast.Valid()
  {
    forall i: nat :: i < |said| ==> AgreesAt(cast, said, i)
  }

  // ---- adding a turn to a history ----------------------------------------------------

  lemma {:induction false} ConsistentNext(cast: Cast, said: seq<Turn>, op: Op)
    requires cast.Valid() && Consistent(cast, said) && Agrees(cast, said, op)
    ensures Consistent(cast, said + [Turn(|said|, op)])
  {
    var more := said + [Turn(|said|, op)];
    forall i: nat | i < |more| ensures AgreesAt(cast, more, i) {
      if i < |said| {
        assert AgreesAt(cast, said, i) && more[..i] == said[..i];
      } else {
        assert more[..i] == said;
      }
    }
  }

  lemma {:induction false} LastSaidNext(said: seq<Turn>, t: Turn, who: string, slot: Slot)
    ensures LastSaid(said + [t], who, slot) == if Says(t.op, who, slot) then Some(t.op.value) else LastSaid(said, who, slot)
  {
  }

  lemma {:induction false} StillLikedNext(said: seq<Turn>, t: Turn, item: string)
    ensures StillLiked(said + [t], item) <==> t.op == Like(item) || (t.op != NoLongerLike(item) && StillLiked(said, item))
  {
  }

  lemma {:induction false} NotSaidYet(said: seq<Turn>, who: string, slot: Slot)
    requires forall i :: 0 <= i < |said| ==> !Says(said[i].op, who, slot)
    ensures LastSaid(said, who, slot) == None
  {
    if said == [] {
    } else {
      NotSaidYet(said[..|said| - 1], who, slot);
    }
  }

  // ---- the state ---------------------------------------------------------------------

  /** What the machine remembers in order to choose its next turn, and what it has said. */
  datatype State = State(
    city: map<string, string>,
    employer: map<string, string>,
    workingOn: map<string, string>,
    oneOffs: seq<string>,
    used: set<string>,
    said: seq<Turn>)

  /** The dictionary of a slot holds what was last said, where anything was. */
  ghost predicate Matches(said: seq<Turn>, told: map<string, string>, slot: Slot) {
    forall who :: MatchesFor(said, told, slot, who)
  }

  ghost predicate MatchesFor(said: seq<Turn>, told: map<string, string>, slot: Slot, who: string) {
    who in told ==> LastSaid(said, who, slot) in {None, Some(told[who])}
  }

  ghost predicate OneOffsAreOpen(cast: Cast, said: seq<Turn>, oneOffs: seq<string>) {
    Distinct(oneOffs) && forall item :: item in oneOffs ==> StillLiked(said, item) && item !in cast.favourites
  }

  ghost predicate WordsAreUsed(said: seq<Turn>, used: set<string>) {
    forall i: nat :: i < |said| ==> WordsUsedAt(said, i, used)
  }

  ghost predicate WordsUsedAt(said: seq<Turn>, i: nat, used: set<string>)
    requires i < |said|
  {
    WordsOf(said[i].op) <= used
  }

  lemma {:induction false} WordsUsedNext(said: seq<Turn>, op: Op, used: set<string>, more: set<string>)
    requires WordsAreUsed(said, used) && used <= more && WordsOf(op) <= more
    ensures WordsAreUsed(said + [Turn(|said|, op)], more)
  {
    forall i: nat | i < |said| + 1 ensures WordsUsedAt(said + [Turn(|said|, op)], i, more) {
      assert i < |said| ==> WordsUsedAt(said, i, used);
    }
  }

  ghost predicate Keyed(cast: Cast, s: State) {
    && s.city.Keys == s.employer.Keys == Elements(cast.people)
    && s.workingOn.Keys == Elements(cast.panel)
    && (forall who :: who in s.city ==> s.city[who] in cast.cities)
    && (forall who :: who in s.employer ==> s.employer[who] in cast.companies)
  }

  ghost predicate NamedIsUsed(cast: Cast, s: State) {
    && Elements(cast.favourites) <= s.used && Elements(s.oneOffs) <= s.used
    && (forall who :: who in cast.heavy ==> cast.heavy[who] in s.used)
    && (forall who :: who in s.workingOn ==> s.workingOn[who] in s.used)
  }

  ghost predicate Good(cast: Cast, s: State) {
    && cast.Valid() && Consistent(cast, s.said) && Keyed(cast, s) && NamedIsUsed(cast, s)
    && Matches(s.said, s.city, LivesIn) && Matches(s.said, s.employer, WorksAt) && Matches(s.said, s.workingOn, WorkingOn)
    && OneOffsAreOpen(cast, s.said, s.oneOffs)
    && WordsAreUsed(s.said, s.used)
  }

  function Updated(told: map<string, string>, op: Op, slot: Slot): map<string, string> {
    if op.Remember? && op.slot == slot then told[op.subject := op.value] else told
  }

  ghost predicate OneOffsAfter(cast: Cast, before: seq<string>, op: Op, after: seq<string>) {
    Distinct(after) &&
    forall item :: item in after ==>
      (item in before && op != NoLongerLike(item)) || (op == Like(item) && item !in cast.favourites)
  }

  /** The machine says `op`, and changes its mind only by what it says. */
  ghost predicate Emits(cast: Cast, s: State, op: Op, t: State) {
    && t.said == s.said + [Turn(|s.said|, op)]
    && t.city == Updated(s.city, op, LivesIn)
    && t.employer == Updated(s.employer, op, WorksAt)
    && t.workingOn == Updated(s.workingOn, op, WorkingOn)
    && OneOffsAfter(cast, s.oneOffs, op, t.oneOffs)
    && s.used <= t.used && WordsOf(op) <= t.used
  }

  lemma {:induction false} MatchesNext(said: seq<Turn>, told: map<string, string>, slot: Slot, op: Op)
    requires Matches(said, told, slot)
    ensures Matches(said + [Turn(|said|, op)], Updated(told, op, slot), slot)
  {
    forall who ensures MatchesFor(said + [Turn(|said|, op)], Updated(told, op, slot), slot, who) {
      assert MatchesFor(said, told, slot, who);
      LastSaidNext(said, Turn(|said|, op), who, slot);
    }
  }

  lemma {:induction false} OneOffsNext(cast: Cast, said: seq<Turn>, before: seq<string>, op: Op, after: seq<string>)
    requires OneOffsAreOpen(cast, said, before) && OneOffsAfter(cast, before, op, after)
    ensures OneOffsAreOpen(cast, said + [Turn(|said|, op)], after)
  {
  }

  lemma {:induction false} KeyedNext(cast: Cast, s: State, op: Op, t: State)
    requires cast.Valid() && Keyed(cast, s) && Agrees(cast, s.said, op) && Emits(cast, s, op, t)
    ensures Keyed(cast, t)
  {
    assert t.city.Keys == s.city.Keys && t.employer.Keys == s.employer.Keys && t.workingOn.Keys == s.workingOn.Keys;
  }

  lemma {:induction false} NamedNext(cast: Cast, s: State, op: Op, t: State)
    requires cast.Valid() && NamedIsUsed(cast, s) && Emits(cast, s, op, t)
    ensures NamedIsUsed(cast, t)
  {
  }

  /** Saying something that agrees with the past keeps everything the machine relies on. */
  lemma {:induction false} GoodNext(cast: Cast, s: State, op: Op, t: State)
    requires Good(cast, s) && Agrees(cast, s.said, op) && Emits(cast, s, op, t)
    ensures Good(cast, t)
  {
    ConsistentNext(cast, s.said, op);
    KeyedNext(cast, s, op, t);
    NamedNext(cast, s, op, t);
    MatchesNext(s.said, s.city, LivesIn, op);
    MatchesNext(s.said, s.employer, WorksAt, op);
    MatchesNext(s.said, s.workingOn, WorkingOn, op);
    OneOffsNext(cast, s.said, s.oneOffs, op, t.oneOffs);
    WordsUsedNext(s.said, op, s.used, t.used);
  }

  /** A new word was never shown, so nothing was said of it. */
  lemma {:induction false} NewWordIsUnseen(said: seq<Turn>, used: set<string>, word: string)
    requires WordsAreUsed(said, used) && word !in used
    ensures NeverShown(said, word)
  {
    forall i | 0 <= i < |said| ensures word !in WordsOf(said[i].op) {
      assert WordsUsedAt(said, i, used);
    }
  }

  lemma {:induction false} SteadyOrChurning(cast: Cast, who: string)
    requires cast.Valid()
    ensures !(who in cast.Steady() && who in cast.Churning())
    ensures who in cast.panel <==> who in cast.Steady() || who in cast.Churning()
  {
  }

  /** The state once `op` has been said, apart from the one-off likes. */
  function Spoken(s: State, op: Op): State {
    s.(city := Updated(s.city, op, LivesIn), employer := Updated(s.employer, op, WorksAt),
       workingOn := Updated(s.workingOn, op, WorkingOn), said := s.said + [Turn(|s.said|, op)])
  }

  lemma {:induction false} SpokenIsGood(cast: Cast, s: State, op: Op)
    requires Good(cast, s) && Agrees(cast, s.said, op) && WordsOf(op) <= s.used && !op.NoLongerLike?
    ensures Good(cast, Spoken(s, op))
  {
    GoodNext(cast, s, op, Spoken(s, op));
  }

  /** A fact the state already holds may be said again. */
  lemma {:induction false} RestatedIsSpoken(s: State, who: string)
    requires who in s.workingOn
    ensures Spoken(s, Remember(who, WorkingOn, s.workingOn[who])) == s.(said := s.said + [Turn(|s.said|, Remember(who, WorkingOn, s.workingOn[who]))])
  {
  }

  lemma {:induction false} MoveAgrees(cast: Cast, s: State, who: string, home: string)
    requires Good(cast, s) && who in cast.people && home in cast.cities
    ensures who in s.city
    ensures home != s.city[who] ==> Good(cast, Spoken(s, Remember(who, LivesIn, home)))
  {
    assert who in Elements(cast.people) && MatchesFor(s.said, s.city, LivesIn, who);
    if home != s.city[who] {
      SpokenIsGood(cast, s, Remember(who, LivesIn, home));
    }
  }

  lemma {:induction false} JobAgrees(cast: Cast, s: State, who: string, company: string)
    requires Good(cast, s) && who in cast.people && company in cast.companies
    ensures who in s.employer
    ensures company != s.employer[who] ==> Good(cast, Spoken(s, Remember(who, WorksAt, company)))
  {
    assert who in Elements(cast.people) && MatchesFor(s.said, s.employer, WorksAt, who);
    if company != s.employer[who] {
      SpokenIsGood(cast, s, Remember(who, WorksAt, company));
    }
  }

  lemma {:induction false} SteadyAgrees(cast: Cast, s: State, who: string)
    requires Good(cast, s) && who in cast.Steady()
    ensures who in s.workingOn && s.workingOn[who] in s.used
    ensures Agrees(cast, s.said, Remember(who, WorkingOn, s.workingOn[who]))
  {
    SteadyOrChurning(cast, who);
    assert who in Elements(cast.panel) && MatchesFor(s.said, s.workingOn, WorkingOn, who);
  }

  lemma {:induction false} TopicAgrees(cast: Cast, s: State, who: string, topic: string)
    requires Good(cast, s) && who in cast.Churning() && NeverShown(s.said, topic)
    ensures Agrees(cast, s.said, Remember(who, WorkingOn, topic))
  {
  }

  lemma {:induction false} ProbeAgrees(cast: Cast, s: State, who: string)
    requires Good(cast, s) && Introduced(cast, s.said) && who in cast.people
    ensures who in s.city && Agrees(cast, s.said, Probe(who, s.city[who]))
  {
    assert who in Elements(cast.people) && MatchesFor(s.said, s.city, LivesIn, who);
  }

  lemma {:induction false} HabitAgrees(cast: Cast, s: State, who: string)
    requires Good(cast, s) && who in cast.people
    ensures who in cast.heavy && cast.heavy[who] in s.used && Agrees(cast, s.said, Remember(who, Likes, cast.heavy[who]))
  {
  }

  /** Taking back the one-off like at `i`. */
  function TakenBack(s: State, i: nat): State
    requires i < |s.oneOffs|
  {
    s.(oneOffs := Without(s.oneOffs, i), said := s.said + [Turn(|s.said|, NoLongerLike(s.oneOffs[i]))])
  }

  lemma {:induction false} TakenBackIsGood(cast: Cast, s: State, i: nat)
    requires Good(cast, s) && i < |s.oneOffs|
    ensures Good(cast, TakenBack(s, i))
  {
    var op := NoLongerLike(s.oneOffs[i]);
    assert s.oneOffs[i] in s.oneOffs && s.oneOffs[i] in Elements(s.oneOffs);
    assert OneOffsAfter(cast, s.oneOffs, op, Without(s.oneOffs, i));
    GoodNext(cast, s, op, TakenBack(s, i));
  }

  /** Liking something nobody mentioned before. */
  function NewlyLiked(s: State, item: string): State {
    s.(oneOffs := s.oneOffs + [item], used := s.used + {item}, said := s.said + [Turn(|s.said|, Like(item))])
  }

  lemma {:induction false} NewlyLikedIsGood(cast: Cast, s: State, item: string)
    requires Good(cast, s) && item !in s.used
    ensures Good(cast, NewlyLiked(s, item)) && item !in cast.favourites
  {
    NewWordIsUnseen(s.said, s.used, item);
    assert item !in Elements(cast.favourites) && item !in Elements(s.oneOffs);
    DistinctSnoc(s.oneOffs, item);
    GoodNext(cast, s, Like(item), NewlyLiked(s, item));
  }

  lemma {:induction false} MoreUsedIsGood(cast: Cast, s: State, word: string)
    requires Good(cast, s)
    ensures Good(cast, s.(used := s.used + {word}))
  {
    forall i: nat | i < |s.said| ensures WordsUsedAt(s.said, i, s.used + {word}) {
      assert WordsUsedAt(s.said, i, s.used);
    }
  }

  /** Every person's city has been told, so that a probe has an answer. */
  ghost predicate Introduced(cast: Cast, said: seq<Turn>) {
    forall who :: who in cast.people ==> LastSaid(said, who, LivesIn).Some?
  }

  lemma {:induction false} StaysIntroduced(cast: Cast, said: seq<Turn>, t: Turn)
    requires Introduced(cast, said)
    ensures Introduced(cast, said + [t])
  {
  }

  // ---- the machine -------------------------------------------------------------------

  /** `rng.choice`. */
  method Choice<T>(items: seq<T>) returns (item: T)
    requires items != []
    ensures item in items
  {
    var i: nat :| i < |items|;
    item := items[i];
  }

  method Assign(keys: seq<string>, values: seq<string>) returns (dict: map<string, string>)
    requires values != []
    ensures dict.Keys == Elements(keys) && forall key :: key in dict ==> dict[key] in values
  {
    dict := map[];
    for n := 0 to |keys|
      invariant dict.Keys == Elements(keys[..n]) && forall key :: key in dict ==> dict[key] in values
    {
      var value := Choice(values);
      dict := dict[keys[n] := value];
      ElementsAppend(keys[..n], [keys[n]]);
      assert keys[..n + 1] == keys[..n] + [keys[n]];
    }
    assert keys[..|keys|] == keys;
  }

  /** Any of the others: there is one, because there are two different items. */
  method AnotherOf(items: seq<string>, current: string) returns (item: string)
    requires Distinct(items) && |items| >= 2
    ensures item in items && item != current
  {
    var isOther := (other: string) => other != current;
    InFilter(isOther, items);
    assert items[0] in Filter(isOther, items) || items[1] in Filter(isOther, items);
    item := Choice(Filter(isOther, items));
    assert item in Filter(isOther, items);
  }

  lemma {:induction false} IntroducedGrows(cast: Cast, said: seq<Turn>, more: seq<Turn>)
    requires Introduced(cast, said) && said <= more
    ensures Introduced(cast, more)
    decreases |more|
  {
    if said == more {
    } else {
      IntroducedGrows(cast, said, more[..|more| - 1]);
      assert more == more[..|more| - 1] + [more[|more| - 1]];
      StaysIntroduced(cast, more[..|more| - 1], more[|more| - 1]);
    }
  }

  // ---- introductions -----------------------------------------------------------------

  /** The opening facts: every person's city, then every panel value. */
  function Opening(cast: Cast, city: map<string, string>, workingOn: map<string, string>, k: nat): (op: Op)
    requires cast.Valid() && k < PEOPLE + PANEL
    requires city.Keys == Elements(cast.people) && workingOn.Keys == Elements(cast.panel)
  {
    if k < PEOPLE then
      assert cast.people[k] in Elements(cast.people);
      Remember(cast.people[k], LivesIn, city[cast.people[k]])
    else
      assert cast.panel[k - PEOPLE] in Elements(cast.panel);
      Remember(cast.panel[k - PEOPLE], WorkingOn, workingOn[cast.panel[k - PEOPLE]])
  }

  /** The first `n` turns are the opening facts. */
  ghost predicate Opens(cast: Cast, s: State, n: nat)
    requires cast.Valid() && Keyed(cast, s)
  {
    |s.said| == n <= PEOPLE + PANEL && forall k: nat :: k < n ==> OpensAt(cast, s, k)
  }

  ghost predicate OpensAt(cast: Cast, s: State, k: nat)
    requires cast.Valid() && Keyed(cast, s) && k < |s.said| && k < PEOPLE + PANEL
  {
    s.said[k].op == Opening(cast, s.city, s.workingOn, k)
  }

  /** Each opening fact is the first word on its subject. */
  lemma {:induction false} OpeningAgrees(cast: Cast, s: State, n: nat)
    requires Good(cast, s) && n < PEOPLE + PANEL && Opens(cast, s, n)
    ensures Agrees(cast, s.said, Opening(cast, s.city, s.workingOn, n))
    ensures Spoken(s, Opening(cast, s.city, s.workingOn, n)) == s.(said := s.said + [Turn(n, Opening(cast, s.city, s.workingOn, n))])
    ensures WordsOf(Opening(cast, s.city, s.workingOn, n)) <= s.used
  {
    var op := Opening(cast, s.city, s.workingOn, n);
    assert if op.slot == LivesIn then op.subject in s.city else op.subject in s.workingOn;
    forall k: nat | k < n ensures !Says(s.said[k].op, op.subject, op.slot) {
      assert OpensAt(cast, s, k);
    }
    NotSaidYet(s.said, op.subject, op.slot);
    assert s.city[op.subject := op.value] == s.city || op.slot == WorkingOn;
    assert s.workingOn[op.subject := op.value] == s.workingOn || op.slot == LivesIn;
    assert op.slot == WorkingOn ==> op.value in s.used;
  }

  lemma {:induction false} OpensNext(cast: Cast, s: State, n: nat)
    requires Good(cast, s) && n < PEOPLE + PANEL && Opens(cast, s, n)
    ensures Opens(cast, s.(said := s.said + [Turn(n, Opening(cast, s.city, s.workingOn, n))]), n + 1)
  {
    var t := s.(said := s.said + [Turn(n, Opening(cast, s.city, s.workingOn, n))]);
    forall k: nat | k < n + 1 ensures OpensAt(cast, t, k) {
      assert k < n ==> OpensAt(cast, s, k);
    }
  }

  lemma {:induction false} SaidAt(said: seq<Turn>, i: nat, who: string, slot: Slot)
    requires i < |said| && Says(said[i].op, who, slot)
    ensures LastSaid(said, who, slot).Some?
  {
    if i == |said| - 1 {
    } else {
      SaidAt(said[..|said| - 1], i, who, slot);
    }
  }

  lemma {:induction false} OpeningIntroduces(cast: Cast, s: State)
    requires Good(cast, s) && Opens(cast, s, PEOPLE + PANEL)
    ensures Introduced(cast, s.said)
  {
    forall who | who in cast.people ensures LastSaid(s.said, who, LivesIn).Some? {
      var k: nat :| k < PEOPLE && cast.people[k] == who;
      assert OpensAt(cast, s, k);
      SaidAt(s.said, k, who, LivesIn);
    }
  }

  lemma {:induction false} OpeningTopics(cast: Cast, s: State)
    requires Good(cast, s) && Opens(cast, s, PEOPLE + PANEL) && s.workingOn == cast.topics
    ensures cast.OpensOn(s.said)
  {
    forall k: nat | k < PEOPLE ensures Says(s.said[k].op, cast.people[k], LivesIn) {
      assert OpensAt(cast, s, k);
    }
    forall k: nat | k < PANEL ensures s.said[PEOPLE + k].op == Remember(cast.panel[k], WorkingOn, Values(cast.topics, cast.panel)[k]) {
      assert OpensAt(cast, s, PEOPLE + k);
    }
  }

  lemma {:induction false} OnceTakenBack(cast: Cast, s: State, once: string)
    requires Good(cast, s) && once in s.used && once !in s.oneOffs && once !in cast.favourites && StillLiked(s.said, once)
    ensures Good(cast, Spoken(s, NoLongerLike(once)))
  {
    GoodNext(cast, s, NoLongerLike(once), Spoken(s, NoLongerLike(once)));
  }

  lemma {:induction false} OnceIsNew(cast: Cast, s: State, once: string)
    requires Good(cast, s) && once !in s.used
    ensures Good(cast, s.(used := s.used + {once})) && NeverShown(s.said, once)
    ensures once !in s.oneOffs && once !in cast.favourites
  {
    MoreUsedIsGood(cast, s, once);
    NewWordIsUnseen(s.said, s.used, once);
    assert once !in Elements(s.oneOffs) && once !in Elements(cast.favourites);
  }

  datatype PersonKind = Moves | ChangesJob | HasHabit | HasNewHabit

  datatype TurnKind = InLatin | OfPerson | OfPanel | OfPreference | Asking | OnTheSide

  datatype LatinKind = Moving | Job | Favourite | OneOff | Retract | Name

  /** The names and words of a run, none of them twice. */
  method MakeCast(made: Words) returns (cast: Cast)
    requires made.Valid() && made.made == []
    modifies made
    ensures made.Valid() && cast.Valid() && Distinct(cast.Names())
    ensures Elements(cast.favourites) <= made.used
    ensures forall who :: who in cast.topics ==> cast.topics[who] in made.used
    ensures forall who :: who in cast.heavy ==> cast.heavy[who] in made.used
  {
    var people := made.Several(PEOPLE);
    var cities := made.Several(CITIES);
    var companies := made.Several(COMPANIES);
    var panel := made.Several(PANEL);
    CapitalsStayDistinct(people);
    CapitalsStayDistinct(cities);
    CapitalsStayDistinct(companies);
    CapitalsStayDistinct(panel);
    var topics := made.ForEach(Capitals(panel));
    var heavy := made.ForEach(Capitals(people));
    var name := made.New(3);
    var favourites := made.Several(FAVOURITES);
    cast := Cast(Capitals(people), Capitals(cities), Capitals(companies), Capitals(panel), topics, heavy, Capitalized(name), favourites);
    var proper, early, late := people + cities + companies + panel, Values(topics, cast.panel), Values(heavy, cast.people);
    Associate(proper, early, late);
    Associate(proper + (early + late), [name], favourites);
    assert [] + people == people;
    assert made.made == proper + early + late + [name] + favourites;
    NamesDiffer(proper, Values(topics, cast.panel) + Values(heavy, cast.people), name, favourites);
    CapitalsAppend(people, cities);
    CapitalsAppend(people + cities, companies);
    CapitalsAppend(people + cities + companies, panel);
  }

  class World {
    const cast: Cast
    const words: Words
    var city: map<string, string>
    var employer: map<string, string>
    var workingOn: map<string, string>
    /** The likes not yet taken back, oldest first. */
    var oneOffs: seq<string>
    var index: nat
    /** The turns yielded so far. */
    var said: seq<Turn>

    ghost function View(): State
      reads this, words
    {
      State(city, employer, workingOn, oneOffs, words.used, said)
    }

    ghost predicate Valid()
      reads this, words
    {
      words.Valid() && index == |said| && Good(cast, View())
    }

    constructor ()
      ensures Valid() && fresh(words) && said == [] && oneOffs == [] && workingOn == cast.topics
      ensures Distinct(cast.Names())
    {
      var made := new Words();
      var drawn := MakeCast(made);
      var homes := Assign(drawn.people, drawn.cities);
      var jobs := Assign(drawn.people, drawn.companies);
      words, cast := made, drawn;
      city, employer, workingOn, oneOffs, index, said := homes, jobs, drawn.topics, [], 0, [];
    }

    /** `_turn`: the next number goes with the turn. */
    method Number(op: Op) returns (turn: Turn)
      requires index == |said|
      modifies this`index, this`said
      ensures turn == Turn(old(index), op) && said == old(said) + [turn] && index == |said|
    {
      turn := Turn(index, op);
      said := said + [turn];
      index := index + 1;
    }

    /** A turn that leaves the machine's memory alone. */
    method Emit(op: Op) returns (turn: Turn)
      requires Valid() && Agrees(cast, said, op) && WordsOf(op) <= words.used && !op.NoLongerLike?
      requires Spoken(View(), op) == View().(said := said + [Turn(|said|, op)])
      modifies this`index, this`said
      ensures Valid() && View() == Spoken(old(View()), op) && turn == Turn(old(index), op)
    {
      SpokenIsGood(cast, View(), op);
      turn := Number(op);
    }

    method NewWord() returns (word: string)
      requires Valid()
      modifies words
      ensures Valid() && View() == old(View()).(used := old(words.used) + {word})
      ensures word !in old(words.used) && NeverShown(said, word)
    {
      word := words.New(3);
      NewWordIsUnseen(said, old(words.used), word);
      MoreUsedIsGood(cast, old(View()), word);
    }

    method TakeBack() returns (turn: Turn)
      requires Valid() && oneOffs != []
      modifies this
      ensures Valid() && exists i: nat :: i < |old(oneOffs)| && View() == TakenBack(old(View()), i)
      ensures said == old(said) + [turn] && turn.op.NoLongerLike? && turn.op.item in old(oneOffs)
    {
      var i: nat :| i < |oneOffs|;
      TakenBackIsGood(cast, View(), i);
      var item := oneOffs[i];
      oneOffs := Without(oneOffs, i);
      turn := Number(NoLongerLike(item));
      assert View() == TakenBack(old(View()), i) && turn.op.NoLongerLike?;
    }

    method NewLike() returns (turn: Turn)
      requires Valid()
      modifies this, words
      ensures Valid() && turn.op.Like? && turn.op.item !in old(words.used)
      ensures View() == NewlyLiked(old(View()), turn.op.item) && said == old(said) + [turn]
    {
      var item := words.New(3);
      NewlyLikedIsGood(cast, old(View()), item);
      oneOffs := oneOffs + [item];
      turn := Number(Like(item));
      assert View() == NewlyLiked(old(View()), item);
    }

    /** What the user says in Latin script. With nothing to take back, a favourite is
        restated instead. */
    method Latin() returns (kind: LatinKind, turn: Turn)
      requires Valid()
      modifies this, words
      ensures Valid() && said == old(said) + [turn]
      ensures match kind
              case Moving => turn.op.LiveIn?
              case Job => turn.op.WorkAt?
              case Name => turn.op == NameIs(cast.name)
              case Favourite => Restates(turn)
              case OneOff => turn.op.Like? && turn.op.item !in old(words.used)
              case Retract => if old(oneOffs) == [] then Restates(turn)
                              else turn.op.NoLongerLike? && turn.op.item in old(oneOffs)
      ensures match kind
              case OneOff => oneOffs == old(oneOffs) + [turn.op.item]
              case Retract => old(oneOffs) == [] || exists i: nat :: i < |old(oneOffs)| && oneOffs == Without(old(oneOffs), i)
              case _ => oneOffs == old(oneOffs)
    {
      kind := Choice([Moving, Job, Favourite, OneOff, Retract, Name]);
      if kind == Moving {
        var home := Choice(cast.cities);
        turn := Emit(LiveIn(home));
      } else if kind == Job {
        var company := Choice(cast.companies);
        turn := Emit(WorkAt(company));
      } else if kind == OneOff {
        turn := NewLike();
      } else if kind == Retract && oneOffs != [] {
        turn := TakeBack();
      } else if kind == Name {
        turn := Emit(NameIs(cast.name));
      } else {
        turn := Restate();
      }
    }

    /** The turn likes a favourite once more. */
    predicate Restates(turn: Turn) {
      turn.op.Like? && turn.op.item in cast.favourites
    }

    method Restate() returns (turn: Turn)
      requires Valid()
      modifies this`index, this`said
      ensures Valid() && View() == Spoken(old(View()), turn.op) && said == old(said) + [turn] && Restates(turn)
    {
      var favourite := Choice(cast.favourites);
      assert favourite in Elements(cast.favourites);
      turn := Emit(Like(favourite));
    }

    method AnotherCity(person: string) returns (home: string)
      requires Valid() && person in cast.people
      ensures home in cast.cities && person in city && home != city[person]
    {
      assert person in Elements(cast.people);
      home := AnotherOf(cast.cities, city[person]);
    }

    method AnotherCompany(person: string) returns (company: string)
      requires Valid() && person in cast.people
      ensures company in cast.companies && person in employer && company != employer[person]
    {
      assert person in Elements(cast.people);
      company := AnotherOf(cast.companies, employer[person]);
    }

    /** A person moves: always to a different city. */
    method Move(person: string) returns (turn: Turn)
      requires Valid() && person in cast.people
      modifies this
      ensures Valid() && View() == Spoken(old(View()), turn.op) && said == old(said) + [turn] && Says(turn.op, person, LivesIn)
      ensures person in old(city) && turn.op.value in cast.cities && turn.op.value != old(city)[person]
    {
      var home := AnotherCity(person);
      MoveAgrees(cast, View(), person, home);
      city := city[person := home];
      turn := Number(Remember(person, LivesIn, home));
      assert View() == Spoken(old(View()), turn.op);
    }

    method ChangeJob(person: string) returns (turn: Turn)
      requires Valid() && person in cast.people
      modifies this
      ensures Valid() && View() == Spoken(old(View()), turn.op) && said == old(said) + [turn] && Says(turn.op, person, WorksAt)
      ensures person in old(employer) && turn.op.value in cast.companies && turn.op.value != old(employer)[person]
    {
      var company := AnotherCompany(person);
      JobAgrees(cast, View(), person, company);
      employer := employer[person := company];
      turn := Number(Remember(person, WorksAt, company));
      assert View() == Spoken(old(View()), turn.op);
    }

    /** A person's one habit, restated. */
    method Habit(person: string) returns (turn: Turn)
      requires Valid() && person in cast.people
      modifies this`index, this`said
      ensures Valid() && said == old(said) + [turn] && person in cast.heavy
      ensures turn.op == Remember(person, Likes, cast.heavy[person])
    {
      HabitAgrees(cast, View(), person);
      turn := Emit(Remember(person, Likes, cast.heavy[person]));
    }

    /** Something new that a person likes. */
    method NewHabit(person: string) returns (turn: Turn)
      requires Valid() && person in cast.people
      modifies this`index, this`said, words
      ensures Valid() && said == old(said) + [turn] && Says(turn.op, person, Likes)
      ensures turn.op.value !in old(words.used) && NeverShown(old(said), turn.op.value)
    {
      var item := NewWord();
      turn := Emit(Remember(person, Likes, item));
    }

    /** A direct write about a person. */
    method Person() returns (kind: PersonKind, turn: Turn)
      requires Valid()
      modifies this, words
      ensures Valid() && said == old(said) + [turn] && turn.op.Remember? && turn.op.subject in cast.people
      ensures match kind
              case Moves => turn.op.slot == LivesIn
              case ChangesJob => turn.op.slot == WorksAt
              case HasHabit => turn.op.slot == Likes && turn.op.subject in cast.heavy && turn.op.value == cast.heavy[turn.op.subject]
              case HasNewHabit => turn.op.slot == Likes && turn.op.value !in old(words.used)
    {
      var person := Choice(cast.people);
      kind := Choice([Moves, ChangesJob, HasHabit, HasNewHabit]);
      match kind {
        case Moves => turn := Move(person);
        case ChangesJob => turn := ChangeJob(person);
        case HasHabit => turn := Habit(person);
        case HasNewHabit => turn := NewHabit(person);
      }
    }

    method RestateTopic() returns (turn: Turn)
      requires Valid()
      modifies this`index, this`said
      ensures Valid() && said == old(said) + [turn] && turn.op.Remember? && turn.op.slot == WorkingOn
      ensures View() == Spoken(old(View()), turn.op) && turn.op.subject in cast.Steady() && turn.op.subject in workingOn
      ensures turn.op.value == workingOn[turn.op.subject] && workingOn == old(workingOn)
    {
      var subject := Choice(cast.Steady());
      SteadyAgrees(cast, View(), subject);
      RestatedIsSpoken(View(), subject);
      turn := Emit(Remember(subject, WorkingOn, workingOn[subject]));
    }

    method ChangeTopic() returns (turn: Turn)
      requires Valid()
      modifies this, words
      ensures Valid() && said == old(said) + [turn] && turn.op.Remember? && turn.op.slot == WorkingOn
      ensures turn.op.subject in cast.Churning() && workingOn == old(workingOn)[turn.op.subject := turn.op.value]
      ensures turn.op.value !in old(words.used) && NeverShown(old(said), turn.op.value)
    {
      var subject := Choice(cast.Churning());
      var topic := NewWord();
      ghost var before := View();
      TopicAgrees(cast, before, subject, topic);
      SpokenIsGood(cast, before, Remember(subject, WorkingOn, topic));
      workingOn := workingOn[subject := topic];
      turn := Number(Remember(subject, WorkingOn, workingOn[subject]));
      assert View() == Spoken(before, turn.op);
    }

    /** A steady subject restates its value; a churning one gets a new word. */
    method PanelWrite() returns (turn: Turn)
      requires Valid()
      modifies this, words
      ensures Valid() && said == old(said) + [turn] && turn.op.Remember? && turn.op.slot == WorkingOn
    {
      if * {
        turn := RestateTopic();
      } else {
        turn := ChangeTopic();
      }
    }

    method Preference() returns (turn: Turn)
      requires Valid()
      modifies this`index, this`said
      ensures Valid() && said == old(said) + [turn] && turn.op.Prefer?
    {
      var which: nat :| which < 3;
      var spelling := Choice([AsWritten, WithAlways, WithoutArticle]);
      turn := Emit(Prefer(which, spelling));
    }

    method AskWhere() returns (turn: Turn)
      requires Valid() && Introduced(cast, said)
      modifies this`index, this`said
      ensures Valid() && said == old(said) + [turn] && turn.op.Probe?
    {
      var person := Choice(cast.people);
      ProbeAgrees(cast, View(), person);
      turn := Emit(Probe(person, city[person]));
    }

    /** A turn that says nothing of the cast. */
    method Aside() returns (turn: Turn)
      requires Valid()
      modifies this`index, this`said
      ensures Valid() && said == old(said) + [turn]
      ensures turn.op in {Filler, OtherScript, PersonalData(old(index)), PanelRead, Recall}
    {
      var op := Choice([Filler, OtherScript, PersonalData(index), PanelRead, Recall]);
      turn := Emit(op);
    }

    /** A turn of any kind. */
    method Next() returns (kind: TurnKind, turn: Turn)
      requires Valid() && Introduced(cast, said)
      modifies this, words
      ensures Valid() && said == old(said) + [turn] && Introduced(cast, said)
      ensures match kind
              case InLatin => turn.op.LiveIn? || turn.op.WorkAt? || turn.op.Like? || turn.op.NoLongerLike? || turn.op.NameIs?
              case OfPerson => turn.op.Remember? && turn.op.subject in cast.people
              case OfPanel => turn.op.Remember? && turn.op.slot == WorkingOn
              case OfPreference => turn.op.Prefer?
              case Asking => turn.op.Probe?
              case OnTheSide => turn.op in {Filler, OtherScript, PersonalData(old(index)), PanelRead, Recall}
    {
      ghost var before := said;
      kind := Choice([InLatin, OfPerson, OfPanel, OfPreference, Asking, OnTheSide]);
      match kind {
        case InLatin => var says: LatinKind; says, turn := Latin();
        case OfPerson => var does: PersonKind; does, turn := Person();
        case OfPanel => turn := PanelWrite();
        case OfPreference => turn := Preference();
        case Asking => turn := AskWhere();
        case OnTheSide => turn := Aside();
      }
      StaysIntroduced(cast, before, turn);
    }

    method Open()
      requires Valid() && said == [] && oneOffs == [] && workingOn == cast.topics
      modifies this`index, this`said
      ensures Valid() && |said| == PEOPLE + PANEL && Introduced(cast, said) && cast.OpensOn(said)
    {
      for n := 0 to PEOPLE + PANEL
        invariant Valid() && Opens(cast, View(), n)
      {
        ghost var before := View();
        OpeningAgrees(cast, before, n);
        OpensNext(cast, before, n);
        if n < PEOPLE {
          var person := cast.people[n];
          assert person in Elements(cast.people);
          var turn := Emit(Remember(person, LivesIn, city[person]));
        } else {
          var subject := cast.panel[n - PEOPLE];
          assert subject in Elements(cast.panel);
          var turn := Emit(Remember(subject, WorkingOn, workingOn[subject]));
        }
      }
      OpeningIntroduces(cast, View());
      OpeningTopics(cast, View());
    }

    method IntroduceUser()
      requires Valid()
      modifies this`index, this`said
      ensures Valid() && old(said) <= said && |said| == |old(said)| + 3
      ensures var n := |old(said)|; said[n].op == NameIs(cast.name) && said[n + 1].op.LiveIn? && said[n + 2].op.WorkAt?
    {
      var named := Emit(NameIs(cast.name));
      var home := Choice(cast.cities);
      var placed := Emit(LiveIn(home));
      var company := Choice(cast.companies);
      var hired := Emit(WorkAt(company));
    }

    method IntroduceFavourites()
      requires Valid()
      modifies this`index, this`said
      ensures Valid() && old(said) <= said && |said| == |old(said)| + FAVOURITES
      ensures forall i :: 0 <= i < FAVOURITES ==> said[|old(said)| + i].op == Like(cast.favourites[i])
    {
      for n := 0 to FAVOURITES
        invariant Valid() && old(said) <= said && |said| == |old(said)| + n
        invariant forall i :: 0 <= i < n ==> said[|old(said)| + i].op == Like(cast.favourites[i])
      {
        assert cast.favourites[n] in cast.favourites && cast.favourites[n] in Elements(cast.favourites);
        var turn := Emit(Like(cast.favourites[n]));
      }
    }

    /** One like and its retraction. It never joins the one-off likes. */
    method IntroduceOnce()
      requires Valid()
      modifies this`index, this`said, words
      ensures Valid() && old(said) <= said && |said| == |old(said)| + 2
      ensures var once := said[|said| - 1].op;
              once.NoLongerLike? && once.item !in old(words.used) && said[|said| - 2].op == Like(once.item)
              && once.item !in cast.favourites
    {
      var once := words.New(3);
      OnceIsNew(cast, old(View()), once);
      var liked := Emit(Like(once));
      ghost var before := View();
      StillLikedNext(old(said), liked, once);
      OnceTakenBack(cast, before, once);
      var back := Number(NoLongerLike(once));
      assert View() == Spoken(before, back.op);
    }

    method IntroduceRest()
      requires Valid()
      modifies this`index, this`said
      ensures Valid() && old(said) <= said && |said| == |old(said)| + 3
      ensures var n := |old(said)|;
              said[n].op == PersonalData(n) && said[n + 1].op == Prefer(0, AsWritten) && said[n + 2].op == Prefer(0, WithAlways)
    {
      var planted := Emit(PersonalData(index));
      var preferred := Emit(Prefer(0, AsWritten));
      var again := Emit(Prefer(0, WithAlways));
    }

    method Introductions()
      requires Valid() && said == [] && oneOffs == [] && workingOn == cast.topics
      modifies this, words
      ensures Valid() && |said| == INTRODUCTIONS && Introduced(cast, said) && cast.IntroducesOn(said)
    {
      Open();
      ghost var opening := said;
      IntroduceUser();
      IntroduceFavourites();
      IntroduceOnce();
      IntroduceRest();
      IntroducedGrows(cast, opening, said);
    }

    /** The introductions, then turns of any kind up to the length asked for. */
    method Turns(turns: nat)
      requires Valid() && said == [] && oneOffs == [] && workingOn == cast.topics
      modifies this, words
      ensures Valid() && cast.IntroducesOn(said)
      ensures |said| == if turns <= INTRODUCTIONS then INTRODUCTIONS else turns
    {
      Introductions();
      while index < turns
        invariant Valid() && Introduced(cast, said) && cast.IntroducesOn(said)
        invariant |said| <= if turns <= INTRODUCTIONS then INTRODUCTIONS else turns
        invariant |said| >= INTRODUCTIONS
      {
        var kind, turn := Next();
      }
    }
  }

  /** `SoakConfig`: a soak too short to measure what it introduces is refused. */
  datatype SoakConfig = SoakConfig(turns: nat)

  function MakeConfig(turns: int): (config: Outcome<SoakConfig, int>) {
    if turns < MIN_TURNS then Raised(turns) else Ok(SoakConfig(turns))
  }

  /** A whole soak: exactly as many turns as asked for, all of them consistent, about a cast no
      two of whose names or words are the same. */
  method Soak(turns: int) returns (run: Outcome<(Cast, seq<Turn>), int>)
    ensures run.Ok? <==> turns >= MIN_TURNS
    ensures run.Ok? ==> run.value.0.Valid() && |run.value.1| == turns && Consistent(run.value.0, run.value.1)
    ensures run.Ok? ==> Distinct(run.value.0.Names()) && run.value.0.IntroducesOn(run.value.1)
  {
    match MakeConfig(turns)
    case Raised(e) => return Raised(e);
    case Ok(config) =>
      var world := new World();
      world.Turns(config.turns);
      return Ok((world.cast, world.said));
  }

  // ---- what a consistent run cannot say ----------------------------------------------

  /** Nothing of a subject and slot is said from `i` on. */
  ghost predicate Quiet(said: seq<Turn>, i: nat, who: string, slot: Slot) {
    forall k :: i <= k < |said| ==> !Says(said[k].op, who, slot)
  }

  /** `LastSaid` names the value of the last turn about a subject. */
  lemma {:induction false} LastSaidIs(said: seq<Turn>, who: string, slot: Slot)
    ensures match LastSaid(said, who, slot)
            case None => Quiet(said, 0, who, slot)
            case Some(value) => exists i: nat :: i < |said| && said[i].op == Remember(who, slot, value) && Quiet(said, i + 1, who, slot)
  {
    if said != [] && !Says(said[|said| - 1].op, who, slot) {
      var before := said[..|said| - 1];
      LastSaidIs(before, who, slot);
      assert forall k :: 0 <= k < |before| ==> before[k] == said[k];
      if LastSaid(before, who, slot).Some? {
        var value := LastSaid(before, who, slot).value;
        var i: nat :| i < |before| && before[i].op == Remember(who, slot, value) && Quiet(before, i + 1, who, slot);
        assert said[i].op == Remember(who, slot, value) && Quiet(said, i + 1, who, slot);
      }
    } else if said != [] {
      assert said[|said| - 1].op == Remember(who, slot, said[|said| - 1].op.value) && Quiet(said, |said|, who, slot);
    }
  }

  /** A probe asks for the city of the person's last move, whichever words came in between. */
  lemma {:induction false} ProbeFindsTheLastMove(cast: Cast, trace: seq<Turn>, j: nat)
    requires cast.Valid() && Consistent(cast, trace) && j < |trace| && trace[j].op.Probe?
    ensures exists i: nat :: i < j && trace[i].op == Remember(trace[j].op.person, LivesIn, trace[j].op.gold)
                             && Quiet(trace[..j], i + 1, trace[j].op.person, LivesIn)
  {
    assert AgreesAt(cast, trace, j);
    LastSaidIs(trace[..j], trace[j].op.person, LivesIn);
  }

  /** Once a steady subject has said its value, that is its value for good. */
  lemma {:induction false} SteadyKeepsItsValue(cast: Cast, trace: seq<Turn>, i: nat, j: nat)
    requires cast.Valid() && Consistent(cast, trace) && i < j <= |trace|
    requires trace[i].op.Remember? && trace[i].op.slot == WorkingOn && trace[i].op.subject in cast.Steady()
    ensures LastSaid(trace[..j], trace[i].op.subject, WorkingOn) == Some(trace[i].op.value)
    decreases j
  {
    var who := trace[i].op.subject;
    LastSaidNext(trace[..j - 1], trace[j - 1], who, WorkingOn);
    assert trace[..j] == trace[..j - 1] + [trace[j - 1]];
    if i == j - 1 {
    } else {
      SteadyKeepsItsValue(cast, trace, i, j - 1);
      assert AgreesAt(cast, trace, j - 1);
    }
  }

  lemma {:induction false} SteadyNeverChanges(cast: Cast, trace: seq<Turn>, i: nat, j: nat)
    requires cast.Valid() && Consistent(cast, trace) && i < j < |trace|
    requires trace[i].op.Remember? && Says(trace[j].op, trace[i].op.subject, WorkingOn)
    requires trace[i].op.slot == WorkingOn && trace[i].op.subject in cast.Steady()
    ensures trace[j].op == trace[i].op
  {
    SteadyKeepsItsValue(cast, trace, i, j);
    assert AgreesAt(cast, trace, j);
  }

  /** A churning subject never says the same value twice. */
  lemma {:induction false} ChurningNeverRepeats(cast: Cast, trace: seq<Turn>, i: nat, j: nat)
    requires cast.Valid() && Consistent(cast, trace) && i < j < |trace|
    requires trace[j].op.Remember? && trace[j].op.slot == WorkingOn && trace[j].op.subject in cast.Churning()
    ensures trace[i].op != trace[j].op
  {
    assert AgreesAt(cast, trace, j);
    assert trace[..j][i] == trace[i];
  }

  ghost predicate NotTakenBack(said: seq<Turn>, i: nat, item: string) {
    forall k :: i <= k < |said| ==> said[k].op != NoLongerLike(item)
  }

  lemma {:induction false} StillLikedIs(said: seq<Turn>, item: string)
    ensures StillLiked(said, item) <==> exists i: nat :: i < |said| && said[i].op == Like(item) && NotTakenBack(said, i, item)
  {
    if said == [] {
    } else {
      var before, op := said[..|said| - 1], said[|said| - 1].op;
      StillLikedIs(before, item);
      assert forall k :: 0 <= k < |before| ==> before[k] == said[k];
      if op == Like(item) {
        assert NotTakenBack(said, |said| - 1, item);
      } else if StillLiked(said, item) {
        var i: nat :| i < |before| && before[i].op == Like(item) && NotTakenBack(before, i, item);
        assert said[i].op == Like(item) && NotTakenBack(said, i, item);
      } else if i: nat :| i < |said| && said[i].op == Like(item) && NotTakenBack(said, i, item) {
        assert before[i].op == Like(item) && NotTakenBack(before, i, item);
      }
    }
  }

  /** What is taken back was liked, is no favourite, and was not taken back before. */
  lemma {:induction false} RetractionsAreOfLikes(cast: Cast, trace: seq<Turn>, j: nat)
    requires cast.Valid() && Consistent(cast, trace) && j < |trace| && trace[j].op.NoLongerLike?
    ensures trace[j].op.item !in cast.favourites
    ensures exists i: nat :: i < j && trace[i].op == Like(trace[j].op.item)
    ensures NotTakenBack(trace[..j], 0, trace[j].op.item)
  {
    var item, before := trace[j].op.item, trace[..j];
    assert AgreesAt(cast, trace, j);
    StillLikedIs(before, item);
    var i: nat :| i < j && before[i].op == Like(item) && NotTakenBack(before, i, item);
    assert trace[i].op == Like(item) && AgreesAt(cast, trace, i);
    forall k | 0 <= k < j ensures before[k].op != NoLongerLike(item) {
      assert k < i ==> trace[..i][k] == trace[k] && item !in WordsOf(trace[..i][k].op);
    }
  }
}
