/**
 A bounded pool of calls, and the ledger that bills them: neither result may depend on the
 order in which the pool finished.
 */
module Schedule {
  import opened Prelude
  import opened Sorting

  // ---- the ordered parallel map ------------------------------------------------------

  /** The plain loop: the results in order, or the first exception. */
  function InOrder<T, R, E>(fn: T -> Outcome<R, E>, items: seq<T>): (out: Outcome<seq<R>, E>)
    ensures out.Ok? ==> |out.value| == |items|
  {
    if items == [] then Ok([])
    else match fn(items[0])
      case Raised(e) => Raised(e)
      case Ok(first) =>
        match InOrder(fn, items[1..])
        case Raised(e) => Raised(e)
        case Ok(rest) => Ok([first] + rest)
  }

  lemma {:induction false} InOrderAt<T, R, E>(fn: T -> Outcome<R, E>, items: seq<T>)
    ensures var out := InOrder(fn, items);
            && (out.Ok? <==> forall i :: 0 <= i < |items| ==> fn(items[i]).Ok?)
            && (out.Ok? ==> forall i :: 0 <= i < |items| ==> fn(items[i]) == Ok(out.value[i]))
  {
    if items == [] {
    } else {
      InOrderAt(fn, items[1..]);
      assert forall i :: 0 < i < |items| ==> items[i] == items[1..][i - 1];
    }
  }

  /** `completed` lists every index once, in the order its call finished. */
  ghost predicate Completion(completed: seq<nat>, n: nat) {
    && (forall i :: 0 <= i < n ==> i in completed)
    && (forall c :: 0 <= c < |completed| ==> completed[c] < n)
    && (forall c, d :: 0 <= c < d < |completed| ==> completed[c] != completed[d])
  }

  /** The exception `out` is the first one to finish. */
  ghost predicate FirstToRaise<T, R, E>(fn: T -> Outcome<R, E>, items: seq<T>, completed: seq<nat>, error: E)
    requires Completion(completed, |items|)
  {
    exists c :: 0 <= c < |completed| && fn(items[completed[c]]) == Raised(error)
                && forall d :: 0 <= d < c ==> fn(items[completed[d]]).Ok?
  }

  method ParallelMap<T, R, E>(fn: T -> Outcome<R, E>, items: seq<T>, concurrency: int, completed: seq<nat>)
    returns (out: Outcome<seq<R>, E>)
    requires Completion(completed, |items|)
    ensures concurrency <= 1 || InOrder(fn, items).Ok? ==> out == InOrder(fn, items)
    ensures concurrency > 1 && InOrder(fn, items).Raised? ==>
              out.Raised? && FirstToRaise(fn, items, completed, out.error)
  {
    InOrderAt(fn, items);
    if concurrency <= 1 {
      var values: seq<R> := [];
      for i := 0 to |items|
        invariant |values| == i && forall j :: 0 <= j < i ==> fn(items[j]) == Ok(values[j])
      {
        match fn(items[i]) {
          case Ok(value) => values := values + [value];
          case Raised(e) =>
            FirstFailure(fn, items, i);
            return Raised(e);
        }
      }
      SameResults(fn, items, values);
      return Ok(values);
    }
    var results := new Option<R>[|items|](_ => None);
    for c := 0 to |completed|
      invariant forall d :: 0 <= d < c ==> fn(items[completed[d]]).Ok?
      invariant forall d :: 0 <= d < c ==> results[completed[d]] == Some(fn(items[completed[d]]).value)
    {
      match fn(items[completed[c]]) {
        case Ok(value) => results[completed[c]] := Some(value);
        case Raised(e) => return Raised(e);
      }
    }
    var values: seq<R> := [];
    for i := 0 to |items|
      invariant |values| == i && forall j :: 0 <= j < i ==> fn(items[j]) == Ok(values[j])
    {
      assert i in completed;
      values := values + [results[i].value];
    }
    SameResults(fn, items, values);
    return Ok(values);
  }

  lemma {:induction false} SameResults<T, R, E>(fn: T -> Outcome<R, E>, items: seq<T>, values: seq<R>)
    requires |values| == |items| && forall i :: 0 <= i < |items| ==> fn(items[i]) == Ok(values[i])
    ensures InOrder(fn, items) == Ok(values)
  {
    InOrderAt(fn, items);
    assert InOrder(fn, items).value == values;
  }

  lemma {:induction false} FirstFailure<T, R, E>(fn: T -> Outcome<R, E>, items: seq<T>, i: nat)
    requires i < |items| && fn(items[i]).Raised? && forall j :: 0 <= j < i ==> fn(items[j]).Ok?
    ensures InOrder(fn, items) == Raised(fn(items[i]).error)
  {
    if i == 0 {
    } else {
      FirstFailure(fn, items[1..], i - 1);
    }
  }

  // ---- the ledger --------------------------------------------------------------------

  datatype Tally = Tally(calls: int, input: int, output: int, cacheRead: int, cacheWrite: int) {
    function Add(answer: Answer): Tally {
      Tally(calls + 1, input + answer.inputTokens, output + answer.outputTokens,
            cacheRead + answer.cacheReadTokens, cacheWrite + answer.cacheWriteTokens)
    }
  }

  const NOTHING := Tally(0, 0, 0, 0, 0)

  /** A Python dict: its items in the order their keys were first set. */
  type Dict<V> = seq<(string, V)>

  datatype Price = Price(input: real, output: real, cacheRead: real, cacheWrite: real)

  datatype Call = Call(role: string, answer: Answer)

  /** Everything a ledger has been told. */
  datatype Books = Books(byRole: Dict<Dict<Tally>>, stops: map<(string, string), nat>)

  const NO_BOOKS := Books([], map[])

  /** `tallies.setdefault(answer.model, _Tally()).add(answer)` */
  function AddTo(tallies: Dict<Tally>, answer: Answer): (r: Dict<Tally>) {
    if tallies == [] then [(answer.model, NOTHING.Add(answer))]
    else if tallies[0].0 == answer.model then [(answer.model, tallies[0].1.Add(answer))] + tallies[1..]
    else [tallies[0]] + AddTo(tallies[1..], answer)
  }

  /** `by_role.setdefault(role, {})`, then `AddTo` on what it holds. */
  function AddUnder(byRole: Dict<Dict<Tally>>, call: Call): (r: Dict<Dict<Tally>>) {
    if byRole == [] then [(call.role, AddTo([], call.answer))]
    else if byRole[0].0 == call.role then [(call.role, AddTo(byRole[0].1, call.answer))] + byRole[1..]
    else [byRole[0]] + AddUnder(byRole[1..], call)
  }

  const GOOD_STOPS := {"end_turn", "stop_sequence", "stop", "tool_use"}

  predicate Degenerate(answer: Answer) {
    answer.stopReason != "" && answer.stopReason !in GOOD_STOPS
  }

  function StopsAfter(stops: map<(string, string), nat>, call: Call): map<(string, string), nat> {
    var key := (call.role, call.answer.stopReason);
    if !Degenerate(call.answer) then stops
    else stops[key := (if key in stops then stops[key] else 0) + 1]
  }

  function RecordOne(books: Books, call: Call): Books {
    Books(AddUnder(books.byRole, call), StopsAfter(books.stops, call))
  }

  /** The books after every call has been recorded, in order. */
  function Recorded(books: Books, calls: seq<Call>): (after: Books)
    decreases |calls|
  {
    if calls == [] then books else Recorded(RecordOne(books, calls[0]), calls[1..])
  }

  lemma {:induction false} RecordedAppend(books: Books, a: seq<Call>, b: seq<Call>)
    ensures Recorded(books, a + b) == Recorded(Recorded(books, a), b)
    decreases |a|
  {
    if a == [] {
      assert a + b == b;
    } else {
      assert (a + b)[1..] == a[1..] + b;
      RecordedAppend(RecordOne(books, a[0]), a[1..], b);
    }
  }

  class TokenLedger {
    const prices: map<string, Price>
    var books: Books

    constructor (prices: map<string, Price>)
      ensures this.prices == prices && books == NO_BOOKS
    {
      this.prices := prices;
      books := NO_BOOKS;
    }

    method Record(role: string, answer: Answer)
      modifies this
      ensures books == RecordOne(old(books), Call(role, answer))
    {
      books := books.(byRole := AddUnder(books.byRole, Call(role, answer)));
      if Degenerate(answer) {
        var key := (role, answer.stopReason);
        books := books.(stops := books.stops[key := (if key in books.stops then books.stops[key] else 0) + 1]);
      }
    }

    /** One role's part of `cost`: the inner loop. */
    method CostOfRole(tallies: Dict<Tally>, start: real, found: seq<string>) returns (total: real, unpriced: seq<string>)
      requires Distinct(found)
      ensures total == start + CostOf(prices, tallies)
      ensures Distinct(unpriced)
      ensures forall m :: m in unpriced <==> m in found || (m !in prices && HasModel(tallies, m))
    {
      total, unpriced := start, found;
      for j := 0 to |tallies|
        invariant total + CostOf(prices, tallies[j..]) == start + CostOf(prices, tallies)
        invariant Distinct(unpriced)
        invariant forall m :: m in unpriced <==> m in found || (m !in prices && HasModel(tallies[..j], m))
      {
        var (model, tally) := tallies[j];
        HasModelNext(tallies, j);
        if model in prices {
          total := total + Dollars(prices[model], tally);
        } else if model !in unpriced {
          unpriced := unpriced + [model];
        }
      }
      assert tallies[..|tallies|] == tallies;
    }

    /** The dollars of everything priced, and the models that are not, each once. */
    method Cost() returns (total: real, unpriced: seq<string>)
      ensures total == CostUnder(prices, books.byRole)
      ensures Distinct(unpriced)
      ensures forall m :: m in unpriced <==> m !in prices && UsesModel(books.byRole, m)
    {
      total, unpriced := 0.0, [];
      var roles := books.byRole;
      for i := 0 to |roles|
        invariant total + CostUnder(prices, roles[i..]) == CostUnder(prices, roles)
        invariant Distinct(unpriced)
        invariant forall m :: m in unpriced <==> m !in prices && UsesModel(roles[..i], m)
      {
        UsesModelNext(roles, i);
        total, unpriced := CostOfRole(roles[i].1, total, unpriced);
      }
      assert roles[..|roles|] == roles;
    }
  }

  ghost predicate HasModel(tallies: Dict<Tally>, m: string) {
    exists i :: 0 <= i < |tallies| && tallies[i].0 == m
  }

  ghost predicate UsesModel(byRole: Dict<Dict<Tally>>, m: string) {
    exists i :: 0 <= i < |byRole| && HasModel(byRole[i].1, m)
  }

  lemma {:induction false} HasModelNext(tallies: Dict<Tally>, j: nat)
    requires j < |tallies|
    ensures forall m :: HasModel(tallies[..j + 1], m) <==> HasModel(tallies[..j], m) || m == tallies[j].0
  {
  }

  lemma {:induction false} UsesModelNext(byRole: Dict<Dict<Tally>>, j: nat)
    requires j < |byRole|
    ensures forall m :: UsesModel(byRole[..j + 1], m) <==> UsesModel(byRole[..j], m) || HasModel(byRole[j].1, m)
  {
  }

  /** The calls of a batch of results, in item order. */
  function Bill<R>(results: seq<(R, seq<Call>)>): (calls: seq<Call>) {
    if results == [] then [] else results[0].1 + Bill(results[1..])
  }

  lemma {:induction false} BillNext<R>(results: seq<(R, seq<Call>)>, i: nat)
    requires i < |results|
    ensures Bill(results[..i + 1]) == Bill(results[..i]) + results[i].1
  {
    if i > 0 {
      BillNext(results[1..], i - 1);
      assert results[1..][..i] == results[..i + 1][1..];
      assert results[1..][..i - 1] == results[..i][1..];
    } else {
      assert results[..1][1..] == [];
    }
  }

  /** `score_in_order`: the ledger ends up as the plain loop would leave it. */
  method ScoreInOrder<T, R, E>(fn: T -> Outcome<(R, seq<Call>), E>, items: seq<T>, ledger: TokenLedger,
                               concurrency: int, completed: seq<nat>)
    returns (out: Outcome<seq<R>, E>)
    requires Completion(completed, |items|)
    modifies ledger
    ensures InOrder(fn, items).Ok? ==>
              && out.Ok? && |out.value| == |items|
              && (forall i :: 0 <= i < |items| ==> out.value[i] == InOrder(fn, items).value[i].0)
              && ledger.books == Recorded(old(ledger.books), Bill(InOrder(fn, items).value))
    ensures InOrder(fn, items).Raised? ==> out.Raised? && ledger.books == old(ledger.books)
  {
    var scored := ParallelMap(fn, items, concurrency, completed);
    if scored.Raised? {
      return Raised(scored.error);
    }
    var all := scored.value;
    var results: seq<R> := [];
    for i := 0 to |all|
      invariant |results| == i && forall j :: 0 <= j < i ==> results[j] == all[j].0
      invariant ledger.books == Recorded(old(ledger.books), Bill(all[..i]))
    {
      var calls := all[i].1;
      ghost var before := ledger.books;
      for j := 0 to |calls|
        invariant ledger.books == Recorded(before, calls[..j])
      {
        assert calls[..j + 1] == calls[..j] + [calls[j]];
        RecordedAppend(before, calls[..j], [calls[j]]);
        ledger.Record(calls[j].role, calls[j].answer);
      }
      assert calls[..|calls|] == calls;
      BillNext(all, i);
      RecordedAppend(old(ledger.books), Bill(all[..i]), calls);
      results := results + [all[i].0];
    }
    assert all[..|all|] == all;
    return Ok(results);
  }

  /** What a tally costs at a price. */
  function Dollars(price: Price, tally: Tally): real {
    (tally.input as real * price.input + tally.output as real * price.output
     + tally.cacheRead as real * price.input * price.cacheRead
     + tally.cacheWrite as real * price.input * price.cacheWrite) / 1_000_000.0
  }

  function CostOf(prices: map<string, Price>, tallies: Dict<Tally>): (total: real) {
    if tallies == [] then 0.0
    else (if tallies[0].0 in prices then Dollars(prices[tallies[0].0], tallies[0].1) else 0.0) + CostOf(prices, tallies[1..])
  }

  function CostUnder(prices: map<string, Price>, byRole: Dict<Dict<Tally>>): (total: real) {
    if byRole == [] then 0.0 else CostOf(prices, byRole[0].1) + CostUnder(prices, byRole[1..])
  }

  /** What one call costs, on its own. */
  function CallCost(prices: map<string, Price>): Call -> real {
    (c: Call) => if c.answer.model in prices then Dollars(prices[c.answer.model], NOTHING.Add(c.answer)) else 0.0
  }

  lemma {:induction false} DollarsAdd(price: Price, tally: Tally, answer: Answer)
    ensures Dollars(price, tally.Add(answer)) == Dollars(price, tally) + Dollars(price, NOTHING.Add(answer))
  {
  }

  lemma {:induction false} AddToCost(prices: map<string, Price>, tallies: Dict<Tally>, call: Call)
    ensures CostOf(prices, AddTo(tallies, call.answer)) == CostOf(prices, tallies) + CallCost(prices)(call)
  {
    if tallies == [] {
    } else {
      if tallies[0].0 != call.answer.model {
        AddToCost(prices, tallies[1..], call);
      } else if call.answer.model in prices {
        DollarsAdd(prices[call.answer.model], tallies[0].1, call.answer);
      }
    }
  }

  lemma {:induction false} AddUnderCost(prices: map<string, Price>, byRole: Dict<Dict<Tally>>, call: Call)
    ensures CostUnder(prices, AddUnder(byRole, call)) == CostUnder(prices, byRole) + CallCost(prices)(call)
  {
    if byRole == [] {
      AddToCost(prices, [], call);
    } else if byRole[0].0 == call.role {
      AddToCost(prices, byRole[0].1, call);
    } else {
      AddUnderCost(prices, byRole[1..], call);
    }
  }

  /** The ledger's total is what its calls cost one by one. */
  lemma {:induction false} CostIsTheSum(prices: map<string, Price>, books: Books, calls: seq<Call>)
    ensures CostUnder(prices, Recorded(books, calls).byRole)
            == CostUnder(prices, books.byRole) + Sum(CallCost(prices), calls)
    decreases |calls|
  {
    if calls == [] {
    } else {
      AddUnderCost(prices, books.byRole, calls[0]);
      CostIsTheSum(prices, RecordOne(books, calls[0]), calls[1..]);
    }
  }

  /** An answer that used these many tokens of each kind. */
  predicate Used(answer: Answer, input: int, output: int, cacheRead: int, cacheWrite: int) {
    && answer.inputTokens == input && answer.outputTokens == output
    && answer.cacheReadTokens == cacheRead && answer.cacheWriteTokens == cacheWrite
  }

  /** Recording one more call, of which `input` and so on are the tokens, adds `dollars`. */
  ghost predicate Adds(prices: map<string, Price>, books: Books, call: Call, dollars: real) {
    CostUnder(prices, RecordOne(books, call).byRole) == CostUnder(prices, books.byRole) + dollars
  }

  lemma {:induction false} AMillionPriced(price: Price, a: Answer)
    ensures Used(a, 1_000_000, 0, 0, 0) ==> Dollars(price, NOTHING.Add(a)) == price.input
    ensures Used(a, 0, 1_000_000, 0, 0) ==> Dollars(price, NOTHING.Add(a)) == price.output
    ensures Used(a, 0, 0, 1_000_000, 0) ==> Dollars(price, NOTHING.Add(a)) == price.input * price.cacheRead
    ensures Used(a, 0, 0, 0, 1_000_000) ==> Dollars(price, NOTHING.Add(a)) == price.input * price.cacheWrite
  {
    var read, write := price.input * price.cacheRead, price.input * price.cacheWrite;
    assert 1_000_000.0 * price.input * price.cacheRead == 1_000_000.0 * read;
    assert 1_000_000.0 * price.input * price.cacheWrite == 1_000_000.0 * write;
  }

  /** Prices are per million tokens: of input, of output, and of what a cache read and a cache
      write make of the price of input. A model without a price adds nothing. */
  lemma {:induction false} AMillionTokens(prices: map<string, Price>, books: Books, call: Call)
    ensures call.answer.model !in prices ==> Adds(prices, books, call, 0.0)
    ensures call.answer.model in prices ==>
              var a, price := call.answer, prices[call.answer.model];
              && (Used(a, 1_000_000, 0, 0, 0) ==> Adds(prices, books, call, price.input))
              && (Used(a, 0, 1_000_000, 0, 0) ==> Adds(prices, books, call, price.output))
              && (Used(a, 0, 0, 1_000_000, 0) ==> Adds(prices, books, call, price.input * price.cacheRead))
              && (Used(a, 0, 0, 0, 1_000_000) ==> Adds(prices, books, call, price.input * price.cacheWrite))
  {
    AddUnderCost(prices, books.byRole, call);
    if call.answer.model in prices {
      AMillionPriced(prices[call.answer.model], call.answer);
    }
  }

  /** What a call costs grows evenly with each of its counts: a call that used the tokens of two
      costs what the two cost. */
  lemma {:induction false} TokensAddUp(prices: map<string, Price>, books: Books, a: Call, b: Call, both: Call)
    requires a.answer.model == b.answer.model == both.answer.model
    requires Used(both.answer, a.answer.inputTokens + b.answer.inputTokens, a.answer.outputTokens + b.answer.outputTokens,
                  a.answer.cacheReadTokens + b.answer.cacheReadTokens, a.answer.cacheWriteTokens + b.answer.cacheWriteTokens)
    ensures CostUnder(prices, RecordOne(books, both).byRole) == CostUnder(prices, RecordOne(RecordOne(books, a), b).byRole)
  {
    AddUnderCost(prices, books.byRole, a);
    AddUnderCost(prices, RecordOne(books, a).byRole, b);
    AddUnderCost(prices, books.byRole, both);
    if a.answer.model in prices {
      DollarsAdd(prices[a.answer.model], NOTHING.Add(a.answer), b.answer);
      SameTokensSameDollars(prices[a.answer.model], NOTHING.Add(a.answer).Add(b.answer), NOTHING.Add(both.answer));
    }
  }

  lemma {:induction false} SameTokensSameDollars(price: Price, x: Tally, y: Tally)
    requires x.input == y.input && x.output == y.output && x.cacheRead == y.cacheRead && x.cacheWrite == y.cacheWrite
    ensures Dollars(price, x) == Dollars(price, y)
  {
  }

  /** Cost is additive over any split of the recorded calls. */
  lemma {:induction false} CostIsAdditive(prices: map<string, Price>, a: seq<Call>, b: seq<Call>)
    ensures CostUnder(prices, Recorded(NO_BOOKS, a + b).byRole)
            == CostUnder(prices, Recorded(NO_BOOKS, a).byRole) + CostUnder(prices, Recorded(NO_BOOKS, b).byRole)
  {
    CostIsTheSum(prices, NO_BOOKS, a + b);
    CostIsTheSum(prices, NO_BOOKS, a);
    CostIsTheSum(prices, NO_BOOKS, b);
    SumAppend(CallCost(prices), a, b);
  }

  /** The order in which calls are recorded does not change the total. */
  lemma {:induction false} CostIgnoresOrder(prices: map<string, Price>, a: seq<Call>, b: seq<Call>)
    requires multiset(a) == multiset(b)
    ensures CostUnder(prices, Recorded(NO_BOOKS, a).byRole) == CostUnder(prices, Recorded(NO_BOOKS, b).byRole)
  {
    CostIsTheSum(prices, NO_BOOKS, a);
    CostIsTheSum(prices, NO_BOOKS, b);
    SumPermutes(CallCost(prices), a, b);
  }

  // ---- the books, entry by entry -----------------------------------------------------

  function ModelTally(tallies: Dict<Tally>, model: string): Tally {
    if tallies == [] then NOTHING
    else if tallies[0].0 == model then tallies[0].1
    else ModelTally(tallies[1..], model)
  }

  function RoleTally(byRole: Dict<Dict<Tally>>, role: string, model: string): Tally {
    if byRole == [] then NOTHING
    else if byRole[0].0 == role then ModelTally(byRole[0].1, model)
    else RoleTally(byRole[1..], role, model)
  }

  /** The calls of one role and model, added up on their own. */
  function TallyOf(start: Tally, calls: seq<Call>, role: string, model: string): Tally
    decreases |calls|
  {
    if calls == [] then start
    else
      var c := calls[0];
      TallyOf(if c.role == role && c.answer.model == model then start.Add(c.answer) else start, calls[1..], role, model)
  }

  lemma {:induction false} AddToTally(tallies: Dict<Tally>, answer: Answer, model: string)
    ensures ModelTally(AddTo(tallies, answer), model)
            == if answer.model == model then ModelTally(tallies, model).Add(answer) else ModelTally(tallies, model)
  {
    if tallies == [] || tallies[0].0 == answer.model {
    } else {
      AddToTally(tallies[1..], answer, model);
    }
  }

  lemma {:induction false} AddUnderTally(byRole: Dict<Dict<Tally>>, c: Call, role: string, model: string)
    ensures RoleTally(AddUnder(byRole, c), role, model)
            == if c.role == role && c.answer.model == model then RoleTally(byRole, role, model).Add(c.answer)
               else RoleTally(byRole, role, model)
  {
    if byRole == [] {
      AddToTally([], c.answer, model);
    } else if byRole[0].0 == c.role {
      AddToTally(byRole[0].1, c.answer, model);
    } else {
      AddUnderTally(byRole[1..], c, role, model);
    }
  }

  /** Every entry of the ledger is the total of exactly the calls of its role and model. */
  lemma {:induction false} EntriesAreSeparate(books: Books, calls: seq<Call>, role: string, model: string)
    ensures RoleTally(Recorded(books, calls).byRole, role, model)
            == TallyOf(RoleTally(books.byRole, role, model), calls, role, model)
    decreases |calls|
  {
    if calls == [] {
    } else {
      AddUnderTally(books.byRole, calls[0], role, model);
      EntriesAreSeparate(RecordOne(books, calls[0]), calls[1..], role, model);
    }
  }

  /** A count of the calls of a role and model, and of no others. */
  function Part(role: string, model: string, tokens: Answer -> int): Call -> real {
    (c: Call) => if c.role == role && c.answer.model == model then tokens(c.answer) as real else 0.0
  }

  /** Adding these calls to one tally gives the other. */
  ghost predicate AddsUp(before: Tally, after: Tally, calls: seq<Call>, role: string, model: string) {
    && after.calls as real == before.calls as real + Sum(Part(role, model, (a: Answer) => 1), calls)
    && after.input as real == before.input as real + Sum(Part(role, model, (a: Answer) => a.inputTokens), calls)
    && after.output as real == before.output as real + Sum(Part(role, model, (a: Answer) => a.outputTokens), calls)
    && after.cacheRead as real == before.cacheRead as real + Sum(Part(role, model, (a: Answer) => a.cacheReadTokens), calls)
    && after.cacheWrite as real == before.cacheWrite as real + Sum(Part(role, model, (a: Answer) => a.cacheWriteTokens), calls)
  }

  lemma {:induction false} TallyAddsUp(start: Tally, calls: seq<Call>, role: string, model: string)
    ensures AddsUp(start, TallyOf(start, calls, role, model), calls, role, model)
    decreases |calls|
  {
    if calls == [] {
    } else {
      var c := calls[0];
      TallyAddsUp(if c.role == role && c.answer.model == model then start.Add(c.answer) else start, calls[1..], role, model);
    }
  }

  /** An entry's calls, and its tokens of each kind, are those of the calls of its role and
      model, added up. */
  lemma {:induction false} EntriesAddUp(books: Books, calls: seq<Call>, role: string, model: string)
    ensures AddsUp(RoleTally(books.byRole, role, model), RoleTally(Recorded(books, calls).byRole, role, model), calls, role, model)
  {
    EntriesAreSeparate(books, calls, role, model);
    TallyAddsUp(RoleTally(books.byRole, role, model), calls, role, model);
  }

  function IsStop(role: string, reason: string): Call -> bool {
    (c: Call) => c.role == role && c.answer.stopReason == reason
                 && reason !in ["", "end_turn", "stop_sequence", "stop", "tool_use"]
  }

  /** The degenerate stops are counted, by role and reason, and no other stop is. */
  lemma {:induction false} StopsAreCounted(books: Books, calls: seq<Call>, role: string, reason: string)
    ensures var before, after := books.stops, Recorded(books, calls).stops;
            (if (role, reason) in after then after[(role, reason)] else 0)
            == (if (role, reason) in before then before[(role, reason)] else 0) + Count(IsStop(role, reason), calls)
    decreases |calls|
  {
    if calls == [] {
    } else {
      StopsAreCounted(RecordOne(books, calls[0]), calls[1..], role, reason);
    }
  }
}
