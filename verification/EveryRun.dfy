/**
 What holds on every schedule of `CheckpointedReader.answer`: one call a key, no lost wakeup,
 short runs, agreeing answers and balanced books.
 */
module EveryRun {
  import opened Prelude
  import opened Lines
  import opened JsonLines
  import opened Journal
  import opened Checkpoints
  import opened SingleFlight

  lemma {:induction false} StepInvariant(s: State, m: Move, base: map<Key, Answer>)
    requires CanMove(s, m)
    ensures Invariant(s, base) ==> Invariant(Step(s, m), base)
  {
    if Invariant(s, base) {
      EventsKept(s, m);
      OwnersKept(s, m);
      SettersKept(s, m);
      WaitersKept(s, m);
      AnswersKept(s, m);
      PayersKept(s, m);
      FileKept(s, m, base);
      BooksKept(s, m, base);
      RoundsKept(s, m);
    }
  }

  // ---- what holds on every run -------------------------------------------------------

  lemma {:induction false} RunInvariant(s: State, moves: seq<Move>, base: map<Key, Answer>)
    requires Runs(s, moves)
    ensures Invariant(s, base) ==> Invariant(After(s, moves), base)
    decreases |moves|
  {
    if moves == [] {
    } else {
      StepInvariant(s, moves[0], base);
      RunInvariant(Step(s, moves[0]), moves[1..], base);
    }
  }

  lemma {:induction false} ReachableInvariant(base: map<Key, Answer>, keys: seq<Key>, moves: seq<Move>)
    requires Runs(Start(base, keys), moves)
    ensures Invariant(After(Start(base, keys), moves), base)
  {
    StartInvariant(base, keys);
    RunInvariant(Start(base, keys), moves, base);
  }

  /** At any moment of any run, at most one caller of a key is inside the inner reader or came
      back from it with an answer; while one is inside, the key has no row; and no key is both
      claimed and stored. */
  lemma {:induction false} OneCallPerKey(base: map<Key, Answer>, keys: seq<Key>, moves: seq<Move>, i: nat, j: nat)
    requires Runs(Start(base, keys), moves) && i < |keys| && j < |keys|
    ensures var s := After(Start(base, keys), moves);
            && (s.callers[i].phase.Asking? ==> s.callers[i].key !in s.shared.rows && s.callers[i].key !in base)
            && (Pays(s.callers[i]) && Pays(s.callers[j]) && s.callers[i].key == s.callers[j].key ==> i == j)
            && s.shared.inflight.Keys !! s.shared.rows.Keys
  {
    var s := After(Start(base, keys), moves);
    ReachableInvariant(base, keys, moves);
    assert Holds(s.callers[i]) <==> Owner(s, i, s.callers[i].key);
    assert Payer(s, i, s.callers[i].key) <==> Pays(s.callers[i]);
    assert Payer(s, j, s.callers[j].key) <==> Pays(s.callers[j]);
  }

  lemma {:induction false} RowsStay(s: State, moves: seq<Move>, k: Key)
    requires Runs(s, moves) && k in s.shared.rows
    ensures k in After(s, moves).shared.rows && After(s, moves).shared.rows[k] == s.shared.rows[k]
    decreases |moves|
  {
    if moves == [] {
    } else {
      OnlyPutWrites(s, moves[0]);
      RowsStay(Step(s, moves[0]), moves[1..], k);
    }
  }

  /** Once a key has a row, loaded or stored, no later moment of the run has it being asked. */
  lemma {:induction false} StoredIsNeverAskedAgain(base: map<Key, Answer>, keys: seq<Key>, moves: seq<Move>, more: seq<Move>, i: nat)
    requires Runs(Start(base, keys), moves) && Runs(After(Start(base, keys), moves), more) && i < |keys|
    requires keys[i] in After(Start(base, keys), moves).shared.rows
    ensures !After(After(Start(base, keys), moves), more).callers[i].phase.Asking?
  {
    var s := After(Start(base, keys), moves);
    ReachableInvariant(base, keys, moves);
    RunInvariant(s, more, base);
    RowsStay(s, more, keys[i]);
    var t := After(s, more);
    assert Holds(t.callers[i]) <==> Owner(t, i, t.callers[i].key);
  }

  /** The caller that `i` has to wait for: itself, or the one that holds its key's claim or is
      about to set the event it waits on. */
  ghost predicate Unblocks(s: State, i: nat, j: nat) {
    i < |s.callers| && j < |s.callers| && s.callers[j].key == s.callers[i].key &&
    (j == i || (s.callers[i].phase.Waiting? && (Holds(s.callers[j]) || s.callers[j].phase == Setting(Some(s.callers[i].phase.awaited)))))
  }

  lemma {:induction false} WaiterIsUnblocked(s: State, i: nat) returns (j: nat)
    requires OwnersOk(s) && i < |s.callers| && s.callers[i].phase.Waiting? && s.callers[i].phase.awaited !in s.shared.fired
    requires Wakes(s, s.callers[i].key, s.callers[i].phase.awaited)
    ensures Unblocks(s, i, j) && CanMove(s, Move(j, None))
  {
    var c := s.callers[i];
    if c.key in s.shared.inflight && s.shared.inflight[c.key] == c.phase.awaited {
      j :| Owner(s, j, c.key);
    } else {
      j :| Setter(s, j, c.key, c.phase.awaited);
    }
  }

  /** No lost wakeup: a caller that is not done can move, or the one it waits for can. */
  lemma {:induction false} SomebodyCanMove(s: State, base: map<Key, Answer>, i: nat)
    requires i < |s.callers| && !Done(s.callers[i])
    ensures Invariant(s, base) ==> exists j: nat :: Unblocks(s, i, j) && CanMove(s, Move(j, None))
  {
    if Invariant(s, base) {
      if s.callers[i].phase.Waiting? && s.callers[i].phase.awaited !in s.shared.fired {
        var j := WaiterIsUnblocked(s, i);
      } else {
        assert Unblocks(s, i, i) && CanMove(s, Move(i, None));
      }
    }
  }

  // ---- how long a run can be ---------------------------------------------------------

  /** An upper bound on the steps a caller has left, in a run of `n` callers. */
  function StepsLeft(n: nat): Caller -> int {
    (c: Caller) => 3 * (n - 1 - c.rounds) + match c.phase
                   case Looking => 4
                   case Asking => 3
                   case Peeking => 3
                   case Storing(_) => 2
                   case Abandoning => 2
                   case Waiting(_) => 2
                   case CountingMiss(_) => 1
                   case CountingHit(_) => 1
                   case Setting(_) => 1
                   case _ => 0
  }

  function Total(f: Caller -> int, callers: seq<Caller>): int {
    if callers == [] then 0 else f(callers[0]) + Total(f, callers[1..])
  }

  lemma {:induction false} TotalUpdate(f: Caller -> int, callers: seq<Caller>, i: nat, c: Caller)
    requires i < |callers|
    ensures Total(f, callers[i := c]) == Total(f, callers) - f(callers[i]) + f(c)
  {
    if i == 0 {
      assert callers[0 := c][1..] == callers[1..];
    } else {
      TotalUpdate(f, callers[1..], i - 1, c);
      assert callers[i := c][1..] == callers[1..][i - 1 := c];
    }
  }

  lemma {:induction false} OnceMore(n: nat, high: nat)
    ensures (n + 1) * high == n * high + high
  {
  }

  lemma {:induction false} TotalBounds(f: Caller -> int, callers: seq<Caller>, high: nat)
    requires forall c :: c in callers ==> 0 <= f(c) <= high
    ensures 0 <= Total(f, callers) <= |callers| * high
  {
    if callers == [] {
    } else {
      TotalBounds(f, callers[1..], high);
      OnceMore(|callers[1..]|, high);
    }
  }

  lemma {:induction false} StepsLeftFalls(s: State, m: Move, n: nat)
    requires CanMove(s, m)
    ensures Total(StepsLeft(n), Step(s, m).callers) < Total(StepsLeft(n), s.callers)
  {
    TotalUpdate(StepsLeft(n), s.callers, m.who, Step(s, m).callers[m.who]);
  }

  lemma {:induction false} RunFalls(s: State, moves: seq<Move>, n: nat)
    requires Runs(s, moves)
    ensures |moves| + Total(StepsLeft(n), After(s, moves).callers) <= Total(StepsLeft(n), s.callers)
    decreases |moves|
  {
    if moves == [] {
    } else {
      StepsLeftFalls(s, moves[0], n);
      RunFalls(Step(s, moves[0]), moves[1..], n);
    }
  }

  lemma {:induction false} StepsLeftIsNat(s: State, base: map<Key, Answer>)
    ensures Invariant(s, base) ==> 0 <= Total(StepsLeft(|s.callers|), s.callers)
  {
    if Invariant(s, base) {
      var n := |s.callers|;
      forall c | c in s.callers ensures 0 <= StepsLeft(n)(c) <= 3 * n + 4 {}
      TotalBounds(StepsLeft(n), s.callers, 3 * n + 4);
    }
  }

  lemma {:induction false} StepsAtStart(base: map<Key, Answer>, keys: seq<Key>)
    ensures Total(StepsLeft(|keys|), Start(base, keys).callers) <= |keys| * (3 * |keys| + 1)
  {
    if keys != [] {
      TotalBounds(StepsLeft(|keys|), Start(base, keys).callers, 3 * |keys| + 1);
    }
  }

  /** No run of `n` callers is longer than `n(3n + 1)` steps, however it is scheduled. */
  lemma {:induction false} RunsAreShort(base: map<Key, Answer>, keys: seq<Key>, moves: seq<Move>)
    requires Runs(Start(base, keys), moves)
    ensures |moves| <= |keys| * (3 * |keys| + 1)
  {
    ReachableInvariant(base, keys, moves);
    RunFalls(Start(base, keys), moves, |keys|);
    StepsLeftIsNat(After(Start(base, keys), moves), base);
    StepsAtStart(base, keys);
  }

  /** Nobody goes back to the top of the loop as often as there are callers of its key. */
  lemma {:induction false} RoundsAreFew(base: map<Key, Answer>, keys: seq<Key>, moves: seq<Move>, i: nat)
    requires Runs(Start(base, keys), moves) && i < |keys|
    ensures var s := After(Start(base, keys), moves);
            s.callers[i].rounds < Count(SameKey(keys[i]), s.callers)
  {
    ReachableInvariant(base, keys, moves);
  }

  lemma {:induction false} FinishFrom(s: State, base: map<Key, Answer>) returns (more: seq<Move>)
    ensures Invariant(s, base) ==> Runs(s, more) && forall c :: c in After(s, more).callers ==> Done(c)
    decreases Total(StepsLeft(|s.callers|), s.callers)
  {
    more := [];
    if Invariant(s, base) {
      StepsLeftIsNat(s, base);
      if i: nat :| i < |s.callers| && !Done(s.callers[i]) {
        SomebodyCanMove(s, base, i);
        var j: nat :| Unblocks(s, i, j) && CanMove(s, Move(j, None));
        var m := Move(j, None);
        StepInvariant(s, m, base);
        StepsLeftFalls(s, m, |s.callers|);
        var rest := FinishFrom(Step(s, m), base);
        more := [m] + rest;
        assert more[1..] == rest;
      }
    }
  }

  /** From any moment of any run there is a way to finish. */
  lemma {:induction false} CanFinish(base: map<Key, Answer>, keys: seq<Key>, moves: seq<Move>) returns (more: seq<Move>)
    requires Runs(Start(base, keys), moves)
    ensures Runs(After(Start(base, keys), moves), more)
    ensures forall c :: c in After(After(Start(base, keys), moves), more).callers ==> Done(c)
  {
    ReachableInvariant(base, keys, moves);
    more := FinishFrom(After(Start(base, keys), moves), base);
  }

  // ---- what a finished run adds up to ------------------------------------------------

  lemma {:induction false} CountSplit(p: Caller -> bool, q: Caller -> bool, r: Caller -> bool, callers: seq<Caller>)
    requires forall c :: c in callers ==> (p(c) <==> q(c) || r(c)) && !(q(c) && r(c))
    ensures Count(p, callers) == Count(q, callers) + Count(r, callers)
  {
    if callers == [] {
    } else {
      CountSplit(p, q, r, callers[1..]);
    }
  }

  lemma {:induction false} ResumedAreHeld(s: State, onDisk: set<Key>)
    requires forall c :: c in s.callers ==> (CountedResume(onDisk)(c) <==> HeldBefore(onDisk)(c))
    ensures Count(CountedResume(onDisk), s.callers) == Count(HeldBefore(onDisk), s.callers)
  {
    CountMonotone(CountedResume(onDisk), HeldBefore(onDisk), s.callers);
    CountMonotone(HeldBefore(onDisk), CountedResume(onDisk), s.callers);
  }

  lemma {:induction false} FinishedBooks(s: State, base: map<Key, Answer>)
    requires forall c :: c in s.callers ==> Done(c)
    ensures Invariant(s, base) ==>
              && s.shared.resumed + s.shared.repeated + s.shared.misses == Count(Returned(), s.callers)
              && s.shared.misses == |s.shared.appended| == |s.shared.rows| - |base|
              && s.shared.resumed == Count(HeldBefore(base.Keys), s.callers)
  {
    if Invariant(s, base) {
      forall c | c in s.callers ensures CountedResume(base.Keys)(c) <==> HeldBefore(base.Keys)(c) {
        var i :| 0 <= i < |s.callers| && s.callers[i] == c;
      }
      ResumedAreHeld(s, base.Keys);
      CountSplit(CountedHit(), CountedResume(base.Keys), CountedRepeat(base.Keys), s.callers);
      CountSplit(Returned(), CountedMiss(), CountedHit(), s.callers);
      CountMonotone(StoredHere(), CountedMiss(), s.callers);
      CountMonotone(CountedMiss(), StoredHere(), s.callers);
    }
  }

  lemma {:induction false} DoneMeansReleased(s: State)
    requires OwnersOk(s) && forall c :: c in s.callers ==> Done(c)
    ensures s.shared.inflight == map[]
  {
    forall i: nat, k ensures !Owner(s, i, k) {
      assert i < |s.callers| ==> s.callers[i] in s.callers;
    }
  }

  /** A run that cannot go on has finished: every caller is done and every claim released. */
  lemma {:induction false} StoppedMeansFinished(base: map<Key, Answer>, keys: seq<Key>, moves: seq<Move>)
    requires Runs(Start(base, keys), moves)
    requires forall m :: !CanMove(After(Start(base, keys), moves), m)
    ensures forall c :: c in After(Start(base, keys), moves).callers ==> Done(c)
    ensures After(Start(base, keys), moves).shared.inflight == map[]
  {
    var s := After(Start(base, keys), moves);
    ReachableInvariant(base, keys, moves);
    if i: nat :| i < |s.callers| && !Done(s.callers[i]) {
      SomebodyCanMove(s, base, i);
    }
    DoneMeansReleased(s);
  }

  /** Callers of one key that returned agree, and gave the answer the file now holds for it;
      a key the file already held gave that answer to every caller. */
  lemma {:induction false} CallersAgree(base: map<Key, Answer>, keys: seq<Key>, moves: seq<Move>, i: nat)
    requires Runs(Start(base, keys), moves) && i < |keys|
    ensures var s := After(Start(base, keys), moves);
            && s.shared.rows == FirstWins(base, s.shared.appended)
            && (Returned()(s.callers[i]) ==>
                  keys[i] in s.shared.rows && s.callers[i].phase.out == s.shared.rows[keys[i]])
            && (Done(s.callers[i]) && keys[i] in base ==> s.callers[i].phase == Replayed(base[keys[i]]))
  {
    ReachableInvariant(base, keys, moves);
  }

  /** When everybody is done the books balance: every returned answer was counted once, a miss
      is a row this run appended, and the resumes are exactly the calls the file already held. */
  lemma {:induction false} BooksBalance(base: map<Key, Answer>, keys: seq<Key>, moves: seq<Move>)
    requires Runs(Start(base, keys), moves)
    requires forall c :: c in After(Start(base, keys), moves).callers ==> Done(c)
    ensures var s := After(Start(base, keys), moves);
            && s.shared.resumed + s.shared.repeated + s.shared.misses == Count(Returned(), s.callers)
            && s.shared.misses == |s.shared.appended| == |s.shared.rows| - |base|
            && s.shared.resumed == Count(HeldBefore(base.Keys), s.callers)
  {
    ReachableInvariant(base, keys, moves);
    FinishedBooks(After(Start(base, keys), moves), base);
  }

  // ---- whose answers they are --------------------------------------------------------

  /** What the inner reader said to a caller: an answer, or `None` when it raised. */
  datatype Reply = Reply(who: nat, said: Option<Answer>)

  /** Everything the inner reader said during a run, in order. */
  function Replies(s: State, moves: seq<Move>): (replies: seq<Reply>)
    requires Runs(s, moves)
    decreases |moves|
  {
    if moves == [] then []
    else
      var m := moves[0];
      (if s.callers[m.who].phase.Asking? then [Reply(m.who, m.inner)] else []) + Replies(Step(s, m), moves[1..])
  }

  /** The caller was given this answer, and stores, counts or has returned it. */
  predicate Holding(c: Caller, answer: Answer) {
    c.phase == Storing(answer) || c.phase == CountingMiss(answer) || c.phase == Paid(answer)
  }

  /** The caller's inner call raised. */
  predicate GivesUp(c: Caller) {
    c.phase.Abandoning? || c.phase.Setting? || c.phase.Failed?
  }

  /** A caller holds an answer just when it held it before or the reader gave it, and gives up
      just when it had before or the reader raised. */
  lemma {:induction false} RepliesDecide(s: State, moves: seq<Move>, i: nat, answer: Answer)
    requires Runs(s, moves) && i < |s.callers|
    ensures var c, c' := s.callers[i], After(s, moves).callers[i];
            && (Holding(c', answer) <==> Holding(c, answer) || Reply(i, Some(answer)) in Replies(s, moves))
            && (GivesUp(c') <==> GivesUp(c) || Reply(i, None) in Replies(s, moves))
    decreases |moves|
  {
    if moves == [] {
    } else {
      RepliesDecide(Step(s, moves[0]), moves[1..], i, answer);
    }
  }

  function SaidTo(i: nat): Reply -> bool {
    (r: Reply) => r.who == i
  }

  /** The caller may still be asking, or come to ask. */
  predicate Undecided(c: Caller) {
    c.phase.Looking? || c.phase.Asking? || c.phase.Peeking? || c.phase.Waiting?
  }

  lemma {:induction false} OneReplyAtMost(s: State, moves: seq<Move>, i: nat)
    requires Runs(s, moves) && i < |s.callers|
    ensures Count(SaidTo(i), Replies(s, moves)) <= if Undecided(s.callers[i]) then 1 else 0
    decreases |moves|
  {
    if moves == [] {
    } else {
      var m, rest := moves[0], Replies(Step(s, moves[0]), moves[1..]);
      OneReplyAtMost(Step(s, m), moves[1..], i);
      assert ([Reply(m.who, m.inner)] + rest)[1..] == rest && [] + rest == rest;
    }
  }

  ghost predicate HeldBy(s: State, row: Row, i: nat) {
    i < |s.callers| && s.callers[i].key == row.id && Holding(s.callers[i], row.answer)
  }

  /** Every row that was appended is still in the hands of the caller that stored it. */
  ghost predicate RowsHeld(s: State) {
    forall row :: row in s.shared.appended ==> exists i :: HeldBy(s, row, i)
  }

  lemma {:induction false} RowsHeldNext(s: State, m: Move)
    requires CanMove(s, m) && RowsHeld(s)
    ensures RowsHeld(Step(s, m))
  {
    var t, c := Step(s, m), s.callers[m.who];
    OnlyPutWrites(s, m);
    forall row | row in t.shared.appended ensures exists i :: HeldBy(t, row, i) {
      if row in s.shared.appended {
        var i :| HeldBy(s, row, i);
        assert HeldBy(t, row, i);
      } else {
        assert row == Row(c.key, c.phase.out) && HeldBy(t, row, m.who);
      }
    }
  }

  lemma {:induction false} RowsAreHeld(s: State, moves: seq<Move>)
    requires Runs(s, moves) && RowsHeld(s)
    ensures RowsHeld(After(s, moves))
    decreases |moves|
  {
    if moves == [] {
    } else {
      RowsHeldNext(s, moves[0]);
      RowsAreHeld(Step(s, moves[0]), moves[1..]);
    }
  }

  /** The inner reader is asked at most once by each caller. One that is done returned what the
      reader said to it, if it said anything, and raised if and only if the reader did. */
  lemma {:induction false} CallersGetTheirReply(base: map<Key, Answer>, keys: seq<Key>, moves: seq<Move>, i: nat, answer: Answer)
    requires Runs(Start(base, keys), moves) && i < |keys|
    ensures var c, replies := After(Start(base, keys), moves).callers[i], Replies(Start(base, keys), moves);
            && Count(SaidTo(i), replies) <= 1
            && (Done(c) ==>
              && (c.phase == Paid(answer) <==> Reply(i, Some(answer)) in replies)
              && (c.phase.Failed? <==> Reply(i, None) in replies))
  {
    OneReplyAtMost(Start(base, keys), moves, i);
    RepliesDecide(Start(base, keys), moves, i, answer);
  }

  /** A row that a run appends is what the inner reader said to a caller of its key. */
  lemma {:induction false} RowsWereSaid(base: map<Key, Answer>, keys: seq<Key>, moves: seq<Move>, row: Row) returns (i: nat)
    requires Runs(Start(base, keys), moves) && row in After(Start(base, keys), moves).shared.appended
    ensures i < |keys| && keys[i] == row.id && Reply(i, Some(row.answer)) in Replies(Start(base, keys), moves)
  {
    var s := Start(base, keys);
    RowsAreHeld(s, moves);
    i :| HeldBy(After(s, moves), row, i);
    RepliesDecide(s, moves, i, row.answer);
  }

  lemma {:induction false} FirstWinsFinds(rows: map<Key, Answer>, lines: seq<Row>, k: Key)
    requires k in FirstWins(rows, lines) && k !in rows
    ensures Row(k, FirstWins(rows, lines)[k]) in lines
  {
    if k in FirstWins(rows, lines[..|lines| - 1]) {
      FirstWinsFinds(rows, lines[..|lines| - 1], k);
    }
  }

  /** What a caller returns stood in the file, or is what the inner reader said, in this run, to
      a caller of the same key. */
  lemma {:induction false} AnswersWereSaid(base: map<Key, Answer>, keys: seq<Key>, moves: seq<Move>, i: nat)
    requires Runs(Start(base, keys), moves) && i < |keys| && Returned()(After(Start(base, keys), moves).callers[i])
    ensures var out := After(Start(base, keys), moves).callers[i].phase.out;
            if keys[i] in base then out == base[keys[i]]
            else exists j: nat :: j < |keys| && keys[j] == keys[i] && Reply(j, Some(out)) in Replies(Start(base, keys), moves)
  {
    var s := After(Start(base, keys), moves);
    CallersAgree(base, keys, moves, i);
    if keys[i] !in base {
      FirstWinsFinds(base, s.shared.appended, keys[i]);
      var j := RowsWereSaid(base, keys, moves, Row(keys[i], s.shared.rows[keys[i]]));
    }
  }

  /** A row that the file gives back as it was written. */
  predicate Durable(row: Row) {
    HasNoBreak(row) && row.answer.model != ""
  }

  lemma {:induction false} DurableIsKept(parse: Parser, rows: seq<Row>)
    requires Parses(parse) && forall row :: row in rows ==> Durable(row)
    ensures Readable(Rows(parse), SplitLines(Written(Rows(parse), rows))) == rows
  {
    RoundTrip(parse, rows);
  }

  /** At any moment of a run over a file that earlier runs left whole, what the next process
      would load is exactly what this one holds. */
  lemma {:induction false} ReloadGivesTheRows(parse: Parser, before: seq<Row>, keys: seq<Key>, moves: seq<Move>)
    requires Parses(parse)
    requires Runs(Start(FirstWins(map[], before), keys), moves)
    requires forall row :: row in before + After(Start(FirstWins(map[], before), keys), moves).shared.appended ==> Durable(row)
    ensures var s := After(Start(FirstWins(map[], before), keys), moves);
            Reload(parse, Written(Rows(parse), before + s.shared.appended)) == s.shared.rows
  {
    var s := After(Start(FirstWins(map[], before), keys), moves);
    ReachableInvariant(FirstWins(map[], before), keys, moves);
    DurableIsKept(parse, before + s.shared.appended);
    FirstWinsAppend(map[], before, s.shared.appended);
  }
}
