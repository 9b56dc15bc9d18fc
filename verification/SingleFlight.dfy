/**
 `CheckpointedReader.answer` run by any number of callers at once, over one checkpoint.

 A caller is a program counter: each lock-held block of the source is one atomic step, and
 so is `event.set()` in `_release`, which runs after the lock is dropped. The scheduler and
 what the inner reader does (return any answer, or raise) are arbitrary.
 */
module SingleFlight {
  import opened Prelude
  import opened Journal
  import opened Checkpoints

  datatype Phase =
    | Looking                        // about to call `begin`
    | Asking                         // owns the call: inside `inner.answer`
    | Storing(out: Answer)           // the call returned; about to `put`
    | CountingMiss(out: Answer)      // stored; about to `count(hit=False)`
    | CountingHit(out: Answer)       // found a row; about to `count(hit=True)`
    | Abandoning                     // the call raised; about to pop its event
    | Setting(ev: Option<Event>)     // popped the event, lock dropped, not yet set
    | Peeking                        // somebody else owns the call; about to read its event
    | Waiting(awaited: Event)        // blocked in `event.wait`
    | Paid(out: Answer)              // returned what the inner reader said
    | Replayed(out: Answer)          // returned a stored row
    | Failed                         // re-raised the inner reader's exception

  /** One call of `answer`. `rounds` is how often it has gone back to the top of the loop. */
  datatype Caller = Caller(key: Key, phase: Phase, rounds: nat)

  datatype State = State(shared: Shared, callers: seq<Caller>)

  /** Who moves, and what the inner reader does if that caller is inside it: `None` raises. */
  datatype Move = Move(who: nat, inner: Option<Answer>)

  function Start(rows: map<Key, Answer>, keys: seq<Key>): (s: State)
    ensures |s.callers| == |keys|
  {
    State(Opened(rows), seq(|keys|, i requires 0 <= i < |keys| => Caller(keys[i], Looking, 0)))
  }

  predicate Done(c: Caller) {
    c.phase.Paid? || c.phase.Replayed? || c.phase.Failed?
  }

  predicate CanMove(s: State, m: Move) {
    m.who < |s.callers|
    && !Done(s.callers[m.who])
    && (s.callers[m.who].phase.Waiting? ==> s.callers[m.who].phase.awaited in s.shared.fired)
  }

  /** One atomic block of `answer`. */
  function Advanced(sh: Shared, c: Caller, inner: Option<Answer>): (r: (Shared, Caller))
    requires !Done(c)
    ensures r.1.key == c.key
  {
    match c.phase
    case Looking =>
      var (sh', grant) := Begun(sh, c.key);
      (sh', c.(phase := match grant
                        case Hit(row) => CountingHit(row)
                        case Mine => Asking
                        case Theirs => Peeking))
    case Asking =>
      (sh, c.(phase := if inner.Some? then Storing(inner.value) else Abandoning))
    case Storing(out) =>
      (Stored(sh, c.key, out), c.(phase := CountingMiss(out)))
    case CountingMiss(out) =>
      (Counted(sh, c.key, false), c.(phase := Paid(out)))
    case CountingHit(out) =>
      (Counted(sh, c.key, true), c.(phase := Replayed(out)))
    case Abandoning =>
      (Popped(sh, c.key), c.(phase := Setting(Peeked(sh, c.key))))
    case Setting(ev) =>
      (Fired(sh, ev), c.(phase := Failed))
    case Peeking =>
      var ev := Peeked(sh, c.key);
      (sh, if ev.Some? then c.(phase := Waiting(ev.value))
           else c.(phase := Looking, rounds := c.rounds + 1))
    case Waiting(ev) =>
      (sh, c.(phase := Looking, rounds := c.rounds + 1))
    case Paid(_) => (sh, c)
    case Replayed(_) => (sh, c)
    case Failed => (sh, c)
  }

  function Step(s: State, m: Move): (s': State)
    requires CanMove(s, m)
    ensures |s'.callers| == |s.callers|
    ensures forall i :: 0 <= i < |s.callers| ==> s'.callers[i].key == s.callers[i].key
  {
    var (sh, c) := Advanced(s.shared, s.callers[m.who], m.inner);
    State(sh, s.callers[m.who := c])
  }

  /** A schedule every step of which is possible. */
  predicate Runs(s: State, moves: seq<Move>)
    decreases |moves|
  {
    moves == [] || (CanMove(s, moves[0]) && Runs(Step(s, moves[0]), moves[1..]))
  }

  function After(s: State, moves: seq<Move>): (s': State)
    requires Runs(s, moves)
    ensures |s'.callers| == |s.callers|
    ensures forall i :: 0 <= i < |s.callers| ==> s'.callers[i].key == s.callers[i].key
    decreases |moves|
  {
    if moves == [] then s else After(Step(s, moves[0]), moves[1..])
  }

  /** A thread inside `answer`, whose atomic blocks are the checkpoint's methods. */
  class Thread {
    const key: Key
    var phase: Phase
    var rounds: nat

    constructor (key: Key)
      ensures this.key == key && View() == Caller(key, Looking, 0)
    {
      this.key := key;
      phase, rounds := Looking, 0;
    }

    function View(): Caller
      reads this
    {
      Caller(key, phase, rounds)
    }

    method Advance(checkpoint: Checkpoint, inner: Option<Answer>)
      requires !Done(View())
      modifies this, checkpoint
      ensures (checkpoint.View(), View()) == Advanced(old(checkpoint.View()), old(View()), inner)
    {
      match phase {
        case Looking =>
          var grant := checkpoint.Begin(key);
          match grant {
            case Hit(row) => phase := CountingHit(row);
            case Mine => phase := Asking;
            case Theirs => phase := Peeking;
          }
        case Asking =>
          phase := if inner.Some? then Storing(inner.value) else Abandoning;
        case Storing(out) =>
          checkpoint.Put(key, out);
          phase := CountingMiss(out);
        case CountingMiss(out) =>
          checkpoint.Tally(key, false);
          phase := Paid(out);
        case CountingHit(out) =>
          checkpoint.Tally(key, true);
          phase := Replayed(out);
        case Abandoning =>
          var ev := checkpoint.Pop(key);
          phase := Setting(ev);
        case Setting(ev) =>
          checkpoint.Fire(ev);
          phase := Failed;
        case Peeking =>
          var ev := checkpoint.Peek(key);
          if ev.Some? {
            phase := Waiting(ev.value);
          } else {
            phase, rounds := Looking, rounds + 1;
          }
        case Waiting(_) =>
          phase, rounds := Looking, rounds + 1;
      }
    }
  }

  // ---- the invariant -----------------------------------------------------------------

  /** The caller has claimed its key and not yet released it. */
  predicate Holds(c: Caller) {
    c.phase.Asking? || c.phase.Storing? || c.phase.Abandoning?
  }

  /** The caller's inner call is running, or returned an answer: the calls that are paid for. */
  predicate Pays(c: Caller) {
    c.phase.Asking? || c.phase.Storing? || c.phase.CountingMiss? || c.phase.Paid?
  }

  /** The caller's claim has been released. */
  predicate Released(c: Caller) {
    c.phase.Setting? || c.phase.Failed? || c.phase.CountingMiss? || c.phase.Paid?
  }

  predicate Replays(c: Caller) {
    c.phase.CountingHit? || c.phase.Replayed?
  }

  function SameKey(k: Key): Caller -> bool { (c: Caller) => c.key == k }
  function ReleasedOf(k: Key): Caller -> bool { (c: Caller) => c.key == k && Released(c) }
  function StoredHere(): Caller -> bool { (c: Caller) => c.phase.CountingMiss? || c.phase.Paid? }
  function Returned(): Caller -> bool { (c: Caller) => c.phase.Paid? || c.phase.Replayed? }
  function HeldBefore(onDisk: set<Key>): Caller -> bool { (c: Caller) => c.key in onDisk }
  function CountedMiss(): Caller -> bool { (c: Caller) => c.phase.Paid? }
  function CountedHit(): Caller -> bool { (c: Caller) => c.phase.Replayed? }
  function CountedResume(onDisk: set<Key>): Caller -> bool { (c: Caller) => c.phase.Replayed? && c.key in onDisk }
  function CountedRepeat(onDisk: set<Key>): Caller -> bool { (c: Caller) => c.phase.Replayed? && c.key !in onDisk }

  /** The events on file: those of live claims are distinct and unset, and nothing stored is claimed. */
  ghost predicate EventsOk(sh: Shared) {
    && sh.inflight.Keys !! sh.rows.Keys
    && (forall k :: k in sh.inflight ==> sh.inflight[k] < sh.created && sh.inflight[k] !in sh.fired)
    && (forall k, l :: k in sh.inflight && l in sh.inflight && sh.inflight[k] == sh.inflight[l] ==> k == l)
    && (forall e :: e in sh.fired ==> e < sh.created)
  }

  predicate Owner(s: State, i: nat, k: Key) {
    i < |s.callers| && s.callers[i].key == k && Holds(s.callers[i])
  }

  /** Every claim has exactly one live owner. */
  ghost predicate OwnersOk(s: State) {
    && (forall i, k :: Owner(s, i, k) ==> k in s.shared.inflight)
    && (forall i, j, k :: Owner(s, i, k) && Owner(s, j, k) ==> i == j)
    && (forall k :: k in s.shared.inflight ==> exists i :: Owner(s, i, k))
  }

  /** Caller `i` has popped event `e` of key `k` and not yet set it. */
  predicate Setter(s: State, i: nat, k: Key, e: Event) {
    i < |s.callers| && s.callers[i].key == k && s.callers[i].phase == Setting(Some(e))
  }

  ghost predicate SettersOk(s: State) {
    forall i :: 0 <= i < |s.callers| && s.callers[i].phase.Setting? ==>
      && s.callers[i].phase.ev.Some?
      && s.callers[i].phase.ev.value < s.shared.created
      && s.callers[i].phase.ev.value !in s.shared.inflight.Values
  }

  /** The event `e` that a caller of key `k` waits on is set, or claimed, or about to be set. */
  ghost predicate Wakes(s: State, k: Key, e: Event) {
    && e < s.shared.created
    && (|| e in s.shared.fired
        || (k in s.shared.inflight && s.shared.inflight[k] == e)
        || exists j :: Setter(s, j, k, e))
  }

  ghost predicate WaitersOk(s: State) {
    forall i :: 0 <= i < |s.callers| && s.callers[i].phase.Waiting? ==>
      Wakes(s, s.callers[i].key, s.callers[i].phase.awaited)
  }

  /** Every answer handed out is the stored row of its key. */
  ghost predicate AnswersOk(s: State) {
    forall i :: 0 <= i < |s.callers| && (StoredHere()(s.callers[i]) || Replays(s.callers[i])) ==>
      s.callers[i].key in s.shared.rows && s.callers[i].phase.out == s.shared.rows[s.callers[i].key]
  }

  predicate Payer(s: State, i: nat, k: Key) {
    i < |s.callers| && s.callers[i].key == k && Pays(s.callers[i])
  }

  /** One paid call a key, and no call at all for a key the file already held. */
  ghost predicate PayersOk(s: State) {
    && (forall i, j, k :: Payer(s, i, k) && Payer(s, j, k) ==> i == j)
    && (forall i :: 0 <= i < |s.callers| && (Holds(s.callers[i]) || Released(s.callers[i])) ==>
          s.callers[i].key !in s.shared.onDisk)
  }

  /** The rows are what the file holds, each key once. */
  ghost predicate FileOk(sh: Shared, base: map<Key, Answer>) {
    && base.Keys <= sh.rows.Keys
    && sh.rows == FirstWins(base, sh.appended)
    && |sh.rows| == |base| + |sh.appended|
  }

  /** Each counter counts the callers it says it does. */
  ghost predicate BooksOk(s: State, base: map<Key, Answer>) {
    var sh := s.shared;
    && sh.onDisk == base.Keys
    && |sh.appended| == Count(StoredHere(), s.callers)
    && sh.misses == Count(CountedMiss(), s.callers)
    && sh.resumed == Count(CountedResume(sh.onDisk), s.callers)
    && sh.repeated == Count(CountedRepeat(sh.onDisk), s.callers)
  }

  /** Claims of a key that have ended. */
  ghost function Ended(s: State, k: Key): nat {
    Count(ReleasedOf(k), s.callers)
  }

  /** Going round the loop again is paid for by the end of somebody else's claim. */
  ghost predicate RoundPaid(s: State, c: Caller) {
    match c.phase
    case Looking => c.rounds <= Ended(s, c.key)
    case Peeking => c.rounds + 1 <= Ended(s, c.key) + if c.key in s.shared.inflight then 1 else 0
    case Waiting(e) =>
      c.rounds + 1 <= Ended(s, c.key)
                      + if c.key in s.shared.inflight && s.shared.inflight[c.key] == e then 1 else 0
    case _ => true
  }

  ghost predicate RoundsOk(s: State) {
    && (forall i :: 0 <= i < |s.callers| ==> RoundPaid(s, s.callers[i]))
    && (forall i :: 0 <= i < |s.callers| ==> s.callers[i].rounds < Count(SameKey(s.callers[i].key), s.callers))
  }

  ghost predicate Invariant(s: State, base: map<Key, Answer>) {
    && EventsOk(s.shared) && OwnersOk(s) && SettersOk(s) && WaitersOk(s)
    && AnswersOk(s) && PayersOk(s) && FileOk(s.shared, base) && BooksOk(s, base) && RoundsOk(s)
  }

  lemma {:induction false} StartInvariant(rows: map<Key, Answer>, keys: seq<Key>)
    ensures Invariant(Start(rows, keys), rows)
  {
    var s := Start(rows, keys);
    assert BooksOk(s, rows) by {
      CountNone(StoredHere(), s.callers);
      CountNone(CountedMiss(), s.callers);
      CountNone(CountedResume(rows.Keys), s.callers);
      CountNone(CountedRepeat(rows.Keys), s.callers);
    }
    forall i | 0 <= i < |s.callers|
      ensures s.callers[i].rounds < Count(SameKey(s.callers[i].key), s.callers)
    {
      CountStrict((c: Caller) => false, SameKey(s.callers[i].key), s.callers, i);
    }
    assert OwnersOk(s) && PayersOk(s);
  }

  // ---- every step keeps it -----------------------------------------------------------

  lemma {:induction false} EventsKept(s: State, m: Move)
    requires CanMove(s, m) && EventsOk(s.shared) && SettersOk(s)
    ensures EventsOk(Step(s, m).shared)
  {
    var c := s.callers[m.who];
    match c.phase {
      case Setting(ev) => assert forall k :: k in s.shared.inflight ==> s.shared.inflight[k] in s.shared.inflight.Values;
      case _ =>
    }
  }

  lemma {:induction false} OwnerClaims(s: State, m: Move, i: nat, k: Key)
    requires CanMove(s, m) && OwnersOk(s) && Owner(Step(s, m), i, k)
    ensures k in Step(s, m).shared.inflight
    ensures Owner(s, i, k) || (i == m.who && k !in s.shared.inflight)
  {
    assert i != m.who ==> Owner(s, i, k);
    assert Holds(s.callers[m.who]) <==> Owner(s, m.who, s.callers[m.who].key);
  }

  lemma {:induction false} ClaimIsOwned(s: State, m: Move, k: Key)
    requires CanMove(s, m) && OwnersOk(s) && k in Step(s, m).shared.inflight
    ensures exists i :: Owner(Step(s, m), i, k)
  {
    if k in s.shared.inflight {
      var i: nat :| Owner(s, i, k);
      assert Owner(Step(s, m), i, k);
    } else {
      assert Owner(Step(s, m), m.who, k);
    }
  }

  lemma {:induction false} OwnersKept(s: State, m: Move)
    requires CanMove(s, m) && OwnersOk(s)
    ensures OwnersOk(Step(s, m))
  {
    var s' := Step(s, m);
    forall i: nat, k | Owner(s', i, k)
      ensures k in s'.shared.inflight && (Owner(s, i, k) || (i == m.who && k !in s.shared.inflight))
    {
      OwnerClaims(s, m, i, k);
    }
    forall k | k in s'.shared.inflight ensures exists i :: Owner(s', i, k) {
      ClaimIsOwned(s, m, k);
    }
  }

  lemma {:induction false} SettersKept(s: State, m: Move)
    requires CanMove(s, m) && EventsOk(s.shared) && OwnersOk(s) && SettersOk(s)
    ensures SettersOk(Step(s, m))
  {
    var c := s.callers[m.who];
    assert Holds(c) <==> Owner(s, m.who, c.key);
  }

  lemma {:induction false} WaitersKept(s: State, m: Move)
    requires CanMove(s, m) && EventsOk(s.shared) && OwnersOk(s) && SettersOk(s) && WaitersOk(s)
    ensures WaitersOk(Step(s, m))
  {
    var s', w := Step(s, m), m.who;
    assert Holds(s.callers[w]) <==> Owner(s, w, s.callers[w].key);
    forall k, e | Wakes(s, k, e) ensures Wakes(s', k, e) {
      if j :| Setter(s, j, k, e) {
        assert j != w ==> Setter(s', j, k, e);
      }
      assert k == s.callers[w].key && s.callers[w].phase.Abandoning? && k in s.shared.inflight && s.shared.inflight[k] == e
        ==> Setter(s', w, k, e);
    }
  }

  lemma {:induction false} AnswersKept(s: State, m: Move)
    requires CanMove(s, m) && EventsOk(s.shared) && OwnersOk(s) && AnswersOk(s)
    ensures AnswersOk(Step(s, m))
  {
    var c := s.callers[m.who];
    assert Holds(c) <==> Owner(s, m.who, c.key);
  }

  lemma {:induction false} PayersKept(s: State, m: Move)
    requires CanMove(s, m) && EventsOk(s.shared) && OwnersOk(s) && AnswersOk(s) && PayersOk(s)
    requires s.shared.onDisk <= s.shared.rows.Keys
    ensures PayersOk(Step(s, m))
  {
    var s', w := Step(s, m), m.who;
    var c := s.callers[w];
    forall i, k | Payer(s', i, k)
      ensures Payer(s, i, k) || (i == w && k == c.key && c.phase.Looking? && forall j: nat :: !Payer(s, j, k))
    {
      if !Payer(s, i, k) {
        forall j: nat ensures !Payer(s, j, k) {
          assert Payer(s, j, k) && Holds(s.callers[j]) ==> Owner(s, j, k);
        }
      }
    }
  }

  lemma {:induction false} StoredFile(sh: Shared, key: Key, answer: Answer, base: map<Key, Answer>)
    requires FileOk(sh, base)
    ensures FileOk(Stored(sh, key, answer), base)
  {
    FirstWinsSnoc(base, sh.appended, Row(key, answer));
  }

  lemma {:induction false} OnlyPutWrites(s: State, m: Move)
    requires CanMove(s, m)
    ensures var sh, sh', c := s.shared, Step(s, m).shared, s.callers[m.who];
            if c.phase.Storing? then sh' == Stored(sh, c.key, c.phase.out)
            else sh'.rows == sh.rows && sh'.appended == sh.appended
  {
  }

  lemma {:induction false} FileKept(s: State, m: Move, base: map<Key, Answer>)
    requires CanMove(s, m) && FileOk(s.shared, base)
    ensures FileOk(Step(s, m).shared, base)
  {
    var sh, sh', c := s.shared, Step(s, m).shared, s.callers[m.who];
    OnlyPutWrites(s, m);
    if c.phase.Storing? {
      StoredFile(sh, c.key, c.phase.out, base);
    } else {
      assert FirstWins(base, sh'.appended) == FirstWins(base, sh.appended);
    }
  }

  /** How the counters and the file move with the one caller that moves. */
  lemma {:induction false} BooksMove(s: State, m: Move)
    requires CanMove(s, m) && EventsOk(s.shared) && OwnersOk(s)
    ensures var sh, sh', c, c' := s.shared, Step(s, m).shared, s.callers[m.who], Step(s, m).callers[m.who];
            && sh'.onDisk == sh.onDisk
            && |sh'.appended| + (if StoredHere()(c) then 1 else 0) == |sh.appended| + (if StoredHere()(c') then 1 else 0)
            && sh'.misses + (if CountedMiss()(c) then 1 else 0) == sh.misses + (if CountedMiss()(c') then 1 else 0)
            && sh'.resumed + (if CountedResume(sh.onDisk)(c) then 1 else 0)
               == sh.resumed + (if CountedResume(sh.onDisk)(c') then 1 else 0)
            && sh'.repeated + (if CountedRepeat(sh.onDisk)(c) then 1 else 0)
               == sh.repeated + (if CountedRepeat(sh.onDisk)(c') then 1 else 0)
  {
    var c := s.callers[m.who];
    assert Holds(c) <==> Owner(s, m.who, c.key);
  }

  lemma {:induction false} BooksKept(s: State, m: Move, base: map<Key, Answer>)
    requires CanMove(s, m) && EventsOk(s.shared) && OwnersOk(s) && BooksOk(s, base)
    ensures BooksOk(Step(s, m), base)
  {
    BooksMove(s, m);
    var i, c' := m.who, Step(s, m).callers[m.who];
    CountUpdate(StoredHere(), s.callers, i, c');
    CountUpdate(CountedMiss(), s.callers, i, c');
    CountUpdate(CountedResume(s.shared.onDisk), s.callers, i, c');
    CountUpdate(CountedRepeat(s.shared.onDisk), s.callers, i, c');
  }

  lemma {:induction false} EndedGrows(s: State, m: Move, k: Key)
    requires CanMove(s, m)
    ensures var c, c' := s.callers[m.who], Step(s, m).callers[m.who];
            Ended(Step(s, m), k) == Ended(s, k) + if k == c.key && Released(c') && !Released(c) then 1 else 0
  {
    CountUpdate(ReleasedOf(k), s.callers, m.who, Step(s, m).callers[m.who]);
  }

  lemma {:induction false} RoundsStayPaid(s: State, m: Move, j: nat)
    requires CanMove(s, m) && EventsOk(s.shared) && OwnersOk(s) && j < |s.callers| && RoundPaid(s, s.callers[j])
    ensures RoundPaid(Step(s, m), Step(s, m).callers[j])
  {
    var c := s.callers[m.who];
    assert Holds(c) <==> Owner(s, m.who, c.key);
    EndedGrows(s, m, s.callers[j].key);
  }

  lemma {:induction false} RoundsKept(s: State, m: Move)
    requires CanMove(s, m) && EventsOk(s.shared) && OwnersOk(s) && RoundsOk(s)
    ensures RoundsOk(Step(s, m))
  {
    var s' := Step(s, m);
    var c, c' := s.callers[m.who], s'.callers[m.who];
    forall j | 0 <= j < |s.callers| ensures RoundPaid(s', s'.callers[j]) {
      RoundsStayPaid(s, m, j);
    }
    forall k ensures Count(SameKey(k), s'.callers) == Count(SameKey(k), s.callers) {
      CountUpdate(SameKey(k), s.callers, m.who, c');
    }
    if c'.rounds > c.rounds {
      assert RoundPaid(s', c');
      CountStrict(ReleasedOf(c.key), SameKey(c.key), s'.callers, m.who);
    }
  }
}
