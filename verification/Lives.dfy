/**
 A checkpoint over the lives of its processes: each one loads the file the last one left, runs
 any number of concurrent callers over it, and may be killed at any step or inside a write.
 */
module Lives {
  import opened Prelude
  import opened Sorting
  import opened JsonLines
  import opened Journal
  import opened Checkpoints
  import opened SingleFlight
  import opened EveryRun

  /** A kill inside `put`: the caller it was in, and how much of the row it had written. */
  datatype Tear = Tear(who: nat, kept: nat)

  /** One process: the rows it loaded, its callers, the steps they took until it ended, and the
      write it was killed in, if it was. */
  datatype Course = Course(base: map<Key, Answer>, keys: seq<Key>, moves: seq<Move>, tear: Option<Tear>)

  predicate Possible(c: Course) {
    var start := Start(c.base, c.keys);
    Runs(start, c.moves) &&
    (c.tear.Some? ==> c.tear.value.who < |c.keys| && After(start, c.moves).callers[c.tear.value.who].phase.Storing?)
  }

  type Life = c: Course | Possible(c) witness Course(map[], [], [], None)

  function End(life: Life): (s: State)
    ensures |s.callers| == |life.keys|
    ensures life.tear.Some? ==> life.tear.value.who < |life.keys| && s.callers[life.tear.value.who].phase.Storing?
  {
    After(Start(life.base, life.keys), life.moves)
  }

  /** The row that a kill cut. */
  function Cut(life: Life): (cut: seq<Append<Row>>) {
    match life.tear
    case None => []
    case Some(tear) =>
      var c := End(life).callers[tear.who];
      [Killed(Row(c.key, c.phase.out), tear.kept)]
  }

  /** What one process appends to the file. */
  function Added(life: Life): (appends: seq<Append<Row>>) {
    Wholes(End(life).shared.appended) + Cut(life)
  }

  function Appends(lives: seq<Life>): (appends: seq<Append<Row>>) {
    if lives == [] then [] else Appends(lives[..|lives| - 1]) + Added(lives[|lives| - 1])
  }

  function Left(parse: Parser, lives: seq<Life>): (text: string) {
    TextOf(Rows(parse), Appends(lives))
  }

  /** Each process loads the file that the earlier ones left. */
  ghost predicate History(parse: Parser, lives: seq<Life>) {
    lives == [] ||
    var n := |lives| - 1;
    History(parse, lives[..n]) && lives[n].base == Reload(parse, Left(parse, lives[..n]))
  }

  /** The keys that any of the processes was asked for. */
  function Asked(lives: seq<Life>): (keys: set<Key>) {
    if lives == [] then {} else Asked(lives[..|lives| - 1]) + Elements(lives[|lives| - 1].keys)
  }

  /** Calls whose answer never came, or was not being stored whole, when the process ended. */
  function InFlight(): Caller -> bool {
    (c: Caller) => c.phase.Asking? || c.phase.Storing?
  }

  function PaidFor(): Caller -> bool {
    (c: Caller) => Pays(c)
  }

  function Over(p: Caller -> bool, lives: seq<Life>): (n: nat) {
    if lives == [] then 0 else Over(p, lives[..|lives| - 1]) + Count(p, End(lives[|lives| - 1]).callers)
  }

  // ---- keys --------------------------------------------------------------------------

  function RowKeys(rows: seq<Row>): (keys: seq<Key>)
    ensures |keys| == |rows|
  {
    seq(|rows|, i requires 0 <= i < |rows| => rows[i].id)
  }

  function AppendKeys(appends: seq<Append<Row>>): (keys: seq<Key>)
    ensures |keys| == |appends|
  {
    seq(|appends|, i requires 0 <= i < |appends| => appends[i].row.id)
  }

  lemma {:induction false} RowKeysAppend(a: seq<Row>, b: seq<Row>)
    ensures RowKeys(a + b) == RowKeys(a) + RowKeys(b)
  {
  }

  lemma {:induction false} AppendKeysAppend(a: seq<Append<Row>>, b: seq<Append<Row>>)
    ensures AppendKeys(a + b) == AppendKeys(a) + AppendKeys(b)
  {
  }

  /** `keys` are different, and each is one of `from`. */
  ghost predicate DistinctOf(keys: seq<Key>, source: seq<Key>) {
    Distinct(keys) && forall k :: k in keys ==> k in source
  }

  lemma {:induction false} DistinctOfAppend(a: seq<Key>, b: seq<Key>, from: seq<Key>)
    requires DistinctOf(b, from) && Distinct(a + from)
    ensures DistinctOf(a + b, a + from)
  {
    DistinctAppend(a, from);
    DistinctAppend(a, b);
  }

  /** The keys of the unfinished line, once the beginning of a row was appended to it. */
  lemma {:induction false} TornKeys(f: Format<Row>, tail: Tail<Row>, row: Row, kept: nat, rest: seq<Key>)
    requires f.reread == Reread && Distinct(RowKeys(Yield(f, tail)) + ([row.id] + rest))
    ensures DistinctOf(RowKeys(Yield(f, Torn(f, tail, row, kept))) + rest, RowKeys(Yield(f, tail)) + ([row.id] + rest))
  {
    var before, next := RowKeys(Yield(f, tail)), Torn(f, tail, row, kept);
    DistinctAppend(before, [row.id] + rest);
    DistinctAppend([row.id], rest);
    DistinctAppend(before, rest);
    assert next == tail || Yield(f, next) == [] || Yield(f, next) == [Reread(row)];
    assert RowKeys([Reread(row)]) == [row.id];
    assert RowKeys([]) + rest == rest;
  }

  lemma {:induction false} SurvivorKeys(f: Format<Row>, tail: Tail<Row>, added: seq<Append<Row>>)
    requires f.reread == Reread && Distinct(RowKeys(Yield(f, tail)) + AppendKeys(added))
    ensures DistinctOf(RowKeys(Survivors(f, tail, added)), RowKeys(Yield(f, tail)) + AppendKeys(added))
    decreases |added|
  {
    if added == [] {
      DistinctAppend(RowKeys(Yield(f, tail)), []);
    } else {
      var a, rest := added[0], added[1..];
      var next := Torn(f, tail, a.row, if a.Whole? then |Printed(f, a.row)| else a.kept);
      assert added == [a] + rest;
      AppendKeysAppend([a], rest);
      assert AppendKeys([a]) == [a.row.id];
      TornKeys(f, tail, a.row, if a.Whole? then |Printed(f, a.row)| else a.kept, AppendKeys(rest));
      SurvivorsNext(f, tail, a, rest);
      match a
      case Killed(_, _) =>
        SurvivorKeys(f, next, rest);
      case Whole(_) =>
        DistinctAppend(RowKeys(Yield(f, next)), AppendKeys(rest));
        assert RowKeys(Yield(f, Fresh)) + AppendKeys(rest) == AppendKeys(rest);
        SurvivorKeys(f, Fresh, rest);
        DistinctOfAppend(RowKeys(Yield(f, next)), RowKeys(Survivors(f, Fresh, rest)), AppendKeys(rest));
        RowKeysAppend(Yield(f, next), Survivors(f, Fresh, rest));
    }
  }

  /** Appending rows of new keys to any file gives back no key twice. */
  lemma {:induction false} KeysStayDistinct(f: Format<Row>, tail: Tail<Row>, appends: seq<Append<Row>>, added: seq<Append<Row>>)
    requires f.reread == Reread && Distinct(RowKeys(Survivors(f, tail, appends)) + AppendKeys(added))
    ensures DistinctOf(RowKeys(Survivors(f, tail, appends + added)), RowKeys(Survivors(f, tail, appends)) + AppendKeys(added))
    decreases |appends|
  {
    if appends == [] {
      assert appends + added == added;
      SurvivorKeys(f, tail, added);
    } else {
      var a, rest := appends[0], appends[1..];
      var y := Yield(f, Torn(f, tail, a.row, |Printed(f, a.row)|));
      assert appends == [a] + rest && appends + added == [a] + (rest + added);
      SurvivorsNext(f, tail, a, rest);
      SurvivorsNext(f, tail, a, rest + added);
      match a
      case Killed(row, kept) =>
        KeysStayDistinct(f, Torn(f, tail, row, kept), rest, added);
      case Whole(_) =>
        RowKeysAppend(y, Survivors(f, Fresh, rest));
        RowKeysAppend(y, Survivors(f, Fresh, rest + added));
        Associate(RowKeys(y), RowKeys(Survivors(f, Fresh, rest)), AppendKeys(added));
        DistinctAppend(RowKeys(y), RowKeys(Survivors(f, Fresh, rest)) + AppendKeys(added));
        KeysStayDistinct(f, Fresh, rest, added);
        DistinctOfAppend(RowKeys(y), RowKeys(Survivors(f, Fresh, rest + added)), RowKeys(Survivors(f, Fresh, rest)) + AppendKeys(added));
    }
  }

  lemma {:induction false} RowKeysSnoc(lines: seq<Row>)
    requires lines != []
    ensures RowKeys(lines) == RowKeys(lines[..|lines| - 1]) + [lines[|lines| - 1].id]
  {
  }

  lemma {:induction false} ElementsSnoc(keys: seq<Key>, k: Key)
    ensures Elements(keys + [k]) == Elements(keys) + {k}
  {
  }

  lemma {:induction false} FirstWinsKeys(rows: map<Key, Answer>, lines: seq<Row>)
    ensures FirstWins(rows, lines).Keys == rows.Keys + Elements(RowKeys(lines))
    decreases |lines|
  {
    if lines == [] {
    } else {
      var n := |lines| - 1;
      FirstWinsKeys(rows, lines[..n]);
      RowKeysSnoc(lines);
      ElementsSnoc(RowKeys(lines[..n]), lines[n].id);
    }
  }

  /** The new keys that `FirstWins` finds are as many as the rows just if they are all new and
      all different. */
  lemma {:induction false} AllNew(rows: map<Key, Answer>, lines: seq<Row>)
    ensures |FirstWins(rows, lines)| <= |rows| + |lines|
    ensures |FirstWins(rows, lines)| == |rows| + |lines| <==> Distinct(RowKeys(lines)) && forall k :: k in RowKeys(lines) ==> k !in rows
    decreases |lines|
  {
    if lines == [] {
    } else {
      var n := |lines| - 1;
      AllNew(rows, lines[..n]);
      FirstWinsKeys(rows, lines[..n]);
      RowKeysSnoc(lines);
      OneMoreKey(FirstWins(rows, lines[..n]), rows, RowKeys(lines[..n]), lines[n].id);
    }
  }

  lemma {:induction false} OneMoreKey(m: map<Key, Answer>, rows: map<Key, Answer>, keys: seq<Key>, k: Key)
    requires m.Keys == rows.Keys + Elements(keys)
    ensures (Distinct(keys + [k]) && forall x :: x in keys + [k] ==> x !in rows)
            <==> (Distinct(keys) && (forall x :: x in keys ==> x !in rows)) && k !in m
  {
    DistinctAppend(keys, [k]);
    assert k in m <==> k in rows || k in keys;
    assert forall x :: x in keys + [k] <==> x in keys || x == k;
  }

  /** Only keys that somebody asked for are appended. */
  lemma {:induction false} AppendedAreAsked(s: State, moves: seq<Move>, keys: seq<Key>)
    requires Runs(s, moves) && (forall c :: c in s.callers ==> c.key in keys)
    requires forall k :: k in RowKeys(s.shared.appended) ==> k in keys
    ensures forall k :: k in RowKeys(After(s, moves).shared.appended) ==> k in keys
    decreases |moves|
  {
    if moves == [] {
    } else {
      OnlyPutWrites(s, moves[0]);
      var c := s.callers[moves[0].who];
      RowKeysAppend(s.shared.appended, if c.phase.Storing? then [Row(c.key, c.phase.out)] else []);
      AppendedAreAsked(Step(s, moves[0]), moves[1..], keys);
    }
  }

  /** A caller inside `put` was asked for a key that has no row. */
  lemma {:induction false} StorerIsNew(s: State, i: nat)
    requires OwnersOk(s) && EventsOk(s.shared) && i < |s.callers| && s.callers[i].phase.Storing?
    ensures s.callers[i].key !in s.shared.rows
  {
    assert Owner(s, i, s.callers[i].key);
  }

  lemma {:induction false} CutIsNew(life: Life)
    requires OwnersOk(End(life)) && EventsOk(End(life).shared)
    ensures forall k :: k in AppendKeys(Cut(life)) ==> k !in End(life).shared.rows && k in life.keys
    ensures Distinct(AppendKeys(Cut(life)))
  {
    if life.tear.Some? {
      StorerIsNew(End(life), life.tear.value.who);
    }
  }

  lemma {:induction false} AppendedIsNew(life: Life)
    requires Invariant(End(life), life.base)
    ensures var keys, rows := RowKeys(End(life).shared.appended), End(life).shared.rows;
            && DistinctOf(keys, life.keys)
            && (forall k :: k in keys ==> k !in life.base && k in rows)
            && life.base.Keys <= rows.Keys
  {
    var appended := End(life).shared.appended;
    AppendedAreAsked(Start(life.base, life.keys), life.moves, life.keys);
    AllNew(life.base, appended);
    FirstWinsKeys(life.base, appended);
    assert FileOk(End(life).shared, life.base);
  }

  lemma {:induction false} AddedKeys(life: Life)
    ensures AppendKeys(Added(life)) == RowKeys(End(life).shared.appended) + AppendKeys(Cut(life))
  {
    AppendKeysAppend(Wholes(End(life).shared.appended), Cut(life));
    assert AppendKeys(Wholes(End(life).shared.appended)) == RowKeys(End(life).shared.appended);
  }

  /** What a process appends is of keys it was asked for, that the file did not hold, each once. */
  lemma {:induction false} AddedIsNew(life: Life)
    ensures DistinctOf(AppendKeys(Added(life)), life.keys)
    ensures forall k :: k in AppendKeys(Added(life)) ==> k !in life.base
  {
    ReachableInvariant(life.base, life.keys, life.moves);
    AppendedIsNew(life);
    CutIsNew(life);
    AddedKeys(life);
    DistinctAppend(RowKeys(End(life).shared.appended), AppendKeys(Cut(life)));
  }

  /** However many processes shared the file, and wherever they were killed, it gives back each
      key at most once, and none that nobody asked for. */
  lemma {:induction false} EachKeyOnce(parse: Parser, lives: seq<Life>)
    requires Parses(parse) && History(parse, lives)
    ensures var keys := RowKeys(Survivors(Rows(parse), Fresh, Appends(lives)));
            Distinct(keys) && forall k :: k in keys ==> k in Asked(lives)
    decreases |lives|
  {
    if lives == [] {
    } else {
      var f, n := Rows(parse), |lives| - 1;
      var before, added := Appends(lives[..n]), Added(lives[n]);
      EachKeyOnce(parse, lives[..n]);
      CrashAndResume(parse, before);
      FirstWinsKeys(map[], Survivors(f, Fresh, before));
      AddedIsNew(lives[n]);
      DistinctAppend(RowKeys(Survivors(f, Fresh, before)), AppendKeys(added));
      KeysStayDistinct(f, Fresh, before, added);
    }
  }

  // ---- what was paid for -------------------------------------------------------------

  lemma {:induction false} KillsAppend(a: seq<Append<Row>>, b: seq<Append<Row>>)
    ensures Kills(a + b) == Kills(a) + Kills(b)
  {
    if a == [] {
      assert a + b == b;
    } else {
      KillsAppend(a[1..], b);
      assert (a + b)[1..] == a[1..] + b;
    }
  }

  lemma {:induction false} NoKills(rows: seq<Row>)
    ensures Kills(Wholes(rows)) == 0
  {
    if rows == [] {
    } else {
      NoKills(rows[1..]);
      assert Wholes(rows)[1..] == Wholes(rows[1..]);
    }
  }

  lemma {:induction false} AddedKills(life: Life)
    ensures Kills(Added(life)) == |Cut(life)| <= Count(InFlight(), End(life).callers)
    ensures |Added(life)| == |End(life).shared.appended| + |Cut(life)|
  {
    NoKills(End(life).shared.appended);
    KillsAppend(Wholes(End(life).shared.appended), Cut(life));
    if life.tear.Some? {
      assert Cut(life)[1..] == [];
      CountStrict((c: Caller) => false, InFlight(), End(life).callers, life.tear.value.who);
    }
  }

  /** Of the answers a process paid for, some are in the file and the others were in flight. */
  lemma {:induction false} PaidInOneLife(life: Life)
    ensures Count(PaidFor(), End(life).callers) == |End(life).shared.appended| + Count(InFlight(), End(life).callers)
  {
    ReachableInvariant(life.base, life.keys, life.moves);
    CountSplit(PaidFor(), StoredHere(), InFlight(), End(life).callers);
  }

  lemma {:induction false} PaidInAll(lives: seq<Life>)
    ensures Over(PaidFor(), lives) + Kills(Appends(lives)) == |Appends(lives)| + Over(InFlight(), lives)
    ensures Kills(Appends(lives)) <= Over(InFlight(), lives)
    decreases |lives|
  {
    if lives == [] {
    } else {
      var n := |lives| - 1;
      PaidInAll(lives[..n]);
      PaidInOneLife(lives[n]);
      AddedKills(lives[n]);
      KillsAppend(Appends(lives[..n]), Added(lives[n]));
    }
  }

  lemma {:induction false} NoMoreSurvive(f: Format<Row>, tail: Tail<Row>, appends: seq<Append<Row>>)
    ensures |Survivors(f, tail, appends)| <= |Yield(f, tail)| + |appends|
    decreases |appends|
  {
    if appends == [] {
    } else {
      match appends[0]
      case Whole(row) => NoMoreSurvive(f, Fresh, appends[1..]);
      case Killed(row, kept) => NoMoreSurvive(f, Torn(f, tail, row, kept), appends[1..]);
    }
  }

  lemma {:induction false} SmallerSet(a: set<Key>, b: set<Key>)
    requires a <= b
    ensures |a| <= |b|
  {
    assert b == a + (b - a);
  }

  /** The file gives back as many rows as it has keys, all of them asked for. */
  lemma {:induction false} ReloadedKeys(parse: Parser, lives: seq<Life>)
    requires Parses(parse) && History(parse, lives)
    ensures |Reload(parse, Left(parse, lives))| == |Survivors(Rows(parse), Fresh, Appends(lives))| <= |Asked(lives)|
  {
    var survivors := Survivors(Rows(parse), Fresh, Appends(lives));
    EachKeyOnce(parse, lives);
    CrashAndResume(parse, Appends(lives));
    AllNew(map[], survivors);
    FirstWinsKeys(map[], survivors);
    SmallerSet(FirstWins(map[], survivors).Keys, Asked(lives));
    assert |FirstWins(map[], survivors)| == |FirstWins(map[], survivors).Keys|;
  }

  /** Whatever the schedules and wherever the kills: over all its processes a run pays for one
      answer a key, the ones in flight when a process ended, one more for each kill in the middle
      of a write, and one for each time a row was written that `splitlines` cuts. */
  lemma {:induction false} PaidAlmostOnce(parse: Parser, lives: seq<Life>)
    requires Parses(parse) && History(parse, lives)
    ensures Over(PaidFor(), lives)
            <= |Reload(parse, Left(parse, lives))| + Over(InFlight(), lives) + Kills(Appends(lives)) + Dirty(Rows(parse), Appends(lives))
    ensures |Reload(parse, Left(parse, lives))| <= |Asked(lives)|
    ensures |Reload(parse, Left(parse, lives))| <= Over(PaidFor(), lives)
  {
    var f := Rows(parse);
    ParsesIsSound(parse);
    ReloadedKeys(parse, lives);
    PaidInAll(lives);
    LossBound(f, Fresh, Appends(lives));
    NoMoreSurvive(f, Fresh, Appends(lives));
  }

  /** Nothing was in flight when any process ended, and no row has a raw break. */
  ghost predicate Undisturbed(parse: Parser, lives: seq<Life>) {
    Over(InFlight(), lives) == 0 && Dirty(Rows(parse), Appends(lives)) == 0
  }

  /** Then no key is ever paid for twice, whichever process asks for it. */
  lemma {:induction false} PaidOnce(parse: Parser, lives: seq<Life>)
    requires Parses(parse) && History(parse, lives) && Undisturbed(parse, lives)
    ensures Over(PaidFor(), lives) == |Reload(parse, Left(parse, lives))| <= |Asked(lives)|
  {
    PaidAlmostOnce(parse, lives);
    PaidInAll(lives);
  }
}
