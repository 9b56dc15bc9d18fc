/**
 The checkpoint of a hosted run: the rows it holds, the calls in flight, and the counters.

 The lock-held blocks of the source are the methods of class `Checkpoint`. Each is proved
 to change the checkpoint exactly as a function on its value (`View`) says, and the
 single-flight protocol is proved about those functions.
 */
module Checkpoints {
  import opened Prelude
  import opened Lines
  import opened JsonLines
  import opened Journal

  /** A `threading.Event`, by the order in which it was created. */
  type Event = nat

  /** Everything a checkpoint holds. `fired` is the set of events that are set, and
      `appended` the rows this process has written to the file, in order. */
  datatype Shared = Shared(
    rows: map<Key, Answer>,
    inflight: map<Key, Event>,
    fired: set<Event>,
    created: nat,
    onDisk: set<Key>,
    appended: seq<Row>,
    resumed: nat,
    repeated: nat,
    misses: nat)

  /** What `begin` tells a caller: a stored row, the right to make the call, or neither. */
  datatype Grant = Hit(answer: Answer) | Mine | Theirs

  function Opened(rows: map<Key, Answer>): (sh: Shared) {
    Shared(rows, map[], {}, 0, rows.Keys, [], 0, 0, 0)
  }

  function Begun(sh: Shared, key: Key): (r: (Shared, Grant)) {
    if key in sh.rows then (sh, Hit(sh.rows[key]))
    else if key in sh.inflight then (sh, Theirs)
    else (sh.(inflight := sh.inflight[key := sh.created], created := sh.created + 1), Mine)
  }

  function Peeked(sh: Shared, key: Key): (ev: Option<Event>) {
    if key in sh.inflight then Some(sh.inflight[key]) else None
  }

  function Popped(sh: Shared, key: Key): (sh': Shared) {
    sh.(inflight := sh.inflight - {key})
  }

  function Fired(sh: Shared, ev: Option<Event>): (sh': Shared) {
    if ev.Some? then sh.(fired := sh.fired + {ev.value}) else sh
  }

  function Stored(sh: Shared, key: Key, answer: Answer): (sh': Shared) {
    var kept := if key in sh.rows then sh
                else sh.(rows := sh.rows[key := answer], appended := sh.appended + [Row(key, answer)]);
    Fired(Popped(kept, key), Peeked(kept, key))
  }

  function Counted(sh: Shared, key: Key, hit: bool): (sh': Shared) {
    if !hit then sh.(misses := sh.misses + 1)
    else if key in sh.onDisk then sh.(resumed := sh.resumed + 1)
    else sh.(repeated := sh.repeated + 1)
  }

  /** What the first `i` lines load: their rows, and how many of them could not be read. */
  ghost predicate Loads(parse: Parser, lines: seq<string>, i: nat, rows: map<Key, Answer>, unreadable: nat) {
    && i <= |lines|
    && rows == FirstWins(map[], Readable(Rows(parse), lines[..i]))
    && unreadable == Unreadable(Rows(parse), lines[..i])
  }

  /** What reading one more line does to the rows and to the count of unreadable lines. */
  lemma {:induction false} LoadLine(parse: Parser, lines: seq<string>, i: nat, rows: map<Key, Answer>, unreadable: nat)
    requires i < |lines| && Loads(parse, lines, i, rows, unreadable)
    ensures if Blank(lines[i]) then Loads(parse, lines, i + 1, rows, unreadable)
            else match parse(lines[i])
              case Some(row) =>
                Loads(parse, lines, i + 1, if row.id in rows then rows else rows[row.id := row.answer], unreadable)
              case None => Loads(parse, lines, i + 1, rows, unreadable + 1)
  {
    var read := Readable(Rows(parse), lines[..i]);
    ReadNext(Rows(parse), lines, i);
    if Blank(lines[i]) || parse(lines[i]).None? {
      assert read + [] == read;
    } else {
      FirstWinsSnoc(map[], read, parse(lines[i]).value);
    }
  }

  class Checkpoint {
    var rows: map<Key, Answer>
    var inflight: map<Key, Event>
    var fired: set<Event>
    var created: nat
    var onDisk: set<Key>
    var appended: seq<Row>
    var resumed: nat
    var repeated: nat
    var misses: nat
    var unreadable: nat

    function View(): Shared
      reads this
    {
      Shared(rows, inflight, fired, created, onDisk, appended, resumed, repeated, misses)
    }

    /** Opens the file holding `text`: the first readable row of each key, every other line
        that is not blank counted as unreadable. */
    constructor (parse: Parser, text: string)
      ensures View() == Opened(Reload(parse, text))
      ensures unreadable == Unreadable(Rows(parse), SplitLines(text))
    {
      rows, inflight, fired, created, onDisk := map[], map[], {}, 0, {};
      appended, resumed, repeated, misses, unreadable := [], 0, 0, 0, 0;
      new;
      var lines := SplitLines(text);
      for i := 0 to |lines|
        invariant Loads(parse, lines, i, rows, unreadable)
        invariant View() == Opened(map[]).(rows := rows)
      {
        LoadLine(parse, lines, i, rows, unreadable);
        if Blank(lines[i]) {
          continue;
        }
        match parse(lines[i]) {
          case Some(row) =>
            if row.id !in rows {
              rows := rows[row.id := row.answer];
            }
          case None =>
            unreadable := unreadable + 1;
        }
      }
      assert lines[..|lines|] == lines;
      onDisk := rows.Keys;
    }

    /** Looks `key` up and, on a miss, claims the call if nobody has. */
    method Begin(key: Key) returns (grant: Grant)
      modifies this
      ensures (View(), grant) == Begun(old(View()), key)
    {
      if key in rows {
        return Hit(rows[key]);
      }
      if key !in inflight {
        inflight := inflight[key := created];
        created := created + 1;
        return Mine;
      }
      return Theirs;
    }

    /** The locked half of `wait`: the event to block on, if the call is in flight. */
    method Peek(key: Key) returns (ev: Option<Event>)
      ensures ev == Peeked(View(), key)
    {
      if key in inflight {
        return Some(inflight[key]);
      }
      return None;
    }

    /** The locked half of `_release`. */
    method Pop(key: Key) returns (ev: Option<Event>)
      modifies this`inflight
      ensures View() == Popped(old(View()), key)
      ensures ev == Peeked(old(View()), key)
    {
      ev := if key in inflight then Some(inflight[key]) else None;
      inflight := inflight - {key};
    }

    /** The half of `_release` that runs after the lock is dropped. */
    method Fire(ev: Option<Event>)
      modifies this`fired
      ensures View() == Fired(old(View()), ev)
    {
      if ev.Some? {
        fired := fired + {ev.value};
      }
    }

    method Put(key: Key, answer: Answer)
      modifies this
      ensures View() == Stored(old(View()), key, answer)
    {
      if key !in rows {
        rows := rows[key := answer];
        appended := appended + [Row(key, answer)];
      }
      var ev := Pop(key);
      Fire(ev);
    }

    method Tally(key: Key, hit: bool)
      modifies this
      ensures View() == Counted(old(View()), key, hit)
      ensures misses == old(misses) + (if hit then 0 else 1)
      ensures resumed == old(resumed) + (if hit && key in onDisk then 1 else 0)
      ensures repeated == old(repeated) + (if hit && key !in onDisk then 1 else 0)
    {
      if !hit {
        misses := misses + 1;
      } else if key in onDisk {
        resumed := resumed + 1;
      } else {
        repeated := repeated + 1;
      }
    }
  }
}
