# Memvara's measurement harness, modelled and proved

Memvara is a memory library for language-model agents. Its numbers come from the scripts
under `bench/`, and this project models the logic those numbers rest on and proves that it
does what it is for: answers are paid for once and survive a crash, scores do not depend on
scheduling, a random workload never contradicts itself, a timing gate cannot be swung by a
few bad nights, and a run that was interrupted adds up to the same totals.

Check it with `dafny verify dfyconfig.toml` (Dafny 4.11).

## How it is laid out

| file | models |
|---|---|
| `Lines.dfy`, `Json.dfy` | `splitlines`; what `json.dumps` prints, and which texts can be an object |
| `JsonLines.dfy` | files of printed rows: kills in the middle of a write, and what a lenient and a strict reader read back |
| `Bytes.dfy` | the same files as UTF-8, killed at any byte |
| `JsonParse.dfy` | a parser that meets what the results ask of `json.loads` |
| `Journal.dfy` | the checkpoint's file: its rows and reloading them |
| `Checkpoint.dfy` | class `Checkpoint`: each lock-held block, proved to change the state as a function says |
| `SingleFlight.dfy` | `CheckpointedReader.answer` as a step relation over any number of callers, and the invariants each step keeps |
| `EveryRun.dfy` | what then holds on every schedule of it |
| `Lives.dfy` | any number of such processes, one after another on one file, each killed anywhere |
| `Schedule.dfy` | `parallel_map`, `score_in_order` and the token ledger |
| `RecallCurve.dfy` | the one-pass recall curve of `score_retrieval`, against its plain definition |
| `Prompt.dfy`, `Dump.dfy` | the prompt printer and parser; the blinded dump and its key file over many runs |
| `Words.dfy`, `Soak.dfy` | the soak workload: a random machine and the consistency of what it says |
| `Rounding.dfy`, `Gate.dfy`, `Names.dfy` | the performance gate: 1-2-5 rounding, percentiles and intervals, the regression rule, generated names |
| `Baseline.dfy` | the vector-memory baseline |
| `Replay.dfy` | the ranked read, its renderings and the token budget |
| `Duplicates.dfy`, `Tallies.dfy`, `Worker.dfy`, `Resume.dfy` | extraction: duplicate counting, tallies, the worker's loop, resuming a scored run |
| `Grouping.dfy` | `grouped_by_folder` |
| `Prelude.dfy`, `Sorting.dfy` | sums, counts and folds; Python's stable sort and lexicographic order |

Code that changes things step by step is a class or a method with loops, proved against a
function or a predicate on values; the properties are then lemmas about those. Random
choices, shuffles, thread schedules and the order of a dict are arbitrary: what is proved
holds for all of them.

## What the results rest on

- Printing is written out. Of `json.loads` two things are used, both from RFC 8259: a printed
  row, behind any white space, parses to what was printed (the checkpoint reads an empty model
  name as `stub`), and a text that parses to a row is an object: its braces, brackets and
  strings close, and only white space stands around it (sections 2 and 7). `Journal.Parses`,
  `Dump.Parses` and `Resuming.Parses` say so, and in each file `SomeParserParses` proves that a
  parser can meet it.
- `call_id` and `item_id` return abstract keys: equal digests mean equal calls.
- The append in `put` succeeds. It runs outside the `try` of `answer`, so a disk error there
  is outside the protocol proof.
- Reading a turn gives claims of their own only to the turns of that read.

## Where code and documentation part

The model follows the code.

- The checkpoint's documentation says that a crash leaves one torn last line. The next process
  appends onto that line, so a kill inside a write can cost two answers
  (`Journal.AKillCanCostTwo`), never more (`JsonLines.AKillCostsTwo`), and it costs one or none
  just when none of its row was written or nothing follows (`JsonLines.AKillCostsOneIff`).
- It says that loading tolerates what a crash produces. A kill in the middle of a character
  leaves a file that `read_text` refuses, and no later process can load it
  (`Journal.LoadsIff`, `Journal.AKillCanLoseAll`).
- It also says that a key can come twice in the file when two identical prompts are answered
  at once. One process never appends a key twice (`SingleFlight.FileKept`).
- It promises that a re-run replays every answer. One that quotes a raw U+0085,
  U+2028 or U+2029 is cut into several lines and paid for again (`Journal.RoundTrip`).
- The dump promises that systems can be dumped into one file by sequential runs. Its prompts
  are printed raw and read back with `splitlines`, so a run succeeds if and only if no earlier
  one dumped a row with one of the three characters (`Dump.RunsLeaveFiles`,
  `Dump.ALineSeparatorStopsTheDump`).
- `score_retrieval` accepts any cut-offs. One below 1 makes every cut-off report the recall of
  the whole ranking (`RecallCurve.CurveIsRecallIffPositive`).
- `build_store` promises distinct made-up people; beyond 24^4 of them names repeat
  (`Names.PeopleDiffer`).
- A scored run promises to be resumable. A row that quotes one of the three characters, or was
  cut inside, keeps every later session from starting. A row cut just before its line feed lets
  the next session start and, once that one has appended a row, no other
  (`Resuming.StartsIff`, `Resuming.StartsAfterKillIff`).

## Model

| member | source | states |
|---|---|---|
| `Lines.SplitTerminated` | bench/evalkit.py:1296 | what `splitlines` makes of a text, cut behind any line break, is what it makes of the two parts in turn |
| `Lines.StripIs` | bench/evalkit.py:811 | stripping takes white space off both ends of a text, all of it and nothing else |
| `Json.OneLineIffClean` | bench/evalkit.py:1379-1382 | a row printed with `ensure_ascii=False` is one line if and only if none of its texts holds a raw U+0085, U+2028 or U+2029; every other line break in it is escaped |
| `Json.DecimalLeads` | bench/evalkit.py:1379-1382 | a number is printed without a leading zero, and with a sign only when it is negative |
| `Json.PrintIsObject` | bench/evalkit.py:1379-1382 | a printed row closes everything it opens, outside its strings, and nothing follows |
| `Json.BeginningIsOpen` | bench/evalkit.py:1379-1382 | no proper beginning of a printed row is an object: it leaves a brace or a string open |
| `Json.PieceSpoils` | bench/evalkit.py:1298 | a printed row, or a beginning of one, behind anything but white space makes a line that can no longer become an object |
| `Json.PartIsNoObject` | bench/evalkit.py:1296-1298 | no part of a printed row that begins behind a line break in it is an object |
| `JsonLines.FileReadsBack` | bench/evalkit.py:1284-1382 | a file that any number of processes appended rows to, any of them killed at any character of a write, gives back exactly the survivors, also when rows hold raw line breaks |
| `JsonLines.OneKill` | bench/evalkit.py:1295-1382 | exactly which rows a file with one kill in it gives back: none is lost to a kill that wrote nothing, and otherwise the row after it goes too |
| `JsonLines.AKillCostsTwo` | bench/evalkit.py:1370-1382 | after any kills, the rows read back fall short of the rows written by at most two a kill, besides rows with a raw line break |
| `JsonLines.AKillCostsOneIff` | bench/evalkit.py:1272-1274 | of rows without a raw line break, one kill costs at most the row it cuts if and only if it wrote none of that row or nothing is appended after it; it costs none just if all but the line feed was written and nothing follows |
| `JsonLines.WrittenReadsBack` | bench/evalkit.py:1295-1382 | a file written without a kill gives back its rows in order, except those a raw U+0085, U+2028 or U+2029 cuts up |
| `Bytes.Utf8Injective` | bench/evalkit.py:1296 | two texts with the same UTF-8 bytes are the same, so decoding is defined |
| `Bytes.CutIsNoText` | bench/evalkit.py:1296 | bytes that hold a character cut short are no text, whatever comes before them and whatever text, or beginning of one, comes after |
| `Bytes.FileDecodesIff` | bench/evalkit.py:1296 | a file appended to with kills at any byte is text if and only if no kill came in the middle of a character, and then it is the text of the same appends cut between characters |
| `Journal.FirstWinsAppend` | bench/evalkit.py:1315 | reading more lines after some is reading all of them: the first row of a key wins wherever the file is split |
| `Journal.RoundTrip` | bench/evalkit.py:1295-1382 | the rows read back as written if and only if each has a model name and no such character in its texts |
| `Journal.RowOfShape` | bench/evalkit.py:1303-1311 | every part of a row is printed under the name it is read under, each count of tokens under its own |
| `Journal.CrashAndResume` | bench/evalkit.py:1284-1382 | whatever was appended and wherever the kills cut it, the next process loads the first surviving row of each key |
| `Journal.AKillCanCostTwo` | bench/evalkit.py:1272-1274 | a kill that left all of a row but its line feed, and one more answer: the next process finds no row at all |
| `Journal.LoadsIff` | bench/evalkit.py:1295-1317 | after kills at any byte of a write, the next process can load the file if and only if none of them came in the middle of a character; then it loads the first surviving row of each key, and otherwise `read_text` raises, outside the `try` |
| `Journal.AKillCanLoseAll` | bench/evalkit.py:1271-1296 | any answer with a character outside ASCII can be cut inside it, and then no later process loads anything, neither what the file held before nor what is appended later |
| `Checkpoints.LoadLine` | bench/evalkit.py:1296-1315 | reading one more line adds its row unless the key is taken, and counts the line when it is neither blank nor readable |
| `Checkpoints.Checkpoint.constructor` | bench/evalkit.py:1284-1317 | opening a file leaves the checkpoint holding what `Reload` says and the number of unreadable lines |
| `Checkpoints.Checkpoint.Begin` | bench/evalkit.py:1329-1351 | under the lock: a stored row is returned, an unclaimed key is claimed with a new event, a claimed one is left alone |
| `Checkpoints.Checkpoint.Peek` | bench/evalkit.py:1353-1358 | the event of a key in flight, or none |
| `Checkpoints.Checkpoint.Pop` | bench/evalkit.py:1364-1366 | the claim is removed and its event handed to the caller, not yet set |
| `Checkpoints.Checkpoint.Fire` | bench/evalkit.py:1367-1368 | the popped event is set, after the lock was dropped |
| `Checkpoints.Checkpoint.Put` | bench/evalkit.py:1370-1388 | a first answer is stored and appended, a second one is dropped; either way the claim ends and its event is set in the same block |
| `Checkpoints.Checkpoint.Tally` | bench/evalkit.py:1390-1397 | a miss, a hit on a row the file held, and a hit on a row of this run go to three different counters |
| `SingleFlight.Thread.Advance` | bench/evalkit.py:1436-1460 | each pass through the retry loop, block by block, is the step the protocol is proved about: claim, call, store, abandon, wait, retry; that it hands on the answer it was given is `EveryRun.CallersGetTheirReply` and `EveryRun.RowsWereSaid` |
| `SingleFlight.EventsKept` | bench/evalkit.py:1336-1388 | no step leaves a key both claimed and stored, sets the event of a live claim or gives two claims one event |
| `SingleFlight.OwnersKept` | bench/evalkit.py:1336-1388 | every claim keeps exactly one live owner |
| `SingleFlight.WaitersKept` | bench/evalkit.py:1353-1368 | a blocked waiter's event stays set, claimed, or held by a thread about to set it, also in the window where `_release` has popped it and not set it |
| `SingleFlight.AnswersKept` | bench/evalkit.py:1445-1459 | whatever a caller is about to return is the stored row of its key |
| `SingleFlight.PayersKept` | bench/evalkit.py:1436-1460 | at most one caller of a key pays, and none for a key the file held |
| `SingleFlight.FileKept` | bench/evalkit.py:1370-1382 | the rows stay what the file held, then each appended line once: no key is appended twice by one process |
| `SingleFlight.BooksKept` | bench/evalkit.py:1390-1397 | each counter stays the number of callers it speaks of |
| `SingleFlight.RoundsKept` | bench/evalkit.py:1445-1460 | going round the loop again is always paid for by the end of another caller's claim on the key |
| `EveryRun.StepInvariant` | bench/evalkit.py:1329-1460 | every atomic block of any caller keeps all of the above |
| `EveryRun.ReachableInvariant` | bench/evalkit.py:1329-1460 | so they hold at every moment of every schedule, for any number of callers and any inner reader |
| `EveryRun.OneCallPerKey` | bench/evalkit.py:1329-1388 | in every interleaving at most one caller of a key is inside the inner reader or came back from it; while it is inside the key has no row; no key is both claimed and stored |
| `EveryRun.RowsStay` | bench/evalkit.py:1370-1382 | a stored answer is never replaced or lost |
| `EveryRun.StoredIsNeverAskedAgain` | bench/evalkit.py:1329-1388 | once a key has a row, loaded or stored, no later moment of the run has it being asked |
| `EveryRun.SomebodyCanMove` | bench/evalkit.py:1353-1368 | no lost wakeup: a caller that is not done can move, or a caller of its key can that holds the claim or is about to set the very event it waits for |
| `EveryRun.RunsAreShort` | bench/evalkit.py:1436-1460 | no schedule of n callers takes more than n(3n + 1) steps |
| `EveryRun.RoundsAreFew` | bench/evalkit.py:1445-1460 | no caller goes back to the top of the loop as often as there are callers of its key |
| `EveryRun.CanFinish` | bench/evalkit.py:1436-1460 | from every moment of every run there is a schedule that finishes it |
| `EveryRun.StoppedMeansFinished` | bench/evalkit.py:1436-1460 | a run in which nobody can move is one in which everybody has returned or raised and every claim is released |
| `EveryRun.CallersAgree` | bench/evalkit.py:1445-1459 | callers of one key that return all return the row the file now holds for it, and for a key it already held always that row |
| `EveryRun.CallersGetTheirReply` | bench/evalkit.py:1450-1459 | in every schedule the inner reader is asked at most once by each caller; a caller that is done returned the very answer the reader gave it, if it gave one, and raised if and only if the reader raised in its call |
| `EveryRun.RowsWereSaid` | bench/evalkit.py:1370-1382 | every row a run appends is an answer the inner reader gave, in that run, to a caller of the row's key |
| `EveryRun.AnswersWereSaid` | bench/evalkit.py:1445-1459 | what a caller returns stood in the file for its key, or is what the inner reader said in this run to a caller of the same key |
| `EveryRun.BooksBalance` | bench/evalkit.py:1370-1397 | when all are done, resumed + repeated + misses is the answers returned, misses is the rows added and the lines appended, and resumed is exactly the calls on keys the file held |
| `EveryRun.ReloadGivesTheRows` | bench/evalkit.py:1295-1382 | at any moment of a run on a file that earlier runs left whole, the next process would load exactly the rows this one holds |
| `Lives.AddedIsNew` | bench/evalkit.py:1329-1382 | what a process appends, the row it was killed in included, is of keys it was asked for, none of which its file held, and no key twice |
| `Lives.KeysStayDistinct` | bench/evalkit.py:1295-1382 | appending rows of new keys to a file, torn or not, gives back no key twice |
| `Lives.EachKeyOnce` | bench/evalkit.py:1284-1460 | over any number of processes, each a concurrent run on the file the last one left and killed at any step or inside `put`, the file gives back each key at most once, and only keys that were asked for |
| `Lives.PaidAlmostOnce` | bench/evalkit.py:1268-1460 | over all of them, the calls paid for are at most the keys the file ends up holding, plus the calls in flight when a process ended, plus one for each kill inside a write, plus one for each row written with a raw line break |
| `Lives.PaidOnce` | bench/evalkit.py:1268-1460 | with none of these, each key is paid for exactly once, whichever process asks |
| `Schedule.InOrderAt` | bench/evalkit.py:1506-1507 | the plain loop gives each item's result at the item's place, and raises if and only if some call does |
| `Schedule.ParallelMap` | bench/evalkit.py:1491-1516 | for every completion order the pool returns what the plain loop returns; when calls raise it raises the first to finish |
| `Schedule.ScoreInOrder` | bench/evalkit.py:1519-1536 | for every completion order the ledger ends with the calls recorded in item order; when a call raises nothing is billed |
| `Schedule.TokenLedger.Record` | bench/evalkit.py:1753-1756 | one call goes to the tally of its role and model, and its stop reason is counted when it is not a completed answer |
| `Schedule.TokenLedger.CostOfRole` | bench/evalkit.py:1765-1778 | one role's models add their price to the running total, and each unpriced one is listed once |
| `Schedule.TokenLedger.Cost` | bench/evalkit.py:1761-1779 | the total over all roles, and the unpriced models that were used, each once; what the total comes to is `Schedule.AMillionTokens` |
| `Schedule.AMillionTokens` | bench/evalkit.py:1770-1778 | recording a million input tokens adds exactly the input price, a million output tokens the output price, and a million cache reads or writes the input price times its multiplier; a model without a price adds nothing |
| `Schedule.TokensAddUp` | bench/evalkit.py:1770-1778 | a call that used the tokens of two costs what the two cost, so that these four amounts fix what every call adds |
| `Schedule.CostIsTheSum` | bench/evalkit.py:1753-1779 | the ledger's total is the sum of what its calls cost one by one |
| `Schedule.CostIsAdditive` | bench/evalkit.py:1753-1779 | the cost of a run is the cost of any two parts its calls are split into |
| `Schedule.CostIgnoresOrder` | bench/evalkit.py:1753-1779 | recording the same calls in another order costs the same |
| `Schedule.EntriesAreSeparate` | bench/evalkit.py:1718-1754 | each entry of the ledger is the total of exactly the calls of its role and model |
| `Schedule.EntriesAddUp` | bench/evalkit.py:1718-1754 | an entry's calls and its tokens of each of the four kinds are those of the calls of its role and model, added up |
| `Schedule.StopsAreCounted` | bench/evalkit.py:1755-1756 | each degenerate stop reason is counted as often as it occurred under its role, and a completed answer never is |
| `RecallCurve.TakeCuts` | bench/evalkit.py:2300-2301 | one rank's inner loop reads off every cut-off that rank reaches and leaves the deeper ones queued |
| `RecallCurve.TakeRest` | bench/evalkit.py:2302-2305 | the cut-offs still queued after the pass get what the ranking ended with |
| `RecallCurve.ScoreEvidence` | bench/evalkit.py:2286-2307 | one pass gives, at every cut-off, the distinct gold labels among the first k items over the gold size, the first rank with evidence and the evidence found; without labels nothing is measured |
| `RecallCurve.CurveIsRecallIffPositive` | bench/evalkit.py:2294-2307 | the one-pass curve is the recall curve for every ranking if and only if no cut-off is below 1: one below 1 never leaves the head of the queue and holds up the rest |
| `RecallCurve.RecallGrows` | bench/evalkit.py:2294-2301 | recall is zero before the first item, and each item adds the share of gold labels it is the first to show: that is what the curve is at every depth |
| `RecallCurve.RecallStays` | bench/evalkit.py:2302-2305 | past the end of the ranking recall stays what it was there |
| `RecallCurve.CurveIsMonotone` | bench/evalkit.py:2291-2307 | the curve grows with k and stays between 0 and 1 |
| `RecallCurve.NonzeroFromTheRank` | bench/evalkit.py:2297-2301 | recall at k is above zero exactly when the evidence rank is at most k |
| `RecallCurve.OneMeansAllFound` | bench/evalkit.py:2299-2307 | recall at k is 1 exactly when every gold label is in the first k items |
| `RecallCurve.OneLabelEach` | bench/evalkit.py:2296-2301 | with at most one label an item, recall at k is at most min(k, gold) / gold |
| `Prompt.MarkerBorder` | bench/evalkit.py:591 | the marker's only border is a single line feed |
| `Prompt.EarlyMarker` | bench/evalkit.py:837-847 | the marker is found before the end of the head exactly when the head contains it, or ends with all of it but the final line feed |
| `Prompt.PromptRoundTrip` | bench/evalkit.py:837-920 | splitting a built prompt gives back its head and its context if and only if the head neither contains the marker nor ends with the marker short of its final line feed |
| `Prompt.OneLineQuestions` | bench/evalkit.py:837-920 | a question and a date without line feeds always come back |
| `Prompt.PromptsDiffer` | bench/evalkit.py:909-920 | two prompts of one-line questions and dates are the same only when question, date and context are |
| `Prompt.UnmarkedPrompt` | bench/evalkit.py:837-847 | a prompt without the marker is its own question and context; one with it is cut around it |
| `Dump.FileReader.Ask` | bench/evalkit.py:771-776 | in the dump phase a call records what it was given under the prompt's id and returns an empty answer |
| `Dump.FileReader.Merge` | bench/evalkit.py:806-812 | what is on disk already keeps its row and its owner; every pending item joins under this system |
| `Dump.FileReader.SortedKeys` | bench/evalkit.py:814 | the ids come out sorted whatever the order of the dict |
| `Dump.FileReader.ReadDump` | bench/evalkit.py:798-802 | the rows of the dump, a later line of an id replacing an earlier one; one line that does not parse raises |
| `Dump.FileReader.Finish` | bench/evalkit.py:786-825 | a dump that cannot be read raises before anything is written; otherwise both files are rewritten from the merged rows under one shuffled order, and an id the key file lacks raises after the dump was rewritten |
| `Dump.FilesReadBack` | bench/evalkit.py:799-818 | the files a run wrote give back its rows and owners if and only if no row quotes a raw U+0085, U+2028 or U+2029; otherwise reading them raises |
| `Dump.RunsLeaveFiles` | bench/evalkit.py:786-825 | starting from no files, each run of any sequence raises if and only if an earlier run dumped a row that quotes one of the three characters; a run that does not raise leaves a dump and a key that list the same ids in the same order, each with the row and owner of the first run that had it, and one that raises changes nothing |
| `Dump.ALineSeparatorStopsTheDump` | bench/evalkit.py:799-818 | one line separator in one prompt: the run that dumps it succeeds and the next one raises |
| `Dump.LookupDefinedIff` | bench/evalkit.py:824 | on any two files whose dump can be read, the lookup is defined if and only if every id of the dump is in the key or among the pending items |
| `Dump.FirstRunKeepsIt` | bench/evalkit.py:789-792 | an item keeps the system that dumped it first |
| `Dump.KeyNamesTheQuestion` | bench/evalkit.py:808-812 | after any runs, the key file says of an item which system asked it first, and of a prompt built from a one-line question exactly that question, with its heading, stripped |
| `Dump.LinesAreShuffled` | bench/evalkit.py:814-825 | both files list their items in the order into which the seed shuffles the sorted ids, and the key file holds the seed |
| `Dump.ReadFieldsOf` | bench/evalkit.py:774 | every part of a line is printed under the name it is read under |
| `Dump.OrderIgnoresRunOrder` | bench/evalkit.py:814-825 | when neither order raises, the line order depends only on the ids and the last seed, so A then B orders lines as B then A |
| `Dump.RepeatChangesNothing` | bench/evalkit.py:806-825 | a run that asks only what was asked, under the seed in use, changes neither file; it raises if and only if a row quotes one of the three characters |
| `MadeUp.Words.New` | bench/soak.py:206-213 | a word nobody was given yet; the loop ends because a word with more syllables than the longest used one has letters is new |
| `MadeUp.Words.Several` | bench/soak.py:252-255 | so many words, different from each other and from all before |
| `MadeUp.Words.ForEach` | bench/soak.py:258-261 | a new word for each key, different keys getting different words |
| `MadeUp.LaterWordsAreNew` | bench/soak.py:199-213 | words given out later differ from all given out earlier |
| `Soak.ConsistentNext` | bench/soak.py:279-292 | a turn that agrees with everything said before it keeps the history consistent and numbered |
| `Soak.GoodNext` | bench/soak.py:244-371 | a turn that agrees with the past, together with the fields it updates, keeps every tie between the machine's dictionaries and its own history |
| `MadeUp.SpellingKeepsDistinct` | bench/soak.py:251-263 | capitalizing some of the words leaves all of them different |
| `Soak.MakeCast` | bench/soak.py:250-263 | all seventy-three names, topics, habits and favourites of a run are different from each other |
| `Soak.World.constructor` | bench/soak.py:247-266 | a valid cast, every name and word in it different, with a city, an employer and a topic each, and nothing said yet |
| `Soak.World.Number` | bench/soak.py:279-282 | turns are numbered one after the other |
| `Soak.World.Emit` | bench/soak.py:284-292 | a turn that agrees with the past and restates what the machine holds leaves the machine in agreement with its history |
| `Soak.World.NewLike` | bench/soak.py:324-327 | a one-off like names something never mentioned and joins the likes that may be taken back |
| `Soak.World.TakeBack` | bench/soak.py:328-330 | one of the open one-off likes is taken back and leaves the list |
| `Soak.World.Latin` | bench/soak.py:313-332 | each kind drawn gives its turn: a one-off like is new and joins the open ones, a retraction takes back one that is open, or restates a favourite when none is |
| `Soak.World.Move` | bench/soak.py:342-345 | a person moves to a city other than the one in the machine's dictionary, which then holds the new one |
| `Soak.World.ChangeJob` | bench/soak.py:346-349 | a person changes to an employer other than the one in the dictionary, which then holds the new one |
| `Soak.World.Person` | bench/soak.py:340-352 | a move, a job, the person's habitual like or a new one, each in agreement with the history |
| `Soak.World.RestateTopic` | bench/soak.py:355-356 | a steady panel subject restates the value the dictionary holds for it |
| `Soak.World.ChangeTopic` | bench/soak.py:357-359 | a churning panel subject gets a word that was never made up before and that no turn has shown |
| `Soak.World.AskWhere` | bench/soak.py:368-371 | a probe's gold is the city last remembered of that person |
| `Soak.World.Next` | bench/soak.py:376-400 | every kind of turn keeps the history consistent and everybody introduced |
| `Soak.OpeningAgrees` | bench/soak.py:294-298 | each opening write is the first word on its subject |
| `Soak.World.Open` | bench/soak.py:294-298 | the opening writes every person's city and every panel value |
| `Soak.World.IntroduceFavourites` | bench/soak.py:304-305 | each favourite is liked once, in order |
| `Soak.World.IntroduceOnce` | bench/soak.py:306-308 | a new word is liked and taken back in the next turn |
| `Soak.World.IntroduceUser` | bench/soak.py:299-303 | the user's name, a home and a job are told, in this order |
| `Soak.World.IntroduceRest` | bench/soak.py:309-311 | then the personal data planted at that index, and one preference as written and in another spelling |
| `Soak.World.Introductions` | bench/soak.py:294-311 | the introductions are these thirty-six turns: every city and panel value, the user, the favourites, one like taken back, the personal data and the preference |
| `Soak.World.Turns` | bench/soak.py:373-400 | the run is as long as asked for, or the length of the introductions if that is longer |
| `Soak.Soak` | bench/soak.py:152-400 | for all random choices: fewer than a hundred turns are refused, and otherwise exactly so many turns come out, the introductions first, consecutively numbered, each in agreement with all before it, about a cast no two of whose names and words are the same |
| `Soak.LastSaidIs` | bench/soak.py:368-371 | what was last said of a subject is the value of the latest turn about it |
| `Soak.ProbeFindsTheLastMove` | bench/soak.py:368-371 | in every consistent run a probe's gold is the value of an earlier write of that person's city, with none in between |
| `Soak.SteadyNeverChanges` | bench/soak.py:256-257 | any two writes of a steady panel subject say the same |
| `Soak.ChurningNeverRepeats` | bench/soak.py:357-359 | a churning panel subject never says a value twice |
| `Soak.StillLikedIs` | bench/soak.py:264-265 | a like is open exactly when it was said and not taken back since |
| `Soak.RetractionsAreOfLikes` | bench/soak.py:306-330 | what is taken back was liked earlier, is not a favourite, and was never taken back before |
| `Rounding.FloorLog10` | bench/perf_budget.py:161 | the decade of a positive value: its power of ten is at most the value and the next one is above it |
| `Rounding.StepsAre` | bench/perf_budget.py:153-167 | the steps are 1, 2 and 5 times the powers of ten, and the powers are 1 and ten times one another |
| `Rounding.SearchDecade` | bench/perf_budget.py:163-166 | three candidates either hold the least step that is high enough, or all are too low |
| `Rounding.RoundUp125` | bench/perf_budget.py:153-167 | a positive value is rounded to the least of 1, 2 and 5 times a power of ten at or above value * (1 - 1e-9), inside three decades, so the assertion at the end is never reached; any other value is refused |
| `Rounding.RoundsToOne` | bench/perf_budget.py:153-167 | there is only one such step |
| `Rounding.RoundsBetween` | bench/perf_budget.py:153-167 | the result is below 2.5 times the value and no more than the tolerance below it |
| `Rounding.RoundingIsMonotone` | bench/perf_budget.py:153-167 | a larger value never rounds to a smaller budget |
| `Rounding.StepsAbsorb` | bench/perf_budget.py:156-157 | a value at most the tolerance above a step rounds to that step |
| `Rounding.RoundingIsIdempotent` | bench/perf_budget.py:153-167 | rounding a budget again changes nothing |
| `Gate.RankAtMost` | bench/evalkit.py:1989-1991 | the sample of rank i is at most x exactly when more than i samples are |
| `Gate.RanksAreMonotone` | bench/evalkit.py:1989-1991 | samples that are all at least as large have order statistics at least as large |
| `Gate.PercentilesAreOrdered` | bench/evalkit.py:1985-1991 | a nearest-rank percentile is one of the samples and grows with the quantile |
| `Gate.PercentileIs` | bench/evalkit.py:1985-1991 | which value a percentile is, by counting: for a whole number nearest to q(n - 1), of two as near the even one, more values than that are at most the percentile, and all but that many at least it |
| `Gate.PercentileIsOne` | bench/evalkit.py:1985-1991 | no two numbers meet that description of one list |
| `Gate.PercentileOfLarger` | bench/evalkit.py:1985-1991 | a percentile grows with the samples |
| `Gate.IntervalIsOrdered` | bench/perf_budget.py:110-113 | an interval's low end is at most its high end and both are among the samples |
| `Gate.IntervalsAreOrdered` | bench/perf_budget.py:94-113 | a higher quantile has the higher interval, because all quantiles are read off the same draws |
| `Gate.Draw` | bench/perf_budget.py:104 | a draw has as many values as there are samples, each one of them |
| `Gate.Resample` | bench/perf_budget.py:94-107 | each quantile's estimates, one a draw, over the same draws for all quantiles |
| `Gate.IntervalIs` | bench/perf_budget.py:110-113 | the ends of an interval are the 2.5th and the 97.5th percentile, by the same counting, of the estimates, which are that percentile of each draw |
| `Gate.Largest` | bench/perf_budget.py:144 | the maximum is a sample and bounds all of them |
| `Gate.Summarize` | bench/perf_budget.py:127-150 | an empty series is refused; otherwise the four percentiles are those of the samples, by counting, and their intervals are read off the same draws; percentiles and interval ends grow with the quantile and stay below the maximum |
| `Gate.MedianIs` | bench/perf_budget.py:198 | the median is the value in the middle, or half way between the two in the middle, by counting |
| `Gate.MadIs` | bench/perf_budget.py:170-173 | the deviation is the distance from the median in the middle, or half way between the two in the middle |
| `Gate.RegressionIff` | bench/perf_budget.py:196-200 | a value breaks the rule if and only if it exceeds 1.2 times the median, the median by the floor, and the median by three deviations |
| `Gate.SevenNights` | bench/perf_budget.py:211-213 | there is no verdict exactly when there are fewer than seven nights |
| `Gate.RegressionIsMonotone` | bench/perf_budget.py:196-200 | measuring higher never turns a regression into none |
| `Gate.VerdictMeaning` | bench/perf_budget.py:203-227 | a regression is two measurements that both break the rule against the last seven nights; the second is taken only when the first does; older nights do not count |
| `Gate.MajorityHoldsTheMedian` | bench/perf_budget.py:198 | a majority of an odd number of values inside a range holds the median inside it |
| `Gate.MajorityHoldsTheMad` | bench/perf_budget.py:170-173 | and holds the deviation to the width of the range |
| `Gate.ThreeNightsCannotMoveIt` | bench/perf_budget.py:196-212 | changing any three of the seven nights keeps the median inside the range of the other four and the deviation inside its width |
| `Gate.ThreeNightsCannotDecide` | bench/perf_budget.py:196-227 | so three nights can neither hide a clear regression nor invent one |
| `Names.SyllablesArePrefixFree` | bench/perf_budget.py:462-464 | none of the twenty-four syllables begins another |
| `Names.EveryShuffleIsAnAlphabet` | bench/perf_budget.py:527-528 | nor after any shuffle |
| `Names.MakeWord` | bench/perf_budget.py:530-535 | the divmod loop spells the base-24 digits of the number, lowest first |
| `Names.WordRoundTrip` | bench/perf_budget.py:530-535 | a decoder gives back the number and the length of every word of a number below 24 to the length |
| `Names.WordsAreDistinct` | bench/perf_budget.py:530-535 | two such words agree only if number and length do |
| `Names.WordsWrap` | bench/perf_budget.py:530-535 | numbers that differ by 24 to the length make the same word |
| `Names.PeopleDiffer` | bench/perf_budget.py:540 | the people are all named differently if and only if there are at most 24 to the fourth of them |
| `Names.FactsDiffer` | bench/perf_budget.py:541-546 | as long as no name repeats no fact does |
| `Names.PlacesDiffer` | bench/perf_budget.py:537-538 | the forty cities and the forty employers have eighty different names |
| `Names.MakeFacts` | bench/perf_budget.py:537-546 | four facts a person, in order: one of forty cities, one of forty employers and two different ones of three hundred likes |
| `Names.WriteBatches` | bench/perf_budget.py:549-552 | the transactions hold at most a thousand facts each and concatenate to exactly the first `claims` of them |
| `Names.BuildStore` | bench/perf_budget.py:518-555 | exactly `claims` facts are written, four in a row about each person: where they live, where they work and two things they like; and none twice while the names last |
| `Baseline.LiveIs` | bench/baseline.py:110-111 | the live memories are exactly those not deleted, each once, in order |
| `Baseline.NearestAre` | bench/baseline.py:119-126 | the neighbours are the top_k live memories most similar to the text, or all when there are fewer, the more similar first, and no live memory left out is more similar than one of them |
| `Baseline.OneFactIs` | bench/baseline.py:69-102 | a fact deletes the first of these that is of its slot and at or above the threshold, and counts a detected conflict; when none is, it deletes nothing and counts a missed one exactly when a live memory of its slot says something else; the memory appended holds the fact's text and parts |
| `Baseline.ReplacedIsLive` | bench/baseline.py:81-87 | what a fact replaces is a live memory of its slot that is similar enough |
| `Baseline.Mem0StyleMemory.Adjudicate` | bench/baseline.py:78-87 | the first neighbour of the slot above the threshold is deleted, and only that one |
| `Baseline.Mem0StyleMemory.WriteFact` | bench/baseline.py:69-102 | one fact is embedded, adjudicated, counted as a detected or a missed conflict or neither, and appended |
| `Baseline.Mem0StyleMemory.Add` | bench/baseline.py:61-102 | turns are extracted and their facts written in order, each turn costing a call whatever it yields |
| `Baseline.OneFact` | bench/baseline.py:69-102 | one fact deletes at most one memory, and counts it |
| `Baseline.Conservation` | bench/baseline.py:61-112 | after any turns: live memories = facts - conflicts detected, memories = facts, calls = turns + facts, whatever the retrieval found |
| `Baseline.AllAreNear` | bench/baseline.py:119-126 | when top_k covers the live memories all of them are neighbours |
| `Baseline.SlotIsReplaced` | bench/baseline.py:76-87 | then the live memory of the fact's slot is the one replaced |
| `Baseline.CoveredMeansFaithful` | bench/baseline.py:61-102 | when top_k covers the slots told and facts of a slot are similar, the store is a dictionary: one live memory a slot, holding what was said last, and no conflict missed |
| `Baseline.CoveredLive` | bench/baseline.py:61-112 | then there are as many live memories as slots told |
| `Baseline.CoveredConflicts` | bench/baseline.py:96-99 | and the conflicts detected are the facts that told a slot something again |
| `Replaying.RankingFalls` | bench/selector_metrics.py:64-92 | in a ranking by score the first of two scored higher, or as high and stood first |
| `Replaying.OrderIs` | bench/selector_metrics.py:64 | the reranked order holds every turn of the pool once |
| `Replaying.RerankedOrder` | bench/selector_metrics.py:64 | it falls by score, and ties keep the pool's order |
| `Replaying.ScopeIs` | bench/selector_metrics.py:65-67 | the candidates are turns of the questioner's role, or any when routing is off or no turn has it: the best of them by the reranker, best first, `top_n` of them when there are as many |
| `Replaying.ScopeIsOrdered` | bench/selector_metrics.py:65-71 | the candidates stand in the reranked order, whether or not they were routed to a role |
| `Replaying.RenderedIsAPartition` | bench/selector_metrics.py:62-72 | a rendering is the reranked order stably parted into the kept candidates and the rest |
| `Replaying.RenderedIsThePool` | bench/selector_metrics.py:62-72 | for all scores and keep sets it shows every turn of the pool exactly once |
| `Replaying.UnselectedIsTheOrder` | bench/selector_metrics.py:68-69 | with no selector the reranked order is rendered as it is |
| `Replaying.SelectionEnds` | bench/selector_metrics.py:78-94 | a local selection raises when a candidate has no score, and else exactly when the rendering has no such name |
| `Replaying.KeptAre` | bench/selector_metrics.py:82-83 | it keeps exactly the candidates at the positions that the rule picks from their scores |
| `Replaying.EveryRenderingIsThePool` | bench/selector_metrics.py:75-96 | so do all three renderings of a local selection |
| `Replaying.KeptComeFirst` | bench/selector_metrics.py:83-88 | in two of them the kept candidates come first, in candidate order |
| `Replaying.RenderedByClass` | bench/selector_metrics.py:83-88 | where every turn stands in these two: kept candidates, then, when routed turns are shown first, the other candidates, then the rest, each class as reranked |
| `Replaying.SelectorOrderFalls` | bench/selector_metrics.py:89-92 | the third rendering begins with the candidates, by the selector's score, ties in candidate order |
| `Replaying.SelectorOrderEnds` | bench/selector_metrics.py:89-96 | behind all the candidates the third rendering shows the rest as reranked |
| `Replaying.Coverage` | bench/selector_metrics.py:99-107 | the loop takes a turn exactly when it still fits after those it took, and counts the evidence among them |
| `Replaying.FillIsWithinBudget` | bench/selector_metrics.py:99-107 | the turns taken never exceed the budget |
| `Replaying.FillIsMaximal` | bench/selector_metrics.py:99-107 | no turn that was skipped would still fit at the end |
| `Replaying.RoomForAll` | bench/selector_metrics.py:99-107 | when all turns fit all are taken |
| `Replaying.CoverageIsAShare` | bench/selector_metrics.py:99-107 | of any rendering of the pool, no more evidence is counted than the pool has, and all of it when everything is taken |
| `Duplicates.CountSlots` | bench/extraction_bar.py:181-183 | the counter holds, for every slot, how many claims normalise to it |
| `Duplicates.ExtraCopies` | bench/extraction_bar.py:184 | summed less one a slot, it is the claims beyond the first of each slot |
| `Duplicates.GroupPredicates` | bench/extraction_bar.py:185-187 | each subject and value is given exactly the predicates it is held under |
| `Duplicates.ExtraPredicates` | bench/extraction_bar.py:188 | summed less one a pair, they are the slots beyond the first of each subject and value |
| `Duplicates.CountDuplicates` | bench/extraction_bar.py:173-189 | same slot = claims - distinct slots, and same slot + other = claims - distinct (subject, value) pairs, for any normalisation |
| `Duplicates.SameSlotIff` | bench/extraction_bar.py:181-187 | two claims are copies exactly when subject, predicate and value agree once normalised, and hold one value exactly when subject and value do |
| `Duplicates.OrderDoesNotCount` | bench/extraction_bar.py:173-189 | neither count depends on the order of the claims |
| `Tallies.ReceiptCounts` | bench/extraction_bar.py:228-241 | each number of a receipt goes to the counter of its name, each list by its length, and no other counter moves; a store-only write counts neither as a write nor as failed |
| `Tallies.ReceiptReasons` | bench/extraction_bar.py:242-245 | a fallback is counted under its reason, unless it is empty, and each refusal under its |
| `Tallies.Tally.Record` | bench/extraction_bar.py:228-245 | recording a receipt is merging the tally of that receipt alone; a store-only write counts neither as a write nor as failed |
| `Tallies.Tally.BumpAll` | bench/extraction_bar.py:250-252 | the loop over a dict adds the counts key by key, in any order of its items |
| `Tallies.Tally.Merge` | bench/extraction_bar.py:247-255 | merging adds every counter and every dict |
| `Tallies.MergeCommutes` | bench/extraction_bar.py:247-255 | merging commutes |
| `Tallies.MergeAssociates` | bench/extraction_bar.py:247-255 | and associates |
| `Tallies.MergedAllPermutes` | bench/extraction_bar.py:665-668 | so any order of merging the same tallies gives the same total |
| `Workers.Store.PendingExtraction` | memvara/core.py:1580-1595 | the first `limit` turns, oldest first, that carry a fact, have no claim of their own and are not excluded; none when the limit is not positive |
| `Workers.WorkListIs` | memvara/core.py:1580-1595 | the work list holds exactly the turns that state a fact and are not to be skipped, in stored order |
| `Workers.StillPending` | bench/extraction_bar.py:377-384 | whatever claims the reads write, what is pending after a part of the work list was handed out is the rest of it |
| `Workers.Work` | bench/extraction_bar.py:376-384 | the turns handed out are exactly those that state a fact and had no claim, each once, oldest first, in full batches but for the last, one write counted a batch, and the loop ends |
| `Resuming.JobsAre` | bench/extraction_bar.py:635-637 | the jobs of a session are the asked questions in each arm that no resumed row answers |
| `JsonLines.ReadStrictly` | bench/extraction_bar.py:565-569 | the list of parsed lines, or an exception when some line that is not blank does not parse |
| `JsonLines.StrictReadsInFull` | bench/extraction_bar.py:565-657 | a file that was appended to, with kills anywhere, can be read so if and only if no row in it has a raw line break and no kill cut a write but one that wrote nothing, or the last one, short of its line feed alone; what is read is every row written in full |
| `JsonLines.StrictAroundKill` | bench/extraction_bar.py:565-657 | the same for one kill: after a row complete but for its line feed the file can be read, until another row is appended |
| `Resuming.TotalsInOf` | bench/extraction_bar.py:257-262 | reading a tally back gives what was written, each count under its own name |
| `Resuming.ReadAround` | bench/extraction_bar.py:590-593 | every part of a row is printed under the name it is read under |
| `Resuming.StartsIff` | bench/extraction_bar.py:635-657 | over any sessions, the next one starts on the file they left if and only if that condition holds, and it finds exactly the rows written in full |
| `Resuming.StartsAfterKillIff` | bench/extraction_bar.py:635-657 | which file with one kill in it a session can start from, and what it finds: a row cut inside stops the next session, one cut before its line feed the one after |
| `Resuming.StartsOnBytesIff` | bench/extraction_bar.py:565-569 | of a file cut at any bytes: besides, no kill may have come in the middle of a character |
| `Resuming.RunSession` | bench/extraction_bar.py:635-657 | a session raises exactly when the file cannot be read; otherwise it reports its resumed rows and the finished ones and appends the finished ones |
| `Resuming.EachJobOnce` | bench/extraction_bar.py:635-657 | over any interrupted sessions, each asked for its own questions, no question is scored twice in an arm |
| `Resuming.ReportIsComplete` | bench/extraction_bar.py:635-668 | the session that is not stopped reports on every asked question in every arm exactly once, and on nothing else |
| `Resuming.MergeRows` | bench/extraction_bar.py:663-668 | the report's loop leaves each of two arms with the merged tallies of its rows; a row of neither is refused |
| `Resuming.ResumedTotals` | bench/extraction_bar.py:635-668 | so, stopped and resumed any number of times, an arm totals what one uninterrupted run would have |
| `Grouping.FoldersAreConvex` | conftest.py:59-74 | between two paths inside a folder, in the order of path parts, there is no path outside it |
| `Grouping.FoldersAreContiguous` | conftest.py:59-74 | after grouping, the paths inside every folder are next to each other |
| `Grouping.PathsAscend` | conftest.py:65-68 | of two paths the one that ends first, or has the smaller name where they part, comes first |
| `Grouping.EveryPathIsKept` | conftest.py:65-68 | every path is still there, as often as it was given |
| `Grouping.SamePathKeepsOrder` | conftest.py:66-68 | arguments with the same path keep their order |
| `Grouping.GroupedStays` | conftest.py:59-74 | grouping twice is grouping once |

## Left out

- The bitemporal store, the reconciler and the retriever: none of their logic is modelled, and `routed_role`, `keep_positions`, the gate and the extractor are arbitrary functions.
- SingleFlight.Thread.Advance: the retry loop is a program counter advanced one atomic block at a time, because a sequential loop has no interleavings; `timeout` in `wait`, which no caller passes, is not modelled.
- Lives.PaidAlmostOnce: kills cut a write between characters; after one inside a character no later process starts (`Journal.LoadsIff`).
- Checkpoints.Checkpoint.constructor: the file is a text; that bytes which are no text raise is `Journal.LoadsIff`.
- Checkpoints.Checkpoint.Put: creating the directory and file errors are not modelled; the object keeps the rows it appended, and `Lives` turns them into the text of the file.
- Schedule.ParallelMap: which calls were already in flight when another raised is not modelled; the exception is that of the first call to finish.
- Schedule.TokenLedger.Cost: `rows` and `override` are left out.
- RecallCurve.ScoreEvidence: only the evidence half of `score_retrieval`; the answer half is a token-overlap threshold on text.
- Dump.FileReader.Finish: the key file's `systems` and `created` fields and the returned note are left out, as is the answers phase.
- MadeUp.Words.New: which word is drawn is arbitrary, so equal seeds giving equal turns is not stated.
- Soak.World.Emit: a turn is a structured value; its text, the alias a predicate is spelled with and the shares of each kind are left out, and so are the detectors.
- Rounding.RoundUp125: values are reals, so `log10` and the powers of ten are exact; the tolerance for floating-point noise is kept.
- Gate.Summarize: samples are reals and the confidence is the one the source uses; bootstrap draws are arbitrary.
- Names.BuildStore: `remember` is the list of facts written in each transaction.
- Baseline.Mem0StyleMemory.Add: similarity is any function of the two texts, and `argsort` any order that falls by similarity.
- Replaying.CoverageIsAShare: `kept_recall`, the paired bootstrap and the tables are left out.
- Tallies.Tally.Merge: `to_dict` and `from_dict` are the value `Totals`; keys missing from an old row are not modelled.
- Resuming.RunSession: a dict of reasons is printed in an order that depends only on its keys, where the source has the order in which they were met; every reason is a name of letters and underscores.
- Resuming.ResumedTotals: the sample's question ids are taken to be distinct, and scoring a question in an arm to give the same row each time; the verdicts and the report are left out.
- Grouping.FoldersAreContiguous: how a path is cut into parts is an arbitrary function.
- `bench/temporal.py`, `bench/hosted.py`, `bench/locomo.py`, `bench/longmemeval.py` and `bench/mutation.py`: drivers over the library, with no logic of this kind of their own.
- HTTP readers, SDK clients, downloads, subprocesses, argument parsing and report rendering.
