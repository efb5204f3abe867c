# Verification of the tagents libraries

A model in Dafny of the algorithms and protocols at the core of tagents, with proofs of what they promise.
`dafny verify dfyconfig.toml` checks all of it.
Code that computes a value is a function here; code that moves a cursor, fills a table or reacts to callbacks is a class or a method with loops, proved against a function of its state, and the theorems are about those functions over every input or every run.
A run is a sequence of steps in which each step can come when it does; nothing is assumed of the order, and what other processes, the clock and the operating system do are steps too.

- **JSON** (`Utf16`, `Decimal`, `JsonGrammar`, `JsonUnambiguous`, `JsonValue`, `JsonOrder`, `JsonReader`, `JsonParser`, `JsonWriter`, `JsonRoundTrip`).
  The grammar of RFC 8259 stands as syntax trees with their text and as a recursive reading, and the two are inverse.
  The parser with its stack of open containers returns that reading, in three variants that differ in what becomes of surrogate halves with no partner; the printer with its stack of levels writes the recursive text, keys in the order of section 10.1.11.1 of ECMA-262.
  What is printed is read back.
- **The event follower** (`ByteLines`, `AgentEvents`, `AgentFollower`).
  It reads a growing file in chunks, rotates it and keeps the old one for a grace, while other processes append to files, replace, truncate and remove them between any two of its steps.
- **One headless turn** (`Turn`, `TurnDriver`, `AwakeLimit`, `TurnScope`, `Stream`).
  Its outcome, the items it was fed, the awake time it is limited by, the timers it owns, and the lines of its output.
- **One supervised call** (`Supervise`, `Capture`, `Ending`).
  Its stop, pipes, exit and deadlines in any order; the bytes kept of its output; the token that stops it.
- **Notices** (`Deadlines`, `DeadlineTimer`, `Engine`, `EngineDriver`, `LockProtocol`, `LockReuse`, `LockTaking`).
  One timer for all that waits, on a machine that sleeps; warnings that are still true when they are posted; one service at a time.
- **The knowledge index** (`KnowledgeIndex`, `KnowledgeDb`): reading only what changed against a rebuild.
- **The contract generator** (`JsNumber`, `JsonFile`, `ContractDigest`, `ContractVersion`, `ContractPlan`): planning is a fixpoint of applying, over the texts of the files; versions count in JavaScript's numbers.
- **Dates, paths, command lines and texts** (`Date`, `IsoDate`, `Paths`, `PathResolve`, `PathWalk`, `ParseArgs`, `Argv`, `SplitMessage`).
- **Pictures** (`Scenes`, `FloodFill`): recordings as rows that change, and the background of a sticker.

## Findings

Where a promise does not hold of the code on all inputs, the model keeps the code, names an input, and proves when the promise holds.

- Counted awake time can exceed the time that passed, when the clock is set back (`AwakeLimit.SetBackCountsTwice`): it does exactly when the clock was set back by more than was slept (`AwakeLimit.CountedIsAtMostTheWall`).
- Incremental reindexing can differ from a rebuild, when a text changed under its old mtime (`KnowledgeIndex.StaleMtime`): it agrees exactly when, between two looks at a readable file, an unchanged mtime or an unchanged hash stands for the same path and reading (`KnowledgeIndex.SameAsRebuild`).
  An equal hash at another path counts too: the path in the index is then the old one.
- A version does not always increase, because its numbers are JavaScript's: 0.0.9007199254740992 moves to itself (`ContractVersion.StuckAtTheEnd`), 9007199254740993.0.0 to a lower number in front (`ContractVersion.LowerInFront`), and a number of 22 digits is printed with an exponent, which makes no version.
  `ContractVersion.BumpIncreases` says for every version when the new one is a version and when it is a later one.
- A cache warning can come before the wait of its own arming (`Engine.TenSeconds`): with two armings of a key for one millisecond exactly when the wait of the first is shorter (`Engine.SameMillisecond`), and never when no arming for it had a shorter one (`Engine.WaitIsItsOwn`).
  Events come in whole seconds, so two of them in one millisecond are common.
- Two services can hold the lock, when a process comes to write the very text of one before it (`LockProtocol.SameTextsRob`).
  After any run it can happen exactly when that text is in use: a lock from before the boot says it, or a live process has judged it stale, or is judging it as one from before the boot (`LockReuse.GuardIsExact`).
  A text left over in the lock that nobody is judging does no harm, and `LockProtocol.OneLiveHolder` includes it.
- The screen of a shot keeps the last rows of an earlier, higher one: it is exactly the shot when no earlier shot was higher, and only then (`Scenes.ShownExactly`).
- An option's words are read back exactly when its name is not empty and holds no `=` (`ParseArgs.OptionReadsBack`), a flag's exactly when its name is empty, begins with `=` or holds none (`ParseArgs.FlagReadsBack`).

## Model

| member | source | states |
|---|---|---|
| `JsonRoundTrip.RoundTrip` | crates/tagents-core/src/json.rs:245-380 | For every text that `parse_whole` reads and for both layouts: what the value prints to is read by `parse_whole` as the value with every object in JavaScript key order, later duplicates collapsed, lone halves kept and a zero without its sign; that value prints to the same text, and putting it in order again changes nothing |
| `JsonRoundTrip.PrintedReadsBack` | crates/tagents-core/src/json.rs:266-305 | The same from the value: any value a reader can return prints, at either layout and with any white space behind it, to text without a lone half that reads back as the value in order |
| `JsonRoundTrip.ReadersAcceptTheSame` | crates/tagents-core/src/json.rs:223-249 | The three readers accept exactly the texts of the grammar; `parse` returns what `parse_whole` does with every lone half as U+FFFD, `parse_exact` with the halves in keys alone replaced, and `lone_key` says exactly whether `parse_whole` returned a `Keyed` somewhere |
| `JsonUnambiguous.ScanIsTheGrammar` | crates/tagents-core/src/json.rs:552-664 | A recursive-descent form of the reader accepts a text with a tree exactly when the tree is one of the grammar of RFC 8259 and is written as that text, whole |
| `JsonUnambiguous.GrammarIsUnambiguous` | crates/tagents-core/src/json.rs:552-664 | No text is written from two syntax trees, so what a text reads as is one value |
| `JsonParser.Parser.Document` | crates/tagents-core/src/json.rs:459-540 | The loop with its stack of open containers returns what the recursive reading of the whole text is, refuses exactly when that does, and leaves `lone_key` set exactly when some key of the text holds a lone half |
| `JsonParser.Parser.Settle` | crates/tagents-core/src/json.rs:495-540 | Handing a complete value to the containers it closes, one after the other, keeps what the rest of the text means: it ends with the whole document, inside a container at the start of its next value, or refused exactly when the text is no document |
| `JsonParser.Parser.Key` | crates/tagents-core/src/json.rs:559-572 | A key is read with its colon exactly where the grammar has one; its halves are joined or kept as the reader asks, and the flag is raised exactly for a key with a lone half |
| `JsonParser.Parser.ReadLiteral` | crates/tagents-core/src/json.rs:626-664 | The string loop, which copies runs and joins escaped halves as they come, reads a literal exactly when the grammar does, as the units that its pieces stand for |
| `JsonParser.Parser.Escape` | crates/tagents-core/src/json.rs:636-687 | One escape adds one piece of the grammar to what was read, and is refused only where the literal is none: a pair is joined only from two adjacent escapes, and a high half before anything else stays lone |
| `JsonParser.Parser.Number` | crates/tagents-core/src/json.rs:583-624 | The longest number literal at the cursor is taken, refused exactly when there is none, and read as its exact decimal |
| `JsonParser.Parse` | crates/tagents-core/src/json.rs:223-227 | `parse` is the recursive reading with lone halves in strings and keys read as U+FFFD |
| `JsonParser.ParseExact` | crates/tagents-core/src/json.rs:234-241 | `parse_exact` keeps lone halves in strings, not in keys, and returns the flag that some key held one |
| `JsonParser.ParseWhole` | crates/tagents-core/src/json.rs:245-249 | `parse_whole` keeps lone halves in strings and keys |
| `JsonReader.ParsedIsTree` | crates/tagents-core/src/json.rs:459-540 | What a text reads as is what the one tree it is written from reads as, and nothing when there is none |
| `JsonValue.ReadersAgree` | crates/tagents-core/src/json.rs:162-173 | On every tree: what `parse_whole` makes of it is well-formed text or a `Units` with a lone half at each place, and the two other readings and the flag follow from it |
| `Utf16.LossyAt` | crates/tagents-core/src/json.rs:559-572 | A string read lossily differs only where a half has no partner, which becomes U+FFFD |
| `Utf16.LossyIsWellFormed` | crates/tagents-core/src/json.rs:113-118 | Reading lossily leaves text without lone halves, and text that has none as it was |
| `Utf16.ConcatReads` | crates/tagents-core/src/json.rs:626-664 | Two strings joined where no pair is cut are well-formed exactly when both are, and read lossily piece by piece; so runs can be copied on their own |
| `Decimal.NumberTextIsLiteral` | crates/tagents-core/src/js.rs:248-286 | Every layout of a number (plain, leading zeros, exponent) is a number literal of section 6 of RFC 8259 |
| `Decimal.LayoutReadsBack` | crates/tagents-core/src/js.rs:248-286 | The literal that a decimal is laid out as is worth that decimal again, up to the sign of a zero |
| `Decimal.NormaliseKeepsWorth` | crates/tagents-core/src/json.rs:583-611 | Dropping zeros at both ends of the digits of a literal leaves the rational number it is worth |
| `JsonWriter.QuoteReadsBack` | crates/tagents-core/src/json.rs:182-204 | Any units, lone halves included, quote to a string literal of the grammar that reads back as the same units |
| `JsonWriter.QuoteUnits` | crates/tagents-core/src/json.rs:182-197 | The loop over runs of whole characters writes what quoting unit by unit does, for any units |
| `JsonWriter.OrderMembers` | crates/tagents-core/src/json.rs:362-380 | The slots found through a map and then sorted are the members in JavaScript order |
| `JsonWriter.Stringify` | crates/tagents-core/src/json.rs:266-354 | The printing loop with its stack of levels writes exactly the recursive text of the value with its members in order, in both layouts |
| `JsonRoundTrip.PrintIsSyntax` | crates/tagents-core/src/json.rs:266-354 | What is printed is the text of a tree of the grammar, with the white space of the layout |
| `JsonRoundTrip.PrintIsClean` | crates/tagents-core/src/json.rs:266-305 | What is printed holds no lone half, so it is a `String` |
| `JsonOrder.JsOrderMeaning` | crates/tagents-core/src/json.rs:362-380 | JavaScript order has every key once, array indices first and ascending, the other keys by first occurrence, each with its last value; looking up any key gives what it gave before |
| `JsonOrder.CollapseCollapses` | crates/tagents-core/src/json.rs:366-376 | The slots are exactly the keys of the members, in the order of their first occurrences, each with the value of its last |
| `JsonOrder.SortIsStable` | crates/tagents-core/src/json.rs:377-390 | Sorting by array index keeps the order of the members that rank alike |
| `JsonOrder.JsOrderIsIdempotent` | crates/tagents-core/src/json.rs:362-380 | Members in JavaScript order stay as they are |
| `JsonOrder.GetCanon` | crates/tagents-core/src/json.rs:49-60 | Reading a key of a value after printing and reading it back gives what reading it before gave, printed and read back |
| `ByteLines.LinesOfConcat` | packages/core/src/agent-events.ts:279-302 | The lines of a text read in two pieces are those of the first piece and then those of its rest joined to the second |
| `AgentEvents.StepIsSound` | packages/core/src/agent-events.ts:221-414 | Every step of the follower and of other processes (append, truncate, rename, create, read, reopen, rotate, end of a grace, death, close) keeps it that what was delivered through each cursor is the events it has read, in order and once, or a beginning of them if it was closed in between |
| `AgentEvents.EveryRunDelivers` | packages/core/src/agent-events.ts:207-414 | In every run, with what the path names allowed to go out of date at any time: through each cursor whose own file is not truncated exactly the events of the complete lines between where it began and how far it has read were delivered, in order and once; the first cursor begins at the end of its file and every other at 0; the follower dies once at most |
| `AgentEvents.GraceIsDelivered` | packages/core/src/agent-events.ts:372-393 | In every run, appends between any two steps included: once a grace ended with the follower still open and its file not truncated until then, what has been delivered through the old cursor, then and after any further run, is every event of its file from where the cursor began to the size the file had at that time |
| `AgentEvents.PastIsSilent` | packages/core/src/agent-events.ts:382-393 | Nothing more is delivered through a cursor that was let go of |
| `AgentEvents.ClosedIsSilent` | packages/core/src/agent-events.ts:221-232 | After a close nothing is delivered, reported dead, rotated or opened in any run |
| `AgentFollower.Follower.constructor` | packages/core/src/agent-events.ts:337-347 | A follow begins at the end of the file, which is created when the path names nothing |
| `AgentFollower.Follower.ReadChunk` | packages/core/src/agent-events.ts:285-301 | One read of at most 65,536 bytes moves the cursor on, keeps what is behind the last newline and hands over the complete lines until the caller closes |
| `AgentFollower.Follower.DeliverAll` | packages/core/src/agent-events.ts:297-300 | The lines are handed over one by one and none after the caller closed the follower from inside one |
| `AgentFollower.Follower.Pump` | packages/core/src/agent-events.ts:279-302 | The chunk loop reads up to the size the file had when it was looked at, while others append: what is handed over is what one read of all of it would find, and a file that became shorter is read from its start |
| `AgentFollower.Follower.Rotate` | packages/core/src/agent-events.ts:372-380 | Renaming, opening afresh, setting the grace and draining, with others appending and making files in between, is a run of the steps; the cursor that was followed is kept for its grace, and no cursor is lost |
| `AgentFollower.Follower.Reopen` | packages/core/src/agent-events.ts:363-370 | A path that is gone or is another file: the same, and the new file is followed from its start |
| `AgentFollower.Follower.FinishOld` | packages/core/src/agent-events.ts:382-393 | The end of a grace reads the old file one last time as a step of the run, leaves no grace behind, and does nothing when the follower was closed |
| `AgentFollower.Follower.Drain` | packages/core/src/agent-events.ts:395-414 | A whole drain, others acting between the read, the stat, the rename and the open, is a run of the steps; unless closed it has read what the file held when it began, follows the file at the path, and has rotated a file of the size unless a grace was running |
| `AgentFollower.Follower.Shutdown` | packages/core/src/agent-events.ts:221-232 | A shutdown drops the watcher, the grace and its cursor, and changes nothing that was delivered |
| `Turn.HowATurnEnds` | packages/core/src/claude-driver.ts:412-467 | In every run of a turn from its beginning: it has an outcome exactly when something has ended it, and the first happening that did decides it. It is fine or killed after a result exactly when the spawn did not fail and the last result heard by then had `is_error` false (fine: and the exit code was 0); without such a result it is timed out exactly when its counted time had reached the limit; the items it reports are those pulled, in order |
| `Turn.OutcomeStays` | packages/core/src/claude-driver.ts:412-420 | What a turn has come to when something ended it (outcome, kills, items) is what it has at the end of the run |
| `Turn.OneOutcome` | packages/core/src/claude-driver.ts:412-420 | From any reachable state with an outcome, no run changes it, delivers an item, kills or leaves a timer |
| `Turn.AfterTheExit` | packages/core/src/claude-driver.ts:507-514 | In every run in which the child has exited, the turn has its outcome, or a drain is pending whose end gives it one |
| `Turn.EveryTurn` | packages/core/src/claude-driver.ts:305-491 | In every run in which stdin, once not writable, does not come back: the items pulled are first those echoed, then those written and not echoed, then those never written; and a turn with input counts as over only with nothing unechoed and stdin closed |
| `TurnDriver.Prompt.OnReplay` | packages/core/src/claude-driver.ts:345-358 | The callback, over the list it shares with the report, marks the oldest line written and nothing else |
| `TurnDriver.Prompt.OnResult` | packages/core/src/claude-driver.ts:360-392 | The callback does to the turn what a result does: proves the prompt read, closes the input, and settles the phase when nothing is unread |
| `TurnDriver.HandledIsAStep` | packages/core/src/claude-driver.ts:360-392 | What that callback does, with the reader having heard the result, is the step of the turn |
| `TurnDriver.Prompt.PumpItem` | packages/core/src/claude-driver.ts:470-491 | Pulling one item writes it exactly when stdin is open and writable, and queues it for its echo only then |
| `TurnDriver.Prompt.Finish` | packages/core/src/claude-driver.ts:412-467 | `finish` hears the rest of the pipe, disposes once and settles the outcome, as one step of the turn |
| `TurnDriver.Prompt.Report` | packages/core/src/claude-driver.ts:412-467 | The items reported are a copy of those pulled |
| `AwakeLimit.KilledAtTheLimit` | packages/core/src/claude-driver.ts:265-301 | For any clock: the turn is killed exactly when its counted time has reached the limit, has one warning at most, before the kill and at or after its point, and has a tick pending exactly until the kill |
| `AwakeLimit.TimeIsAccountedFor` | packages/core/src/claude-driver.ts:265-301 | For any clock: counted time is the time passed on it, and what it was set back by, less what gaps exceed two ticks by |
| `AwakeLimit.CountedIsAtMostTheWall` | packages/core/src/claude-driver.ts:265-301 | So counted time is at most the time passed exactly when the clock was set back by no more than was slept |
| `AwakeLimit.NeverBack` | packages/core/src/claude-driver.ts:265-301 | The clock was set back by nothing exactly when it is monotone, and nothing was slept exactly when no gap exceeds two ticks |
| `AwakeLimit.MonotoneCountsAtMostTheWall` | packages/core/src/claude-driver.ts:265-301 | On a monotone clock counted time never exceeds the time passed, and they are equal exactly when nothing was slept |
| `AwakeLimit.SetBackCountsTwice` | packages/core/src/claude-driver.ts:265-301 | A run on a clock set back in which 20 seconds are counted while 10 pass |
| `AwakeLimit.BothLandOnTheirMillisecond` | packages/core/src/claude-driver.ts:265-301 | When every tick comes when due, the kill comes at the start plus the limit to the millisecond, and the one warning at its own |
| `AwakeLimit.TheKillComes` | packages/core/src/claude-driver.ts:265-301 | There is a finite run of ticks on time that kills the turn |
| `AwakeLimit.SleepCountsTwoTicks` | packages/core/src/claude-driver.ts:270-275 | However long the machine sleeps between two ticks, each gap counts for 20 seconds at most |
| `TurnScope.ReleasedOnce` | packages/core/src/turn-scope.ts:46-84 | In every run: nothing is released before the dispose, and by it everything given is released once and in order, where before the dispose one thing given twice is one; what is given after it is released as it comes |
| `TurnScope.DisposedIsSilent` | packages/core/src/turn-scope.ts:78-84 | After the dispose nothing is owned, pending or listening and no callback runs, whatever is asked of the scope |
| `TurnScope.RunKeeps` | packages/core/src/turn-scope.ts:46-75 | In every run the timers pending are those owned, and a disposed scope owns nothing |
| `TurnScope.Scope.DisposeAll` | packages/core/src/turn-scope.ts:78-84 | Tears everything down in the order it was given and tells whether it was the first to |
| `Stream.ReadAll` | packages/core/src/stream.ts:67-82 | However a stream is cut into chunks, the lines seen are those of the whole, the last of which needs no newline |
| `Stream.StreamReader.Push` | packages/core/src/stream.ts:67-75 | A chunk yields the lines it completes, in order, and the rest waits |
| `Supervise.HowACallEnds` | crates/tagents-core/src/child.rs:326-393 | In every run: the reason is the first stop or deadline that came before the exit, the exit is the program's own; and a call that ends after the exit, its channel still connected, does so when both pipes ended, or when the drain is over and it had stopped the program itself, no pipe was readable, or the bound had come |
| `Supervise.OverInTime` | crates/tagents-core/src/child.rs:326-393 | In every run from the start whose deadlines elapse when due: nothing after the exit is handled later than the drain and the grace past it, and a deadline elapsing at that bound ends the call |
| `Supervise.NothingAfterTheBound` | crates/tagents-core/src/child.rs:368-377 | The same from any reachable state after the exit |
| `Supervise.SomethingElapses` | crates/tagents-core/src/child.rs:368-377 | From every reachable state after the exit the call can end by its deadlines alone |
| `Supervise.SetOnce` | crates/tagents-core/src/child.rs:343-386 | A reason once set never changes, none is set after the exit, and after it nothing is signalled |
| `Supervise.KilledAtTheExit` | crates/tagents-core/src/child.rs:356-367 | In every run SIGKILL is the last signal to the group, at the moment of the exit |
| `Supervise.StoppedIsKilled` | crates/tagents-core/src/child.rs:397-408 | A program that is being stopped was sent SIGKILL, or its grace ends when the deadline does |
| `Supervise.Follow` | crates/tagents-core/src/child.rs:326-393 | The loop handles arrivals in order until the call is over and returns the reason, the code and the signals of that run |
| `Capture.ReadStream` | crates/tagents-core/src/child.rs:62-100 | However a stream of UTF-8 characters is chunked: it counts as cut exactly when longer than the cap, and what is kept is the longest run of whole characters within it |
| `Capture.KeepsWholeCharacters` | crates/tagents-core/src/child.rs:89-121 | Of UTF-8 cut at the cap, the end found is that of the last character that fits whole |
| `Capture.DropsAtMostFour` | crates/tagents-core/src/child.rs:103-121 | On any bytes at most four are dropped |
| `Capture.CompleteEnd` | crates/tagents-core/src/child.rs:103-121 | The backward walk finds that end |
| `Capture.Captured.Push` | crates/tagents-core/src/child.rs:78-86 | What is held after a chunk is the first `cap` bytes of all so far, cut exactly when there were more |
| `Ending.EachRunsOnce` | crates/tagents-core/src/ending.rs:24-49 | Under every interleaving of stops and watches by any number of threads, those that a running watcher does itself included: once stopped and the threads through, each watcher has run as often as it was given, once each |
| `Ending.RunConserves` | crates/tagents-core/src/ending.rs:24-49 | At every point each watcher given is kept, taken to run or has run, and none of them twice |
| `Ending.NoneWithoutAStop` | crates/tagents-core/src/ending.rs:40-49 | Without a stop no watcher runs |
| `Ending.StopToken.Stop` | crates/tagents-core/src/ending.rs:24-33 | A stop runs the watchers in the order given and empties the list; a second one runs none |
| `Ending.StopToken.Watch` | crates/tagents-core/src/ending.rs:40-49 | A watcher runs at once on a stopped token and is kept otherwise |
| `Deadlines.EveryRun` | packages/notify/src/deadlines.ts:39-103 | In every run, callbacks that arm, cancel, sweep and close included: between walks a timer is pending exactly when open with something waiting; nothing fires early, twice for one arming, or while it waits; what fires, and what waits past its time, is at most five awake minutes late |
| `Deadlines.OnTime` | packages/notify/src/deadlines.ts:55-81 | On a machine that never sleeps every key fires at its millisecond, or when armed if that was later, and nothing waits past that |
| `Deadlines.ClosedIsSilent` | packages/notify/src/deadlines.ts:96-100 | After the close nothing fires, waits or has a timer |
| `DeadlineTimer.Scheduler.Wake` | packages/notify/src/deadlines.ts:64-81 | A walk over the due keys, whose callbacks run the scheduler in any nested way, keeps the whole history a run of the machine and ends with its own walk done |
| `DeadlineTimer.Scheduler.Schedule` | packages/notify/src/deadlines.ts:47-62 | Clearing the timer and setting one for the soonest key, at most five minutes off, leaves one timer at most |
| `DeadlineTimer.Scheduler.SweepNow` | packages/notify/src/deadlines.ts:92-95 | A sweep fires what is due now as a walk of its own, inside another or not |
| `Engine.WarningsAreTrue` | packages/notify/src/engine.ts:298-366 | In every run, jobs queued behind others and armings replaced meanwhile: each cache warning was composed from its key's newest arming with no cancelling event handled since, after the wait of an arming of the key for that moment and less than `ttl` past the event; no key has more warnings than armings |
| `Engine.WaitIsItsOwn` | packages/notify/src/engine.ts:336-366 | The wait is the newest arming's own when no arming of that key for the same millisecond had a shorter one |
| `Engine.SameMillisecond` | packages/notify/src/engine.ts:336-366 | For any two events of one pane and millisecond that arm it and any two options, the wait of the second below its `ttl`: a run in which the second is warned of before its own wait is over exists exactly when the wait of the first is shorter |
| `Engine.ShortWaitIsUsed` | packages/notify/src/engine.ts:298-366 | That run, for all such events and options: the second event waits behind another job until the first deadline falls due, and its arming is then used by that deadline |
| `Engine.TenSeconds` | packages/notify/src/engine.ts:336-366 | In seconds: a warning ten seconds after an event whose wait is 50 minutes |
| `Engine.RunKnowsUp` | packages/notify/src/engine.ts:236-292 | In every run a key is taken for up exactly when the last command about it put its notice up, so no notice is withdrawn that is not up |
| `Engine.StoppedIsSilent` | packages/notify/src/engine.ts:454-470 | After the stop nothing is armed, warned or told to the notifier |
| `EngineDriver.NoticeEngine.TellsTheTruth` | packages/notify/src/engine.ts:194-394 | The object, after any calls: its warnings are true in that sense and no more than its armings, and what it takes for up is what is on screen |
| `EngineDriver.NoticeEngine.RunJob` | packages/notify/src/engine.ts:307-366 | Running the next queued job is one step of the machine, and the object stays one whose whole history is a run |
| `EngineDriver.NoticeEngine.OnEvent` | packages/notify/src/engine.ts:307-334 | An event cancels, arms, posts and withdraws as the machine does |
| `EngineDriver.NoticeEngine.OnDue` | packages/notify/src/engine.ts:336-366 | A due key is dropped when it is not its newest arming or the pane is not waiting, warned of otherwise |
| `EngineDriver.AlwaysOneOfTwo` | packages/notify/src/engine.ts:398-470 | Over every life of an engine from its creation, follows and closes that throw included: once started and until stopped exactly one of the follower and the timer that follows again is there, and the wait is between its bounds |
| `EngineDriver.FailuresDouble` | packages/notify/src/engine.ts:419-441 | Follows that fail one after the other wait twice as long each time, up to five minutes |
| `LockProtocol.OneLiveHolder` | packages/notify/src/service.ts:117-220 | In every run of any number of processes, with crashes, reboots and pids used again, a process that finds a lock under its own pid included: at most one live process holds, and the lock is there and names it; a start that LockReuse.GuardIsExact tells to be harmful is left out |
| `LockProtocol.NobodyRobs` | packages/notify/src/service.ts:162-220 | No step of another process takes the lock of a live holder away or changes it |
| `LockProtocol.RefusedForTheLiving` | packages/notify/src/service.ts:162-169 | A process that is refused is refused for a pid that is alive, and born when the lock says if both are known |
| `LockProtocol.LiveIsHeld` | packages/notify/src/service.ts:162-169 | The lock text of another live process is always judged held |
| `LockProtocol.StaleIsDead` | packages/notify/src/service.ts:162-169 | A lock text judged stale is that of no other process now alive |
| `LockProtocol.SameTextsRob` | packages/notify/src/service.ts:109-169 | Two processes without a known start that had one pid: a run that ends with two live holders, when a text still in use is written again |
| `LockReuse.GuardIsExact` | packages/notify/src/service.ts:162-216 | After any run, for any process that can start next: some run from there without another such start ends with two live holders exactly when its lock text is in use, which is when a lock from before the boot says it, or a live process has judged a lock with it stale, or is judging one from before the boot |
| `LockReuse.Seizes` | packages/notify/src/service.ts:201-216 | A process with nobody else alive under the pid of the lock takes it within two tries |
| `LockTaking.Machine.TakeLock` | packages/notify/src/service.ts:201-216 | The retry loop, with all others free to act between any two of its steps: told it took the lock exactly when it holds, and then it is the one holder that the lock names; told another pid when it was refused for that one |
| `LockTaking.Machine.CreateLock` | packages/notify/src/service.ts:141-153 | The lock is created exactly when there was none |
| `LockTaking.Machine.ReleaseLock` | packages/notify/src/service.ts:218-220 | The holder's release removes its lock |
| `KnowledgeDb.Index.Reindex` | packages/knowledge/src/db.ts:189-247 | Whatever the index held and for any folder: every id ends with the entry that its file and its former entry decide, an id without a file with none; the full-text table mirrors the chunks; `added` and `removed` account for the number of documents |
| `KnowledgeIndex.SameAsRebuild` | packages/knowledge/src/db.ts:189-247 | For any two looks at a folder: an index that was a rebuild of the first becomes a rebuild of the second exactly when, for a file both have and that was readable, an unchanged mtime, or an unchanged hash, stands for the same path and reading |
| `KnowledgeIndex.IncrementalIsFull` | packages/knowledge/src/db.ts:189-247 | Over any number of reindexings: the index is after each what a full rebuild gives exactly when that holds between every two looks |
| `KnowledgeIndex.HonestIsFull` | packages/knowledge/src/db.ts:189-247 | It is when mtimes are honest, hashes injective and paths stay |
| `KnowledgeIndex.StaleMtime` | packages/knowledge/src/db.ts:206-216 | A text changed under the same mtime is kept as it was |
| `KnowledgeIndex.DeleteMirrors` | packages/knowledge/src/db.ts:144-148 | Deleting a document from both tables, the full-text rows found through the chunks, keeps them the same row for row |
| `KnowledgeIndex.InsertedChunks` | packages/knowledge/src/db.ts:150-175 | Inserting a document adds its chunks in order and no other document's change |
| `KnowledgeDb.Index.DeleteDoc` | packages/knowledge/src/db.ts:144-148 | Deletes one document's entry and leaves every other |
| `KnowledgeDb.Index.InsertDoc` | packages/knowledge/src/db.ts:150-175 | Adds one document's entry and leaves every other |
| `KnowledgeDb.Index.Take` | packages/knowledge/src/db.ts:205-238 | One file is skipped for its mtime, kept for its hash, read anew, refused or gone, and what becomes of its entry is as that decides |
| `KnowledgeDb.Tally` | packages/knowledge/src/db.ts:189-247 | Documents after and removed make up those before and added, when what was seen, added and refused is as the loop leaves it |
| `ContractPlan.PlanningIsAFixpoint` | packages/contract/src/plan.ts:103-166 | For any sources, any texts on disk and any hash: once a plan is applied, the next writes nothing, deletes nothing, has the same digest and moves to the version just written; files are compared as the texts they are printed as |
| `ContractPlan.AppliedFollows` | packages/contract/src/tree.ts:48-54 | After a plan is applied each generated file is as generated, strays are gone and every other file but plugin.json is as it was |
| `ContractPlan.OwnKeysAreIgnored` | packages/contract/src/plan.ts:82-100 | plugin.json without its own keys is the same whatever version and digest the generator wrote into it |
| `ContractPlan.OwnKeysReadBack` | packages/contract/src/plan.ts:82-100 | The version and digest that were written are read back |
| `ContractPlan.ShippedChangesShow` | packages/contract/src/plan.ts:103-140 | Two payloads listed alike for the digest are the same files text for text, and the same plugin.json but for the keys the generator writes; so any change of what ships changes what is hashed |
| `ContractPlan.MovesIncrease` | packages/contract/src/version.ts:49-78 | A patch or minor move makes of the version what ContractVersion.BumpIncreases states, for every version; any other move leaves it |
| `ContractPlan.Collect` | packages/contract/src/plan.ts:103-140 | The loops that fill the payload list each shipped file once and nothing else |
| `ContractPlan.PlanGenerate` | packages/contract/src/plan.ts:103-166 | The loops give the plan that the lemmas are about, or the refusal |
| `ContractVersion.BumpIncreases` | packages/contract/src/version.ts:49-54 | A bump is refused exactly when the text is no version. Otherwise, in the numbers JavaScript reads: the new text is a version exactly when each number is printed without an exponent, it is then the old one with one number counted up, and later exactly when that number is below 2^53 or an odd multiple of two below 2^54; with no number above 2^53 it always is a version, and later as text exactly below 2^53 |
| `ContractVersion.StuckAtTheEnd` | packages/contract/src/version.ts:49-54 | A patch move of a version whose patch is 2^53 prints the same version |
| `ContractVersion.LowerInFront` | packages/contract/src/version.ts:49-54 | A patch move of a version with 2^53 + 1 in front prints 2^53 there, a lower number |
| `JsNumber.PlusOneGrows` | packages/contract/src/version.ts:52-53 | One more than a double is a greater double exactly below 2^53 and, up to 2^54, for every second one |
| `JsNumber.ShownIsRead` | packages/contract/src/version.ts:52-53 | The shortest digits that a double is printed with are read as that double |
| `JsNumber.NearestIsDouble` | packages/contract/src/version.ts:52-53 | What a number is read as, rounding to the even one of two, is a double |
| `JsonFile.RenderReadsBack` | packages/contract/src/json.ts:28-42 | A value as JavaScript holds it is read back from its two-space text with a newline |
| `JsonFile.ParsedIsInOrder` | packages/contract/src/json.ts:28-32 | What is parsed of any text has its keys once and in JavaScript order, all the way down |
| `ContractVersion.VersionReadsBack` | packages/contract/src/version.ts:49-54 | A printed version is parsed as the same three numbers |
| `ContractVersion.RewordingIsNotStructural` | packages/contract/src/version.ts:27-47 | For contracts without a key twice in an object: the structure changed exactly when the new one is not the old one reworded, which it is when the members that are no prose have the same keys with reworded values, in any order and whatever prose was changed, added or removed |
| `ContractDigest.OrderDoesNotMatter` | packages/contract/src/version.ts:17-22 | Two listings of the same files, in any order, sort to the same list |
| `ContractDigest.DifferentFilesDiffer` | packages/contract/src/version.ts:17-22 | Files that sort to the same list are the same files |
| `ContractDigest.SortSorts` | packages/contract/src/version.ts:17-22 | The sorted list is a permutation, ascending by code unit |
| `Date.DaysAreDates` | crates/tagents-core/src/date.rs:6-43 | Every integer day has a valid date, whose day it is |
| `Date.DatesAreDays` | crates/tagents-core/src/date.rs:6-43 | Every valid date is the date of its day |
| `Date.DayZero` | crates/tagents-core/src/date.rs:6-43 | Day 0 is the first of January 1970 |
| `Date.TomorrowIsTheDayAfter` | crates/tagents-core/src/date.rs:6-33 | The date of the next day is the calendar's next date, across months, years and leap days |
| `Date.MonthsApart` | crates/tagents-core/src/date.rs:25-43 | The firsts of two consecutive months are `days_in_month` days apart |
| `Date.YearIsFound` | crates/tagents-core/src/date.rs:6-23 | The year of an era is found from any of its 146,097 days by the one formula |
| `IsoDate.FieldsRecompose` | crates/tagents-core/src/date.rs:45-60 | For every integer millisecond the fields are those of a calendar and a clock and make up the timestamp |
| `IsoDate.IsoReadsBack` | crates/tagents-core/src/date.rs:45-60 | Whatever fields the text says, they make up the timestamp |
| `IsoDate.IsoSays` | crates/tagents-core/src/date.rs:45-60 | The text says the fields at their places |
| `IsoDate.SaysOneThing` | crates/tagents-core/src/date.rs:45-60 | A text says one set of fields |
| `PathResolve.RelativeLeadsThere` | crates/tagents-core/src/node.rs:144-172 | For all absolute paths, the relative path from one to another resolved from the one is the other resolved |
| `PathResolve.ResolveIs` | crates/tagents-core/src/node.rs:144-155 | What is resolved below an absolute base is the text of plain segments: no dot, no climb, no empty segment, no slash at the end |
| `PathResolve.ResolveIsIdempotent` | crates/tagents-core/src/node.rs:144-155 | What was resolved stays as it is below any base |
| `PathResolve.DirectoryAndName` | crates/tagents-core/src/node.rs:100-122 | The directory and name of a resolved path are its segments but the last and the last, and make it up again |
| `Paths.JoinIsAFixedPoint` | crates/tagents-core/src/node.rs:44-77 | What `join` gives, for any two texts, is not empty and is its own normal form |
| `Paths.NormalIsPlain` | crates/tagents-core/src/node.rs:44-77 | On an absolute path no climb is left |
| `Paths.NormalClimbs` | crates/tagents-core/src/node.rs:44-77 | On a relative path the climbs left come first |
| `PathWalk.JoinPath` | crates/tagents-core/src/node.rs:44-77 | The stack loop gives that normal form |
| `PathWalk.DirnameOf` | crates/tagents-core/src/node.rs:100-122 | The scan from the end gives the directory |
| `PathWalk.RealPathOf` | crates/tagents-core/src/node.rs:175-214 | The loop that follows links ends, by the links left and then the components left, with the path that the recursive walk finds, or fails exactly when it does |
| `PathWalk.RealPathIsReal` | crates/tagents-core/src/node.rs:175-214 | A real path is there, with no link in it or above it, and is its own real path |
| `PathWalk.NoLinkIsLeft` | crates/tagents-core/src/node.rs:175-214 | From any point of a walk, what is found has no link on the way to it |
| `PathWalk.NormalPathIsReal` | crates/tagents-core/src/node.rs:175-214 | A path without links has its resolved form as its real path |
| `Argv.TheVerbReadsTheCall` | packages/mcp/src/tools.ts:141-181 | For options with different names that are not empty and hold no `=`: any command line made for a call is read by the verb without an error, each option as the call gave it or its default, repeated values in order, and the positionals in order, whatever the values hold |
| `Argv.BuildArgv` | packages/mcp/src/tools.ts:141-181 | The loops build that command line, or refuse exactly when it does |
| `ParseArgs.OptionReadsBack` | crates/tagents-core/src/parse_args.rs:116-192 | A word `name=value` is read as that name and value exactly when the name is not empty and holds no `=` |
| `ParseArgs.FlagReadsBack` | crates/tagents-core/src/parse_args.rs:116-192 | A flag's word is read as its name alone exactly when the name is empty, begins with `=` or holds none |
| `ParseArgs.ReadWords` | crates/tagents-core/src/parse_args.rs:116-201 | The loop over the words, an option with a separate value taking two, gives the recursive reading or its first error |
| `SplitMessage.Split` | packages/telegram/src/split.ts:21-34 | For any text and limit of at least 1 it ends: every piece is trimmed, not empty and within the limit, the pieces stand in the text in order with only white space before, between and behind, and there are at most 2·length/limit + 1 |
| `SplitMessage.CutsWhereItCan` | packages/telegram/src/split.ts:24-29 | If the second half of the window has a paragraph end, it is cut at one no earlier; without, at a line; without both, at a space |
| `SplitMessage.PiecesAreText` | packages/telegram/src/split.ts:21-34 | There are pieces only for a text that is not all white space |
| `Scenes.Encode` | site/capture/frames.ts:16-43 | The loop gives styled rows that draw every shot, as frames of changed rows |
| `Scenes.AllEncoded` | site/capture/frames.ts:16-43 | Such frames show every shot: the screen at the frame that stands for a shot begins with its lines, is as high as the highest shot up to it, and has every row in range when no shot is higher than the first |
| `Scenes.ShownExactly` | site/src/lib/screen.ts:37-47 | The screen at which a shot stands draws exactly the shot when no earlier shot was higher, and only then |
| `Scenes.ChangesApplied` | site/src/lib/screen.ts:37-41 | Changed rows applied to a screen that begins with the rows before give one that begins with the rows after, what was lower staying |
| `Scenes.NothingChanged` | site/capture/frames.ts:31-41 | A frame is left out exactly when the rows are those before or the first of them |
| `Scenes.HeightIsKept` | site/src/lib/screen.ts:37-47 | Frames whose rows are in range keep the height |
| `FloodFill.BackgroundOf` | site/src/mascot/generate.ts:73-91 | Marks exactly the white pixels reached from the edge through white neighbours, for any picture, and ends although the stack grows |
| `FloodFill.MarkedIsReached` | site/src/mascot/generate.ts:80-90 | With nothing pending, what was marked is what is reached |
| `FloodFill.Visit` | site/src/mascot/generate.ts:80-90 | One pop marks a pixel or shortens the stack, and keeps it that what was marked was reached and what is beside it is marked or pending |

## Left out

Members that state less than the code does:

- JsonRoundTrip.RoundTrip: numbers are exact decimals, so the rounding of a literal to a double, and its overflow to Infinity, which prints as `null`, are not modelled; a negative zero prints without its sign, as in the code, and reads back as zero.
- JsonParser.Parser.Number: reads the exact decimal of the literal, not the double nearest to it.
- Decimal.LayoutReadsBack: is about the layout of given digits; that the shortest digits identify a double is not part of this model.
- ContractPlan.PlanningIsAFixpoint: SHA-256 is any function of the sorted files; a file is a text, so bytes that are no UTF-8 are not modelled; numbers in JSON are exact decimals, and a zero is read without its sign.
- IsoDate.IsoReadsBack: is about unbounded integers, the code about `i64`.
- KnowledgeDb.Index.Reindex: a folder is a list of files with different stems, each looked at once; SQLite is three tables that do what they are told.
- LockProtocol.OneLiveHolder: comparing the lock and removing it is one step, as is asking for a live pid and its start, and what `ps` answers is true when it answers; the starts left out are those that LockReuse.GuardIsExact describes.
- Engine.WarningsAreTrue: each job of the chain is one step, and following again after the follower died is apart from it, in EngineDriver.AlwaysOneOfTwo.
- Deadlines.EveryRun: time passes between the walks and not within one.
- AgentEvents.EveryRunDelivers: a file that is truncated and has grown past the old offset before the next read is read on from there, as in the code, so the promise is for the cursors whose file is not truncated; AgentEvents.StepIsSound holds for all.
- AgentFollower.Follower.Drain: within a drain others append at any time and make a file at a path that names none, and replace or truncate a file only between drains; a read returns at least one byte before the end and does not fail, and a new file has a number that no file has.
- Turn.EveryTurn: stdin that cannot be written does not become writable again, which Node's streams promise.
- Turn.HowATurnEnds: a failed spawn has a message that is not empty.
- SplitMessage.Split: speaks of 16-bit units, and a cut may fall inside a surrogate pair, as in the code.
- PathWalk.RealPathOf: the disk is a map of names to entries and links that does not change during the walk, and every failure to read one is the same.
- Ending.StopToken.Stop: is about watchers that leave the token alone; Ending.EachRunsOnce is about all.
- Argv.TheVerbReadsTheCall: an option named like a member of every JavaScript object, such as `toString`, is taken for one that a call can leave out.
- Scenes.Encode: two styles are the same when they have the same five attributes, whatever order their keys are in.
- Supervise.HowACallEnds: a channel whose senders are all gone ends the call too; nothing is said of how.

Parts of the repository that are not modelled:

- Texts are sequences of 16-bit units or of bytes; decoding UTF-8 is only in the place where a character may be cut.
- Parsing an event line: the follower's events are any set of lines.
- The wording, pictures and click actions of notices, and the text of a turn's log.
- What the engine keeps about a warning already given when it follows again.
- A callback of the scheduler that throws.
- Ranking and snippets of the full-text search, and chunking documents.
- The count of the shared daemon's connections, message interpolation, editing the plugin configuration, undoing a failed scaffold, the count of followers in a feed, and the white-space and slicing forms of strings: each would add easier members.
- Sockets, threads, signals, `ps`, tmux and the file system but for the steps named here.
- The dashboard, the site but for its recordings, the platform helpers, the Telegram and MCP transports, and the command-line front doors.
