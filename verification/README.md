# Lumina: verified models of the core algorithms and protocols

This project models the parts of Lumina whose correctness does not show from reading one
function, and proves what their code and documentation promise. `dafny verify dfyconfig.toml`
checks all of it.

Each module follows one component, in the form of its source: methods with loops where the code
updates variables, classes where an object changes its fields, functions where the code is an
expression, and a state machine of atomic actions where threads share state. Every method is
proved against a function of its inputs, and the results below are about those functions, for
all inputs, all runs or all interleavings.

| module | component |
|---|---|
| `Text`, `Utf8`, `Sequences`, `Arithmetic` | strings as Rust's standard library has them, and UTF-8 (section 4 of RFC 3629) |
| `Calendar`, `Timestamp` | three day-to-date conversions, one back, the timestamp printers and the parser, the retraining decision |
| `Sse` | the incremental parser of the agentic progress stream |
| `Canvas`, `DaemonProtocol` | the diffusion daemon: trimming, block diffusion, load and unload; the protocol of its threads |
| `Chunker` | splitting long messages |
| `Ical` | the iCalendar reader, and a printer of which it is a left inverse |
| `ToolLoop`, `Router` | the legacy tool loop with the failure counter; the model router |
| `EgressHost`, `EgressRate` | host extraction and allowlist; block counter and rate alert |
| `SeenEvents`, `Redactor` | the bounded duplicate filter; the redaction passes |

What the program takes from outside is a parameter that may be anything: JSON decoding, the
language model, tools, the denoiser and its vocabulary, the loading calls, keyword tables, case
mapping and the clock.

## Where the code and its description differ

The models follow the code. For each difference there is a result that says exactly when the
description holds, what the code does instead, or an input on which it does not hold.

- `parse_days_since` promises full days; it returns calendar days (`Timestamp.FullDaysIff`), wraps
  for a day in the future (`Timestamp.ElapsedIffNotFuture`) and cannot read its own output from the
  year 10000 on (`Timestamp.ParseDateOfPrinted`).
- `trim_canvas` scans for repeats beyond the end token; `Canvas.PastEndMattersIff` says when that
  changes the cut.
- `chunk_message_with_max` does not end when a character other than a line feed is longer than the
  limit (`Chunker.EndsIffFits`), and it does split inside code blocks (`Chunker.CodeBlockSplitIff`).
- `unfold_ical` works in two passes; `Ical.TwoPassesAreOneIff` says when that differs from one. A
  DTEND value that starts with VEVENT ends its block (`Ical.UnmarkedIff`, `Ical.DtendCanSpellMarker`).
- `extract_host` takes any text with a "://" for a URL; `EgressHost.FirstMarkIsSchemeIff` says when it
  is one.
- The failure counter is not reset by an agentic success (`ToolLoop.CountsARowIff`,
  `ToolLoop.ThreeInARow`, `ToolLoop.OpensDespiteSuccesses`).
- The rate alert is tied to tumbling windows: recent blocks need not raise it
  (`EgressRate.AnyNumberOfBlocksMissed`, `EgressRate.AlertIff`), and under concurrency an old base
  can raise it without recent blocks (`EgressRate.StaleBaseRaisesAlert`, `EgressRate.FalseAlertIff`).
- The duplicate filter keeps the newest 100 on eviction (`SeenEvents.QueueIsNewest`); its comment
  speaks of the oldest.
- A deep-first turn whose answer is uncertain calls the deep model twice, inside one bracket
  (`Router.TurnBracketed`).

## Model

| member | source | states |
|---|---|---|
| Calendar.DaysToDate | crates/lumina-core/src/sentinel.rs:659-690 | The year and month subtraction loop ends, never subtracts below zero, and returns the one valid Gregorian date whose day number, counted out year by year, is `n`; it is the date the closed form gives. |
| Calendar.DayNumberMonotone | crates/lumina-core/src/sentinel.rs:659-690 | Later valid dates have larger day numbers; with injectivity, the reference calendar gives each day one date. |
| Calendar.DayNumberInjective | crates/lumina-core/src/sentinel.rs:659-690 | Two valid dates with one day number are the same date. |
| Calendar.YearOfEraCorrect | crates/lumina-core/src/audit_log.rs:236-239 | The quotient with the 1460, 36524 and 146096 corrections is the year of the 400-year era in which the day falls, and none of the unsigned differences is negative. |
| Calendar.DaysToYmdCorrect | crates/lumina-core/src/audit_log.rs:233-245 | For every day count the closed form is a valid date and counting from 1970 to that date gives the day count back. |
| Calendar.ClosedFormsAgree | crates/lumina-core/src/retrain_scheduler.rs:199-209 | The signed closed form with truncating division and the guard for negative eras equals the unsigned one on every day count. |
| Calendar.DateToDaysCorrect | crates/lumina-core/src/retrain_scheduler.rs:169-179 | For every year from 0 on, every month and every day 1-31 the Fliegel-Van Flandern formula, with division that truncates toward zero, is the counted day number plus 2440588. |
| Calendar.DateToDaysInverts | crates/lumina-core/src/retrain_scheduler.rs:169-179 | Day count to date to Julian day number gives the day count plus 2440588, for every day since 1970. |
| Calendar.DateToDaysMonotone | crates/lumina-core/src/retrain_scheduler.rs:169-179 | One valid date is before another in the calendar if and only if its Julian day number is smaller. |
| Timestamp.PrintersAgree | crates/lumina-core/src/audit_log.rs:220-228 | The audit printer and the retraining printer write the same text for every second. |
| Timestamp.UtcNow | crates/lumina-core/src/sentinel.rs:634-656 | The third printer, which peels fields off one counter and uses the subtraction loop, writes that text too. |
| Timestamp.FieldsOfFormat | crates/lumina-core/src/retrain_scheduler.rs:143-150 | The ten-character prefix of a printed date parses back to the date below year 10000; from then on year and month survive and the day is cut short, if it parses at all. |
| Timestamp.ParseDateOfPrinted | crates/lumina-core/src/retrain_scheduler.rs:137-152 | The Julian day read from a printed timestamp is that of the printed second if and only if its day is before 10000-01-01. |
| Timestamp.PrintThenParse | crates/lumina-core/src/retrain_scheduler.rs:137-165 | Parsing the timestamp of `t1` when the clock reads `t2` gives the difference of the day counts, wrapped to 64 unsigned bits. |
| Timestamp.PrintedSecond | crates/lumina-core/src/retrain_scheduler.rs:192-212 | A timestamp below year 10000 has 20 characters in the shape of section 5.6 of RFC 3339, and its date and clock fields read back to exactly the second it was printed for. |
| Timestamp.TimestampsDiffer | crates/lumina-core/src/retrain_scheduler.rs:192-212 | No two seconds below year 10000 share a timestamp. |
| Timestamp.ElapsedIffNotFuture | crates/lumina-core/src/retrain_scheduler.rs:164 | That is the number of days gone by if and only if the timestamp's day is not in the future; a future day wraps at the cast. |
| Timestamp.FullDaysIff | crates/lumina-core/src/retrain_scheduler.rs:135-165 | The parser returns the documented "elapsed full days" of a timestamp that is not in the future if and only if its clock time has been reached again. |
| Timestamp.OneSecondIsADay | crates/lumina-core/src/retrain_scheduler.rs:135-165 | One second after 23:59:59 the parser reports a day. |
| Timestamp.CheckAfterTraining | crates/lumina-core/src/retrain_scheduler.rs:60-106 | After training at one second, a check at another asks for retraining if and only if there are enough samples and either the interval has passed or the clock has gone back past midnight. |
| Timestamp.CheckWithoutStamp | crates/lumina-core/src/retrain_scheduler.rs:60-85 | With no timestamp, or one that cannot be read, a check asks for retraining if and only if there are enough samples. |
| Sse.SplitSound | crates/lumina-core/src/chord.rs:588-598 | The frames, each followed by a blank line, and the leftover are exactly the bytes; no frame contains the delimiter or ends in a byte that would make an earlier one. |
| Sse.SplitUnique | crates/lumina-core/src/chord.rs:588-598 | There is only one way to cut bytes into such frames and a rest without delimiter, and the splitter finds it. |
| Sse.SplitResumes | crates/lumina-core/src/chord.rs:588-598 | Splitting can stop after any byte and go on from the leftover: frames and rest are those of one split. |
| Sse.AgenticSseState.PushChunk | crates/lumina-core/src/chord.rs:588-598 | The drain loop leaves the leftover of the batch split and the fold of all its frames' events over the old log, events, response, flag and callback calls. |
| Sse.AgenticSseState.HandleFrame | crates/lumina-core/src/chord.rs:608-692 | One frame: payload of the `data:` lines, decoded or skipped, and the new state for each kind of event. |
| Sse.PushTwice | crates/lumina-core/src/chord.rs:588-598 | From any state, two pushes are one push of the joined bytes. |
| Sse.ChunkIndependence | crates/lumina-core/src/chord.rs:588-598 | From any reachable state, any cutting of the stream into chunks ends in the same buffer, log, events, response and callback calls as one push, and the buffer holds no blank line. |
| Sse.StreamOfFrames | crates/lumina-core/src/chord.rs:549-558 | A stream of delimited frames, cut anywhere, folds exactly the events of those frames, each once and in order. |
| Sse.StreamOfMessages | crates/lumina-core/src/chord.rs:582-622 | End to end: whatever a server writes as frames of `data:` lines and lines to pass over, in UTF-8, each frame ended by a blank line, and wherever the network cuts it, exactly the events of the joined payloads are folded and nothing is left over. |
| Sse.FramesAreUtf8 | crates/lumina-core/src/chord.rs:582-598 | A stream is valid UTF-8 if and only if all its frames and the leftover are; so no frame of a valid stream is dropped at decoding, wherever chunks were cut. |
| Sse.LogFollowsStarts | crates/lumina-core/src/chord.rs:624-637 | After any events the log's names are the old ones followed by the names of the started tools, one entry each, in order. |
| Sse.CompletionTouchesLatest | crates/lumina-core/src/chord.rs:643-661 | A completion rewrites the latest untimed entry of its name with the reported duration and status, and nothing else anywhere. |
| Sse.TimedStepsStay | crates/lumina-core/src/chord.rs:643-661 | An entry with a duration other than zero is never written again, whatever follows. |
| Sse.LogIsAccounted | crates/lumina-core/src/chord.rs:624-661 | No entry is made up: its duration and status are those it had, those of a start, or those some completion event of its name reports. |
| Sse.SecurityFollowsReports | crates/lumina-core/src/chord.rs:662-681 | The security events are the reported ones, one each, in order, field by field. |
| Sse.CallbackOnce | crates/lumina-core/src/chord.rs:638-641 | The callback runs once, with the first started tool's name, or never when no tool starts. |
| Sse.FinishIffComplete | crates/lumina-core/src/chord.rs:682-704 | The parser finishes with success if and only if a `complete` event was seen, and with the text of the last one. |
| Utf8.BoundaryCut | crates/lumina-core/src/matrix_format.rs:131-140 | The one-byte boundary test is right: a position passes it if and only if cutting valid UTF-8 there leaves two valid texts. |
| Utf8.DecodeOfEncode | crates/lumina-core/src/chord.rs:593-594 | Encoding text as section 3 of RFC 3629 says gives valid UTF-8, and decoding it gives the text back. |
| Utf8.EncodeOfDecode | crates/lumina-core/src/chord.rs:593-594 | Valid UTF-8 is nothing but encoded text: decoding and encoding again gives the bytes back, so no overlong form is let through. |
| Text.LinesOfEnded | crates/lumina-core/src/chord.rs:611 | Text lines are told apart by either line end, a carriage return before a line feed going with it, and the last line may have no end. |
| Canvas.LoopsAtMeaning | daemon/diffusion-daemon/diffusion-daemon.cpp:76-80 | The counting loop reports a repetition if and only if the token stands at seven successive positions, or at seven successive every-other positions. |
| Canvas.CutUnique | daemon/diffusion-daemon/diffusion-daemon.cpp:69-84 | The least of the end bound and the loop onsets before its last position is unique. |
| Canvas.TrimCanvas | daemon/diffusion-daemon/diffusion-daemon.cpp:69-84 | On the array, with every access inside the canvas, the three nested loops return that least position. |
| Canvas.PastEndMattersIff | daemon/diffusion-daemon/diffusion-daemon.cpp:69-84 | For every canvas, what follows the first end token changes the cut of the answer before it if and only if a token recurs at stride 2 from before that cut to or past the end, within twelve positions. |
| Canvas.LoopScanPassesEnd | daemon/diffusion-daemon/diffusion-daemon.cpp:78 | There is such a canvas: an answer of three tokens without a loop is cut to nothing. |
| Canvas.CanvasRunSafe | daemon/diffusion-daemon/diffusion-daemon.cpp:249-283 | For any denoiser output: the block budget is kept, the prefix is the input followed by exactly the committed full blocks and fits the micro-batch, less than one block is left uncommitted, and no end token is in the response. |
| Canvas.CanvasRunIs | daemon/diffusion-daemon/diffusion-daemon.cpp:257-281 | The run without recursion, cell by cell: untrimmed blocks, each holding the cells after the input and all blocks before it as the denoiser left them, and a tail; it ends there only for want of budget, room or progress, or because the next block is trimmed; and the blocks are counted. |
| Canvas.CanvasOutputBounded | daemon/diffusion-daemon/diffusion-daemon.cpp:249-283 | At most `ceil(max_tokens / cl)` blocks are run and fewer than `max_tokens + cl` tokens come back. |
| Canvas.BudgetBound | daemon/diffusion-daemon/diffusion-daemon.cpp:252-253 | The block budget covers `max_tokens` and exceeds it by less than one block; without a positive `max_tokens` it is one. |
| Canvas.Engine.EnsureLoaded | daemon/diffusion-daemon/diffusion-daemon.cpp:111-168 | Context, model and flag come up together or not at all; an engine that is up is left alone. |
| Canvas.Engine.Unload | daemon/diffusion-daemon/diffusion-daemon.cpp:170-178 | Flag, context, model and buffer go, whatever the state was. |
| Canvas.Engine.RunCanvas | daemon/diffusion-daemon/diffusion-daemon.cpp:249-283 | The block loop, with all buffer accesses in bounds, comes to such a run. |
| Canvas.Engine.Generate | daemon/diffusion-daemon/diffusion-daemon.cpp:181-228 | Load error, input too long, no output or the answer: which one, for every input, load outcome and denoiser. The answer is the text of a run's response with its block count, or of the cells one full pass leaves after the input; the model stays as loaded. |
| DaemonProtocol.RunKeeps | daemon/diffusion-daemon/diffusion-daemon.cpp:446-498 | The invariant on mutex, flag, context, model, clock readings and activity time survives every run of atomic actions. |
| DaemonProtocol.AlwaysSafe | daemon/diffusion-daemon/diffusion-daemon.cpp:446-498 | In every interleaving of any number of requests with watcher, main thread and flag readers: the flag implies a live context and model; the three agree when the mutex is free; one thread is inside at a time; no unload overlaps a generation; the watcher unloads only when every request start and end is at least the timeout ago, in milliseconds. What the threads get done is stated in the rows below. |
| DaemonProtocol.ContextDiesByUnload | daemon/diffusion-daemon/diffusion-daemon.cpp:170-178 | A live context disappears in no other way than by a watcher's unload, idle for the timeout, or by the shutdown after the watcher has ended. |
| DaemonProtocol.HolderGoesOn | daemon/diffusion-daemon/diffusion-daemon.cpp:446-490 | In every reachable state whoever holds the mutex has an enabled step, however model calls turn out, and gives the mutex back after at most ten of them. |
| DaemonProtocol.OthersKeepHolder | daemon/diffusion-daemon/diffusion-daemon.cpp:446-490 | No step of another thread takes the mutex away or sets its holder back. |
| DaemonProtocol.NeverStuck | daemon/diffusion-daemon/diffusion-daemon.cpp:446-498 | Until the daemon is down, every reachable state has an enabled step other than the passing of time. |
| DaemonProtocol.IdleModelIsUnloaded | daemon/diffusion-daemon/diffusion-daemon.cpp:473-490 | From every reachable state with the watcher asleep, the mutex free, the model loaded and idle for the timeout, the watcher's next eleven steps are enabled and leave nothing loaded and the mutex free. |
| DaemonProtocol.BusyModelIsKept | daemon/diffusion-daemon/diffusion-daemon.cpp:480-481 | With the flag down or the timeout not reached, a round of the watcher changes nothing. |
| DaemonProtocol.SecondLookKeeps | daemon/diffusion-daemon/diffusion-daemon.cpp:482-488 | A model that was used while the watcher waited for the mutex is kept: the second look finds out. |
| DaemonProtocol.RequestGenerates | daemon/diffusion-daemon/diffusion-daemon.cpp:446-450 | A waiting request that finds the mutex free comes to its generation on a live context, loading the model if there is none, with its start stored. |
| DaemonProtocol.RequestEnds | daemon/diffusion-daemon/diffusion-daemon.cpp:451-452 | After its generation or a failed load it stores the time, gives the mutex back and changes nothing else. |
| DaemonProtocol.FailedLoadLeavesNothing | daemon/diffusion-daemon/diffusion-daemon.cpp:123-153 | A load that fails, at the model or at the context, leaves nothing loaded. |
| DaemonProtocol.ShutsDown | daemon/diffusion-daemon/diffusion-daemon.cpp:494-500 | Once every request is over, main thread and watcher bring the daemon down with nothing loaded. |
| Chunker.FloorCharBoundary | crates/lumina-core/src/matrix_format.rs:131-140 | The backward search returns the largest character boundary not after the limit. |
| Chunker.SplitPointIs | crates/lumina-core/src/matrix_format.rs:142-161 | That point is the last paragraph break after position 0 if there is one, else the last line break there if there is one, else the end. |
| Chunker.Turn | crates/lumina-core/src/matrix_format.rs:112-121 | One turn cuts the text into a valid chunk within the limit, line feeds, and a valid remainder; the cut is at a line feed, at the boundary, or at the end. |
| Chunker.EndsIffFits | crates/lumina-core/src/matrix_format.rs:104-128 | The loop ends if and only if every character other than a line feed has at most `max_len` bytes. |
| Chunker.FourBytesSuffice | crates/lumina-core/src/matrix_format.rs:104-128 | A limit of four bytes or more meets that condition for every valid text. |
| Chunker.ChunkMessageWithMax | crates/lumina-core/src/matrix_format.rs:104-128 | On every text on which the loop ends it pushes the chunks the documentation describes: each ends at the last paragraph break after its start before the largest character boundary within the limit, without one at the last line feed there, without that at the boundary; the next begins after the line feeds there. |
| Chunker.ChunkMessage | crates/lumina-core/src/matrix_format.rs:100-102 | So it does with the shipped limit, on every text of valid UTF-8. |
| Chunker.ChunksAreCut | crates/lumina-core/src/matrix_format.rs:112-161 | The recursive description of the chunks has those cuts, chunk by chunk. |
| Chunker.CutUpUniquely | crates/lumina-core/src/matrix_format.rs:112-161 | Only one list of chunks has them. |
| Chunker.NothingLost | crates/lumina-core/src/matrix_format.rs:104-128 | The text is the chunks with runs of line feeds after them: nothing else is lost, added or reordered. |
| Chunker.ChunksAreGood | crates/lumina-core/src/matrix_format.rs:96-128 | Every chunk of every text is valid UTF-8 and within the limit in bytes, and so in characters; all are non-empty if and only if the text is and the limit is not zero; none after the first starts with a line feed. |
| Chunker.CodeBlockSplitIff | crates/lumina-core/src/matrix_format.rs:96-128 | The documented promise never to split inside a code block is not kept: a message that is one code block is split inside it if and only if it is longer than the limit. |
| Ical.UnescapeText | crates/lumina-core/src/caldav.rs:295-313 | The one-pass loop with look-ahead computes the unescaping, also of a trailing backslash and of unknown escapes. |
| Ical.ExtractProperty | crates/lumina-core/src/caldav.rs:268-284 | The first line with the key, bare or with parameters, decides; an empty value counts as absent. |
| Ical.ParseIcal | crates/lumina-core/src/caldav.rs:206-247 | Blocks after a begin marker that are closed and not blank, in order. |
| Ical.UnfoldOfFold | crates/lumina-core/src/caldav.rs:253-259 | Text folded with CRLF (section 3.1 of RFC 5545) at any points is given back by the three replacements if and only if no line starts with a tab, except right after a tab fold, or with a space, except right after a fold. |
| Ical.TwoPassesAreOneIff | crates/lumina-core/src/caldav.rs:256-258 | For every body the two replacement passes unfold as one pass over both kinds of fold does if and only if no line feed is followed by space folds and then a tab, which the first pass makes into a new fold. |
| Ical.TwoPassesCanDiffer | crates/lumina-core/src/caldav.rs:256-258 | There is such a body: an empty line, a space fold and a tab lose more than one pass takes. |
| Ical.UnescapeOfEscape | crates/lumina-core/src/caldav.rs:295-313 | Unescaping undoes the escaping of section 3.3.11 of RFC 5545 for every text. |
| Ical.UnescapeSequences | crates/lumina-core/src/caldav.rs:286-313 | What each escape sequence stands for, `\N` included; a backslash before anything else, or at the end, stays. |
| Ical.ValueReadIff | crates/lumina-core/src/caldav.rs:278-279 | A printed value is read back if and only if its escaped text has no white space at its ends. |
| Ical.MatchesOwnKey | crates/lumina-core/src/caldav.rs:269-276 | A printed line is taken for a key if and only if it is that key's line. |
| Ical.AnyCaseFound | crates/lumina-core/src/caldav.rs:268-284 | A property is found under its name in any mixture of cases, with or without parameters. |
| Ical.PropertyOfPrinted | crates/lumina-core/src/caldav.rs:268-284 | Extraction from printed properties is lookup by key among them. |
| Ical.ParseOfCarried | crates/lumina-core/src/caldav.rs:206-313 | Any list of events the format can carry, printed and folded at any points at all, is read back without the blank ones and with empty optional fields absent. |
| Ical.ParseOfPrint | crates/lumina-core/src/caldav.rs:206-313 | Any list of printable events, with any parameters, escaped and folded at any points at all, is returned unchanged by the reader. |
| Ical.UnmarkedIff | crates/lumina-core/src/caldav.rs:212-222 | A line whose value is free of block markers is so itself if and only if not both the value starts with VEVENT and what stands before the colon ends in END or BEGIN; of the six keys this concerns DTEND. |
| Ical.DtendCanSpellMarker | crates/lumina-core/src/caldav.rs:218-229 | An event whose DTEND value starts with VEVENT is not read back: in every folding the reader returns it without that value, description and location. |
| ToolLoop.InjectExtends | crates/lumina-core/src/agent_loop.rs:961-973 | Injection keeps the active tools in front, adds no second tool of a name, and leaves no discovered name out. |
| ToolLoop.InjectTakesFirst | crates/lumina-core/src/agent_loop.rs:961-973 | What injection adds is, tool for tool, the first discovered one of its name, with its definition. |
| ToolLoop.DiscoveredBecomeActive | crates/lumina-core/src/agent_loop.rs:946-974 | What a discovery call of a round finds is in the active set of the next round. |
| ToolLoop.RunCalls | crates/lumina-core/src/agent_loop.rs:919-1042 | The calls of a round run in order, each appends its result, and the active set is that of the successive injections. |
| ToolLoop.RunLoop | crates/lumina-core/src/agent_loop.rs:884-1050 | The loop's ending, messages, tool set, round count and offers are those of the recursive description. |
| ToolLoop.LoopTranscript | crates/lumina-core/src/agent_loop.rs:884-1050 | For any model and tools the messages grow by rounds: one assistant message with calls, directly followed by one result per call with the same ids in the same order; rounds are at most `max_calls` and model calls one more than rounds. |
| ToolLoop.LoopIs | crates/lumina-core/src/agent_loop.rs:884-1050 | The turn without recursion: in every round the model is asked on the initial messages and all rounds before, its answer and the results of its calls follow; the turn ends with the first reply that is an error, asks for no tools, or comes after the budget, and with that reply's text. |
| ToolLoop.ResultsMatchCalls | crates/lumina-core/src/agent_loop.rs:919-1042 | The results of a round are one per call, in order, each with its call's id and with what that call's execution returned. |
| ToolLoop.OffersGrow | crates/lumina-core/src/agent_loop.rs:885-889 | The offer keeps all tools and gains only tools with new names from call to call; it is withheld exactly in the call after the last budgeted round. |
| ToolLoop.OffersFollowRounds | crates/lumina-core/src/agent_loop.rs:884-1045 | Every model call within the budget is offered exactly the tool set grown round by round: what was there, then the finds of the round's discovery calls with names of their own, none of whose names is missing. |
| ToolLoop.ModelCallsBounded | crates/lumina-core/src/agent_loop.rs:884-1050 | At most `max_calls + 1` model calls, and that many if and only if the last one is made without tools. |
| ToolLoop.OpensAtEveryThird | crates/lumina-core/src/agent_loop.rs:42-51 | For every history, the circuit-open event comes at every third failure since the last success of a path that resets the counter, whatever agentic successes lie between. |
| ToolLoop.CountsARowIff | crates/lumina-core/src/agent_loop.rs:42-48 | The counter is the number of consecutive failures, in threes as documented, if and only if the failures between the last resetting success and the last unbroken row of failures come in threes. |
| ToolLoop.ThreeInARow | crates/lumina-core/src/agent_loop.rs:44-47 | An opening comes after three failures in a row, as the comment promises, if and only if neither of the two results before it is an agentic success. |
| ToolLoop.OpensDespiteSuccesses | crates/lumina-core/src/agent_loop.rs:642-774 | With agentic successes it fails: three failures with a success between each two open the circuit. |
| Router.SlashCommands | crates/lumina-core/src/router.rs:93-122 | A command word, also repeated, and a message: the deep or the fast model gets exactly the message, and only the fast command shuts layer 3; a command without a message is the error. |
| Router.PlainInput | crates/lumina-core/src/router.rs:124-161 | Any other input, trimmed, goes to the deep model if and only if deep words or, without fast words, the category rules ask for it; it counts as an override exactly with such words, and fast ones alone shut layer 3. |
| Router.PlainTurn | crates/lumina-core/src/router.rs:146-172 | Its turn reaches the deep model if and only if that is so or, without fast words, the fast answer is uncertain; otherwise it is one fast call. |
| Router.ProcessWithDecision | crates/lumina-core/src/router.rs:319-368 | The sequence of swap, call and restore effects and the result, for every decision and both calls' outcomes. |
| Router.Process | crates/lumina-core/src/router.rs:184-248 | The second copy of the pipeline has the same effects and result on the same decision, with the system prompt before the cleaned input; so on plain input it reaches the deep model exactly as stated there. |
| Router.ProcessForUser | crates/lumina-core/src/router.rs:270-316 | The per-user entry has those of the decision after the budget downgrade: one fast call where the budget is exhausted and the deep model asked for, else as without a budget. |
| Router.TurnBracketed | crates/lumina-core/src/router.rs:319-387 | For all outcomes of both calls, the lifecycle steps of a turn are none or one swap and then one restore; deep calls lie between them and no other call does; a swap happens if and only if a deep call does; one or two calls are made. |
| Router.TurnsCompose | crates/lumina-core/src/router.rs:319-387 | Turns that are bracketed each, run one after another, are bracketed together and leave the default model loaded. |
| Router.NoLifecycleNoBracket | crates/lumina-core/src/router.rs:371-387 | Without a lifecycle client there are only calls. |
| Router.DeepCallIff | crates/lumina-core/src/router.rs:168-173 | The deep model is called if and only if the decision names it or layer 3 is open and the first answer is uncertain. |
| Router.FastOverrideStaysFast | crates/lumina-core/src/router.rs:109-143 | Layer 3 is shut exactly by a fast override, by command or in words, and such a turn is one fast call and nothing else, whatever the answer. |
| Router.ExhaustedBudgetStaysFast | crates/lumina-core/src/router.rs:283-311 | With different models, a downgraded turn is one fast call and nothing else. |
| Router.OnlyExhaustionDowngrades | crates/lumina-core/src/router.rs:283-311 | Only an exhausted deep budget changes a decision, only one for the deep model, and only its model and layer 3. |
| Router.ResultIsLastCall | crates/lumina-core/src/router.rs:224-247 | The turn fails if and only if its last call does; otherwise the reported model, text and escalation flag are those of the last call, and the layer is that of the decision or the confidence fallback. |
| EgressHost.HostOfUrl | crates/lumina-core/src/egress_inspector.rs:327-385 | For every scheme (section 3.1 of RFC 3986), user information, host (a name or a bracketed address), port and tail (section 3.2), and any white space around, the host read from the assembled URL is the host put in. |
| EgressHost.HostAfterFirstMark | crates/lumina-core/src/egress_inspector.rs:334-352 | The same with any text in the scheme's place in which no other "://" begins. |
| EgressHost.FirstMarkIsSchemeIff | crates/lumina-core/src/egress_inspector.rs:333-334 | A text with a "://", which the reader takes for a URL, starts with a scheme and "://" if and only if what stands before its first "://" is a scheme. |
| EgressHost.EmbeddedUrlIsRead | crates/lumina-core/src/egress_inspector.rs:333-352 | So a bare name followed by a path or query that holds a URL is read as the inner URL's host, although the text has no scheme. |
| EgressHost.HostOfBareName | crates/lumina-core/src/egress_inspector.rs:354-360 | A bare name, with or without a port, is its own host. |
| EgressHost.HostOfBareAddress | crates/lumina-core/src/egress_inspector.rs:368-381 | A bare address with several colons is its own host; in brackets, with or without a port, it is what they hold. |
| EgressHost.HostIsInAuthority | crates/lumina-core/src/egress_inspector.rs:334-352 | Whatever the URL, the host read is a stretch of its authority, which ends at the first path, query or fragment character, and no at sign stands between the host's start and that end. |
| EgressHost.MatchesAllowlist | crates/lumina-core/src/egress_inspector.rs:224-247 | The scan accepts a host if and only if some entry matches it. |
| EgressHost.WildcardIsOneLabel | crates/lumina-core/src/egress_inspector.rs:219-241 | A wildcard entry accepts a host if and only if the host's labels are one non-empty label followed by the suffix's labels. |
| EgressHost.UrlUnderWildcard | crates/lumina-core/src/egress_inspector.rs:145-175 | From the assembled URL to the verdict: under one wildcard entry a URL is let through if and only if its host has exactly that one label more. |
| EgressHost.UrlUnderName | crates/lumina-core/src/egress_inspector.rs:145-175 | Under one entry without wildcard a URL is let through if and only if its host is that entry, up to case. |
| EgressHost.ListIsItsEntries | crates/lumina-core/src/egress_inspector.rs:224-247 | A list lets through exactly what one of its entries alone lets through. |
| EgressHost.NoHostNoPermission | crates/lumina-core/src/egress_inspector.rs:146-159 | A blank destination and a URL with an empty authority are let through by no list. |
| EgressRate.RunKeeps | crates/lumina-core/src/egress_inspector.rs:182-217 | In every interleaving of increments, lock sections and clock readings the window's base never exceeds the counter (nor the value a check has read). |
| EgressRate.FreshAlertIsSound | crates/lumina-core/src/egress_inspector.rs:191-217 | In every interleaving in which windows open with the counter's present value as base, an alert means at least six blocks in the last 60 seconds. |
| EgressRate.StaleBaseRaisesAlert | crates/lumina-core/src/egress_inspector.rs:207-217 | Without that condition it fails: a thread that stalls between its increment and the mutex opens a window with an old base, and an alert is raised with no block in the last 60 seconds. |
| EgressRate.FalseAlertIff | crates/lumina-core/src/egress_inspector.rs:191-217 | From any state of any interleaving, whoever holds the mutex, a window can still raise an alert without six recent blocks if and only if its base is smaller than the number of blocks before its start, no more than five blocks came since, it has not expired and no thread is about to replace it. |
| EgressRate.StaleRestartIff | crates/lumina-core/src/egress_inspector.rs:207-217 | So a window opened after all blocks so far can raise a false alert if and only if the base it was opened with is not the counter's present value. |
| EgressRate.SequenceIsRun | crates/lumina-core/src/egress_inspector.rs:145-217 | Sequential use of one inspector is one of the interleavings, and its windows open with a fresh base. |
| EgressRate.SequentialAlertIsSound | crates/lumina-core/src/egress_inspector.rs:145-217 | In every sequential timed run the counter is the number of rejected requests, and an alert means at least six of them in the last 60 seconds. |
| EgressRate.OpeningsFixWindow | crates/lumina-core/src/egress_inspector.rs:195-216 | Window and base are determined by the chain of operations that open windows: each the first one 60 seconds or more after the one before. |
| EgressRate.AlertIff | crates/lumina-core/src/egress_inspector.rs:191-202 | The alert is raised if and only if the present window is less than 60 seconds old and more than five requests were rejected after the operation that opened it. |
| EgressRate.AnyNumberOfBlocksMissed | crates/lumina-core/src/egress_inspector.rs:182-199 | The documented condition alone does not raise it: any number of blocks in the last 60 seconds can go unreported. |
| EgressRate.EgressInspector.Inspect | crates/lumina-core/src/egress_inspector.rs:145-175 | A destination is let through if and only if its host can be read and is listed; everything else, unreadable hosts included, is refused and counted. |
| EgressRate.EgressInspector.CheckRateAlert | crates/lumina-core/src/egress_inspector.rs:191-202 | The answer is the alert condition on the state before the call, an expired window is restarted, and a raised alert means six blocks in the last 60 seconds. |
| EgressRate.EgressInspector.RecordBlock | crates/lumina-core/src/egress_inspector.rs:207-217 | Counts one and restarts an expired window with the new count as base. |
| SeenEvents.SeenEvents.Insert | crates/lumina-core/src/matrix_bot.rs:57-68 | The eviction loop and the append: the queue's newest 100 ids and the new one, or all and the new one; the set is the queue's contents. |
| SeenEvents.SeenEvents.OnMessage | crates/lumina-core/src/matrix_bot.rs:263-271 | Check-then-insert processes an event if and only if its id is not in the queue, and keeps the queue duplicate-free, at most 200 long and equal to the set. |
| SeenEvents.QueueIsNewest | crates/lumina-core/src/matrix_bot.rs:57-68 | After any stream of deliveries with `n` processed the queue is exactly the newest `Kept(n)` processed ids: all up to 200, then between 101 and 200. |
| SeenEvents.SkippedIff | crates/lumina-core/src/matrix_bot.rs:262-271 | A delivery is skipped if and only if its id is among those; so always if among the newest 101, never if new: the answer of an unbounded history on recent ids. |
| SeenEvents.ProcessedAgainOnlyLater | crates/lumina-core/src/matrix_bot.rs:57-68 | An id is processed a second time only after more than 100 others in between and not before 200 have been processed. |
| SeenEvents.FewIdsOnce | crates/lumina-core/src/matrix_bot.rs:42-69 | As long as a stream has at most 200 different ids, every one is processed exactly once. |
| SeenEvents.AllProcessed | crates/lumina-core/src/matrix_bot.rs:262-271 | Every delivered id is processed, and nothing else. |
| Redactor.RedactPii | crates/lumina-core/src/input_guard.rs:123-277 | The seven passes, each with its own split and join, are one word-wise map. |
| Redactor.PassAfterPass | crates/lumina-core/src/input_guard.rs:142-277 | A pass after a pass is one pass for both, because splitting undoes joining and the mark is not taken for sensitive. |
| Redactor.WordsOfJoin | crates/lumina-core/src/input_guard.rs:162-175 | Splitting at white space undoes joining with spaces. |
| Redactor.MarkIsHarmless | crates/lumina-core/src/input_guard.rs:178-285 | The replacement text itself is not taken for an address, key, mail address or token. |
| Redactor.PrivateIpIff | crates/lumina-core/src/input_guard.rs:178-202 | With any punctuation after it, a word is taken for a private address if and only if it starts with 10, 127, 192.168 or 172 and a number from 16 to 31. |
| Redactor.JwtIff | crates/lumina-core/src/input_guard.rs:280-285 | It is taken for a token if and only if it starts with eyJ, has two dots and is longer than fifty bytes. |
| Redactor.EmailIff | crates/lumina-core/src/input_guard.rs:246-261 | It is taken for a mail address if and only if it is a local part, an at sign and a domain of at least four bytes with a dot. |
| Redactor.KeyIff | crates/lumina-core/src/input_guard.rs:205-227 | In any punctuation, a word is taken for an API key if and only if it starts as one of the seven vendors' keys do. |
| Redactor.WordByWord | crates/lumina-core/src/input_guard.rs:123-139 | Each word of the result is the word in its place or the mark, by whether that word was sensitive; the number of words is kept and no sensitive word is left. |
| Redactor.RedactedTwice | crates/lumina-core/src/input_guard.rs:123-139 | Redacting twice is redacting once. |
| Redactor.HarmlessTextKept | crates/lumina-core/src/input_guard.rs:123-139 | A single-spaced text is returned unchanged if and only if it has no sensitive word. |

## Left out

- Timestamp strings with non-ASCII characters: the code slices them by bytes and stops the thread; the model slices characters.
- The 64-bit width inside the date formulas and of counters, and the 32-bit width of the canvas block arithmetic: inputs that reach it are years or counts no clock or request produces (`max_tokens` is clamped before use). Parsing, saturation and the final cast of the day difference are modelled in 64 bits.
- The vault that stores the training timestamp, and the reason strings of the retraining decision.
- JSON decoding, and the constant fields (`step_type`, `reason`) of the progress log.
- A progress stream's end in the middle of a frame other than as a leftover buffer: the code ignores it as well.
- Timings, the re-tokenised output count and the chat template in the daemon's result; the denoising itself.
- Canvas.Engine.Generate: requires that the denoiser's first call reports no more tokens than the micro-batch holds, which the library call guarantees and the code relies on.
- Memory orders weaker than sequential consistency in the daemon and the egress counter. The watcher's unlocked idle test reads the clock before the activity time; C++ leaves that order open, and the test is repeated under the mutex.
- Chunker.ChunkMessageWithMax: requires the condition under which the loop ends; on other inputs there is no result to speak of.
- Ical.ParseOfPrint: (and Ical.ParseOfCarried) for events whose printed values have no white space at their ends (others are not read back, `Ical.ValueReadIff`), whose printed lines hold no block marker (`Ical.DtendCanSpellMarker` is a family that is not read back; the converse for every marked line is not stated), and for parameters without a colon.
- The routes a tool call can take (`web_browse`, `web_search`, proxy, fallback) and the tool-failure events: one executor parameter stands for them.
- Interleavings of two turns on the failure counter, and on the router's swap and restore: nothing in the code serialises them, so both are stated per sequence of turns.
- Failures of the swap and restore calls: they are logged and change nothing in the turn.
- DNS resolution and `is_private_ip`; the log lines of the egress inspector; reading the allowlist from the environment.
- The prompt-injection scan of the input guard.
- HTTP, Matrix, SSH, the web interface, the command line, permissions, discovery scores, signatures, configuration: no deep property, or a matter of libraries.
