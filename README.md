# ferroscope debugger-session engine, modelled in Dafny

ferroscope is an MCP server. It drives an LLDB subprocess on behalf of an AI
assistant: it loads a binary, sets breakpoints, resumes, steps, evaluates
expressions and reports where the program stopped. This project models the
engine behind those tools:

- the one-session registry;
- the framing of a reply out of the debugger's unstructured output;
- the state tracker, which infers the program's lifecycle state from text
  patterns in each reply;
- the location extractor;
- the precondition checks that decide which tool may send a command in which
  state.

The model has two layers.

- **Pure layer.**
  - `Text` gives the Rust string operations the engine relies on: `contains`,
    `starts_with`, `trim`, `lines` and `split_whitespace`, with Unicode
    `White_Space` as the whitespace set.
  - `Framing` gives the completion heuristic and the framer `Frame`, which
    reads a scripted output stream.
  - `Tracker` gives `DebugState`, the state names, the transition function
    and the location extractor.
  - `Dispatch` gives every tool as a function from the registry it finds to
    its result and the registry it leaves.
  - `Properties` proves what the tools promise about those functions.
- **Imperative layer.** `Server` has the classes of `src/main.rs`.
  - `DebugSession` has the fields the engine updates in place.
  - `DebugServer` has the session slot. Its methods, including the reading
    loop of `send_debugger_command`, are proved to compute exactly what the
    `Dispatch` functions compute. So every property proved about the pure
    layer holds of these methods.

The outside world becomes data:

- **The debugger's output** is a script of events. Each event is a line, end
  of stream, a failed read, or a tick of the 100 ms timer. Events are timed
  on one clock that runs for the whole session. An event carries the clock
  reading of the deadline check just before the wait for it. Output still
  pending when a command starts may carry an earlier time. Each command
  starts its own 10 s deadline when its write completes, so output that one
  command gave up on is on time for a later command. End of stream is not
  consumed: every later read sees it again.
- **The debugger's input** is the log of everything written to it, plus a
  script of write outcomes, one per command. A write either goes through,
  and then carries the clock reading that starts the command's deadline, or
  fails on a broken pipe. Once the script is used up, writes fail. So a
  debugger that dies part-way through a session is a script whose later
  writes fail.
- **A load** depends on a `Host` value. It gives:
  - what the path is (directory, file or missing);
  - the outcome of `cargo build` (the built binary, or the failure text);
  - whether LLDB spawns;
  - what the new LLDB will print, and how the writes to it turn out.
- **Processes killed and spawned** are recorded in a ghost log. The class
  invariant says that exactly one debugger is alive while a session is
  stored.

Behaviour kept as the code has it:

- Before any load, `debug_break` and `debug_list_breakpoints` return the
  error "No active debugger session". They do not give `success: false`.
- State names are the lower-cased variant name, e.g. "notloaded". The one
  exception is the `NotLoaded` refusal of `debug_continue`, which says
  "not_loaded".
- A successful load sets the state to Loaded whatever LLDB replied. The
  stored location is still updated from that reply: it stays None unless the
  reply contains "stop reason".
- The stored location is never cleared, not even when the program leaves
  the Stopped state. So a stale location can be reported while the program
  is Running or has finished.
- In the `expression` branch of `debug_eval`, success is always true. That
  branch is only taken when the reply has no "error:".

## Model

| member | source | states |
|---|---|---|
| Text.ContainsMeans | src/main.rs:253-263 | `s.contains(p)` holds exactly when `p` occurs in `s` at some index |
| Text.TrimMeans | src/main.rs:217 | `trim` returns a contiguous slice of its input. Only whitespace lies on either side of it, and the slice neither starts nor ends with whitespace |
| Text.TrimStartMeans | src/main.rs:217 | trimming the front drops exactly a leading run of whitespace and keeps the rest of the text as it is |
| Text.TrimEndMeans | src/main.rs:217 | trimming the end drops exactly a trailing run of whitespace and keeps the rest of the text as it is |
| Text.FirstToken | src/main.rs:280 | `split_whitespace().next()` is None exactly when the text is all whitespace. Otherwise it is a non-empty, whitespace-free token |
| Text.FirstTokenMeans | src/main.rs:280 | that token sits in the text with only whitespace before it and whitespace or the end after it |
| Text.Lines | src/main.rs:277 | `lines()` yields lines without a newline, never more lines than characters |
| Text.LinesCons | src/main.rs:277 | a line and its newline split off the front as one line, with a "\r" just before the newline dropped |
| Text.LinesOfOneLine | src/main.rs:277 | a text without a newline is one line, or none when it is empty |
| Framing.CompletionByCategory | src/main.rs:215-250 | a line completes a reply exactly when it trims to "(lldb)" or carries the marker of the command's family. A command belongs to at most one family, so the order of the tests does not matter |
| Framing.UncategorisedWaitsForPrompt | src/main.rs:215-250 | a command outside the four families completes only on the prompt |
| Framing.ThreadAndTargetCommandsWaitForPrompt | src/main.rs:215-250 | `thread …` and `target …` commands complete only on the prompt |
| Framing.BreakpointListWaitsForPrompt | src/main.rs:215-250 | "breakpoint list" is not a "breakpoint set" command and completes only on the prompt |
| Framing.FrameIsCorrect | src/main.rs:167-204 | the framer reads an on-time prefix of the output that contains no end of stream and no earlier ending event. Its reply is the lines read, plus the timeout marker exactly when the deadline cut it short. It stops only at an ending event, at end of stream or at the deadline, and leaves the events after those it read pending |
| Framing.FrameRest | src/main.rs:167-204 | what the framer leaves for the next command is exactly the output after the events it read |
| Framing.FramedCorrectlyUnique | src/main.rs:167-204 | the description of a correct framing leaves no choice: any framing that meets it is the framer's result |
| Framing.FrameStopsAtFirstCompletion | src/main.rs:182-193 | after quiet events, the first on-time completing line ends the reply. The reply is every line up to and including it, and nothing after it is read |
| Framing.QuietPrefixRead | src/main.rs:174-204 | the framer reads past every event of a quiet prefix |
| Framing.FrameHonoursDeadline | src/main.rs:174-178 | no event after the deadline is ever read |
| Framing.FrameTimeout | src/main.rs:174-178 | when nothing completes the reply in time, the reply is the lines read so far followed by the timeout marker, once |
| Tracker.StateNameOf | src/main.rs:78-91 | the lower-cased `Debug` rendering of a state gives "notloaded", "loaded", "running", "stopped", "crashed" and "completed" |
| Tracker.StateNameInjective | src/main.rs:78-91 | distinct states render to distinct names |
| Tracker.TrackerPriority | src/main.rs:252-264 | each inferred state holds exactly when its pattern matches and no earlier pattern does. The order is launched, stopped, exited, then crash. With no match the state is unchanged |
| Tracker.NextStateIgnoresOldState | src/main.rs:252-264 | once a pattern matches, the new state does not depend on the old one |
| Tracker.NextStateIdempotent | src/main.rs:252-264 | applying the same reply twice changes nothing more. The tracker never produces NotLoaded or Loaded from another state |
| Tracker.PieceAfterBounds | src/main.rs:278-279 | the piece `split(" at ").nth(1)` gives runs from the first " at " to the next " at " or to the end of the line, and holds no " at " of its own |
| Tracker.LineLocationMeans | src/main.rs:277-283 | a line yields a location only if it contains " at ". The location is then the first whitespace-delimited token after the first " at ". No further " at " begins before the token ends |
| Tracker.LineLocationAt | src/main.rs:277-283 | conversely, a line yields the first token of the piece after its first " at ", so it yields a location exactly when that piece is not all whitespace |
| Tracker.ExtractLocation | src/main.rs:275-287 | an extracted location is a non-empty token without whitespace |
| Tracker.LocationInFirstMatch | src/main.rs:275-287 | the first line that yields a location decides. The result is None exactly when no line yields one |
| Tracker.LocationInNone | src/main.rs:275-287 | the extractor finds nothing exactly when no line yields a location |
| Tracker.LocationInSome | src/main.rs:275-287 | a location found is that of the earliest line yielding one |
| Tracker.LocationUpdate | src/main.rs:266-272 | the location changes only when the reply mentions "stop reason" and a location is found, and then becomes that location. A location once set is never cleared, and a well-formed one stays well formed |
| Dispatch.Send | src/main.rs:158-213 | with no session the result is "No active debugger session". A failed write is an error and leaves the session otherwise as it was. Otherwise it writes exactly the command and a newline, frames the reply against a deadline that starts at this write, leaves the rest of the output unread, and updates the state and location by the tracker |
| Properties.StoppedOnlyOperationsRefuse | src/main.rs:563-569 | outside Stopped, step, step_into, step_out, eval and backtrace give `success: false` with their own message and the actual state's name. The registry is unchanged, so nothing reaches the debugger. The other refusals are at src/main.rs:600-606, 636-642, 710-716 and 756-762 |
| Properties.ContinueRefuses | src/main.rs:505-531 | outside Loaded and Stopped, continue refuses and writes nothing. Running gives "running" and "Program is already running"; Completed and Crashed give their names and "Program has finished execution"; NotLoaded (and no session) gives "No program loaded. Use debug_run first." with "not_loaded", which differs from the state's own name |
| Properties.NoSessionIsAnError | src/main.rs:479-490 | without a session, break and list_breakpoints give an error rather than a refusal, while continue refuses |
| Properties.ReportSends | src/main.rs:158-213 | a command accepted by the debugger is written exactly, followed by a newline. Its reply is framed, and the state and location stored are the tracker's. The report shows that state, the trimmed reply and that location |
| Properties.ContinueFrom | src/main.rs:505-552 | continue, from a state that lets it send, writes its one command and reports the tracker's new state and location with the trimmed reply |
| Properties.ContinueSends | src/main.rs:492-552 | from Loaded continue writes exactly "process launch", from Stopped exactly "process continue". It reports the tracker's new state and location and the trimmed reply |
| Properties.SteppingSends | src/main.rs:571-588 | in Stopped a step writes exactly its command and reports the tracker's new state and location |
| Properties.StepSends | src/main.rs:554-589 | in Stopped step writes exactly "thread step-over" and succeeds |
| Properties.StepIntoSends | src/main.rs:591-625 | in Stopped step_into writes exactly "thread step-in" and succeeds |
| Properties.StepOutSends | src/main.rs:627-661 | in Stopped step_out writes exactly "thread step-out" and succeeds |
| Properties.BacktraceSends | src/main.rs:747-770 | in Stopped backtrace writes exactly "thread backtrace" and passes the trimmed reply through |
| Properties.EvalDirect | src/main.rs:718-744 | when the reply to "expression e" has neither "error:" nor "undeclared identifier", eval writes only that command and succeeds with that reply, by way of "expression" |
| Properties.EvalFallback | src/main.rs:718-744 | otherwise eval also writes "frame variable e" and answers with its reply, by way of "frame_variable"; success means no "error:" in that reply, and a failed second write is an error |
| Properties.ListBreakpointsSends | src/main.rs:772-779 | list_breakpoints writes exactly "breakpoint list" in any state and passes the trimmed reply through |
| Properties.WriteFailureIsAnError | src/main.rs:163-165 | once writes to the debugger fail, every tool that sends a command fails with an error instead of reporting success |
| Properties.TimeoutLeavesOutputPending | src/main.rs:174-178 | a command cut short by the deadline leaves the late output unread, at the head of what is pending |
| Properties.PendingLineReadFirst | src/main.rs:171-172 | each command starts its own deadline: a pending line on time for it is read and opens its reply |
| Properties.TimedOutReplyReadNext | src/main.rs:171-178 | the late reply of a command that timed out is read by the next command, whose reply starts with it |
| Properties.BreakVerdict | src/main.rs:479-490 | break writes "breakpoint set --name <loc>". It succeeds exactly when the reply reports neither "no locations" nor "error:", and echoes the requested location |
| Properties.GetDebugStateReadsOnly | src/main.rs:781-800 | the state query changes nothing and reports the stored state, location and binary ("notloaded" with no session) |
| Properties.LaunchReportsRunning | src/main.rs:505-552 | from Loaded, an on-time first line with "Process" and "launched" is the whole reply. The program is then reported as running and the line is consumed |
| Properties.LaunchLineFrames | src/main.rs:220-225 | such a line completes the reply to "process launch" |
| Properties.LaunchLineRuns | src/main.rs:253-254 | such a line moves any state to Running |
| Properties.RunMissingPath | src/main.rs:322-341 | a missing path fails with "Path does not exist". The old session has already been killed and dropped |
| Properties.StartLoads | src/main.rs:388-446 | starting succeeds exactly when LLDB spawns and the `target create` write goes through. It then stores one Loaded session whose log holds only `target create "<bin>"`. The output after the reply stays pending. A failed spawn stores nothing; a failed write leaves the NotLoaded session stored |
| Properties.RunLoads | src/main.rs:322-446 | a load succeeds exactly when the path resolves to a binary, LLDB spawns and the first write goes through. The session is Loaded whatever the reply, and its location is None unless the reply mentions "stop reason" |
| Properties.RunFails | src/main.rs:330-446 | a failed build leaves no session; a failed `target create` write leaves the new NotLoaded session stored |
| Properties.RunStarts | src/main.rs:322-345 | a load kills the old session's debugger first. A path that resolves to no binary then ends the load with an error and no session; otherwise the load is the start of a session on that binary |
| Properties.RunKeepsOneDebugger | src/main.rs:323-329 | the old debugger is killed before a new one is spawned. At no point of a load do two run, and one runs afterwards exactly when a session is stored |
| Properties.KillThenSpawn | src/main.rs:323-329 | killing the one live debugger, if any, and then spawning at most one leaves one alive exactly when one was spawned, and never two at once |
| Properties.LiveAppend | src/main.rs:323-329 | the count of live debuggers adds up over concatenated logs |
| Properties.SendEvolves | src/main.rs:158-213 | a send never creates, drops or replaces the session or changes its binary. It only adds to the input log and consumes write outcomes and output |
| Properties.OperationsKeep | src/main.rs:479-800 | the same holds for every tool except load, and each keeps the stored location well formed |
| Properties.RunLocationWellFormed | src/main.rs:388-446 | a load leaves a well-formed location |
| Server.DebugSession.constructor | src/main.rs:410-417 | a fresh session is NotLoaded, has no location and has nothing written |
| Server.DebugSession.ReadResponse | src/main.rs:167-204 | the read loop reads exactly what `Frame` says and leaves the rest of the output unread |
| Server.DebugSession.UpdateSessionState | src/main.rs:252-273 | the session's state and location become what the tracker infers, and nothing else changes |
| Server.DebugServer.constructor | src/main.rs:131-135 | the server starts with no session |
| Server.DebugServer.SendDebuggerCommand | src/main.rs:158-213 | computes `Dispatch.Send` in place: a failed write is an error, and the read loop's deadline starts when the write completes |
| Server.DebugServer.DebugRun | src/main.rs:322-345 | computes `Dispatch.DebugRun` in place, logs the kill and the spawn, and keeps the one-debugger invariant |
| Server.DebugServer.StartDebuggerSession | src/main.rs:388-446 | computes `Dispatch.StartDebuggerSession` in place on a freshly allocated session |
| Server.DebugServer.DebugBreak | src/main.rs:479-490 | computes `Dispatch.DebugBreak` in place |
| Server.DebugServer.DebugContinue | src/main.rs:492-552 | computes `Dispatch.DebugContinue` in place |
| Server.DebugServer.DebugStep | src/main.rs:554-589 | computes `Dispatch.DebugStep` in place |
| Server.DebugServer.DebugStepInto | src/main.rs:591-625 | computes `Dispatch.DebugStepInto` in place |
| Server.DebugServer.DebugStepOut | src/main.rs:627-661 | computes `Dispatch.DebugStepOut` in place |
| Server.DebugServer.DebugEval | src/main.rs:701-745 | computes `Dispatch.DebugEval` in place |
| Server.DebugServer.DebugBacktrace | src/main.rs:747-770 | computes `Dispatch.DebugBacktrace` in place |
| Server.DebugServer.DebugListBreakpoints | src/main.rs:772-779 | computes `Dispatch.DebugListBreakpoints` in place |
| Server.DebugServer.GetDebugState | src/main.rs:781-800 | computes `Dispatch.GetDebugState` and changes nothing |

## Left out

- The JSON-RPC transport, the tool list and the argument decoding (src/main.rs:816-1050) are not modelled. Results are structured `Reply` values rather than JSON objects.
- `build_rust_project` is not modelled: whether a directory builds, and into which binary, is an input of the load (`Host.build`).
- Spawning, piping and killing LLDB are not modelled. A spawn either fails with a message or yields a session whose output is the given script. A kill is an entry in a ghost log. A failure to take the child's stdin or stdout handles is not modelled separately from a spawn failure.
- The 500 ms wait after spawning LLDB is left out: time enters only as the clock readings carried by the output events and the write outcomes.
- Wall-clock time and the race between `read_line` and the 100 ms timer are left out. The outcome of each wait is an event of the script, and a line that arrives exactly when the timer fires is simply one of the two.
- A line cut by the timer is not modelled. `read_line` is not cancellation safe: when the 100 ms sleep wins while a line is half read (src/main.rs:182-201), the bytes already taken can be lost, and `line` is kept across turns of the loop (src/main.rs:169). A `Line` event is whatever `read_line` delivers, so in the running program it may be only the tail of what LLDB wrote.
- LLDB's standard error is piped (src/main.rs:393) but never read. The model has no stream for it, and nothing written there reaches a reply.
- The lock is released between a tool's state check and its send. With one request at a time, as the server processes them, nothing can run in between, which is the setting modelled here.
- The text of operating-system errors (a failed write, a failed spawn) is not modelled; they are the `PipeClosed` and `SpawnFailed` failures.
- A write that fails part-way is not modelled: a send either writes the whole command or fails before writing anything.
- Tracker.Lowercase: models `to_lowercase` on ASCII letters only, which covers the variant names it is applied to.
- Text.IsWhitespace: is the Unicode `White_Space` set as a fixed table. Dafny `char` is a Unicode scalar value, and byte-level UTF-8 decoding is not modelled.
- The `Drop` implementation and `main` are not part of this model.
