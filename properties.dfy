/**
 * What the dispatcher promises, proved about the functions of module
 * Dispatch: refused operations write nothing, accepted ones write exactly
 * their command, the eval fallback, the breakpoint verdict, loading, and the
 * invariants every operation keeps.
 */
module Properties {
  import opened Wrappers
  import opened Text
  import opened Framing
  import opened Tracker
  import opened Dispatch

  // ---------------------------------------------------------------------
  // Preconditions

  /**
   * The stepping operations, eval and backtrace refuse in any state but
   * Stopped: `success: false`, the actual state's name, and the registry
   * (so the debugger's input) untouched.
   */
  lemma StoppedOnlyOperationsRefuse(reg: Registry, expression: string)
    requires StateOf(reg) != Stopped
    ensures var name := StateName(StateOf(reg));
      && DebugStep(reg) == Handled(Ok(Refused(StepRefusal, name)), reg)
      && DebugStepInto(reg) == Handled(Ok(Refused(StepRefusal, name)), reg)
      && DebugStepOut(reg) == Handled(Ok(Refused(StepRefusal, name)), reg)
      && DebugEval(reg, expression) == Handled(Ok(Refused(EvalRefusal, name)), reg)
      && DebugBacktrace(reg) == Handled(Ok(Refused(BacktraceRefusal, name)), reg)
  {
  }

  /**
   * Continue refuses outside Loaded and Stopped, writing nothing. The state
   * it reports is the state's name, except that the NotLoaded refusal (also
   * given when there is no session) says "not_loaded".
   */
  lemma ContinueRefuses(reg: Registry)
    requires StateOf(reg) != Loaded && StateOf(reg) != Stopped
    ensures var h := DebugContinue(reg);
      && h.registry == reg
      && h.result.Ok? && h.result.value.Refused?
      && h.result.value.state == (match StateOf(reg)
                                  case Running => "running"
                                  case Completed => "completed"
                                  case Crashed => "crashed"
                                  case _ => "not_loaded")
      && (StateOf(reg) == Running ==> h.result.value.error == "Program is already running")
      && (StateOf(reg) == Completed || StateOf(reg) == Crashed ==>
            h.result.value.error == "Program has finished execution")
      && (StateOf(reg) == NotLoaded ==> h.result.value.error == "No program loaded. Use debug_run first.")
      && (StateOf(reg) == NotLoaded ==> h.result.value.state != StateName(NotLoaded))
  {
    match StateOf(reg) {
      case Completed => StateNameOf(Completed);
      case Crashed => StateNameOf(Crashed);
      case NotLoaded => StateNameOf(NotLoaded);
      case _ =>
    }
  }

  /** Without a session, break and list_breakpoints fail with an error instead of refusing. */
  lemma NoSessionIsAnError(location: string)
    ensures DebugBreak(None, location) == Handled(Err(NoSession), None)
    ensures DebugListBreakpoints(None) == Handled(Err(NoSession), None)
    ensures DebugContinue(None).result.Ok?
  {
  }

  // ---------------------------------------------------------------------
  // What is written

  /**
   * From Loaded continue writes exactly "process launch", from Stopped
   * exactly "process continue"; it reports the state and location stored
   * once the tracker has read the reply.
   */
  lemma ContinueSends(reg: Registry)
    requires StateOf(reg) == Loaded || StateOf(reg) == Stopped
    requires Accepts(reg)
    ensures var command := if StateOf(reg) == Loaded then "process launch" else "process continue";
      var response := FrameFor(reg.value, command).response;
      var h := DebugContinue(reg);
      && Written(h.registry) == Written(reg) + command + "\n"
      && StateOf(h.registry) == NextState(StateOf(reg), response)
      && LocationOf(h.registry) == NewLocation(LocationOf(reg), response)
      && h.result == Ok(Moved(StateName(StateOf(h.registry)), Trim(response), LocationOf(h.registry)))
      && Success(h.result.value) == Some(true)
  {
    if StateOf(reg) == Loaded {
      ContinueFrom(reg, "process launch");
    } else {
      ContinueFrom(reg, "process continue");
    }
  }

  /** Continue sends the command its state calls for, and reports as `ReportSends` says. */
  lemma ContinueFrom(reg: Registry, command: string)
    requires ContinueCommand(StateOf(reg)) == Some(command) && Accepts(reg)
    ensures var response := FrameFor(reg.value, command).response;
      var h := DebugContinue(reg);
      && Written(h.registry) == Written(reg) + command + "\n"
      && StateOf(h.registry) == NextState(StateOf(reg), response)
      && LocationOf(h.registry) == NewLocation(LocationOf(reg), response)
      && h.result == Ok(Report(response, h.registry))
  {
    ReportSends(reg, command);
  }

  /** A command that goes through is written exactly, and the report shows the state and location the tracker then stored. */
  lemma ReportSends(reg: Registry, command: string)
    requires Accepts(reg)
    ensures var sent := Send(reg, command);
      var response := FrameFor(reg.value, command).response;
      && sent.reply == Ok(response)
      && Written(sent.registry) == Written(reg) + command + "\n"
      && StateOf(sent.registry) == NextState(StateOf(reg), response)
      && LocationOf(sent.registry) == NewLocation(LocationOf(reg), response)
      && Report(response, sent.registry) == Moved(StateName(StateOf(sent.registry)), Trim(response), LocationOf(sent.registry))
  {
  }

  /**
   * A stepping command sent in Stopped: exactly that command is written, and
   * the reply reports the state and location the tracker then stored.
   */
  lemma SteppingSends(reg: Registry, command: string)
    requires StateOf(reg) == Stopped && Accepts(reg)
    ensures var response := FrameFor(reg.value, command).response;
      var h := Stepping(reg, command);
      && Written(h.registry) == Written(reg) + (command + "\n")
      && StateOf(h.registry) == NextState(Stopped, response)
      && LocationOf(h.registry) == NewLocation(LocationOf(reg), response)
      && h.result == Ok(Moved(StateName(StateOf(h.registry)), Trim(response), LocationOf(h.registry)))
      && Success(h.result.value) == Some(true)
  {
    var sent := Send(reg, command);
    ReportSends(reg, command);
    assert Stepping(reg, command) == Handled(Ok(Report(sent.reply.value, sent.registry)), sent.registry);
    AppendAssoc(Written(reg), command, "\n");
  }

  /** In Stopped, step writes exactly `thread step-over` and succeeds; likewise step_into and step_out below. */
  lemma StepSends(reg: Registry)
    requires StateOf(reg) == Stopped && Accepts(reg)
    ensures Written(DebugStep(reg).registry) == Written(reg) + "thread step-over\n"
    ensures var h := DebugStep(reg); h.result.Ok? && h.result.value.Moved? && Success(h.result.value) == Some(true)
  {
    SteppingSends(reg, "thread step-over");
    assert "thread step-over" + "\n" == "thread step-over\n";
  }

  lemma StepIntoSends(reg: Registry)
    requires StateOf(reg) == Stopped && Accepts(reg)
    ensures Written(DebugStepInto(reg).registry) == Written(reg) + "thread step-in\n"
    ensures var h := DebugStepInto(reg); h.result.Ok? && h.result.value.Moved? && Success(h.result.value) == Some(true)
  {
    SteppingSends(reg, "thread step-in");
    assert "thread step-in" + "\n" == "thread step-in\n";
  }

  lemma StepOutSends(reg: Registry)
    requires StateOf(reg) == Stopped && Accepts(reg)
    ensures Written(DebugStepOut(reg).registry) == Written(reg) + "thread step-out\n"
    ensures var h := DebugStepOut(reg); h.result.Ok? && h.result.value.Moved? && Success(h.result.value) == Some(true)
  {
    SteppingSends(reg, "thread step-out");
    assert "thread step-out" + "\n" == "thread step-out\n";
  }

  /** In Stopped, backtrace writes exactly `thread backtrace` and passes the trimmed reply through. */
  lemma BacktraceSends(reg: Registry)
    requires StateOf(reg) == Stopped && Accepts(reg)
    ensures Written(DebugBacktrace(reg).registry) == Written(reg) + "thread backtrace\n"
    ensures DebugBacktrace(reg).result == Ok(Passthrough(Trim(FrameFor(reg.value, "thread backtrace").response)))
  {
    assert Written(reg) + "thread backtrace" + "\n" == Written(reg) + "thread backtrace\n";
  }

  /** List_breakpoints writes exactly `breakpoint list`, in any state, and passes the trimmed reply through. */
  lemma ListBreakpointsSends(reg: Registry)
    requires Accepts(reg)
    ensures Written(DebugListBreakpoints(reg).registry) == Written(reg) + "breakpoint list\n"
    ensures DebugListBreakpoints(reg).result == Ok(Passthrough(Trim(FrameFor(reg.value, "breakpoint list").response)))
  {
    assert Written(reg) + "breakpoint list" + "\n" == Written(reg) + "breakpoint list\n";
  }

  /**
   * Once writes to the debugger fail, every operation that sends a command
   * fails with the write error instead of reporting success.
   */
  lemma WriteFailureIsAnError(reg: Registry, location: string, expression: string)
    requires reg.Some? && NextWrite(reg.value).Broken?
    ensures DebugBreak(reg, location).result == Err(PipeClosed)
    ensures DebugListBreakpoints(reg).result == Err(PipeClosed)
    ensures ContinueCommand(StateOf(reg)).Some? ==> DebugContinue(reg).result == Err(PipeClosed)
    ensures StateOf(reg) == Stopped ==>
      && DebugStep(reg).result == Err(PipeClosed)
      && DebugStepInto(reg).result == Err(PipeClosed)
      && DebugStepOut(reg).result == Err(PipeClosed)
      && DebugEval(reg, expression).result == Err(PipeClosed)
      && DebugBacktrace(reg).result == Err(PipeClosed)
  {
  }

  /**
   * Eval in Stopped writes "expression <e>". When the reply has neither
   * "error:" nor "undeclared identifier", that reply is the answer, by way of
   * "expression", and it succeeds.
   */
  lemma EvalDirect(reg: Registry, e: string)
    requires StateOf(reg) == Stopped && Accepts(reg)
    requires !NeedsFallback(FrameFor(reg.value, "expression " + e).response)
    ensures var response := FrameFor(reg.value, "expression " + e).response;
      var h := DebugEval(reg, e);
      && Written(h.registry) == Written(reg) + ("expression " + e) + "\n"
      && h.result == Ok(Evaluated(true, e, Trim(response), "expression"))
  {
    var first := Send(reg, "expression " + e);
    var response := first.reply.value;
    assert !Contains(response, "error:");
    assert DebugEval(reg, e) == Handled(Ok(Evaluated(true, e, Trim(response), "expression")), first.registry);
  }

  /**
   * When the reply to "expression <e>" contains "error:" or "undeclared
   * identifier", eval writes "frame variable <e>" next. Its reply is the
   * answer, by way of "frame_variable", and succeeds exactly when it has no
   * "error:"; if that second write fails, eval fails with the write error.
   */
  lemma EvalFallback(reg: Registry, e: string)
    requires StateOf(reg) == Stopped && Accepts(reg)
    requires NeedsFallback(FrameFor(reg.value, "expression " + e).response)
    ensures var first := Send(reg, "expression " + e);
      var second := Send(first.registry, "frame variable " + e);
      var h := DebugEval(reg, e);
      && h.registry == second.registry
      && (second.reply.Err? ==> h.result == Err(PipeClosed))
      && (second.reply.Ok? ==>
            && Written(h.registry) == Written(reg) + ("expression " + e) + "\n" + ("frame variable " + e) + "\n"
            && h.result == Ok(Evaluated(!Contains(second.reply.value, "error:"), e, Trim(second.reply.value),
                                        "frame_variable")))
  {
    var first := Send(reg, "expression " + e);
    var second := Send(first.registry, "frame variable " + e);
    if second.reply.Ok? {
      var r := second.reply.value;
      assert DebugEval(reg, e) ==
        Handled(Ok(Evaluated(!Contains(r, "error:"), e, Trim(r), "frame_variable")), second.registry);
    } else {
      assert DebugEval(reg, e) == Handled(Err(PipeClosed), second.registry);
    }
  }

  /** Break writes its command and succeeds exactly when the reply reports neither "no locations" nor "error:". */
  lemma BreakVerdict(reg: Registry, location: string)
    requires Accepts(reg)
    ensures var response := FrameFor(reg.value, BreakCommand(location)).response;
      var h := DebugBreak(reg, location);
      && Written(h.registry) == Written(reg) + "breakpoint set --name " + location + "\n"
      && h.result == Ok(BreakpointSet(!Contains(response, "no locations") && !Contains(response, "error:"),
                                      Trim(response), location))
  {
  }

  /** The state query writes nothing and reports the stored state, location and binary. */
  lemma GetDebugStateReadsOnly(reg: Registry)
    ensures var h := GetDebugState(reg);
      && h.registry == reg
      && h.result == Ok(Snapshot(StateName(StateOf(reg)), LocationOf(reg),
                                 if reg.Some? then Some(reg.value.binaryPath) else None))
      && (reg.None? ==> h.result.value.state == "notloaded")
  {
    StateNameOf(NotLoaded);
  }

  // ---------------------------------------------------------------------
  // Scenarios

  /**
   * From Loaded, when the first thing the debugger prints in time is a line
   * with "Process" and "launched", continue reads just that line and reports
   * the program as running.
   */
  lemma {:induction false} LaunchReportsRunning(reg: Registry, t: nat, line: string, rest: seq<Event>)
    requires Accepts(reg) && reg.value.state == Loaded
    requires reg.value.stdout == [Event(t, Line(line))] + rest && t <= NextWrite(reg.value).at + TimeoutNanos
    requires Contains(line, "Process") && Contains(line, "launched")
    ensures var h := DebugContinue(reg);
      && StateOf(h.registry) == Running
      && h.registry.value.stdout == rest
      && h.result == Ok(Moved("running", Trim(line), LocationOf(h.registry)))
  {
    LaunchLineFrames(reg.value, t, line, rest);
    LaunchLineRuns(line);
    StateNameOf(Running);
    var sent := Send(reg, "process launch");
    assert DebugContinue(reg) == Handled(Ok(Report(line, sent.registry)), sent.registry);
  }

  /** A launch reply is read up to its first line when that line arrives in time and reports the launch. */
  lemma LaunchLineFrames(s: Session, t: nat, line: string, rest: seq<Event>)
    requires NextWrite(s).Accepted?
    requires s.stdout == [Event(t, Line(line))] + rest && t <= NextWrite(s).at + TimeoutNanos
    requires Contains(line, "Process") && Contains(line, "launched")
    ensures FrameFor(s, "process launch") == Framed(line, 1, false, rest)
  {
    var e := Event(t, Line(line));
    var before: seq<Event> := [];
    assert before + [e] + rest == s.stdout;
    assert CompletionOf("process launch")(line) by {
      assert CategoryOf("process launch") == Launch;
      CompletionByCategory(line, "process launch");
    }
    FrameStopsAtFirstCompletion(CompletionOf("process launch"), NextWrite(s).at, before, e, rest);
  }

  /** A line with "Process" and "launched" moves any state to Running. */
  lemma LaunchLineRuns(line: string)
    requires Contains(line, "Process") && Contains(line, "launched")
    ensures forall prior :: NextState(prior, line) == Running
  {
  }

  /**
   * A command cut short by the deadline leaves the late output unread: the
   * first pending event is the one the deadline check gave up on.
   */
  lemma TimeoutLeavesOutputPending(reg: Registry, command: string)
    requires Accepts(reg) && FrameFor(reg.value, command).timedOut
    ensures var pending := Send(reg, command).registry.value.stdout;
      && pending == reg.value.stdout[FrameFor(reg.value, command).consumed..]
      && pending != []
      && Late(pending[0], NextWrite(reg.value).at)
  {
    var s := reg.value;
    FrameIsCorrect(CompletionOf(command), NextWrite(s).at, s.stdout);
  }

  /**
   * Each command starts its own deadline: a pending line that is on time for
   * the command now being sent is read by it, whatever an earlier command
   * made of it, and opens its reply.
   */
  lemma PendingLineReadFirst(reg: Registry, command: string)
    requires Accepts(reg) && reg.value.stdout != [] && reg.value.stdout[0].arrival.Line?
    requires !Late(reg.value.stdout[0], NextWrite(reg.value).at)
    ensures StartsWith(Send(reg, command).reply.value, reg.value.stdout[0].arrival.text)
    ensures |Send(reg, command).registry.value.stdout| < |reg.value.stdout|
  {
    var s := reg.value;
    var done := CompletionOf(command);
    var start := NextWrite(s).at;
    var text := s.stdout[0].arrival.text;
    FrameHead(done, start, s.stdout);
    FrameRest(done, start, s.stdout);
    var f := Frame(done, start, s.stdout);
    if !done(text) {
      var rest := Frame(done, start, s.stdout[1..]);
      assert f.response == text + rest.response;
      assert f.response[..|text|] == text;
    }
  }

  /**
   * The reply of a command that timed out is not lost: when its late line
   * is on time for the next command, that command's reply starts with it.
   */
  lemma TimedOutReplyReadNext(reg: Registry, first: string, second: string)
    requires Accepts(reg) && FrameFor(reg.value, first).timedOut
    requires var after := Send(reg, first).registry;
      && Accepts(after)
      && after.value.stdout != [] && after.value.stdout[0].arrival.Line?
      && !Late(after.value.stdout[0], NextWrite(after.value).at)
    ensures var after := Send(reg, first).registry;
      && StartsWith(Send(after, second).reply.value, after.value.stdout[0].arrival.text)
      && FrameFor(reg.value, first).consumed < |reg.value.stdout|
      && after.value.stdout[0] == reg.value.stdout[FrameFor(reg.value, first).consumed]
  {
    TimeoutLeavesOutputPending(reg, first);
    PendingLineReadFirst(Send(reg, first).registry, second);
  }

  // ---------------------------------------------------------------------
  // Loading

  /** A path that does not exist fails the load and leaves no session (the old one is killed all the same). */
  lemma RunMissingPath(reg: Registry, path: string, host: Host)
    requires host.kind == Missing
    ensures var l := DebugRun(reg, path, host);
      && l.result == Err(PathMissing(path))
      && l.registry == None
      && l.lifecycle == (if reg.Some? then [Killed(reg.value.binaryPath)] else [])
  {
  }

  /**
   * Starting a session on a binary succeeds exactly when the debugger spawns
   * and the `target create` write goes through. It then leaves one session on
   * that binary, in state Loaded whatever the reply says, having written only
   * `target create "<binary>"`; its location is None unless that reply
   * mentions "stop reason". When the spawn fails nothing is stored; when the
   * write fails the NotLoaded session stays stored.
   */
  lemma StartLoads(binary: string, host: Host)
    ensures var l := StartDebuggerSession(binary, host);
      var started := Started(binary, host);
      && (l.result.Ok? <==> host.spawnError.None? && NextWrite(started).Accepted?)
      && (host.spawnError.Some? ==> l == Loading(Err(SpawnFailed(host.spawnError.value)), None, []))
      && (host.spawnError.None? ==> l.lifecycle == [Spawned(binary)])
      && (host.spawnError.None? && l.result.Err? ==>
            && l.result == Err(PipeClosed)
            && l.registry == Some(started.(writes := LaterWrites(started))))
      && (l.result.Ok? ==>
            var f := FrameFor(started, TargetCreate(binary));
            && l.result.value == Load(Trim(f.response), binary)
            && l.registry == Some(Session(Loaded, binary, NewLocation(None, f.response), TargetCreate(binary) + "\n",
                                          LaterWrites(started), f.rest)))
  {
    if host.spawnError.None? {
      var started := Started(binary, host);
      var sent := Send(Some(started), TargetCreate(binary));
      if sent.reply.Ok? {
        assert Written(Some(started)) + TargetCreate(binary) + "\n" == TargetCreate(binary) + "\n";
      }
    }
  }

  /**
   * A load succeeds exactly when the path resolves to a binary, the debugger
   * spawns and the `target create` write goes through; the session it leaves
   * is the one `StartLoads` describes.
   */
  lemma RunLoads(reg: Registry, path: string, host: Host)
    ensures var l := DebugRun(reg, path, host);
      && (l.result.Ok? <==> ResolvedBinary(path, host).Some? && host.spawnError.None?
                            && NextWrite(Started(ResolvedBinary(path, host).value, host)).Accepted?)
      && (l.result.Ok? ==>
            var binary := ResolvedBinary(path, host).value;
            var started := Started(binary, host);
            var f := FrameFor(started, TargetCreate(binary));
            && l.result.value == Load(Trim(f.response), binary)
            && l.registry == Some(Session(Loaded, binary, NewLocation(None, f.response), TargetCreate(binary) + "\n",
                                          LaterWrites(started), f.rest))
            && (!Contains(f.response, "stop reason") ==> l.registry.value.location == None))
  {
    RunStarts(reg, path, host);
    var binary := ResolvedBinary(path, host);
    if binary.Some? {
      StartLoads(binary.value, host);
      var started := Started(binary.value, host);
      if NextWrite(started).Accepted? {
        LocationUpdate(None, FrameFor(started, TargetCreate(binary.value)).response);
      }
    }
  }

  /**
   * A load first kills the stored session, if any; one that resolves its
   * path then ends as starting a session on the binary does, and one that
   * does not fails and leaves no session.
   */
  lemma RunStarts(reg: Registry, path: string, host: Host)
    ensures var l := DebugRun(reg, path, host);
      var killed := if reg.Some? then [Killed(reg.value.binaryPath)] else [];
      && (ResolvedBinary(path, host).None? ==> l.result.Err? && l.registry == None && l.lifecycle == killed)
      && (ResolvedBinary(path, host).Some? ==>
            var m := StartDebuggerSession(ResolvedBinary(path, host).value, host);
            l.result == m.result && l.registry == m.registry && l.lifecycle == killed + m.lifecycle)
  {
    match host.kind {
      case Missing =>
      case Directory =>
      case File =>
    }
  }

  /**
   * A failed load: a failed build leaves no session; a failed `target
   * create` write leaves the new NotLoaded session stored.
   */
  lemma RunFails(reg: Registry, path: string, host: Host)
    ensures var l := DebugRun(reg, path, host);
      && (host.kind == Directory && host.build.Err? ==> l.result == Err(BuildFailed(host.build.error)) && l.registry == None)
      && (ResolvedBinary(path, host).Some? && host.spawnError.None?
          && NextWrite(Started(ResolvedBinary(path, host).value, host)).Broken? ==>
            var started := Started(ResolvedBinary(path, host).value, host);
            && l.result == Err(PipeClosed)
            && l.registry == Some(started.(writes := LaterWrites(started))))
  {
    RunStarts(reg, path, host);
    var binary := ResolvedBinary(path, host);
    if binary.Some? {
      StartLoads(binary.value, host);
    }
  }

  /** How many debugger processes a log of kills and spawns leaves running. */
  function Live(log: seq<Lifecycle>): int {
    if log == [] then 0
    else (if log[|log| - 1].Spawned? then 1 else -1) + Live(log[..|log| - 1])
  }

  lemma {:induction false} LiveAppend(a: seq<Lifecycle>, b: seq<Lifecycle>)
    ensures Live(a + b) == Live(a) + Live(b)
    decreases |b|
  {
    if b != [] {
      assert (a + b)[..|a + b| - 1] == a + b[..|b| - 1];
      LiveAppend(a, b[..|b| - 1]);
    } else {
      assert a + b == a;
    }
  }

  /**
   * Loading never owns two debuggers at once: if one process runs per live
   * session before, the same holds after, and at no point of the load do two
   * run (the old process is killed before the new one is spawned).
   */
  lemma RunKeepsOneDebugger(reg: Registry, path: string, host: Host, log: seq<Lifecycle>)
    requires Live(log) == if reg.Some? then 1 else 0
    ensures var l := DebugRun(reg, path, host);
      && Live(log + l.lifecycle) == (if l.registry.Some? then 1 else 0)
      && (forall k :: 0 <= k <= |l.lifecycle| ==> 0 <= Live(log + l.lifecycle[..k]) <= 1)
      && (reg.Some? ==> l.lifecycle[0] == Killed(reg.value.binaryPath))
  {
    var l := DebugRun(reg, path, host);
    var killed := if reg.Some? then [Killed(reg.value.binaryPath)] else [];
    var spawned := if l.registry.Some? then [Spawned(ResolvedBinary(path, host).value)] else [];
    RunStarts(reg, path, host);
    if ResolvedBinary(path, host).Some? {
      StartLoads(ResolvedBinary(path, host).value, host);
    }
    assert l.lifecycle == killed + spawned;
    KillThenSpawn(log, killed, spawned);
  }

  /** Killing the one live debugger, if any, and then spawning at most one keeps at most one alive throughout. */
  lemma KillThenSpawn(log: seq<Lifecycle>, killed: seq<Lifecycle>, spawned: seq<Lifecycle>)
    requires |killed| <= 1 && (killed != [] ==> killed[0].Killed?) && Live(log) == |killed|
    requires |spawned| <= 1 && (spawned != [] ==> spawned[0].Spawned?)
    ensures Live(log + (killed + spawned)) == |spawned|
    ensures forall k :: 0 <= k <= |killed + spawned| ==> 0 <= Live(log + (killed + spawned)[..k]) <= 1
  {
    LiveKilled(killed);
    LiveSpawned(spawned);
    LiveAppend(log, killed + spawned);
    LiveAppend(killed, spawned);
    forall k | 0 <= k <= |killed + spawned| ensures 0 <= Live(log + (killed + spawned)[..k]) <= 1 {
      var both := killed + spawned;
      if k == |both| {
        assert both[..k] == both;
      } else if k == 0 {
        assert log + both[..k] == log;
      } else {
        assert both[..k] == killed;
        LiveAppend(log, killed);
      }
    }
  }

  lemma LiveKilled(killed: seq<Lifecycle>)
    requires |killed| <= 1 && (killed != [] ==> killed[0].Killed?)
    ensures Live(killed) == -|killed|
  {
    if killed != [] { LiveOne(killed[0]); assert killed == [killed[0]]; }
  }

  lemma LiveSpawned(spawned: seq<Lifecycle>)
    requires |spawned| <= 1 && (spawned != [] ==> spawned[0].Spawned?)
    ensures Live(spawned) == |spawned|
  {
    if spawned != [] { LiveOne(spawned[0]); assert spawned == [spawned[0]]; }
  }

  lemma LiveOne(e: Lifecycle)
    ensures Live([e]) == if e.Spawned? then 1 else -1
  {
    assert [e][..0] == [];
  }

  // ---------------------------------------------------------------------
  // Invariants of every other operation

  /**
   * `after` is `before` advanced by some commands: the same session (or
   * none), the same binary, more written to the debugger, less of its output
   * left to read.
   */
  ghost predicate Evolves(before: Registry, after: Registry) {
    && (before.Some? <==> after.Some?)
    && (before.Some? ==>
          && after.value.binaryPath == before.value.binaryPath
          && |after.value.writes| <= |before.value.writes|
          && after.value.writes == before.value.writes[|before.value.writes| - |after.value.writes|..]
          && StartsWith(after.value.stdin, before.value.stdin)
          && |after.value.stdout| <= |before.value.stdout|
          && after.value.stdout == before.value.stdout[|before.value.stdout| - |after.value.stdout|..])
  }

  /** The stored location, if any, is a non-empty token without whitespace. */
  predicate LocationWellFormed(reg: Registry) {
    reg.Some? && reg.value.location.Some? ==> IsLocationToken(reg.value.location.value)
  }

  lemma EvolvesTransitive(a: Registry, b: Registry, c: Registry)
    requires Evolves(a, b) && Evolves(b, c)
    ensures Evolves(a, c)
  {
    if a.Some? {
      var (sa, sb, sc) := (a.value.stdout, b.value.stdout, c.value.stdout);
      assert sc == sa[|sa| - |sc|..] by {
        assert sc == sb[|sb| - |sc|..];
        assert sb[|sb| - |sc|..] == sa[|sa| - |sb|..][|sb| - |sc|..];
      }
      assert c.value.stdin[..|a.value.stdin|] == b.value.stdin[..|a.value.stdin|];
    }
  }

  /** One send only adds to the session, and keeps its location well formed. */
  lemma SendEvolves(reg: Registry, command: string)
    ensures Evolves(reg, Send(reg, command).registry)
    ensures LocationWellFormed(reg) ==> LocationWellFormed(Send(reg, command).registry)
  {
    var r := Send(reg, command);
    if r.reply.Ok? {
      var s := reg.value;
      var s' := r.registry.value;
      FrameRest(CompletionOf(command), NextWrite(s).at, s.stdout);
      assert s'.stdin[..|s.stdin|] == s.stdin;
      LocationUpdate(s.location, FrameFor(s, command).response);
    }
  }

  /** `after` evolves from `before` and keeps a well-formed location well formed. */
  ghost predicate Keeps(before: Registry, after: Registry) {
    Evolves(before, after) && (LocationWellFormed(before) ==> LocationWellFormed(after))
  }

  lemma KeepsReflexive(reg: Registry)
    ensures Keeps(reg, reg)
  {
    if reg.Some? {
      assert reg.value.stdout[|reg.value.stdout| - |reg.value.stdout|..] == reg.value.stdout;
    }
  }

  /** The registry after one send, after a send that failed, or unchanged. */
  lemma SendKeeps(reg: Registry, command: string)
    ensures Keeps(reg, Send(reg, command).registry)
  {
    SendEvolves(reg, command);
  }

  lemma BreakKeeps(reg: Registry, location: string)
    ensures Keeps(reg, DebugBreak(reg, location).registry)
  {
    SendKeeps(reg, BreakCommand(location));
  }

  lemma ContinueKeeps(reg: Registry)
    ensures Keeps(reg, DebugContinue(reg).registry)
  {
    KeepsReflexive(reg);
    match ContinueCommand(StateOf(reg))
    case None =>
    case Some(command) => SendKeeps(reg, command);
  }

  lemma SteppingKeeps(reg: Registry, command: string)
    ensures Keeps(reg, Stepping(reg, command).registry)
  {
    KeepsReflexive(reg);
    SendKeeps(reg, command);
  }

  lemma EvalKeeps(reg: Registry, expression: string)
    ensures Keeps(reg, DebugEval(reg, expression).registry)
  {
    var h := DebugEval(reg, expression);
    if StateOf(reg) != Stopped {
      KeepsReflexive(reg);
    } else {
      var first := Send(reg, "expression " + expression);
      SendKeeps(reg, "expression " + expression);
      if first.reply.Ok? && NeedsFallback(first.reply.value) {
        var second := Send(first.registry, "frame variable " + expression);
        assert h.registry == second.registry;
        SendKeeps(first.registry, "frame variable " + expression);
        EvolvesTransitive(reg, first.registry, second.registry);
      } else {
        assert h.registry == first.registry;
      }
    }
  }

  lemma BacktraceKeeps(reg: Registry)
    ensures Keeps(reg, DebugBacktrace(reg).registry)
  {
    KeepsReflexive(reg);
    SendKeeps(reg, "thread backtrace");
  }

  lemma ListBreakpointsKeeps(reg: Registry)
    ensures Keeps(reg, DebugListBreakpoints(reg).registry)
  {
    SendKeeps(reg, "breakpoint list");
  }

  /**
   * No operation but load creates, drops or replaces the session or changes
   * its binary; each only adds to what was written and reads more output;
   * and each keeps the location well formed.
   */
  lemma OperationsKeep(reg: Registry, location: string, expression: string)
    ensures Keeps(reg, DebugBreak(reg, location).registry)
    ensures Keeps(reg, DebugContinue(reg).registry)
    ensures Keeps(reg, DebugStep(reg).registry)
    ensures Keeps(reg, DebugStepInto(reg).registry)
    ensures Keeps(reg, DebugStepOut(reg).registry)
    ensures Keeps(reg, DebugEval(reg, expression).registry)
    ensures Keeps(reg, DebugBacktrace(reg).registry)
    ensures Keeps(reg, DebugListBreakpoints(reg).registry)
    ensures Keeps(reg, GetDebugState(reg).registry)
  {
    BreakKeeps(reg, location);
    ContinueKeeps(reg);
    SteppingKeeps(reg, "thread step-over");
    SteppingKeeps(reg, "thread step-in");
    SteppingKeeps(reg, "thread step-out");
    EvalKeeps(reg, expression);
    BacktraceKeeps(reg);
    ListBreakpointsKeeps(reg);
    KeepsReflexive(reg);
  }

  /** A load leaves a well-formed location. */
  lemma RunLocationWellFormed(reg: Registry, path: string, host: Host)
    ensures LocationWellFormed(DebugRun(reg, path, host).registry)
  {
  }
}
