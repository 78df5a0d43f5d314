/**
 * The server's objects: a `DebugServer` holding at most one
 * `DebugSession` object, whose fields the operations update in place. Every
 * method is proved to leave the result and the registry that the matching
 * function of module Dispatch computes, so the properties proved there hold
 * of these methods too.
 */
module Server {
  import opened Wrappers
  import opened Framing
  import opened Tracker
  import opened Dispatch
  import Properties

  /** One debugger process and what the engine knows about it. */
  class DebugSession {
    var state: DebugState
    var binaryPath: string
    var currentLocation: Option<string>
    var stdin: string           // every byte written to the debugger so far
    var writes: seq<Write>      // the outcomes of the coming writes, in order
    var stdout: seq<Event>      // the debugger's output that has not been read yet

    /** The session as a value. */
    function View(): Session
      reads this
    {
      Session(state, binaryPath, currentLocation, stdin, writes, stdout)
    }

    /** A freshly spawned debugger: NotLoaded, no location, nothing written yet. */
    constructor (binaryPath: string, writes: seq<Write>, stdout: seq<Event>)
      ensures View() == Session(NotLoaded, binaryPath, None, "", writes, stdout)
    {
      this.state := NotLoaded;
      this.binaryPath := binaryPath;
      this.currentLocation := None;
      this.stdin := "";
      this.writes := writes;
      this.stdout := stdout;
    }

    /**
     * The reading half of `send_debugger_command`: read lines until one
     * completes the reply, the stream ends, a read fails or the deadline
     * passes (checked before every wait). `complete` is the completion test
     * for the command sent and `start` the clock reading once it was written.
     * It reads exactly what `Frame` says and leaves the rest unread.
     */
    method ReadResponse(complete: string -> bool, start: nat) returns (response: string)
      modifies this
      ensures var f := Frame(complete, start, old(stdout));
        && response == f.response
        && View() == old(View()).(stdout := f.rest)
    {
      ghost var pending := stdout;
      ghost var consumed: nat := 0;
      ghost var goal := Frame(complete, start, pending);
      response := "";
      var timedOut := false;
      var reading := true;
      while reading
        invariant consumed <= |pending| && stdout == pending[consumed..]
        invariant state == old(state) && binaryPath == old(binaryPath) && currentLocation == old(currentLocation)
        invariant stdin == old(stdin) && writes == old(writes)
        invariant reading ==> !timedOut
        invariant reading ==> goal == After(response, consumed, Frame(complete, start, stdout))
        invariant !reading ==> goal == Framed(response, consumed, timedOut, stdout)
        decreases |stdout|, reading
      {
        if stdout == [] {
          // the output ends here: the read sees end of stream
          assert response + "" == response;
          reading := false;
        } else {
          var e := stdout[0];
          ghost var now := stdout;
          assert now[1..] == pending[consumed + 1..];
          FrameHead(complete, start, now);
          if e.at - start > TimeoutNanos {
            response := response + TimeoutMarker;
            timedOut := true;
            reading := false;
          } else {
            match e.arrival
            case Eof =>
              assert response + "" == response;
              reading := false;
            case ReadFailed =>
              assert response + "" == response;
              stdout := stdout[1..];
              consumed := consumed + 1;
              reading := false;
            case Tick =>
              AfterQuietEvent(complete, start, now, response, consumed);
              assert response + "" == response;
              stdout := stdout[1..];
              consumed := consumed + 1;
            case Line(text) =>
              stdout := stdout[1..];
              consumed := consumed + 1;
              if complete(text) {
                response := response + text;
                reading := false;
              } else {
                AfterQuietEvent(complete, start, now, response, consumed - 1);
                response := response + text;
              }
          }
        }
      }
    }

    /**
     * `update_session_state`: the first lifecycle pattern found in the reply
     * sets the state, and a location is taken from a reply that mentions
     * "stop reason".
     */
    method UpdateSessionState(response: string)
      modifies this
      ensures View() == old(View()).(state := NextState(old(state), response),
                                     location := NewLocation(old(currentLocation), response))
    {
      if HasProcess(response, "launched") {
        state := Running;
      } else if HasProcess(response, "stopped") {
        state := Stopped;
      } else if HasProcess(response, "exited") {
        state := Completed;
      } else if ReportsCrash(response) {
        state := Crashed;
      }
      if Text.Contains(response, "stop reason") {
        var location := ExtractLocation(response);
        if location.Some? {
          currentLocation := location;
        }
      }
    }
  }

  /** Reading one on-time event that does not end the reply moves it from what is to come to what was read. */
  lemma AfterQuietEvent(complete: string -> bool, start: nat, evs: seq<Event>, response: string, consumed: nat)
    requires evs != [] && !Late(evs[0], start) && !evs[0].arrival.Eof? && !Ends(evs[0], complete)
    ensures After(response, consumed, Frame(complete, start, evs))
         == After(response + LineText(evs[0]), consumed + 1, Frame(complete, start, evs[1..]))
  {
    var rest := Frame(complete, start, evs[1..]);
    assert response + (LineText(evs[0]) + rest.response) == response + LineText(evs[0]) + rest.response;
  }

  /** The part of `Frame`'s result still to come, after `response` and `consumed` events already read. */
  function After(response: string, consumed: nat, rest: Framed): Framed {
    Framed(response + rest.response, consumed + rest.consumed, rest.timedOut, rest.rest)
  }

  /** The server: the session slot and a log of the debugger processes it killed and spawned. */
  class DebugServer {
    var session: DebugSession?
    ghost var lifecycle: seq<Lifecycle>

    /** The slot as a value. */
    function Registry(): Registry
      reads this, session
    {
      if session == null then None else Some(session.View())
    }

    /** One debugger process runs exactly while a session is stored. */
    ghost predicate Valid()
      reads this
    {
      Properties.Live(lifecycle) == if session == null then 0 else 1
    }

    /** `DebugServer::new`: no session. */
    constructor ()
      ensures Registry() == None && lifecycle == [] && Valid()
    {
      session := null;
      lifecycle := [];
    }

    /**
     * `send_debugger_command`: write the command and a newline, start the
     * command's clock, read the reply, and let the tracker update the state
     * and location from it.
     */
    method SendDebuggerCommand(command: string) returns (reply: Result<string, Failure>)
      modifies session
      ensures Sent(reply, Registry()) == Send(old(Registry()), command)
    {
      if session == null {
        return Err(NoSession);
      }
      var outcome := if session.writes == [] then Broken else session.writes[0];
      session.writes := if session.writes == [] then [] else session.writes[1..];
      if outcome.Broken? {
        return Err(PipeClosed);
      }
      var start := outcome.at;
      session.stdin := session.stdin + command + "\n";
      var response := session.ReadResponse(CompletionOf(command), start);
      session.UpdateSessionState(response);
      reply := Ok(response);
    }
  
    /** The state the operations check: a missing session counts as NotLoaded. */
    method CurrentState() returns (state: DebugState)
      ensures state == StateOf(Registry())
    {
      state := if session == null then NotLoaded else session.state;
    }

    /**
     * `debug_run`: kill and drop the current session, resolve the path (a
     * directory is built, an existing file is taken as it is, anything else
     * is an error), then start a session on the binary.
     */
    method DebugRun(path: string, host: Host) returns (result: Result<Reply, Failure>)
      requires Valid()
      modifies this
      ensures var l := Dispatch.DebugRun(old(Registry()), path, host);
        && result == l.result
        && Registry() == l.registry
        && lifecycle == old(lifecycle) + l.lifecycle
      ensures session != null ==> fresh(session)
      ensures Valid()
    {
      ghost var before := Registry();
      ghost var l := Dispatch.DebugRun(before, path, host);
      assert Properties.Live(lifecycle + l.lifecycle) == if l.registry.Some? then 1 else 0 by {
        Properties.RunKeepsOneDebugger(before, path, host, lifecycle);
      }
      Properties.RunStarts(before, path, host);
      if session != null {
        lifecycle := lifecycle + [Killed(session.binaryPath)];
        session := null;
      }
      var binary: string;
      match host.kind {
        case Directory =>
          if host.build.Err? {
            return Err(BuildFailed(host.build.error));
          }
          binary := host.build.value;
        case File =>
          binary := path;
        case Missing =>
          return Err(PathMissing(path));
      }
      result := StartDebuggerSession(binary, host);
    }

    /**
     * `start_debugger_session`: spawn the debugger, store it as a NotLoaded
     * session, send `target create`, and mark the session Loaded once that
     * command has gone through, whatever the reply.
     */
    method StartDebuggerSession(binaryPath: string, host: Host) returns (result: Result<Reply, Failure>)
      requires session == null
      modifies this
      ensures var l := Dispatch.StartDebuggerSession(binaryPath, host);
        && result == l.result
        && Registry() == l.registry
        && lifecycle == old(lifecycle) + l.lifecycle
      ensures session != null ==> fresh(session)
    {
      if host.spawnError.Some? {
        return Err(SpawnFailed(host.spawnError.value));
      }
      var started := new DebugSession(binaryPath, host.writes, host.output);
      lifecycle := lifecycle + [Spawned(binaryPath)];
      session := started;
      ghost var stored := Registry();
      assert stored == Some(Started(binaryPath, host));
      var sent := SendDebuggerCommand(TargetCreate(binaryPath));
      ghost var after := Send(stored, TargetCreate(binaryPath));
      assert sent == after.reply && Registry() == after.registry;
      if sent.Err? {
        return Err(sent.error);
      }
      session.state := Loaded;
      result := Ok(Load(Text.Trim(sent.value), binaryPath));
      assert Registry() == Some(after.registry.value.(state := Loaded));
    }

    /** `debug_break`: no state check; success unless the reply reports no locations or an error. */
    method DebugBreak(location: string) returns (result: Result<Reply, Failure>)
      modifies session
      ensures Handled(result, Registry()) == Dispatch.DebugBreak(old(Registry()), location)
    {
      var sent := SendDebuggerCommand(BreakCommand(location));
      if sent.Err? {
        return Err(sent.error);
      }
      var response := sent.value;
      var success := !Text.Contains(response, "no locations") && !Text.Contains(response, "error:");
      result := Ok(BreakpointSet(success, Text.Trim(response), location));
    }

    /** After a command went through: the state and location now stored, with the reply. */
    method Report(response: string) returns (reply: Reply)
      ensures reply == Dispatch.Report(response, Registry())
    {
      var state := CurrentState();
      var location := if session == null then None else session.currentLocation;
      reply := Moved(StateName(state), Text.Trim(response), location);
    }

    /** `debug_continue`: launch from Loaded, resume from Stopped, refuse otherwise. */
    method DebugContinue() returns (result: Result<Reply, Failure>)
      modifies session
      ensures Handled(result, Registry()) == Dispatch.DebugContinue(old(Registry()))
    {
      var current := CurrentState();
      var command: string;
      match current {
        case Loaded =>
          command := "process launch";
        case Stopped =>
          command := "process continue";
        case Running =>
          return Ok(Refused("Program is already running", "running"));
        case Completed =>
          return Ok(Refused("Program has finished execution", StateName(current)));
        case Crashed =>
          return Ok(Refused("Program has finished execution", StateName(current)));
        case NotLoaded =>
          return Ok(Refused("No program loaded. Use debug_run first.", "not_loaded"));
      }
      ghost var before := Registry();
      assert ContinueCommand(StateOf(before)) == Some(command);
      var sent := SendDebuggerCommand(command);
      ghost var after := Send(before, command);
      assert sent == after.reply && Registry() == after.registry;
      if sent.Err? {
        return Err(sent.error);
      }
      var reply := Report(sent.value);
      result := Ok(reply);
      assert Dispatch.DebugContinue(before) == Handled(Ok(Dispatch.Report(sent.value, after.registry)), after.registry);
    }

    /** The body shared by `debug_step`, `debug_step_into` and `debug_step_out`. */
    method Stepping(command: string) returns (result: Result<Reply, Failure>)
      modifies session
      ensures Handled(result, Registry()) == Dispatch.Stepping(old(Registry()), command)
    {
      var current := CurrentState();
      if current != Stopped {
        return Ok(Refused(StepRefusal, StateName(current)));
      }
      var sent := SendDebuggerCommand(command);
      if sent.Err? {
        return Err(sent.error);
      }
      var reply := Report(sent.value);
      result := Ok(reply);
    }

    method DebugStep() returns (result: Result<Reply, Failure>)
      modifies session
      ensures Handled(result, Registry()) == Dispatch.DebugStep(old(Registry()))
    {
      result := Stepping("thread step-over");
    }

    method DebugStepInto() returns (result: Result<Reply, Failure>)
      modifies session
      ensures Handled(result, Registry()) == Dispatch.DebugStepInto(old(Registry()))
    {
      result := Stepping("thread step-in");
    }

    method DebugStepOut() returns (result: Result<Reply, Failure>)
      modifies session
      ensures Handled(result, Registry()) == Dispatch.DebugStepOut(old(Registry()))
    {
      result := Stepping("thread step-out");
    }

    /** `debug_eval`: `expression <e>`, falling back to `frame variable <e>` when that fails. */
    method DebugEval(expression: string) returns (result: Result<Reply, Failure>)
      modifies session
      ensures Handled(result, Registry()) == Dispatch.DebugEval(old(Registry()), expression)
    {
      var current := CurrentState();
      if current != Stopped {
        return Ok(Refused(EvalRefusal, StateName(current)));
      }
      var exprCommand := "expression " + expression;
      var frameCommand := "frame variable " + expression;
      var sent := SendDebuggerCommand(exprCommand);
      if sent.Err? {
        return Err(sent.error);
      }
      var response := sent.value;
      if Text.Contains(response, "error:") || Text.Contains(response, "undeclared identifier") {
        var fallback := SendDebuggerCommand(frameCommand);
        match fallback {
          case Err(e) =>
            result := Err(e);
          case Ok(frameResponse) =>
            var success := !Text.Contains(frameResponse, "error:");
            result := Ok(Evaluated(success, expression, Text.Trim(frameResponse), "frame_variable"));
        }
      } else {
        var success := !Text.Contains(response, "error:");
        result := Ok(Evaluated(success, expression, Text.Trim(response), "expression"));
      }
    }

    /** `debug_backtrace`: only when Stopped; passes the reply through. */
    method DebugBacktrace() returns (result: Result<Reply, Failure>)
      modifies session
      ensures Handled(result, Registry()) == Dispatch.DebugBacktrace(old(Registry()))
    {
      var current := CurrentState();
      if current != Stopped {
        return Ok(Refused(BacktraceRefusal, StateName(current)));
      }
      var sent := SendDebuggerCommand("thread backtrace");
      if sent.Err? {
        return Err(sent.error);
      }
      result := Ok(Passthrough(Text.Trim(sent.value)));
    }

    /** `debug_list_breakpoints`: no state check. */
    method DebugListBreakpoints() returns (result: Result<Reply, Failure>)
      modifies session
      ensures Handled(result, Registry()) == Dispatch.DebugListBreakpoints(old(Registry()))
    {
      var sent := SendDebuggerCommand("breakpoint list");
      if sent.Err? {
        return Err(sent.error);
      }
      result := Ok(Passthrough(Text.Trim(sent.value)));
    }

    /** `get_debug_state`: the stored state, location and binary; changes nothing. */
    method GetDebugState() returns (result: Result<Reply, Failure>)
      ensures Handled(result, Registry()) == Dispatch.GetDebugState(Registry())
    {
      var state := CurrentState();
      var location := if session == null then None else session.currentLocation;
      var binaryPath := if session == null then None else Some(session.binaryPath);
      result := Ok(Snapshot(StateName(state), location, binaryPath));
    }
  }
}
