/**
 * The session registry and the command dispatcher, as functions on values.
 *
 * The registry holds at most one session. Each operation takes the registry
 * as it finds it and gives back its result together with the registry as it
 * leaves it; the classes in module Server do the same thing in place and are
 * proved to agree with these functions.
 */
module Dispatch {
  import opened Wrappers
  import opened Text
  import opened Framing
  import opened Tracker

  /**
   * The outcome of writing one command, its newline and the flush: it went
   * through and the command's clock started at `at`, or the pipe refused it.
   */
  datatype Write = Accepted(at: nat) | Broken

  /** Everything about one live session that the engine reads or changes. */
  datatype Session = Session(
    state: DebugState,
    binaryPath: string,
    location: Option<string>,
    stdin: string,          // every byte written to the debugger so far
    writes: seq<Write>,     // the outcomes of the coming writes, in order
    stdout: seq<Event>)     // the debugger's output that has not been read yet

  /** The outcome of the next write; once the script is used up, writes fail. */
  function NextWrite(s: Session): Write {
    if s.writes == [] then Broken else s.writes[0]
  }

  /** The script after one write. */
  function LaterWrites(s: Session): seq<Write> {
    if s.writes == [] then [] else s.writes[1..]
  }

  /** The registry holds a session whose next write goes through. */
  predicate Accepts(reg: Registry) {
    reg.Some? && NextWrite(reg.value).Accepted?
  }

  /** The session slot: no session, or the one live session. */
  type Registry = Option<Session>

  /** The hard failures of an operation (returned as errors, not as `success: false`). */
  datatype Failure =
    | NoSession                 // "No active debugger session"
    | PipeClosed                // writing the command to the debugger failed
    | PathMissing(path: string) // "Path does not exist: <path>"
    | BuildFailed(message: string)
    | SpawnFailed(message: string)

  /** The structured result of an operation, one constructor per result shape. */
  datatype Reply =
    | Load(output: string, binaryPath: string)                   // success, state "loaded"
    | Refused(error: string, state: string)                      // success: false, nothing sent
    | Moved(state: string, output: string, location: Option<string>)  // success: true
    | BreakpointSet(success: bool, output: string, requested: string)   // "location": the requested one
    | Evaluated(success: bool, expression: string, output: string, via: string)
    | Passthrough(output: string)                                // success: true
    | Snapshot(state: string, location: Option<string>, binary: Option<string>)   // "binary_path"

  /** The `success` field of a reply, when it has one. */
  function Success(r: Reply): Option<bool> {
    match r
    case Load(_, _) => Some(true)
    case Refused(_, _) => Some(false)
    case Moved(_, _, _) => Some(true)
    case BreakpointSet(success, _, _) => Some(success)
    case Evaluated(success, _, _, _) => Some(success)
    case Passthrough(_) => Some(true)
    case Snapshot(_, _, _) => None
  }

  /** What an operation returns and the registry it leaves. */
  datatype Handled = Handled(result: Result<Reply, Failure>, registry: Registry)

  /** The state the dispatcher sees: a missing session counts as NotLoaded. */
  function StateOf(reg: Registry): DebugState {
    if reg.Some? then reg.value.state else NotLoaded
  }

  function LocationOf(reg: Registry): Option<string> {
    if reg.Some? then reg.value.location else None
  }

  /** Everything written to the live session's debugger so far. */
  function Written(reg: Registry): string {
    if reg.Some? then reg.value.stdin else ""
  }

  // ---------------------------------------------------------------------
  // send_debugger_command

  datatype Sent = Sent(reply: Result<string, Failure>, registry: Registry)

  /** The reply the framer reads for `command` from the session's pending output, once its write went through. */
  function FrameFor(s: Session, command: string): Framed
    requires NextWrite(s).Accepted?
  {
    Frame(CompletionOf(command), NextWrite(s).at, s.stdout)
  }

  /**
   * `send_debugger_command`: write the command and a newline, frame the
   * reply, then let the tracker update the state and location from it.
   */
  function Send(reg: Registry, command: string): (r: Sent)
    ensures r.registry.Some? <==> reg.Some?
    ensures r.reply.Ok? <==> Accepts(reg)
    ensures reg.None? ==> r == Sent(Err(NoSession), None)
    ensures reg.Some? ==> r.registry.value.writes == LaterWrites(reg.value)
    ensures reg.Some? && r.reply.Err? ==>
      r == Sent(Err(PipeClosed), Some(reg.value.(writes := LaterWrites(reg.value))))
    ensures r.reply.Ok? ==> Written(r.registry) == Written(reg) + command + "\n"
    ensures r.reply.Ok? ==>
      var f := FrameFor(reg.value, command);
      && r.reply.value == f.response
      && r.registry.value.stdout == f.rest
    ensures r.reply.Ok? ==>
      && r.registry.value.state == NextState(reg.value.state, r.reply.value)
      && r.registry.value.location == NewLocation(reg.value.location, r.reply.value)
      && r.registry.value.binaryPath == reg.value.binaryPath
  {
    match reg
    case None => Sent(Err(NoSession), None)
    case Some(s) =>
      match NextWrite(s)
      case Broken => Sent(Err(PipeClosed), Some(s.(writes := LaterWrites(s))))
      case Accepted(_) =>
        var f := FrameFor(s, command);
        var s' := s.(stdin := s.stdin + command + "\n",
                     writes := LaterWrites(s),
                     stdout := f.rest,
                     state := NextState(s.state, f.response),
                     location := NewLocation(s.location, f.response));
        Sent(Ok(f.response), Some(s'))
  }

  // ---------------------------------------------------------------------
  // debug_run and start_debugger_session

  /** What the file system says about the path given to `debug_run`. */
  datatype PathKind = Directory | File | Missing

  /**
   * The outside world a load depends on: the path's kind, the outcome of
   * building a source directory (the built binary or the failure text),
   * whether the debugger can be spawned, what the new debugger will print and
   * how the writes to it will turn out.
   */
  datatype Host = Host(
    kind: PathKind,
    build: Result<string, string>,
    spawnError: Option<string>,
    output: seq<Event>,
    writes: seq<Write>)

  /** Debugger processes killed and spawned, in order. */
  datatype Lifecycle = Killed(binaryPath: string) | Spawned(binaryPath: string)

  datatype Loading = Loading(result: Result<Reply, Failure>, registry: Registry, lifecycle: seq<Lifecycle>)

  function TargetCreate(binaryPath: string): string {
    "target create \"" + binaryPath + "\""
  }

  /** The session stored right after the spawn, before `target create` is sent. */
  function Started(binaryPath: string, host: Host): Session {
    Session(NotLoaded, binaryPath, None, "", host.writes, host.output)
  }

  /**
   * `start_debugger_session`: spawn the debugger, store a NotLoaded session,
   * send `target create`, and on success mark the session Loaded whatever
   * the debugger replied.
   */
  function StartDebuggerSession(binaryPath: string, host: Host): Loading {
    match host.spawnError
    case Some(message) => Loading(Err(SpawnFailed(message)), None, [])
    case None =>
      var sent := Send(Some(Started(binaryPath, host)), TargetCreate(binaryPath));
      match sent.reply
      case Err(e) => Loading(Err(e), sent.registry, [Spawned(binaryPath)])
      case Ok(response) =>
        Loading(Ok(Load(Trim(response), binaryPath)),
                Some(sent.registry.value.(state := Loaded)),
                [Spawned(binaryPath)])
  }

  /**
   * `debug_run`: kill and drop the current session first, then resolve the
   * path (a directory is built, a file is taken as it is, anything else is
   * an error) and start a session on the result.
   */
  function DebugRun(reg: Registry, path: string, host: Host): Loading {
    var killed := if reg.Some? then [Killed(reg.value.binaryPath)] else [];
    match host.kind
    case Missing => Loading(Err(PathMissing(path)), None, killed)
    case Directory =>
      (match host.build
       case Err(message) => Loading(Err(BuildFailed(message)), None, killed)
       case Ok(binary) =>
         var l := StartDebuggerSession(binary, host);
         Loading(l.result, l.registry, killed + l.lifecycle))
    case File =>
      var l := StartDebuggerSession(path, host);
      Loading(l.result, l.registry, killed + l.lifecycle)
  }

  /** The binary a load ends up debugging, when the path resolves to one. */
  function ResolvedBinary(path: string, host: Host): Option<string> {
    match host.kind
    case Missing => None
    case Directory => if host.build.Ok? then Some(host.build.value) else None
    case File => Some(path)
  }

  // ---------------------------------------------------------------------
  // The other operations

  function BreakCommand(location: string): string {
    "breakpoint set --name " + location
  }

  /** `debug_break`: no state check; success unless the reply reports no locations or an error. */
  function DebugBreak(reg: Registry, location: string): Handled {
    var sent := Send(reg, BreakCommand(location));
    match sent.reply
    case Err(e) => Handled(Err(e), sent.registry)
    case Ok(response) =>
      var success := !Contains(response, "no locations") && !Contains(response, "error:");
      Handled(Ok(BreakpointSet(success, Trim(response), location)), sent.registry)
  }

  /** The command `debug_continue` sends from each state, if any. */
  function ContinueCommand(state: DebugState): Option<string> {
    match state
    case Loaded => Some("process launch")
    case Stopped => Some("process continue")
    case _ => None
  }

  /** The refusal `debug_continue` gives in the states it does not accept. */
  function ContinueRefusal(state: DebugState): Reply {
    match state
    case Running => Refused("Program is already running", "running")
    case Completed => Refused("Program has finished execution", StateName(Completed))
    case Crashed => Refused("Program has finished execution", StateName(Crashed))
    case _ => Refused("No program loaded. Use debug_run first.", "not_loaded")
  }

  /** After a successful send: the state and location now stored, with the reply. */
  function Report(response: string, reg: Registry): Reply {
    Moved(StateName(StateOf(reg)), Trim(response), LocationOf(reg))
  }

  /** `debug_continue`: launch from Loaded, resume from Stopped, refuse otherwise. */
  function DebugContinue(reg: Registry): Handled {
    match ContinueCommand(StateOf(reg))
    case None => Handled(Ok(ContinueRefusal(StateOf(reg))), reg)
    case Some(command) =>
      var sent := Send(reg, command);
      match sent.reply
      case Err(e) => Handled(Err(e), sent.registry)
      case Ok(response) => Handled(Ok(Report(response, sent.registry)), sent.registry)
  }

  const StepRefusal: string := "Program must be stopped at a breakpoint to step"

  /** The shared body of the three stepping operations. */
  function Stepping(reg: Registry, command: string): Handled {
    if StateOf(reg) != Stopped then Handled(Ok(Refused(StepRefusal, StateName(StateOf(reg)))), reg)
    else
      var sent := Send(reg, command);
      match sent.reply
      case Err(e) => Handled(Err(e), sent.registry)
      case Ok(response) => Handled(Ok(Report(response, sent.registry)), sent.registry)
  }

  function DebugStep(reg: Registry): Handled {
    Stepping(reg, "thread step-over")
  }

  function DebugStepInto(reg: Registry): Handled {
    Stepping(reg, "thread step-in")
  }

  function DebugStepOut(reg: Registry): Handled {
    Stepping(reg, "thread step-out")
  }

  const EvalRefusal: string := "Program must be stopped (at breakpoint) to evaluate expressions"

  /** The reply to `expression` that makes `debug_eval` fall back to `frame variable`. */
  predicate NeedsFallback(response: string) {
    Contains(response, "error:") || Contains(response, "undeclared identifier")
  }

  /** `debug_eval`: `expression <e>`, falling back to `frame variable <e>` when that fails. */
  function DebugEval(reg: Registry, expression: string): Handled {
    if StateOf(reg) != Stopped then Handled(Ok(Refused(EvalRefusal, StateName(StateOf(reg)))), reg)
    else
      var first := Send(reg, "expression " + expression);
      match first.reply
      case Err(e) => Handled(Err(e), first.registry)
      case Ok(response) =>
        if NeedsFallback(response) then
          var second := Send(first.registry, "frame variable " + expression);
          match second.reply
          case Err(e) => Handled(Err(e), second.registry)
          case Ok(frameResponse) =>
            Handled(Ok(Evaluated(!Contains(frameResponse, "error:"), expression, Trim(frameResponse), "frame_variable")),
                    second.registry)
        else
          Handled(Ok(Evaluated(!Contains(response, "error:"), expression, Trim(response), "expression")),
                  first.registry)
  }

  const BacktraceRefusal: string := "Program must be stopped to show backtrace"

  function DebugBacktrace(reg: Registry): Handled {
    if StateOf(reg) != Stopped then Handled(Ok(Refused(BacktraceRefusal, StateName(StateOf(reg)))), reg)
    else
      var sent := Send(reg, "thread backtrace");
      match sent.reply
      case Err(e) => Handled(Err(e), sent.registry)
      case Ok(response) => Handled(Ok(Passthrough(Trim(response))), sent.registry)
  }

  /** `debug_list_breakpoints`: no state check. */
  function DebugListBreakpoints(reg: Registry): Handled {
    var sent := Send(reg, "breakpoint list");
    match sent.reply
    case Err(e) => Handled(Err(e), sent.registry)
    case Ok(response) => Handled(Ok(Passthrough(Trim(response))), sent.registry)
  }

  /** `get_debug_state`: a read-only snapshot. */
  function GetDebugState(reg: Registry): Handled {
    var binaryPath := if reg.Some? then Some(reg.value.binaryPath) else None;
    Handled(Ok(Snapshot(StateName(StateOf(reg)), LocationOf(reg), binaryPath)), reg)
  }
}
