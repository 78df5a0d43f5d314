/**
 * Response framing: deciding where the debugger's reply to one command ends
 * in its unstructured output stream.
 *
 * The output stream is modelled as a script of read events, timed on one
 * clock that runs for the whole session. Each command starts its own
 * deadline at the moment its write completes; an event counts as late for
 * that command when its time is more than ten seconds past that start.
 */
module Framing {
  import opened Wrappers
  import opened Text

  /** The debugger's idle prompt. */
  const Prompt: string := "(lldb)"

  /** The framer gives up once more than ten seconds have elapsed (in nanoseconds). */
  const TimeoutNanos: nat := 10_000_000_000

  /** Appended to a reply cut short by the deadline. */
  const TimeoutMarker: string := "[TIMEOUT - Command may still be processing]"

  /** What one wait on the output stream yields. */
  datatype Arrival =
    | Line(text: string)   // one line, as `read_line` delivers it (with its newline, if any)
    | Eof                  // end of stream: the debugger closed its output
    | ReadFailed           // `read_line` failed
    | Tick                 // the 100 ms timer won the race; nothing was read

  /**
   * One wait on the output stream. `at` is the clock reading of the deadline
   * check just before that wait. Output still pending when a command starts
   * may carry an earlier time; relative to that command it is then on time,
   * as it is in the running program, which checks the clock afresh.
   */
  datatype Event = Event(at: nat, arrival: Arrival)

  /** The completion heuristic, checked on each line as it arrives. */
  predicate IsResponseComplete(line: string, command: string) {
    if Trim(line) == Prompt then true
    else if StartsWith(command, "process launch") && Contains(line, "Process")
            && (Contains(line, "launched") || Contains(line, "stopped")) then true
    else if StartsWith(command, "process continue") && Contains(line, "Process")
            && (Contains(line, "stopped") || Contains(line, "exited")) then true
    else if StartsWith(command, "breakpoint set") && Contains(line, "Breakpoint")
            && Contains(line, ":") then true
    else if (StartsWith(command, "expression") || StartsWith(command, "frame variable"))
            && (Contains(line, "=") || Contains(line, "error:")) then true
    else false
  }

  /** The command families that have their own completion marker. */
  datatype Category = Launch | Resume | SetBreakpoint | Inspect | Uncategorised

  function CategoryOf(command: string): Category {
    if StartsWith(command, "process launch") then Launch
    else if StartsWith(command, "process continue") then Resume
    else if StartsWith(command, "breakpoint set") then SetBreakpoint
    else if StartsWith(command, "expression") || StartsWith(command, "frame variable") then Inspect
    else Uncategorised
  }

  /** The completion marker of each family, besides the prompt. */
  predicate Marks(category: Category, line: string) {
    match category
    case Launch => Contains(line, "Process") && (Contains(line, "launched") || Contains(line, "stopped"))
    case Resume => Contains(line, "Process") && (Contains(line, "stopped") || Contains(line, "exited"))
    case SetBreakpoint => Contains(line, "Breakpoint") && Contains(line, ":")
    case Inspect => Contains(line, "=") || Contains(line, "error:")
    case Uncategorised => false
  }

  /** Two prefixes that disagree at some index cannot both start one command. */
  lemma ExclusivePrefixes(command: string, p: string, q: string, k: nat)
    requires k < |p| && k < |q| && p[k] != q[k]
    ensures !(StartsWith(command, p) && StartsWith(command, q))
  {
  }

  /**
   * The chain of tests in `is_response_complete` is the same as: the prompt, or the
   * marker of the one family the command belongs to. A command starts with
   * at most one of the family prefixes, so the order of the tests is
   * immaterial.
   */
  lemma {:induction false} CompletionByCategory(line: string, command: string)
    ensures IsResponseComplete(line, command) <==> Trim(line) == Prompt || Marks(CategoryOf(command), line)
  {
    ExclusivePrefixes(command, "process launch", "process continue", 8);
    ExclusivePrefixes(command, "process launch", "breakpoint set", 0);
    ExclusivePrefixes(command, "process launch", "expression", 0);
    ExclusivePrefixes(command, "process launch", "frame variable", 0);
    ExclusivePrefixes(command, "process continue", "breakpoint set", 0);
    ExclusivePrefixes(command, "process continue", "expression", 0);
    ExclusivePrefixes(command, "process continue", "frame variable", 0);
    ExclusivePrefixes(command, "breakpoint set", "expression", 0);
    ExclusivePrefixes(command, "breakpoint set", "frame variable", 0);
  }

  /** Commands outside the four families complete on the prompt and on nothing else. */
  lemma {:induction false} UncategorisedWaitsForPrompt(line: string, command: string)
    requires !StartsWith(command, "process launch") && !StartsWith(command, "process continue")
    requires !StartsWith(command, "breakpoint set")
    requires !StartsWith(command, "expression") && !StartsWith(command, "frame variable")
    ensures IsResponseComplete(line, command) <==> Trim(line) == Prompt
  {
    CompletionByCategory(line, command);
  }

  /** A command that starts with "thread" or "target" belongs to no family. */
  lemma {:induction false} ThreadAndTargetCommandsWaitForPrompt(line: string, command: string)
    requires StartsWith(command, "thread ") || StartsWith(command, "target ")
    ensures IsResponseComplete(line, command) <==> Trim(line) == Prompt
  {
    var p := if StartsWith(command, "thread ") then "thread " else "target ";
    ExclusivePrefixes(command, p, "process launch", 0);
    ExclusivePrefixes(command, p, "process continue", 0);
    ExclusivePrefixes(command, p, "breakpoint set", 0);
    ExclusivePrefixes(command, p, "expression", 0);
    ExclusivePrefixes(command, p, "frame variable", 0);
    UncategorisedWaitsForPrompt(line, command);
  }

  /** The listing command "breakpoint list" also waits for the prompt. */
  lemma BreakpointListWaitsForPrompt(line: string)
    ensures IsResponseComplete(line, "breakpoint list") <==> Trim(line) == Prompt
  {
    ExclusivePrefixes("breakpoint list", "breakpoint set", "breakpoint list", 11);
    ExclusivePrefixes("breakpoint list", "process launch", "breakpoint list", 0);
    ExclusivePrefixes("breakpoint list", "process continue", "breakpoint list", 0);
    ExclusivePrefixes("breakpoint list", "expression", "breakpoint list", 0);
    ExclusivePrefixes("breakpoint list", "frame variable", "breakpoint list", 0);
    UncategorisedWaitsForPrompt(line, "breakpoint list");
  }

  // ---------------------------------------------------------------------
  // The framer

  /**
   * The completion test the framer applies to each line read for `command`.
   * The framer below is stated for any such test, so that its proofs do not
   * depend on the text patterns above.
   */
  function CompletionOf(command: string): string -> bool {
    line => IsResponseComplete(line, command)
  }

  /**
   * The reply of one command: its text, how many events it read, whether the
   * deadline cut it, and the output it left unread (`FrameRest`: the events
   * after those it read).
   */
  datatype Framed = Framed(response: string, consumed: nat, timedOut: bool, rest: seq<Event>)

  /** `start_time.elapsed() > timeout_duration` when the framer is about to wait for `e`. */
  predicate Late(e: Event, start: nat) {
    e.at - start > TimeoutNanos
  }

  /** Reading `e` ends the reply: a failed read, or a line that passes the completion test. */
  predicate Ends(e: Event, done: string -> bool) {
    e.arrival.ReadFailed? || (e.arrival.Line? && done(e.arrival.text))
  }

  function LineText(e: Event): string {
    if e.arrival.Line? then e.arrival.text else ""
  }

  /** The lines among `evs`, concatenated in order. */
  function LinesRead(evs: seq<Event>): string {
    if evs == [] then "" else LineText(evs[0]) + LinesRead(evs[1..])
  }

  lemma LinesReadCons(e: Event, evs: seq<Event>)
    ensures LinesRead([e] + evs) == LineText(e) + LinesRead(evs)
  {
    assert ([e] + evs)[1..] == evs;
  }

  /** The text of the first `n` events is the first event's text followed by that of the next `n - 1`. */
  lemma LinesReadPrefix(evs: seq<Event>, n: nat)
    requires 0 < n <= |evs|
    ensures LinesRead(evs[..n]) == LineText(evs[0]) + LinesRead(evs[1..][..n - 1])
  {
    assert evs[..n] == [evs[0]] + evs[1..][..n - 1];
    LinesReadCons(evs[0], evs[1..][..n - 1]);
  }

  /** A reply read over `n` events, followed by `marker`, is the first event's line and then the rest of it. */
  lemma ResponseShift(evs: seq<Event>, n: nat, marker: string)
    requires 0 < n <= |evs|
    ensures LinesRead(evs[..n]) + marker == LineText(evs[0]) + (LinesRead(evs[1..][..n - 1]) + marker)
  {
    LinesReadPrefix(evs, n);
    AppendAssoc(LineText(evs[0]), LinesRead(evs[1..][..n - 1]), marker);
  }

  /** The reply read from `evs` stopped because its last event ended it. */
  predicate EndedBy(evs: seq<Event>, consumed: nat, done: string -> bool) {
    0 < consumed <= |evs| && Ends(evs[consumed - 1], done)
  }

  /**
   * `r` is a correct framing of `evs`: the events read are a prefix of `evs`
   * that is on time, holds no end of stream and no earlier ending event;
   * reading stops only at an ending event, at the end of the stream, or at
   * the deadline, and only the deadline appends the timeout marker. The
   * framer's result is correct (`FrameIsCorrect`) and is the only correct
   * one (`FramedCorrectlyUnique`).
   */
  ghost predicate FramedCorrectly(done: string -> bool, start: nat, evs: seq<Event>, r: Framed) {
    && r.consumed <= |evs|
    && r.response == LinesRead(evs[..r.consumed]) + (if r.timedOut then TimeoutMarker else "")
    && ReadInTime(done, start, evs, r.consumed)
    && StoppedRightly(done, start, evs, r.consumed, r.timedOut)
    && r.rest == evs[r.consumed..]
  }

  /** The first `n` events are on time, hold no end of stream, and none but the last ends the reply. */
  ghost predicate ReadInTime(done: string -> bool, start: nat, evs: seq<Event>, n: nat) {
    && n <= |evs|
    && (forall k :: 0 <= k < n ==> !Late(evs[k], start) && !evs[k].arrival.Eof?)
    && (forall k :: 0 <= k && k + 1 < n ==> !Ends(evs[k], done))
  }

  /** Reading stopped after `n` events at an ending event, the end of the stream or the deadline, and only the deadline sets `timedOut`. */
  ghost predicate StoppedRightly(done: string -> bool, start: nat, evs: seq<Event>, n: nat, timedOut: bool) {
    && n <= |evs|
    && (EndedBy(evs, n, done) || n == |evs| || Late(evs[n], start) || evs[n].arrival.Eof?)
    && (timedOut <==> !EndedBy(evs, n, done) && n < |evs| && Late(evs[n], start))
  }

  /** What a framing demands of the events it read, extended by one quiet event in front. */
  lemma ReadEventsUnshift(done: string -> bool, start: nat, evs: seq<Event>, n: nat)
    requires 0 < n <= |evs| && !Late(evs[0], start) && !evs[0].arrival.Eof? && !Ends(evs[0], done)
    requires ReadInTime(done, start, evs[1..], n - 1)
    ensures ReadInTime(done, start, evs, n)
  {
    forall k | 0 <= k < n ensures !Late(evs[k], start) && !evs[k].arrival.Eof? {
      if k > 0 { assert evs[k] == evs[1..][k - 1]; }
    }
    forall k | 0 <= k && k + 1 < n ensures !Ends(evs[k], done) {
      if k > 0 { assert evs[k] == evs[1..][k - 1]; }
    }
  }

  /** Where reading stops, seen from `evs` and from `evs` without its first event, when that event does not end the reply. */
  lemma StopShift(done: string -> bool, start: nat, evs: seq<Event>, n: nat, timedOut: bool)
    requires 0 < n <= |evs| && !Ends(evs[0], done)
    ensures StoppedRightly(done, start, evs, n, timedOut) <==> StoppedRightly(done, start, evs[1..], n - 1, timedOut)
  {
    assert EndedBy(evs, n, done) == EndedBy(evs[1..], n - 1, done) by {
      if 1 < n { assert evs[n - 1] == evs[1..][n - 2]; }
    }
    if n < |evs| { assert evs[n] == evs[1..][n - 1]; }
  }

  /** Reading one more quiet event in front of a correct framing gives a correct framing. */
  lemma FramedCorrectlyCons(done: string -> bool, start: nat, evs: seq<Event>, r: Framed)
    requires evs != [] && !Late(evs[0], start) && !evs[0].arrival.Eof? && !Ends(evs[0], done)
    requires FramedCorrectly(done, start, evs[1..], r)
    ensures FramedCorrectly(done, start, evs, Framed(LineText(evs[0]) + r.response, r.consumed + 1, r.timedOut, r.rest))
  {
    var r' := Framed(LineText(evs[0]) + r.response, r.consumed + 1, r.timedOut, r.rest);
    var marker := if r.timedOut then TimeoutMarker else "";
    ResponseShift(evs, r'.consumed, marker);
    ReadEventsUnshift(done, start, evs, r'.consumed);
    StopShift(done, start, evs, r'.consumed, r.timedOut);
    SuffixSlices(evs, 1, r.consumed);
  }

  /** Framing that stops at the first event of `evs`. */
  lemma FramedCorrectlyFirst(done: string -> bool, start: nat, evs: seq<Event>, r: Framed)
    requires evs != []
    requires || (Late(evs[0], start) && r == Framed(TimeoutMarker, 0, true, evs))
             || (!Late(evs[0], start) && evs[0].arrival.Eof? && r == Framed("", 0, false, evs))
             || (!Late(evs[0], start) && Ends(evs[0], done) && r == Framed(LineText(evs[0]), 1, false, evs[1..]))
    ensures FramedCorrectly(done, start, evs, r)
  {
    assert evs[..0] == [];
    assert evs[..1] == [evs[0]] + [];
    LinesReadCons(evs[0], []);
  }

  /**
   * What `send_debugger_command` reads after writing its command, when the
   * output stream holds `evs` and `done` is the command's completion test.
   */
  function Frame(done: string -> bool, start: nat, evs: seq<Event>): (r: Framed)
    ensures r.consumed <= |evs|
  {
    if evs == [] then Framed("", 0, false, [])
    else if Late(evs[0], start) then Framed(TimeoutMarker, 0, true, evs)
    else if evs[0].arrival.Eof? then Framed("", 0, false, evs)
    else if Ends(evs[0], done) then Framed(LineText(evs[0]), 1, false, evs[1..])
    else
      // an on-time tick, or a line that does not complete the reply
      var r := Frame(done, start, evs[1..]);
      Framed(LineText(evs[0]) + r.response, r.consumed + 1, r.timedOut, r.rest)
  }

  /** The framer leaves unread exactly the events after those it read. */
  lemma FrameRest(done: string -> bool, start: nat, evs: seq<Event>)
    ensures Frame(done, start, evs).rest == evs[Frame(done, start, evs).consumed..]
  {
    FrameIsCorrect(done, start, evs);
  }

  /** The framer frames correctly. */
  lemma {:induction false} FrameIsCorrect(done: string -> bool, start: nat, evs: seq<Event>)
    ensures FramedCorrectly(done, start, evs, Frame(done, start, evs))
    decreases |evs|
  {
    if evs == [] {
      assert evs[..0] == [];
    } else if Late(evs[0], start) || evs[0].arrival.Eof? || Ends(evs[0], done) {
      FramedCorrectlyFirst(done, start, evs, Frame(done, start, evs));
    } else {
      FrameIsCorrect(done, start, evs[1..]);
      FramedCorrectlyCons(done, start, evs, Frame(done, start, evs[1..]));
    }
  }

  /** What a framing demands of the events it read, shifted past the first of them. */
  lemma ReadEventsShift(done: string -> bool, start: nat, evs: seq<Event>, n: nat)
    requires 0 < n <= |evs| && ReadInTime(done, start, evs, n)
    ensures ReadInTime(done, start, evs[1..], n - 1)
    ensures !Late(evs[0], start) && !evs[0].arrival.Eof?
  {
    forall k | 0 <= k < n - 1 ensures !Late(evs[1..][k], start) && !evs[1..][k].arrival.Eof? {
      assert evs[1..][k] == evs[k + 1];
    }
    forall k | 0 <= k && k + 1 < n - 1 ensures !Ends(evs[1..][k], done) {
      assert evs[1..][k] == evs[k + 1];
    }
  }

  /** A correct framing that reads past a first event that does not end it is that event and a correct framing of the rest. */
  lemma FramedCorrectlyTail(done: string -> bool, start: nat, evs: seq<Event>, r: Framed)
    requires FramedCorrectly(done, start, evs, r) && r.consumed > 0 && !Ends(evs[0], done)
    ensures !Late(evs[0], start) && !evs[0].arrival.Eof?
    ensures var rest := Framed(LinesRead(evs[1..][..r.consumed - 1]) + (if r.timedOut then TimeoutMarker else ""),
                               r.consumed - 1, r.timedOut, r.rest);
      && FramedCorrectly(done, start, evs[1..], rest)
      && r == Framed(LineText(evs[0]) + rest.response, rest.consumed + 1, rest.timedOut, rest.rest)
  {
    var tail := evs[1..];
    var c := r.consumed - 1;
    var marker := if r.timedOut then TimeoutMarker else "";
    ResponseShift(evs, r.consumed, marker);
    ReadEventsShift(done, start, evs, r.consumed);
    StopShift(done, start, evs, r.consumed, r.timedOut);
    SuffixSlices(evs, 1, c);
  }

  /** A correct framing that stops at or right after the first event is the framer's result there. */
  lemma FramedCorrectlyAtFirst(done: string -> bool, start: nat, evs: seq<Event>, r: Framed)
    requires FramedCorrectly(done, start, evs, r) && evs != []
    requires r.consumed == 0 || Ends(evs[0], done)
    ensures r == Frame(done, start, evs)
  {
    if r.consumed == 0 {
      assert evs[..0] == [];
    } else {
      assert r.consumed == 1;
      assert evs[..1] == [evs[0]] + [];
      LinesReadCons(evs[0], []);
    }
  }

  /** A correct framing is the framer's result: the description above leaves no choice. */
  lemma {:induction false} FramedCorrectlyUnique(done: string -> bool, start: nat, evs: seq<Event>, r: Framed)
    requires FramedCorrectly(done, start, evs, r)
    ensures r == Frame(done, start, evs)
    decreases |evs|
  {
    if evs == [] {
      assert evs[..r.consumed] == [];
    } else if r.consumed == 0 || Ends(evs[0], done) {
      FramedCorrectlyAtFirst(done, start, evs, r);
    } else {
      FramedCorrectlyTail(done, start, evs, r);
      var rest := Framed(LinesRead(evs[1..][..r.consumed - 1]) + (if r.timedOut then TimeoutMarker else ""),
                         r.consumed - 1, r.timedOut, r.rest);
      FramedCorrectlyUnique(done, start, evs[1..], rest);
    }
  }

  /** One step of the framer, by what the first event is. */
  lemma FrameHead(done: string -> bool, start: nat, evs: seq<Event>)
    requires evs != []
    ensures Late(evs[0], start) ==> Frame(done, start, evs) == Framed(TimeoutMarker, 0, true, evs)
    ensures !Late(evs[0], start) && evs[0].arrival.Eof? ==> Frame(done, start, evs) == Framed("", 0, false, evs)
    ensures !Late(evs[0], start) && Ends(evs[0], done) ==> Frame(done, start, evs) == Framed(LineText(evs[0]), 1, false, evs[1..])
    ensures !Late(evs[0], start) && !evs[0].arrival.Eof? && !Ends(evs[0], done) ==>
      var r := Frame(done, start, evs[1..]);
      Frame(done, start, evs) == Framed(LineText(evs[0]) + r.response, r.consumed + 1, r.timedOut, r.rest)
  {
  }

  /** Events that do not stop the framer: on-time ticks and on-time lines that do not complete the reply. */
  predicate Quiet(evs: seq<Event>, done: string -> bool, start: nat) {
    forall k :: 0 <= k < |evs| ==>
      !Late(evs[k], start) && (evs[k].arrival.Tick? || (evs[k].arrival.Line? && !done(evs[k].arrival.text)))
  }

  /**
   * The first on-time completing line ends the reply: the reply is every line
   * up to and including it, and nothing after it is read.
   */
  lemma {:induction false} FrameStopsAtFirstCompletion(done: string -> bool, start: nat, before: seq<Event>, e: Event, after: seq<Event>)
    requires Quiet(before, done, start)
    requires !Late(e, start) && e.arrival.Line? && done(e.arrival.text)
    ensures Frame(done, start, before + [e] + after) == Framed(LinesRead(before) + e.arrival.text, |before| + 1, false, after)
  {
    var evs := before + [e] + after;
    if before == [] {
      assert evs[0] == e;
      FrameHead(done, start, evs);
    } else {
      var first := before[0];
      assert evs[0] == first;
      assert !Late(first, start) && !first.arrival.Eof? && !Ends(first, done);
      assert evs[1..] == before[1..] + [e] + after;
      assert Quiet(before[1..], done, start) by {
        forall k | 0 <= k < |before[1..]| ensures before[1..][k] == before[k + 1] { }
      }
      FrameStopsAtFirstCompletion(done, start, before[1..], e, after);
      FrameHead(done, start, evs);
      assert before == [first] + before[1..];
      LinesReadCons(first, before[1..]);
      assert LineText(first) + (LinesRead(before[1..]) + e.arrival.text) == LinesRead(before) + e.arrival.text;
    }
  }

  /** The framer reads past every event of a quiet prefix. */
  lemma QuietPrefixRead(done: string -> bool, start: nat, evs: seq<Event>, n: nat)
    requires n <= |evs| && Quiet(evs[..n], done, start)
    ensures Frame(done, start, evs).consumed >= n
  {
    FrameIsCorrect(done, start, evs);
    forall k | 0 <= k < n ensures !Late(evs[k], start) && !Ends(evs[k], done) && !evs[k].arrival.Eof? {
      assert evs[..n][k] == evs[k];
    }
  }

  /** The framer never reads an event that comes after the deadline has passed. */
  lemma FrameHonoursDeadline(done: string -> bool, start: nat, evs: seq<Event>, k: nat)
    requires k < |evs| && Late(evs[k], start)
    ensures Frame(done, start, evs).consumed <= k
  {
    FrameIsCorrect(done, start, evs);
  }

  /**
   * When no line completes the reply before the deadline, the reply is every
   * line read so far followed by the timeout marker, once.
   */
  lemma FrameTimeout(done: string -> bool, start: nat, evs: seq<Event>)
    requires evs != [] && Quiet(evs[..|evs| - 1], done, start) && Late(evs[|evs| - 1], start)
    ensures Frame(done, start, evs) == Framed(LinesRead(evs[..|evs| - 1]) + TimeoutMarker, |evs| - 1, true, [evs[|evs| - 1]])
  {
    var n := |evs| - 1;
    QuietPrefixRead(done, start, evs, n);
    FrameHonoursDeadline(done, start, evs, n);
    FrameIsCorrect(done, start, evs);
    var r := Frame(done, start, evs);
    assert r.consumed == n;
    if 0 < n {
      assert evs[..n][n - 1] == evs[n - 1];
      assert !EndedBy(evs, n, done);
    }
    assert r.timedOut;
  }
}
