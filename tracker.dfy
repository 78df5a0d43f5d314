/**
 * The state tracker: after each command, the session's lifecycle state and
 * current location are inferred from substrings of the framed reply.
 */
module Tracker {
  import opened Wrappers
  import opened Text

  /** The lifecycle of the program under the debugger. */
  datatype DebugState = NotLoaded | Loaded | Running | Stopped | Crashed | Completed

  /** The `Debug` rendering of a state: the variant's name. */
  function VariantName(s: DebugState): string {
    match s
    case NotLoaded => "NotLoaded"
    case Loaded => "Loaded"
    case Running => "Running"
    case Stopped => "Stopped"
    case Crashed => "Crashed"
    case Completed => "Completed"
  }

  function LowerChar(c: char): char {
    if 'A' <= c <= 'Z' then (c as int - 'A' as int + 'a' as int) as char else c
  }

  /** `to_lowercase` on the ASCII text it is applied to here. */
  function Lowercase(s: string): (r: string)
    ensures |r| == |s| && forall i :: 0 <= i < |s| ==> r[i] == LowerChar(s[i])
  {
    if s == [] then [] else [LowerChar(s[0])] + Lowercase(s[1..])
  }

  /** How results render a state: the lower-cased variant name. */
  function StateName(s: DebugState): string {
    Lowercase(VariantName(s))
  }

  /** The six rendered names, among them "notloaded" (not "not_loaded"). */
  lemma StateNameOf(s: DebugState)
    ensures StateName(s) == match s
      case NotLoaded => "notloaded"
      case Loaded => "loaded"
      case Running => "running"
      case Stopped => "stopped"
      case Crashed => "crashed"
      case Completed => "completed"
  {
    match s
    case NotLoaded => NameOfNotLoaded();
    case Loaded => NameOfLoaded();
    case Running => NameOfRunning();
    case Stopped => NameOfStopped();
    case Crashed => NameOfCrashed();
    case Completed => NameOfCompleted();
  }

  lemma NameOfNotLoaded() ensures StateName(NotLoaded) == "notloaded" {}
  lemma NameOfLoaded() ensures StateName(Loaded) == "loaded" {}
  lemma NameOfRunning() ensures StateName(Running) == "running" {}
  lemma NameOfStopped() ensures StateName(Stopped) == "stopped" {}
  lemma NameOfCrashed() ensures StateName(Crashed) == "crashed" {}
  lemma NameOfCompleted() ensures StateName(Completed) == "completed" {}

  /** Distinct states render differently, so a rendered name determines the state. */
  lemma StateNameInjective(a: DebugState, b: DebugState)
    ensures StateName(a) == StateName(b) ==> a == b
  {
    StateNameOf(a);
    StateNameOf(b);
  }

  predicate HasProcess(response: string, word: string) {
    Contains(response, "Process") && Contains(response, word)
  }

  /** The reply reports a fatal end of the program. */
  predicate ReportsCrash(response: string) {
    Contains(response, "crashed") || Contains(response, "SIGSEGV") || Contains(response, "SIGABRT")
  }

  /** `update_session_state`, state part: the first pattern that matches decides. */
  function NextState(prior: DebugState, response: string): DebugState {
    if HasProcess(response, "launched") then Running
    else if HasProcess(response, "stopped") then Stopped
    else if HasProcess(response, "exited") then Completed
    else if ReportsCrash(response) then Crashed
    else prior
  }

  /** Some lifecycle pattern occurs in the reply. */
  predicate ReportsTransition(response: string) {
    HasProcess(response, "launched") || HasProcess(response, "stopped")
    || HasProcess(response, "exited") || ReportsCrash(response)
  }

  /**
   * The priority of the patterns, stated outcome by outcome: each outcome
   * holds exactly when its pattern matches and no earlier one does, and the
   * state is left alone exactly when nothing matches.
   */
  lemma TrackerPriority(prior: DebugState, response: string)
    ensures var r := NextState(prior, response);
      && (ReportsTransition(response) ==>
           && (r == Running <==> HasProcess(response, "launched"))
           && (r == Stopped <==> !HasProcess(response, "launched") && HasProcess(response, "stopped"))
           && (r == Completed <==> !HasProcess(response, "launched") && !HasProcess(response, "stopped")
                                   && HasProcess(response, "exited"))
           && (r == Crashed <==> !HasProcess(response, "launched") && !HasProcess(response, "stopped")
                                 && !HasProcess(response, "exited") && ReportsCrash(response)))
      && (!ReportsTransition(response) ==> r == prior)
  {
  }

  /** Once a pattern matches, the new state does not depend on the prior one. */
  lemma NextStateIgnoresOldState(a: DebugState, b: DebugState, response: string)
    requires ReportsTransition(response)
    ensures NextState(a, response) == NextState(b, response)
  {
  }

  /** The tracker never infers NotLoaded or Loaded, and feeding it the same reply twice changes nothing more. */
  lemma NextStateIdempotent(prior: DebugState, response: string)
    ensures var r := NextState(prior, response);
            && NextState(r, response) == r
            && (r in {NotLoaded, Loaded} ==> r == prior)
  {
  }

  // ---------------------------------------------------------------------
  // Location extraction

  const AtMark: string := " at "

  /** The piece of `line.split(" at ")` that follows the match at `i`. */
  function PieceAfter(line: string, i: nat): string
    requires MatchAt(line, AtMark, i)
  {
    match IndexOf(line, AtMark, i + |AtMark|)
    case None => line[i + |AtMark|..]
    case Some(j) => line[i + |AtMark|..j]
  }

  /** One line's candidate location: the first token of the text after its first " at ". */
  function LineLocation(line: string): Option<string> {
    match IndexOf(line, AtMark, 0)
    case None => None
    case Some(i) => FirstToken(PieceAfter(line, i))
  }

  /** `i` is where " at " first occurs in `line`. */
  ghost predicate FirstAt(line: string, i: nat) {
    MatchAt(line, AtMark, i) && forall k: nat :: k < i ==> !MatchAt(line, AtMark, k)
  }

  /** What a location token is: non-empty, with no whitespace. */
  predicate IsLocationToken(t: string) {
    t != [] && NoWhitespace(t)
  }

  /**
   * `t` sits in `line` as extraction finds it: `i` is the first " at ", only
   * whitespace lies between it and `t` (which starts at `j`), `t` is
   * followed by whitespace or the end of the line, and no further " at "
   * begins before `t` ends.
   */
  ghost predicate LocatedAt(line: string, i: nat, j: nat, t: string) {
    && FirstAt(line, i) && i + |AtMark| <= j && j + |t| <= |line|
    && AllWhitespace(line[i + |AtMark|..j]) && line[j..j + |t|] == t
    && (j + |t| < |line| ==> IsWhitespace(line[j + |t|]))
    && forall k: nat :: i + |AtMark| <= k < j + |t| ==> !MatchAt(line, AtMark, k)
  }

  /**
   * The piece after the " at " at `i` runs to the next " at " or to the end
   * of the line, and holds no " at " of its own.
   */
  lemma PieceAfterBounds(line: string, i: nat)
    requires MatchAt(line, AtMark, i)
    ensures var p := PieceAfter(line, i);
            var end := i + |AtMark| + |p|;
            && end <= |line|
            && p == line[i + |AtMark|..end]
            && (end < |line| ==> IndexOf(line, AtMark, i + |AtMark|) == Some(end) && line[end] == ' ')
            && (end == |line| || MatchAt(line, AtMark, end))
            && forall k: nat :: i + |AtMark| <= k < end ==> !MatchAt(line, AtMark, k)
  {
    match IndexOf(line, AtMark, i + |AtMark|)
    case None =>
    case Some(j) =>
      assert line[j..j + |AtMark|][0] == line[j];
  }

  /** A token found in the piece after the first " at " sits in the line as `LocatedAt` says. */
  lemma LocatedFromPiece(line: string, i: nat, k: nat, t: string)
    requires FirstAt(line, i) && FirstTokenAt(PieceAfter(line, i), k, t)
    ensures LocatedAt(line, i, i + |AtMark| + k, t)
  {
    var p := PieceAfter(line, i);
    PieceAfterBounds(line, i);
    LocatedFromSlice(line, i, p, k, t);
  }

  /** `LocatedFromPiece` for any slice `p` after the " at " at `i` that ends at a space or the end of the line. */
  lemma LocatedFromSlice(line: string, i: nat, p: string, k: nat, t: string)
    requires FirstAt(line, i) && FirstTokenAt(p, k, t)
    requires i + |AtMark| + |p| <= |line| && p == line[i + |AtMark|..i + |AtMark| + |p|]
    requires i + |AtMark| + |p| < |line| ==> line[i + |AtMark| + |p|] == ' '
    requires forall k: nat :: i + |AtMark| <= k < i + |AtMark| + |p| ==> !MatchAt(line, AtMark, k)
    ensures LocatedAt(line, i, i + |AtMark| + k, t)
  {
    var start := i + |AtMark|;
    var j := start + k;
    SliceOfSlice(line, start, start + |p|, 0, k);
    SliceOfSlice(line, start, start + |p|, k, k + |t|);
    assert line[start..j] == p[..k];
    assert line[j..j + |t|] == p[k..k + |t|];
    if j + |t| < start + |p| {
      assert line[j + |t|] == p[k + |t|];
    }
  }

  /** A line yields a location only as `LocatedAt` describes it. */
  lemma LineLocationMeans(line: string)
    ensures LineLocation(line).Some? ==> Contains(line, AtMark)
    ensures LineLocation(line).Some? ==>
      var t := LineLocation(line).value;
      IsLocationToken(t) && exists i: nat, j: nat :: LocatedAt(line, i, j, t)
  {
    match IndexOf(line, AtMark, 0)
    case None =>
    case Some(i) =>
      match FirstToken(PieceAfter(line, i))
      case None =>
      case Some(t) =>
        FirstTokenMeans(PieceAfter(line, i));
        var k: nat :| FirstTokenAt(PieceAfter(line, i), k, t);
        LocatedFromPiece(line, i, k, t);
  }

  /**
   * The converse: once `i` is the first " at " of the line, the line yields
   * the first token of the piece after it, so a location exactly when that
   * piece is not all whitespace.
   */
  lemma LineLocationAt(line: string, i: nat)
    requires FirstAt(line, i)
    ensures LineLocation(line) == FirstToken(PieceAfter(line, i))
    ensures LineLocation(line).Some? <==> !AllWhitespace(PieceAfter(line, i))
  {
    assert IndexOf(line, AtMark, 0) == Some(i);
  }

  /** The first line of `lines` that yields a location decides. */
  function LocationIn(lines: seq<string>): (r: Option<string>)
    ensures r.Some? ==> IsLocationToken(r.value)
  {
    if lines == [] then None
    else match LineLocation(lines[0])
      case Some(t) =>
        assert IsLocationToken(t) by { LineLocationMeans(lines[0]); }
        Some(t)
      case None => LocationIn(lines[1..])
  }

  /** `extract_location_from_response` */
  function ExtractLocation(response: string): (r: Option<string>)
    ensures r.Some? ==> IsLocationToken(r.value)
  {
    LocationIn(Lines(response))
  }

  /**
   * `LocationIn` finds the earliest line that yields a location, and is None
   * exactly when no line does.
   */
  lemma LocationInFirstMatch(lines: seq<string>)
    ensures LocationIn(lines).None? <==> forall k :: 0 <= k < |lines| ==> LineLocation(lines[k]).None?
    ensures LocationIn(lines).Some? ==>
      exists k :: 0 <= k < |lines| && LineLocation(lines[k]) == LocationIn(lines)
                  && forall j :: 0 <= j < k ==> LineLocation(lines[j]).None?
  {
    LocationInNone(lines);
    LocationInSome(lines);
  }

  /** `LocationIn` is None exactly when no line yields a location. */
  lemma {:induction false} LocationInNone(lines: seq<string>)
    ensures LocationIn(lines).None? <==> forall k :: 0 <= k < |lines| ==> LineLocation(lines[k]).None?
  {
    if lines != [] && LineLocation(lines[0]).None? {
      var tail := lines[1..];
      assert LocationIn(lines) == LocationIn(tail);
      LocationInNone(tail);
      if forall k :: 0 <= k < |tail| ==> LineLocation(tail[k]).None? {
        forall k | 0 <= k < |lines| ensures LineLocation(lines[k]).None? {
          if k > 0 { assert lines[k] == tail[k - 1]; }
        }
      } else {
        var k :| 0 <= k < |tail| && LineLocation(tail[k]).Some?;
        assert lines[k + 1] == tail[k];
      }
    }
  }

  /** When `LocationIn` finds a location, it is that of the earliest line yielding one. */
  lemma {:induction false} LocationInSome(lines: seq<string>)
    ensures LocationIn(lines).Some? ==>
      exists k :: 0 <= k < |lines| && LineLocation(lines[k]) == LocationIn(lines)
                  && forall j :: 0 <= j < k ==> LineLocation(lines[j]).None?
  {
    if lines != [] && LineLocation(lines[0]).None? {
      var tail := lines[1..];
      assert LocationIn(lines) == LocationIn(tail);
      LocationInSome(tail);
      if LocationIn(tail).Some? {
        var k :| 0 <= k < |tail| && LineLocation(tail[k]) == LocationIn(tail)
                 && forall j :: 0 <= j < k ==> LineLocation(tail[j]).None?;
        assert lines[k + 1] == tail[k];
        forall j | 0 <= j < k + 1 ensures LineLocation(lines[j]).None? {
          if j > 0 { assert lines[j] == tail[j - 1]; }
        }
      }
    } else if lines != [] {
      assert LineLocation(lines[0]) == LocationIn(lines);
    }
  }

  /** `update_session_state`, location part. */
  function NewLocation(prior: Option<string>, response: string): Option<string> {
    if Contains(response, "stop reason") then
      match ExtractLocation(response)
      case Some(location) => Some(location)
      case None => prior
    else prior
  }

  /**
   * The location changes only when the reply mentions "stop reason" and a
   * location is found in it; it then becomes that location. A well-formed
   * location stays well formed.
   */
  lemma LocationUpdate(prior: Option<string>, response: string)
    ensures var r := NewLocation(prior, response);
            && (r != prior ==> Contains(response, "stop reason") && ExtractLocation(response) == r && r.Some?)
            && (Contains(response, "stop reason") && ExtractLocation(response).Some? ==> r == ExtractLocation(response))
            && (prior.Some? ==> r.Some?)
            && ((prior.Some? ==> IsLocationToken(prior.value)) ==> (r.Some? ==> IsLocationToken(r.value)))
  {
  }
}
