/**
 * The few operations on Rust's `str` that the engine relies on, with their
 * Rust meaning: `contains`, `starts_with`, `trim`, `lines` and the first item
 * of `split_whitespace`. Strings are sequences of Unicode scalar values.
 */
module Text {
  import opened Wrappers

  /** `char::is_whitespace`: the Unicode White_Space property. */
  predicate IsWhitespace(c: char) {
    c == ' ' || ('\t' <= c <= '\r') || c == '\U{0085}' || c == '\U{00A0}' || c == '\U{1680}'
    || ('\U{2000}' <= c <= '\U{200A}') || c == '\U{2028}' || c == '\U{2029}' || c == '\U{202F}'
    || c == '\U{205F}' || c == '\U{3000}'
  }

  predicate AllWhitespace(s: string) {
    forall i :: 0 <= i < |s| ==> IsWhitespace(s[i])
  }

  predicate NoWhitespace(s: string) {
    forall i :: 0 <= i < |s| ==> !IsWhitespace(s[i])
  }

  /** `s.starts_with(prefix)` */
  predicate StartsWith(s: string, prefix: string) {
    |prefix| <= |s| && s[..|prefix|] == prefix
  }

  /** `pat` occurs in `s` starting at index `i`. */
  predicate MatchAt(s: string, pat: string, i: nat) {
    i + |pat| <= |s| && s[i..i + |pat|] == pat
  }

  /** `s[from..].find(pat)`, as an absolute index: the leftmost occurrence at or after `from`. */
  function IndexOf(s: string, pat: string, from: nat): (r: Option<nat>)
    ensures r.Some? ==> from <= r.value && MatchAt(s, pat, r.value)
    ensures forall j: nat :: from <= j && (r.None? || j < r.value) ==> !MatchAt(s, pat, j)
    decreases |s| - from
  {
    if from + |pat| > |s| then None
    else if MatchAt(s, pat, from) then Some(from)
    else IndexOf(s, pat, from + 1)
  }

  /** `s.contains(pat)` */
  predicate Contains(s: string, pat: string) {
    IndexOf(s, pat, 0).Some?
  }

  /** `Contains` means that the pattern occurs somewhere. */
  lemma ContainsMeans(s: string, pat: string)
    ensures Contains(s, pat) <==> exists j: nat :: MatchAt(s, pat, j)
  {
    var r := IndexOf(s, pat, 0);
    if r.Some? {
      assert MatchAt(s, pat, r.value);
    }
  }

  /** `s.trim_start()`; `TrimStartMeans` says which suffix of `s` it is. */
  function TrimStart(s: string): (r: string)
    ensures |r| <= |s|
    ensures r != [] ==> !IsWhitespace(r[0])
  {
    if s != [] && IsWhitespace(s[0]) then TrimStart(s[1..]) else s
  }

  /** `TrimStart` drops exactly the leading whitespace. */
  lemma {:induction false} TrimStartMeans(s: string)
    ensures var r := TrimStart(s); r == s[|s| - |r|..] && AllWhitespace(s[..|s| - |r|])
    decreases |s|
  {
    if s != [] && IsWhitespace(s[0]) {
      var r := TrimStart(s[1..]);
      TrimStartMeans(s[1..]);
      assert s[1..][|s| - 1 - |r|..] == s[|s| - |r|..];
      assert s[..|s| - |r|] == [s[0]] + s[1..][..|s| - 1 - |r|];
    }
  }

  /** `s.trim_end()`; `TrimEndMeans` says which prefix of `s` it is. */
  function TrimEnd(s: string): (r: string)
    ensures |r| <= |s|
    ensures r != [] ==> !IsWhitespace(r[|r| - 1])
  {
    if s != [] && IsWhitespace(s[|s| - 1]) then TrimEnd(s[..|s| - 1]) else s
  }

  /** `TrimEnd` drops exactly the trailing whitespace. */
  lemma {:induction false} TrimEndMeans(s: string)
    ensures var r := TrimEnd(s); r == s[..|r|] && AllWhitespace(s[|r|..])
    decreases |s|
  {
    if s != [] && IsWhitespace(s[|s| - 1]) {
      var r := TrimEnd(s[..|s| - 1]);
      TrimEndMeans(s[..|s| - 1]);
      assert s[..|s| - 1][..|r|] == s[..|r|];
      assert s[|r|..] == s[..|s| - 1][|r|..] + [s[|s| - 1]];
    }
  }

  /** `s.trim()`: `s` without its leading and trailing whitespace. */
  function Trim(s: string): string {
    TrimEnd(TrimStart(s))
  }

  /** `r` is `s[i..]` cut to `|r|` characters, with only whitespace around it. */
  ghost predicate TrimmedAt(s: string, r: string, i: nat) {
    i + |r| <= |s| && r == s[i..i + |r|] && AllWhitespace(s[..i]) && AllWhitespace(s[i + |r|..])
  }

  /** `Trim` keeps a slice of its input and drops only whitespace around it. */
  lemma TrimMeans(s: string)
    ensures var r := Trim(s);
            && (exists i: nat :: TrimmedAt(s, r, i))
            && (r != [] ==> !IsWhitespace(r[0]) && !IsWhitespace(r[|r| - 1]))
  {
    TrimIsSlice(s);
    TrimEdges(s);
  }

  /** Where `Trim(s)` sits in `s`. */
  lemma TrimIsSlice(s: string)
    ensures TrimmedAt(s, Trim(s), |s| - |TrimStart(s)|)
  {
    TrimStartMeans(s);
    TrimEndMeans(TrimStart(s));
    TrimmedAtFrom(s, TrimStart(s), Trim(s));
  }

  /** `r` cut from the front of a suffix `t` of `s`, with only whitespace before `t` and after `r`. */
  lemma TrimmedAtFrom(s: string, t: string, r: string)
    requires |t| <= |s| && t == s[|s| - |t|..] && AllWhitespace(s[..|s| - |t|])
    requires |r| <= |t| && r == t[..|r|] && AllWhitespace(t[|r|..])
    ensures TrimmedAt(s, r, |s| - |t|)
  {
    var i := |s| - |t|;
    SuffixSlices(s, i, |r|);
  }

  /** `Trim(s)` neither starts nor ends with whitespace. */
  lemma TrimEdges(s: string)
    ensures var r := Trim(s); r != [] ==> !IsWhitespace(r[0]) && !IsWhitespace(r[|r| - 1])
  {
    var t := TrimStart(s);
    var r := TrimEnd(t);
    if r != [] {
      TrimEndMeans(t);
      assert r[0] == t[0];
    }
  }

  /** Concatenation regroups freely. */
  lemma AppendAssoc(a: string, b: string, c: string)
    ensures a + b + c == a + (b + c)
  {
  }

  /** The front and the rest of a suffix are slices of the whole. */
  lemma SuffixSlices<T>(s: seq<T>, a: nat, b: nat)
    requires a + b <= |s|
    ensures s[a..][..b] == s[a..a + b] && s[a..][b..] == s[a + b..]
  {
  }

  /** A slice of a slice is a slice of the whole. */
  lemma SliceOfSlice(s: string, a: nat, b: nat, c: nat, d: nat)
    requires a <= b <= |s| && c <= d <= b - a
    ensures s[a..b][c..d] == s[a + c..a + d]
  {
    assert forall k :: 0 <= k < d - c ==> s[a..b][c..d][k] == s[a + c + k];
  }

  /** Length of the longest prefix of `s` without whitespace. */
  function RunLength(s: string): (n: nat)
    ensures n <= |s| && NoWhitespace(s[..n])
    ensures n < |s| ==> IsWhitespace(s[n])
  {
    if s == [] || IsWhitespace(s[0]) then 0
    else
      var n := RunLength(s[1..]);
      assert s[..n + 1] == [s[0]] + s[1..][..n];
      n + 1
  }

  /** `t` is a whitespace-delimited token of `s` starting at `i`, with only whitespace before it. */
  ghost predicate FirstTokenAt(s: string, i: nat, t: string) {
    && i + |t| <= |s|
    && AllWhitespace(s[..i])
    && s[i..i + |t|] == t
    && (i + |t| < |s| ==> IsWhitespace(s[i + |t|]))
  }

  /** `s.split_whitespace().next()`; `FirstTokenMeans` says where the token sits. */
  function FirstToken(s: string): (r: Option<string>)
    ensures r.None? <==> AllWhitespace(s)
    ensures r.Some? ==> r.value != [] && NoWhitespace(r.value)
  {
    var t := TrimStart(s);
    TrimStartMeans(s);
    if t == [] then
      assert s[..|s| - |t|] == s;
      None
    else
      assert s[|s| - |t|] == t[0];
      Some(t[..RunLength(t)])
  }

  /** The first token has only whitespace before it, and whitespace or the end of `s` after it. */
  lemma FirstTokenMeans(s: string)
    ensures FirstToken(s).Some? ==> exists i: nat :: FirstTokenAt(s, i, FirstToken(s).value)
  {
    var t := TrimStart(s);
    if t != [] {
      TrimStartMeans(s);
      var i := |s| - |t|;
      var tok := t[..RunLength(t)];
      SuffixSlices(s, i, |tok|);
      if i + |tok| < |s| {
        assert s[i + |tok|] == t[|tok|];
      }
      assert FirstTokenAt(s, i, tok);
    }
  }

  /** Drops one trailing carriage return. */
  function StripCr(line: string): (r: string)
    ensures r == line || (line == r + "\r")
  {
    if line != [] && line[|line| - 1] == '\r' then line[..|line| - 1] else line
  }

  /**
   * `s.lines()`: split at each "\n", dropping a "\r" just before it; a final
   * "\n" does not start another (empty) line.
   */
  function Lines(s: string): (r: seq<string>)
    ensures forall k :: 0 <= k < |r| ==> '\n' !in r[k]
    ensures |r| <= |s|
    decreases |s|
  {
    if s == [] then []
    else match IndexOf(s, "\n", 0)
      case None =>
        NoNewlineBefore(s, |s|);
        [s]
      case Some(i) =>
        NoNewlineBefore(s, i);
        [StripCr(s[..i])] + Lines(s[i + 1..])
  }

  /** No newline before `n` when "\n" matches nowhere before `n`. */
  lemma NoNewlineBefore(s: string, n: nat)
    requires n <= |s|
    requires forall k: nat :: k < n ==> !MatchAt(s, "\n", k)
    ensures '\n' !in s[..n]
  {
    forall k | 0 <= k < n ensures s[k] != '\n' {
      assert !MatchAt(s, "\n", k);
      assert s[k..k + 1] == [s[k]];
    }
  }

  /** A character that is absent from the first `n` characters matches nowhere before `n`. */
  lemma AbsentBefore(s: string, c: char, n: nat)
    requires n <= |s| && c !in s[..n]
    ensures forall k: nat :: k < n ==> !MatchAt(s, [c], k)
  {
    forall k: nat | k < n ensures !MatchAt(s, [c], k) {
      assert s[..n][k] == s[k];
    }
  }

  /** A text with no newline is a single line (or none when empty). */
  lemma LinesOfOneLine(s: string)
    requires '\n' !in s
    ensures Lines(s) == if s == [] then [] else [s]
  {
    assert s[..|s|] == s;
    AbsentBefore(s, '\n', |s|);
    assert IndexOf(s, "\n", 0).None?;
  }

  /** Splitting a line and its newline off the front of a text. */
  lemma LinesCons(line: string, rest: string)
    requires '\n' !in line
    ensures Lines(line + "\n" + rest) == [StripCr(line)] + Lines(rest)
  {
    var s := line + "\n" + rest;
    assert MatchAt(s, "\n", |line|);
    assert s[..|line|] == line;
    AbsentBefore(s, '\n', |line|);
    assert IndexOf(s, "\n", 0) == Some(|line|);
    assert s[|line| + 1..] == rest;
  }
}
