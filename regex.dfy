/**
 * The handful of regular expressions the text utilities use, with the
 * semantics of section 22.2 of ECMA-262: a match is tried at each index from
 * left to right, quantifiers are greedy and give back characters one at a time
 * (backtracking) until the rest of the pattern matches. None of these patterns
 * can match the empty string, so a global search simply resumes where the
 * previous match ended.
 */
module Regex {
  import opened Wrappers
  import opened JsString

  /** `\w` without the `u` flag. */
  predicate IsWordChar(c: char) {
    ('a' <= c <= 'z') || ('A' <= c <= 'Z') || ('0' <= c <= '9') || c == '_'
  }

  predicate IsSentenceEnd(c: char) {
    c == '.' || c == '!' || c == '?'
  }

  datatype CharClass = Space | LineFeed | SentenceEnd | Word

  predicate InClass(c: char, k: CharClass) {
    match k
    case Space => IsWhitespace(c)
    case LineFeed => c == '\n'
    case SentenceEnd => IsSentenceEnd(c)
    case Word => IsWordChar(c)
  }

  /** Where a greedy `k*` started at `i` stops: the end of the run of class `k`. */
  function RunEnd(s: string, i: nat, k: CharClass): (e: nat)
    requires i <= |s|
    ensures i <= e <= |s|
    ensures forall j :: i <= j < e ==> InClass(s[j], k)
    ensures e == |s| || !InClass(s[e], k)
    decreases |s| - i
  {
    if i < |s| && InClass(s[i], k) then RunEnd(s, i + 1, k) else i
  }

  /** Backtracking `\s*` back from `hi` until an LF follows: the last LF in `s[lo..hi]`. */
  function LastLineFeed(s: string, lo: nat, hi: nat): (r: Option<nat>)
    requires lo <= hi <= |s|
    ensures r.Some? ==> lo <= r.value < hi && s[r.value] == '\n'
    ensures r.Some? ==> forall j :: r.value < j < hi ==> s[j] != '\n'
    ensures r.None? ==> forall j :: lo <= j < hi ==> s[j] != '\n'
    decreases hi - lo
  {
    if hi == lo then None
    else if s[hi - 1] == '\n' then Some(hi - 1)
    else LastLineFeed(s, lo, hi - 1)
  }

  /** The assertion `^` under the `m` flag holds at index `j`. */
  predicate AtLineStart(s: string, j: nat) {
    j == 0 || (j <= |s| && IsLineTerminator(s[j - 1]))
  }

  /** The assertion `$` under the `m` flag holds at index `j`. */
  predicate AtLineEnd(s: string, j: nat) {
    j == |s| || (j < |s| && IsLineTerminator(s[j]))
  }

  /** Backtracking `\s+` back from `hi` until `$` holds: the largest such end above `i`. */
  function LastLineEnd(s: string, i: nat, hi: nat): (r: Option<nat>)
    requires i <= hi <= |s|
    ensures r.Some? ==> i < r.value <= hi && AtLineEnd(s, r.value)
    ensures r.Some? ==> forall j :: r.value < j <= hi ==> !AtLineEnd(s, j)
    ensures r.None? ==> forall j :: i < j <= hi ==> !AtLineEnd(s, j)
    decreases hi - i
  {
    if hi == i then None
    else if AtLineEnd(s, hi) then Some(hi)
    else LastLineEnd(s, i, hi - 1)
  }

  /** The patterns of apps/server/src/utils/text.ts. */
  datatype Pattern =
    | CrLf            // /\r\n/
    | LineFeedRun3    // /\n{3,}/
    | BlankLine       // /\n\s*\n/
    | LineEdgeSpace   // /^\s+|\s+$/ with the m flag
    | SpaceRun        // /\s+/
    | SentenceEndRun  // /[.!?]+/
    | Hashtag         // /#\w+/
    | LineFeedSep     // the string separator '\n'

  /**
   * The end of the match of `p` that starts exactly at index `q`, if any.
   * Every match is non-empty.
   */
  function MatchAt(p: Pattern, s: string, q: nat): (m: Option<nat>)
    ensures m.Some? ==> q < m.value <= |s|
  {
    if q >= |s| then None
    else match p
      case CrLf =>
        if s[q] == '\r' && q + 1 < |s| && s[q + 1] == '\n' then Some(q + 2) else None
      case LineFeedRun3 =>
        var e := RunEnd(s, q, LineFeed);
        if e - q >= 3 then Some(e) else None
      case BlankLine =>
        if s[q] != '\n' then None
        else (match LastLineFeed(s, q + 1, RunEnd(s, q + 1, Space))
              case Some(k) => Some(k + 1)
              case None => None)
      case LineEdgeSpace =>
        if !IsWhitespace(s[q]) then None
        else if AtLineStart(s, q) then Some(RunEnd(s, q, Space))
        else LastLineEnd(s, q, RunEnd(s, q, Space))
      case SpaceRun =>
        if IsWhitespace(s[q]) then Some(RunEnd(s, q, Space)) else None
      case SentenceEndRun =>
        if IsSentenceEnd(s[q]) then Some(RunEnd(s, q, SentenceEnd)) else None
      case Hashtag =>
        if s[q] == '#' && q + 1 < |s| && IsWordChar(s[q + 1]) then Some(RunEnd(s, q + 1, Word)) else None
      case LineFeedSep =>
        if s[q] == '\n' then Some(q + 1) else None
  }

  /** `s.replace(p, rep)` with the `g` flag, from index `q` on. */
  function ReplaceFrom(p: Pattern, s: string, rep: string, q: nat): string
    requires q <= |s|
    decreases |s| - q
  {
    if q == |s| then ""
    else match MatchAt(p, s, q)
      case Some(e) => rep + ReplaceFrom(p, s, rep, e)
      case None => [s[q]] + ReplaceFrom(p, s, rep, q + 1)
  }

  function ReplaceAll(p: Pattern, s: string, rep: string): string {
    ReplaceFrom(p, s, rep, 0)
  }

  /**
   * `s.split(p)` from index `q` on, with the segment in progress starting at
   * `start`.
   */
  function SplitFrom(p: Pattern, s: string, start: nat, q: nat): (r: seq<string>)
    requires start <= q <= |s|
    ensures |r| >= 1
    decreases |s| - q
  {
    if q == |s| then [s[start..]]
    else match MatchAt(p, s, q)
      case Some(e) => [s[start..q]] + SplitFrom(p, s, e, e)
      case None => SplitFrom(p, s, start, q + 1)
  }

  function Split(p: Pattern, s: string): (r: seq<string>)
    ensures |r| >= 1
  {
    SplitFrom(p, s, 0, 0)
  }

  /** The number of matches a global `s.match(p)` finds from index `q` on. */
  function CountFrom(p: Pattern, s: string, q: nat): nat
    requires q <= |s|
    decreases |s| - q
  {
    if q == |s| then 0
    else match MatchAt(p, s, q)
      case Some(e) => 1 + CountFrom(p, s, e)
      case None => CountFrom(p, s, q + 1)
  }

  function CountMatches(p: Pattern, s: string): nat {
    CountFrom(p, s, 0)
  }

  /** Where no match starts, a global replace copies the input. */
  lemma {:induction false} ReplaceWithoutMatch(p: Pattern, s: string, rep: string, q: nat)
    requires q <= |s|
    requires forall j :: q <= j < |s| ==> MatchAt(p, s, j).None?
    ensures ReplaceFrom(p, s, rep, q) == s[q..]
    decreases |s| - q
  {
    if q < |s| {
      ReplaceWithoutMatch(p, s, rep, q + 1);
      assert s[q..] == [s[q]] + s[q + 1..];
    }
  }

  /** Where no match starts, a split yields the whole input as one segment. */
  lemma {:induction false} SplitWithoutMatch(p: Pattern, s: string, start: nat, q: nat)
    requires start <= q <= |s|
    requires forall j :: q <= j < |s| ==> MatchAt(p, s, j).None?
    ensures SplitFrom(p, s, start, q) == [s[start..]]
    decreases |s| - q
  {
    if q < |s| {
      SplitWithoutMatch(p, s, start, q + 1);
    }
  }

  /** The patterns whose matches consist of whitespace only. */
  predicate MatchesWhitespace(p: Pattern) {
    p.CrLf? || p.LineFeedRun3? || p.BlankLine? || p.LineEdgeSpace? || p.SpaceRun?
  }

  lemma MatchIsWhitespace(p: Pattern, s: string, q: nat)
    requires MatchesWhitespace(p) && MatchAt(p, s, q).Some?
    ensures AllWhitespace(s[q..MatchAt(p, s, q).value])
  {
    var e := MatchAt(p, s, q).value;
    if p.BlankLine? {
      assert RunEnd(s, q + 1, Space) >= e - 1;
    }
  }

  /**
   * Replacing whitespace matches by whitespace keeps every other character,
   * in order.
   */
  lemma {:induction false} ReplaceKeepsVisible(p: Pattern, s: string, rep: string, q: nat)
    requires q <= |s|
    requires MatchesWhitespace(p) && AllWhitespace(rep)
    ensures Visible(ReplaceFrom(p, s, rep, q)) == Visible(s[q..])
    decreases |s| - q
  {
    if q < |s| {
      match MatchAt(p, s, q)
      case Some(e) =>
        ReplaceKeepsVisible(p, s, rep, e);
        MatchIsWhitespace(p, s, q);
        VisibleConcat(rep, ReplaceFrom(p, s, rep, e));
        VisibleOfBlank(rep);
        VisibleSkipBlank(s, q, e);
      case None =>
        ReplaceKeepsVisible(p, s, rep, q + 1);
        VisibleCons(s[q], ReplaceFrom(p, s, rep, q + 1));
        assert s[q..] == [s[q]] + s[q + 1..];
        VisibleCons(s[q], s[q + 1..]);
    }
  }
}
