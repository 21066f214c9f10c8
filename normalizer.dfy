/**
 * `cleanText` and `preserveFormatting` (apps/server/src/utils/text.ts): the
 * two chains of global replaces, followed by `trim`, that every extracted text
 * passes through before it is analysed.
 */
module Normalizer {
  import opened Wrappers
  import opened JsString
  import opened Regex

  /** No three LF characters in a row. */
  predicate NoLineFeedRun3(t: string) {
    forall i :: 0 <= i < |t| - 2 ==> !(t[i] == '\n' && t[i + 1] == '\n' && t[i + 2] == '\n')
  }

  /**
   * Every line terminator stands between two characters that are not
   * whitespace: no line of the text starts or ends with whitespace, and no
   * line is empty.
   */
  predicate LineTerminatorsFramed(t: string) {
    forall i :: 0 <= i < |t| && IsLineTerminator(t[i]) ==>
      0 < i < |t| - 1 && !IsWhitespace(t[i - 1]) && !IsWhitespace(t[i + 1])
  }

  /** cleanText: CR LF to LF, runs of three or more LF to two, then trim. */
  function CleanText(text: string): string {
    Trim(ReplaceAll(LineFeedRun3, ReplaceAll(CrLf, text, "\n"), "\n\n"))
  }

  /**
   * preserveFormatting: `\n\s*\n` to two LF, then every match of
   * `^\s+|\s+$` (multiline) removed, then trim.
   */
  function PreserveFormatting(text: string): string {
    Trim(ReplaceAll(LineEdgeSpace, ReplaceAll(BlankLine, text, "\n\n"), ""))
  }

  // ---------------------------------------------------------------------------
  // CR LF normalisation

  /** Reference definition: delete every CR that an LF follows. */
  function DropCrBeforeLf(s: string): string
    decreases |s|
  {
    if s == [] then ""
    else (if s[0] == '\r' && |s| > 1 && s[1] == '\n' then "" else [s[0]]) + DropCrBeforeLf(s[1..])
  }

  lemma {:induction false} CrLfReplaceFrom(s: string, q: nat)
    requires q <= |s|
    ensures ReplaceFrom(CrLf, s, "\n", q) == DropCrBeforeLf(s[q..])
    decreases |s| - q
  {
    if q < |s| {
      var t := s[q..];
      assert t[1..] == s[q + 1..];
      if MatchAt(CrLf, s, q).Some? {
        CrLfReplaceFrom(s, q + 2);
        assert t[1..][1..] == s[q + 2..];
        assert DropCrBeforeLf(t[1..]) == "\n" + DropCrBeforeLf(s[q + 2..]);
      } else {
        CrLfReplaceFrom(s, q + 1);
      }
    }
  }

  /** The first replace of cleanText turns each CR LF into LF and changes nothing else. */
  lemma CrLfNormalised(s: string)
    ensures ReplaceAll(CrLf, s, "\n") == DropCrBeforeLf(s)
  {
    CrLfReplaceFrom(s, 0);
    assert s[0..] == s;
  }

  // ---------------------------------------------------------------------------
  // Collapsing runs of LF

  function LineFeeds(n: nat): string {
    seq(n, _ => '\n')
  }

  /** From any index, the collapse emits min(n, 2) LFs for the n LFs found there. */
  lemma {:induction false} CollapseRun(s: string, q: nat)
    requires q < |s| && s[q] == '\n'
    ensures var e := RunEnd(s, q, LineFeed);
      ReplaceFrom(LineFeedRun3, s, "\n\n", q) ==
        LineFeeds(if e - q >= 3 then 2 else e - q) + ReplaceFrom(LineFeedRun3, s, "\n\n", e)
    decreases |s| - q
  {
    var e := RunEnd(s, q, LineFeed);
    if e - q < 3 {
      assert RunEnd(s, q + 1, LineFeed) == e;
      if q + 1 < |s| && s[q + 1] == '\n' {
        CollapseRun(s, q + 1);
        assert LineFeeds(e - q) == "\n" + LineFeeds(e - q - 1);
      } else {
        assert LineFeeds(1) == "\n";
      }
    } else {
      assert LineFeeds(2) == "\n\n";
    }
  }

  lemma {:induction false} CollapseNoRun3(s: string, q: nat)
    requires q <= |s|
    ensures NoLineFeedRun3(ReplaceFrom(LineFeedRun3, s, "\n\n", q))
    decreases |s| - q
  {
    if q < |s| {
      if s[q] != '\n' {
        CollapseNoRun3(s, q + 1);
      } else {
        var e := RunEnd(s, q, LineFeed);
        var m := if e - q >= 3 then 2 else e - q;
        var rest := ReplaceFrom(LineFeedRun3, s, "\n\n", e);
        CollapseRun(s, q);
        CollapseNoRun3(s, e);
        assert rest != [] ==> rest[0] != '\n' by {
          if e < |s| { assert MatchAt(LineFeedRun3, s, e).None?; }
        }
        var out := LineFeeds(m) + rest;
        forall i | 0 <= i < |out| - 2 ensures !(out[i] == '\n' && out[i + 1] == '\n' && out[i + 2] == '\n') {
          if i < m {
            assert out[m] == rest[0];
          } else {
            assert out[i] == rest[i - m] && out[i + 1] == rest[i - m + 1] && out[i + 2] == rest[i - m + 2];
          }
        }
      }
    }
  }

  lemma SliceNoRun3(t: string, a: nat, b: nat)
    requires a <= b <= |t| && NoLineFeedRun3(t)
    ensures NoLineFeedRun3(t[a..b])
  {
    forall i | 0 <= i < b - a - 2
      ensures !(t[a..b][i] == '\n' && t[a..b][i + 1] == '\n' && t[a..b][i + 2] == '\n')
    {
      assert t[a..b][i] == t[a + i] && t[a..b][i + 1] == t[a + i + 1] && t[a..b][i + 2] == t[a + i + 2];
    }
  }

  /** cleanText returns trimmed text in which no three LF are adjacent. */
  lemma CleanTextShape(s: string)
    ensures IsTrimmed(CleanText(s)) && NoLineFeedRun3(CleanText(s))
  {
    var t := ReplaceAll(LineFeedRun3, ReplaceAll(CrLf, s, "\n"), "\n\n");
    CollapseNoRun3(ReplaceAll(CrLf, s, "\n"), 0);
    var a := LeadingWhitespace(t);
    SliceNoRun3(t, a, a + |Trim(t)|);
  }

  // ---------------------------------------------------------------------------
  // Idempotence of cleanText

  /** Every character a replace emits comes from its input or from the replacement. */
  lemma {:induction false} ReplaceChars(p: Pattern, s: string, rep: string, q: nat, c: char)
    requires q <= |s|
    requires c in ReplaceFrom(p, s, rep, q)
    ensures c in s[q..] || c in rep
    decreases |s| - q
  {
    match MatchAt(p, s, q)
    case Some(e) =>
      if c !in rep {
        ReplaceChars(p, s, rep, e, c);
        assert s[e..] == s[q..][e - q..];
      }
    case None =>
      if c != s[q] {
        ReplaceChars(p, s, rep, q + 1, c);
        assert s[q + 1..] == s[q..][1..];
      }
  }

  lemma CleanTextKeepsNoCr(s: string)
    requires '\r' !in s
    ensures '\r' !in CleanText(s)
  {
    var t1 := ReplaceAll(CrLf, s, "\n");
    var t2 := ReplaceAll(LineFeedRun3, t1, "\n\n");
    if '\r' in t1 { ReplaceChars(CrLf, s, "\n", 0, '\r'); }
    if '\r' in t2 { ReplaceChars(LineFeedRun3, t1, "\n\n", 0, '\r'); }
    var a := LeadingWhitespace(t2);
    assert CleanText(s) == t2[a..a + |CleanText(s)|];
  }

  lemma CollapseWithoutRun3(t: string)
    requires NoLineFeedRun3(t)
    ensures ReplaceAll(LineFeedRun3, t, "\n\n") == t
  {
    forall j | 0 <= j < |t| ensures MatchAt(LineFeedRun3, t, j).None? {
      var e := RunEnd(t, j, LineFeed);
      if j + 2 < |t| {
        assert !(t[j] == '\n' && t[j + 1] == '\n' && t[j + 2] == '\n');
      }
    }
    ReplaceWithoutMatch(LineFeedRun3, t, "\n\n", 0);
    assert t[0..] == t;
  }

  /** Text that cleanText leaves unchanged: trimmed, no CR, no three LF in a row. */
  lemma CleanTextFixedPoint(t: string)
    requires IsTrimmed(t) && NoLineFeedRun3(t) && '\r' !in t
    ensures CleanText(t) == t
  {
    forall j | 0 <= j < |t| ensures MatchAt(CrLf, t, j).None? {
      assert t[j] in t;
    }
    ReplaceWithoutMatch(CrLf, t, "\n", 0);
    assert t[0..] == t;
    CollapseWithoutRun3(t);
    TrimTrimmed(t);
  }

  /** cleanText is idempotent on text without CR. */
  lemma CleanTextIdempotent(s: string)
    requires '\r' !in s
    ensures CleanText(CleanText(s)) == CleanText(s)
  {
    CleanTextShape(s);
    CleanTextKeepsNoCr(s);
    CleanTextFixedPoint(CleanText(s));
  }

  lemma DropCrExample()
    ensures DropCrBeforeLf("a\r\r\nb") == "a\r\nb"
    ensures DropCrBeforeLf("a\r\nb") == "a\nb"
  {
    assert "a\r\r\nb"[1..] == "\r\r\nb" && "\r\r\nb"[1..] == "\r\nb";
    assert "a\r\nb"[1..] == "\r\nb" && "\r\nb"[1..] == "\nb";
    assert "\nb"[1..] == "b" && "b"[1..] == "";
  }

  lemma ExampleShapes()
    ensures NoLineFeedRun3("a\r\nb") && IsTrimmed("a\r\nb")
    ensures NoLineFeedRun3("a\nb") && IsTrimmed("a\nb")
  {
  }

  /** When dropping CR before LF leaves trimmed text without a run of three LF, that is the result. */
  lemma CleanTextViaDropCr(s: string, u: string)
    requires DropCrBeforeLf(s) == u && NoLineFeedRun3(u) && IsTrimmed(u)
    ensures CleanText(s) == u
  {
    CrLfNormalised(s);
    CollapseWithoutRun3(u);
    TrimTrimmed(u);
  }

  /**
   * With a CR in the input idempotence fails: "a\r\r\nb" cleans to "a\r\nb",
   * whose CR LF a second pass turns into LF.
   */
  lemma CleanTextNotIdempotent(s: string)
    requires s == "a\r\r\nb"
    ensures CleanText(s) == "a\r\nb"
    ensures CleanText(CleanText(s)) == "a\nb"
  {
    DropCrExample();
    ExampleShapes();
    CleanTextViaDropCr(s, "a\r\nb");
    CleanTextViaDropCr("a\r\nb", "a\nb");
  }

  // ---------------------------------------------------------------------------
  // preserveFormatting

  /**
   * No line terminator is next to whitespace, and the text does not end in
   * whitespace.
   */
  predicate NoSpaceAtLineBreaks(t: string) {
    (forall i :: 0 <= i < |t| - 1 ==>
       !(IsLineTerminator(t[i]) && IsWhitespace(t[i + 1])) &&
       !(IsWhitespace(t[i]) && IsLineTerminator(t[i + 1]))) &&
    (t == [] || !IsWhitespace(t[|t| - 1]))
  }

  function Strip(s: string, q: nat): string
    requires q <= |s|
  {
    ReplaceFrom(LineEdgeSpace, s, "", q)
  }

  /** A character that is not whitespace is never part of a match, so it is copied. */
  lemma StripVisibleChar(s: string, q: nat)
    requires q < |s| && !IsWhitespace(s[q])
    ensures Strip(s, q) == [s[q]] + Strip(s, q + 1)
  {
  }

  /**
   * Where `^\s+|\s+$` fails on whitespace, what follows is not empty and
   * starts with a character that cannot extend a line break by whitespace.
   */
  lemma StripAfterUnmatchedSpace(s: string, q: nat)
    requires q < |s| && IsWhitespace(s[q]) && MatchAt(LineEdgeSpace, s, q).None?
    ensures var t := Strip(s, q + 1);
      t != [] && (!IsWhitespace(t[0]) || (!IsLineTerminator(s[q]) && !IsLineTerminator(t[0])))
  {
    var r := RunEnd(s, q, Space);
    assert LastLineEnd(s, q, r).None?;
    assert r < |s| by { assert !AtLineEnd(s, r); }
    StripVisibleChar(s, r);
    if q + 1 < r {
      assert RunEnd(s, q + 1, Space) == r;
      if IsLineTerminator(s[q]) {
        assert MatchAt(LineEdgeSpace, s, q + 1) == Some(r);
        assert Strip(s, q + 1) == "" + Strip(s, r);
      } else {
        assert !AtLineEnd(s, q + 1);
        assert LastLineEnd(s, q + 1, r).None?;
        assert Strip(s, q + 1) == [s[q + 1]] + Strip(s, q + 2);
      }
    }
  }

  lemma {:induction false} StripShape(s: string, q: nat)
    requires q <= |s|
    ensures NoSpaceAtLineBreaks(Strip(s, q))
    decreases |s| - q
  {
    if q < |s| {
      match MatchAt(LineEdgeSpace, s, q)
      case Some(e) =>
        StripShape(s, e);
        assert Strip(s, q) == "" + Strip(s, e);
      case None =>
        StripShape(s, q + 1);
        var t := Strip(s, q + 1);
        var out := [s[q]] + t;
        assert Strip(s, q) == out;
        if IsWhitespace(s[q]) {
          StripAfterUnmatchedSpace(s, q);
        }
        forall i | 0 <= i < |out| - 1
          ensures !(IsLineTerminator(out[i]) && IsWhitespace(out[i + 1]))
          ensures !(IsWhitespace(out[i]) && IsLineTerminator(out[i + 1]))
        {
          if i > 0 {
            assert out[i] == t[i - 1] && out[i + 1] == t[i];
          }
        }
    }
  }

  /** Trimming text with no whitespace next to a line break leaves every line terminator framed. */
  lemma TrimFramed(u: string)
    requires NoSpaceAtLineBreaks(u)
    ensures LineTerminatorsFramed(Trim(u))
  {
    var r := Trim(u);
    var a := LeadingWhitespace(u);
    forall i | 0 <= i < |r| && IsLineTerminator(r[i])
      ensures 0 < i < |r| - 1 && !IsWhitespace(r[i - 1]) && !IsWhitespace(r[i + 1])
    {
      assert r[i] == u[a + i];
      assert r[i - 1] == u[a + i - 1];
      assert r[i + 1] == u[a + i + 1];
    }
  }

  /**
   * preserveFormatting returns trimmed text in which every line terminator
   * has a character that is not whitespace on either side: no line starts or
   * ends with whitespace, no line is empty, and in particular no two LF are
   * adjacent, so a blank line between paragraphs never survives.
   */
  lemma PreserveFormattingShape(s: string)
    ensures IsTrimmed(PreserveFormatting(s))
    ensures LineTerminatorsFramed(PreserveFormatting(s))
    ensures forall i :: 0 <= i < |PreserveFormatting(s)| - 1 ==>
      !(PreserveFormatting(s)[i] == '\n' && PreserveFormatting(s)[i + 1] == '\n')
  {
    var u := Strip(ReplaceAll(BlankLine, s, "\n\n"), 0);
    StripShape(ReplaceAll(BlankLine, s, "\n\n"), 0);
    TrimFramed(u);
  }

  /** Normalisation only ever touches whitespace: the other characters survive, in order. */
  lemma NormalisationKeepsVisible(s: string)
    ensures Visible(CleanText(s)) == Visible(s)
    ensures Visible(PreserveFormatting(s)) == Visible(s)
  {
    var c1 := ReplaceAll(CrLf, s, "\n");
    var c2 := ReplaceAll(LineFeedRun3, c1, "\n\n");
    ReplaceKeepsVisible(CrLf, s, "\n", 0);
    ReplaceKeepsVisible(LineFeedRun3, c1, "\n\n", 0);
    TrimVisible(c2);
    var p1 := ReplaceAll(BlankLine, s, "\n\n");
    var p2 := ReplaceAll(LineEdgeSpace, p1, "");
    ReplaceKeepsVisible(BlankLine, s, "\n\n", 0);
    ReplaceKeepsVisible(LineEdgeSpace, p1, "", 0);
    TrimVisible(p2);
    assert s[0..] == s && c1[0..] == c1 && p1[0..] == p1;
  }

  /** A blank line between two lines disappears and the lines are joined. */
  lemma PreserveFormattingJoinsParagraphs(s: string)
    requires s == "a\n\nb"
    ensures PreserveFormatting(s) == "ab"
  {
    assert MatchAt(BlankLine, s, 0).None?;
    assert RunEnd(s, 2, Space) == 3;
    assert MatchAt(BlankLine, s, 1) == Some(3);
    assert MatchAt(BlankLine, s, 3).None?;
    assert ReplaceFrom(BlankLine, s, "\n\n", 4) == "";
    assert ReplaceFrom(BlankLine, s, "\n\n", 3) == "b";
    assert ReplaceFrom(BlankLine, s, "\n\n", 1) == "\n\nb";
    assert ReplaceAll(BlankLine, s, "\n\n") == s;
    assert MatchAt(LineEdgeSpace, s, 0).None?;
    assert LastLineEnd(s, 1, 3) == Some(2);
    assert MatchAt(LineEdgeSpace, s, 1) == Some(2);
    assert MatchAt(LineEdgeSpace, s, 2) == Some(3);
    assert MatchAt(LineEdgeSpace, s, 3).None?;
    StripVisibleChar(s, 3);
    assert Strip(s, 4) == "";
    assert Strip(s, 2) == Strip(s, 3) == "b";
    assert Strip(s, 1) == Strip(s, 2);
    StripVisibleChar(s, 0);
    assert Strip(s, 0) == "ab";
    assert IsTrimmed("ab");
    TrimTrimmed("ab");
  }
}
