/**
 * `analyzeText` (apps/server/src/utils/text.ts): the four counts, each a
 * `split` followed by a `filter` and `length`.
 */
module Analyzer {
  import opened JsString
  import opened Regex

  datatype TextStats = TextStats(chars: nat, words: nat, sentences: nat, paragraphs: nat)

  /** `parts.filter(p => p.length > 0).length` */
  function CountNonEmpty(parts: seq<string>): nat
    decreases |parts|
  {
    if parts == [] then 0
    else (if |parts[0]| > 0 then 1 else 0) + CountNonEmpty(parts[1..])
  }

  /** `parts.filter(p => p.trim().length > 0).length` */
  function CountNonBlank(parts: seq<string>): nat
    decreases |parts|
  {
    if parts == [] then 0
    else (if |Trim(parts[0])| > 0 then 1 else 0) + CountNonBlank(parts[1..])
  }

  /** `text.split(/\s+/).filter(word => word.length > 0).length` */
  function WordCount(text: string): nat {
    CountNonEmpty(Split(SpaceRun, text))
  }

  /** `text.split(/[.!?]+/).filter(sentence => sentence.trim().length > 0).length` */
  function SentenceCount(text: string): nat {
    CountNonBlank(Split(SentenceEndRun, text))
  }

  /** `text.split(/\n\s*\n/).filter(para => para.trim().length > 0).length` */
  function ParagraphCount(text: string): nat {
    CountNonBlank(Split(BlankLine, text))
  }

  /** analyzeText; `chars` is `text.length`, in UTF-16 code units. */
  function AnalyzeText(text: string): (r: TextStats)
    ensures r.chars == Utf16Length(text)
    ensures |text| <= r.chars <= 2 * |text|
  {
    TextStats(Utf16Length(text), WordCount(text), SentenceCount(text), ParagraphCount(text))
  }

  // ---------------------------------------------------------------------------
  // Words as maximal runs of non-whitespace

  /** Index `i` begins a maximal run of characters that are not whitespace. */
  predicate IsWordStart(s: string, i: int) {
    0 <= i < |s| && !IsWhitespace(s[i]) && (i == 0 || IsWhitespace(s[i - 1]))
  }

  /** The number of word starts at or after index `q`. */
  function WordStartsFrom(s: string, q: nat): nat
    requires q <= |s|
    decreases |s| - q
  {
    if q == |s| then 0 else (if IsWordStart(s, q) then 1 else 0) + WordStartsFrom(s, q + 1)
  }

  lemma {:induction false} SplitWordsCount(s: string, start: nat, q: nat)
    requires start <= q <= |s|
    requires forall j :: start <= j < q ==> !IsWhitespace(s[j])
    requires start == 0 || IsWhitespace(s[start - 1])
    ensures CountNonEmpty(SplitFrom(SpaceRun, s, start, q)) == (if start < q then 1 else 0) + WordStartsFrom(s, q)
    decreases |s| - q
  {
    if q < |s| {
      match MatchAt(SpaceRun, s, q)
      case Some(e) =>
        SplitWordsCount(s, e, e);
        WordStartsSkipSpace(s, q, e);
      case None =>
        SplitWordsCount(s, start, q + 1);
    }
  }

  lemma {:induction false} WordStartsSkipSpace(s: string, q: nat, e: nat)
    requires q <= e <= |s|
    requires forall j :: q <= j < e ==> IsWhitespace(s[j])
    ensures WordStartsFrom(s, q) == WordStartsFrom(s, e)
    decreases e - q
  {
    if q < e {
      WordStartsSkipSpace(s, q + 1, e);
    }
  }

  lemma {:induction false} WordStartsBound(s: string, q: nat)
    requires q <= |s|
    ensures WordStartsFrom(s, q) <= |s| - q
    decreases |s| - q
  {
    if q < |s| {
      WordStartsBound(s, q + 1);
    }
  }

  lemma {:induction false} WordStartsPositive(s: string, q: nat, k: nat)
    requires q <= k < |s| && IsWordStart(s, k)
    ensures WordStartsFrom(s, q) > 0
    decreases k - q
  {
    if q < k {
      WordStartsPositive(s, q + 1, k);
    }
  }

  /**
   * The word count is the number of maximal runs of non-whitespace: it is
   * zero exactly for blank text and never exceeds the character count.
   */
  lemma AnalyzeWords(text: string)
    ensures AnalyzeText(text).words == WordStartsFrom(text, 0)
    ensures AnalyzeText(text).words == 0 <==> AllWhitespace(text)
    ensures AnalyzeText(text).words <= AnalyzeText(text).chars
  {
    SplitWordsCount(text, 0, 0);
    WordStartsBound(text, 0);
    WordStartsZeroIff(text);
  }

  lemma WordStartsZeroIff(text: string)
    ensures WordStartsFrom(text, 0) == 0 <==> AllWhitespace(text)
  {
    if AllWhitespace(text) {
      WordStartsSkipSpace(text, 0, |text|);
    } else {
      var k0 := LeadingWhitespace(text);
      assert k0 < |text|;
      WordStartsPositive(text, 0, k0);
    }
  }

  // ---------------------------------------------------------------------------
  // Sentences and paragraphs

  lemma OneSegment(text: string)
    ensures CountNonBlank([text]) == if AllWhitespace(text) then 0 else 1
  {
    assert [text][1..] == [];
  }

  /**
   * A text without `.`, `!` or `?` is one sentence, unless it is blank, when
   * it is none.
   */
  lemma SentencesWithoutTerminator(text: string)
    requires forall i :: 0 <= i < |text| ==> !IsSentenceEnd(text[i])
    ensures AnalyzeText(text).sentences == if AllWhitespace(text) then 0 else 1
  {
    SplitWithoutMatch(SentenceEndRun, text, 0, 0);
    assert text[0..] == text;
    OneSegment(text);
  }

  /** A text without LF is one paragraph, unless it is blank, when it is none. */
  lemma ParagraphsWithoutLineFeed(text: string)
    requires '\n' !in text
    ensures AnalyzeText(text).paragraphs == if AllWhitespace(text) then 0 else 1
  {
    forall j | 0 <= j < |text| ensures MatchAt(BlankLine, text, j).None? {
      assert text[j] in text;
    }
    SplitWithoutMatch(BlankLine, text, 0, 0);
    assert text[0..] == text;
    OneSegment(text);
  }

  /** The empty text has every count zero. */
  lemma AnalyzeEmpty()
    ensures AnalyzeText("") == TextStats(0, 0, 0, 0)
  {
    assert Split(SpaceRun, "") == [""];
    assert Split(SentenceEndRun, "") == [""];
    assert Split(BlankLine, "") == [""];
  }
}
