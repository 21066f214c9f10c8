/**
 * `generateEngagementSuggestions` (apps/server/src/utils/text.ts): a fixed
 * sequence of checks, each of which may push one message to `suggestions` or
 * to `warnings`. The lists hold the checks whose message was pushed;
 * `Message` gives each one's wording.
 */
module Advisor {
  import opened JsString
  import opened Regex
  import opened Analyzer

  /** The two lists the function returns. */
  datatype EngagementSuggestions = EngagementSuggestions(suggestions: seq<Rule>, warnings: seq<Rule>)

  const CtaKeywords: seq<string> :=
    ["comment", "share", "follow", "like", "subscribe", "click", "visit", "check out", "learn more"]

  /** `text.match(/#\w+/g)`, counted (no match counts as 0). */
  function HashtagCount(text: string): nat {
    CountMatches(Hashtag, text)
  }

  /** Some keyword, lower-cased, occurs in the lower-cased text. */
  predicate HasCallToAction(text: string) {
    exists k :: 0 <= k < |CtaKeywords| && Includes(ToLowerCase(text), ToLowerCase(CtaKeywords[k]))
  }

  /** `Math.max(stats.sentences, 1)` */
  function SentenceDivisor(stats: TextStats): nat {
    if stats.sentences >= 1 then stats.sentences else 1
  }

  /** `stats.words / Math.max(stats.sentences, 1) > 25`, with the division cleared. */
  predicate HasLongSentences(stats: TextStats) {
    stats.words > 25 * SentenceDivisor(stats)
  }

  /** `text.split('\n')` */
  function Lines(text: string): seq<string> {
    Split(LineFeedSep, text)
  }

  /** Some line is longer than 80 code units. */
  predicate SomeLonger(lines: seq<string>) {
    exists k :: 0 <= k < |lines| && Utf16Length(lines[k]) > 80
  }

  /** `text.split('\n').filter(line => line.length > 80).length > 0` */
  predicate HasLongLine(text: string) {
    SomeLonger(Lines(text))
  }

  // ---------------------------------------------------------------------------
  // The rule table

  /** The checks of generateEngagementSuggestions, one per message it can push. */
  datatype Rule =
    | ShortContent | LongContent | NoHashtags | ManyHashtags | FewHashtags
    | NoCallToAction | LongSentences | AllCaps | LongLines | StrongPost

  /** The checks in the order the function makes them. */
  const Rules: seq<Rule> :=
    [ShortContent, LongContent, NoHashtags, ManyHashtags, FewHashtags,
     NoCallToAction, LongSentences, AllCaps, LongLines, StrongPost]

  /** The checks whose message goes to `warnings` rather than `suggestions`. */
  predicate IsWarning(rule: Rule) {
    rule.ShortContent? || rule.LongContent? || rule.ManyHashtags? || rule.AllCaps?
  }

  function Message(rule: Rule): string {
    match rule
    case ShortContent =>
      "Content is very short (< 80 characters). Consider adding more detail for better engagement."
    case LongContent =>
      "Content is quite long (> 300 words). Consider breaking it into shorter posts for better readability."
    case NoHashtags =>
      "Add 1-3 relevant hashtags to increase discoverability."
    case ManyHashtags =>
      "Too many hashtags (> 9). Stick to 1-3 for Twitter/X or 5-9 for Instagram."
    case FewHashtags =>
      "Good hashtag usage! This range works well for most platforms."
    case NoCallToAction =>
      "Add a call-to-action (e.g., \"Comment below\", \"Share if helpful\") to encourage engagement."
    case LongSentences =>
      "Consider breaking up long sentences for better readability."
    case AllCaps =>
      "Avoid writing entirely in CAPS as it can appear aggressive."
    case LongLines =>
      "Consider adding line breaks for better readability on mobile devices."
    case StrongPost =>
      "Great content length and hashtag usage! This should perform well on most platforms."
  }

  /** The messages of a list of rules, in order: the strings the source pushes. */
  function Texts(rules: seq<Rule>): (r: seq<string>)
    ensures |r| == |rules|
    ensures forall i :: 0 <= i < |rules| ==> r[i] == Message(rules[i])
  {
    seq(|rules|, i requires 0 <= i < |rules| => Message(rules[i]))
  }

  /**
   * The condition of each check on its own. The `else if` chains of the
   * length and hashtag checks become explicit exclusions.
   */
  predicate Fires(rule: Rule, text: string, stats: TextStats) {
    match rule
    case ShortContent => stats.chars < 80
    case LongContent => stats.chars >= 80 && stats.words > 300
    case NoHashtags => HashtagCount(text) == 0
    case ManyHashtags => HashtagCount(text) > 9
    case FewHashtags => 1 <= HashtagCount(text) <= 3
    case NoCallToAction => !HasCallToAction(text)
    case LongSentences => HasLongSentences(stats)
    case AllCaps => text == ToUpperCase(text) && Utf16Length(text) > 10
    case LongLines => HasLongLine(text)
    case StrongPost => 80 <= stats.words <= 200 && 1 <= HashtagCount(text) <= 5
  }

  /** One check: when it fires, its message goes to the end of its list. */
  function Push(acc: EngagementSuggestions, rule: Rule, fires: bool): EngagementSuggestions {
    if !fires then acc
    else if IsWarning(rule) then acc.(warnings := acc.warnings + [rule])
    else acc.(suggestions := acc.suggestions + [rule])
  }

  /** The lists after making the checks `rules` in order, given which checks fire. */
  function Run(fires: Rule -> bool, rules: seq<Rule>): EngagementSuggestions
    decreases |rules|
  {
    if rules == [] then EngagementSuggestions([], [])
    else Push(Run(fires, rules[..|rules| - 1]), rules[|rules| - 1], fires(rules[|rules| - 1]))
  }

  /** Which checks fire on this text and these counts. */
  function Checks(text: string, stats: TextStats): Rule -> bool {
    rule => Fires(rule, text, stats)
  }

  /** What the advisor reports: every check of the table made in order. */
  function Advice(text: string, stats: TextStats): EngagementSuggestions {
    Run(Checks(text, stats), Rules)
  }

  /** Check number `n` (counting from 1) is `rule`. */
  lemma RunStep(fires: Rule -> bool, n: nat, rule: Rule)
    requires 0 < n <= |Rules| && Rules[n - 1] == rule
    ensures Run(fires, Rules[..n]) == Push(Run(fires, Rules[..n - 1]), rule, fires(rule))
  {
    assert Rules[..n][..n - 1] == Rules[..n - 1];
  }

  // ---------------------------------------------------------------------------
  // What the table reports

  /** Where a check stands in the table. */
  function Position(rule: Rule): nat {
    match rule
    case ShortContent => 0
    case LongContent => 1
    case NoHashtags => 2
    case ManyHashtags => 3
    case FewHashtags => 4
    case NoCallToAction => 5
    case LongSentences => 6
    case AllCaps => 7
    case LongLines => 8
    case StrongPost => 9
  }

  /** The checks of a list come in table order (so none is repeated). */
  predicate InTableOrder(rules: seq<Rule>) {
    forall i, j :: 0 <= i < j < |rules| ==> Position(rules[i]) < Position(rules[j])
  }

  /** The table is in table order. */
  lemma TableInOrder()
    ensures InTableOrder(Rules)
  {
  }

  /** Every check is in the table. */
  lemma TableComplete()
    ensures forall rule :: rule in Rules
  {
    forall rule ensures rule in Rules {
      assert Rules[Position(rule)] == rule;
    }
  }

  /** Each list holds exactly the checks made that fired and belong to it. */
  lemma {:induction false} RunMembers(fires: Rule -> bool, rules: seq<Rule>)
    ensures forall rule :: rule in Run(fires, rules).suggestions <==> rule in rules && !IsWarning(rule) && fires(rule)
    ensures forall rule :: rule in Run(fires, rules).warnings <==> rule in rules && IsWarning(rule) && fires(rule)
    decreases |rules|
  {
    if rules != [] {
      var init := rules[..|rules| - 1];
      RunMembers(fires, init);
      assert rules == init + [rules[|rules| - 1]];
    }
  }

  lemma OrderExtend(prev: seq<Rule>, x: Rule)
    requires InTableOrder(prev)
    requires forall i :: 0 <= i < |prev| ==> Position(prev[i]) < Position(x)
    ensures InTableOrder(prev + [x])
  {
    var s := prev + [x];
    forall i, j | 0 <= i < j < |s| ensures Position(s[i]) < Position(s[j]) {
      assert s[i] == prev[i];
      if j < |prev| {
        assert s[j] == prev[j];
      }
    }
  }

  /** Checks made in table order report in table order. */
  lemma {:induction false} RunOrdered(fires: Rule -> bool, rules: seq<Rule>)
    requires InTableOrder(rules)
    ensures InTableOrder(Run(fires, rules).suggestions)
    ensures InTableOrder(Run(fires, rules).warnings)
    decreases |rules|
  {
    if rules != [] {
      var init := rules[..|rules| - 1];
      var x := rules[|rules| - 1];
      RunOrdered(fires, init);
      RunMembers(fires, init);
      var prev := Run(fires, init);
      assert forall r :: r in init ==> Position(r) < Position(x);
      if fires(x) {
        if IsWarning(x) {
          assert forall i :: 0 <= i < |prev.warnings| ==> prev.warnings[i] in prev.warnings;
          OrderExtend(prev.warnings, x);
        } else {
          assert forall i :: 0 <= i < |prev.suggestions| ==> prev.suggestions[i] in prev.suggestions;
          OrderExtend(prev.suggestions, x);
        }
      }
    }
  }

  /** Making `a` then `b` appends what `b` reports to what `a` reports. */
  lemma {:induction false} RunAppend(fires: Rule -> bool, a: seq<Rule>, b: seq<Rule>)
    ensures Run(fires, a + b).suggestions == Run(fires, a).suggestions + Run(fires, b).suggestions
    ensures Run(fires, a + b).warnings == Run(fires, a).warnings + Run(fires, b).warnings
    decreases |b|
  {
    if b == [] {
      assert a + b == a;
    } else {
      var init := b[..|b| - 1];
      RunAppend(fires, a, init);
      assert (a + b)[..|a + b| - 1] == a + init;
    }
  }

  /** How many of `rules` belong to the warnings (or to the suggestions). */
  function KindCount(rules: seq<Rule>, warning: bool): nat
    decreases |rules|
  {
    if rules == [] then 0
    else (if IsWarning(rules[0]) == warning then 1 else 0) + KindCount(rules[1..], warning)
  }

  lemma {:induction false} KindCountLast(rules: seq<Rule>, x: Rule, warning: bool)
    ensures KindCount(rules + [x], warning) == KindCount(rules, warning) + (if IsWarning(x) == warning then 1 else 0)
    decreases |rules|
  {
    if rules != [] {
      KindCountLast(rules[1..], x, warning);
      assert (rules + [x])[1..] == rules[1..] + [x];
    }
  }

  lemma {:induction false} RunKinds(fires: Rule -> bool, rules: seq<Rule>)
    ensures |Run(fires, rules).suggestions| <= KindCount(rules, false)
    ensures |Run(fires, rules).warnings| <= KindCount(rules, true)
    decreases |rules|
  {
    if rules != [] {
      var init := rules[..|rules| - 1];
      var x := rules[|rules| - 1];
      RunKinds(fires, init);
      KindCountLast(init, x, false);
      KindCountLast(init, x, true);
      assert init + [x] == rules;
    }
  }

  /** The two length warnings exclude each other. */
  lemma LengthBlock(fires: Rule -> bool)
    requires !(fires(ShortContent) && fires(LongContent))
    ensures |Run(fires, [ShortContent, LongContent]).suggestions| == 0
    ensures |Run(fires, [ShortContent, LongContent]).warnings| <= 1
  {
    assert [ShortContent, LongContent][..1] == [ShortContent];
    assert [ShortContent][..0] == [];
  }

  /** The hashtag suggestions exclude each other. */
  lemma HashtagBlock(fires: Rule -> bool)
    requires !(fires(NoHashtags) && fires(FewHashtags))
    ensures |Run(fires, [NoHashtags, ManyHashtags, FewHashtags]).suggestions| <= 1
    ensures |Run(fires, [NoHashtags, ManyHashtags, FewHashtags]).warnings| <= 1
  {
    assert [NoHashtags, ManyHashtags, FewHashtags][..2] == [NoHashtags, ManyHashtags];
    assert [NoHashtags, ManyHashtags][..1] == [NoHashtags];
    assert [NoHashtags][..0] == [];
  }

  /** The other five checks: one warning and four suggestions. */
  lemma OtherBlock(fires: Rule -> bool)
    ensures |Run(fires, [NoCallToAction, LongSentences, AllCaps, LongLines, StrongPost]).suggestions| <= 4
    ensures |Run(fires, [NoCallToAction, LongSentences, AllCaps, LongLines, StrongPost]).warnings| <= 1
  {
    var c := [NoCallToAction, LongSentences, AllCaps, LongLines, StrongPost];
    RunKinds(fires, c);
    assert c[1..][1..][1..][1..][1..] == [];
  }

  /**
   * When the two hashtag suggestions exclude each other, and so do the two
   * length warnings, the table gives at most 5 suggestions and 3 warnings.
   */
  lemma RunBounds(fires: Rule -> bool)
    requires !(fires(NoHashtags) && fires(FewHashtags))
    requires !(fires(ShortContent) && fires(LongContent))
    ensures |Run(fires, Rules).suggestions| <= 5
    ensures |Run(fires, Rules).warnings| <= 3
  {
    var a := [ShortContent, LongContent];
    var b := [NoHashtags, ManyHashtags, FewHashtags];
    var c := [NoCallToAction, LongSentences, AllCaps, LongLines, StrongPost];
    assert Rules == a + b + c;
    RunAppend(fires, a + b, c);
    RunAppend(fires, a, b);
    LengthBlock(fires);
    HashtagBlock(fires);
    OtherBlock(fires);
  }

  /**
   * A message is reported exactly when its check fires, in the list its
   * check belongs to, and each list is in the order of the function's checks.
   */
  lemma AdviceContents(text: string, stats: TextStats)
    ensures forall rule :: rule in Advice(text, stats).suggestions <==> !IsWarning(rule) && Fires(rule, text, stats)
    ensures forall rule :: rule in Advice(text, stats).warnings <==> IsWarning(rule) && Fires(rule, text, stats)
    ensures InTableOrder(Advice(text, stats).suggestions)
    ensures InTableOrder(Advice(text, stats).warnings)
  {
    RunMembers(Checks(text, stats), Rules);
    TableComplete();
    TableInOrder();
    RunOrdered(Checks(text, stats), Rules);
  }

  /** One check on its own: its message is in its list exactly when it fires. */
  lemma InAdvice(rule: Rule, text: string, stats: TextStats)
    ensures IsWarning(rule) ==> (rule in Advice(text, stats).warnings <==> Fires(rule, text, stats))
    ensures !IsWarning(rule) ==> (rule in Advice(text, stats).suggestions <==> Fires(rule, text, stats))
  {
    AdviceContents(text, stats);
  }

  /** At most 5 suggestions and at most 3 warnings. */
  lemma AdviceBounds(text: string, stats: TextStats)
    ensures |Advice(text, stats).suggestions| <= 5
    ensures |Advice(text, stats).warnings| <= 3
  {
    RunBounds(Checks(text, stats));
  }

  /**
   * The length warnings: short content is below 80 characters, long content
   * is at least 80 characters and over 300 words; never both.
   */
  lemma LengthWarnings(text: string, stats: TextStats)
    ensures ShortContent in Advice(text, stats).warnings <==> stats.chars < 80
    ensures LongContent in Advice(text, stats).warnings <==> stats.chars >= 80 && stats.words > 300
  {
    AdviceContents(text, stats);
  }

  /** A `#` followed by a word character: where a hashtag match starts. */
  predicate IsHashtagStart(s: string, i: int) {
    0 <= i && i + 1 < |s| && s[i] == '#' && IsWordChar(s[i + 1])
  }

  /** The number of hashtag starts at or after index `q`. */
  function HashtagStartsFrom(s: string, q: nat): nat
    requires q <= |s|
    decreases |s| - q
  {
    if q == |s| then 0 else (if IsHashtagStart(s, q) then 1 else 0) + HashtagStartsFrom(s, q + 1)
  }

  lemma {:induction false} HashtagStartsSkipWord(s: string, a: nat, e: nat)
    requires a <= e <= |s|
    requires forall j :: a <= j < e ==> IsWordChar(s[j])
    ensures HashtagStartsFrom(s, a) == HashtagStartsFrom(s, e)
    decreases e - a
  {
    if a < e {
      HashtagStartsSkipWord(s, a + 1, e);
    }
  }

  lemma {:induction false} HashtagCountFrom(s: string, q: nat)
    requires q <= |s|
    ensures CountFrom(Hashtag, s, q) == HashtagStartsFrom(s, q)
    decreases |s| - q
  {
    if q < |s| {
      match MatchAt(Hashtag, s, q)
      case Some(e) =>
        HashtagCountFrom(s, e);
        HashtagStartsSkipWord(s, q + 1, e);
      case None =>
        HashtagCountFrom(s, q + 1);
    }
  }

  /**
   * Since `#` is not a word character, the global match finds a hashtag at
   * every `#` followed by a word character: the count is the number of such
   * positions.
   */
  lemma HashtagCountSpec(text: string)
    ensures HashtagCount(text) == HashtagStartsFrom(text, 0)
  {
    HashtagCountFrom(text, 0);
  }

  /**
   * The hashtag checks: none, too many (over 9) or a good number (1 to 3); at
   * most one of them fires, and 4 to 9 hashtags draw no comment.
   */
  lemma HashtagAdvice(text: string, stats: TextStats)
    ensures NoHashtags in Advice(text, stats).suggestions <==> HashtagStartsFrom(text, 0) == 0
    ensures ManyHashtags in Advice(text, stats).warnings <==> HashtagStartsFrom(text, 0) > 9
    ensures FewHashtags in Advice(text, stats).suggestions <==> 1 <= HashtagStartsFrom(text, 0) <= 3
    ensures (if NoHashtags in Advice(text, stats).suggestions then 1 else 0)
          + (if ManyHashtags in Advice(text, stats).warnings then 1 else 0)
          + (if FewHashtags in Advice(text, stats).suggestions then 1 else 0) <= 1
  {
    HashtagCountSpec(text);
    AdviceContents(text, stats);
  }

  /** Every keyword is already in lower case. */
  lemma KeywordsLowerCase()
    ensures forall k :: 0 <= k < |CtaKeywords| ==> ToLowerCase(CtaKeywords[k]) == CtaKeywords[k]
  {
    forall k | 0 <= k < |CtaKeywords| ensures ToLowerCase(CtaKeywords[k]) == CtaKeywords[k] {
      var w := CtaKeywords[k];
      assert forall i :: 0 <= i < |w| ==> !IsAsciiUpper(w[i]);
    }
  }

  /** A call to action is a keyword occurring anywhere in the lower-cased text. */
  lemma CallToActionIff(text: string)
    ensures HasCallToAction(text) <==>
      exists k, i :: 0 <= k < |CtaKeywords| && OccursAt(ToLowerCase(text), CtaKeywords[k], i)
  {
    KeywordsLowerCase();
    forall k | 0 <= k < |CtaKeywords| {
      IncludesIff(ToLowerCase(text), CtaKeywords[k]);
    }
  }

  /** The call-to-action suggestion appears exactly when no keyword occurs. */
  lemma CallToActionAdvice(text: string, stats: TextStats)
    ensures NoCallToAction in Advice(text, stats).suggestions <==>
      forall k, i :: 0 <= k < |CtaKeywords| ==> !OccursAt(ToLowerCase(text), CtaKeywords[k], i)
  {
    CallToActionIff(text);
    AdviceContents(text, stats);
  }

  /** With a positive divisor, the exact quotient exceeds 25 exactly when `w > 25 * d`. */
  lemma RealThreshold(w: nat, d: nat)
    requires d >= 1
    ensures (w as real) / (d as real) > 25.0 <==> w > 25 * d
  {
    var wr, dr := w as real, d as real;
    var q := wr / dr;
    DivisionCancels(wr, dr);
    if q > 25.0 {
      ScaleStrict(25.0, q, dr);
    } else {
      ScaleWeak(q, 25.0, dr);
    }
  }

  /**
   * The three steps of real arithmetic below are kept as lemmas of their own:
   * stated inline, the nonlinear terms make the proof of RealThreshold run
   * out of resource.
   */
  lemma DivisionCancels(a: real, b: real)
    requires b != 0.0
    ensures (a / b) * b == a
  {
  }

  lemma ScaleStrict(a: real, b: real, c: real)
    requires a < b && c > 0.0
    ensures a * c < b * c
  {
  }

  lemma ScaleWeak(a: real, b: real, c: real)
    requires a <= b && c > 0.0
    ensures a * c <= b * c
  {
  }

  /**
   * The readability suggestion appears exactly when the average number of
   * words per sentence, in exact division by at least 1, exceeds 25.
   */
  lemma ReadabilityAdvice(text: string, stats: TextStats)
    ensures LongSentences in Advice(text, stats).suggestions <==>
      (stats.words as real) / ((if stats.sentences >= 1 then stats.sentences else 1) as real) > 25.0
  {
    RealThreshold(stats.words, SentenceDivisor(stats));
    AdviceContents(text, stats);
  }

  /** A text equals its upper-case form exactly when it holds no lower-case letter. */
  lemma ShoutingIff(text: string)
    ensures (text == ToUpperCase(text) && Utf16Length(text) > 10) <==>
      (Utf16Length(text) > 10 && forall i :: 0 <= i < |text| ==> !IsAsciiLower(text[i]))
  {
  }

  /** `text === text.toUpperCase() && text.length > 10` decides the caps warning. */
  lemma CapsFires(text: string, stats: TextStats)
    ensures AllCaps in Advice(text, stats).warnings <==> text == ToUpperCase(text) && Utf16Length(text) > 10
  {
    InAdvice(AllCaps, text, stats);
  }

  /** The caps warning: more than 10 code units and no lower-case letter. */
  lemma CapsWarning(text: string, stats: TextStats)
    ensures AllCaps in Advice(text, stats).warnings <==>
      Utf16Length(text) > 10 && forall i :: 0 <= i < |text| ==> !IsAsciiLower(text[i])
  {
    CapsFires(text, stats);
    ShoutingIff(text);
  }

  /** `s[i..j]` holds no line feed and is longer than 80 code units. */
  predicate LongRunAt(s: string, i: int, j: int) {
    0 <= i <= j <= |s| && (forall k :: i <= k < j ==> s[k] != '\n') && Utf16Length(s[i..j]) > 80
  }

  /** The last line is longer than 80 code units exactly when some stretch of it is. */
  lemma LastSegmentLong(s: string, start: nat)
    requires start <= |s|
    requires forall k :: start <= k < |s| ==> s[k] != '\n'
    ensures SomeLonger([s[start..]]) <==> exists i, j :: start <= i && LongRunAt(s, i, j)
  {
    if Utf16Length(s[start..]) > 80 {
      assert s[start..|s|] == s[start..];
      assert LongRunAt(s, start, |s|);
      assert Utf16Length([s[start..]][0]) > 80;
    } else {
      forall i, j | start <= i && LongRunAt(s, i, j) ensures false {
        assert s[start..|s|] == s[start..];
        Utf16Monotone(s, start, i, j, |s|);
      }
    }
  }

  /** A stretch without line feed that starts at or after `start` and ends by `q`. */
  lemma InFirstSegment(s: string, start: nat, q: nat, i: nat, j: nat)
    requires start <= i && j <= q <= |s| && LongRunAt(s, i, j)
    requires forall k :: start <= k < q ==> s[k] != '\n'
    ensures LongRunAt(s, start, q)
  {
    Utf16Monotone(s, start, i, j, q);
  }

  /**
   * At a line feed: the lines are the one ending there and those after it,
   * and a long stretch lies in one or the other.
   */
  lemma LineFeedStep(s: string, start: nat, q: nat, rest: seq<string>)
    requires start <= q < |s| && s[q] == '\n'
    requires forall k :: start <= k < q ==> s[k] != '\n'
    requires SomeLonger(rest) <==> exists i, j :: q + 1 <= i && LongRunAt(s, i, j)
    ensures SomeLonger([s[start..q]] + rest) <==> exists i, j :: start <= i && LongRunAt(s, i, j)
  {
    var parts := [s[start..q]] + rest;
    if SomeLonger(parts) {
      var k :| 0 <= k < |parts| && Utf16Length(parts[k]) > 80;
      if k == 0 {
        assert LongRunAt(s, start, q);
      } else {
        assert parts[k] == rest[k - 1];
      }
    }
    if i, j :| start <= i && LongRunAt(s, i, j) {
      if i <= q {
        assert j <= q;
        InFirstSegment(s, start, q, i, j);
        assert Utf16Length(parts[0]) > 80;
      } else {
        var k :| 0 <= k < |rest| && Utf16Length(rest[k]) > 80;
        assert parts[k + 1] == rest[k];
      }
    }
  }

  lemma {:induction false} SplitLongSegment(s: string, start: nat, q: nat)
    requires start <= q <= |s|
    requires forall k :: start <= k < q ==> s[k] != '\n'
    ensures SomeLonger(SplitFrom(LineFeedSep, s, start, q)) <==>
      exists i, j :: start <= i && LongRunAt(s, i, j)
    decreases |s| - q
  {
    if q == |s| {
      assert SplitFrom(LineFeedSep, s, start, q) == [s[start..]];
      LastSegmentLong(s, start);
    } else if s[q] == '\n' {
      assert MatchAt(LineFeedSep, s, q).Some? && MatchAt(LineFeedSep, s, q).value == q + 1;
      SplitLongSegment(s, q + 1, q + 1);
      LineFeedStep(s, start, q, SplitFrom(LineFeedSep, s, q + 1, q + 1));
    } else {
      assert MatchAt(LineFeedSep, s, q).None?;
      SplitLongSegment(s, start, q + 1);
    }
  }

  /**
   * Some line is longer than 80 code units exactly when the text holds a
   * stretch without line feed that is longer than 80 code units.
   */
  lemma LongLineIff(text: string)
    ensures HasLongLine(text) <==> exists i, j :: LongRunAt(text, i, j)
  {
    SplitLongSegment(text, 0, 0);
  }

  /** Of code points below U+10000, a line needs 81 to count as long. */
  lemma LongRunBmp(s: string, i: nat, j: nat)
    requires i <= j <= |s| && forall k :: i <= k < j ==> s[k] as int < 0x1_0000
    ensures Utf16Length(s[i..j]) > 80 <==> j - i > 80
  {
    Utf16LengthBmp(s[i..j]);
  }

  lemma LineBreakAdvice(text: string, stats: TextStats)
    ensures LongLines in Advice(text, stats).suggestions <==> exists i, j :: LongRunAt(text, i, j)
  {
    LongLineIff(text);
    AdviceContents(text, stats);
  }

  /**
   * Praise for 80 to 200 words with 1 to 5 hashtags; with 1 to 3 hashtags it
   * comes together with the good-hashtags suggestion.
   */
  lemma GreatContentAdvice(text: string, stats: TextStats)
    ensures StrongPost in Advice(text, stats).suggestions <==>
      80 <= stats.words <= 200 && 1 <= HashtagStartsFrom(text, 0) <= 5
    ensures 80 <= stats.words <= 200 && 1 <= HashtagStartsFrom(text, 0) <= 3 ==>
      FewHashtags in Advice(text, stats).suggestions && StrongPost in Advice(text, stats).suggestions
  {
    HashtagCountSpec(text);
    AdviceContents(text, stats);
  }

  // ---------------------------------------------------------------------------
  // generateEngagementSuggestions, section by section

  /** Length checks: a warning when the content is very short, else when it is very long. */
  method CheckLength(text: string, stats: TextStats, acc: EngagementSuggestions) returns (r: EngagementSuggestions)
    requires acc == Run(Checks(text, stats), Rules[..0])
    ensures r == Run(Checks(text, stats), Rules[..2])
  {
    r := acc;
    if stats.chars < 80 {
      r := r.(warnings := r.warnings + [ShortContent]);
    } else if stats.words > 300 {
      r := r.(warnings := r.warnings + [LongContent]);
    }
    RunStep(Checks(text, stats), 1, ShortContent);
    RunStep(Checks(text, stats), 2, LongContent);
  }

  /** Checks 3 to 5 of the table, the hashtag checks, on the hashtag count. */
  lemma HashtagRows(text: string, stats: TextStats)
    ensures var c := HashtagCount(text);
      Run(Checks(text, stats), Rules[..5]) ==
        Push(Push(Push(Run(Checks(text, stats), Rules[..2]), NoHashtags, c == 0),
                  ManyHashtags, c > 9),
             FewHashtags, 1 <= c <= 3)
  {
    RunStep(Checks(text, stats), 3, NoHashtags);
    RunStep(Checks(text, stats), 4, ManyHashtags);
    RunStep(Checks(text, stats), 5, FewHashtags);
  }

  /** Hashtag analysis: also hands back the count, which the last check uses again. */
  method CheckHashtags(text: string, stats: TextStats, acc: EngagementSuggestions)
    returns (r: EngagementSuggestions, hashtagCount: nat)
    requires acc == Run(Checks(text, stats), Rules[..2])
    ensures hashtagCount == HashtagCount(text)
    ensures r == Run(Checks(text, stats), Rules[..5])
  {
    r := acc;
    hashtagCount := HashtagCount(text);
    if hashtagCount == 0 {
      r := r.(suggestions := r.suggestions + [NoHashtags]);
    } else if hashtagCount > 9 {
      r := r.(warnings := r.warnings + [ManyHashtags]);
    } else if hashtagCount >= 1 && hashtagCount <= 3 {
      r := r.(suggestions := r.suggestions + [FewHashtags]);
    }
    HashtagRows(text, stats);
  }

  /** CTA detection */
  method CheckCallToAction(text: string, stats: TextStats, acc: EngagementSuggestions) returns (r: EngagementSuggestions)
    requires acc == Run(Checks(text, stats), Rules[..5])
    ensures r == Run(Checks(text, stats), Rules[..6])
  {
    r := acc;
    if !HasCallToAction(text) {
      r := r.(suggestions := r.suggestions + [NoCallToAction]);
    }
    RunStep(Checks(text, stats), 6, NoCallToAction);
  }

  /** Readability check, with the division cleared. */
  method CheckReadability(text: string, stats: TextStats, acc: EngagementSuggestions) returns (r: EngagementSuggestions)
    requires acc == Run(Checks(text, stats), Rules[..6])
    ensures r == Run(Checks(text, stats), Rules[..7])
  {
    r := acc;
    if stats.words > 25 * SentenceDivisor(stats) {
      r := r.(suggestions := r.suggestions + [LongSentences]);
    }
    RunStep(Checks(text, stats), 7, LongSentences);
  }

  /** Formatting checks: text in capitals, lines too long for a phone screen. */
  method CheckFormatting(text: string, stats: TextStats, acc: EngagementSuggestions) returns (r: EngagementSuggestions)
    requires acc == Run(Checks(text, stats), Rules[..7])
    ensures r == Run(Checks(text, stats), Rules[..9])
  {
    r := acc;
    if text == ToUpperCase(text) && Utf16Length(text) > 10 {
      r := r.(warnings := r.warnings + [AllCaps]);
    }
    RunStep(Checks(text, stats), 8, AllCaps);
    if HasLongLine(text) {
      r := r.(suggestions := r.suggestions + [LongLines]);
    }
    RunStep(Checks(text, stats), 9, LongLines);
  }

  /** Positive reinforcement */
  method CheckStrongPost(text: string, stats: TextStats, hashtagCount: nat, acc: EngagementSuggestions)
    returns (r: EngagementSuggestions)
    requires hashtagCount == HashtagCount(text)
    requires acc == Run(Checks(text, stats), Rules[..9])
    ensures r == Run(Checks(text, stats), Rules[..10])
  {
    r := acc;
    if stats.words >= 80 && stats.words <= 200 && hashtagCount >= 1 && hashtagCount <= 5 {
      r := r.(suggestions := r.suggestions + [StrongPost]);
    }
    RunStep(Checks(text, stats), 10, StrongPost);
  }

  /** generateEngagementSuggestions: the sections in the order the function runs them. */
  method GenerateEngagementSuggestions(text: string, stats: TextStats) returns (r: EngagementSuggestions)
    ensures r == Advice(text, stats)
  {
    r := EngagementSuggestions([], []);
    assert Rules[..0] == [];
    r := CheckLength(text, stats, r);
    var hashtagCount;
    r, hashtagCount := CheckHashtags(text, stats, r);
    r := CheckCallToAction(text, stats, r);
    r := CheckReadability(text, stats, r);
    r := CheckFormatting(text, stats, r);
    r := CheckStrongPost(text, stats, hashtagCount, r);
    assert Rules[..10] == Rules;
  }
}
