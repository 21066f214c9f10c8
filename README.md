# Social media content analyzer — a Dafny model of the server core

The server accepts up to five uploaded files (PDFs or images) per request. It
extracts the text of each one, normalises it, counts characters, words,
sentences and paragraphs, and derives engagement suggestions and warnings for
a social-media post. This project models the core of that pipeline and proves
what it does:

- `js_string.dfy` (`JsString`): the ECMAScript string primitives the code
  relies on. These are the `\s` class (WhiteSpace and LineTerminator),
  `trim`, `includes`, `startsWith`, `join`, the case mappings and
  `length`, which counts UTF-16 code units.
- `regex.dfy` (`Regex`): the concrete regular expressions of the text
  utilities, as a left-to-right greedy scanner with the backtracking written
  out. On top of it sit global `replace`, `split` and `match` counting.
- `normalizer.dfy` (`Normalizer`): `cleanText` and `preserveFormatting`.
- `analyzer.dfy` (`Analyzer`): `analyzeText`.
- `advisor.dfy` (`Advisor`): `generateEngagementSuggestions`. The model is a
  method that runs one step per section of the source. It is proved against
  a table of the ten checks in source order.
- `pdf_service.dfy` (`PdfService`): `extractTextFromPDF` with its
  primary/fallback chain, and the page loop of `extractWithPDFJS`.
- `extract_route.dfy` (`ExtractRoute`): the `/extract` handler. It rejects an
  empty upload, dispatches on MIME type, and builds one record per file in
  input order, each failure isolated in its own record.

The libraries the code calls are inputs to the model: pdf-parse, pdfjs-dist
and Tesseract. What each library produced for a file's bytes is part of that
file's `Content`.

Where the code and its documented behaviour differ, the model follows the
code:

- Suggestions come before warnings in a success record (`extract.ts:63`).
- The PDF fallback runs only when pdf-parse throws. Blank text from pdf-parse
  is a final failure (`pdf.ts:13-30`).
- When both PDF libraries throw, the message reports the pdf-parse error and
  drops the fallback's (`pdf.ts:31-36`).
- A failure record always has type `unknown`, even for a file already
  classified as PDF or image (`extract.ts:79-88`).
- `cleanText` is not idempotent on input that contains CR. For example,
  `"a\r\r\nb"` cleans to `"a\r\nb"`, which cleans to `"a\nb"`. Idempotence
  holds for text without CR.
- Despite the comment at `text.ts:87`, `preserveFormatting` does not keep
  paragraph breaks. The multiline `^\s+|\s+$` replace deletes every blank
  line together with the LFs around it, so `"a\n\nb"` becomes `"ab"`. No two
  LF are ever adjacent in its result.

## Model

| member | source | states |
|---|---|---|
| JsString.Trim | apps/server/src/utils/text.ts:83 | `trim` returns the slice of the input without leading and trailing whitespace; the slice has no whitespace at either end, and it is empty exactly when the input is blank |
| JsString.TrimTrimmed | apps/server/src/utils/text.ts:83 | a string with no whitespace at either end is its own trim |
| JsString.TrimVisible | apps/server/src/utils/text.ts:83 | trimming removes whitespace only: the other characters survive in order |
| JsString.ToUpperCase | apps/server/src/utils/text.ts:62 | the upper-case form keeps the length, turns each lower-case letter into its upper-case partner, leaves every other character alone and has no lower-case letter; a text equals its upper-case form exactly when it has no lower-case letter |
| JsString.ToLowerCase | apps/server/src/utils/text.ts:48 | the lower-case form keeps the length, turns each upper-case letter into its lower-case partner (32 code points on) and leaves every other character alone |
| JsString.LowerCaseIgnoresCase | apps/server/src/utils/text.ts:47-49 | lower-casing makes the keyword search case-insensitive: a text and its upper-case form lower-case to the same string |
| JsString.Utf16Length | apps/server/src/utils/text.ts:14 | `length` counts UTF-16 code units: at least one and at most two per code point |
| JsString.Utf16Concat | apps/server/src/utils/text.ts:14 | the length of a concatenation is the sum of the lengths |
| JsString.Utf16LengthBmp | apps/server/src/utils/text.ts:14 | the length equals the number of code points exactly when none lies above U+FFFF |
| JsString.IncludesIff | apps/server/src/utils/text.ts:47-49 | `includes` holds exactly when the key occurs at some offset |
| JsString.JoinBlankIff | apps/server/src/services/pdf.ts:60-62 | joining with a whitespace separator gives blank text exactly when every part is blank |
| Regex.MatchAt | apps/server/src/utils/text.ts:13-92 | the match each regular expression of the file finds starting at an index, with greedy repetition and the backtracking of `\n\s*\n` and of the multiline edge-whitespace pattern written out; every match is non-empty and ends within the text |
| Regex.ReplaceFrom | apps/server/src/utils/text.ts:79-92 | a global `replace`: scan left to right, replace each match and resume after it, copy other characters |
| Regex.SplitFrom | apps/server/src/utils/text.ts:15-17 | `split`: the segments between successive matches, scanning left to right; there is always at least one segment |
| Regex.CountFrom | apps/server/src/utils/text.ts:34-35 | the number of matches a global `match` finds, scanning left to right and resuming after each match |
| Regex.ReplaceWithoutMatch | apps/server/src/utils/text.ts:81-82 | a global replace copies the rest of the input unchanged when no match starts in it |
| Regex.SplitWithoutMatch | apps/server/src/utils/text.ts:16-17 | a split with no match in the rest of the input yields that rest as its last and only remaining segment |
| Regex.ReplaceKeepsVisible | apps/server/src/utils/text.ts:81-90 | replacing whitespace-only matches by whitespace keeps every other character, in order |
| Normalizer.CleanText | apps/server/src/utils/text.ts:79-84 | `cleanText`: the CR LF replace, the `\n{3,}` collapse and `trim`, in source order; its properties are the lemmas below |
| Normalizer.PreserveFormatting | apps/server/src/utils/text.ts:86-92 | `preserveFormatting`: the `\n\s*\n` replace, the multiline edge-whitespace removal and `trim`, in source order |
| Normalizer.CrLfNormalised | apps/server/src/utils/text.ts:81 | the first replace equals the reference definition "delete every CR that an LF follows" |
| Normalizer.CollapseRun | apps/server/src/utils/text.ts:82 | at a run of n LF the second replace emits n LF when n < 3 and two LF otherwise |
| Normalizer.CollapseNoRun3 | apps/server/src/utils/text.ts:82 | after the second replace no three LF are adjacent |
| Normalizer.CleanTextShape | apps/server/src/utils/text.ts:79-84 | `cleanText` returns text with no whitespace at either end and no three adjacent LF |
| Normalizer.CleanTextKeepsNoCr | apps/server/src/utils/text.ts:79-84 | `cleanText` introduces no CR |
| Normalizer.CleanTextFixedPoint | apps/server/src/utils/text.ts:79-84 | trimmed text without CR and without three adjacent LF is left unchanged |
| Normalizer.CleanTextIdempotent | apps/server/src/utils/text.ts:79-84 | on text without CR, `cleanText` is idempotent |
| Normalizer.CleanTextNotIdempotent | apps/server/src/utils/text.ts:79-84 | `"a\r\r\nb"` cleans to `"a\r\nb"`, and cleaning again gives `"a\nb"` |
| Normalizer.StripShape | apps/server/src/utils/text.ts:90 | after removing every `^\s+` and `\s+$` match (multiline), no whitespace sits next to a line terminator and the text does not end in whitespace |
| Normalizer.PreserveFormattingShape | apps/server/src/utils/text.ts:86-92 | `preserveFormatting` returns trimmed text in which every line terminator has a non-whitespace character on each side; in particular no two LF are adjacent |
| Normalizer.PreserveFormattingJoinsParagraphs | apps/server/src/utils/text.ts:86-92 | `"a\n\nb"` becomes `"ab"` |
| Normalizer.NormalisationKeepsVisible | apps/server/src/utils/text.ts:79-92 | both normalisers keep every non-whitespace character, in order |
| Analyzer.WordCount | apps/server/src/utils/text.ts:15 | the `\s+` split, keeping the non-empty segments, counted |
| Analyzer.SentenceCount | apps/server/src/utils/text.ts:16 | the `[.!?]+` split, keeping the segments that are not blank, counted |
| Analyzer.ParagraphCount | apps/server/src/utils/text.ts:17 | the `\n\s*\n` split, keeping the segments that are not blank, counted |
| Analyzer.AnalyzeText | apps/server/src/utils/text.ts:13-20 | `chars` is the text's `length` in UTF-16 code units, between the number of code points and twice that |
| Analyzer.SplitWordsCount | apps/server/src/utils/text.ts:15 | the number of non-empty segments of a `\s+` split equals the number of word starts |
| Analyzer.AnalyzeWords | apps/server/src/utils/text.ts:15 | `words` is the number of maximal non-whitespace runs; it is zero exactly for blank text and never exceeds `chars` |
| Analyzer.SentencesWithoutTerminator | apps/server/src/utils/text.ts:16 | a text without `.`, `!` or `?` is one sentence, or none when blank |
| Analyzer.ParagraphsWithoutLineFeed | apps/server/src/utils/text.ts:17 | a text without LF is one paragraph, or none when blank |
| Analyzer.AnalyzeEmpty | apps/server/src/utils/text.ts:13-20 | the empty text has every count zero |
| Advisor.Fires | apps/server/src/utils/text.ts:26-74 | the condition of each of the ten checks on its own, with the `else if` chains as exclusions |
| Advisor.Advice | apps/server/src/utils/text.ts:22-77 | the two lists the function returns: the ten checks made in source order |
| Advisor.InAdvice | apps/server/src/utils/text.ts:22-77 | one check's message is in its list exactly when the check fires |
| Advisor.RunMembers | apps/server/src/utils/text.ts:22-77 | a check's message is in `suggestions` (or `warnings`) exactly when the check is a suggestion (or a warning) and its condition holds |
| Advisor.RunOrdered | apps/server/src/utils/text.ts:22-77 | both lists keep the order in which the checks are made |
| Advisor.AdviceContents | apps/server/src/utils/text.ts:22-77 | for the real conditions: membership in each list holds exactly when the check fires and belongs to that list, and each list is in source order |
| Advisor.RunBounds | apps/server/src/utils/text.ts:26-43 | given the exclusions of the two `else if` chains, at most five suggestions and three warnings are pushed |
| Advisor.AdviceBounds | apps/server/src/utils/text.ts:22-77 | the function returns at most five suggestions and at most three warnings |
| Advisor.LengthWarnings | apps/server/src/utils/text.ts:26-31 | the short warning fires exactly below 80 characters; the long warning fires exactly at 80 or more characters with more than 300 words |
| Advisor.HashtagCountFrom | apps/server/src/utils/text.ts:34-35 | from any offset, the global `#\w+` match count equals the number of `#` characters there followed by a word character |
| Advisor.HashtagCountSpec | apps/server/src/utils/text.ts:34-35 | the hashtag count of a text is the number of its `#` characters followed by a word character |
| Advisor.HashtagAdvice | apps/server/src/utils/text.ts:33-43 | the "add hashtags", "too many" and "good usage" messages fire exactly for 0, more than 9 and 1 to 3 hashtags, and at most one of them fires |
| Advisor.KeywordsLowerCase | apps/server/src/utils/text.ts:46-48 | lower-casing the keywords changes none of them |
| Advisor.CallToActionIff | apps/server/src/utils/text.ts:45-49 | a call to action is present exactly when some keyword occurs in the lower-cased text |
| Advisor.CallToActionAdvice | apps/server/src/utils/text.ts:45-53 | the call-to-action suggestion fires exactly when no keyword occurs anywhere in the lower-cased text |
| Advisor.RealThreshold | apps/server/src/utils/text.ts:56-57 | for a divisor of at least 1, `w / d > 25` holds exactly when `w > 25 * d` |
| Advisor.ReadabilityAdvice | apps/server/src/utils/text.ts:55-59 | the long-sentence suggestion fires exactly when words divided by `max(sentences, 1)` exceeds 25 |
| Advisor.CapsFires | apps/server/src/utils/text.ts:62-64 | the caps warning fires exactly when the text equals its upper-case form and is longer than 10 UTF-16 code units |
| Advisor.CapsWarning | apps/server/src/utils/text.ts:61-64 | the caps warning fires exactly when the text is longer than 10 UTF-16 code units and holds no lower-case letter |
| Advisor.LongLineIff | apps/server/src/utils/text.ts:66-67 | some line is longer than 80 UTF-16 code units exactly when some stretch of the text without LF is longer than 80 code units |
| Advisor.LongRunBmp | apps/server/src/utils/text.ts:66 | for code points below U+10000 such a stretch is long exactly when it holds 81 of them |
| Advisor.LineBreakAdvice | apps/server/src/utils/text.ts:66-69 | the line-break suggestion fires exactly when some stretch of the text without LF is longer than 80 UTF-16 code units |
| Advisor.GreatContentAdvice | apps/server/src/utils/text.ts:71-74 | the praise fires exactly for 80 to 200 words with 1 to 5 hashtags; with 1 to 3 hashtags it fires together with "good hashtag usage" |
| Advisor.CheckLength | apps/server/src/utils/text.ts:26-31 | the length checks extend the lists exactly as the first two rows of the check table |
| Advisor.HashtagRows | apps/server/src/utils/text.ts:37-43 | the three hashtag checks push in turn on a count of 0, above 9, and 1 to 3 |
| Advisor.CheckHashtags | apps/server/src/utils/text.ts:33-43 | returns the hashtag count and extends the lists as the three hashtag rows |
| Advisor.CheckCallToAction | apps/server/src/utils/text.ts:45-53 | extends the lists as the call-to-action row |
| Advisor.CheckReadability | apps/server/src/utils/text.ts:55-59 | extends the lists as the readability row |
| Advisor.CheckFormatting | apps/server/src/utils/text.ts:61-69 | extends the lists as the caps and long-line rows |
| Advisor.CheckStrongPost | apps/server/src/utils/text.ts:71-74 | extends the lists as the praise row |
| Advisor.GenerateEngagementSuggestions | apps/server/src/utils/text.ts:22-77 | the lists built step by step are those the check table gives for the text and its stats |
| PdfService.PagesText | apps/server/src/services/pdf.ts:53-65 | `fullText` after the given pages: each page's item strings joined by spaces, then LF |
| PdfService.PdfjsExtract | apps/server/src/services/pdf.ts:41-82 | `extractWithPDFJS` on what pdfjs-dist did: the prefixed rethrow, the blank-text failure, or success with the untrimmed text |
| PdfService.ExtractWithPdfjs | apps/server/src/services/pdf.ts:41-82 | the page loop accumulates each page's items joined by spaces plus LF; the result is the fallback's specified outcome |
| PdfService.PagesTextLength | apps/server/src/services/pdf.ts:56-65 | the accumulated text has at least one character per page and ends with LF |
| PdfService.PagesTextBlankIff | apps/server/src/services/pdf.ts:56-73 | the accumulated text is blank exactly when every item string of every page is blank |
| PdfService.PdfjsExtractSpec | apps/server/src/services/pdf.ts:41-82 | the fallback throws exactly when pdfjs-dist threw, with the `PDF.js fallback failed:` message; otherwise its result is well formed, and it succeeds, with the untrimmed text, exactly when some item is not blank |
| PdfService.ExtractTextFromPdf | apps/server/src/services/pdf.ts:9-38 | every path returns a well-formed result: success with non-blank text and no error, or failure with empty text and an error |
| PdfService.PrimaryParsed | apps/server/src/services/pdf.ts:11-24 | visible pdf-parse text is returned unchanged; blank text gives the fixed failure, with no fallback |
| PdfService.FallbackOnlyOnThrow | apps/server/src/services/pdf.ts:25-30 | when pdf-parse returned, the fallback's outcome does not matter |
| PdfService.FallbackPassedThrough | apps/server/src/services/pdf.ts:29-30 | when pdf-parse threw and the fallback returned, its result is passed through |
| PdfService.DoubleFailure | apps/server/src/services/pdf.ts:31-36 | when both throw, the failure names the pdf-parse error, and the fallback's message is dropped |
| ExtractRoute.Read | apps/server/src/routes/extract.ts:28-52 | MIME dispatch and the provider call, with a failed result turned into the thrown message |
| ExtractRoute.ProcessFile | apps/server/src/routes/extract.ts:27-88 | the record one file gives: the failure record, or the normalised text with its counts and messages |
| ExtractRoute.ProcessAll | apps/server/src/routes/extract.ts:24-90 | the records the loop pushes, one per file, in order |
| ExtractRoute.Respond | apps/server/src/routes/extract.ts:15-92 | the handler's answer: the 400 body for no files, otherwise the records |
| ExtractRoute.ErrorOr | apps/server/src/routes/extract.ts:36-38 | a present, non-empty provider error is the message; otherwise the default message is used |
| ExtractRoute.ProcessUpload | apps/server/src/routes/extract.ts:27-88 | one loop turn pushes the record specified for the file |
| ExtractRoute.HandleExtract | apps/server/src/routes/extract.ts:14-92 | the handler's response is the specified response: 400 for no files, otherwise the records of the loop |
| ExtractRoute.ProcessAllAt | apps/server/src/routes/extract.ts:24-90 | the i-th record is made from the i-th file |
| ExtractRoute.RespondShape | apps/server/src/routes/extract.ts:17-92 | a missing or empty file list gives exactly the 400 "No files provided" response; otherwise there is one record per file, in input order, carrying the file's name |
| ExtractRoute.Isolation | apps/server/src/routes/extract.ts:26-89 | the record of a file depends on that file alone |
| ExtractRoute.PdfDispatch | apps/server/src/routes/extract.ts:32-40 | an `application/pdf` file takes the PDF service's text or its error message verbatim |
| ExtractRoute.PdfErrorNamed | apps/server/src/routes/extract.ts:36-38 | every PDF failure carries a non-empty message, so the default message is never used for PDFs |
| ExtractRoute.ImageDispatch | apps/server/src/routes/extract.ts:41-49 | any other `image/` type takes the OCR text or its message, or the default, and the PDF outcomes play no part |
| ExtractRoute.UnsupportedType | apps/server/src/routes/extract.ts:50-52 | any other type fails with "Unsupported file type", whatever the libraries would have produced |
| ExtractRoute.FailureShape | apps/server/src/routes/extract.ts:76-88 | a failed file gives type `unknown`, empty text, zero counts and the single `Error: ` line |
| ExtractRoute.SuccessShape | apps/server/src/routes/extract.ts:55-74 | a file that was read keeps its name and classification, shows the normalised text with its UTF-16 length and word count, and lists suggestions before warnings |
| ExtractRoute.SuccessKeepsVisible | apps/server/src/routes/extract.ts:55-56 | the shown text has the same non-whitespace characters as the extracted text |

## Left out

- HTTP and Express are not modelled: status codes, JSON serialisation, the
  Multer middleware with its five-file limit and MIME whitelist, the server
  wiring, and the web client. `Response` records only the 400 body and the
  result list.
- The outer `catch` that answers 500 is not modelled. Every per-file failure
  is caught inside the loop, so nothing reaches it.
- `console.error` logging is not modelled.
- `async`/`await` is modelled as sequential execution, in input order.
- The PDF and OCR libraries are inputs, not models. This covers pdf-parse;
  the pdfjs-dist import, worker URL, document loading and page reads; and
  Tesseract. A throw anywhere inside the fallback's `try` is one
  `LoadFailed` outcome. The OCR confidence and `isImageReadable` are not
  used by the route and are left out.
- pdf-parse's `text` is taken to be a string. A missing `text` would behave
  like the empty string in the same branch.
- JsString.ToUpperCase: maps ASCII letters only. Full Unicode case mapping,
  which can change a string's length, is out of scope.
- JsString.ToLowerCase: maps ASCII letters only, for the same reason.
- Strings are sequences of Unicode code points, and `length` is derived
  from them: two code units above U+FFFF, one otherwise. A JavaScript string
  that holds an unpaired surrogate cannot be represented.
- Advisor.ReadabilityAdvice: the division is exact real division, not IEEE
  double division. The two differ only for sentence counts above about 2^47.
- Advisor.GenerateEngagementSuggestions: the lists hold the checks that fired
  rather than their strings; `Advisor.Message` gives each string exactly and
  `Advisor.Texts` maps a list to strings. The route records hold the strings.
- Regex: only the patterns the text utilities use are modelled. `\w` is the
  ASCII class, as without the `u` flag.
