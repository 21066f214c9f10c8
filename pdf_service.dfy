/**
 * `extractTextFromPDF` and its fallback `extractWithPDFJS`
 * (apps/server/src/services/pdf.ts). The two libraries are not modelled:
 * what each of them produced for the uploaded buffer is an input.
 */
module PdfService {
  import opened Wrappers
  import opened JsString

  /** `PDFExtractionResult`; `error` is absent on success. */
  datatype ExtractionResult = ExtractionResult(text: string, success: bool, error: Option<string>)

  /** A thrown value: an `Error` object with its message, or anything else. */
  datatype Thrown = ErrorObject(message: string) | OtherValue

  /** `error instanceof Error ? error.message : 'Unknown error'` */
  function Describe(e: Thrown): string {
    match e
    case ErrorObject(m) => m
    case OtherValue => "Unknown error"
  }

  /** How an async call ended: its promise resolved to a value, or it threw. */
  datatype Attempt<T> = Returned(value: T) | Threw(thrown: Thrown)

  /** What `pdfParse(buffer)` did: the text it found, or what it threw. */
  datatype ParseOutcome = Parsed(text: string) | ParseFailed(thrown: Thrown)

  /**
   * What pdfjs-dist did inside the fallback's `try`: the `str` of every text
   * item, page by page, or what the import, the loading or a page read threw.
   */
  datatype PdfjsOutcome = Loaded(pages: seq<seq<string>>) | LoadFailed(thrown: Thrown)

  function Failure(message: string): (r: ExtractionResult)
    ensures !r.success && r.text == "" && r.error == Some(message)
  {
    ExtractionResult("", false, Some(message))
  }

  function Success(text: string): (r: ExtractionResult)
    ensures r.success && r.text == text && r.error.None?
  {
    ExtractionResult(text, true, None)
  }

  /**
   * A result is well formed when it either succeeds with visible text and no
   * error, or fails with empty text and an error message.
   */
  predicate WellFormed(r: ExtractionResult) {
    (r.success <==> r.error.None?) &&
    (r.success ==> !AllWhitespace(r.text)) &&
    (!r.success ==> r.text == "")
  }

  // ---------------------------------------------------------------------------
  // The pdfjs fallback

  /** The text of one page: the items' strings joined by single spaces. */
  function PageText(items: seq<string>): string {
    Join(items, " ")
  }

  /** `fullText` after the pages given: each page's text followed by LF. */
  function PagesText(pages: seq<seq<string>>): string
    decreases |pages|
  {
    if pages == [] then ""
    else PagesText(pages[..|pages| - 1]) + PageText(pages[|pages| - 1]) + "\n"
  }

  /** extractWithPDFJS, specified on the outcome of the library calls. */
  function PdfjsExtract(outcome: PdfjsOutcome): Attempt<ExtractionResult> {
    match outcome
    case LoadFailed(t) => Threw(ErrorObject("PDF.js fallback failed: " + Describe(t)))
    case Loaded(pages) =>
      var fullText := PagesText(pages);
      if Trim(fullText) == "" then Returned(Failure("No text content found in PDF (pdfjs fallback)"))
      else Returned(Success(fullText))
  }

  /** extractWithPDFJS: the page loop accumulating `fullText`, then the blank check. */
  method ExtractWithPdfjs(outcome: PdfjsOutcome) returns (r: Attempt<ExtractionResult>)
    ensures r == PdfjsExtract(outcome)
  {
    match outcome {
      case LoadFailed(t) =>
        r := Threw(ErrorObject("PDF.js fallback failed: " + Describe(t)));
      case Loaded(pages) =>
        var fullText := "";
        var pageNum := 1;
        while pageNum <= |pages|
          invariant 1 <= pageNum <= |pages| + 1
          invariant fullText == PagesText(pages[..pageNum - 1])
        {
          var pageText := PageText(pages[pageNum - 1]);
          assert pages[..pageNum][..pageNum - 1] == pages[..pageNum - 1];
          fullText := fullText + pageText + "\n";
          pageNum := pageNum + 1;
        }
        assert pages[..|pages|] == pages;
        if Trim(fullText) == "" {
          r := Returned(Failure("No text content found in PDF (pdfjs fallback)"));
        } else {
          r := Returned(Success(fullText));
        }
    }
  }

  /** Every page ends with an LF, so the text is at least one character per page. */
  lemma {:induction false} PagesTextLength(pages: seq<seq<string>>)
    ensures |PagesText(pages)| >= |pages|
    ensures pages != [] ==> PagesText(pages)[|PagesText(pages)| - 1] == '\n'
    decreases |pages|
  {
    if pages != [] {
      PagesTextLength(pages[..|pages| - 1]);
    }
  }

  /** Every item string of one page is blank. */
  predicate ItemsBlank(items: seq<string>) {
    forall i :: 0 <= i < |items| ==> AllWhitespace(items[i])
  }

  /** Every item string of every page is blank. */
  predicate AllItemsBlank(pages: seq<seq<string>>) {
    forall p, i :: 0 <= p < |pages| && 0 <= i < |pages[p]| ==> AllWhitespace(pages[p][i])
  }

  lemma AllItemsBlankSnoc(pages: seq<seq<string>>)
    requires pages != []
    ensures AllItemsBlank(pages) <==>
      AllItemsBlank(pages[..|pages| - 1]) && ItemsBlank(pages[|pages| - 1])
  {
    var n := |pages| - 1;
    assert forall p :: 0 <= p < n ==> pages[..n][p] == pages[p];
  }

  /** The accumulated text is blank exactly when every item string of every page is blank. */
  lemma {:induction false} PagesTextBlankIff(pages: seq<seq<string>>)
    ensures AllWhitespace(PagesText(pages)) <==> AllItemsBlank(pages)
    decreases |pages|
  {
    if pages != [] {
      var n := |pages| - 1;
      var init := pages[..n];
      PagesTextBlankIff(init);
      JoinBlankIff(pages[n], " ");
      AllWhitespaceConcat(PagesText(init) + PageText(pages[n]), "\n");
      AllWhitespaceConcat(PagesText(init), PageText(pages[n]));
      AllItemsBlankSnoc(pages);
    }
  }

  /**
   * The fallback throws exactly when pdfjs-dist threw, with the prefixed
   * message; otherwise its result is well formed, and on success the text is
   * the accumulated text, untrimmed.
   */
  lemma PdfjsExtractSpec(outcome: PdfjsOutcome)
    ensures PdfjsExtract(outcome).Threw? <==> outcome.LoadFailed?
    ensures outcome.LoadFailed? ==>
      PdfjsExtract(outcome).thrown == ErrorObject("PDF.js fallback failed: " + Describe(outcome.thrown))
    ensures outcome.Loaded? ==> WellFormed(PdfjsExtract(outcome).value)
    ensures outcome.Loaded? && PdfjsExtract(outcome).value.success ==>
      PdfjsExtract(outcome).value.text == PagesText(outcome.pages)
    ensures outcome.Loaded? ==>
      (PdfjsExtract(outcome).value.success <==> !AllItemsBlank(outcome.pages))
  {
    if outcome.Loaded? {
      PagesTextBlankIff(outcome.pages);
    }
  }

  // ---------------------------------------------------------------------------
  // extractTextFromPDF

  /**
   * extractTextFromPDF: pdf-parse first; its text is returned as it is unless
   * it is blank. Only when pdf-parse throws is the fallback tried, and when
   * that throws too the primary error is reported. The function never throws.
   */
  function ExtractTextFromPdf(parse: ParseOutcome, fallback: PdfjsOutcome): (r: ExtractionResult)
    ensures WellFormed(r)
  {
    match parse
    case Parsed(text) =>
      if |Trim(text)| == 0 then Failure("No text content found in PDF")
      else Success(text)
    case ParseFailed(e) =>
      PdfjsExtractSpec(fallback);
      match PdfjsExtract(fallback)
      case Returned(result) => result
      case Threw(_) => Failure("PDF extraction failed: " + Describe(e))
  }

  /** Text from pdf-parse is returned unchanged when visible, and the fallback is never consulted. */
  lemma PrimaryParsed(text: string, fallback: PdfjsOutcome)
    ensures !AllWhitespace(text) ==> ExtractTextFromPdf(Parsed(text), fallback) == Success(text)
    ensures AllWhitespace(text) ==>
      ExtractTextFromPdf(Parsed(text), fallback) == Failure("No text content found in PDF")
  {
  }

  /** The fallback only matters when pdf-parse threw. */
  lemma FallbackOnlyOnThrow(parse: ParseOutcome, f1: PdfjsOutcome, f2: PdfjsOutcome)
    requires parse.Parsed?
    ensures ExtractTextFromPdf(parse, f1) == ExtractTextFromPdf(parse, f2)
  {
  }

  /** When pdf-parse threw and the fallback read the document, its result is passed through. */
  lemma FallbackPassedThrough(e: Thrown, pages: seq<seq<string>>)
    ensures ExtractTextFromPdf(ParseFailed(e), Loaded(pages)) == PdfjsExtract(Loaded(pages)).value
    ensures ExtractTextFromPdf(ParseFailed(e), Loaded(pages)).success ==>
      ExtractTextFromPdf(ParseFailed(e), Loaded(pages)).text == PagesText(pages)
  {
    PdfjsExtractSpec(Loaded(pages));
  }

  /**
   * When both libraries throw, the error names the pdf-parse failure; what
   * the fallback threw is not reported.
   */
  lemma DoubleFailure(e: Thrown, t: Thrown)
    ensures ExtractTextFromPdf(ParseFailed(e), LoadFailed(t)) ==
      Failure("PDF extraction failed: " + Describe(e))
  {
  }
}
