/**
 * The body of the `POST /extract` handler (apps/server/src/routes/extract.ts):
 * reject an empty upload, otherwise turn every uploaded file, in order, into
 * one result record, catching each file's failure into a record of its own.
 */
module ExtractRoute {
  import opened Wrappers
  import opened JsString
  import opened Normalizer
  import opened Analyzer
  import opened Advisor
  import opened PdfService

  /** What `extractTextFromImage` returned (its `confidence` is not used here). */
  datatype OcrResult = OcrResult(text: string, success: bool, error: Option<string>)

  /** What the libraries produce for the file's bytes. */
  datatype Content = Content(parse: ParseOutcome, fallback: PdfjsOutcome, ocr: OcrResult)

  /** A Multer upload: the client's file name, its MIME type and its content. */
  datatype UploadedFile = UploadedFile(originalname: string, mimetype: string, content: Content)

  /** The `type` field of a record. */
  datatype FileType = Pdf | Image | Unknown

  datatype ItemStats = ItemStats(chars: nat, words: nat)

  datatype FileResult = FileResult(
    filename: string, fileType: FileType, text: string, stats: ItemStats, suggestions: seq<string>)

  datatype Response = BadRequest(status: nat, message: string) | Ok(results: seq<FileResult>)

  /** The `try` block up to the text normalisation: the raw text, or the thrown message. */
  datatype Extracted = Extracted(fileType: FileType, raw: string) | Failed(message: string)

  /** `result.error || fallback`: an absent or empty error gives the fallback. */
  function ErrorOr(error: Option<string>, fallback: string): (m: string)
    ensures error.Some? && error.value != "" ==> m == error.value
    ensures error.None? || error.value == "" ==> m == fallback
  {
    if error.Some? && error.value != "" then error.value else fallback
  }

  predicate IsPdf(f: UploadedFile) {
    f.mimetype == "application/pdf"
  }

  predicate IsImage(f: UploadedFile) {
    StartsWith(f.mimetype, "image/")
  }

  /** MIME dispatch and the provider call, with a failed result thrown as an `Error`. */
  function Read(f: UploadedFile): Extracted {
    if IsPdf(f) then
      var r := ExtractTextFromPdf(f.content.parse, f.content.fallback);
      if !r.success then Failed(ErrorOr(r.error, "PDF extraction failed"))
      else Extracted(Pdf, r.text)
    else if IsImage(f) then
      var r := f.content.ocr;
      if !r.success then Failed(ErrorOr(r.error, "OCR extraction failed"))
      else Extracted(Image, r.text)
    else Failed("Unsupported file type")
  }

  /** The record `catch (fileError)` pushes. */
  function FailureRecord(f: UploadedFile, message: string): FileResult {
    FileResult(f.originalname, Unknown, "", ItemStats(0, 0), ["Error: " + message])
  }

  /** The text a successful file shows: cleaned, then formatted. */
  function Normalised(raw: string): string {
    PreserveFormatting(CleanText(raw))
  }

  /** The record pushed for one file. */
  function ProcessFile(f: UploadedFile): FileResult {
    match Read(f)
    case Failed(message) => FailureRecord(f, message)
    case Extracted(fileType, raw) =>
      var text := Normalised(raw);
      var stats := AnalyzeText(text);
      var engagement := Advice(text, stats);
      FileResult(f.originalname, fileType, text, ItemStats(stats.chars, stats.words),
                 Texts(engagement.suggestions + engagement.warnings))
  }

  /** The records the loop pushes for `files`, in order, each made by `process`. */
  function ProcessAll(process: UploadedFile -> FileResult, files: seq<UploadedFile>): (r: seq<FileResult>)
    ensures |r| == |files|
    decreases |files|
  {
    if files == [] then []
    else ProcessAll(process, files[..|files| - 1]) + [process(files[|files| - 1])]
  }

  /** The response for the request's `files`, absent when Multer saw no file field. */
  function Respond(files: Option<seq<UploadedFile>>): Response {
    if files.None? || |files.value| == 0 then BadRequest(400, "No files provided")
    else Ok(ProcessAll(ProcessFile, files.value))
  }

  /** One turn of the loop: the `try` block and its `catch`. */
  method ProcessUpload(file: UploadedFile) returns (item: FileResult)
    ensures item == ProcessFile(file)
  {
    match Read(file) {
      case Failed(message) =>
        item := FailureRecord(file, message);
      case Extracted(fileType, extractedText) =>
        var cleanedText := CleanText(extractedText);
        var formattedText := PreserveFormatting(cleanedText);
        var stats := AnalyzeText(formattedText);
        var engagement := GenerateEngagementSuggestions(formattedText, stats);
        var allSuggestions := engagement.suggestions + engagement.warnings;
        item := FileResult(file.originalname, fileType, formattedText,
                           ItemStats(stats.chars, stats.words), Texts(allSuggestions));
    }
  }

  /** The handler: the empty check, then the loop pushing one record per file. */
  method HandleExtract(files: Option<seq<UploadedFile>>) returns (resp: Response)
    ensures resp == Respond(files)
  {
    if files.None? || |files.value| == 0 {
      return BadRequest(400, "No files provided");
    }
    var uploads := files.value;
    var results: seq<FileResult> := [];
    var k := 0;
    while k < |uploads|
      invariant 0 <= k <= |uploads|
      invariant results == ProcessAll(ProcessFile, uploads[..k])
    {
      var item := ProcessUpload(uploads[k]);
      ProcessAllSnoc(ProcessFile, uploads, k);
      results := results + [item];
      k := k + 1;
    }
    assert uploads[..k] == uploads;
    resp := Ok(results);
  }

  // ---------------------------------------------------------------------------
  // The response

  lemma ProcessAllSnoc(process: UploadedFile -> FileResult, files: seq<UploadedFile>, k: nat)
    requires k < |files|
    ensures ProcessAll(process, files[..k + 1]) == ProcessAll(process, files[..k]) + [process(files[k])]
  {
    assert files[..k + 1][..k] == files[..k];
  }

  /** The i-th record is the record of the i-th file. */
  lemma {:induction false} ProcessAllAt(process: UploadedFile -> FileResult, files: seq<UploadedFile>)
    ensures forall i :: 0 <= i < |files| ==> ProcessAll(process, files)[i] == process(files[i])
    decreases |files|
  {
    if files != [] {
      var init := files[..|files| - 1];
      ProcessAllAt(process, init);
      assert forall i :: 0 <= i < |init| ==> init[i] == files[i];
    }
  }

  /**
   * No file: the fixed 400 response. Otherwise one record per file, in input
   * order, carrying the file's name whether it succeeded or not.
   */
  lemma RespondShape(files: Option<seq<UploadedFile>>)
    ensures Respond(files).BadRequest? <==> files.None? || files.value == []
    ensures Respond(files).BadRequest? ==> Respond(files) == BadRequest(400, "No files provided")
    ensures Respond(files).Ok? ==>
      |Respond(files).results| == |files.value| &&
      forall i :: 0 <= i < |files.value| ==>
        Respond(files).results[i] == ProcessFile(files.value[i]) &&
        Respond(files).results[i].filename == files.value[i].originalname
  {
    if files.Some? {
      ProcessAllAt(ProcessFile, files.value);
    }
  }

  /** The record of a file depends on that file alone, not on the other files. */
  lemma Isolation(files1: seq<UploadedFile>, files2: seq<UploadedFile>, i: nat)
    requires i < |files1| && i < |files2| && files1[i] == files2[i]
    ensures Respond(Some(files1)).results[i] == Respond(Some(files2)).results[i]
  {
    RespondShape(Some(files1));
    RespondShape(Some(files2));
  }

  // ---------------------------------------------------------------------------
  // Dispatch

  /**
   * `application/pdf` goes to the PDF service, which alone decides the
   * outcome; the PDF error is reported as it is, never as the bare default,
   * since the service always names its failure.
   */
  lemma PdfDispatch(f: UploadedFile)
    requires IsPdf(f)
    ensures var r := ExtractTextFromPdf(f.content.parse, f.content.fallback);
      Read(f) == if r.success then Extracted(Pdf, r.text) else Failed(r.error.value)
  {
    var r := ExtractTextFromPdf(f.content.parse, f.content.fallback);
    if !r.success {
      PdfErrorNamed(f.content.parse, f.content.fallback);
    }
  }

  /** Every failure of the PDF service carries a non-empty message. */
  lemma PdfErrorNamed(parse: ParseOutcome, fallback: PdfjsOutcome)
    requires !ExtractTextFromPdf(parse, fallback).success
    ensures ExtractTextFromPdf(parse, fallback).error.Some?
    ensures ExtractTextFromPdf(parse, fallback).error.value != ""
  {
    var prefix := "PDF extraction failed: ";
    if parse.ParseFailed? && fallback.LoadFailed? {
      assert (prefix + Describe(parse.thrown))[0] == prefix[0];
    } else if parse.ParseFailed? {
      var blank := "No text content found in PDF (pdfjs fallback)";
      assert ExtractTextFromPdf(parse, fallback).error.value == blank;
    }
  }

  /** Another MIME type starting with `image/` goes to OCR; the PDF outcomes play no part. */
  lemma ImageDispatch(f: UploadedFile, parse: ParseOutcome, fallback: PdfjsOutcome)
    requires !IsPdf(f) && IsImage(f)
    ensures Read(f) == if f.content.ocr.success then Extracted(Image, f.content.ocr.text)
      else Failed(ErrorOr(f.content.ocr.error, "OCR extraction failed"))
    ensures Read(f) == Read(f.(content := f.content.(parse := parse, fallback := fallback)))
  {
  }

  /** Any other MIME type fails before a provider is consulted. */
  lemma UnsupportedType(f: UploadedFile, c: Content)
    requires !IsPdf(f) && !IsImage(f)
    ensures Read(f) == Failed("Unsupported file type")
    ensures ProcessFile(f) == ProcessFile(f.(content := c))
  {
  }

  // ---------------------------------------------------------------------------
  // Records

  /**
   * A failed file gives the fixed record: type `unknown` whatever the file
   * was, empty text, zero counts and the one `Error:` line.
   */
  lemma FailureShape(f: UploadedFile)
    requires Read(f).Failed?
    ensures ProcessFile(f) ==
      FileResult(f.originalname, Unknown, "", ItemStats(0, 0), ["Error: " + Read(f).message])
  {
  }

  /**
   * A file that was read gives its classification as type, the normalised
   * text with its character and word counts, and the suggestions followed by
   * the warnings.
   */
  lemma SuccessShape(f: UploadedFile)
    requires Read(f).Extracted?
    ensures var item := ProcessFile(f);
      var advice := Advice(item.text, AnalyzeText(item.text));
      item.filename == f.originalname &&
      item.fileType != Unknown &&
      (item.fileType == Pdf <==> IsPdf(f)) &&
      item.text == PreserveFormatting(CleanText(Read(f).raw)) &&
      item.stats == ItemStats(Utf16Length(item.text), AnalyzeText(item.text).words) &&
      item.suggestions == Texts(advice.suggestions) + Texts(advice.warnings)
  {
    var item := ProcessFile(f);
    var advice := Advice(item.text, AnalyzeText(item.text));
    assert Texts(advice.suggestions + advice.warnings) == Texts(advice.suggestions) + Texts(advice.warnings);
  }

  /** Normalisation keeps every character of the extracted text that is not whitespace. */
  lemma SuccessKeepsVisible(f: UploadedFile)
    requires Read(f).Extracted?
    ensures Visible(ProcessFile(f).text) == Visible(Read(f).raw)
  {
    var raw := Read(f).raw;
    NormalisationKeepsVisible(raw);
    NormalisationKeepsVisible(CleanText(raw));
  }
}
