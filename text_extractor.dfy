/**
 * `extract_text(content_type, file_content)`: choose a reader by testing the
 * MIME type for substrings, in a fixed order, and turn any exception into an
 * error message instead of raising it.
 */
module TextExtractor {
  import opened Wrappers
  import opened Strings
  import opened Utf8

  /**
   * The foreign readers, each giving its text or the exception it raised:
   * Pillow followed by `pytesseract.image_to_string`, PyMuPDF's
   * `page.get_text()` for each page, and python-docx's paragraph texts.
   */
  datatype Libraries = Libraries(
    imageToString: seq<byte> -> Result<string>,
    pdfPages: seq<byte> -> Result<seq<string>>,
    docxParagraphs: seq<byte> -> Result<seq<string>>)

  const DocxMarker: string := "openxmlformats-officedocument.wordprocessingml"
  const Unsupported: string := "Unsupported file type for text extraction."
  const ErrorPrefix: string := "Could not extract text from the document. Error: "

  /** Which reader a content type selects; the first test that succeeds wins. */
  datatype Reader = ImageReader | PdfReader | PlainReader | DocxReader | NoReader

  function ReaderFor(contentType: string): Reader {
    if Contains(contentType, "image") then ImageReader
    else if Contains(contentType, "pdf") then PdfReader
    else if Contains(contentType, "text") || Contains(contentType, "csv") || Contains(contentType, "json") then PlainReader
    else if Contains(contentType, DocxMarker) then DocxReader
    else NoReader
  }

  /** The `except` clause: a failure becomes the fixed prefix followed by `str(e)`. */
  function Outcome(r: Result<string>): (text: string)
    ensures r.Err? ==> text == ErrorPrefix + Describe(r.error)
    ensures r.Ok? ==> text == r.value
  {
    match r
    case Ok(s) => s
    case Err(e) => ErrorPrefix + Describe(e)
  }

  /** What `extract_text` returns. */
  function Extracted(libs: Libraries, contentType: string, content: seq<byte>): string {
    match ReaderFor(contentType)
    case ImageReader => Outcome(libs.imageToString(content))
    case PdfReader =>
      (match libs.pdfPages(content)
       case Ok(pages) => Concat(pages)
       case Err(e) => Outcome(Err(e)))
    case PlainReader => DecodeIgnore(content)
    case DocxReader =>
      (match libs.docxParagraphs(content)
       case Ok(paragraphs) => Join("\n", paragraphs)
       case Err(e) => Outcome(Err(e)))
    case NoReader => Unsupported
  }

  method ExtractText(libs: Libraries, contentType: string, content: seq<byte>) returns (text: string)
    ensures text == Extracted(libs, contentType, content)
  {
    var reader := ReaderFor(contentType);
    match reader {
      case ImageReader =>
        text := Outcome(libs.imageToString(content));
      case PdfReader =>
        var pages := libs.pdfPages(content);
        if pages.Err? {
          return Outcome(Err(pages.error));
        }
        text := "";
        var i := 0;
        while i < |pages.value|
          invariant 0 <= i <= |pages.value|
          invariant text == Concat(pages.value[..i])
        {
          assert pages.value[..i + 1][..i] == pages.value[..i];
          text := text + pages.value[i];
          i := i + 1;
        }
        assert pages.value[..i] == pages.value;
      case PlainReader =>
        text := DecodeIgnore(content);
      case DocxReader =>
        var paragraphs := libs.docxParagraphs(content);
        text := if paragraphs.Ok? then Join("\n", paragraphs.value) else Outcome(Err(paragraphs.error));
      case NoReader =>
        text := Unsupported;
    }
  }

  /** The image test comes first: a type naming both an image and a PDF goes to OCR. */
  lemma ImageBeforePdf(contentType: string)
    requires Contains(contentType, "image")
    ensures ReaderFor(contentType) == ImageReader
  {
  }

  /** A type that contains none of the markers gets the fixed message, whatever the content. */
  lemma UnsupportedWithoutMarker(libs: Libraries, contentType: string, content: seq<byte>)
    requires !Contains(contentType, "image") && !Contains(contentType, "pdf")
    requires !Contains(contentType, "text") && !Contains(contentType, "csv") && !Contains(contentType, "json")
    requires !Contains(contentType, DocxMarker)
    ensures Extracted(libs, contentType, content) == Unsupported
  {
  }

  /** Plain text is decoded as UTF-8: text Python encoded comes back unchanged. */
  lemma PlainTextRoundTrip(libs: Libraries, contentType: string, s: string)
    requires ReaderFor(contentType) == PlainReader
    ensures Extracted(libs, contentType, Encode(s)) == s
  {
    DecodeEncode(s);
  }

  /** The PDF text holds each page's text in page order, with nothing between pages. */
  lemma PdfPagesInOrder(libs: Libraries, contentType: string, content: seq<byte>, k: nat)
    requires ReaderFor(contentType) == PdfReader
    requires libs.pdfPages(content).Ok? && k < |libs.pdfPages(content).value|
    ensures var pages := libs.pdfPages(content).value;
      var text := Extracted(libs, contentType, content);
      && |text| == TotalLength(pages)
      && TotalLength(pages[..k]) <= TotalLength(pages[..k + 1]) <= |text|
      && text[TotalLength(pages[..k])..TotalLength(pages[..k + 1])] == pages[k]
  {
    ConcatPlacesParts(libs.pdfPages(content).value, k);
  }

  /** The DOCX text splits at its newlines back into the paragraphs, when no paragraph has a newline of its own. */
  lemma DocxParagraphsRecoverable(libs: Libraries, contentType: string, content: seq<byte>)
    requires ReaderFor(contentType) == DocxReader
    requires libs.docxParagraphs(content).Ok?
    requires var ps := libs.docxParagraphs(content).value;
      |ps| > 0 && forall k :: 0 <= k < |ps| ==> '\n' !in ps[k]
    ensures SplitOn(Extracted(libs, contentType, content), '\n') == libs.docxParagraphs(content).value
  {
    SplitJoinRoundTrip(libs.docxParagraphs(content).value, '\n');
  }

  /** A reader that fails yields the error message, never an exception. */
  lemma FailureBecomesMessage(libs: Libraries, contentType: string, content: seq<byte>)
    requires ReaderFor(contentType) == ImageReader ==> libs.imageToString(content).Err?
    requires ReaderFor(contentType) == PdfReader ==> libs.pdfPages(content).Err?
    requires ReaderFor(contentType) == DocxReader ==> libs.docxParagraphs(content).Err?
    requires ReaderFor(contentType) in {ImageReader, PdfReader, DocxReader}
    ensures exists e :: Extracted(libs, contentType, content) == ErrorPrefix + Describe(e)
  {
    var r := ReaderFor(contentType);
    if r == ImageReader {
      assert Extracted(libs, contentType, content) == ErrorPrefix + Describe(libs.imageToString(content).error);
    } else if r == PdfReader {
      assert Extracted(libs, contentType, content) == ErrorPrefix + Describe(libs.pdfPages(content).error);
    } else {
      assert Extracted(libs, contentType, content) == ErrorPrefix + Describe(libs.docxParagraphs(content).error);
    }
  }
}
