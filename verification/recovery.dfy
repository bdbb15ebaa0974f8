/** Which text a parser reads: the outputs of the three extraction stages (pdfplumber, PyPDF2,
    OCR on the first page) are given, and the parsers decide which to use or give up. */
module Recovery {
  import opened Wrappers
  import opened Text
  import opened Statement

  /** The first page as each extraction stage returns it. `extract_text` may return None; OCR is
      None when pdf2image gives no image or the OCR step fails. */
  datatype Document = Document(plumber: Option<string>, pypdf: Option<string>, ocr: Option<string>)

  /** A stage's text is enough to parse: present and at least 100 characters once stripped. */
  predicate Usable(t: Option<string>) {
    t.Some? && |Strip(t.value)| >= 100
  }

  /** `_extract_text_with_ocr`: the recognised text, or "" when OCR is unavailable. */
  function OcrText(doc: Document): (t: string)
    ensures doc.ocr.Some? ==> t == doc.ocr.value
    ensures doc.ocr.None? ==> t == ""
  {
    if doc.ocr.Some? then doc.ocr.value else ""
  }

  /** The Jackson and Valic recovery: pdfplumber, else PyPDF2 when that text is missing or
      short, else OCR when that is too; NoUsableText when the last text tried is still short. */
  function SequentialText(doc: Document): (r: Result<string, ParseError>)
    ensures r.Ok? ==> |Strip(r.value)| >= 100
    ensures r.Err? ==> r.error == NoUsableText
    ensures r.Ok? <==> Usable(doc.plumber) || Usable(doc.pypdf) || Usable(Some(OcrText(doc)))
  {
    if Usable(doc.plumber) then Ok(doc.plumber.value)
    else if Usable(doc.pypdf) then Ok(doc.pypdf.value)
    else if Usable(Some(OcrText(doc))) then Ok(OcrText(doc))
    else Err(NoUsableText)
  }

  /** The later stages are only consulted when the earlier ones fall short: a usable pdfplumber
      text is the text whatever PyPDF2 and OCR would give. */
  lemma FirstUsableStageWins(doc: Document, pypdf: Option<string>, ocr: Option<string>)
    ensures Usable(doc.plumber) ==>
      SequentialText(doc) == Ok(doc.plumber.value) == SequentialText(doc.(pypdf := pypdf, ocr := ocr))
    ensures !Usable(doc.plumber) && Usable(doc.pypdf) ==>
      SequentialText(doc) == Ok(doc.pypdf.value) == SequentialText(doc.(ocr := ocr))
    ensures !Usable(doc.plumber) && !Usable(doc.pypdf) ==>
      SequentialText(doc) == SequentialText(doc.(plumber := None, pypdf := None))
  {
  }

  /** The regular extraction the TIAA recovery appends: pdfplumber's text when usable, else
      PyPDF2's, else "". */
  function RegularText(doc: Document): string {
    var regular := if Usable(doc.plumber) then doc.plumber else doc.pypdf;
    if regular.Some? then regular.value else ""
  }

  /** The TIAA recovery: OCR always runs first; pdfplumber (or PyPDF2 when pdfplumber's text is
      missing or short) is appended after a newline; NoUsableText when the combination is
      short. */
  function TiaaText(doc: Document): (r: Result<string, ParseError>)
    ensures r.Ok? ==> |Strip(r.value)| >= 100
    ensures r.Err? ==> r.error == NoUsableText
    ensures r.Ok? <==> |Strip(OcrText(doc) + "\n" + RegularText(doc))| >= 100
    ensures r.Ok? ==> r.value == OcrText(doc) + "\n" + RegularText(doc)
  {
    var text := OcrText(doc) + "\n" + RegularText(doc);
    if |Strip(text)| < 100 then Err(NoUsableText) else Ok(text)
  }

  /** The TIAA recovery joins the stages instead of choosing one, so it succeeds whenever the
      sequential recovery would: a usable stage keeps the joined text usable. */
  lemma TiaaTextWheneverSequential(doc: Document)
    ensures SequentialText(doc).Ok? ==> TiaaText(doc).Ok?
  {
    var ocr, rest := OcrText(doc), RegularText(doc);
    assert ocr + "\n" + rest == ocr + ("\n" + rest);
    StripGrows(ocr, "\n" + rest);
    StripGrows(ocr + "\n", rest);
    if Usable(doc.pypdf) && !Usable(doc.plumber) {
      assert rest == doc.pypdf.value;
    }
  }

  /** The TIAA text always starts with the OCR text and a newline and, when pdfplumber is usable,
      ends with pdfplumber's text. */
  lemma TiaaTextParts(doc: Document)
    ensures TiaaText(doc).Ok? ==> TiaaText(doc).value[..|OcrText(doc)| + 1] == OcrText(doc) + "\n"
    ensures TiaaText(doc).Ok? && Usable(doc.plumber) ==>
      TiaaText(doc).value == OcrText(doc) + "\n" + doc.plumber.value
  {
    var rest := RegularText(doc);
    var head := OcrText(doc) + "\n";
    if TiaaText(doc).Ok? {
      assert TiaaText(doc).value == head + rest;
      assert (head + rest)[..|head|] == head;
    }
  }

  /** PyPDF2's text only matters to the TIAA text when pdfplumber's is not usable. */
  lemma TiaaTextIgnoresPyPdf(doc: Document, pypdf: Option<string>)
    requires Usable(doc.plumber)
    ensures TiaaText(doc) == TiaaText(doc.(pypdf := pypdf))
  {
    var other := doc.(pypdf := pypdf);
    assert OcrText(other) == OcrText(doc);
    assert Usable(other.plumber);
  }

  /** pdfplumber's text, a newline and PyPDF2's text, each "" when missing. */
  function ExtractedText(doc: Document): (t: string)
    ensures doc.plumber.Some? ==> doc.plumber.value <= t
    ensures var plumber := if doc.plumber.Some? then doc.plumber.value else "";
      var pypdf := if doc.pypdf.Some? then doc.pypdf.value else "";
      && |t| == |plumber| + 1 + |pypdf|
      && t[..|plumber|] == plumber && t[|plumber|] == '\n' && t[|plumber| + 1..] == pypdf
  {
    var plumber := if doc.plumber.Some? then doc.plumber.value else "";
    var pypdf := if doc.pypdf.Some? then doc.pypdf.value else "";
    assert (plumber + "\n" + pypdf)[..|plumber|] == plumber;
    plumber + "\n" + pypdf
  }

  /** The text `_detect_statement_type` classifies: the extracted text, followed by a newline and
      the OCR text when the extracted text is short and OCR produced something. */
  function DetectionText(doc: Document): (t: string)
    ensures ExtractedText(doc) <= t
    ensures doc.ocr.None? || |Strip(ExtractedText(doc))| >= 100 ==> t == ExtractedText(doc)
  {
    var base := ExtractedText(doc);
    if |Strip(base)| < 100 && doc.ocr.Some? then base + "\n" + doc.ocr.value else base
  }

  /** OCR only contributes to detection when the extracted text is short. */
  lemma DetectionOcrOnlyWhenShort(doc: Document, ocr: Option<string>)
    ensures |Strip(ExtractedText(doc))| >= 100 ==>
      DetectionText(doc) == ExtractedText(doc) == DetectionText(doc.(ocr := ocr))
    ensures |Strip(ExtractedText(doc))| < 100 && doc.ocr.Some? ==>
      DetectionText(doc) == ExtractedText(doc) + "\n" + doc.ocr.value
  {
  }
}
