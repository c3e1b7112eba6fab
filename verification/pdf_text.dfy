/**
 * The text selection of `PDFProcessor` in `api/app/services/pdf_processor.py`:
 * `extract_text` chooses between the text layer (`_extract_text_directly`)
 * and OCR (`_extract_text_with_ocr`).  pdfplumber and Tesseract are
 * replaced by what they return for each page: the page's text layer
 * (`None` when it has none) and the page's OCR text (`None` when OCR
 * raised on that page).
 */
module PdfText {
  import opened Options
  import opened Strings
  import opened Sequences

  /** `ParsedText.method` (`method` is a Dafny keyword). */
  datatype Method = TextMethod | OcrMethod

  /** `ParsedText`; `confidence` is never set and is not modelled. */
  datatype ParsedText = ParsedText(text: string, extraction: Method)

  /** The text layer is used when, stripped, it is longer than this. */
  const MinTextLength: nat := 20

  /** `if text:`: a page's text layer is kept when present and non-empty. */
  function DirectPage(page: Option<string>): (r: Option<string>)
    ensures r.Some? <==> page.Some? && page.value != []
    ensures r.Some? ==> r == page
  {
    if page.Some? && page.value != [] then page else None
  }

  /** `if ocr_text.strip():`: a page's OCR text is kept when OCR succeeded and the text is not blank. */
  function OcrPage(page: Option<string>): (r: Option<string>)
    ensures r.Some? <==> page.Some? && Strip(page.value) != []
    ensures r.Some? ==> r == page
  {
    if page.Some? && Strip(page.value) != [] then page else None
  }

  /**
   * `_extract_text_directly`: the kept page texts joined by line breaks.  It
   * is empty exactly when no page has a non-empty text layer.
   */
  function DirectText(pages: seq<Option<string>>): (r: string)
    ensures r == "" <==> forall i :: 0 <= i < |pages| ==> pages[i].None? || pages[i].value == []
  {
    KeptJoinEmpty(DirectPage, pages);
    Join(Collect(DirectPage, pages), "\n")
  }

  /**
   * `_extract_text_with_ocr`: the kept OCR texts joined by line breaks.  It is
   * empty exactly when every page's OCR failed or gave blank text.
   */
  function OcrText(pages: seq<Option<string>>): (r: string)
    ensures r == "" <==> forall i :: 0 <= i < |pages| ==> pages[i].None? || Strip(pages[i].value) == []
  {
    KeptJoinEmpty(OcrPage, pages);
    Join(Collect(OcrPage, pages), "\n")
  }

  /** Kept texts are never empty, so their join is empty exactly when nothing is kept. */
  lemma KeptJoinEmpty(keep: Option<string> -> Option<string>, pages: seq<Option<string>>)
    requires forall p :: keep(p).Some? ==> keep(p).value != []
    ensures Join(Collect(keep, pages), "\n") == "" <==> forall i :: 0 <= i < |pages| ==> keep(pages[i]).None?
  {
    var kept := Collect(keep, pages);
    CollectAll(keep, (t: string) => t != [], pages);
    JoinEmpty(kept, "\n");
    if forall i :: 0 <= i < |pages| ==> keep(pages[i]).None? {
      CollectNone(keep, pages);
    } else {
      var i :| 0 <= i < |pages| && keep(pages[i]).Some?;
      CollectSome(keep, pages, i);
    }
  }

  /**
   * `extract_text`: the text layer when it holds more than 20 characters
   * once stripped; otherwise OCR when it is enabled, and the (short) text
   * layer when it is not.
   */
  function ExtractText(pages: seq<Option<string>>, ocrPages: seq<Option<string>>, ocrEnabled: bool): (r: ParsedText)
    ensures r.extraction == TextMethod <==> |Strip(DirectText(pages))| > MinTextLength || !ocrEnabled
    ensures r.extraction == TextMethod ==> r.text == DirectText(pages)
    ensures r.extraction == OcrMethod ==> r.text == OcrText(ocrPages)
  {
    var text := DirectText(pages);
    if text != [] && |Strip(text)| > MinTextLength then ParsedText(text, TextMethod)
    else if ocrEnabled then ParsedText(OcrText(ocrPages), OcrMethod)
    else ParsedText(text, TextMethod)
  }

  // ---------------------------------------------------------------- properties

  /** Pages with no text layer, or an empty one, leave no trace in the direct text. */
  lemma DirectTextSkipsEmpty(a: seq<Option<string>>, page: Option<string>, b: seq<Option<string>>)
    requires page.None? || page.value == []
    ensures DirectText(a + [page] + b) == DirectText(a + b)
  {
    assert DirectPage(page).None?;
    CollectSkip(DirectPage, a, page, b);
  }

  /** Pages whose OCR raised, and blank OCR pages, leave no trace in the OCR text. */
  lemma OcrTextSkipsBlank(a: seq<Option<string>>, page: Option<string>, b: seq<Option<string>>)
    requires page.None? || Strip(page.value) == []
    ensures OcrText(a + [page] + b) == OcrText(a + b)
  {
    assert OcrPage(page).None?;
    CollectSkip(OcrPage, a, page, b);
  }

  /** Non-empty page texts are joined in page order, one line break between pages. */
  lemma DirectTextOfPages(texts: seq<string>)
    requires forall i :: 0 <= i < |texts| ==> texts[i] != []
    ensures DirectText(seq(|texts|, i requires 0 <= i < |texts| => Some(texts[i]))) == Join(texts, "\n")
  {
    KeptPages(texts);
  }

  lemma {:induction false} KeptPages(texts: seq<string>)
    requires forall i :: 0 <= i < |texts| ==> texts[i] != []
    ensures Collect(DirectPage, seq(|texts|, i requires 0 <= i < |texts| => Some(texts[i]))) == texts
    decreases |texts|
  {
    var pages := seq(|texts|, i requires 0 <= i < |texts| => Some(texts[i]));
    if |texts| > 0 {
      assert pages[1..] == seq(|texts[1..]|, i requires 0 <= i < |texts[1..]| => Some(texts[1..][i]));
      KeptPages(texts[1..]);
      assert texts == [texts[0]] + texts[1..];
    }
  }

  /** When the text layer is long enough the OCR pages are never looked at: OCR is not run. */
  lemma NoOcrForLongText(pages: seq<Option<string>>, ocr1: seq<Option<string>>, ocr2: seq<Option<string>>, ocrEnabled: bool)
    requires |Strip(DirectText(pages))| > MinTextLength
    ensures ExtractText(pages, ocr1, ocrEnabled) == ExtractText(pages, ocr2, ocrEnabled)
    ensures ExtractText(pages, ocr1, ocrEnabled) == ParsedText(DirectText(pages), TextMethod)
  {
  }
}
