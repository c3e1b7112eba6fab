/**
 * `extract_transactions_from_ocr` of `api/app/services/ocr_extractor.py`
 * with pdf2image and Tesseract replaced by the text Tesseract returns for
 * each page image.  Every non-blank line is split on runs of two or more
 * whitespace characters; the last segment is the amount.
 */
module OcrExtractor {
  import opened Options
  import opened Strings
  import opened Sequences
  import opened Numbers
  import opened Dates
  import opened DateProperties
  import opened Models

  /** One line of OCR text: `None` where the loop `continue`s. */
  function OcrRow(raw: string): (r: Option<Transaction>)
    ensures r.Some? ==> IsExtractedRow(r.value) && r.value.balance.None?
    ensures Strip(raw) == [] || |Segments(raw)| < 2 ==> r.None?
  {
    if Strip(raw) == [] then None else OcrRowOfSegments(Segments(raw))
  }

  /** The loop body once the non-blank line is split into `parts`. */
  function OcrRowOfSegments(parts: seq<string>): (r: Option<Transaction>)
    ensures r.Some? ==> IsExtractedRow(r.value) && r.value.balance.None?
  {
    if |parts| < 2 then None
    else
      var last := parts[|parts| - 1];
      var amt := ParseAmount(Some(last));
      if amt == 0.0 && !HasDigit(last) then None
      else
        var date := ParseDate(Some(parts[0]));
        var desc :=
          if |parts| > 2 then Strip(Join(parts[1..|parts| - 1], " "))
          else if date == parts[0] then parts[0]
          else parts[1];
        Some(MakeRow(date, desc, amt, None))
  }

  /** The rows of one page's OCR text, line by line. */
  function OcrPageRows(text: string): seq<Transaction>
  {
    Collect(OcrRow, SplitLines(text))
  }

  /** `extract_transactions_from_ocr`: the rows of every page, page by page. */
  function ExtractFromOcr(pages: seq<string>): (rows: seq<Transaction>)
    ensures All(IsExtractedRow, rows) && All(HasNoBalance, rows)
  {
    OcrPagesAreExtracted(pages);
    FlatMap(OcrPageRows, pages)
  }

  lemma OcrPagesAreExtracted(pages: seq<string>)
    ensures All(IsExtractedRow, FlatMap(OcrPageRows, pages))
    ensures All(HasNoBalance, FlatMap(OcrPageRows, pages))
  {
    forall i | 0 <= i < |pages|
      ensures All(IsExtractedRow, OcrPageRows(pages[i])) && All(HasNoBalance, OcrPageRows(pages[i]))
    {
      CollectAll(OcrRow, IsExtractedRow, SplitLines(pages[i]));
      CollectAll(OcrRow, HasNoBalance, SplitLines(pages[i]));
    }
    FlatMapAll(OcrPageRows, IsExtractedRow, pages);
    FlatMapAll(OcrPageRows, HasNoBalance, pages);
  }

  // ---------------------------------------------------------------- properties

  /** A line of two or more segments is kept exactly when its last segment holds a digit. */
  lemma OcrKeptIffDigit(parts: seq<string>)
    requires |parts| >= 2
    ensures OcrRowOfSegments(parts).Some? <==> HasDigit(parts[|parts| - 1])
  {
    var last := parts[|parts| - 1];
    if !HasDigit(last) {
      AmountWithoutDigits(last);
    }
  }

  /** Three or more pieces: date, middle pieces joined by single spaces, amount, no balance. */
  lemma OcrRowOfPieces(parts: seq<string>)
    requires |parts| >= 3
    requires forall i :: 0 <= i < |parts| ==> IsPiece(parts[i], 2)
    ensures OcrRowOfSegments(parts)
         == if HasDigit(parts[|parts| - 1])
            then Some(MakeRow(ParseDate(Some(parts[0])), Join(parts[1..|parts| - 1], " "), ParseAmount(Some(parts[|parts| - 1])), None))
            else None
  {
    var middle := parts[1..|parts| - 1];
    JoinStripped(middle, " ");
    StripOfStripped(Join(middle, " "));
    OcrKeptIffDigit(parts);
  }

  /**
   * Two pieces: the first piece describes the row when no date format reads
   * it or it is already ISO; a date written any other way leaves the amount
   * piece as the description.
   */
  lemma OcrRowOfTwoPieces(parts: seq<string>)
    requires |parts| == 2 && IsStripped(parts[0]) && HasDigit(parts[1])
    ensures OcrRowOfSegments(parts).Some?
    ensures OcrRowOfSegments(parts).value.date == ParseDate(Some(parts[0]))
    ensures OcrRowOfSegments(parts).value.amount == ParseAmount(Some(parts[1]))
    ensures OcrRowOfSegments(parts).value.description
         == if FirstMatch(parts[0], DateFormats).None? || IsIsoDate(parts[0]) then parts[0] else parts[1]
  {
    OcrKeptIffDigit(parts);
    ParseDateUnchanged(parts[0]);
  }

  /** A line laid out as cells separated by gaps of two or more whitespace characters. */
  lemma OcrRowOfCells(cells: seq<string>, gap: string)
    requires |cells| >= 3
    requires forall i :: 0 <= i < |cells| ==> IsPiece(cells[i], 2)
    requires AllSpace(gap) && |gap| >= 2
    ensures OcrRow(Join(cells, gap))
         == if HasDigit(cells[|cells| - 1])
            then Some(MakeRow(ParseDate(Some(cells[0])), Join(cells[1..|cells| - 1], " "), ParseAmount(Some(cells[|cells| - 1])), None))
            else None
  {
    SegmentsOfCells(cells, gap);
    OcrRowOfPieces(cells);
  }

  /** Rows follow the page order. */
  lemma OcrConcat(a: seq<string>, b: seq<string>)
    ensures ExtractFromOcr(a + b) == ExtractFromOcr(a) + ExtractFromOcr(b)
  {
    FlatMapConcat(OcrPageRows, a, b);
  }

  /** Rows follow the line order within a page. */
  lemma OcrLinesConcat(a: seq<string>, b: seq<string>)
    ensures Collect(OcrRow, a + b) == Collect(OcrRow, a) + Collect(OcrRow, b)
  {
    CollectConcat(OcrRow, a, b);
  }
}
