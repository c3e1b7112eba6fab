/**
 * `extract_transactions_from_text` of `api/app/services/text_extractor.py`
 * with pdfplumber replaced by page data: each page brings the tables
 * `page.extract_tables()` would find and the text `page.extract_text()`
 * would return.  Pages with tables are read row by row; pages without
 * tables are read line by line.
 */
module TextExtractor {
  import opened Options
  import opened Strings
  import opened Sequences
  import opened Numbers
  import opened Dates
  import opened Models

  /** A table row as pdfplumber returns it: cells that are strings or `None`. */
  type RawRow = seq<Option<string>>

  type Table = seq<RawRow>

  /** One page: its tables, and its text (`None` when pdfplumber finds none). */
  datatype TextPage = TextPage(tables: seq<Table>, text: Option<string>)

  // ---------------------------------------------------------------- table rows

  /** `cols`: string cells trimmed, every other cell read as `""`. */
  function Cells(raw: RawRow): (cols: seq<string>)
    ensures |cols| == |raw|
    ensures forall i :: 0 <= i < |raw| ==> IsStripped(cols[i])
    ensures forall i :: 0 <= i < |raw| && raw[i].None? ==> cols[i] == ""
  {
    seq(|raw|, i requires 0 <= i < |raw| => if raw[i].Some? then Strip(raw[i].value) else "")
  }

  /** `num_idx` from index `k` on: the positions of the cells holding a digit, ascending. */
  function DigitColumnsFrom(cols: seq<string>, k: nat): (idx: seq<nat>)
    ensures forall j :: 0 <= j < |idx| ==> k <= idx[j] < |cols| && HasDigit(cols[idx[j]])
    ensures forall i :: k <= i < |cols| && HasDigit(cols[i]) ==> i in idx
    ensures forall a, b :: 0 <= a < b < |idx| ==> idx[a] < idx[b]
    decreases |cols| - k
  {
    if k >= |cols| then []
    else (if HasDigit(cols[k]) then [k] else []) + DigitColumnsFrom(cols, k + 1)
  }

  function DigitColumns(cols: seq<string>): seq<nat>
  {
    DigitColumnsFrom(cols, 0)
  }

  /** `desc_parts`: the cells at `i .. hi - 1` whose index is not in `numIdx`. */
  function DescriptionParts(cols: seq<string>, numIdx: seq<nat>, i: nat, hi: nat): seq<string>
    requires hi <= |cols|
    decreases hi - i
  {
    if i >= hi then []
    else (if i !in numIdx then [cols[i]] else []) + DescriptionParts(cols, numIdx, i + 1, hi)
  }

  predicate IsNonEmpty(s: string) { s != [] }

  /** The description of a row of at least three cells: the middle cells, or cell 1 when they give nothing. */
  function TableDescription(cols: seq<string>, numIdx: seq<nat>): string
    requires |cols| >= 3
  {
    var hi := if |cols| - 2 > 1 then |cols| - 2 else 1;
    var joined := Strip(Join(Filter(IsNonEmpty, DescriptionParts(cols, numIdx, 1, hi)), " "));
    if joined != "" then joined else cols[1]
  }

  /** One table row: `None` where the loop `continue`s. */
  function TableRow(raw: RawRow): (r: Option<Transaction>)
    ensures r.Some? ==> IsExtractedRow(r.value)
  {
    RowOfCells(Cells(raw))
  }

  /** The loop body once `cols` is built. */
  function RowOfCells(cols: seq<string>): (r: Option<Transaction>)
    ensures r.Some? ==> IsExtractedRow(r.value)
  {
    if |cols| < 3 then None
    else
      var numIdx := DigitColumns(cols);
      if |numIdx| == 0 then None
      else
        var amount := CellAmount(cols, numIdx[|numIdx| - 1]);
        var balance := if |numIdx| > 1 then Some(CellAmount(cols, numIdx[|numIdx| - 2])) else None;
        Some(MakeRow(ParseDate(Some(cols[0])), TableDescription(cols, numIdx), amount, balance))
  }

  /** `parse_amount(cols[i])`, for an index taken from `num_idx`. */
  function CellAmount(cols: seq<string>, i: nat): real
    requires i < |cols|
  {
    ParseAmount(Some(cols[i]))
  }

  // ---------------------------------------------------------------- text lines

  /** One line of page text: `None` where the loop `continue`s. */
  function LineRow(line: string): (r: Option<Transaction>)
    ensures r.Some? ==> IsExtractedRow(r.value) && r.value.balance.None?
    ensures Strip(line) == [] || |Segments(line)| < 3 ==> r.None?
  {
    if Strip(line) == [] then None else RowOfSegments(Segments(line))
  }

  /** The loop body once the non-blank line is split into `parts`. */
  function RowOfSegments(parts: seq<string>): (r: Option<Transaction>)
    ensures r.Some? ==> IsExtractedRow(r.value) && r.value.balance.None?
  {
    if |parts| < 3 then None
    else
      var date := ParseDate(Some(parts[0]));
      var last := parts[|parts| - 1];
      var amt := ParseAmount(Some(last));
      if amt == 0.0 && !HasDigit(last) then None
      else Some(MakeRow(date, Strip(Join(parts[1..|parts| - 1], " ")), amt, None))
  }

  // ---------------------------------------------------------------- pages

  function TableRows(table: Table): seq<Transaction>
  {
    Collect(TableRow, table)
  }

  function TextLineRows(text: string): seq<Transaction>
  {
    Collect(LineRow, SplitLines(text))
  }

  /** A page's rows: from its tables when it has any, otherwise from its text lines. */
  function PageRows(p: TextPage): seq<Transaction>
  {
    if |p.tables| > 0 then FlatMap(TableRows, p.tables) else TextLineRows(p.text.GetOr(""))
  }

  /** `extract_transactions_from_text`: the rows of every page, page by page. */
  function ExtractFromText(pages: seq<TextPage>): (rows: seq<Transaction>)
    ensures All(IsExtractedRow, rows)
  {
    PagesAreExtracted(pages);
    FlatMap(PageRows, pages)
  }

  lemma PageRowsAreExtracted(p: TextPage)
    ensures All(IsExtractedRow, PageRows(p))
  {
    if |p.tables| > 0 {
      forall i | 0 <= i < |p.tables|
        ensures All(IsExtractedRow, TableRows(p.tables[i]))
      {
        CollectAll(TableRow, IsExtractedRow, p.tables[i]);
      }
      FlatMapAll(TableRows, IsExtractedRow, p.tables);
    } else {
      CollectAll(LineRow, IsExtractedRow, SplitLines(p.text.GetOr("")));
    }
  }

  lemma PagesAreExtracted(pages: seq<TextPage>)
    ensures All(IsExtractedRow, FlatMap(PageRows, pages))
  {
    forall i | 0 <= i < |pages|
      ensures All(IsExtractedRow, PageRows(pages[i]))
    {
      PageRowsAreExtracted(pages[i]);
    }
    FlatMapAll(PageRows, IsExtractedRow, pages);
  }

  // ---------------------------------------------------------------- properties of table rows

  predicate NoDigitCell(c: string) { !HasDigit(c) }

  /** A cell that can go into a description: non-empty and without a digit. */
  predicate IsWordCell(c: string) { c != [] && !HasDigit(c) }

  /** The cells between the date cell and the last two cells that can describe the row, in order. */
  function WordCells(cols: seq<string>): seq<string>
    requires |cols| >= 3
  {
    Filter(IsWordCell, cols[1..|cols| - 2])
  }

  lemma InDigitColumns(cols: seq<string>, i: nat)
    ensures i in DigitColumns(cols) <==> i < |cols| && HasDigit(cols[i])
  {
    var idx := DigitColumns(cols);
    if i in idx {
      var p :| 0 <= p < |idx| && idx[p] == i;
    }
  }

  /** The last entry of `num_idx` is the last cell with a digit. */
  lemma LastDigitColumn(cols: seq<string>, j: nat)
    requires j < |cols| && HasDigit(cols[j])
    requires forall k :: j < k < |cols| ==> !HasDigit(cols[k])
    ensures |DigitColumns(cols)| >= 1 && DigitColumns(cols)[|DigitColumns(cols)| - 1] == j
  {
    var idx := DigitColumns(cols);
    InDigitColumns(cols, j);
    var p :| 0 <= p < |idx| && idx[p] == j;
    assert HasDigit(cols[idx[|idx| - 1]]);
  }

  /** The entry before it is the previous cell with a digit. */
  lemma PreviousDigitColumn(cols: seq<string>, b: nat, j: nat)
    requires b < j < |cols| && HasDigit(cols[b]) && HasDigit(cols[j])
    requires forall k :: b < k < |cols| && k != j ==> !HasDigit(cols[k])
    ensures |DigitColumns(cols)| >= 2 && DigitColumns(cols)[|DigitColumns(cols)| - 2] == b
  {
    var idx := DigitColumns(cols);
    LastDigitColumn(cols, j);
    InDigitColumns(cols, b);
    var q :| 0 <= q < |idx| && idx[q] == b;
    assert HasDigit(cols[idx[|idx| - 2]]);
  }

  /** `num_idx` has a second entry exactly when a cell before the last digit cell has a digit. */
  lemma SecondDigitColumn(cols: seq<string>, j: nat)
    requires j < |cols| && HasDigit(cols[j])
    requires forall k :: j < k < |cols| ==> !HasDigit(cols[k])
    ensures |DigitColumns(cols)| > 1 <==> exists k :: 0 <= k < j && HasDigit(cols[k])
  {
    var idx := DigitColumns(cols);
    LastDigitColumn(cols, j);
    if |idx| > 1 {
      assert idx[|idx| - 2] < j && HasDigit(cols[idx[|idx| - 2]]);
    }
    if exists k :: 0 <= k < j && HasDigit(cols[k]) {
      var k :| 0 <= k < j && HasDigit(cols[k]);
      InDigitColumns(cols, k);
      assert k in idx && idx[|idx| - 1] == j;
    }
  }

  /** A row survives exactly when it has at least three cells and one of them holds a digit. */
  lemma TableRowKept(raw: RawRow)
    ensures TableRow(raw).Some? <==> |raw| >= 3 && exists i :: 0 <= i < |raw| && HasDigit(Cells(raw)[i])
  {
    RowKept(Cells(raw));
  }

  lemma RowKept(cols: seq<string>)
    ensures RowOfCells(cols).Some? <==> |cols| >= 3 && exists i :: 0 <= i < |cols| && HasDigit(cols[i])
  {
    var idx := DigitColumns(cols);
    if |idx| > 0 {
      assert HasDigit(cols[idx[0]]);
    }
    if exists i :: 0 <= i < |cols| && HasDigit(cols[i]) {
      var i :| 0 <= i < |cols| && HasDigit(cols[i]);
      InDigitColumns(cols, i);
    }
  }

  /**
   * With `j` the last cell holding a digit, the row's amount is that cell's
   * amount, its date is the date read from cell 0, and it has a balance
   * exactly when an earlier cell holds a digit too.
   */
  lemma TableRowAmount(raw: RawRow, j: nat)
    requires |raw| >= 3 && j < |raw| && HasDigit(Cells(raw)[j])
    requires forall k :: j < k < |raw| ==> !HasDigit(Cells(raw)[k])
    ensures TableRow(raw).Some?
    ensures TableRow(raw).value.date == ParseDate(Some(Cells(raw)[0]))
    ensures TableRow(raw).value.amount == ParseAmount(Some(Cells(raw)[j]))
    ensures TableRow(raw).value.balance.None? <==> forall k :: 0 <= k < j ==> !HasDigit(Cells(raw)[k])
  {
    LastDigitColumn(Cells(raw), j);
    SecondDigitColumn(Cells(raw), j);
  }

  /** With `b` and `j` the last two cells holding a digit, the balance is the amount of cell `b`. */
  lemma TableRowBalance(raw: RawRow, b: nat, j: nat)
    requires |raw| >= 3 && b < j < |raw|
    requires HasDigit(Cells(raw)[b]) && HasDigit(Cells(raw)[j])
    requires forall k :: b < k < |raw| && k != j ==> !HasDigit(Cells(raw)[k])
    ensures TableRow(raw).Some?
    ensures TableRow(raw).value.balance == Some(ParseAmount(Some(Cells(raw)[b])))
  {
    RowBalance(Cells(raw), b, j);
  }

  lemma RowBalance(cols: seq<string>, b: nat, j: nat)
    requires |cols| >= 3 && b < j < |cols|
    requires HasDigit(cols[b]) && HasDigit(cols[j])
    requires forall k :: b < k < |cols| && k != j ==> !HasDigit(cols[k])
    ensures RowOfCells(cols).Some?
    ensures RowOfCells(cols).value.balance == Some(ParseAmount(Some(cols[b])))
  {
    PreviousDigitColumn(cols, b, j);
  }

  /** `desc_parts` holds the cells of the range without a digit, in order. */
  lemma {:induction false} DescriptionPartsFilter(cols: seq<string>, i: nat, hi: nat)
    requires i <= hi <= |cols|
    ensures DescriptionParts(cols, DigitColumns(cols), i, hi) == Filter(NoDigitCell, cols[i..hi])
    decreases hi - i
  {
    if i < hi {
      InDigitColumns(cols, i);
      DescriptionPartsFilter(cols, i + 1, hi);
      assert cols[i..hi][1..] == cols[i + 1..hi];
      assert cols[i..hi][0] == cols[i];
    } else {
      assert cols[i..hi] == [];
    }
  }

  /**
   * The description is the non-empty cells without a digit at indices 1 to
   * `len - 3`, joined with single spaces, or cell 1 when there are none.
   */
  lemma TableDescriptionOfWords(cols: seq<string>)
    requires |cols| >= 3
    requires forall i :: 0 <= i < |cols| ==> IsStripped(cols[i])
    ensures TableDescription(cols, DigitColumns(cols))
         == if WordCells(cols) == [] then cols[1] else Join(WordCells(cols), " ")
  {
    var hi := |cols| - 2;
    DescriptionPartsFilter(cols, 1, hi);
    FilterFilter(IsNonEmpty, NoDigitCell, IsWordCell, cols[1..hi]);
    var w := WordCells(cols);
    FilterPreserves(IsWordCell, IsStripped, cols[1..hi]);
    if w != [] {
      JoinStripped(w, " ");
      StripOfStripped(Join(w, " "));
    }
  }

  lemma TableRowDescription(raw: RawRow)
    requires TableRow(raw).Some?
    ensures |raw| >= 3
    ensures TableRow(raw).value.description
         == if WordCells(Cells(raw)) == [] then Cells(raw)[1] else Join(WordCells(Cells(raw)), " ")
  {
    TableDescriptionOfWords(Cells(raw));
  }

  /**
   * In a three-cell row whose date cell and last cell hold digits and whose
   * middle cell does not, the date cell is also read as the balance and the
   * middle cell is the description.
   */
  lemma DateCellAsBalance(raw: RawRow)
    requires |raw| == 3
    requires HasDigit(Cells(raw)[0]) && !HasDigit(Cells(raw)[1]) && HasDigit(Cells(raw)[2])
    ensures TableRow(raw) == Some(MakeRow(
      ParseDate(Some(Cells(raw)[0])),
      Cells(raw)[1],
      ParseAmount(Some(Cells(raw)[2])),
      Some(ParseAmount(Some(Cells(raw)[0])))))
  {
    DateCellRow(Cells(raw));
  }

  lemma DateCellRow(cols: seq<string>)
    requires |cols| == 3
    requires HasDigit(cols[0]) && !HasDigit(cols[1]) && HasDigit(cols[2])
    ensures RowOfCells(cols) == Some(MakeRow(
      ParseDate(Some(cols[0])), cols[1], ParseAmount(Some(cols[2])), Some(ParseAmount(Some(cols[0])))))
  {
    PreviousDigitColumn(cols, 0, 2);
    assert DescriptionParts(cols, DigitColumns(cols), 1, 1) == [];
  }

  // ---------------------------------------------------------------- properties of text lines

  /** The header rule: a line of three or more segments is kept exactly when its last segment holds a digit. */
  lemma SegmentsKeptIffDigit(parts: seq<string>)
    requires |parts| >= 3
    ensures RowOfSegments(parts).Some? <==> HasDigit(parts[|parts| - 1])
  {
    var last := parts[|parts| - 1];
    if !HasDigit(last) {
      AmountWithoutDigits(last);
    }
  }

  /** Three or more pieces: date, middle pieces joined by single spaces, amount, no balance. */
  lemma RowOfPieces(parts: seq<string>)
    requires |parts| >= 3
    requires forall i :: 0 <= i < |parts| ==> IsPiece(parts[i], 2)
    ensures RowOfSegments(parts)
         == if HasDigit(parts[|parts| - 1])
            then Some(MakeRow(ParseDate(Some(parts[0])), Join(parts[1..|parts| - 1], " "), ParseAmount(Some(parts[|parts| - 1])), None))
            else None
  {
    var middle := parts[1..|parts| - 1];
    JoinStripped(middle, " ");
    StripOfStripped(Join(middle, " "));
    SegmentsKeptIffDigit(parts);
  }

  /**
   * A line laid out as cells separated by gaps of two or more whitespace
   * characters reads back as date cell, middle cells joined by single
   * spaces, and amount cell, with no balance; it is dropped exactly when
   * the amount cell holds no digit.
   */
  lemma LineRowOfCells(cells: seq<string>, gap: string)
    requires |cells| >= 3
    requires forall i :: 0 <= i < |cells| ==> IsPiece(cells[i], 2)
    requires AllSpace(gap) && |gap| >= 2
    ensures LineRow(Join(cells, gap))
         == if HasDigit(cells[|cells| - 1])
            then Some(MakeRow(ParseDate(Some(cells[0])), Join(cells[1..|cells| - 1], " "), ParseAmount(Some(cells[|cells| - 1])), None))
            else None
  {
    SegmentsOfCells(cells, gap);
    RowOfPieces(cells);
  }

  /** A last cell such as `0.00` keeps its line, as a debit of 0.0. */
  lemma DigitZeroIsDebit(cells: seq<string>, gap: string)
    requires |cells| >= 3
    requires forall i :: 0 <= i < |cells| ==> IsPiece(cells[i], 2)
    requires AllSpace(gap) && |gap| >= 2
    requires HasDigit(cells[|cells| - 1]) && ParseAmount(Some(cells[|cells| - 1])) == 0.0
    ensures LineRow(Join(cells, gap)).Some?
    ensures LineRow(Join(cells, gap)).value.amount == 0.0
    ensures LineRow(Join(cells, gap)).value.kind == Debit
  {
    LineRowOfCells(cells, gap);
  }

  // ---------------------------------------------------------------- properties of pages

  /** Rows follow the page order. */
  lemma ExtractConcat(a: seq<TextPage>, b: seq<TextPage>)
    ensures ExtractFromText(a + b) == ExtractFromText(a) + ExtractFromText(b)
  {
    FlatMapConcat(PageRows, a, b);
  }

  /** On a page with tables, rows follow the table order and the page text is never read. */
  lemma TablePageRows(first: seq<Table>, rest: seq<Table>, text: Option<string>)
    requires |first + rest| > 0
    ensures PageRows(TextPage(first + rest, text)) == FlatMap(TableRows, first) + FlatMap(TableRows, rest)
  {
    FlatMapConcat(TableRows, first, rest);
  }

  /** Rows follow the row order within a table. */
  lemma TableRowsConcat(a: Table, b: Table)
    ensures TableRows(a + b) == TableRows(a) + TableRows(b)
  {
    CollectConcat(TableRow, a, b);
  }

  /** The line path never sets a balance. */
  lemma TextPageHasNoBalances(p: TextPage)
    requires |p.tables| == 0
    ensures All(HasNoBalance, PageRows(p))
  {
    CollectAll(LineRow, HasNoBalance, SplitLines(p.text.GetOr("")));
  }
}
