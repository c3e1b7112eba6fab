# MoneyLens statement parsing, modelled in Dafny

MoneyLens reads bank statements and invoices from PDF files. This project
models the part of it that turns what a PDF yields into numbers:

- **Amounts and dates.** `parse_amount` turns a cell such as `₹ 1,23,456.78`
  or `(1,234.56)` into a number (`Numbers`, on top of the `float()` grammar
  in `Decimals`). `parse_date` tries six `strptime` formats in order and
  returns the ISO date, or the trimmed token when none applies (`Dates`,
  with `DateProperties` and `DateExamples`).
- **Rows.** The text-layer extractor (`TextExtractor`) reads table rows,
  with line-based parsing when a page has no tables. The OCR extractor
  (`OcrExtractor`) reads the lines of each page's OCR text. Both produce
  `Transaction` records (`Models`).
- **The statement.** `parse_pdf_statement` chooses between the two
  extractors by mode ("auto", "text" or "ocr"). It adds the inflow,
  outflow, net and flow-volume totals and the opening/closing balance check
  (`ParserService`, `TotalsService`).
- **The text pipeline of `PDFProcessor`.** `extract_text` chooses between
  the text layer and OCR (`PdfText`). `extract_financial_totals` finds
  labelled amounts such as `Total: $500.00` and returns at most ten of
  them, one per value, largest first (`FinancialTotals`). The four
  keyword patterns of that function are made concrete as a
  case-insensitive matcher (`KeywordPatterns`).
- **Web helpers.** The client-side upload check `validatePDFFile` and the
  display helper `truncateText` (`WebHelpers`).

Generic helpers live in `Options` (Python's `Optional`, and the
first-success loop), `Strings` (`strip`, `split`, `splitlines`,
`re.split(r"\s{2,}")`, `join`, `replace`) and `Sequences` (list
comprehensions).

The PDF libraries are not modelled. pdfplumber, pdf2image and Tesseract
are replaced by what they return for each page: its tables, its text
layer and its OCR text. Each operation is a pure function of those values.

Three behaviours of the code are worth knowing. They follow from the
source as written and are proved here:

- A `Subtotal: 5.00` line is reported under the label `Total`. The `total`
  pattern has no word boundary, so it also matches inside `subtotal`. Its
  match comes first, and only the first total of each value is kept
  (`KeywordPatterns.SubtotalReportedAsTotal`).
- A date written month first with a day of 12 or less is read day first
  (`DateProperties.MonthFirstAmbiguous`).
- In a three-cell table row whose date cell holds digits, the date cell
  is also read as the balance (`TextExtractor.DateCellAsBalance`).

## Model

| member | source | states |
|---|---|---|
| Numbers.CleanAmount | api/app/utils/numbers.py:14-34 | the cleaned literal holds only digits, `.`, `+` and `-` |
| Numbers.ParseAmount | api/app/utils/numbers.py:12-44 | a missing token gives 0.0, and so does a cleaned string that `float` rejects |
| Numbers.TrivialLiteralsRejected | api/app/utils/numbers.py:36-37 | the strings answered early with 0.0 (`""`, `-`, `+`, `.`, `-.`, `+.`) are exactly ones `float` would reject anyway |
| Numbers.CleanKeepsLiteralChars | api/app/utils/numbers.py:14-34 | removing symbols, whitespace and commas and then keeping `[0-9.+-]` leaves the literal characters of the unwrapped token, in order |
| Numbers.AmountCharacterisation | api/app/utils/numbers.py:12-44 | one-step reading of the whole function: the sign of the parentheses times the value of the token's literal characters |
| Numbers.PreparedKeepsLiteralChars | api/app/utils/numbers.py:14 | trimming and the no-break-space replacement never touch a literal character |
| Numbers.AmountOfPlainToken | api/app/utils/numbers.py:14-44 | a token without enclosing parentheses is worth the value of its literal characters |
| Numbers.AmountIgnoresOtherChars | api/app/utils/numbers.py:23-34 | two plain tokens with the same literal characters have the same amount, whatever their currency symbols, spaces or commas |
| Numbers.AmountOfParenthesisedToken | api/app/utils/numbers.py:17-20 | a token in parentheses is worth minus the literal formed by the characters inside |
| Numbers.AmountParenthesised | api/app/utils/numbers.py:17-20 | the accounting convention: `(x)` is worth minus `x` |
| Numbers.AmountOfMalformed | api/app/utils/numbers.py:39-42 | a cleaned string `float` rejects, such as `1.2.3`, gives 0.0 instead of an error |
| Numbers.AmountWithoutDigits | api/app/utils/numbers.py:34-37 | a token without any digit is worth 0.0 |
| Numbers.AmountOfDigits | api/app/utils/numbers.py:12-44 | a run of digits reads as the number it denotes, and as its negation in parentheses |
| Numbers.AmountOfNat | api/app/utils/numbers.py:12-44 | every whole number printed in decimal reads back as itself, and as its negation in parentheses |
| Decimals.ParseFloat | api/app/utils/numbers.py:39-42 | `float` succeeds exactly on `[+-]?` followed by digits with at most one point and at least one digit |
| Decimals.UnsignedAccepts | api/app/utils/numbers.py:39-42 | the unsigned reader succeeds exactly on the unsigned literal grammar |
| Decimals.LiteralHasDigit | api/app/utils/numbers.py:36-42 | every literal `float` accepts holds a digit |
| Decimals.ParseNat | api/app/utils/numbers.py:40 | a whole number printed in decimal reads back as itself |
| Decimals.ParsePointDigits | api/app/utils/numbers.py:40 | digits, a point and digits read as the whole part plus the fraction |
| Decimals.PointValueWhole | api/app/utils/numbers.py:40 | zeros after the point add nothing |
| Decimals.FixedDigitsOfDigits | api/app/utils/dates.py:22 | printing the value of a digit string at its own width gives the string back, leading zeros included |
| Dates.DaysInMonth | api/app/utils/dates.py:22 | months have 28 to 31 days, and February has 29 exactly in leap years |
| Dates.Checked | api/app/utils/dates.py:22 | the matched fields make a date exactly when `datetime` accepts them as one |
| Dates.Match | api/app/utils/dates.py:4-11 | a format only ever reads a valid date |
| Dates.FirstMatch | api/app/utils/dates.py:20-25 | the loop yields nothing exactly when every format fails, and otherwise a valid date |
| Dates.ParseDate | api/app/utils/dates.py:13-26 | a missing token gives `""`; otherwise the result is the trimmed token or an ISO date |
| Dates.IsoDecodeEncode | api/app/utils/dates.py:22 | the ISO form of a valid date is recognised and decodes to that date |
| Dates.IsoEncodeDecode | api/app/utils/dates.py:22 | a recognised ISO string is the ISO form of the date it decodes to |
| Dates.Print | api/app/utils/dates.py:4-11 | every format prints a date without surrounding whitespace |
| Dates.AbbreviationsDistinct | api/app/utils/dates.py:7 | the twelve `%b` month names are distinct |
| Dates.NamesDistinct | api/app/utils/dates.py:8 | the twelve `%B` month names are distinct |
| DateProperties.MatchNumericPrinted | api/app/utils/dates.py:5-10 | every numeric format reads back the date it printed |
| DateProperties.MatchNamedPrinted | api/app/utils/dates.py:7-8 | both named formats read back the date they printed |
| DateProperties.MonthPosition | api/app/utils/dates.py:7-8 | a month's name reads back as the month's number |
| DateProperties.FullNameAsAbbreviation | api/app/utils/dates.py:7-8 | `%b` reads a full month name only for May, whose full name is its abbreviation |
| DateProperties.AbbreviatedReadsFullName | api/app/utils/dates.py:7-8 | `%b` reads a date printed with the full month name as that date, or not at all |
| DateProperties.FirstMatchAt | api/app/utils/dates.py:21-25 | when format `i` reads a date and every earlier format fails or reads the same date, the loop returns that date |
| DateProperties.DayFirstOnIso | api/app/utils/dates.py:6 | `%d-%m-%Y` rejects an ISO date |
| DateProperties.DayFirstOnMonthFirst | api/app/utils/dates.py:5-10 | day-first reads a month-first date exactly when its day is at most 12, and then with day and month swapped |
| DateProperties.ReadsBackAt | api/app/utils/dates.py:4-11 | each of the six formats reads back what it printed |
| DateProperties.EarlierFormats | api/app/utils/dates.py:4-11 | on a date printed by format `i`, every earlier format fails or reads the same date |
| DateProperties.ParsePrinted | api/app/utils/dates.py:13-26 | a valid date printed by any of the six formats parses to its ISO form, except a month-first date whose day is at most 12 and differs from its month |
| DateProperties.MonthFirstAmbiguous | api/app/utils/dates.py:4-26 | a month-first date with a day of 12 or less is read day first, with day and month swapped |
| DateProperties.ParseIso | api/app/utils/dates.py:13-26 | an ISO date comes back unchanged |
| DateProperties.ParseUnmatched | api/app/utils/dates.py:26 | a trimmed token that no format matches comes back unchanged |
| DateProperties.ParseDayFirst | api/app/utils/dates.py:21-23 | a trimmed token that `%d/%m/%Y` reads is read that way |
| DateProperties.ParseMonthFirst | api/app/utils/dates.py:21-23 | a trimmed token that only `%m/%d/%Y` reads is read that way |
| DateProperties.ParseDateIdempotent | api/app/utils/dates.py:13-26 | parsing the result again gives the same result |
| DateProperties.ParseDateTrims | api/app/utils/dates.py:20 | the result depends only on the trimmed token |
| DateProperties.ParseDateUnchanged | api/app/utils/dates.py:13-26 | a trimmed token comes back unchanged exactly when no format reads it or it is already ISO |
| DateExamples.DayFirstExample | api/app/utils/dates.py:5 | `01/02/2024` is the first of February |
| DateExamples.DayFirstUnambiguous | api/app/utils/dates.py:5 | `31/01/2024` is the 31st of January |
| DateExamples.MonthFirstExample | api/app/utils/dates.py:10 | `12/31/2024` is read by the last format, month first |
| DateExamples.InvalidDateExample | api/app/utils/dates.py:26 | `31/02/2024` fails in every format and comes back unchanged |
| DateExamples.IsoExample | api/app/utils/dates.py:9 | `2024-01-31` comes back unchanged |
| DateExamples.NotADateExample | api/app/utils/dates.py:26 | `not-a-date` comes back unchanged |
| Models.MakeRow | api/app/services/text_extractor.py:40-46 | a row is a credit exactly when its amount is positive; currency and account are unset |
| TotalsService.Round2 | api/app/services/totals.py:11-14 | rounding to cents moves a value by at most half a cent and gives whole cents |
| TotalsService.Round2OfCents | api/app/services/totals.py:11-14 | a whole number of cents is left alone |
| TotalsService.Round2Idempotent | api/app/services/totals.py:11-14 | rounding twice is rounding once |
| TotalsService.Inflow | api/app/services/totals.py:6 | the inflow is never negative |
| TotalsService.Outflow | api/app/services/totals.py:7 | the outflow is never negative |
| TotalsService.InflowIsSumOfPositives | api/app/services/totals.py:6 | the inflow is the sum of the strictly positive amounts |
| TotalsService.OutflowIsSumOfNegatives | api/app/services/totals.py:7 | the outflow is the sum of the negated strictly negative amounts |
| TotalsService.NetIsSum | api/app/services/totals.py:8 | inflow minus outflow is the plain sum of all amounts |
| TotalsService.FlowIsAbsSum | api/app/services/totals.py:9 | inflow plus outflow is the sum of the absolute amounts |
| TotalsService.FlowsPermutation | api/app/services/totals.py:6-7 | both sums depend only on the multiset of amounts |
| TotalsService.ComputeTotals | api/app/services/totals.py:5-15 | each field is the rounded sum it names: positives, negated negatives, all amounts, absolute amounts |
| TotalsService.EmptyTotals | api/app/services/totals.py:5-15 | no transactions give four zeros |
| TotalsService.TotalsPermutation | api/app/services/totals.py:5-15 | the totals depend only on the multiset of amounts, not on the order of the transactions |
| TotalsService.CheckBalance | api/app/services/totals.py:17-27 | no check without both balances; otherwise the balances are passed through and the expected closing is opening plus net rounded to cents: a whole number of cents within half a cent of the exact sum |
| TotalsService.ExpectedClosingOfCents | api/app/services/totals.py:26 | with a whole-cent opening balance the expected closing is exactly opening plus the rounded net |
| TextExtractor.Cells | api/app/services/text_extractor.py:20 | one trimmed cell per raw cell, `""` for a cell that is not a string |
| TextExtractor.DigitColumnsFrom | api/app/services/text_extractor.py:25 | `num_idx` holds exactly the positions of the cells with a digit, ascending |
| TextExtractor.InDigitColumns | api/app/services/text_extractor.py:25 | a position is in `num_idx` exactly when its cell holds a digit |
| TextExtractor.LastDigitColumn | api/app/services/text_extractor.py:28-29 | the last entry of `num_idx` is the last cell with a digit |
| TextExtractor.SecondDigitColumn | api/app/services/text_extractor.py:30-31 | there is a balance column exactly when a cell before the amount cell holds a digit |
| TextExtractor.TableRowKept | api/app/services/text_extractor.py:19-39 | a table row yields a transaction exactly when it has at least three cells and one holds a digit |
| TextExtractor.TableRowAmount | api/app/services/text_extractor.py:23-31 | the date comes from cell 0 and the amount from the last cell with a digit; there is no balance exactly when no earlier cell holds a digit |
| TextExtractor.TableRowBalance | api/app/services/text_extractor.py:30-31 | the balance is read from the last but one cell with a digit |
| TextExtractor.DescriptionPartsFilter | api/app/services/text_extractor.py:32-36 | `desc_parts` is the cells of the range without a digit, in order |
| TextExtractor.TableRowDescription | api/app/services/text_extractor.py:32-37 | the description is the non-empty digit-free middle cells joined by spaces, or cell 1 when there are none |
| TextExtractor.DateCellAsBalance | api/app/services/text_extractor.py:23-46 | in a three-cell row with a digit in the date cell, that cell is also read as the balance |
| TextExtractor.TableRow | api/app/services/text_extractor.py:19-46 | every row the table path produces is typed by its amount's sign and has no currency or account |
| TextExtractor.LineRow | api/app/services/text_extractor.py:50-69 | a blank line or one with fewer than three segments gives no row; a row from a line has no balance |
| TextExtractor.SegmentsKeptIffDigit | api/app/services/text_extractor.py:57-61 | a line of three or more segments is kept exactly when its last segment holds a digit |
| TextExtractor.RowOfPieces | api/app/services/text_extractor.py:57-69 | a kept line gives the date of the first segment, the middle segments joined by single spaces and the amount of the last |
| TextExtractor.LineRowOfCells | api/app/services/text_extractor.py:50-69 | cells laid out with gaps of two or more spaces read back as date, joined middle cells and amount |
| TextExtractor.DigitZeroIsDebit | api/app/services/text_extractor.py:59-67 | a last cell such as `0.00` keeps its line, as a debit of 0.0 |
| TextExtractor.ExtractFromText | api/app/services/text_extractor.py:8-70 | every extracted row is typed by its amount's sign and has no currency or account |
| TextExtractor.ExtractConcat | api/app/services/text_extractor.py:15 | rows follow the page order |
| TextExtractor.TablePageRows | api/app/services/text_extractor.py:17-19 | on a page with tables, rows follow the table order and the page text is never read |
| TextExtractor.TableRowsConcat | api/app/services/text_extractor.py:19 | rows follow the row order within a table |
| TextExtractor.TextPageHasNoBalances | api/app/services/text_extractor.py:47-69 | the line path never sets a balance |
| OcrExtractor.OcrRow | api/app/services/ocr_extractor.py:20-42 | a blank line or one with fewer than two segments gives no row; a row from OCR has no balance |
| OcrExtractor.ExtractFromOcr | api/app/services/ocr_extractor.py:10-43 | every OCR row is typed by its amount's sign and has no balance, currency or account |
| OcrExtractor.OcrKeptIffDigit | api/app/services/ocr_extractor.py:26-32 | a line of two or more segments is kept exactly when its last segment holds a digit |
| OcrExtractor.OcrRowOfPieces | api/app/services/ocr_extractor.py:28-42 | three or more segments give the date, the middle segments joined by spaces and the amount |
| OcrExtractor.OcrRowOfTwoPieces | api/app/services/ocr_extractor.py:34-35 | with two segments, the first describes the row when it does not parse as a non-ISO date, and the amount segment does otherwise |
| OcrExtractor.OcrRowOfCells | api/app/services/ocr_extractor.py:20-42 | cells laid out with gaps of two or more spaces read back as date, joined middle cells and amount |
| OcrExtractor.OcrConcat | api/app/services/ocr_extractor.py:17 | rows follow the page order |
| OcrExtractor.OcrLinesConcat | api/app/services/ocr_extractor.py:20 | rows follow the line order within a page |
| ParserService.SelectRows | api/app/services/parser_service.py:21-30 | "text" and "ocr" take their extractor's rows; "auto" keeps the text rows when there are at least five and otherwise takes the OCR rows; any other mode takes nothing |
| ParserService.FirstBalance | api/app/services/parser_service.py:36 | there is no opening balance exactly when no transaction has a balance |
| ParserService.LastBalance | api/app/services/parser_service.py:37 | there is no closing balance exactly when no transaction has a balance |
| ParserService.FirstBalanceAt | api/app/services/parser_service.py:36 | the opening balance is that of the first transaction with one |
| ParserService.LastBalanceAt | api/app/services/parser_service.py:37 | the closing balance is that of the last transaction with one |
| ParserService.ParsePdfStatement | api/app/services/parser_service.py:13-52 | the mode decides the rows and `mode_used`, which is never left at `None`; the totals are computed from the returned rows; the count is the number of rows; there is a balance check exactly when some row has a balance |
| ParserService.AutoModeThreshold | api/app/services/parser_service.py:8-25 | `MIN_ROWS_FOR_SUCCESS` is 5 and `_enough_rows` is inclusive: mode "auto" reports and returns the text rows exactly when there are at least five, and the OCR rows otherwise |
| ParserService.StatementBalanceCheck | api/app/services/parser_service.py:36-44 | the balance check uses the balances of the first and last rows that carry one |
| ParserService.StatementTotals | api/app/services/parser_service.py:32-33 | inflow, outflow, net and flow volume are the rounded sums of the returned rows' positive amounts, negated negative amounts, all amounts and absolute amounts |
| ParserService.NoOcrCall | api/app/services/parser_service.py:21-30 | modes that keep the text rows do not depend on the OCR extractor |
| ParserService.NoTextCall | api/app/services/parser_service.py:21-30 | mode "ocr" does not depend on the text extractor |
| PdfText.DirectPage | api/app/services/pdf_processor.py:45-47 | a page's text layer is kept exactly when it is present and non-empty |
| PdfText.OcrPage | api/app/services/pdf_processor.py:63-74 | a page's OCR text is kept exactly when OCR succeeded and the text is not blank |
| PdfText.ExtractText | api/app/services/pdf_processor.py:19-37 | the text layer is used exactly when it is longer than 20 characters once stripped or OCR is disabled; otherwise the OCR text is used |
| PdfText.DirectTextSkipsEmpty | api/app/services/pdf_processor.py:44-49 | pages without a text layer leave no trace in the direct text |
| PdfText.OcrTextSkipsBlank | api/app/services/pdf_processor.py:56-76 | failed and blank OCR pages leave no trace in the OCR text |
| PdfText.DirectText | api/app/services/pdf_processor.py:39-49 | the direct text is empty exactly when no page has a non-empty text layer |
| PdfText.OcrText | api/app/services/pdf_processor.py:51-76 | the OCR text is empty exactly when every page's OCR raised or gave blank text |
| PdfText.DirectTextOfPages | api/app/services/pdf_processor.py:39-49 | non-empty page texts are joined in page order with one line break between pages |
| PdfText.NoOcrForLongText | api/app/services/pdf_processor.py:23-25 | when the text layer is long enough the result does not depend on the OCR pages |
| FinancialTotals.Rank | api/app/services/pdf_processor.py:83-96 | a label's rank is the position of its pattern in the pattern list |
| FinancialTotals.CaptureValue | api/app/services/pdf_processor.py:106-107 | a capture converts exactly when, with its commas removed, it is a `float` literal |
| FinancialTotals.TotalOf | api/app/services/pdf_processor.py:104-118 | a total keeps its match's label and line number, its value is at least 0.01 and its currency is USD |
| FinancialTotals.TotalOfValue | api/app/services/pdf_processor.py:106-116 | a match yields a total exactly when its capture converts to at least 0.01, and the total holds that value |
| FinancialTotals.CommaIgnored | api/app/services/pdf_processor.py:106 | a comma inside a capture is dropped before conversion |
| FinancialTotals.OnlyCommasSkipped | api/app/services/pdf_processor.py:106-118 | a capture made only of commas raises `ValueError` and is skipped |
| FinancialTotals.GroupedCapture | api/app/services/pdf_processor.py:106-107 | `1,234.56` reads as 1234.56 |
| FinancialTotals.CaptureMatches | api/app/services/pdf_processor.py:102-103 | one match per capture, in order, each with the pattern's label and the line number |
| FinancialTotals.MatchesConcat | api/app/services/pdf_processor.py:98-100 | lines are processed one after the other, numbered on from where the first part stopped |
| FinancialTotals.CandidatesConcat | api/app/services/pdf_processor.py:98-118 | the totals of two runs of lines follow each other, the second numbered on from the first |
| FinancialTotals.MatchesAt | api/app/services/pdf_processor.py:100-103 | the matches of line `i` carry line number `i + 1` and sit between those of the lines around it |
| FinancialTotals.Candidates | api/app/services/pdf_processor.py:98-118 | every candidate has a value of at least 0.01, currency USD and a line number within the lines scanned |
| FinancialTotals.LineMatchesInPatternOrder | api/app/services/pdf_processor.py:101 | within a line the matches follow the pattern order Total, Subtotal, Tax, Amount, Balance, Grand Total |
| FinancialTotals.FirstWithValue | api/app/services/pdf_processor.py:124-127 | the first total of a value is a total of that value, and there is none exactly when no total has it |
| FinancialTotals.Insert | api/app/services/pdf_processor.py:124 | inserting adds exactly the one total |
| FinancialTotals.InsertDescending | api/app/services/pdf_processor.py:124 | inserting into a descending list keeps it descending |
| FinancialTotals.SortByValue | api/app/services/pdf_processor.py:124 | the sort is a permutation and its values never increase |
| FinancialTotals.SortKeepsFirst | api/app/services/pdf_processor.py:124 | the sort is stable: the first total of each value is the same before and after |
| FinancialTotals.KeepFirstOfEachValue | api/app/services/pdf_processor.py:121-127 | the loop keeps only totals of values it has not seen |
| FinancialTotals.KeptValues | api/app/services/pdf_processor.py:121-127 | exactly the values not seen before the loop survive it |
| FinancialTotals.KeptAreFirst | api/app/services/pdf_processor.py:121-127 | each kept total is the first of its value |
| FinancialTotals.KeptStrictlyDescend | api/app/services/pdf_processor.py:121-127 | from a descending list the loop keeps a strictly descending one |
| FinancialTotals.TopKeepsLargest | api/app/services/pdf_processor.py:129 | every value cut off by the limit of ten is smaller than all ten kept |
| FinancialTotals.TopTotals | api/app/services/pdf_processor.py:120-129 | at most ten totals, strictly descending, each the first candidate of its value; every other candidate's value is kept or is below all ten |
| FinancialTotals.ExtractFinancialTotals | api/app/services/pdf_processor.py:78-129 | at most ten totals, strictly descending, all from the candidates, each with a line number within the text |
| FinancialTotals.TiesKeepFirst | api/app/services/pdf_processor.py:121-127 | candidates that all share one value give one entry, the first of them |
| FinancialTotals.TextOfTies | api/app/services/pdf_processor.py:98-129 | a text whose only two candidates share a value gives the first of them |
| FinancialTotals.OneLineCandidates | api/app/services/pdf_processor.py:98-100 | a text without a line break is line 1 and nothing else |
| FinancialTotals.RepeatedLineCandidates | api/app/services/pdf_processor.py:98-118 | a repeated line yields its matches, then the same matches numbered one further |
| FinancialTotals.TotalAndSubtotalLine | api/app/services/pdf_processor.py:101-103 | a line matched only by the Total and Subtotal patterns gives the Total match first |
| KeywordPatterns.LeadingRun | api/app/services/pdf_processor.py:85 | the longest prefix of characters of a class, as a greedy `*` reads it |
| KeywordPatterns.AmountLength | api/app/services/pdf_processor.py:85 | the amount part is empty exactly when the text does not start with `[0-9,]`, and otherwise is a capture |
| KeywordPatterns.MatchAt | api/app/services/pdf_processor.py:85-95 | a match at a position ends after it and captures `[0-9,]+\.?[0-9]*` |
| KeywordPatterns.FindAll | api/app/services/pdf_processor.py:102 | every capture `re.finditer` yields has the capture's shape |
| KeywordPatterns.KeywordOf | api/app/services/pdf_processor.py:85-95 | the keyword patterns' words are lower-case words |
| KeywordPatterns.KeywordMatcher | api/app/services/pdf_processor.py:83-103 | the Total, Subtotal, Tax and Grand Total patterns are `re.finditer` over their keywords, each capture of group-1 shape; Amount and Balance are the backtracking patterns' captures |
| KeywordPatterns.KeywordNeedsAmountChar | api/app/services/pdf_processor.py:85-95 | a line without any `[0-9,]` character matches none of the four keyword patterns |
| KeywordPatterns.CaptureConverts | api/app/services/pdf_processor.py:106-107 | a capture converts exactly when it holds a digit |
| KeywordPatterns.KeywordLine | api/app/services/pdf_processor.py:85-89 | a line of keyword, separators, optional `$` and amount yields exactly the amount |
| KeywordPatterns.FindAllSkips | api/app/services/pdf_processor.py:102 | positions where no match starts are passed over |
| KeywordPatterns.NoInitialNoMatch | api/app/services/pdf_processor.py:85-95 | a text with no character that folds to the keyword's first letter has no match |
| KeywordPatterns.TotalLineCaptures | api/app/services/pdf_processor.py:85-95 | on a `Total` line only the `total` pattern matches, once, capturing the amount |
| KeywordPatterns.SubtotalLineCaptures | api/app/services/pdf_processor.py:85-95 | on a `Subtotal` line both the `total` and the `subtotal` patterns capture the amount, and no other keyword matches |
| KeywordPatterns.TotalInsideSubtotal | api/app/services/pdf_processor.py:85 | `total` is found inside `subtotal`, because there is no word boundary |
| KeywordPatterns.SubtotalReportedAsTotal | api/app/services/pdf_processor.py:83-129 | a `Subtotal` line is reported once, under the label `Total` |
| KeywordPatterns.RepeatedTotalReportedOnce | api/app/services/pdf_processor.py:98-129 | two identical `Total` lines give one total, from line 1 |
| WebHelpers.ValidatePdfFile | web/src/utils/helpers.js:43-61 | no file gives one error; the type error appears exactly when the type is not PDF and the size error exactly when the size exceeds 10 MiB; no errors exactly for a PDF within the limit |
| WebHelpers.TruncateText | web/src/utils/helpers.js:64-67 | a text that fits is unchanged; otherwise the result is a prefix of `maxLength` characters followed by `...` |
| WebHelpers.TruncateTextDefault | web/src/utils/helpers.js:64 | with the default limit the result has at most 103 characters |
| WebHelpers.TruncateIdempotent | web/src/utils/helpers.js:64-67 | truncating again with the same limit changes nothing |
| Numbers.CurrencySymbolIgnored | api/app/utils/numbers.py:4-23 | any of the twelve `CURRENCY_CHARS` anywhere in a token without parentheses leaves its amount unchanged |
| Dates.PrintIsStrftime | api/app/utils/dates.py:4-11 | each `DateFormats` entry writes what `strftime` writes for the format string at the same position of `DATE_FORMATS` |
| Strings.Strip | api/app/utils/dates.py:20 | the result has no whitespace at either end and is the text between the leading and trailing whitespace runs |
| Strings.JoinSplit | api/app/services/pdf_processor.py:98 | joining the pieces of a split with the separator restores the text |
| Strings.SplitJoin | api/app/services/pdf_processor.py:98 | splitting a join whose pieces do not contain the separator gives the pieces back |
| Strings.SplitLines | api/app/services/text_extractor.py:50 | no line `str.splitlines` gives contains a line-break character |
| Strings.SplitLinesJoin | api/app/services/text_extractor.py:50 | lines joined with line breaks split back into the same lines |
| Strings.SplitOnRuns | api/app/services/ocr_extractor.py:25 | `re.split` gives at least one piece, and no piece contains a whitespace run as long as the separator pattern's minimum |
| Strings.SplitOnRunsJoin | api/app/services/text_extractor.py:54 | pieces joined with gaps of two or more spaces split back into the pieces |

## Left out

- **Unicode digits.** `\d` and `[0-9]`: Python's `\d` also matches non-ASCII
  decimal digits, which `float` accepts too. The model treats only ASCII
  digits as digits.
- **Floating point.** Amounts are exact reals, and `round(x, 2)` is
  round-half-even on the exact value (`TotalsService.Round2`). Binary
  rounding errors are not modelled.
- **PDF and OCR libraries.** pdfplumber, pdf2image and pytesseract, the
  OCR resolution and `ocr_language` are out of the model. Their outputs
  are parameters: tables, text layers and OCR text per page. A page's text
  layer is `None` when `page.extract_text()` returns nothing
  (api/app/services/pdf_processor.py:45). A page's OCR text is `None` only
  where rendering or OCR raised inside the per-page `try` of
  `_extract_text_with_ocr` (api/app/services/pdf_processor.py:57-74), which
  skips that page.
- **Exceptions.** Every other library failure propagates and aborts the
  whole call: opening the PDF or reading a page in `_extract_text_directly`
  (api/app/services/pdf_processor.py:43-45) and in `extract_transactions_from_text`
  (api/app/services/text_extractor.py:14-16, 49), and converting or reading
  any page in `extract_transactions_from_ocr`
  (api/app/services/ocr_extractor.py:16-19). `parse_pdf_statement` catches
  nothing either, and `extract_text` logs and re-raises. The model has no
  exceptions and no logging: it describes only calls that return.
- **OCR setting and per-page errors.** `parse_pdf_statement` never reads
  `settings.ocr_enabled`: mode "ocr", and mode "auto" with fewer than five
  text rows, always run `extract_transactions_from_ocr`. Only
  `PDFProcessor.extract_text` consults the setting
  (api/app/services/pdf_processor.py:28). `extract_transactions_from_ocr`
  has no per-page `try`, so one page that fails to OCR aborts it, unlike
  `_extract_text_with_ocr`.
- **Dates.** `strptime` is modelled for the six formats in use. Month names
  are compared case-insensitively in ASCII. `%d` and `%m` accept one or
  two digits, and `%Y` accepts exactly four.
- **Case folding.** The `(?i)` flag is modelled for the keywords used.
  Upper-case ASCII letters fold to lower case, and U+017F (long s) folds
  to `s`; no other character folds to these letters.
- **Backtracking patterns.** `KeywordPatterns.KeywordMatcher` leaves the
  captures of the `amount[\s\w]*…` and `balance[\s\w]*…` patterns as a
  parameter, because they backtrack over `\w`. The four keyword-only
  patterns are concrete.
- **Web helpers.** `formatFileSize(maxSize)` is spelled out as its value,
  `10 MB`. JavaScript string lengths count UTF-16 code units; the model
  counts characters. `generateId` uses randomness and is left out.
- **Records.** `ParsedText.confidence` is never set and is not modelled.
  A total's label is the `Label` datatype, and `FinancialTotals.LabelName`
  gives its text. The metadata dictionary is a record with optional fields.
