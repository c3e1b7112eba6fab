/**
 * `parse_pdf_statement` of `api/app/services/parser_service.py`: the mode
 * selection between the text and OCR extractors, the totals, and the
 * metadata.  The two extractors' outputs are parameters; an extractor the
 * code does not call is one whose output the result does not depend on.
 */
module ParserService {
  import opened Options
  import opened Models
  import opened TotalsService

  /** `MIN_ROWS_FOR_SUCCESS`. */
  const MinRowsForSuccess: nat := 5

  /** `_enough_rows`: the threshold is inclusive. */
  predicate EnoughRows(rows: seq<Transaction>)
  {
    |rows| >= MinRowsForSuccess
  }

  /** The values `metadata["mode_used"]` is set to besides `None`. */
  datatype ModeUsed = Text | Ocr

  /**
   * The `metadata` dictionary.  `modeUsed` is `None` when the key is absent
   * and `Some(None)` when it holds `None`; `balanceCheck` is `None` when the
   * key is absent.
   */
  datatype Metadata = Metadata(modeUsed: Option<Option<ModeUsed>>, balanceCheck: Option<BalanceCheck>, transactionCount: nat)

  /** The returned dictionary: totals, transactions and metadata. */
  datatype Statement = Statement(totals: Totals, transactions: seq<Transaction>, metadata: Metadata)

  /** The rows and the `mode_used` entry once the two `if` blocks have run. */
  datatype Selection = Selection(rows: seq<Transaction>, modeUsed: Option<Option<ModeUsed>>)

  /**
   * The two `if` blocks, step by step.  The contract is the decision table
   * they amount to: "text" and "ocr" take their extractor's rows, "auto"
   * keeps the text rows when there are enough of them and otherwise takes
   * the OCR rows, and any other mode takes nothing and sets no `mode_used`.
   */
  function SelectRows(mode: string, textRows: seq<Transaction>, ocrRows: seq<Transaction>): (s: Selection)
    ensures mode == "text" ==> s == Selection(textRows, Some(Some(Text)))
    ensures mode == "ocr" ==> s == Selection(ocrRows, Some(Some(Ocr)))
    ensures mode == "auto" && |textRows| >= 5 ==> s == Selection(textRows, Some(Some(Text)))
    ensures mode == "auto" && |textRows| < 5 ==> s == Selection(ocrRows, Some(Some(Ocr)))
    ensures mode != "auto" && mode != "text" && mode != "ocr" ==> s == Selection([], None)
  {
    var afterText :=
      if mode == "auto" || mode == "text" then
        if mode == "auto" && !EnoughRows(textRows) then Selection([], Some(None))
        else Selection(textRows, Some(Some(Text)))
      else Selection([], None);
    if mode == "ocr" || (mode == "auto" && |afterText.rows| == 0) then Selection(ocrRows, Some(Some(Ocr)))
    else afterText
  }

  /** `next((t.balance for t in txs if t.balance is not None), None)`. */
  function FirstBalance(txs: seq<Transaction>): (r: Option<real>)
    ensures r.None? <==> forall i :: 0 <= i < |txs| ==> txs[i].balance.None?
  {
    if |txs| == 0 then None
    else if txs[0].balance.Some? then txs[0].balance
    else
      var r := FirstBalance(txs[1..]);
      assert forall i :: 1 <= i < |txs| ==> txs[i] == txs[1..][i - 1];
      r
  }

  /** `reversed(xs)`. */
  function Reverse<T>(xs: seq<T>): (r: seq<T>)
    ensures |r| == |xs|
    ensures forall k :: 0 <= k < |xs| ==> r[k] == xs[|xs| - 1 - k]
  {
    if |xs| == 0 then [] else Reverse(xs[1..]) + [xs[0]]
  }

  /** The same search over `reversed(transactions)`. */
  function LastBalance(txs: seq<Transaction>): (r: Option<real>)
    ensures r.None? <==> forall i :: 0 <= i < |txs| ==> txs[i].balance.None?
  {
    var rev := Reverse(txs);
    assert forall i :: 0 <= i < |txs| ==> txs[i] == rev[|txs| - 1 - i];
    FirstBalance(rev)
  }

  /** `parse_pdf_statement(pdf_path, mode)`, given what each extractor returns for the file. */
  function ParsePdfStatement(mode: string, textRows: seq<Transaction>, ocrRows: seq<Transaction>): (st: Statement)
    ensures mode == "text" ==> st.transactions == textRows && st.metadata.modeUsed == Some(Some(Text))
    ensures mode == "ocr" ==> st.transactions == ocrRows && st.metadata.modeUsed == Some(Some(Ocr))
    ensures mode == "auto" && |textRows| >= 5 ==> st.transactions == textRows && st.metadata.modeUsed == Some(Some(Text))
    ensures mode == "auto" && |textRows| < 5 ==> st.transactions == ocrRows && st.metadata.modeUsed == Some(Some(Ocr))
    ensures mode != "auto" && mode != "text" && mode != "ocr"
         ==> st.transactions == [] && st.metadata == Metadata(None, None, 0)
    ensures st.metadata.modeUsed != Some(None)
    ensures st.transactions == textRows || st.transactions == ocrRows || st.transactions == []
    ensures st.metadata.transactionCount == |st.transactions|
    ensures st.totals == ComputeTotals(st.transactions)
    ensures st.metadata.balanceCheck.Some?
        <==> exists i :: 0 <= i < |st.transactions| && st.transactions[i].balance.Some?
  {
    var sel := SelectRows(mode, textRows, ocrRows);
    var transactions := sel.rows;
    var totals := ComputeTotals(transactions);
    var opening := FirstBalance(transactions);
    var closing := LastBalance(transactions);
    var bc := CheckBalance(opening, closing, totals);
    Statement(totals, transactions, Metadata(sel.modeUsed, bc, |transactions|))
  }

  // ---------------------------------------------------------------- properties

  /** The opening balance is the balance of the first transaction that has one. */
  lemma {:induction false} FirstBalanceAt(txs: seq<Transaction>, i: nat)
    requires i < |txs| && txs[i].balance.Some?
    requires forall j :: 0 <= j < i ==> txs[j].balance.None?
    ensures FirstBalance(txs) == txs[i].balance
    decreases i
  {
    if i > 0 {
      assert forall j :: 0 <= j < i - 1 ==> txs[1..][j] == txs[j + 1];
      FirstBalanceAt(txs[1..], i - 1);
    }
  }

  /** The closing balance is the balance of the last transaction that has one. */
  lemma LastBalanceAt(txs: seq<Transaction>, i: nat)
    requires i < |txs| && txs[i].balance.Some?
    requires forall j :: i < j < |txs| ==> txs[j].balance.None?
    ensures LastBalance(txs) == txs[i].balance
  {
    var rev := Reverse(txs);
    var k := |txs| - 1 - i;
    assert forall j :: 0 <= j < k ==> rev[j] == txs[|txs| - 1 - j];
    FirstBalanceAt(rev, k);
  }

  /**
   * With `first` and `last` the first and last transactions that carry a
   * balance, the balance check is made from their two balances.
   */
  lemma BalanceCheckOfEnds(txs: seq<Transaction>, totals: Totals, first: nat, last: nat)
    requires first <= last < |txs|
    requires txs[first].balance.Some? && txs[last].balance.Some?
    requires forall j :: 0 <= j < first ==> txs[j].balance.None?
    requires forall j :: last < j < |txs| ==> txs[j].balance.None?
    ensures CheckBalance(FirstBalance(txs), LastBalance(txs), totals)
         == CheckBalance(txs[first].balance, txs[last].balance, totals)
  {
    FirstBalanceAt(txs, first);
    LastBalanceAt(txs, last);
  }

  /**
   * The statement's balance check takes the balance of the first and of the
   * last transaction that carry one, and the statement's own net flow.
   */
  lemma StatementBalanceCheck(mode: string, textRows: seq<Transaction>, ocrRows: seq<Transaction>, first: nat, last: nat)
    requires first <= last < |ParsePdfStatement(mode, textRows, ocrRows).transactions|
    requires ParsePdfStatement(mode, textRows, ocrRows).transactions[first].balance.Some?
    requires ParsePdfStatement(mode, textRows, ocrRows).transactions[last].balance.Some?
    requires forall j :: 0 <= j < first ==> ParsePdfStatement(mode, textRows, ocrRows).transactions[j].balance.None?
    requires forall j :: last < j < |ParsePdfStatement(mode, textRows, ocrRows).transactions|
               ==> ParsePdfStatement(mode, textRows, ocrRows).transactions[j].balance.None?
    ensures ParsePdfStatement(mode, textRows, ocrRows).metadata.balanceCheck
         == CheckBalance(
              ParsePdfStatement(mode, textRows, ocrRows).transactions[first].balance,
              ParsePdfStatement(mode, textRows, ocrRows).transactions[last].balance,
              ParsePdfStatement(mode, textRows, ocrRows).totals)
  {
    var st := ParsePdfStatement(mode, textRows, ocrRows);
    BalanceCheckOfEnds(st.transactions, st.totals, first, last);
  }

  /**
   * The totals are sums over the returned transactions: inflow over the
   * positive amounts, outflow over the negated negative ones, net over all
   * amounts and flow volume over their absolute values, each rounded to cents.
   */
  lemma StatementTotals(mode: string, textRows: seq<Transaction>, ocrRows: seq<Transaction>)
    ensures var st := ParsePdfStatement(mode, textRows, ocrRows);
      && st.totals.inflow == Round2(Sum(Positives(Amounts(st.transactions))))
      && st.totals.outflow == Round2(Sum(NegatedNegatives(Amounts(st.transactions))))
      && st.totals.net == Round2(Sum(Amounts(st.transactions)))
      && st.totals.flowVolume == Round2(AbsSum(Amounts(st.transactions)))
  {
  }

  /**
   * In mode "auto" the text rows are kept exactly when there are at least
   * five of them; with fewer the OCR rows are taken, whatever their number.
   */
  lemma AutoModeThreshold(textRows: seq<Transaction>, ocrRows: seq<Transaction>)
    ensures MinRowsForSuccess == 5
    ensures EnoughRows(textRows) <==> |textRows| >= 5
    ensures var st := ParsePdfStatement("auto", textRows, ocrRows);
      && (st.metadata.modeUsed == Some(Some(Text)) <==> EnoughRows(textRows))
      && (st.metadata.modeUsed == Some(Some(Ocr)) <==> !EnoughRows(textRows))
      && st.transactions == (if EnoughRows(textRows) then textRows else ocrRows)
  {
  }

  /** Modes that take the text rows never look at the OCR rows: the OCR extractor is not run. */
  lemma NoOcrCall(mode: string, textRows: seq<Transaction>, ocr1: seq<Transaction>, ocr2: seq<Transaction>)
    requires mode == "text" || (mode == "auto" && EnoughRows(textRows))
    ensures ParsePdfStatement(mode, textRows, ocr1) == ParsePdfStatement(mode, textRows, ocr2)
  {
  }

  /** Mode "ocr" never looks at the text rows: the text extractor is not run. */
  lemma NoTextCall(textRows1: seq<Transaction>, textRows2: seq<Transaction>, ocrRows: seq<Transaction>)
    ensures ParsePdfStatement("ocr", textRows1, ocrRows) == ParsePdfStatement("ocr", textRows2, ocrRows)
  {
  }
}
