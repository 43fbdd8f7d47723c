/** The ratio engine, `calculate_ratios` (ecoScraping.py:171-235): three
    ratios per row, each NaN when the row is incomplete or the ratio's
    denominator is zero, otherwise an exact quotient. */
module Ratios {
  import opened Wrappers
  import opened Cleaning

  /** One input row. A label is `None` when its column is absent; a numeric
      field is `None` when it is NaN or its column is absent. */
  datatype FinancialRow = FinancialRow(
    companyName: Option<Cell>, ticker: Option<Cell>, year: Option<Cell>,
    totalCurrentAssets: Option<real>, totalCurrentLiabilities: Option<real>,
    totalDebt: Option<real>, totalEquity: Option<real>,
    revenue: Option<real>, netIncome: Option<real>)

  /** One output row; a ratio is `None` where the source writes NaN. */
  datatype RatioRow = RatioRow(
    companyName: Cell, ticker: Cell, year: Cell,
    currentRatio: Option<real>, debtToEquityRatio: Option<real>,
    netProfitMargin: Option<real>)

  /** The label written when `row.get(col, 'N/A')` finds no such column. */
  const NOT_AVAILABLE: Cell := Text("N/A")

  /** All six numeric fields are present. */
  predicate Complete(row: FinancialRow) {
    && row.totalCurrentAssets.Some? && row.totalCurrentLiabilities.Some?
    && row.totalDebt.Some? && row.totalEquity.Some?
    && row.revenue.Some? && row.netIncome.Some?
  }

  /** The six numeric fields, in the order of `required_numeric_cols`. */
  function NumericFields(row: FinancialRow): (fields: seq<Option<real>>)
    ensures |fields| == 6
    ensures AnyMissing(fields) <==> !Complete(row)
  {
    var fields := [row.totalCurrentAssets, row.totalCurrentLiabilities, row.totalDebt,
                   row.totalEquity, row.revenue, row.netIncome];
    assert !Complete(row) ==> exists k :: 0 <= k < 6 && fields[k].None? by {
      if row.totalCurrentAssets.None? { assert fields[0].None?; }
      else if row.totalCurrentLiabilities.None? { assert fields[1].None?; }
      else if row.totalDebt.None? { assert fields[2].None?; }
      else if row.totalEquity.None? { assert fields[3].None?; }
      else if row.revenue.None? { assert fields[4].None?; }
      else if row.netIncome.None? { assert fields[5].None?; }
    }
    fields
  }

  /** The `missing_data` flag: the scan over every numeric field, without
      an early exit. */
  function AnyMissing(fields: seq<Option<real>>): (missing: bool)
    ensures missing <==> exists k :: 0 <= k < |fields| && fields[k].None?
  {
    if fields == [] then false
    else
      var rest := AnyMissing(fields[1..]);
      assert forall k :: 1 <= k < |fields| ==> fields[k] == fields[1..][k - 1];
      fields[0].None? || rest
  }

  /** One ratio under the NaN policy. */
  function Ratio(missingData: bool, numerator: Option<real>, denominator: Option<real>): (r: Option<real>)
    ensures r.Some? <==> !missingData && numerator.Some? && denominator.Some? && denominator.value != 0.0
    ensures r.Some? ==> r.value * denominator.value == numerator.value
  {
    if missingData || numerator.None? || denominator.None? then None
    else if denominator.value == 0.0 then None
    else Some(numerator.value / denominator.value)
  }

  /** The result for one row: labels copied through (defaulting to "N/A"),
      and each ratio present exactly when all six fields are present and
      its denominator is non-zero, in which case it is the exact quotient. */
  function CalculateRow(row: FinancialRow): (r: RatioRow)
    ensures r.companyName == row.companyName.GetOr(NOT_AVAILABLE)
    ensures r.ticker == row.ticker.GetOr(NOT_AVAILABLE)
    ensures r.year == row.year.GetOr(NOT_AVAILABLE)
    ensures !Complete(row) ==>
              r.currentRatio.None? && r.debtToEquityRatio.None? && r.netProfitMargin.None?
    ensures r.currentRatio.Some? <==>
              Complete(row) && row.totalCurrentLiabilities.value != 0.0
    ensures r.currentRatio.Some? ==>
              r.currentRatio.value * row.totalCurrentLiabilities.value == row.totalCurrentAssets.value
    ensures r.debtToEquityRatio.Some? <==>
              Complete(row) && row.totalEquity.value != 0.0
    ensures r.debtToEquityRatio.Some? ==>
              r.debtToEquityRatio.value * row.totalEquity.value == row.totalDebt.value
    ensures r.netProfitMargin.Some? <==>
              Complete(row) && row.revenue.value != 0.0
    ensures r.netProfitMargin.Some? ==>
              r.netProfitMargin.value * row.revenue.value == row.netIncome.value
  {
    var missing := AnyMissing(NumericFields(row));
    RatioRow(
      row.companyName.GetOr(NOT_AVAILABLE), row.ticker.GetOr(NOT_AVAILABLE), row.year.GetOr(NOT_AVAILABLE),
      Ratio(missing, row.totalCurrentAssets, row.totalCurrentLiabilities),
      Ratio(missing, row.totalDebt, row.totalEquity),
      Ratio(missing, row.netIncome, row.revenue))
  }

  /** The whole frame: rows are appended one at a time, as the loop does. */
  function CalculateRatios(rows: seq<FinancialRow>): (out: seq<RatioRow>)
    ensures |out| == |rows|
    ensures forall i :: 0 <= i < |rows| ==> out[i] == CalculateRow(rows[i])
  {
    if rows == [] then []
    else CalculateRatios(rows[..|rows| - 1]) + [CalculateRow(rows[|rows| - 1])]
  }

  /** A NaN in any one of the six fields voids all three ratios, even a
      ratio whose own two operands are present. */
  lemma MissingFieldVoidsAllRatios(row: FinancialRow, k: int)
    requires 0 <= k < 6 && NumericFields(row)[k].None?
    ensures CalculateRow(row).currentRatio.None?
    ensures CalculateRow(row).debtToEquityRatio.None?
    ensures CalculateRow(row).netProfitMargin.None?
  {
  }

  /** With every field present, a zero denominator gives NaN, never an
      infinity and never an error. */
  lemma ZeroDenominatorGivesNaN(row: FinancialRow)
    requires Complete(row)
    ensures row.totalCurrentLiabilities == Some(0.0) ==> CalculateRow(row).currentRatio.None?
    ensures row.totalEquity == Some(0.0) ==> CalculateRow(row).debtToEquityRatio.None?
    ensures row.revenue == Some(0.0) ==> CalculateRow(row).netProfitMargin.None?
  {
  }

  /** With every field present, each ratio whose own denominator is
      non-zero is the exact quotient of its two fields, whatever the other
      denominators hold. */
  lemma RatiosAreExactQuotients(row: FinancialRow)
    requires Complete(row)
    ensures row.totalCurrentLiabilities.value != 0.0 ==>
              CalculateRow(row).currentRatio ==
                Some(row.totalCurrentAssets.value / row.totalCurrentLiabilities.value)
    ensures row.totalEquity.value != 0.0 ==>
              CalculateRow(row).debtToEquityRatio == Some(row.totalDebt.value / row.totalEquity.value)
    ensures row.revenue.value != 0.0 ==>
              CalculateRow(row).netProfitMargin == Some(row.netIncome.value / row.revenue.value)
  {
    assert NumericFields(row)[1].Some? && NumericFields(row)[3].Some? && NumericFields(row)[4].Some?;
  }

  /** Computing over a concatenation is concatenating the computations:
      output order is input order and each row depends only on itself. */
  lemma CalculateRatiosAppend(a: seq<FinancialRow>, b: seq<FinancialRow>)
    ensures CalculateRatios(a + b) == CalculateRatios(a) + CalculateRatios(b)
  {
    var lhs := CalculateRatios(a + b);
    var rhs := CalculateRatios(a) + CalculateRatios(b);
    forall i | 0 <= i < |lhs| ensures lhs[i] == rhs[i] {
      if i < |a| { assert (a + b)[i] == a[i]; } else { assert (a + b)[i] == b[i - |a|]; }
    }
  }

  /** Two tables that agree on row `i` agree on that row's ratios. */
  lemma RowLocality(a: seq<FinancialRow>, b: seq<FinancialRow>, i: int)
    requires 0 <= i < |a| && 0 <= i < |b| && a[i] == b[i]
    ensures CalculateRatios(a)[i] == CalculateRatios(b)[i]
  {
  }

  /** The first sample row of the bootstrap data (Apple, 2023): the three
      ratios are the exact quotients, which print as 0.9880, 1.7875 and
      0.2531 at four decimals. */
  lemma SampleRowRatios()
    ensures var r := CalculateRow(FinancialRow(
              Some(Text("Apple Inc.")), Some(Text("AAPL")), Some(Num(2023.0)),
              Some(143566.0), Some(145308.0), Some(111088.0), Some(62146.0),
              Some(383285.0), Some(96995.0)));
            && r.ticker == Text("AAPL")
            && r.currentRatio == Some(143566.0 / 145308.0)
            && r.debtToEquityRatio == Some(111088.0 / 62146.0)
            && r.netProfitMargin == Some(96995.0 / 383285.0)
            && 0.98795 <= r.currentRatio.value < 0.98805
            && 1.78745 <= r.debtToEquityRatio.value < 1.78755
            && 0.25305 <= r.netProfitMargin.value < 0.25315
  {
  }

  /** A zero current liabilities with current assets of 100 gives NaN. */
  lemma ZeroLiabilitiesScenario(row: FinancialRow)
    requires row.totalCurrentAssets == Some(100.0) && row.totalCurrentLiabilities == Some(0.0)
    ensures CalculateRow(row).currentRatio == None
  {
  }
}
