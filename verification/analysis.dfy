/** The validation, cleaning and computation steps of
    `analyze_financial_data` (ecoScraping.py:238-331), over a table that has
    already been read from CSV. */
module Analysis {
  import opened Wrappers
  import opened Cleaning
  import opened Ratios

  /** `REQUIRED_COLUMNS` (ecoScraping.py:32-37), in configured order. */
  const REQUIRED_COLUMNS: seq<string> := [
    "CompanyName", "Ticker", "Year",
    "TotalCurrentAssets", "TotalCurrentLiabilities",
    "TotalDebt", "TotalEquity",
    "Revenue", "NetIncome"]

  /** `numeric_cols` (ecoScraping.py:280-284). */
  const NUMERIC_COLUMNS: seq<string> := [
    "TotalCurrentAssets", "TotalCurrentLiabilities",
    "TotalDebt", "TotalEquity",
    "Revenue", "NetIncome"]

  /** A row maps column names to cells. */
  type Row = map<string, Cell>

  /** A loaded table: its header and its rows. */
  datatype Table = Table(columns: seq<string>, rows: seq<Row>)

  /** Every required column is in the header. */
  predicate HasRequiredColumns(t: Table) {
    forall c :: c in REQUIRED_COLUMNS ==> c in t.columns
  }

  /** The outcome of the analysis step before the output file is written. */
  datatype Analysis =
    | EmptyInput                          // nothing to analyse: success, no output
    | MissingRequired(missing: seq<string>) // fatal: no ratios computed
    | Computed(ratios: seq<RatioRow>)     // ratios ready to be written

  /** `row.get(col)`: `None` when the row has no such column. */
  function Label(row: Row, col: string): Option<Cell> {
    if col in row then Some(row[col]) else None
  }

  /** A cell as pandas sees it, NaN where the row has no such column. */
  function Get(row: Row, col: string): Cell {
    Label(row, col).GetOr(NaN)
  }

  /** `df.empty`: no rows or no columns. */
  predicate IsEmpty(t: Table) {
    |t.rows| == 0 || |t.columns| == 0
  }

  /** `xs` can be obtained from `ys` by deleting elements. */
  predicate IsSubsequence(xs: seq<string>, ys: seq<string>) {
    xs == [] ||
    (ys != [] && ((xs[0] == ys[0] && IsSubsequence(xs[1..], ys[1..])) || IsSubsequence(xs, ys[1..])))
  }

  /** `[col for col in required if col not in columns]`: exactly the
      required columns absent from the header, in configured order. */
  function MissingColumns(required: seq<string>, columns: seq<string>): (missing: seq<string>)
    ensures forall c :: c in missing <==> c in required && c !in columns
    ensures IsSubsequence(missing, required)
  {
    if required == [] then []
    else
      var rest := MissingColumns(required[1..], columns);
      assert forall c :: c in required <==> c == required[0] || c in required[1..];
      if required[0] in columns then rest else [required[0]] + rest
  }

  /** One column of the table, top to bottom. */
  function Column(t: Table, col: string): (cells: seq<Cell>)
    ensures |cells| == |t.rows|
    ensures forall i :: 0 <= i < |t.rows| ==> cells[i] == Get(t.rows[i], col)
  {
    seq(|t.rows|, i requires 0 <= i < |t.rows| => Get(t.rows[i], col))
  }

  /** The cleaning of one numeric column when it is in the header
      (ecoScraping.py:288-302): its cells are coerced, nothing else moves. */
  function CleanTableColumn(parse: Parser, t: Table, col: string): (r: Table)
    ensures r.columns == t.columns && |r.rows| == |t.rows|
    ensures forall i :: 0 <= i < |t.rows| && col in t.columns ==>
              Get(r.rows[i], col) == Coerce(parse, Get(t.rows[i], col))
    ensures forall i :: 0 <= i < |t.rows| && col !in t.columns ==> r.rows[i] == t.rows[i]
    ensures forall i, c :: 0 <= i < |t.rows| && c != col ==> Label(r.rows[i], c) == Label(t.rows[i], c)
  {
    if col !in t.columns then t
    else
      var cleaned := CleanColumn(parse, Column(t, col));
      CleanIsCellwiseCoercion(parse, Column(t, col));
      Table(t.columns, seq(|t.rows|, i requires 0 <= i < |t.rows| => t.rows[i][col := cleaned[i]]))
  }

  /** The loop over the numeric columns: every listed column present in the
      header is coerced cell by cell; every other column is untouched. */
  function CleanColumns(parse: Parser, t: Table, cols: seq<string>): (r: Table)
    ensures r.columns == t.columns && |r.rows| == |t.rows|
    ensures forall i, c :: 0 <= i < |t.rows| && c in cols && c in t.columns ==>
              Get(r.rows[i], c) == Coerce(parse, Get(t.rows[i], c))
    ensures forall i, c :: 0 <= i < |t.rows| && !(c in cols && c in t.columns) ==>
              Label(r.rows[i], c) == Label(t.rows[i], c)
    decreases cols
  {
    if cols == [] then t
    else
      var first := CleanTableColumn(parse, t, cols[0]);
      var r := CleanColumns(parse, first, cols[1..]);
      assert forall c :: c in cols <==> c == cols[0] || c in cols[1..];
      r
  }

  /** A cleaned cell as the ratio engine reads it. */
  function NumberOf(c: Cell): (v: Option<real>)
    ensures v.Some? <==> c.Num?
    ensures v.Some? ==> c == Num(v.value)
  {
    if c.Num? then Some(c.x) else None
  }

  /** The row handed to `calculate_ratios`: labels as `row.get` returns
      them, and complete exactly when every numeric cell is a number. */
  function RowOf(row: Row): (r: FinancialRow)
    ensures r.companyName == Label(row, "CompanyName")
    ensures r.ticker == Label(row, "Ticker")
    ensures r.year == Label(row, "Year")
    ensures Complete(r) <==> forall c :: c in NUMERIC_COLUMNS ==> Get(row, c).Num?
  {
    FinancialRow(
      Label(row, "CompanyName"), Label(row, "Ticker"), Label(row, "Year"),
      NumberOf(Get(row, "TotalCurrentAssets")), NumberOf(Get(row, "TotalCurrentLiabilities")),
      NumberOf(Get(row, "TotalDebt")), NumberOf(Get(row, "TotalEquity")),
      NumberOf(Get(row, "Revenue")), NumberOf(Get(row, "NetIncome")))
  }

  /** The table after cleaning every numeric column. */
  function CleanTable(parse: Parser, t: Table): Table {
    CleanColumns(parse, t, NUMERIC_COLUMNS)
  }

  /** The ratio rows for a table whose header is complete: the engine over
      the cleaned rows (ecoScraping.py:309-311). */
  function ComputeRatios(parse: Parser, t: Table): (ratios: seq<RatioRow>)
    ensures |ratios| == |t.rows|
    ensures forall i :: 0 <= i < |t.rows| ==> ratios[i] == CalculateRow(RowOf(CleanTable(parse, t).rows[i]))
  {
    var cleaned := CleanTable(parse, t);
    CalculateRatios(seq(|cleaned.rows|, i requires 0 <= i < |cleaned.rows| => RowOf(cleaned.rows[i])))
  }

  /** `analyze_financial_data` after loading: an empty table succeeds with
      no output; otherwise a missing required column is fatal before any
      row is processed; otherwise the cleaned rows go through the engine,
      one output row per input row, labels copied through. */
  function Analyze(parse: Parser, t: Table): (a: Analysis)
    ensures a.EmptyInput? <==> IsEmpty(t)
    ensures a.MissingRequired? <==> !IsEmpty(t) && !HasRequiredColumns(t)
    ensures a.Computed? <==> |t.rows| > 0 && HasRequiredColumns(t)
    ensures a.MissingRequired? ==> a.missing == MissingColumns(REQUIRED_COLUMNS, t.columns)
    ensures a.Computed? ==> a.ratios == ComputeRatios(parse, t) && |a.ratios| == |t.rows|
  {
    if IsEmpty(t) then
      assert HasRequiredColumns(t) ==> REQUIRED_COLUMNS[0] in t.columns;
      EmptyInput
    else
      var missing := MissingColumns(REQUIRED_COLUMNS, t.columns);
      if missing != [] then
        assert missing[0] in missing;
        MissingRequired(missing)
      else
        assert HasRequiredColumns(t);
        Computed(ComputeRatios(parse, t))
  }

  /** Output row `i` is the engine applied to cleaned row `i`. */
  lemma ComputedRow(parse: Parser, t: Table, i: int)
    requires HasRequiredColumns(t) && 0 <= i < |t.rows|
    ensures Analyze(parse, t).ratios[i] == CalculateRow(RowOf(CleanTable(parse, t).rows[i]))
  {
    assert Analyze(parse, t).ratios == ComputeRatios(parse, t);
  }

  /** The numeric cells of cleaned row `i` are the coerced originals. */
  lemma CleanedRow(parse: Parser, t: Table, i: int)
    requires HasRequiredColumns(t) && 0 <= i < |t.rows|
    ensures forall c :: c in NUMERIC_COLUMNS ==>
              Get(CleanTable(parse, t).rows[i], c) == Coerce(parse, Get(t.rows[i], c))
  {
    assert forall c :: c in REQUIRED_COLUMNS ==> c in t.columns;
    assert forall c :: c in NUMERIC_COLUMNS ==> c in REQUIRED_COLUMNS;
  }

  /** The label columns are not numeric columns, so cleaning leaves them alone. */
  lemma LabelColumnsNotNumeric()
    ensures "CompanyName" !in NUMERIC_COLUMNS
    ensures "Ticker" !in NUMERIC_COLUMNS
    ensures "Year" !in NUMERIC_COLUMNS
  {
    assert forall k :: 0 <= k < |NUMERIC_COLUMNS| ==> NUMERIC_COLUMNS[k] != "CompanyName";
    assert forall k :: 0 <= k < |NUMERIC_COLUMNS| ==> NUMERIC_COLUMNS[k] != "Ticker";
    assert forall k :: 0 <= k < |NUMERIC_COLUMNS| ==> NUMERIC_COLUMNS[k] != "Year";
  }

  /** `CompanyName`, `Ticker` and `Year` are copied through unchanged, or
      "N/A" where the row has no such field. */
  lemma LabelsCopiedThrough(parse: Parser, t: Table, i: int)
    requires HasRequiredColumns(t) && 0 <= i < |t.rows|
    ensures Analyze(parse, t).ratios[i].companyName == Label(t.rows[i], "CompanyName").GetOr(NOT_AVAILABLE)
    ensures Analyze(parse, t).ratios[i].ticker == Label(t.rows[i], "Ticker").GetOr(NOT_AVAILABLE)
    ensures Analyze(parse, t).ratios[i].year == Label(t.rows[i], "Year").GetOr(NOT_AVAILABLE)
  {
    ComputedRow(parse, t, i);
    LabelColumnsNotNumeric();
    CleaningKeepsColumn(parse, t, i, "CompanyName");
    CleaningKeepsColumn(parse, t, i, "Ticker");
    CleaningKeepsColumn(parse, t, i, "Year");
  }

  /** Cleaning leaves a non-numeric column of every row untouched. */
  lemma CleaningKeepsColumn(parse: Parser, t: Table, i: int, c: string)
    requires 0 <= i < |t.rows| && c !in NUMERIC_COLUMNS
    ensures Label(CleanTable(parse, t).rows[i], c) == Label(t.rows[i], c)
  {
  }

  /** A marker ('-' or '') in any numeric column of a row voids all three
      of that row's ratios. */
  lemma MarkerVoidsRow(parse: Parser, t: Table, i: int, col: string)
    requires RejectsMarkers(parse)
    requires HasRequiredColumns(t) && 0 <= i < |t.rows|
    requires col in NUMERIC_COLUMNS && IsMarker(Get(t.rows[i], col))
    ensures Analyze(parse, t).ratios[i].currentRatio.None?
    ensures Analyze(parse, t).ratios[i].debtToEquityRatio.None?
    ensures Analyze(parse, t).ratios[i].netProfitMargin.None?
  {
    ComputedRow(parse, t, i);
    CleanedRow(parse, t, i);
    var row := CleanTable(parse, t).rows[i];
    assert Get(row, col) == NaN;
    var fr := RowOf(row);
    assert !Complete(fr) by {
      assert col == NUMERIC_COLUMNS[0] || col == NUMERIC_COLUMNS[1] || col == NUMERIC_COLUMNS[2]
          || col == NUMERIC_COLUMNS[3] || col == NUMERIC_COLUMNS[4] || col == NUMERIC_COLUMNS[5];
    }
  }

  /** When the six numeric cells of a row are numbers, each output ratio
      whose own denominator is non-zero is the exact quotient. */
  lemma NumbersGiveExactRatios(parse: Parser, t: Table, i: int,
                               tca: real, tcl: real, debt: real, equity: real, revenue: real, income: real)
    requires HasRequiredColumns(t) && 0 <= i < |t.rows|
    requires Get(t.rows[i], "TotalCurrentAssets") == Num(tca)
    requires Get(t.rows[i], "TotalCurrentLiabilities") == Num(tcl)
    requires Get(t.rows[i], "TotalDebt") == Num(debt)
    requires Get(t.rows[i], "TotalEquity") == Num(equity)
    requires Get(t.rows[i], "Revenue") == Num(revenue)
    requires Get(t.rows[i], "NetIncome") == Num(income)
    ensures tcl != 0.0 ==> Analyze(parse, t).ratios[i].currentRatio == Some(tca / tcl)
    ensures equity != 0.0 ==> Analyze(parse, t).ratios[i].debtToEquityRatio == Some(debt / equity)
    ensures revenue != 0.0 ==> Analyze(parse, t).ratios[i].netProfitMargin == Some(income / revenue)
  {
    ComputedRow(parse, t, i);
    CleanedRow(parse, t, i);
    var row := RowOf(CleanTable(parse, t).rows[i]);
    assert row.totalCurrentAssets == Some(tca) && row.totalCurrentLiabilities == Some(tcl);
    assert row.totalDebt == Some(debt) && row.totalEquity == Some(equity);
    assert row.revenue == Some(revenue) && row.netIncome == Some(income);
    RatiosAreExactQuotients(row);
  }

  /** Cleaning the whole table a second time changes no cell: every
      numeric column already holds no text after the first pass. */
  lemma CleanTableIdempotentCells(parse: Parser, t: Table)
    ensures var once := CleanTable(parse, t);
            var twice := CleanTable(parse, once);
            && |twice.rows| == |once.rows|
            && forall i, c :: 0 <= i < |once.rows| ==> Get(twice.rows[i], c) == Get(once.rows[i], c)
  {
    var once := CleanTable(parse, t);
    var twice := CleanTable(parse, once);
    forall i, c | 0 <= i < |once.rows| ensures Get(twice.rows[i], c) == Get(once.rows[i], c) {
      if c in NUMERIC_COLUMNS && c in t.columns {
        assert !Get(once.rows[i], c).Text?;
      } else {
        assert Label(twice.rows[i], c) == Label(once.rows[i], c);
      }
    }
  }

  /** A header-only file is "empty" and succeeds even when required columns
      are missing from its header. */
  lemma HeaderOnlyTableIsEmptyInput(parse: Parser, columns: seq<string>)
    ensures Analyze(parse, Table(columns, [])) == EmptyInput
  {
  }
}
