/** Cells of the financial-facts table as the CSV reader produces them, and
    the per-column numeric cleaning of `analyze_financial_data`
    (ecoScraping.py:287-302). */
module Cleaning {
  import opened Wrappers

  /** One cell of the loaded table: NaN (an empty field), a number, or text. */
  datatype Cell = NaN | Num(x: real) | Text(s: string)

  /** The grammar `pd.to_numeric` accepts, as a partial function from text
      to a number; `None` is a value it cannot convert. */
  type Parser = string -> Option<real>

  /** The two textual "missing" markers of ecoScraping.py:301. */
  predicate IsMarker(c: Cell) {
    c == Text("-") || c == Text("")
  }

  /** pandas's grammar rejects both markers, so coercing them yields NaN. */
  predicate RejectsMarkers(parse: Parser) {
    parse("-") == None && parse("") == None
  }

  /** `pd.api.types.is_numeric_dtype`: a column read from CSV has a numeric
      dtype exactly when no cell holds text. */
  predicate IsNumericColumn(col: seq<Cell>) {
    forall i :: 0 <= i < |col| ==> !col[i].Text?
  }

  /** `pd.to_numeric(..., errors='coerce')` on a single value. */
  function Coerce(parse: Parser, c: Cell): (r: Cell)
    ensures !r.Text?
    ensures !c.Text? ==> r == c
    ensures c.Text? ==> (r.Num? <==> parse(c.s).Some?)
  {
    match c
    case NaN => NaN
    case Num(x) => Num(x)
    case Text(s) => if parse(s).Some? then Num(parse(s).value) else NaN
  }

  /** `pd.to_numeric(col, errors='coerce')` on a whole column. */
  function ToNumeric(parse: Parser, col: seq<Cell>): (r: seq<Cell>)
    ensures |r| == |col| && IsNumericColumn(r)
    ensures forall i :: 0 <= i < |col| && !col[i].Text? ==> r[i] == col[i]
    ensures forall i :: 0 <= i < |col| && col[i].Text? ==> (r[i].Num? <==> parse(col[i].s).Some?)
  {
    seq(|col|, i requires 0 <= i < |col| => Coerce(parse, col[i]))
  }

  /** `col.replace({'-': np.nan, '': np.nan})`. */
  function ReplaceMarkers(col: seq<Cell>): (r: seq<Cell>)
    ensures |r| == |col|
    ensures forall i :: 0 <= i < |col| && IsMarker(col[i]) ==> r[i] == NaN
    ensures forall i :: 0 <= i < |col| && !IsMarker(col[i]) ==> r[i] == col[i]
  {
    seq(|col|, i requires 0 <= i < |col| => if IsMarker(col[i]) then NaN else col[i])
  }

  /** The cleaning of one numeric column: coerce first unless the column is
      already numeric, then replace the markers, then coerce again. */
  function CleanColumn(parse: Parser, col: seq<Cell>): (r: seq<Cell>)
    ensures |r| == |col| && IsNumericColumn(r)
    ensures forall i :: 0 <= i < |col| && !col[i].Text? ==> r[i] == col[i]
  {
    var first := if IsNumericColumn(col) then col else ToNumeric(parse, col);
    ToNumeric(parse, ReplaceMarkers(first))
  }

  /** The marker replacement never fires: whichever branch is taken, the
      column it sees holds no text any more, so cleaning is exactly a
      cell-by-cell coercion. */
  lemma CleanIsCellwiseCoercion(parse: Parser, col: seq<Cell>)
    ensures CleanColumn(parse, col) == ToNumeric(parse, col)
  {
    var first := if IsNumericColumn(col) then col else ToNumeric(parse, col);
    assert IsNumericColumn(first);
    var replaced := ReplaceMarkers(first);
    assert replaced == first by {
      forall i | 0 <= i < |first| ensures replaced[i] == first[i] {
        assert !first[i].Text?;
      }
    }
    if IsNumericColumn(col) {
      assert ToNumeric(parse, col) == col;
    } else {
      assert ToNumeric(parse, first) == first;
    }
  }

  /** With pandas's grammar, both markers come out as NaN, numbers and NaN
      are kept, and other text is converted or becomes NaN. */
  lemma CleanColumnCells(parse: Parser, col: seq<Cell>, i: int)
    requires RejectsMarkers(parse)
    requires 0 <= i < |col|
    ensures IsMarker(col[i]) ==> CleanColumn(parse, col)[i] == NaN
    ensures col[i].Num? ==> CleanColumn(parse, col)[i] == col[i]
    ensures col[i] == NaN ==> CleanColumn(parse, col)[i] == NaN
    ensures col[i].Text? && parse(col[i].s).Some? ==> CleanColumn(parse, col)[i] == Num(parse(col[i].s).value)
    ensures col[i].Text? && parse(col[i].s).None? ==> CleanColumn(parse, col)[i] == NaN
  {
    CleanIsCellwiseCoercion(parse, col);
  }

  /** Cleaning a cleaned column changes nothing. */
  lemma CleanIdempotent(parse: Parser, col: seq<Cell>)
    ensures CleanColumn(parse, CleanColumn(parse, col)) == CleanColumn(parse, col)
  {
    var once := CleanColumn(parse, col);
    CleanIsCellwiseCoercion(parse, once);
    assert ToNumeric(parse, once) == once;
  }
}
