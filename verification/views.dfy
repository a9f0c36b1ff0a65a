/**
 * What the dashboard draws from its state: the table, with its placeholder
 * for empty cells, and the data handed to the line, bar and pie charts.
 */
module Views {
  import opened Outcomes
  import opened JsValues
  import opened AreaStore
  import opened Dashboard

  /** Cells the table shows as "0": null, undefined, the empty string and the text "nan". */
  predicate IsBlankCell(c: Cell) {
    c == Null || c == Undefined || c == Text("") || c == Text("nan")
  }

  /** What a table cell shows. */
  function Display(c: Cell): (d: Cell)
    ensures !IsBlankCell(d)
    ensures IsBlankCell(c) ==> d == Text("0")
    ensures !IsBlankCell(c) ==> d == c
  {
    if IsBlankCell(c) then Text("0") else c
  }

  /** A drawn table: the header row and the displayed cells, row by row. */
  datatype Grid = Grid(columns: seq<string>, cells: seq<seq<Cell>>)

  function DisplayRow(row: Row, columns: seq<string>): (cells: seq<Cell>)
    ensures |cells| == |columns|
    ensures forall j :: 0 <= j < |columns| ==> cells[j] == Display(Lookup(row, columns[j]))
  {
    if columns == [] then [] else [Display(Lookup(row, columns[0]))] + DisplayRow(row, columns[1..])
  }

  function DisplayRows(rows: seq<Row>, columns: seq<string>): (cells: seq<seq<Cell>>)
    ensures |cells| == |rows|
    ensures forall i :: 0 <= i < |rows| ==> cells[i] == DisplayRow(rows[i], columns)
  {
    if rows == [] then [] else [DisplayRow(rows[0], columns)] + DisplayRows(rows[1..], columns)
  }

  /**
   * `renderTable` over the displayed response: nothing when it is missing or
   * has no rows; otherwise the first row's keys as the header and, for every
   * row in order, each column's value with blanks shown as "0".
   */
  function RenderTable(view: Option<Payload>): (t: Option<Grid>)
    ensures t.Some? <==> view.Some? && HasRows(view.value)
    ensures t.Some? ==>
      var rows := view.value.data.value;
      && t.value.columns == Keys(rows[0])
      && |t.value.cells| == |rows|
      && forall i, j :: 0 <= i < |rows| && 0 <= j < |t.value.columns| ==>
           |t.value.cells[i]| == |t.value.columns| &&
           t.value.cells[i][j] == Display(Lookup(rows[i], t.value.columns[j]))
  {
    if view.None? || !HasRows(view.value) then None
    else
      var rows := view.value.data.value;
      var columns := Keys(rows[0]);
      Some(Grid(columns, DisplayRows(rows, columns)))
  }

  /** The `chartData` of a line, bar or pie chart: one label and one value per row. */
  datatype Series = Series(labels: seq<Cell>, name: string, values: seq<Cell>)

  /** What the report area shows. */
  datatype Drawing = Nothing | TableOf(table: Option<Grid>) | ChartOf(kind: ChartKind, series: Series)

  function Column(rows: seq<Row>, key: string): (vs: seq<Cell>)
    ensures |vs| == |rows|
    ensures forall i :: 0 <= i < |rows| ==> vs[i] == Lookup(rows[i], key)
  {
    if rows == [] then [] else [Lookup(rows[0], key)] + Column(rows[1..], key)
  }

  /**
   * `renderChart`: the table kind draws the displayed table. A chart is drawn
   * only when the active area's current view has rows data and both axis
   * inputs are chosen; its labels are the rows' x values and its values the
   * rows' y values, in row order, under the y column's name.
   */
  function RenderChart(s: Ui): (d: Drawing)
    ensures s.chart == Table ==> d == TableOf(RenderTable(s.view))
    ensures s.chart != Table ==>
      (d.ChartOf? <==> CanFilter(s.store, s.active) && s.inputs.xColumn != "" && s.inputs.yColumn != "")
    ensures s.chart != Table && !d.ChartOf? ==> d == Nothing
    ensures d.ChartOf? ==>
      var rows := CurrentRows(s.store, s.active).value;
      && d.kind == s.chart
      && d.series.name == s.inputs.yColumn
      && |d.series.labels| == |rows| && |d.series.values| == |rows|
      && (forall i :: 0 <= i < |rows| ==> d.series.labels[i] == Lookup(rows[i], s.inputs.xColumn))
      && (forall i :: 0 <= i < |rows| ==> d.series.values[i] == Lookup(rows[i], s.inputs.yColumn))
  {
    if s.chart == Table then TableOf(RenderTable(s.view))
    else if !CanFilter(s.store, s.active) || s.inputs.xColumn == "" || s.inputs.yColumn == "" then Nothing
    else
      var rows := CurrentRows(s.store, s.active).value;
      ChartOf(s.chart, Series(Column(rows, s.inputs.xColumn), s.inputs.yColumn, Column(rows, s.inputs.yColumn)))
  }

  /** Showing a shown cell again changes nothing. */
  lemma DisplayIdempotent(c: Cell)
    ensures Display(Display(c)) == Display(c)
  {
  }
}
