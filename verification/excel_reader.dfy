/**
 * `read_excel_file`: the file name's extension picks the CSV or the Excel
 * reader, a frame with a null, empty or blank column name is refused, and
 * the missing cells are replaced by `None` through `where`. The two pandas
 * readers are parameters.
 *
 * The replacement obeys each column's dtype (pandas 1.3 and later): an
 * object column stores `None`, but a float column turns it back into `NaN`
 * and a datetime column into `NaT`.
 */
module ExcelReader {
  import opened Outcomes

  /** A column label: null (`NaN`), or the text `str(col)` gives for it. */
  datatype Label = NullLabel | Named(text: string)

  /** A cell of a frame: the three missing-value markers pandas uses, or a present value's text. */
  datatype PyCell = PyNone | NaN | NaT | Value(text: string)

  /**
   * How pandas stores a column, as far as missing values go. Integer and
   * boolean columns hold no missing cell, so cleaning leaves them alone and
   * they are modelled as `ObjectDtype`.
   */
  datatype Dtype = ObjectDtype | FloatDtype | DatetimeDtype

  /** One column of a frame: its label, its dtype and its cells from top to bottom. */
  datatype Column = Column(name: Label, dtype: Dtype, cells: seq<PyCell>)

  /** A parsed sheet, column by column. */
  datatype Frame = Frame(columns: seq<Column>)

  /** The two pandas readers; each returns a frame or the message of the error it raises. */
  datatype Readers = Readers(csv: seq<Byte> -> Result<Frame, string>, excel: seq<Byte> -> Result<Frame, string>)

  datatype ReadError =
    | Unsupported        // "Formato de archivo no soportado"
    | EmptyColumns       // "El archivo contiene columnas vacías, lo cual no está permitido."
    | ReaderFailed(message: string)

  /** `s.endswith(suffix)`. */
  predicate EndsWith(s: string, suffix: string) {
    |suffix| <= |s| && s[|s| - |suffix|..] == suffix
  }

  datatype Format = Csv | Excel

  /** The reader the extension selects: `.csv` first, then `.xls` or `.xlsx`. */
  function FormatOf(filename: string): (f: Option<Format>)
    ensures f == Some(Csv) <==> EndsWith(filename, ".csv")
    ensures f == Some(Excel) <==> !EndsWith(filename, ".csv") && (EndsWith(filename, ".xls") || EndsWith(filename, ".xlsx"))
    ensures f == None <==> !EndsWith(filename, ".csv") && !EndsWith(filename, ".xls") && !EndsWith(filename, ".xlsx")
  {
    if EndsWith(filename, ".csv") then Some(Csv)
    else if EndsWith(filename, ".xls") || EndsWith(filename, ".xlsx") then Some(Excel)
    else None
  }

  /** The frame the selected pandas reader produces, or its error. */
  function Parse(format: Format, bytes: seq<Byte>, readers: Readers): Result<Frame, string> {
    match format
    case Csv => readers.csv(bytes)
    case Excel => readers.excel(bytes)
  }

  /** Python's `str.isspace` for one character: the Unicode whitespace characters. */
  predicate IsSpace(c: char) {
    || ('\U{9}' <= c <= '\U{D}') || ('\U{1C}' <= c <= '\U{20}')
    || c == '\U{85}' || c == '\U{A0}' || c == '\U{1680}'
    || ('\U{2000}' <= c <= '\U{200A}') || c == '\U{2028}' || c == '\U{2029}'
    || c == '\U{202F}' || c == '\U{205F}' || c == '\U{3000}'
  }

  function TrimStart(s: string): (t: string)
    ensures |t| <= |s| && t == s[|s| - |t|..]
    ensures t != [] ==> !IsSpace(t[0])
    ensures forall i :: 0 <= i < |s| - |t| ==> IsSpace(s[i])
  {
    if s != [] && IsSpace(s[0]) then TrimStart(s[1..]) else s
  }

  function TrimEnd(s: string): (t: string)
    ensures |t| <= |s| && t == s[..|t|]
    ensures t != [] ==> !IsSpace(t[|t| - 1])
    ensures forall i :: |t| <= i < |s| ==> IsSpace(s[i])
  {
    if s != [] && IsSpace(s[|s| - 1]) then TrimEnd(s[..|s| - 1]) else s
  }

  /** `str.strip()`: leading and trailing whitespace removed. */
  function Strip(s: string): string {
    TrimEnd(TrimStart(s))
  }

  /** A string strips to nothing exactly when all of it is whitespace. */
  lemma StripEmptyIffBlank(s: string)
    ensures Strip(s) == "" <==> forall i :: 0 <= i < |s| ==> IsSpace(s[i])
  {
  }

  /** The column-name check: `isnull()` or `str(col).strip() == ""`. */
  predicate BadLabel(l: Label) {
    l.NullLabel? || Strip(l.text) == ""
  }

  /** Every column name is present and not blank. */
  predicate ColumnsValid(columns: seq<Column>) {
    forall k :: 0 <= k < |columns| ==> !BadLabel(columns[k].name)
  }

  /** `pd.isnull` of a cell. */
  predicate IsMissing(c: PyCell) {
    c == PyNone || c == NaN || c == NaT
  }

  /** What a column of dtype `d` holds after `None` is written into it. */
  function MissingMarker(d: Dtype): (m: PyCell)
    ensures IsMissing(m)
  {
    match d
    case ObjectDtype => PyNone
    case FloatDtype => NaN
    case DatetimeDtype => NaT
  }

  function CleanCells(d: Dtype, cells: seq<PyCell>): (r: seq<PyCell>)
    ensures |r| == |cells|
    ensures forall j :: 0 <= j < |cells| ==> r[j] == if IsMissing(cells[j]) then MissingMarker(d) else cells[j]
  {
    if cells == [] then []
    else [if IsMissing(cells[0]) then MissingMarker(d) else cells[0]] + CleanCells(d, cells[1..])
  }

  /** `where(pd.notnull(df), None)` on one column: its label and dtype stay, and so do its present cells. */
  function CleanColumn(c: Column): Column {
    c.(cells := CleanCells(c.dtype, c.cells))
  }

  function CleanColumns(columns: seq<Column>): (r: seq<Column>)
    ensures |r| == |columns|
    ensures forall k :: 0 <= k < |columns| ==> r[k] == CleanColumn(columns[k])
  {
    if columns == [] then [] else [CleanColumn(columns[0])] + CleanColumns(columns[1..])
  }

  /**
   * `read_excel_file(filename, file_bytes)`: an unsupported extension and a
   * frame with a bad column name are refused, a reader's error passes
   * through, and an accepted frame keeps its columns, their labels, dtypes
   * and lengths; a present cell is kept and a missing one becomes its
   * column's missing marker.
   */
  function ReadExcelFile(filename: string, bytes: seq<Byte>, readers: Readers): (r: Result<Frame, ReadError>)
    ensures FormatOf(filename).None? ==> r == Failure(Unsupported)
    ensures FormatOf(filename).Some? ==>
      var parsed := Parse(FormatOf(filename).value, bytes, readers);
      && (parsed.Failure? ==> r == Failure(ReaderFailed(parsed.error)))
      && (parsed.Success? ==>
            && (r == Failure(EmptyColumns) <==> !ColumnsValid(parsed.value.columns))
            && (r.Success? <==> ColumnsValid(parsed.value.columns))
            && (r.Success? ==>
                  var before := parsed.value.columns;
                  var after := r.value.columns;
                  && |after| == |before|
                  && forall k :: 0 <= k < |before| ==>
                       && after[k].name == before[k].name
                       && after[k].dtype == before[k].dtype
                       && |after[k].cells| == |before[k].cells|
                       && forall j :: 0 <= j < |before[k].cells| ==>
                            after[k].cells[j] == if IsMissing(before[k].cells[j]) then MissingMarker(before[k].dtype) else before[k].cells[j]))
  {
    match FormatOf(filename)
    case None => Failure(Unsupported)
    case Some(format) =>
      match Parse(format, bytes, readers)
      case Failure(m) => Failure(ReaderFailed(m))
      case Success(frame) =>
        if !ColumnsValid(frame.columns) then Failure(EmptyColumns)
        else Success(Frame(CleanColumns(frame.columns)))
  }

  /**
   * After cleaning, only an object column's missing cells are `None`: no
   * `NaN` or `NaT` is left there, while a float column's gaps are `NaN` and
   * a datetime column's `NaT`. Present cells are untouched, nothing present
   * is turned missing, and cleaning again changes nothing.
   */
  lemma CleanedMarkers(c: Column)
    ensures forall j :: 0 <= j < |c.cells| ==>
      (IsMissing(CleanColumn(c).cells[j]) <==> IsMissing(c.cells[j]))
    ensures c.dtype == ObjectDtype ==>
      forall j :: 0 <= j < |c.cells| ==> CleanColumn(c).cells[j] != NaN && CleanColumn(c).cells[j] != NaT
    ensures c.dtype == FloatDtype ==>
      forall j :: 0 <= j < |c.cells| && IsMissing(c.cells[j]) ==> CleanColumn(c).cells[j] == NaN
    ensures c.dtype == DatetimeDtype ==>
      forall j :: 0 <= j < |c.cells| && IsMissing(c.cells[j]) ==> CleanColumn(c).cells[j] == NaT
    ensures CleanColumn(CleanColumn(c)) == CleanColumn(c)
  {
    CleanCellsIdempotent(c.dtype, c.cells);
  }

  lemma CleanCellsIdempotent(d: Dtype, cells: seq<PyCell>)
    ensures CleanCells(d, CleanCells(d, cells)) == CleanCells(d, cells)
  {
  }

  /** A float column with a gap keeps `NaN` there: `None` does not survive the cleaning. */
  lemma FloatGapStaysNaN()
    ensures CleanColumn(Column(Named("monto"), FloatDtype, [Value("1.5"), NaN])).cells == [Value("1.5"), NaN]
  {
  }

  /** A column named only by whitespace is refused, whichever reader produced it. */
  lemma BlankColumnRefused(filename: string, bytes: seq<Byte>, readers: Readers, frame: Frame, k: int)
    requires FormatOf(filename).Some? && Parse(FormatOf(filename).value, bytes, readers) == Success(frame)
    requires 0 <= k < |frame.columns| && frame.columns[k].name.Named?
    requires forall i :: 0 <= i < |frame.columns[k].name.text| ==> IsSpace(frame.columns[k].name.text[i])
    ensures ReadExcelFile(filename, bytes, readers) == Failure(EmptyColumns)
  {
  }
}
