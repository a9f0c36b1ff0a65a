/**
 * The dashboard component's state and event handlers: the per-area records,
 * the active area and chart, the chosen file, the displayed table, the column
 * choices, the twelve filter inputs and the error line.
 *
 * Every handler that replaces an area record is followed by the area effect
 * (`SyncArea`), because the effect depends on all four records; switching to
 * a different area runs it too. Handlers take the network's answer as a value.
 */
module Dashboard {
  import opened Outcomes
  import opened JsValues
  import opened FilterQuery
  import opened AreaStore

  datatype ChartKind = Line | Bar | Pie | Table

  /** The file chosen in the file input; its contents only matter to the backend. */
  datatype UploadFile = UploadFile(name: string)

  datatype Ui = Ui(
    store: Store,
    active: Area,
    chart: ChartKind,
    file: Option<UploadFile>,
    view: Option<Payload>,
    columnNames: seq<string>,
    inputs: FilterInputs,
    error: Option<string>)

  const NoFileMessage := "Por favor, selecciona un archivo."
  const UploadFailedMessage := "Error al subir el archivo."
  const NoDataMessage := "Por favor, sube un archivo para esta área primero."
  const FilterFailedMessage := "Error al filtrar los datos."

  /** The state at mount: nothing uploaded, the first area active, a line chart. */
  const Initial := Ui(EmptyStore, Compras, Line, None, None, [], Blank, None)

  /**
   * The backend's filter endpoint: given the area, the rows sent and the
   * query string, the response body or the message of the error thrown.
   */
  type FilterBackend = (Area, seq<Row>, string) -> Result<Payload, string>

  /**
   * The inputs an area's record puts back: the saved ones after a filter;
   * every input cleared when the record is missing, has no filters yet, or
   * holds the empty filters a reset stores.
   */
  function RestoredInputs(r: Option<AreaRecord>): FilterInputs {
    if r.Some? && r.value.filters.Some? && r.value.filters.value.Saved?
    then r.value.filters.value.inputs
    else Blank
  }

  /** The area effect: the active area's inputs, columns and table are loaded. */
  function SyncArea(s: Ui): (s': Ui)
    ensures s'.store == s.store && s'.active == s.active && s'.chart == s.chart
    ensures s'.file == s.file && s'.error == s.error
    ensures s'.inputs == RestoredInputs(s.store.Get(s.active))
    ensures s'.view.Some? ==> s.store.Get(s.active).Some? && s'.view.value == s.store.Get(s.active).value.tableData
    ensures s'.view.Some? <==> s.store.Get(s.active).Some? && HasRows(s.store.Get(s.active).value.tableData)
    ensures s'.view.Some? ==> s'.columnNames == Keys(s'.view.value.data.value[0])
    ensures s'.view.None? ==> s'.columnNames == []
  {
    var r := s.store.Get(s.active);
    var (view, cols) :=
      if r.Some? && HasRows(r.value.tableData)
      then (Some(r.value.tableData), Keys(r.value.tableData.data.value[0]))
      else (None, []);
    s.(inputs := RestoredInputs(r), view := view, columnNames := cols)
  }

  /** The effect depends on the store and the active area only: running it again changes nothing. */
  lemma SyncAreaIdempotent(s: Ui)
    ensures SyncArea(SyncArea(s)) == SyncArea(s)
  {
  }

  /** `handleAreaClick`: activate `a` and show its line chart; the effect runs only if the area changed. */
  function AreaClick(s: Ui, a: Area): (s': Ui)
    ensures s'.active == a && s'.chart == Line
    ensures s'.store == s.store && s'.error == s.error && s'.file == s.file
    ensures a != s.active ==> s'.inputs == RestoredInputs(s.store.Get(a))
    ensures a == s.active ==> s'.inputs == s.inputs && s'.view == s.view && s'.columnNames == s.columnNames
  {
    var s1 := s.(active := a, chart := Line);
    if a == s.active then s1 else SyncArea(s1)
  }

  /** `handleChartClick`. */
  function ChartClick(s: Ui, k: ChartKind): (s': Ui)
    ensures s'.chart == k
    ensures s'.store == s.store && s'.active == s.active && s'.inputs == s.inputs && s'.view == s.view
    ensures s'.file == s.file && s'.error == s.error && s'.columnNames == s.columnNames
  {
    s.(chart := k)
  }

  /** `handleFileChange`: the chosen file (none when the dialog is cancelled) replaces the old one; the error clears. */
  function FileChange(s: Ui, f: Option<UploadFile>): (s': Ui)
    ensures s'.file == f && s'.error == None
    ensures s'.store == s.store && s'.active == s.active && s'.inputs == s.inputs && s'.view == s.view
    ensures s'.chart == s.chart && s'.columnNames == s.columnNames
  {
    s.(file := f, error := None)
  }

  /** A filter control's `onChange`. */
  function EditInput(s: Ui, field: InputField, text: string): (s': Ui)
    ensures Input(s'.inputs, field) == text
    ensures forall g: InputField :: g != field ==> Input(s'.inputs, g) == Input(s.inputs, g)
    ensures s'.store == s.store && s'.active == s.active && s'.view == s.view && s'.error == s.error
    ensures s'.chart == s.chart && s'.file == s.file && s'.columnNames == s.columnNames
  {
    s.(inputs := SetInput(s.inputs, field, text))
  }

  /**
   * `handleUpload(a)` given the endpoint's answer: without a file only the
   * error changes; a failed request only sets the upload error; a response
   * becomes area `a`'s record, shown at once, and the effect then runs.
   */
  function Upload(s: Ui, a: Area, response: Result<Payload, string>): (s': Ui)
    ensures s.file.None? ==> s' == s.(error := Some(NoFileMessage))
    ensures s.file.Some? && response.Failure? ==> s' == s.(error := Some(UploadFailedMessage))
    ensures s.file.Some? && response.Success? ==>
      && s'.store.Get(a) == Some(AreaRecord(response.value, response.value, None))
      && OthersUnchanged(s.store, s'.store, a)
      && s'.error == None
      && s'.active == s.active && s'.chart == s.chart
      && (a == s.active ==> s'.inputs == Blank)
  {
    if s.file.None? then s.(error := Some(NoFileMessage))
    else match response
      case Failure(_) => s.(error := Some(UploadFailedMessage))
      case Success(data) =>
        var cols := if HasRows(data) then Keys(data.data.value[0]) else s.columnNames;
        SyncArea(s.(store := AreaStore.Upload(s.store, a, data), view := Some(data),
                    columnNames := cols, error := None))
  }

  /** The query string `handleFilter` sends for the current inputs. */
  function FilterQueryOf(s: Ui, numberText: string -> string): string {
    Query(Params(s.inputs, numberText))
  }

  /**
   * A filter awaiting the backend: the area, the record `handleFilter` read
   * when the button was pressed, the inputs of that moment, and the rows and
   * query string it sent.
   */
  datatype FilterRequest = FilterRequest(area: Area, record: AreaRecord, inputs: FilterInputs,
                                         rows: seq<Row>, query: string)

  /**
   * Pressing the filter button for area `a`: no request without a current
   * view carrying `data`; otherwise the current rows (not the upload
   * snapshot) and the query of the current inputs are sent.
   */
  function FilterClick(s: Ui, a: Area, numberText: string -> string): (q: Option<FilterRequest>)
    ensures q.Some? <==> CanFilter(s.store, a)
    ensures q.Some? ==>
      && q.value.area == a
      && s.store.Get(a) == Some(q.value.record)
      && CurrentRows(s.store, a) == Some(q.value.rows)
      && q.value.inputs == s.inputs
      && q.value.query == Query(Params(s.inputs, numberText))
  {
    if CanFilter(s.store, a)
    then Some(FilterRequest(a, s.store.Get(a).value, s.inputs, CurrentRows(s.store, a).value, FilterQueryOf(s, numberText)))
    else None
  }

  /** A failed filter shows the error's message, or the default one when it has none. */
  function FilterFailed(s: Ui, msg: string): (s': Ui)
    ensures s' == s.(error := s'.error)
    ensures s'.error.Some? && s'.error.value != ""
    ensures msg != "" ==> s'.error == Some(msg)
  {
    s.(error := Some(if msg == "" then FilterFailedMessage else msg))
  }

  /**
   * The answer to a filter request as the handler is written: the record
   * read at the click, with the result as its view and the click's inputs
   * saved, replaces whatever the area holds by then; the effect then runs.
   */
  function FilterReplyAsWritten(s: Ui, q: FilterRequest, answer: Result<Payload, string>): (s': Ui)
    ensures answer.Failure? ==> s' == FilterFailed(s, answer.error)
    ensures answer.Success? ==>
      && s'.store.Get(q.area) == Some(q.record.(tableData := answer.value, filters := Some(Saved(q.inputs))))
      && OthersUnchanged(s.store, s'.store, q.area)
      && s'.error == None
  {
    match answer
    case Failure(msg) => FilterFailed(s, msg)
    case Success(data) =>
      var st := AreaStore.Filter(s.store.Set(q.area, Some(q.record)), q.area, q.inputs, data);
      SyncArea(s.(store := st, view := Some(data), error := None))
  }

  /**
   * The answer to a filter request applied to the area's record as it is
   * when the answer arrives: its snapshot stays, the result becomes its
   * view and the click's inputs are saved; the effect then runs.
   */
  function FilterReply(s: Ui, q: FilterRequest, answer: Result<Payload, string>): (s': Ui)
    ensures answer.Failure? ==> s' == FilterFailed(s, answer.error)
    ensures answer.Success? ==>
      && s'.store.Get(q.area).Some?
      && s'.store.Get(q.area).value.originalData
           == (if s.store.Get(q.area).Some? then s.store.Get(q.area).value else q.record).originalData
      && s'.store.Get(q.area).value.tableData == answer.value
      && s'.store.Get(q.area).value.filters == Some(Saved(q.inputs))
      && OthersUnchanged(s.store, s'.store, q.area)
      && s'.error == None
  {
    match answer
    case Failure(msg) => FilterFailed(s, msg)
    case Success(data) =>
      var base := if s.store.Get(q.area).Some? then s.store else s.store.Set(q.area, Some(q.record));
      var st := AreaStore.Filter(base, q.area, q.inputs, data);
      SyncArea(s.(store := st, view := Some(data), error := None))
  }

  /**
   * `handleFilter(a)` given the endpoint, with nothing happening while it
   * waits: without a current view carrying rows only the error changes;
   * otherwise the current rows and the query go to the backend; a failure
   * shows its message, a response replaces the current view and saves the
   * inputs.
   */
  function Filter(s: Ui, a: Area, numberText: string -> string, backend: FilterBackend): (s': Ui)
    ensures !CanFilter(s.store, a) ==> s' == s.(error := Some(NoDataMessage))
    ensures CanFilter(s.store, a) ==>
      var answer := backend(a, CurrentRows(s.store, a).value, FilterQueryOf(s, numberText));
      && (answer.Failure? ==>
            s' == s.(error := Some(if answer.error == "" then FilterFailedMessage else answer.error)))
      && (answer.Success? ==>
            && s'.store.Get(a).Some?
            && s'.store.Get(a).value.originalData == s.store.Get(a).value.originalData
            && s'.store.Get(a).value.tableData == answer.value
            && s'.store.Get(a).value.filters == Some(Saved(s.inputs))
            && OthersUnchanged(s.store, s'.store, a)
            && s'.error == None
            && (a == s.active ==> s'.inputs == s.inputs))
  {
    match FilterClick(s, a, numberText)
    case None => s.(error := Some(NoDataMessage))
    case Some(q) => FilterReply(s, q, backend(q.area, q.rows, q.query))
  }

  /** When nothing happens between the click and the answer, the handler as written and the corrected one agree. */
  lemma AtomicFilterAgrees(s: Ui, a: Area, numberText: string -> string, answer: Result<Payload, string>)
    requires CanFilter(s.store, a)
    ensures FilterReplyAsWritten(s, FilterClick(s, a, numberText).value, answer)
            == FilterReply(s, FilterClick(s, a, numberText).value, answer)
  {
    var q := FilterClick(s, a, numberText).value;
    assert s.store.Set(a, Some(q.record)) == s.store;
  }

  /**
   * The lost upload, as written: a filter is pressed on an uploaded area, a
   * second upload completes while the filter waits, then the filter's answer
   * arrives. The answer puts back the first upload's snapshot, so a reset
   * shows the first upload rather than the second.
   */
  lemma StaleReplyUndoesUpload(numberText: string -> string)
    ensures var first := Payload(Some([]));
            var second := Payload(Some([[Field("mes", Text("enero"))]]));
            var s0 := Upload(Initial.(file := Some(UploadFile("ventas.csv"))), Compras, Success(first));
            var q := FilterClick(s0, Compras, numberText);
            var s1 := Upload(s0, Compras, Success(second));
            && q.Some?
            && Reset(FilterReplyAsWritten(s1, q.value, Success(Payload(None))), Compras).store.Get(Compras).value.tableData == first
            && first != second
  {
  }

  /**
   * The corrected reply keeps the latest upload: whatever request is in
   * flight and whatever it answers, an upload made while it waits is what a
   * later reset returns to.
   */
  lemma InterleavedUploadSurvives(s: Ui, q: FilterRequest, data: Payload, answer: Result<Payload, string>)
    requires s.file.Some?
    ensures var u := Upload(s, q.area, Success(data));
            Reset(FilterReply(u, q, answer), q.area).store.Get(q.area) == Some(AreaRecord(data, data, Some(Cleared)))
  {
  }

  /**
   * `handleResetFilters(a)`: an area with a record goes back to its snapshot
   * with empty filters (and the effect runs); one without keeps its state.
   * Either way every input is cleared and the error goes away.
   */
  function Reset(s: Ui, a: Area): (s': Ui)
    ensures s'.error == None
    ensures s.store.Get(a).None? ==> s' == s.(inputs := Blank, error := None)
    ensures s.store.Get(a).Some? ==>
      && s'.store.Get(a) == Some(AreaRecord(s.store.Get(a).value.originalData,
                                            s.store.Get(a).value.originalData, Some(Cleared)))
      && OthersUnchanged(s.store, s'.store, a)
      && s'.inputs == RestoredInputs(s'.store.Get(s.active))
    ensures a == s.active ==> s'.inputs == Blank
  {
    match s.store.Get(a)
    case None => s.(inputs := Blank, error := None)
    case Some(r) =>
      SyncArea(s.(store := AreaStore.Reset(s.store, a), view := Some(r.originalData),
                  inputs := Blank, error := None))
  }

  // ---------------------------------------------------------------------------
  // Event traces

  /** What the user can do; the upload, filter and reset buttons act on the active area. */
  datatype Event =
    | ClickArea(area: Area)
    | ClickChart(kind: ChartKind)
    | ChooseFile(chosen: Option<UploadFile>)
    | Type(field: InputField, text: string)
    | PressUpload(response: Result<Payload, string>)
    | PressFilter
    | PressReset

  function Step(s: Ui, e: Event, numberText: string -> string, backend: FilterBackend): Ui {
    match e
    case ClickArea(a) => AreaClick(s, a)
    case ClickChart(k) => ChartClick(s, k)
    case ChooseFile(f) => FileChange(s, f)
    case Type(field, text) => EditInput(s, field, text)
    case PressUpload(response) => Upload(s, s.active, response)
    case PressFilter => Filter(s, s.active, numberText, backend)
    case PressReset => Reset(s, s.active)
  }

  function Run(s: Ui, es: seq<Event>, numberText: string -> string, backend: FilterBackend): Ui
    decreases |es|
  {
    if es == [] then s else Run(Step(s, es[0], numberText, backend), es[1..], numberText, backend)
  }

  /** Every event changes at most the active area's record. */
  lemma StepTouchesOnlyActive(s: Ui, e: Event, numberText: string -> string, backend: FilterBackend)
    ensures OthersUnchanged(s.store, Step(s, e, numberText, backend).store, s.active)
  {
  }

  /** Each area keeps whether it has a record and which snapshot it holds. */
  predicate SameSnapshots(st: Store, st': Store) {
    forall a: Area :: && (st.Get(a).Some? <==> st'.Get(a).Some?)
                      && (st.Get(a).Some? ==> st'.Get(a).value.originalData == st.Get(a).value.originalData)
  }

  /** Only an upload replaces a snapshot. */
  lemma StepKeepsSnapshots(s: Ui, e: Event, numberText: string -> string, backend: FilterBackend)
    requires !e.PressUpload?
    ensures SameSnapshots(s.store, Step(s, e, numberText, backend).store)
  {
  }

  lemma {:induction false} RunKeepsSnapshots(s: Ui, es: seq<Event>, numberText: string -> string, backend: FilterBackend)
    requires forall i :: 0 <= i < |es| ==> !es[i].PressUpload?
    ensures SameSnapshots(s.store, Run(s, es, numberText, backend).store)
    decreases |es|
  {
    if es != [] {
      var s1 := Step(s, es[0], numberText, backend);
      StepKeepsSnapshots(s, es[0], numberText, backend);
      RunKeepsSnapshots(s1, es[1..], numberText, backend);
    }
  }

  /**
   * Reset restores exactly what was uploaded: after a successful upload into
   * the active area, any events but further uploads (filters compounding on
   * each other, area switches, edits), and a reset of that area, its current
   * view is the uploaded response again and its filters are empty.
   */
  lemma UploadThenResetRestores(s: Ui, data: Payload, es: seq<Event>,
                                numberText: string -> string, backend: FilterBackend)
    requires s.file.Some?
    requires forall i :: 0 <= i < |es| ==> !es[i].PressUpload?
    ensures var a := s.active;
            var t := Run(Upload(s, a, Success(data)), es, numberText, backend);
            Reset(t, a).store.Get(a) == Some(AreaRecord(data, data, Some(Cleared)))
  {
    var a := s.active;
    var u := Upload(s, a, Success(data));
    RunKeepsSnapshots(u, es, numberText, backend);
  }

  /** The store's snapshot rule holds after every event. */
  lemma StepKeepsSnapshotRule(s: Ui, e: Event, numberText: string -> string, backend: FilterBackend)
    requires ShowsSnapshotUnlessFiltered(s.store)
    ensures ShowsSnapshotUnlessFiltered(Step(s, e, numberText, backend).store)
  {
  }

  lemma {:induction false} RunKeepsSnapshotRule(s: Ui, es: seq<Event>, numberText: string -> string, backend: FilterBackend)
    requires ShowsSnapshotUnlessFiltered(s.store)
    ensures ShowsSnapshotUnlessFiltered(Run(s, es, numberText, backend).store)
    decreases |es|
  {
    if es != [] {
      StepKeepsSnapshotRule(s, es[0], numberText, backend);
      RunKeepsSnapshotRule(Step(s, es[0], numberText, backend), es[1..], numberText, backend);
    }
  }

  /**
   * Filters compound: after a successful filter the rows the next filter
   * sends are the ones the backend just returned, not the upload snapshot.
   */
  lemma NextFilterSendsLastResult(s: Ui, numberText: string -> string, backend: FilterBackend)
    requires CanFilter(s.store, s.active)
    requires backend(s.active, CurrentRows(s.store, s.active).value, FilterQueryOf(s, numberText)).Success?
    ensures var answer := backend(s.active, CurrentRows(s.store, s.active).value, FilterQueryOf(s, numberText));
            CurrentRows(Step(s, PressFilter, numberText, backend).store, s.active) == answer.value.data
  {
  }

  /**
   * Switching away and back restores an area's own saved filters, whatever
   * the other area holds.
   */
  lemma SwitchBackRestores(s: Ui, b: Area)
    requires b != s.active
    ensures AreaClick(AreaClick(s, b), s.active).inputs == RestoredInputs(s.store.Get(s.active))
    ensures AreaClick(AreaClick(s, b), s.active).chart == Line
  {
  }
}
