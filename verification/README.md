# Data visualiser: per-area dataset state machine and file ingestion

This project models two pieces of a small spreadsheet dashboard and proves properties about them in Dafny.

The first piece is the React component's per-area state. There are four fixed areas: compras, recursos, apoyo and gimnasio. Each area holds a record with three parts:

- a current view (`tableData`);
- an upload snapshot (`originalData`);
- the filter inputs saved by the last filter (`filters`).

The component changes these records through four kinds of event. An upload stores one response twice. A filter sends the current rows and a query string to the backend and keeps the answer. A reset goes back to the snapshot. An area switch reloads the area's saved filter inputs and resets the chart to a line chart. The model also covers what the component draws from this state: the table, with its "0" placeholder for empty cells, and the per-row chart series.

The second piece is the backend's `read_excel_file`. The file name's extension selects a reader. A frame with a null or blank column name is rejected. The missing cells are then replaced by `None`. That replacement obeys each column's pandas dtype: an object column holds `None` afterwards, a float column holds `NaN` again, and a datetime column holds `NaT`.

Modules:

- `Outcomes` (outcomes.dfy): `Option` and `Result`.
- `JsValues` (js_values.dfy): cells, row objects, `Object.keys` in JavaScript's property order, `row[key]` lookup, and response bodies.
- `UriComponent` (uri_component.dfy): `encodeURIComponent` as UTF-8 percent-encoding, with `decodeURIComponent` as its proved inverse.
- `FilterQuery` (filter_query.dfy): the twelve filter inputs, the parameter object, and the query string. Its partner is a query parser, and the model proves the query reads back as exactly the non-null parameters in declaration order.
- `AreaStore` (area_store.dfy): the four records as one total map from the `Area` enum, plus the record updates for upload, filter and reset.
- `Dashboard` (dashboard.dfy): the whole component state, the event handlers, the area effect, and event traces.
- `Views` (views.dfy): the table and chart renderers.
- `ExcelReader` (excel_reader.dfy): extension dispatch, column-name validation and null normalisation.

Three things outside the component are parameters:

- The network answers. The upload response is an input `Result<Payload, string>`.
- The backend filter endpoint. It is a function `(Area, rows, query) -> Result<Payload, string>`.
- JavaScript's `Number(x)` written back as text. It is a function `numberText`.

The pandas readers are parameters of `read_excel_file`.

The area effect (`useEffect` on the active area and all four records) re-runs after every handler that replaces a record. The model therefore composes each such handler with `SyncArea`, assuming React 18's batching of state updates. A click on the area that is already active changes no dependency, so the effect does not run.

The model follows the code in these places:

- The filter sends the current view's rows, not the snapshot. Successive filters therefore compound, and only a reset returns to the uploaded rows.
- A filter's answer is built from the record read when the button was pressed (`FilterReplyAsWritten`). The handlers in event traces use the corrected reply `FilterReply`, which gives the same state whenever nothing happens while the filter waits (`AtomicFilterAgrees`). The two differ only when another event intervenes (see Findings).
- A reset of an area without a record reports no error. It leaves the record alone and still clears the inputs.
- The chart guard checks only that both axis inputs are non-empty. It does not check that they name existing columns.
- Area ids form a closed enum, so the handlers' `default: break` branches cannot be reached.

## Model

| member | source | states |
|---|---|---|
| JsValues.Keys | fronted/src/UploadAndChart.jsx:133 | `Object.keys(row)` lists the same keys as the row holds; array-index keys come first in ascending numeric order, and the other keys follow in creation order |
| JsValues.YearColumnsComeFirst | fronted/src/UploadAndChart.jsx:422 | a row created with the keys `Mes, 2024, 2023` gives the header `2023, 2024, Mes` |
| JsValues.Lookup | fronted/src/UploadAndChart.jsx:485-488 | `row[key]` is the value stored under `key`, and `undefined` when the row has no such key |
| UriComponent.Encode | fronted/src/UploadAndChart.jsx:277 | the encoded value holds only unreserved characters and `%`, never `&` or `=`; unreserved text is unchanged |
| UriComponent.DecodeEncode | fronted/src/UploadAndChart.jsx:277 | decoding the encoding of any string gives the string back |
| FilterQuery.Params | fronted/src/UploadAndChart.jsx:259-272 | twelve parameters in declaration order; a value is null exactly when its input is empty; text inputs pass as they are; the four range bounds pass through `Number` |
| FilterQuery.PresentAppend | fronted/src/UploadAndChart.jsx:275-276 | keeping the non-null parameters distributes over concatenation, so order is kept and nothing is added |
| FilterQuery.SplitJoin | fronted/src/UploadAndChart.jsx:278 | splitting an `&`-join recovers the pieces when none of them contains `&` |
| FilterQuery.QueryRoundTrip | fronted/src/UploadAndChart.jsx:274-278 | parsing the query string gives exactly the non-null key/value pairs, in order |
| FilterQuery.FilterQueryRoundTrip | fronted/src/UploadAndChart.jsx:259-278 | a filter form's query reads back as its non-empty inputs; an all-empty form gives the empty query |
| FilterQuery.SetInput | fronted/src/UploadAndChart.jsx:644-733 | a control's change sets its own input and leaves the other eleven alone |
| AreaStore.Upload | fronted/src/UploadAndChart.jsx:188-219 | the target area's current view and snapshot are both the response, with no filters; the other areas are untouched |
| AreaStore.Filter | fronted/src/UploadAndChart.jsx:302-336 | the snapshot is kept, the current view becomes the result, and the inputs are saved, for that area only |
| AreaStore.Reset | fronted/src/UploadAndChart.jsx:346-395 | an area with a record goes back to its snapshot with empty filters; one without a record is unchanged; other areas are untouched |
| AreaStore.ResetIdempotent | fronted/src/UploadAndChart.jsx:346-395 | a second reset changes nothing |
| AreaStore.FilterThenResetRestores | fronted/src/UploadAndChart.jsx:289-358 | the next filter sees the previous filter's result; a reset after two filters still restores the snapshot |
| AreaStore.UpdatesKeepSnapshotRule | fronted/src/UploadAndChart.jsx:188-395 | a record without saved filters shows its snapshot, and upload, filter and reset all keep that true |
| Dashboard.SyncArea | fronted/src/UploadAndChart.jsx:82-139 | the effect restores the active area's saved inputs, or clears them all; it shows the area's view and first-row keys when there are rows, otherwise nothing |
| Dashboard.SyncAreaIdempotent | fronted/src/UploadAndChart.jsx:82-139 | running the effect twice is the same as running it once |
| Dashboard.AreaClick | fronted/src/UploadAndChart.jsx:142-145 | the clicked area becomes active with a line chart; a different area's saved inputs are restored; re-clicking the active area keeps the inputs |
| Dashboard.ChartClick | fronted/src/UploadAndChart.jsx:148-150 | only the chart kind changes |
| Dashboard.FileChange | fronted/src/UploadAndChart.jsx:153-156 | the chosen file replaces the old one and the error is cleared |
| Dashboard.EditInput | fronted/src/UploadAndChart.jsx:644-733 | typing changes one input and nothing else |
| Dashboard.Upload | fronted/src/UploadAndChart.jsx:159-230 | with no file, only the error is set; a failed request sets only the upload error; a response becomes the area's record, other areas are untouched, and the active area's inputs are cleared |
| Dashboard.FilterClick | fronted/src/UploadAndChart.jsx:233-289 | a request is sent exactly when the area's current view carries `data`; it holds the record read at the click, the current rows, the inputs of that moment and their query |
| Dashboard.FilterReply | fronted/src/UploadAndChart.jsx:301-343 | an answer updates the area's record as it stands when the answer arrives: its snapshot stays, the result becomes the view and the click's inputs are saved; a failure only sets a non-empty error |
| Dashboard.FilterReplyAsWritten | fronted/src/UploadAndChart.jsx:301-336 | as the handler is written, an answer makes the area's record the one read at the click, with the result as view and the click's inputs saved, whatever the area held by then |
| Dashboard.StaleReplyUndoesUpload | fronted/src/UploadAndChart.jsx:237-336 | as written, an upload completed while a filter waits is lost: after the answer and a reset the area shows the earlier upload |
| Dashboard.AtomicFilterAgrees | fronted/src/UploadAndChart.jsx:237-336 | when nothing happens between click and answer, the handler as written and the corrected reply give the same state |
| Dashboard.InterleavedUploadSurvives | fronted/src/UploadAndChart.jsx:187-336 | with the corrected reply, an upload made while a filter waits is what a later reset returns to |
| Dashboard.Filter | fronted/src/UploadAndChart.jsx:233-344 | when the current view carries no `data` member, only the error is set; a failure shows its message or the default one; success keeps the snapshot, replaces the view, saves the inputs for that area only and keeps the inputs on screen |
| Dashboard.Reset | fronted/src/UploadAndChart.jsx:346-416 | a reset of the active area clears every input and the error; an area with a record returns to its snapshot with empty filters; an area without one is unchanged |
| Dashboard.StepTouchesOnlyActive | fronted/src/UploadAndChart.jsx:589-627 | every event changes at most the active area's record |
| Dashboard.StepKeepsSnapshots | fronted/src/UploadAndChart.jsx:233-416 | any event except an upload keeps every area's snapshot and whether it has a record |
| Dashboard.RunKeepsSnapshots | fronted/src/UploadAndChart.jsx:233-416 | the same holds over any sequence of events without uploads |
| Dashboard.UploadThenResetRestores | fronted/src/UploadAndChart.jsx:187-194 | after an upload, any events but uploads, and a reset, the area's view is exactly the uploaded response |
| Dashboard.StepKeepsSnapshotRule | fronted/src/UploadAndChart.jsx:159-416 | every event keeps the rule that an unfiltered record shows its snapshot |
| Dashboard.RunKeepsSnapshotRule | fronted/src/UploadAndChart.jsx:159-416 | the same rule holds over any sequence of events |
| Dashboard.NextFilterSendsLastResult | fronted/src/UploadAndChart.jsx:287-304 | after a successful filter, the next filter sends the rows that filter returned, not the snapshot |
| Dashboard.SwitchBackRestores | fronted/src/UploadAndChart.jsx:101-129 | switching away and back restores the area's own saved inputs and a line chart |
| Views.Display | fronted/src/UploadAndChart.jsx:438 | null, undefined, "" and "nan" show as "0"; every other cell shows as it is; nothing shown is a blank |
| Views.DisplayIdempotent | fronted/src/UploadAndChart.jsx:438 | showing a shown cell again changes nothing |
| Views.RenderTable | fronted/src/UploadAndChart.jsx:418-447 | there is a table exactly when the view has rows; the header is the first row's keys, and each cell is its row's value for that column as displayed |
| Views.RenderChart | fronted/src/UploadAndChart.jsx:455-494 | the table kind draws the table; a chart exists exactly when the active area's current view carries `data` and both axis inputs are set; it has one x label and one y value per row, in row order, under the y column's name |
| ExcelReader.FormatOf | backend/app/services/excel_reader.py:5-10 | `.csv` selects the CSV reader; otherwise `.xls` or `.xlsx` selects the Excel reader; anything else selects none |
| ExcelReader.StripEmptyIffBlank | backend/app/services/excel_reader.py:12 | a name strips to "" exactly when it is all whitespace |
| ExcelReader.CleanColumns | backend/app/services/excel_reader.py:15 | every column keeps its name, dtype and length; each cell is kept when present and becomes its column's missing marker when missing |
| ExcelReader.ReadExcelFile | backend/app/services/excel_reader.py:4-17 | an unsupported extension is refused; a reader's error passes through; a null or blank column name is refused, and only such a name; an accepted frame keeps its columns and their shape, and its missing cells become `None`, `NaN` or `NaT` by column dtype |
| ExcelReader.CleanedMarkers | backend/app/services/excel_reader.py:15 | a cell is missing afterwards exactly when it was missing before; an object column has no `NaN` or `NaT` left, a float column's gaps are `NaN`, a datetime column's `NaT`; cleaning again changes nothing |
| ExcelReader.FloatGapStaysNaN | backend/app/services/excel_reader.py:15 | a float column with a gap still holds `NaN` there afterwards |
| ExcelReader.BlankColumnRefused | backend/app/services/excel_reader.py:12-13 | a whitespace-only column name rejects the file, whichever reader produced it |

## Left out

- HTTP transport: the `fetch` calls, status checks and JSON decoding (UploadAndChart.jsx:166-185, 280-299). Their outcomes are inputs: a response body or an error message.
- The backend `/filter-data` endpoint and any aggregation. Neither is among the modelled files, so the backend filter is an abstract function. Numeric, date and substring predicates are not modelled.
- The JSON shape mismatch is not modelled. The upload route returns `columns`/`rows` (backend/app/routes/excel.py:18-21), while the component reads `data.data`. The model treats a response as a record whose `data` member may be absent and does not reconcile the two.
- FilterQuery.Params: JavaScript's number parsing and printing (`Number(minY)` and its text in the URL) is the abstract parameter `numberText`, because it is floating-point formatting.
- JsValues.Cell: cells are null, undefined, text or integer numbers. Floating-point numbers, booleans and nested objects are not modelled.
- UriComponent.Encode: `encodeURIComponent` throws on lone UTF-16 surrogates. Dafny strings hold Unicode scalar values, so that error path is not modelled.
- Dashboard.Upload: the record spreads the response's own keys into itself (`...data`). Only the three members the component reads are modelled. `fileData` is written but never read, so it is left out.
- Dashboard.SyncArea: assumes React 18's automatic batching inside async handlers. Under earlier React versions the effect could interleave with a handler's later updates.
- Rendering: JSX markup, chart.js options, the chart title, the random pie colours (UploadAndChart.jsx:491), and DOM input clearing (411-413).
- Pandas parsing internals (`pd.read_csv`, `pd.read_excel`) are abstract reader functions. They choose each column's dtype.
- ExcelReader.CleanColumns: follows pandas 1.3 and later, where `where(..., None)` keeps a float column's `NaN` and a datetime column's `NaT`. Earlier pandas versions turned such a column into objects holding `None`; that behaviour is not modelled.
- ExcelReader.Dtype: integer and boolean columns hold no missing cells, so they are modelled as object columns, which cleaning leaves unchanged. Dtypes other than object, float and datetime are not distinguished.
- Dashboard.Step: each event runs a handler from click to response with nothing in between. In the component, `handleUpload` and `handleFilter` await the network, and other events can run meanwhile. The filter's two halves are modelled separately (`FilterClick`, `FilterReplyAsWritten`, `FilterReply`), but event traces do not interleave them. An upload's answer is written to the area named at the click and does not read any earlier record, so splitting it changes nothing.
- JsValues.Row: the order in which the JSON text lists a row's keys is taken as the row's creation order. Duplicate keys in a response are not modelled; `Lookup` returns the first match.
- The upload route's extension allowlist (backend/app/routes/excel.py:8-10) duplicates `FormatOf`. `fronted/src/App.jsx` and `backend/app/main.py` are not part of this model.

## Findings

| source | as written | input that shows it | evidently intended | confidence | as-written member | corrected member |
|---|---|---|---|---|---|---|
| fronted/src/UploadAndChart.jsx:237-336 | `handleFilter` reads the area's record when the button is pressed. After awaiting the backend it stores `{...areaData, tableData: data, filters}`, built from that old record | press filter on an uploaded area, complete a second upload to the same area while the filter waits, let the filter answer, then reset: the first upload comes back | the answer updates the record as it stands when it arrives, so the later upload's snapshot survives | medium, not executed | Dashboard.FilterReplyAsWritten, Dashboard.StaleReplyUndoesUpload | Dashboard.FilterReply, Dashboard.InterleavedUploadSurvives |
