/**
 * The four per-area records of the dashboard (`almacenData`, `recursosData`,
 * `apoyoData`, `gimnasioData`) as one map from a closed set of areas, and the
 * three updates the handlers make to a record: upload, filter and reset.
 */
module AreaStore {
  import opened Outcomes
  import opened JsValues
  import opened FilterQuery

  /** The fixed areas, in the order the sidebar lists them. */
  datatype Area = Compras | Recursos | Apoyo | Gimnasio

  /**
   * The `filters` member of a record: `Cleared` is the empty object a reset
   * stores, `Saved` the twelve inputs a successful filter stores.
   */
  datatype SavedFilters = Cleared | Saved(inputs: FilterInputs)

  /**
   * One area's record: the current view, the upload snapshot, and the
   * filters, absent until the first filter or reset.
   */
  datatype AreaRecord = AreaRecord(tableData: Payload, originalData: Payload, filters: Option<SavedFilters>)

  /**
   * A total map from the four areas to their records; `None` is an area
   * nothing was uploaded to (`useState(null)`).
   */
  datatype Store = Store(compras: Option<AreaRecord>, recursos: Option<AreaRecord>,
                         apoyo: Option<AreaRecord>, gimnasio: Option<AreaRecord>)
  {
    /** The record of area `a`. */
    function Get(a: Area): Option<AreaRecord> {
      match a
      case Compras => compras
      case Recursos => recursos
      case Apoyo => apoyo
      case Gimnasio => gimnasio
    }

    /** The store with the record of `a` replaced and every other record kept. */
    function Set(a: Area, r: Option<AreaRecord>): (st': Store)
      ensures st'.Get(a) == r
      ensures forall b: Area :: b != a ==> st'.Get(b) == Get(b)
    {
      match a
      case Compras => this.(compras := r)
      case Recursos => this.(recursos := r)
      case Apoyo => this.(apoyo := r)
      case Gimnasio => this.(gimnasio := r)
    }
  }

  const EmptyStore := Store(None, None, None, None)

  /** `st` and `st'` agree on every area but `a`. */
  predicate OthersUnchanged(st: Store, st': Store, a: Area) {
    forall b: Area :: b != a ==> st'.Get(b) == st.Get(b)
  }

  /** A successful upload: the response becomes both the current view and the snapshot. */
  function Upload(st: Store, a: Area, data: Payload): (st': Store)
    ensures st'.Get(a).Some?
    ensures st'.Get(a).value.tableData == data && st'.Get(a).value.originalData == data
    ensures st'.Get(a).value.filters == None
    ensures OthersUnchanged(st, st', a)
  {
    st.Set(a, Some(AreaRecord(data, data, None)))
  }

  /** The rows `handleFilter` would send, when the area has a current view with rows. */
  function CurrentRows(st: Store, a: Area): Option<seq<Row>> {
    match st.Get(a)
    case None => None
    case Some(r) => r.tableData.data
  }

  /** `handleFilter`'s guard: a record whose current view carries `data`. */
  predicate CanFilter(st: Store, a: Area) {
    CurrentRows(st, a).Some?
  }

  /** A successful filter: the response replaces the current view; the inputs are saved. */
  function Filter(st: Store, a: Area, inputs: FilterInputs, result: Payload): (st': Store)
    requires st.Get(a).Some?
    ensures st'.Get(a).Some?
    ensures st'.Get(a).value.originalData == st.Get(a).value.originalData
    ensures st'.Get(a).value.tableData == result
    ensures st'.Get(a).value.filters == Some(Saved(inputs))
    ensures OthersUnchanged(st, st', a)
  {
    st.Set(a, Some(st.Get(a).value.(tableData := result, filters := Some(Saved(inputs)))))
  }

  /** `handleResetFilters`' update: back to the snapshot, filters emptied; nothing to do without a record. */
  function Reset(st: Store, a: Area): (st': Store)
    ensures st.Get(a).None? ==> st' == st
    ensures st.Get(a).Some? ==> st'.Get(a) == Some(AreaRecord(st.Get(a).value.originalData, st.Get(a).value.originalData, Some(Cleared)))
    ensures OthersUnchanged(st, st', a)
  {
    match st.Get(a)
    case None => st
    case Some(r) => st.Set(a, Some(r.(tableData := r.originalData, filters := Some(Cleared))))
  }

  /** Resetting twice is resetting once. */
  lemma ResetIdempotent(st: Store, a: Area)
    ensures Reset(Reset(st, a), a) == Reset(st, a)
  {
  }

  /**
   * Filters compound: a second filter is computed from the first one's
   * result, so the snapshot is the only way back to the uploaded rows.
   */
  lemma FilterThenResetRestores(st: Store, a: Area, f1: FilterInputs, p1: Payload, f2: FilterInputs, p2: Payload)
    requires CanFilter(st, a)
    requires p1.data.Some?
    ensures CanFilter(Filter(st, a, f1, p1), a)
    ensures CurrentRows(Filter(st, a, f1, p1), a) == p1.data
    ensures Reset(Filter(Filter(st, a, f1, p1), a, f2, p2), a).Get(a).value.tableData == st.Get(a).value.originalData
  {
  }

  /**
   * A record whose filters are not a saved filter shows its snapshot: true
   * right after an upload and after a reset, and kept by every update.
   */
  predicate ShowsSnapshotUnlessFiltered(st: Store) {
    forall a: Area :: st.Get(a).Some? && (st.Get(a).value.filters.None? || st.Get(a).value.filters == Some(Cleared))
      ==> st.Get(a).value.tableData == st.Get(a).value.originalData
  }

  lemma UpdatesKeepSnapshotRule(st: Store, a: Area, f: FilterInputs, data: Payload)
    requires ShowsSnapshotUnlessFiltered(st)
    ensures ShowsSnapshotUnlessFiltered(Upload(st, a, data))
    ensures ShowsSnapshotUnlessFiltered(Reset(st, a))
    ensures st.Get(a).Some? ==> ShowsSnapshotUnlessFiltered(Filter(st, a, f, data))
  {
  }
}
