/**
 * `HistoryTable`: one row per history entry and the "Details" request whose
 * id is held in `isLoadingDetails` while it is in flight. The click handler
 * is split at its `await`: `HandleDetailsClick` runs up to the request and
 * `DetailsSettled` runs once the reply is in.
 */
module HistoryView {
  import opened Wrappers
  import opened Js
  import opened Session
  import opened Api

  const DetailsLabel := "Details"
  const LoadingLabel := "Loading..."
  const DetailsFailedAlert := "Failed to fetch details."

  /** One table row, keyed by the entry's id. */
  datatype Row = Row(
    key: Value,
    fileName: Value,
    name: Value,
    email: Value,
    uploadedAt: Value,
    disabled: bool,
    caption: string)

  class HistoryTable {
    /** The id whose details are being fetched, `null` when none is. */
    var isLoadingDetails: Value

    constructor ()
      ensures isLoadingDetails == Null
    {
      isLoadingDetails := Null;
    }

    /** Up to the `await`: mark the row and send `GET /resumes/{id}` through the interceptor. */
    method HandleDetailsClick(resumeId: Value, storage: Storage) returns (req: Request)
      modifies this
      ensures isLoadingDetails == resumeId
      ensures req == Dispatch(storage, Get, ResumeEndpoint(ToJsString(resumeId)), NoBody)
    {
      isLoadingDetails := resumeId;
      req := Dispatch(storage, Get, ResumeEndpoint(ToJsString(resumeId)), NoBody);
    }

    /**
     * After the `await`: the data handed to `onViewDetails` on success, the
     * alert on failure, and `isLoadingDetails` reset either way.
     */
    method DetailsSettled(reply: Reply) returns (viewed: Option<Value>, alerts: seq<string>)
      modifies this
      ensures isLoadingDetails == Null
      ensures reply.Succeeded? ==> viewed == Some(reply.data) && alerts == []
      ensures reply.Failed? ==> viewed.None? && alerts == [DetailsFailedAlert]
    {
      match reply {
        case Succeeded(data) =>
          viewed := Some(data);
          alerts := [];
        case Failed(_) =>
          viewed := None;
          alerts := [DetailsFailedAlert];
      }
      isLoadingDetails := Null;
    }
  }

  function RowOf(item: Value, loading: Value): (r: Row)
    ensures r.key == Prop(item, "id")
    ensures r.disabled <==> StrictEquals(loading, r.key)
    ensures r.caption == (if r.disabled then LoadingLabel else DetailsLabel)
  {
    var id := Prop(item, "id");
    var busy := StrictEquals(loading, id);
    Row(id, Prop(item, "file_name"), Prop(item, "name"), Prop(item, "email"), Prop(item, "uploaded_at"),
        busy, if busy then LoadingLabel else DetailsLabel)
  }

  /** `items.map(item => <tr key={item.id}>…)`: a nullish entry throws. */
  function RowsOf(items: seq<Value>, loading: Value): (rows: Option<seq<Row>>)
    ensures rows.Some? <==> forall i | 0 <= i < |items| :: !Nullish(items[i])
    ensures rows.Some? ==>
              (|rows.value| == |items| &&
               forall i | 0 <= i < |items| :: rows.value[i] == RowOf(items[i], loading))
    decreases |items|
  {
    if items == [] then Some([])
    else
      match (Member(items[0], "id"), RowsOf(items[1..], loading))
      case (Some(_), Some(rest)) => Some([RowOf(items[0], loading)] + rest)
      case _ => None
  }

  /** The table body for `history`; `None` when `history.map` or an entry read throws. */
  function RenderRows(history: Value, loading: Value): (rows: Option<seq<Row>>)
    ensures rows.Some? <==> history.Arr? && forall i | 0 <= i < |history.items| :: !Nullish(history.items[i])
    ensures rows.Some? ==>
              (|rows.value| == |history.items| &&
               forall i | 0 <= i < |history.items| :: rows.value[i].key == Prop(history.items[i], "id"))
  {
    match history
    case Arr(items) => RowsOf(items, loading)
    case _ => None
  }

  /** Entries with pairwise different ids. */
  predicate DistinctIds(items: seq<Value>) {
    forall i, j | 0 <= i < j < |items| :: Prop(items[i], "id") != Prop(items[j], "id")
  }

  /** While one id is loading, exactly the rows with that id are disabled; with distinct ids, at most one. */
  lemma OnlyLoadingRowDisabled(history: Value, loading: Value)
    requires RenderRows(history, loading).Some?
    requires DistinctIds(history.items)
    ensures var rows := RenderRows(history, loading).value;
            (forall i | 0 <= i < |rows| :: rows[i].disabled <==> Prop(history.items[i], "id") == loading) &&
            (forall i, j | 0 <= i < j < |rows| :: !(rows[i].disabled && rows[j].disabled))
  {
  }

  /** Once no fetch is in flight, every row whose id is not `null` is enabled and reads "Details". */
  lemma IdleTableEnablesRows(history: Value)
    requires RenderRows(history, Null).Some?
    ensures var rows := RenderRows(history, Null).value;
            forall i | 0 <= i < |rows| :: !Prop(history.items[i], "id").Null? ==>
              !rows[i].disabled && rows[i].caption == DetailsLabel
  {
  }
}
