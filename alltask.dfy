/**
 * The list page (app/alltask/page.tsx): its state (`runs`, `loading`,
 * `error`, `deletingId`), the fetch and delete handlers that update it, and
 * the rendering of that state into an error banner and a table.
 */
module AllTask {
  import opened Wrappers
  import opened Backend

  const LoadErrorPrefix := "เกิดข้อผิดพลาดในการโหลดข้อมูล: "
  const DeleteFailedPrefix := "เกิดข้อผิดพลาดในการลบข้อมูล: "
  const DeletedAlert := "ลบข้อมูลสำเร็จ"
  const DeleteLabel := "ลบ"
  const DeletingLabel := "กำลังลบ..."
  const EditPathPrefix := "/updatetask/"

  // ---------------------------------------------------------------------------
  // Rendering
  // ---------------------------------------------------------------------------

  /** A table cell holding a value, or the `-` fallback. */
  datatype Cell<T> = Dash | Shown(value: T)

  /** The image cell: the picture at a URL, or the "no picture" text. */
  datatype ImageCell = Picture(src: string) | NoPicture

  datatype RowView = RowView(
    key: string,
    image: ImageCell,
    date: Cell<string>,
    distance: Cell<real>,
    place: Cell<string>,
    addedAt: Cell<string>,
    editHref: string,
    deleteDisabled: bool,
    deleteLabel: string)

  /** A row of the table body: one run, or the single "no data" row. */
  datatype BodyRow = DataRow(view: RowView) | NoDataRow

  datatype Content = LoadingText | Table(body: seq<BodyRow>)

  datatype PageView = PageView(errorBanner: Option<string>, content: Content)

  /** JavaScript truthiness of a nullable string: neither null nor empty. */
  predicate Truthy(s: Option<string>)
  {
    s.Some? && s.value != ""
  }

  /** `url && validUrl(url) ? <Image src={url}/> : "no picture"`. */
  function ImageOf(url: Option<string>, validUrl: string -> bool): (c: ImageCell)
    ensures c.Picture? <==> Truthy(url) && validUrl(url.value)
    ensures c.Picture? ==> c.src == url.value
  {
    if Truthy(url) && validUrl(url.value) then Picture(url.value) else NoPicture
  }

  /** `d ? localeDate(d) : "-"`: an empty or null date shows the dash. */
  function DateOf(d: Option<string>, localeDate: string -> string): (c: Cell<string>)
    ensures c.Dash? <==> !Truthy(d)
    ensures c.Shown? ==> c.value == localeDate(d.value)
  {
    if Truthy(d) then Shown(localeDate(d.value)) else Dash
  }

  /** `v ?? "-"`: only a null value shows the dash; 0 and "" are shown. */
  function OrDash<T>(v: Option<T>): (c: Cell<T>)
    ensures c.Dash? <==> v.None?
    ensures c.Shown? ==> c.value == v.value
  {
    match v
    case None => Dash
    case Some(x) => Shown(x)
  }

  /** One table row for a run, given the id being deleted, if any. */
  function RenderRow(run: Run, deletingId: Option<string>, validUrl: string -> bool, localeDate: string -> string): (r: RowView)
    ensures r.key == run.id && r.editHref == EditPathPrefix + run.id
    ensures r.deleteDisabled <==> deletingId == Some(run.id)
    ensures r.deleteLabel == if r.deleteDisabled then DeletingLabel else DeleteLabel
    // The cells follow the display rules of their columns.
    ensures r.image == ImageOf(run.runImageUrl, validUrl)
    ensures r.date == DateOf(run.runDate, localeDate)
    ensures r.distance == OrDash(run.runDistance)
    ensures r.place == OrDash(run.runPlace)
    ensures r.addedAt == DateOf(run.createdAt, localeDate)
  {
    var disabled := deletingId == Some(run.id);
    RowView(
      run.id,
      ImageOf(run.runImageUrl, validUrl),
      DateOf(run.runDate, localeDate),
      OrDash(run.runDistance),
      OrDash(run.runPlace),
      DateOf(run.createdAt, localeDate),
      EditPathPrefix + run.id,
      disabled,
      if disabled then DeletingLabel else DeleteLabel)
  }

  /** `runs.map(...)`: one data row per run, in order. */
  function DataRows(runs: seq<Run>, deletingId: Option<string>, validUrl: string -> bool, localeDate: string -> string): (rows: seq<BodyRow>)
    ensures |rows| == |runs|
    ensures forall i :: 0 <= i < |runs| ==> rows[i] == DataRow(RenderRow(runs[i], deletingId, validUrl, localeDate))
  {
    if runs == [] then []
    else [DataRow(RenderRow(runs[0], deletingId, validUrl, localeDate))] + DataRows(runs[1..], deletingId, validUrl, localeDate)
  }

  /** The table body: the data rows when there are runs, else exactly one "no data" row. */
  function TableBody(runs: seq<Run>, deletingId: Option<string>, validUrl: string -> bool, localeDate: string -> string): (body: seq<BodyRow>)
    ensures runs == [] ==> body == [NoDataRow]
    ensures runs != [] ==>
      |body| == |runs| &&
      forall i :: 0 <= i < |runs| ==> body[i] == DataRow(RenderRow(runs[i], deletingId, validUrl, localeDate))
    ensures NoDataRow in body <==> runs == []
  {
    if |runs| > 0 then DataRows(runs, deletingId, validUrl, localeDate) else [NoDataRow]
  }

  /** The page: the error banner when the error is truthy, then the loading text or the table. */
  function Render(runs: seq<Run>, loading: bool, error: Option<string>, deletingId: Option<string>,
                  validUrl: string -> bool, localeDate: string -> string): (v: PageView)
    ensures v.errorBanner.Some? <==> Truthy(error)
    ensures v.errorBanner.Some? ==> v.errorBanner.value == LoadErrorPrefix + error.value
    ensures v.content.LoadingText? <==> loading
    ensures !loading ==> v.content.body == TableBody(runs, deletingId, validUrl, localeDate)
  {
    PageView(
      if Truthy(error) then Some(LoadErrorPrefix + error.value) else None,
      if loading then LoadingText else Table(TableBody(runs, deletingId, validUrl, localeDate)))
  }

  predicate UniqueIds(runs: seq<Run>)
  {
    forall i, j :: 0 <= i < j < |runs| ==> runs[i].id != runs[j].id
  }

  /**
   * With distinct run ids, the delete button of the run being deleted is the
   * only disabled one, and none is disabled when nothing is being deleted.
   */
  lemma {:induction false} OnlyDeletingRowDisabled(runs: seq<Run>, deletingId: Option<string>,
                                                   validUrl: string -> bool, localeDate: string -> string)
    requires UniqueIds(runs)
    ensures var body := TableBody(runs, deletingId, validUrl, localeDate);
      forall i :: 0 <= i < |runs| ==>
        (body[i].view.deleteDisabled <==> deletingId == Some(runs[i].id)) &&
        (body[i].view.deleteDisabled ==> forall j :: 0 <= j < |runs| && j != i ==> !body[j].view.deleteDisabled)
  {
  }

  /** A distance of 0 and an empty place are shown as values, not as the dash. */
  lemma FalsyValuesShown(run: Run, deletingId: Option<string>, validUrl: string -> bool, localeDate: string -> string)
    requires run.runDistance == Some(0.0) && run.runPlace == Some("")
    ensures RenderRow(run, deletingId, validUrl, localeDate).distance == Shown(0.0)
    ensures RenderRow(run, deletingId, validUrl, localeDate).place == Shown("")
  {
  }

  /**
   * A run created from a complete form reads back with its date, distance and
   * place shown unchanged, and with "no picture" when it has no image. For
   * example, a run on 2024-05-01 of 5.2 km at "Park" without an image shows
   * those three values and "no picture".
   */
  lemma CreatedRunShown(record: RunInsert, id: string, createdAt: string, deletingId: Option<string>,
                        validUrl: string -> bool, localeDate: string -> string)
    requires record.runDate != "" && record.runPlace != ""
    ensures var row := RenderRow(Stored(record, id, createdAt), deletingId, validUrl, localeDate);
      row.date == Shown(localeDate(record.runDate)) &&
      row.distance == Shown(record.runDistance) &&
      row.place == Shown(record.runPlace) &&
      (record.runImageUrl.None? ==> row.image == NoPicture)
  {
  }

  /** The invariant of the page's state: a failed fetch leaves no runs behind. */
  predicate ErrorClearsRuns(runs: seq<Run>, error: Option<string>)
  {
    error.Some? ==> runs == []
  }

  // ---------------------------------------------------------------------------
  // State and handlers
  // ---------------------------------------------------------------------------

  class RunListPage {
    var runs: seq<Run>
    var loading: bool
    var error: Option<string>
    var deletingId: Option<string>

    /**
     * Between handler runs: a recorded error means no runs are held, and no
     * delete is in flight.
     */
    ghost predicate Valid()
      reads this
    {
      ErrorClearsRuns(runs, error) && deletingId.None?
    }

    /** While the delete of `id` is awaited: the same, except that `deletingId` is `id`. */
    ghost predicate DeleteInFlight(id: string)
      reads this
    {
      ErrorClearsRuns(runs, error) && deletingId == Some(id)
    }

    /** The initial state: no runs, loading, no error, nothing being deleted. */
    constructor ()
      ensures Valid()
      ensures runs == [] && loading && error.None? && deletingId.None?
    {
      runs, loading, error, deletingId := [], true, None, None;
    }

    /** The page as rendered from the current state. */
    function View(validUrl: string -> bool, localeDate: string -> string): PageView
      reads this
    {
      Render(runs, loading, error, deletingId, validUrl, localeDate)
    }

    /** First half of `fetchRuns`, up to the awaited select: loading is set and the select issued. */
    method FetchStart() returns (effect: Effect)
      requires Valid()
      modifies this
      ensures Valid()
      ensures effect == Select(RunTable)
      ensures loading
      ensures runs == old(runs) && error == old(error) && deletingId == old(deletingId)
    {
      loading := true;
      effect := Select(RunTable);
    }

    /**
     * Second half of `fetchRuns`, once the select resolves: an error empties
     * the list and records its message, success stores the rows (or none when
     * the data is null) and clears the error; loading ends either way.
     */
    method FetchComplete(result: FetchResult)
      requires Valid()
      modifies this
      ensures Valid()
      ensures !loading && deletingId == old(deletingId)
      ensures result.FetchFailed? ==> runs == [] && error == Some(result.message)
      ensures result.Fetched? ==>
        error.None? && runs == (if result.data.Some? then result.data.value else [])
    {
      match result {
        case FetchFailed(message) =>
          error := Some(message);
          runs := [];
        case Fetched(data) =>
          runs := if data.Some? then data.value else [];
          error := None;
      }
      loading := false;
    }

    /**
     * Once a fetch has failed (as `FetchComplete(FetchFailed(m))` leaves the
     * page), the table shows exactly the "no data" row, under the banner of
     * the message when it is not empty.
     */
    lemma FailedFetchShowsNoData(validUrl: string -> bool, localeDate: string -> string)
      requires Valid() && error.Some? && !loading
      ensures View(validUrl, localeDate).content == Table([NoDataRow])
      ensures View(validUrl, localeDate).errorBanner ==
        if error.value != "" then Some(LoadErrorPrefix + error.value) else None
    {
    }

    /**
     * First half of `handleDelete(id)`, up to the awaited delete. `confirmed`
     * is the user's answer to the confirmation dialog: declining changes
     * nothing and issues nothing; confirming marks `id` as being deleted and
     * issues the delete by id.
     */
    method DeleteStart(id: string, confirmed: bool) returns (effects: seq<Effect>)
      requires Valid()
      modifies this
      ensures runs == old(runs) && loading == old(loading) && error == old(error)
      ensures !confirmed ==> Valid() && effects == [] && deletingId == old(deletingId)
      ensures confirmed ==> DeleteInFlight(id) && effects == [DeleteById(RunTable, id)]
    {
      if !confirmed {
        return [];
      }
      deletingId := Some(id);
      effects := [DeleteById(RunTable, id)];
    }

    /**
     * While the delete of `id` is awaited, the page disables exactly the
     * delete buttons of the rows whose id is `id`, and labels them as deleting.
     */
    lemma DeletingRowDisabled(id: string, validUrl: string -> bool, localeDate: string -> string)
      requires DeleteInFlight(id) && !loading && runs != []
      ensures var body := View(validUrl, localeDate).content.body;
        |body| == |runs| &&
        forall i :: 0 <= i < |runs| ==>
          body[i].DataRow? &&
          (body[i].view.deleteDisabled <==> runs[i].id == id) &&
          (body[i].view.deleteDisabled ==> body[i].view.deleteLabel == DeletingLabel)
    {
    }

    /**
     * Second half of `handleDelete(id)`, once the delete resolves to
     * `deleteResult`: `deletingId` is cleared whatever the outcome. A failure
     * alerts with its message and leaves the list as it was; success alerts
     * and starts a refetch, which is not awaited, so its completion is a later
     * `FetchComplete`.
     */
    method DeleteComplete(id: string, deleteResult: Outcome) returns (effects: seq<Effect>)
      requires DeleteInFlight(id)
      modifies this
      ensures Valid()
      ensures runs == old(runs) && error == old(error)
      ensures deleteResult.Err? ==>
        effects == [Alert(DeleteFailedPrefix + deleteResult.message)] && loading == old(loading)
      ensures deleteResult.Ok? ==>
        effects == [Alert(DeletedAlert), Select(RunTable)] && loading
    {
      deletingId := None;
      if deleteResult.Err? {
        effects := [Alert(DeleteFailedPrefix + deleteResult.message)];
      } else {
        var select := FetchStart();
        effects := [Alert(DeletedAlert), select];
      }
    }

    /** `handleDelete(id)` run to completion: its two halves, one after the other. */
    method HandleDelete(id: string, confirmed: bool, deleteResult: Outcome) returns (effects: seq<Effect>)
      requires Valid()
      modifies this
      ensures Valid()
      ensures runs == old(runs) && error == old(error)
      ensures !confirmed ==> effects == [] && loading == old(loading)
      ensures confirmed && deleteResult.Err? ==>
        effects == [DeleteById(RunTable, id), Alert(DeleteFailedPrefix + deleteResult.message)] &&
        loading == old(loading)
      ensures confirmed && deleteResult.Ok? ==>
        effects == [DeleteById(RunTable, id), Alert(DeletedAlert), Select(RunTable)] && loading
      ensures Select(RunTable) in effects <==> confirmed && deleteResult.Ok?
    {
      effects := DeleteStart(id, confirmed);
      if confirmed {
        var rest := DeleteComplete(id, deleteResult);
        effects := effects + rest;
      }
    }
  }
}
