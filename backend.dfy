/**
 * The hosted backend as the two pages see it: one table of runs and one
 * storage bucket. Every call into the backend's client library is modelled as
 * an `Effect` the page issues; what the call returns (an error or not, the
 * rows read) is an input to the page's handler, never computed here.
 */
module Backend {
  import opened Wrappers

  /** The table both pages read and write. */
  const RunTable := "myrun_tb"

  /** The storage bucket the create page uploads images to. */
  const RunBucket := "myrun_bucket"

  /** What a write call (`upload`, `insert`, `delete`) resolves to: no error, or an error message. */
  datatype Outcome = Ok | Err(message: string)

  /** A file picked in the browser: its name and its bytes. */
  datatype File = File(name: string, content: seq<bv8>)

  /** The record the create page inserts into the run table. */
  datatype RunInsert = RunInsert(runDate: string, runDistance: real, runPlace: string, runImageUrl: Option<string>)

  /**
   * A row of the run table as the list page receives it. Every column but the
   * id may come back null, which the list page guards against column by column.
   */
  datatype Run = Run(
    id: string,
    createdAt: Option<string>,
    runDate: Option<string>,
    runDistance: Option<real>,
    runPlace: Option<string>,
    runImageUrl: Option<string>)

  /** What `select("*")` resolves to: the rows (possibly null), or an error message. */
  datatype FetchResult = Fetched(data: Option<seq<Run>>) | FetchFailed(message: string)

  /** One observable step of a handler: a blocking alert, a backend call, or a navigation. */
  datatype Effect =
    | Alert(text: string)
    | Upload(bucket: string, path: string, file: File, upsert: bool)
    | GetPublicUrl(bucket: string, path: string)
    | Insert(table: string, record: RunInsert)
    | Select(table: string)
    | DeleteById(table: string, id: string)
    | Navigate(href: string)

  /**
   * The row a later `select` returns for an inserted record, once the backend
   * has assigned its id and creation time (read-after-write is assumed of the
   * backend, not proved).
   */
  function Stored(record: RunInsert, id: string, createdAt: string): Run
  {
    Run(id, Some(createdAt), Some(record.runDate), Some(record.runDistance), Some(record.runPlace), record.runImageUrl)
  }
}
