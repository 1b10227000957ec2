# Run tracker pages: a Dafny model

This project models the two pages of a small run-tracker web front end that hold
its logic. Both pages work against a hosted backend: one table of runs
(`myrun_tb`) and one storage bucket (`myrun_bucket`).

- **Create page** (`AddTask`, with `FileName`). Its form state is the date, the
  distance, the place, the picked image file and a preview URL. The submit handler
  first checks that the date, distance and place are filled in. If a file was
  picked, it uploads the file under the key `<timestamp>_<sanitised name>` and
  resolves that key's public URL. It then inserts the run and navigates home. The
  first failure ends the handler with an alert.
- **List page** (`AllTask`). Its state is `runs`, `loading`, `error` and
  `deletingId`. Fetching loads every run. Deleting asks for confirmation, marks
  the row as being deleted, issues the remote delete, and refetches the list only
  on success. The page renders as an error banner and a table, with a
  placeholder, a dash fallback and a disabled delete button where they apply.

Backend calls are not executed. Each handler returns the `Effect`s it issues, in
order: alerts, uploads, public-URL lookups, inserts, selects, deletes and
navigations. What each call resolves to is an input to the handler. The inputs
are an `Outcome` (`Ok` or `Err(message)`) or a `FetchResult` for a select. The
clock reading, the storage client's URL resolution, the browser's object-URL
function, the URL validity test and locale date formatting are all parameters.

Modules: `Wrappers` (Option), `Backend` (table and bucket names, records,
effects), `FileName` (sanitiser and storage key), `AddTask` (create page),
`AllTask` (list page).

## Model

| member | source | states |
|---|---|---|
| `FileName.SanitizeChar` | app/addtask/page.tsx:37 | the replacement of one character is always in `[a-zA-Z0-9._-]`; it equals the input exactly when the input is in that class, and is `_` otherwise |
| `FileName.Sanitize` | app/addtask/page.tsx:37 | the sanitised name has the same length as the original; each position is the replacement of the character at that position; every character is in the safe class |
| `FileName.SanitizeFixpoint` | app/addtask/page.tsx:37 | sanitising leaves a name unchanged if and only if every character of it is already safe |
| `FileName.SanitizeIdempotent` | app/addtask/page.tsx:37 | sanitising twice gives the same result as sanitising once |
| `FileName.Decimal` | app/addtask/page.tsx:38 | the timestamp's text is a non-empty string of decimal digits whose first digit is `0` exactly when the timestamp is 0 (no leading zeros) |
| `FileName.ParseDecimalOfDecimal` | app/addtask/page.tsx:38 | reading the decimal text back gives the original timestamp |
| `FileName.UploadName` | app/addtask/page.tsx:38 | the storage key has length digits + 1 + name length, and every character of it is in the safe class |
| `FileName.UploadNameRoundTrip` | app/addtask/page.tsx:38 | splitting the key at its first `_` gives back the timestamp and the sanitised name |
| `FileName.UploadNameInjective` | app/addtask/page.tsx:38 | two keys are equal only when their timestamps and sanitised names are equal |
| `AddTask.RequiredFilled` | app/addtask/page.tsx:28 | the required-field check: a non-empty date, a distance that is not `""`, and a non-empty place. When it holds, the distance is a number, which the insert then carries |
| `AddTask.InsertStage` | app/addtask/page.tsx:57-71 | the insert stage issues the insert of the record first, and reaches the navigation home exactly when the insert succeeds |
| `AddTask.SubmitEffects` | app/addtask/page.tsx:25-72 | the whole submit pipeline: validate, upload and resolve the URL when a file is picked, insert, navigate. Every run is non-empty and ends with an alert or the navigation home |
| `AddTask.SubmitRejectsIncomplete` | app/addtask/page.tsx:28-31 | an empty date, a `""` distance or an empty place (and only these) gives exactly one alert, with no upload and no insert; a distance of 0 is accepted |
| `AddTask.SubmitUploadsPickedFile` | app/addtask/page.tsx:33-54 | an upload happens exactly when the form is complete and a file is picked. It goes to `myrun_bucket` under `UploadName(now, name)` with upsert off. The public URL is resolved exactly after a successful upload, for the same bucket and key |
| `AddTask.SubmitStopsOnUploadError` | app/addtask/page.tsx:40-48 | a failed upload ends the handler with the upload alert: no insert and no navigation |
| `AddTask.SubmitInsertsFormValues` | app/addtask/page.tsx:33-62 | the insert happens exactly when validation passed and there was no upload or it succeeded. It carries the date, distance and place unchanged. Its image URL is the resolved public URL of the uploaded key, or null when no file was picked |
| `AddTask.SubmitNavigatesOnlyWhenSaved` | app/addtask/page.tsx:57-71 | navigation to `/` happens exactly when the insert stage is reached and the insert succeeds. It is the last step and follows the success alert. A failed insert ends with the save alert and no navigation |
| `AddTask.SubmitTraceWhenInsertReached` | app/addtask/page.tsx:33-71 | a submit that reaches the insert stage has exactly this trace. With a file, it is the upload and the URL lookup for the same key. Then comes the insert of the form's values, with the image URL or null. It ends with either the saved alert and the navigation home, or the save-failed alert |
| `AddTask.SubmitStepsInOrder` | app/addtask/page.tsx:25-72 | upload, URL lookup, insert and navigation occur in that order, each at most once |
| `AddTask.AddRunPage.HandleUploadAndSave` | app/addtask/page.tsx:25-72 | the handler issues exactly the effects `SubmitEffects` gives for the current form and the backend's answers, and changes no form state |
| `AddTask.AddRunPage.HandleSelectImage` | app/addtask/page.tsx:17-23 | with a non-empty file list, the first file becomes the image and its object URL the preview; with no file, both are unchanged; the other fields are never touched |
| `AddTask.AddRunPage.constructor` | app/addtask/page.tsx:11-15 | the form starts with empty date and place, a `""` distance, no file and no preview |
| `AddTask.AddRunPage.SetRunDate` | app/addtask/page.tsx:90 | the date input replaces the date and nothing else |
| `AddTask.AddRunPage.SetRunDistance` | app/addtask/page.tsx:101 | the distance input stores the parsed number and nothing else |
| `AddTask.AddRunPage.SetRunPlace` | app/addtask/page.tsx:114 | the place input replaces the place and nothing else |
| `AllTask.ImageOf` | app/alltask/page.tsx:122-132 | the picture is shown exactly when the URL is non-null, non-empty and valid, and its source is that URL; otherwise the placeholder is shown |
| `AllTask.DateOf` | app/alltask/page.tsx:136-138 | a date shows the dash exactly when it is null or empty; otherwise it shows its locale formatting |
| `AllTask.OrDash` | app/alltask/page.tsx:141-145 | distance and place show the dash exactly when null; otherwise they show the value itself |
| `AllTask.RenderRow` | app/alltask/page.tsx:118-177 | the row is keyed by the run id and links to `/updatetask/<id>`. Its delete button is disabled exactly when the id equals `deletingId`, and then shows the "deleting" label. Its cells follow the column rules: the image cell is `ImageOf` of the image URL, the date and "date added" cells are `DateOf` of `run_date` and `created_at`, and the distance and place cells are `OrDash` of their columns |
| `AllTask.DataRows` | app/alltask/page.tsx:118-178 | one row per run, in order, each the rendering of that run |
| `AllTask.TableBody` | app/alltask/page.tsx:117-185 | with runs, one row per run in order; with none, exactly the one "no data" row. The "no data" row appears if and only if there are no runs |
| `AllTask.Render` | app/alltask/page.tsx:94-189 | the error banner is shown exactly when the error is non-null and non-empty, and shows the loading-error text followed by the message. The loading text is shown exactly while loading; otherwise the table body is shown |
| `AllTask.OnlyDeletingRowDisabled` | app/alltask/page.tsx:160-174 | with distinct ids, a row's button is disabled exactly when it is the run being deleted, and no other row's button is disabled then |
| `AllTask.FalsyValuesShown` | app/alltask/page.tsx:140-145 | a distance of 0 and an empty place are shown as values, not as the dash |
| `AllTask.CreatedRunShown` | app/alltask/page.tsx:135-145 | a run stored from a complete form shows its date (locale formatted), distance and place unchanged, and the placeholder when it has no image |
| `AllTask.RunListPage.constructor` | app/alltask/page.tsx:21-24 | the page starts with no runs, loading, no error and nothing being deleted, and satisfies the invariant |
| `AllTask.RunListPage.FetchStart` | app/alltask/page.tsx:35-37 | fetching sets `loading` and issues a select on `myrun_tb`; runs, error and `deletingId` are unchanged |
| `AllTask.RunListPage.FetchComplete` | app/alltask/page.tsx:38-46 | an error empties the runs and records the message. Success stores the rows, or an empty list for null data, and clears the error. `loading` ends on both branches, and the invariant is kept |
| `AllTask.RunListPage.FailedFetchShowsNoData` | app/alltask/page.tsx:38-41 | in the state a failed fetch leaves (the invariant holds, an error is recorded, loading is over), the page shows exactly the "no data" row, under the error banner (the loading-error text and the message) when the message is non-empty |
| `AllTask.RunListPage.DeleteStart` | app/alltask/page.tsx:54-58 | declining the confirmation changes nothing and issues nothing. Confirming sets `deletingId` to the id (the in-flight state) and issues the delete by that id. The runs, loading and error are untouched |
| `AllTask.RunListPage.DeletingRowDisabled` | app/alltask/page.tsx:160-174 | while the delete of an id is in flight, the rendered page disables exactly the delete buttons of the rows with that id, and labels them as deleting |
| `AllTask.RunListPage.DeleteComplete` | app/alltask/page.tsx:59-66 | once the delete resolves, `deletingId` is cleared whatever the outcome. A failure alerts with its message and leaves runs, loading and error unchanged. Success alerts and starts a refetch: loading is set and a select is issued |
| `AllTask.RunListPage.HandleDelete` | app/alltask/page.tsx:53-67 | the two halves run in sequence. Declining issues nothing; a failed delete gives the delete and the failure alert; a successful one gives the delete, the success alert and a select. A select is issued only after a successful delete, and the runs and error are unchanged |

`RunListPage.Valid` is the list page's invariant: a recorded error means no runs
are held, and no delete is in flight between handler runs.
`RunListPage.DeleteInFlight(id)` is the state while the delete of `id` is
awaited: the same, except that `deletingId` is `id`.

### Behaviour worth noting

- After a successful create, the page navigates to `/`, the landing page, not to
  `/alltask`.
- The submit handler itself accepts any number as the distance, including a
  negative one; only the input's `min={0}` attribute (see "## Left out") stands
  against it.

## Left out

- `app/updatetask/[id]/page.tsx` (the edit page) is not part of this model.
  `app/page.tsx`, `app/layout.tsx` and `next.config.ts` hold markup and framework
  configuration only.
- The backend client library: what `select`, `insert`, `delete`, `upload` and
  `getPublicUrl` do on the server. Their results are inputs. `Backend.Stored`
  assumes read-after-write: an inserted record reads back with its values.
- URL validity (`new URL(...)`), locale date formatting, `URL.createObjectURL` and
  `Date.now()` are parameters. The timestamp is taken to be a non-negative
  integer of milliseconds, which a template literal prints in plain decimal.
- `FileName.Sanitize`: works on Unicode scalar values, whereas JavaScript strings
  are UTF-16. A character outside the Basic Multilingual Plane becomes one `_`
  here but two in the browser, so length is preserved in characters, not in
  UTF-16 code units.
- `AddTask.DistanceField`: `Number(e.target.value)` is float parsing. A typed
  distance is modelled as a real number; NaN and the other IEEE values are not
  modelled.
- `AllTask.OnlyDeletingRowDisabled`: requires that run ids are distinct. Ids are
  the table's primary key, and the page does not check this itself.
- Browser form validation is not modelled. The `required` attributes on the
  three inputs and `min={0}` / `step={0.1}` on the distance can block the submit
  event before the handler runs; the model starts at the handler.
- Console diagnostics (`console.log`, `console.error`), `event.preventDefault`,
  the confirmation dialog's text, image sizes and all styling are left out. The
  confirmation dialog's answer is a boolean input.
- Concurrency. Each handler runs to completion as one sequential step. A double
  submit, or a fetch that interleaves with a delete, is not modelled. `fetchRuns`
  is split at its `await` into `FetchStart` and `FetchComplete`, because a delete
  starts it without waiting for it. `handleDelete` is split the same way into
  `DeleteStart` and `DeleteComplete`, so that the in-flight state is a state of
  the page. Mounting the list page is the constructor
  followed by `FetchStart`.
- Uploaded objects are not rolled back when the insert fails; neither the code nor
  the model does this.
