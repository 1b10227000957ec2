/**
 * The create page (app/addtask/page.tsx): form state, image selection, and
 * the submit handler that validates, optionally uploads the picked image and
 * resolves its public URL, inserts the run, and navigates home. Each stage
 * runs only if the one before it succeeded.
 */
module AddTask {
  import opened Wrappers
  import opened Backend
  import opened FileName

  const IncompleteAlert := "กรุณากรอกข้อมูลให้ครบถ้วน"
  const UploadFailedAlert := "เกิดข้อผิดพลาดในการอัปโหลดรูป กรุณาลองใหม่อีกครั้ง"
  const SaveFailedAlert := "เกิดข้อผิดพลาดในการบันทึกข้อมูล กรุณาลองใหม่อีกครั้ง"
  const SavedAlert := "บันทึกการวิ่งเรียบร้อยแล้ว"
  const HomeHref := "/"

  /** The distance field: `""` until a number is typed, then that number. */
  datatype DistanceField = Blank | Number(value: real)

  /** The presence check: a non-empty date, a distance that is not `""`, a non-empty place. */
  predicate RequiredFilled(date: string, distance: DistanceField, place: string)
    ensures RequiredFilled(date, distance, place) ==> distance.Number?
  {
    date != "" && distance != Blank && place != ""
  }

  /** Position of a backend step or navigation in the submit pipeline; 0 for alerts. */
  function Stage(e: Effect): nat
  {
    match e
    case Upload(_, _, _, _) => 1
    case GetPublicUrl(_, _) => 2
    case Insert(_, _) => 3
    case Navigate(_) => 4
    case _ => 0
  }

  /** The pipeline's steps occur in stage order, each at most once. */
  predicate StepsInOrder(effects: seq<Effect>)
  {
    forall i, j :: 0 <= i < j < |effects| && Stage(effects[i]) > 0 && Stage(effects[j]) > 0 ==>
      Stage(effects[i]) < Stage(effects[j])
  }

  function Last(effects: seq<Effect>): Effect
    requires effects != []
  {
    effects[|effects| - 1]
  }

  /** The insert stage: insert the record, then alert, and navigate home only on success. */
  function InsertStage(record: RunInsert, insertResult: Outcome): (r: seq<Effect>)
    ensures r != [] && r[0] == Insert(RunTable, record)
    ensures Navigate(HomeHref) in r <==> insertResult.Ok?
  {
    [Insert(RunTable, record)] +
    (if insertResult.Err? then [Alert(SaveFailedAlert)] else [Alert(SavedAlert), Navigate(HomeHref)])
  }

  /**
   * What the submit handler does for the given form values and backend
   * answers: validate, then (with a file) upload and resolve the public URL,
   * then insert, then navigate; the first failure ends the run with its alert.
   */
  function SubmitEffects(date: string, distance: DistanceField, place: string, file: Option<File>,
                         now: nat, publicUrl: (string, string) -> string,
                         uploadResult: Outcome, insertResult: Outcome): (r: seq<Effect>)
    // Every run ends by telling the user: an alert, or the navigation home.
    ensures r != [] && (r[|r| - 1].Alert? || r[|r| - 1] == Navigate(HomeHref))
  {
    if !RequiredFilled(date, distance, place) then [Alert(IncompleteAlert)]
    else match file
      case None => InsertStage(RunInsert(date, distance.value, place, None), insertResult)
      case Some(f) =>
        var key := UploadName(now, f.name);
        var record := RunInsert(date, distance.value, place, Some(publicUrl(RunBucket, key)));
        var rest := if uploadResult.Err? then [Alert(UploadFailedAlert)]
                    else [GetPublicUrl(RunBucket, key)] + InsertStage(record, insertResult);
        [Upload(RunBucket, key, f, false)] + rest
  }

  predicate HasUpload(effects: seq<Effect>) { exists e :: e in effects && e.Upload? }
  predicate HasPublicUrl(effects: seq<Effect>) { exists e :: e in effects && e.GetPublicUrl? }
  predicate HasInsert(effects: seq<Effect>) { exists e :: e in effects && e.Insert? }

  /** Reaching the insert stage: the form was complete and there was no upload or it succeeded. */
  predicate ReachesInsert(date: string, distance: DistanceField, place: string, file: Option<File>, uploadResult: Outcome)
  {
    RequiredFilled(date, distance, place) && (file.None? || uploadResult.Ok?)
  }

  /** An incomplete form is refused with one alert and no backend call; a distance of 0 is not incomplete. */
  lemma SubmitRejectsIncomplete(date: string, distance: DistanceField, place: string, file: Option<File>,
                                now: nat, publicUrl: (string, string) -> string, uploadResult: Outcome, insertResult: Outcome)
    ensures var effects := SubmitEffects(date, distance, place, file, now, publicUrl, uploadResult, insertResult);
      (!RequiredFilled(date, distance, place) <==> effects == [Alert(IncompleteAlert)]) &&
      (!RequiredFilled(date, distance, place) ==> !HasUpload(effects) && !HasInsert(effects))
    ensures RequiredFilled(date, Number(0.0), place) <==> date != "" && place != ""
  {
  }

  /**
   * An upload is attempted exactly when the form is complete and a file is
   * picked, into the run bucket under `UploadName(now, name)` without upsert;
   * the public URL is resolved exactly after a successful upload, for the same
   * bucket and key.
   */
  lemma SubmitUploadsPickedFile(date: string, distance: DistanceField, place: string, file: Option<File>,
                                now: nat, publicUrl: (string, string) -> string, uploadResult: Outcome, insertResult: Outcome)
    ensures var effects := SubmitEffects(date, distance, place, file, now, publicUrl, uploadResult, insertResult);
      (HasUpload(effects) <==> RequiredFilled(date, distance, place) && file.Some?) &&
      (forall e :: e in effects && e.Upload? ==>
        file.Some? && e == Upload(RunBucket, UploadName(now, file.value.name), file.value, false)) &&
      (HasPublicUrl(effects) <==> RequiredFilled(date, distance, place) && file.Some? && uploadResult.Ok?) &&
      (forall e :: e in effects && e.GetPublicUrl? ==>
        file.Some? && e == GetPublicUrl(RunBucket, UploadName(now, file.value.name)))
  {
    var effects := SubmitEffects(date, distance, place, file, now, publicUrl, uploadResult, insertResult);
    if RequiredFilled(date, distance, place) && file.Some? {
      assert effects[0] in effects;
      if uploadResult.Ok? {
        assert effects[1] in effects;
      }
    }
  }

  /** A failed upload ends the run with its alert: no insert, no navigation. */
  lemma SubmitStopsOnUploadError(date: string, distance: DistanceField, place: string, file: Option<File>,
                                 now: nat, publicUrl: (string, string) -> string, uploadResult: Outcome, insertResult: Outcome)
    requires RequiredFilled(date, distance, place) && file.Some? && uploadResult.Err?
    ensures var effects := SubmitEffects(date, distance, place, file, now, publicUrl, uploadResult, insertResult);
      effects == [Upload(RunBucket, UploadName(now, file.value.name), file.value, false), Alert(UploadFailedAlert)] &&
      !HasInsert(effects) && Navigate(HomeHref) !in effects
  {
  }

  /**
   * The insert happens exactly when the insert stage is reached, and carries
   * the form's date, distance and place unchanged, with the public URL of the
   * uploaded key as its image, or null when no file was picked.
   */
  lemma SubmitInsertsFormValues(date: string, distance: DistanceField, place: string, file: Option<File>,
                                now: nat, publicUrl: (string, string) -> string, uploadResult: Outcome, insertResult: Outcome)
    ensures var effects := SubmitEffects(date, distance, place, file, now, publicUrl, uploadResult, insertResult);
      (HasInsert(effects) <==> ReachesInsert(date, distance, place, file, uploadResult)) &&
      (forall e :: e in effects && e.Insert? ==>
        RequiredFilled(date, distance, place) &&
        e == Insert(RunTable, RunInsert(date, distance.value, place,
          if file.Some? then Some(publicUrl(RunBucket, UploadName(now, file.value.name))) else None)))
  {
    var effects := SubmitEffects(date, distance, place, file, now, publicUrl, uploadResult, insertResult);
    if ReachesInsert(date, distance, place, file, uploadResult) {
      var at := if file.Some? then 2 else 0;
      assert effects[at] in effects && effects[at].Insert?;
    }
  }

  /**
   * Navigation home happens exactly when the insert stage is reached and the
   * insert succeeds, after the success alert and as the last step; a failed
   * insert ends the run with its alert.
   */
  lemma SubmitNavigatesOnlyWhenSaved(date: string, distance: DistanceField, place: string, file: Option<File>,
                                     now: nat, publicUrl: (string, string) -> string, uploadResult: Outcome, insertResult: Outcome)
    ensures var effects := SubmitEffects(date, distance, place, file, now, publicUrl, uploadResult, insertResult);
      effects != [] &&
      (Navigate(HomeHref) in effects <==> ReachesInsert(date, distance, place, file, uploadResult) && insertResult.Ok?) &&
      (Navigate(HomeHref) in effects ==>
        Last(effects) == Navigate(HomeHref) && effects[|effects| - 2] == Alert(SavedAlert)) &&
      (ReachesInsert(date, distance, place, file, uploadResult) && insertResult.Err? ==>
        Last(effects) == Alert(SaveFailedAlert) && Navigate(HomeHref) !in effects)
  {
  }

  /**
   * The whole trace of a submit that reaches the insert stage: with a file,
   * the upload and the URL lookup for the same key, then the insert of the
   * form's values, then the saved alert and the navigation home, or the
   * save-failed alert.
   */
  lemma SubmitTraceWhenInsertReached(date: string, distance: DistanceField, place: string, file: Option<File>,
                                     now: nat, publicUrl: (string, string) -> string, uploadResult: Outcome, insertResult: Outcome)
    requires ReachesInsert(date, distance, place, file, uploadResult)
    ensures var image := if file.Some? then Some(publicUrl(RunBucket, UploadName(now, file.value.name))) else None;
      var tail := [Insert(RunTable, RunInsert(date, distance.value, place, image))] +
        (if insertResult.Ok? then [Alert(SavedAlert), Navigate(HomeHref)] else [Alert(SaveFailedAlert)]);
      SubmitEffects(date, distance, place, file, now, publicUrl, uploadResult, insertResult) ==
        if file.Some? then
          [Upload(RunBucket, UploadName(now, file.value.name), file.value, false),
           GetPublicUrl(RunBucket, UploadName(now, file.value.name))] + tail
        else tail
  {
  }

  /** Upload, URL resolution, insert and navigation occur in that order, each at most once. */
  lemma SubmitStepsInOrder(date: string, distance: DistanceField, place: string, file: Option<File>,
                           now: nat, publicUrl: (string, string) -> string, uploadResult: Outcome, insertResult: Outcome)
    ensures StepsInOrder(SubmitEffects(date, distance, place, file, now, publicUrl, uploadResult, insertResult))
  {
  }

  class AddRunPage {
    var runDate: string
    var runDistance: DistanceField
    var runPlace: string
    var imageFile: Option<File>
    var imagePreview: string

    /** A fresh form: every field empty and no file picked. */
    constructor ()
      ensures runDate == "" && runDistance == Blank && runPlace == ""
      ensures imageFile == None && imagePreview == ""
    {
      runDate, runDistance, runPlace := "", Blank, "";
      imageFile, imagePreview := None, "";
    }

    method SetRunDate(value: string)
      modifies this
      ensures runDate == value
      ensures runDistance == old(runDistance) && runPlace == old(runPlace)
      ensures imageFile == old(imageFile) && imagePreview == old(imagePreview)
    {
      runDate := value;
    }

    /** The distance input stores the number it parses, never `""` again. */
    method SetRunDistance(value: real)
      modifies this
      ensures runDistance == Number(value)
      ensures runDate == old(runDate) && runPlace == old(runPlace)
      ensures imageFile == old(imageFile) && imagePreview == old(imagePreview)
    {
      runDistance := Number(value);
    }

    method SetRunPlace(value: string)
      modifies this
      ensures runPlace == value
      ensures runDate == old(runDate) && runDistance == old(runDistance)
      ensures imageFile == old(imageFile) && imagePreview == old(imagePreview)
    {
      runPlace := value;
    }

    /**
     * The file input's change handler. `files` is the input's file list (null
     * when absent); `createObjectUrl` stands for the browser's object-URL API.
     * Only the first file counts, and picking nothing changes nothing.
     */
    method HandleSelectImage(files: Option<seq<File>>, createObjectUrl: File -> string)
      modifies this
      ensures runDate == old(runDate) && runDistance == old(runDistance) && runPlace == old(runPlace)
      ensures files.Some? && files.value != [] ==>
        imageFile == Some(files.value[0]) && imagePreview == createObjectUrl(files.value[0])
      ensures files.None? || files.value == [] ==>
        imageFile == old(imageFile) && imagePreview == old(imagePreview)
    {
      if files.Some? && files.value != [] {
        var file := files.value[0];
        imageFile := Some(file);
        imagePreview := createObjectUrl(file);
      }
    }

    /**
     * The submit handler, run to completion. `now` is the clock reading,
     * `publicUrl` the storage client's URL resolution, and `uploadResult` and
     * `insertResult` what the two backend writes resolve to. The result lists
     * what the handler did, in order; the lemmas below `SubmitEffects` say what
     * that trace guarantees.
     */
    method HandleUploadAndSave(now: nat, publicUrl: (string, string) -> string, uploadResult: Outcome, insertResult: Outcome)
      returns (effects: seq<Effect>)
      ensures effects == SubmitEffects(runDate, runDistance, runPlace, imageFile, now, publicUrl, uploadResult, insertResult)
    {
      if !RequiredFilled(runDate, runDistance, runPlace) {
        effects := [Alert(IncompleteAlert)];
        return;
      }

      var imageUrl: Option<string> := None;
      effects := [];

      if imageFile.Some? {
        var safeName := Sanitize(imageFile.value.name);
        var fileName := Decimal(now) + "_" + safeName;
        effects := effects + [Upload(RunBucket, fileName, imageFile.value, false)];
        if uploadResult.Err? {
          effects := effects + [Alert(UploadFailedAlert)];
          return;
        }
        effects := effects + [GetPublicUrl(RunBucket, fileName)];
        imageUrl := Some(publicUrl(RunBucket, fileName));
      }

      effects := effects + [Insert(RunTable, RunInsert(runDate, runDistance.value, runPlace, imageUrl))];
      if insertResult.Err? {
        effects := effects + [Alert(SaveFailedAlert)];
        return;
      }

      effects := effects + [Alert(SavedAlert), Navigate(HomeHref)];
    }
  }
}
