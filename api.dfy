/** The pure logic of the routes in `src/routes/api.js`: what each handler answers for a given
    directory listing, catalog result or request body. The two handlers that change state
    (`PUT /salvar/:filename`, `POST /save/:camera`) are methods over the catalog and the
    recording service. */
module Api {
  import opened Basics
  import opened Text
  import opened Seqs
  import Catalog
  import Recording

  /** A handler's answer: the HTTP status and the JSON body's text payload. */
  datatype Response<T> = Ok(body: T) | Error(status: int, message: string)

  /** A reply carrying `success` and a message (or the file, for `/save`). */
  datatype Reply = Reply(status: int, success: bool, message: string)

  /** A JSON value of a request body; numbers are integers here. */
  datatype Json = JNull | JBool(b: bool) | JNum(n: int) | JStr(s: string) | JArr(items: seq<Json>) | JObj(fields: map<string, Json>)

  // ---------------------------------------------------------------- GET /files

  predicate IsMp4(f: string) {
    EndsWith(f, ".mp4")
  }

  /** `GET /files`: the recordings directory's `.mp4` entries, or 500 when it cannot be read. */
  function RecordingFiles(listing: Result<seq<string>, string>): (r: Response<seq<string>>)
    ensures listing.Failure? <==> r == Error(500, "Erro ao ler arquivos")
    ensures r.Ok? ==> forall f :: f in r.body <==> f in listing.value && EndsWith(f, ".mp4")
    ensures r.Ok? ==> |r.body| <= |listing.value|
  {
    match listing
    case Failure(_) => Error(500, "Erro ao ler arquivos")
    case Success(files) => Ok(Filter(files, IsMp4))
  }

  /** The listing keeps the directory's order: the answer for `a + b` is the answer for `a` then for `b`. */
  lemma RecordingFilesKeepOrder(a: seq<string>, b: seq<string>)
    ensures RecordingFiles(Success(a + b)).body == RecordingFiles(Success(a)).body + RecordingFiles(Success(b)).body
  {
    FilterAppend(a, b, IsMp4);
  }

  /** Every segment the recording service writes, continuous or manual, is listed by `/files`. */
  lemma RecordingsAreListed(stream: string, camera: string, iso: string)
    ensures IsMp4(Recording.ContinuousFileName(stream, iso))
    ensures IsMp4(Recording.ManualFileName(camera, iso))
  {
  }

  // ---------------------------------------------------------------- GET /photos

  /** One element of the `photos` array. `timestamp: None` is JavaScript's `undefined`. */
  datatype Photo = Photo(filename: string, url: string, camera: string, timestamp: Option<string>)

  /** `f.toLowerCase().endsWith('.jpg' | '.jpeg' | '.png')`. */
  predicate IsPhotoFile(f: string) {
    var l := ToLowerAscii(f);
    EndsWith(l, ".jpg") || EndsWith(l, ".jpeg") || EndsWith(l, ".png")
  }

  /** `file.split('_')[0]`: the name up to its first `_`, or the whole name. */
  function PhotoCamera(f: string): (r: string)
    ensures StartsWith(f, r) && '_' !in r
    ensures r == f || f[|r|] == '_'
  {
    var r := FirstField(f, "_");
    assert '_' !in r by {
      forall k | 0 <= k < |r| ensures r[k] != '_' {
        assert f[k] == r[k];
        assert !OccursAt(f, "_", k);
        assert f[k..k + 1] == [f[k]];
      }
    }
    assert r != f ==> f[|r|..|r| + 1] == "_";
    r
  }

  /** The `timestamp` field: between the first and second `_TEST_` when the name has one, else
      between the first and second `_`; in both cases without its first `.jpg`. */
  function PhotoTimestamp(f: string): (r: Option<string>)
    ensures r.None? <==> !Contains(f, "_")
    ensures Contains(f, "_TEST_") ==> r == Some(RemoveFirst(SecondField(f, "_TEST_").value, ".jpg"))
    ensures !Contains(f, "_TEST_") && r.Some? ==> r == Some(RemoveFirst(SecondField(f, "_").value, ".jpg"))
  {
    if Contains(f, "_TEST_") then
      var k :| OccursAt(f, "_TEST_", k);
      assert OccursAt(f, "_", k) by { assert f[k..k + 1] == "_TEST_"[..1]; }
      Some(RemoveFirst(SecondField(f, "_TEST_").value, ".jpg"))
    else
      match SecondField(f, "_")
      case None => None
      case Some(field) => Some(RemoveFirst(field, ".jpg"))
  }

  function ToPhoto(f: string): Photo {
    Photo(f, "/photos/" + f, PhotoCamera(f), PhotoTimestamp(f))
  }

  /** `photoFiles.map(...)` in listing order. */
  function ToPhotos(files: seq<string>): (r: seq<Photo>)
    ensures |r| == |files|
    ensures forall i :: 0 <= i < |files| ==> r[i] == ToPhoto(files[i])
  {
    seq(|files|, i requires 0 <= i < |files| => ToPhoto(files[i]))
  }

  /** The sort key: `localeCompare` is taken as code-point lexicographic order. */
  function PhotoKey(p: Photo): string {
    if p.timestamp.Some? then p.timestamp.value else ""
  }

  /** `(a, b) => b.timestamp.localeCompare(a.timestamp)` puts `a` first: newest first. */
  predicate NewerOrSame(a: Photo, b: Photo) {
    LexLe(PhotoKey(b), PhotoKey(a))
  }

  lemma NewerOrSameIsTotalPreorder()
    ensures Connex(NewerOrSame) && Transitive(NewerOrSame)
  {
    forall a: Photo, b: Photo ensures NewerOrSame(a, b) || NewerOrSame(b, a) {
      LexTotal(PhotoKey(a), PhotoKey(b));
    }
    forall a: Photo, b: Photo, c: Photo | NewerOrSame(a, b) && NewerOrSame(b, c) ensures NewerOrSame(a, c) {
      LexTransitive(PhotoKey(c), PhotoKey(b), PhotoKey(a));
    }
  }

  /** The body of a successful `GET /photos`. */
  datatype PhotoList = PhotoList(count: nat, photos: seq<Photo>)

  /** `GET /photos`: the image files of the photos directory, parsed and sorted newest first;
      a photo without a timestamp sorts as the empty text, after every dated one. This is the
      corrected route: as written, the comparator throws on such a photo (see `CompareAsWritten`). */
  function PhotosResponse(listing: Result<seq<string>, string>): (r: Response<PhotoList>)
    ensures listing.Failure? <==> r.Error?
    ensures listing.Failure? ==> r == Error(500, listing.error)
    ensures listing.Success? ==>
      var kept := Filter(listing.value, IsPhotoFile);
      && (forall f :: f in kept <==> f in listing.value && IsPhotoFile(f))
      && r.body.count == |r.body.photos| == |kept|
      && multiset(r.body.photos) == multiset(ToPhotos(kept))
      && (forall i, j :: 0 <= i < j < |r.body.photos| ==>
            LexLe(PhotoKey(r.body.photos[j]), PhotoKey(r.body.photos[i])))
  {
    match listing
    case Failure(e) => Error(500, e)
    case Success(files) =>
      var photos := ToPhotos(Filter(files, IsPhotoFile));
      NewerOrSameIsTotalPreorder();
      var sorted := SortBy(photos, NewerOrSame);
      assert forall i, j :: 0 <= i < j < |sorted| ==> NewerOrSame(sorted[i], sorted[j]);
      Ok(PhotoList(|photos|, sorted))
  }

  /** Everything listed after a photo without a timestamp has an empty sort key: undated photos
      come after every dated one. */
  lemma UndatedPhotosLast(listing: seq<string>, i: nat, j: nat)
    requires var ps := PhotosResponse(Success(listing)).body.photos;
      i < j < |ps| && ps[i].timestamp.None?
    ensures PhotoKey(PhotosResponse(Success(listing)).body.photos[j]) == ""
  {
    var ps := PhotosResponse(Success(listing)).body.photos;
    assert LexLe(PhotoKey(ps[j]), PhotoKey(ps[i]));
  }

  /** The comparator of `api.js` as written, `(a, b) => b.timestamp.localeCompare(a.timestamp)`:
      `None` is the TypeError thrown when `b` has no timestamp; otherwise whether `a` may go
      first (the comparison is not positive), an absent `a.timestamp` reading as `"undefined"`. */
  function CompareAsWritten(a: Photo, b: Photo): (r: Option<bool>)
    ensures r.None? <==> b.timestamp.None?
    ensures r.Some? && a.timestamp.Some? ==> (r.value <==> LexLe(b.timestamp.value, a.timestamp.value))
  {
    match b.timestamp
    case None => None
    case Some(tb) => Some(LexLe(tb, if a.timestamp.Some? then a.timestamp.value else "undefined"))
  }

  /** As written, two photos named without `_` (say `a.jpg` and `b.jpg`) are both listed but have no
      timestamp, so every comparison the sort can make between them throws and the route answers 500. */
  lemma UndatedPhotosBreakListing()
    ensures var photos := ToPhotos(Filter(["a.jpg", "b.jpg"], IsPhotoFile));
      && |photos| == 2
      && forall x, y :: x in photos && y in photos ==> CompareAsWritten(x, y).None?
  {
    var files := ["a.jpg", "b.jpg"];
    JpgIsPhotoFile("a.jpg");
    JpgIsPhotoFile("b.jpg");
    FilterKeepsAll(files, IsPhotoFile);
    AbsentWithoutFirstChar("a.jpg", "_");
    AbsentWithoutFirstChar("b.jpg", "_");
    var photos := ToPhotos(files);
    assert photos[0].timestamp.None? && photos[1].timestamp.None?;
  }

  /** A name ending in `.jpg` is a photo file. */
  lemma JpgIsPhotoFile(f: string)
    requires EndsWith(f, ".jpg")
    ensures IsPhotoFile(f)
  {
    var l := ToLowerAscii(f);
    forall i | |l| - 4 <= i < |l| ensures l[i] == f[i] {
      assert f[i] == ".jpg"[i - (|f| - 4)];
    }
    assert l[|l| - 4..] == f[|f| - 4..];
  }

  /** The camera is everything before the first `_`. */
  lemma CameraBeforeUnderscore(camera: string, rest: string)
    requires '_' !in camera
    ensures PhotoCamera(camera + "_" + rest) == camera
  {
    FirstOccurrenceAfter(camera, "_", rest);
  }

  /** The field after the separator, `<timestamp>.jpg`, loses its `.jpg` and nothing else. */
  lemma TimestampField(ts: string)
    requires '.' !in ts
    ensures RemoveFirst(ts + ".jpg", ".jpg") == ts
  {
    FirstOccurrenceAfter(ts, ".jpg", []);
    assert ts + ".jpg" + [] == ts + ".jpg";
  }

  /** A name with a single `_` does not contain `_TEST_`. */
  lemma NoTestMarker(f: string, at: nat)
    requires forall i :: 0 <= i < |f| && i != at ==> f[i] != '_'
    ensures !Contains(f, "_TEST_")
  {
    forall k ensures !OccursAt(f, "_TEST_", k) {
      if 0 <= k && k + 6 <= |f| {
        if k == at {
          assert f[k..k + 6][5] == f[k + 5];
        } else {
          assert f[k..k + 6][0] == f[k];
        }
      }
    }
  }

  /** In `<camera>_<timestamp>.jpg`, the only `_` is the one after the camera. */
  lemma OneUnderscore(camera: string, rest: string)
    requires '_' !in camera && '_' !in rest
    ensures var f := camera + "_" + rest;
      forall i :: 0 <= i < |f| && i != |camera| ==> f[i] != '_'
  {
    var f := camera + "_" + rest;
    forall i | 0 <= i < |f| && i != |camera| ensures f[i] != '_' {
      if i < |camera| {
        assert f[i] == camera[i];
      } else {
        assert f[i] == rest[i - |camera| - 1];
      }
    }
  }

  /** A photo named `<camera>_<timestamp>.jpg` (no `_` in either part, no `.` in the timestamp)
      is listed and parses back into its camera and timestamp. */
  lemma PhotoNameRoundTrip(camera: string, ts: string)
    requires '_' !in camera && '_' !in ts && '.' !in ts
    ensures var f := camera + "_" + ts + ".jpg";
      IsPhotoFile(f) && PhotoCamera(f) == camera && PhotoTimestamp(f) == Some(ts)
  {
    var rest := ts + ".jpg";
    var f := camera + "_" + rest;
    assert f == camera + "_" + ts + ".jpg";
    assert '_' !in rest;
    JpgIsPhotoFile(f);
    CameraBeforeUnderscore(camera, rest);
    OneUnderscore(camera, rest);
    NoTestMarker(f, |camera|);
    SecondFieldAfter(camera, "_", rest);
    TimestampField(ts);
  }

  /** The test-capture convention `<camera>_TEST_<timestamp>.jpg` parses the same way. */
  lemma TestPhotoNameRoundTrip(camera: string, ts: string)
    requires '_' !in camera && '_' !in ts && '.' !in ts
    ensures var f := camera + "_TEST_" + ts + ".jpg";
      IsPhotoFile(f) && PhotoCamera(f) == camera && PhotoTimestamp(f) == Some(ts)
  {
    var rest := ts + ".jpg";
    var f := camera + "_TEST_" + rest;
    assert f == camera + "_TEST_" + ts + ".jpg";
    assert f == camera + "_" + ("TEST_" + rest);
    assert '_' !in rest;
    JpgIsPhotoFile(f);
    CameraBeforeUnderscore(camera, "TEST_" + rest);
    FirstOccurrenceAfter(camera, "_TEST_", rest);
    assert Contains(f, "_TEST_");
    SecondFieldAfter(camera, "_TEST_", rest);
    TimestampField(ts);
  }

  // ---------------------------------------------------------------- PUT /salvar/:filename

  /** The reply for `markAsImportant`'s change count. */
  function SalvarReply(filename: string, changes: nat): (r: Reply)
    ensures r.status == 404 <==> changes == 0
    ensures changes > 0 ==> r.status == 200 && r.success
    ensures r.success <==> r.status == 200
  {
    if changes == 0 then Reply(404, false, "Arquivo não encontrado.")
    else Reply(200, true, "Arquivo " + filename + " marcado como \"salvar = true\"")
  }

  /** `PUT /salvar/:filename`: 404 exactly when the catalog has no row of that name. */
  method Salvar(db: Catalog.VideoCatalog, filename: string) returns (r: Reply)
    requires db.Valid()
    modifies db
    ensures db.Valid()
    ensures db.rows == Catalog.MarkImportant(old(db.rows), filename)
    ensures r.status == 404 <==> forall v :: v in old(db.rows) ==> v.filename != filename
    ensures (exists v :: v in old(db.rows) && v.filename == filename) ==> r.status == 200 && r.success
    ensures r.status == 200 ==> forall v :: v in db.rows && v.filename == filename ==> v.salvar
  {
    var changes := db.MarkAsImportant(filename);
    r := SalvarReply(filename, changes);
  }

  // ---------------------------------------------------------------- POST /save/:camera

  /** `POST /save/:camera`: the file's URL under `/recordings/`, or 500 with the capture's error. */
  method Save(service: Recording.RecordingService, camera: string, iso: string,
              outcome: Recording.ExecOutcome, now: int) returns (r: Reply)
    requires service.db.Valid()
    modifies service.db
    ensures service.db.Valid()
    ensures r.success <==> outcome.ExecOk?
    ensures outcome.ExecOk? ==> r.status == 200 && |service.db.rows| == |old(service.db.rows)| + 1
    ensures outcome.ExecOk? ==>
      r.message == "/recordings/" + Recording.Basename(Recording.JoinPath(service.recordingsDir, Recording.ManualFileName(camera, iso)))
    ensures outcome.ExecOk? && '/' !in camera && '/' !in iso ==>
      r.message == "/recordings/" + Recording.ManualFileName(camera, iso)
    ensures outcome.ExecError? ==> r == Reply(500, false, outcome.message)
    ensures outcome.ExecError? ==> service.db.rows == old(service.db.rows)
    ensures outcome.ExecOk? ==>
      var f := Recording.JoinPath(service.recordingsDir, Recording.ManualFileName(camera, iso));
      service.db.rows == old(service.db.rows) + [Catalog.Video(old(service.db.nextId), Recording.Basename(f), f, now, true)]
    ensures outcome.ExecOk? ==> service.db.nextId == old(service.db.nextId) + 1
    ensures outcome.ExecError? ==> service.db.nextId == old(service.db.nextId)
  {
    var saved := service.SaveManualRecording(camera, iso, outcome, now);
    match saved
    case Success(filename) =>
      if '/' !in camera && '/' !in iso {
        Recording.ManualNameRoundTrip(service.recordingsDir, camera, iso);
      }
      r := Reply(200, true, "/recordings/" + filename);
    case Failure(message) =>
      r := Reply(500, false, message);
  }

  // ---------------------------------------------------------------- request bodies

  /** JavaScript truthiness of a body field; `None` is `undefined`. */
  predicate Truthy(v: Option<Json>) {
    match v
    case None => false
    case Some(JNull) => false
    case Some(JBool(b)) => b
    case Some(JNum(n)) => n != 0
    case Some(JStr(s)) => s != ""
    case Some(_) => true
  }

  /** `req.body` can be destructured unless it is `undefined` or `null`. */
  predicate Destructurable(body: Option<Json>) {
    body.Some? && body.value != JNull
  }

  /** A property read from `req.body`; arrays and primitives have none of the route's fields. */
  function Field(body: Option<Json>, key: string): Option<Json> {
    match body
    case Some(JObj(fields)) => if key in fields then Some(fields[key]) else None
    case _ => None
  }

  /** How a call into a module outside the model ended: it returned, or it threw with a message. */
  datatype CallOutcome = Returned | Threw(message: string)

  /** What `POST /photo-cameras` answers, and the list it hands to `setSelectedCameras`, if it calls it. */
  datatype CamerasOutcome = CamerasOutcome(reply: Reply, selected: Option<seq<Json>>)

  /** `POST /photo-cameras`: 400 and no call unless `cameras` is an array; otherwise the list goes to
      `setSelectedCameras`, whose outcome `call` decides between 200 and the catch's 500. */
  function PhotoCameras(body: Option<Json>, call: CallOutcome): (r: CamerasOutcome)
    ensures !Destructurable(body) ==> r.reply.status == 500 && r.selected == None
    ensures r.selected.Some? <==> Field(body, "cameras").Some? && Field(body, "cameras").value.JArr?
    ensures r.selected.Some? ==> Field(body, "cameras") == Some(JArr(r.selected.value))
    ensures r.reply.status == 200 <==> r.selected.Some? && call.Returned?
    ensures r.selected.Some? && call.Threw? ==> r.reply == Reply(500, false, call.message)
    ensures Destructurable(body) && r.selected.None? ==> r.reply.status == 400 && !r.reply.success
    ensures r.reply.success <==> r.reply.status == 200
  {
    if !Destructurable(body) then
      CamerasOutcome(Reply(500, false, "Cannot destructure property 'cameras' of 'req.body'"), None)
    else match Field(body, "cameras")
      case Some(JArr(cameras)) =>
        (match call
         case Returned => CamerasOutcome(Reply(200, true, ""), Some(cameras))
         case Threw(message) => CamerasOutcome(Reply(500, false, message), Some(cameras)))
      case _ => CamerasOutcome(Reply(400, false, "cameras deve ser um array"), None)
  }

  /** An entry of the updates feed built by `POST /updates`; `id` is `Date.now()`. */
  datatype Update = Update(id: int, date: string, version: Json, kind: Json, title: Json, description: seq<Json>)

  /** `POST /updates`: 400 unless `type`, `title` and `description` are all truthy; otherwise the
      new entry, with `description` always an array and `version` defaulting to `'dev'`. */
  function NewUpdate(body: Option<Json>, now: int, date: string): (r: Response<Update>)
    ensures !Destructurable(body) ==> r.Error? && r.status == 500
    ensures Destructurable(body) ==>
      (r == Error(400, "Campos obrigatórios: type, title, description") <==>
        !Truthy(Field(body, "type")) || !Truthy(Field(body, "title")) || !Truthy(Field(body, "description")))
    ensures (Destructurable(body) && Truthy(Field(body, "type")) && Truthy(Field(body, "title"))
             && Truthy(Field(body, "description"))) ==> r.Ok?
    ensures r.Ok? ==>
      && Destructurable(body)
      && r.body.id == now && r.body.date == date
      && Some(r.body.kind) == Field(body, "type") && Some(r.body.title) == Field(body, "title")
      && (Truthy(Field(body, "version")) ==> Some(r.body.version) == Field(body, "version"))
      && (!Truthy(Field(body, "version")) ==> r.body.version == JStr("dev"))
      && (Field(body, "description").value.JArr? ==> r.body.description == Field(body, "description").value.items)
      && (!Field(body, "description").value.JArr? ==> r.body.description == [Field(body, "description").value])
  {
    if !Destructurable(body) then
      Error(500, "Cannot destructure property 'type' of 'req.body'")
    else
      var kind, title, description, version :=
        Field(body, "type"), Field(body, "title"), Field(body, "description"), Field(body, "version");
      if !Truthy(kind) || !Truthy(title) || !Truthy(description) then
        Error(400, "Campos obrigatórios: type, title, description")
      else
        Ok(Update(now, date,
                  if Truthy(version) then version.value else JStr("dev"),
                  kind.value, title.value,
                  if description.value.JArr? then description.value.items else [description.value]))
  }
}
