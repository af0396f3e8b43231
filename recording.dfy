/** The recording service of `src/services/recording.js`: the module-level map of
    active recording timers, the output file names, and the catalog rows a finished
    capture adds. The ffmpeg subprocess is not run: its outcome is an input. */
module Recording {
  import opened Basics
  import opened Text
  import Catalog

  /** How the `exec` of one ffmpeg capture ended: its callback's `error` argument. */
  datatype ExecOutcome = ExecOk | ExecError(message: string)

  /** `new Date().toISOString().replace(/[:.]/g, '-')`, with the ISO text passed in. */
  function SanitizeTimestamp(iso: string): (r: string)
    ensures |r| == |iso|
    ensures ':' !in r && '.' !in r
    ensures forall i :: 0 <= i < |iso| && iso[i] != ':' && iso[i] != '.' ==> r[i] == iso[i]
    ensures forall i :: 0 <= i < |iso| && (iso[i] == ':' || iso[i] == '.') ==> r[i] == '-'
  {
    seq(|iso|, i requires 0 <= i < |iso| => if iso[i] == ':' || iso[i] == '.' then '-' else iso[i])
  }

  /** The name of a continuous segment: `${streamName}-${timestamp}.mp4`. */
  function ContinuousFileName(stream: string, iso: string): (r: string)
    ensures |r| == |stream| + |iso| + 5
    ensures StartsWith(r, stream + "-") && EndsWith(r, ".mp4")
    ensures r[|stream| + 1..|r| - 4] == SanitizeTimestamp(iso)
  {
    var r := stream + "-" + SanitizeTimestamp(iso) + ".mp4";
    assert r[..|stream| + 1] == stream + "-";
    assert r[|r| - 4..] == ".mp4";
    r
  }

  /** The name of a manual capture: `${camera}-manual-${timestamp}.mp4`. */
  function ManualFileName(camera: string, iso: string): (r: string)
    ensures |r| == |camera| + |iso| + 12
    ensures StartsWith(r, camera + "-manual-") && EndsWith(r, ".mp4")
    ensures r[|camera| + 8..|r| - 4] == SanitizeTimestamp(iso)
  {
    var r := camera + "-manual-" + SanitizeTimestamp(iso) + ".mp4";
    assert r[..|camera| + 8] == camera + "-manual-";
    assert r[|r| - 4..] == ".mp4";
    r
  }

  /** `path.join(dir, name)` for a directory without a trailing separator. */
  function JoinPath(dir: string, name: string): string {
    dir + "/" + name
  }

  /** `path.basename(p)`: the text after the last `/`. */
  function Basename(p: string): (r: string)
    ensures '/' !in r
    ensures EndsWith(p, r)
    ensures |r| < |p| ==> p[|p| - |r| - 1] == '/'
  {
    if p == [] then []
    else if p[|p| - 1] == '/' then []
    else
      var r := Basename(p[..|p| - 1]) + [p[|p| - 1]];
      assert p[..|p| - 1][|p| - |r|..] == p[|p| - |r|..|p| - 1];
      assert p[|p| - |r|..] == p[..|p| - 1][|p| - |r|..] + [p[|p| - 1]];
      r
  }

  /** The file name stored in the catalog is the name the output was given, when that name
      holds no separator (stream names are path segments). */
  lemma {:induction false} BasenameOfJoin(dir: string, name: string)
    requires '/' !in name
    ensures Basename(JoinPath(dir, name)) == name
  {
    var p := JoinPath(dir, name);
    if name != [] {
      var init := name[..|name| - 1];
      assert p[..|p| - 1] == JoinPath(dir, init);
      assert p[|p| - 1] == name[|name| - 1];
      BasenameOfJoin(dir, init);
      assert init + [name[|name| - 1]] == name;
    }
  }

  /** The property names every plain `{}` inherits from `Object.prototype`. Reading one of them
      from `recordingTimers` gives a truthy value although no timer was ever stored under it. */
  const InheritedNames: set<string> := {
    "constructor", "toString", "toLocaleString", "valueOf", "hasOwnProperty", "isPrototypeOf",
    "propertyIsEnumerable", "__proto__", "__defineGetter__", "__defineSetter__",
    "__lookupGetter__", "__lookupSetter__"
  }

  /** `recordingTimers[stream]` is truthy: an own timer, or an inherited property. */
  predicate HasTimer(timers: map<string, nat>, stream: string) {
    stream in timers || stream in InheritedNames
  }

  /** `recordingTimers` with `startContinuousRecording` applied: a stream that has a timer keeps it,
      and a stream named like an inherited property is never armed. */
  function Started(timers: map<string, nat>, stream: string, handle: nat): (r: map<string, nat>)
    ensures stream in r <==> stream in timers || stream !in InheritedNames
    ensures HasTimer(timers, stream) ==> r == timers
    ensures !HasTimer(timers, stream) ==> r[stream] == handle
    ensures forall s :: s != stream ==> (s in r <==> s in timers)
    ensures forall s :: s in timers ==> s in r && r[s] == timers[s]
  {
    if HasTimer(timers, stream) then timers else timers[stream := handle]
  }

  /** `recordingTimers` with `stopRecording` applied. */
  function Stopped(timers: map<string, nat>, stream: string): (r: map<string, nat>)
    ensures stream !in r
    ensures forall s :: s != stream ==> (s in r <==> s in timers)
    ensures forall s :: s in r ==> r[s] == timers[s]
  {
    timers - {stream}
  }

  /** Starting twice is starting once, whatever handle the second `setInterval` would have made. */
  lemma StartIdempotent(timers: map<string, nat>, stream: string, h1: nat, h2: nat)
    ensures Started(Started(timers, stream, h1), stream, h2) == Started(timers, stream, h1)
  {
  }

  /** Only own streams ever hold timers: starting and stopping keep inherited names out of the map,
      and starting a stream named like one of them arms nothing. */
  lemma {:induction false} OwnStreamsOnly(timers: map<string, nat>, stream: string, h: nat)
    requires forall s :: s in timers ==> s !in InheritedNames
    ensures forall s :: s in Started(timers, stream, h) ==> s !in InheritedNames
    ensures forall s :: s in Stopped(timers, stream) ==> s !in InheritedNames
    ensures stream in InheritedNames ==> Started(timers, stream, h) == timers
    ensures stream in InheritedNames ==> Stopped(timers, stream) == timers
  {
    if stream in InheritedNames {
      assert stream !in timers;
      assert Stopped(timers, stream) == timers;
    }
  }

  /** Stopping a stream that has no timer changes nothing; stopping undoes a fresh start. */
  lemma StopUndoesStart(timers: map<string, nat>, stream: string, h: nat)
    ensures stream !in timers ==> Stopped(timers, stream) == timers
    ensures stream !in timers ==> Stopped(Started(timers, stream, h), stream) == timers
  {
    if stream !in timers {
      assert Stopped(timers, stream) == timers;
      assert Stopped(Started(timers, stream, h), stream) == timers;
    }
  }

  /** The recording service; `timers` is the module-level `recordingTimers` object (stream name to
      interval handle) and `db` the catalog module it writes to. */
  class RecordingService {
    var timers: map<string, nat>
    var nextHandle: nat
    const db: Catalog.VideoCatalog
    const recordingsDir: string

    constructor (db: Catalog.VideoCatalog, recordingsDir: string)
      ensures timers == map[] && this.db == db && this.recordingsDir == recordingsDir
    {
      timers := map[];
      nextHandle := 0;
      this.db := db;
      this.recordingsDir := recordingsDir;
    }

    /** `startContinuousRecording(streamName)`: arms a 60 s interval unless `recordingTimers[streamName]`
        is already truthy. */
    method StartContinuousRecording(stream: string)
      modifies this`timers, this`nextHandle
      ensures timers == Started(old(timers), stream, old(nextHandle))
      ensures old(HasTimer(timers, stream)) ==> nextHandle == old(nextHandle)
    {
      if HasTimer(timers, stream) {
        return;
      }
      timers := timers[stream := nextHandle];
      nextHandle := nextHandle + 1;
    }

    /** `stopRecording(streamName)`: clears and forgets the stream's interval, if any. */
    method StopRecording(stream: string)
      modifies this`timers
      ensures timers == Stopped(old(timers), stream)
    {
      if stream in timers {
        timers := timers - {stream};
      }
    }

    /** One tick of the continuous interval: the capture named after `iso` ran with `outcome`;
        on success the segment is catalogued with `salvar = false` at time `now`. */
    method RecordSegment(stream: string, iso: string, outcome: ExecOutcome, now: int)
      requires db.Valid()
      modifies db
      ensures db.Valid()
      ensures outcome.ExecOk? ==>
        var file := JoinPath(recordingsDir, ContinuousFileName(stream, iso));
        db.rows == old(db.rows) + [Catalog.Video(old(db.nextId), Basename(file), file, now, false)]
      ensures outcome.ExecOk? ==> db.nextId == old(db.nextId) + 1
      ensures outcome.ExecError? ==> db.rows == old(db.rows) && db.nextId == old(db.nextId)
    {
      var outputFile := JoinPath(recordingsDir, ContinuousFileName(stream, iso));
      match outcome
      case ExecError(_) =>
      case ExecOk =>
        db.SaveVideo(Basename(outputFile), outputFile, now);
    }

    /** `saveManualRecording(camera)`: resolves to the file's base name after cataloguing it with
        `salvar = true`; rejects with the exec error and catalogues nothing. */
    method SaveManualRecording(camera: string, iso: string, outcome: ExecOutcome, now: int)
      returns (r: Result<string, string>)
      requires db.Valid()
      modifies db
      ensures db.Valid()
      ensures r.Success? <==> outcome.ExecOk?
      ensures outcome.ExecOk? ==>
        var file := JoinPath(recordingsDir, ManualFileName(camera, iso));
        && r.value == Basename(file)
        && db.rows == old(db.rows) + [Catalog.Video(old(db.nextId), Basename(file), file, now, true)]
        && db.nextId == old(db.nextId) + 1
      ensures outcome.ExecError? ==>
        r == Failure(outcome.message) && db.rows == old(db.rows) && db.nextId == old(db.nextId)
    {
      var outputFile := JoinPath(recordingsDir, ManualFileName(camera, iso));
      match outcome
      case ExecError(message) =>
        r := Failure(message);
      case ExecOk =>
        db.SaveVideo(Basename(outputFile), outputFile, now, true);
        r := Success(Basename(outputFile));
    }
  }

  /** A manual capture of a camera whose name holds no `/` resolves to exactly `<camera>-manual-<ts>.mp4`. */
  lemma ManualNameRoundTrip(dir: string, camera: string, iso: string)
    requires '/' !in camera && '/' !in iso
    ensures Basename(JoinPath(dir, ManualFileName(camera, iso))) == ManualFileName(camera, iso)
  {
    var name := ManualFileName(camera, iso);
    forall i | 0 <= i < |name| ensures name[i] != '/' {
      var ts := SanitizeTimestamp(iso);
      assert name == camera + "-manual-" + ts + ".mp4";
      if i >= |camera| + 8 && i < |camera| + 8 + |ts| {
        assert name[i] == ts[i - |camera| - 8];
        assert iso[i - |camera| - 8] != '/';
      }
    }
    BasenameOfJoin(dir, name);
  }
}
