/** The decision logic of `check-camera.js`: the camera name, the elapsed-time line, the
    diagnosis cascade, the suggestion blocks and the error report of `checkCameraStatus`.
    The HTTP request and the clock are parameters. */
module CameraCheck {
  import opened Basics
  import opened Text

  const DefaultCamera: string := "camera5"
  const ServerUrl: string := "http://localhost:8000"

  /** `process.argv[2] || 'camera5'`: a missing or empty argument selects the default camera. */
  function CameraName(arg: Option<string>): (name: string)
    ensures name != []
    ensures arg.Some? && arg.value != [] ==> name == arg.value
    ensures arg.None? || arg.value == [] ==> name == DefaultCamera
  {
    if arg.Some? && arg.value != [] then arg.value else DefaultCamera
  }

  /** The status endpoint asked for one camera. */
  function StatusUrl(camera: string): (url: string)
    ensures StartsWith(url, ServerUrl + "/api/camera-status/")
    ensures url[|ServerUrl + "/api/camera-status/"|..] == camera
  {
    ServerUrl + "/api/camera-status/" + camera
  }

  /** The "Última atividade" line: never seen, or the time since then in one unit. */
  datatype Elapsed = Never | Seconds(n: int) | Minutes(n: int) | Hours(n: int)

  /** `Math.floor((now - lastSeen) / 1000)`, with times in milliseconds. Dafny's division by a
      positive divisor rounds down, as `Math.floor` does, also for a `lastSeen` in the future. */
  function SecondsSince(lastSeen: int, now: int): (t: int)
    ensures t * 1000 <= now - lastSeen < (t + 1) * 1000
  {
    (now - lastSeen) / 1000
  }

  /** A falsy `lastSeen` (absent, or the epoch 0) prints "Nunca"; otherwise the elapsed seconds
      are shown in seconds below one minute, in whole minutes below one hour, else in whole hours. */
  function ElapsedSince(lastSeen: Option<int>, now: int): (r: Elapsed)
    ensures r.Never? <==> lastSeen.None? || lastSeen.value == 0
    ensures r.Seconds? ==> r.n < 60 && r.n == SecondsSince(lastSeen.value, now)
    ensures r.Minutes? ==>
      (1 <= r.n < 60 && r.n * 60 <= SecondsSince(lastSeen.value, now) < (r.n + 1) * 60)
    ensures r.Hours? ==>
      (1 <= r.n && r.n * 3600 <= SecondsSince(lastSeen.value, now) < (r.n + 1) * 3600)
    ensures !r.Never? ==>
      (r.Seconds? <==> SecondsSince(lastSeen.value, now) < 60) &&
      (r.Hours? <==> SecondsSince(lastSeen.value, now) >= 3600)
  {
    match lastSeen
    case None => Never
    case Some(ms) =>
      if ms == 0 then Never
      else
        var t := SecondsSince(ms, now);
        if t < 60 then Seconds(t)
        else if t < 3600 then Minutes(t / 60)
        else Hours(t / 3600)
  }

  /** The unit rank of a shown elapsed time. */
  function UnitRank(e: Elapsed): nat {
    match e
    case Never => 0
    case Seconds(_) => 1
    case Minutes(_) => 2
    case Hours(_) => 3
  }

  /** Asking later never shows a smaller unit, nor a smaller amount in the same unit. */
  lemma ElapsedGrowsWithTime(lastSeen: Option<int>, now1: int, now2: int)
    requires now1 <= now2
    ensures var a, b := ElapsedSince(lastSeen, now1), ElapsedSince(lastSeen, now2);
      UnitRank(a) <= UnitRank(b) && (UnitRank(a) == UnitRank(b) && !a.Never? ==> a.n <= b.n)
  {
  }

  /** The one diagnosis line the cascade prints, if any. */
  datatype Diagnosis =
    | WorkingNormally
    | ConnectedWithoutStream
    | RecentFilesButDisconnected
    | Offline
    | NoDiagnosis

  /** The `if`/`else if` chain over the status flags: each line has its exact condition, so at
      most one is printed, and streaming with recent activity is normal whatever the connection. */
  function Diagnose(isConnected: bool, isStreaming: bool, hasRecentActivity: bool): (d: Diagnosis)
    ensures d == WorkingNormally <==> isStreaming && hasRecentActivity
    ensures d == ConnectedWithoutStream <==> isConnected && !isStreaming
    ensures d == RecentFilesButDisconnected <==> !isConnected && !isStreaming && hasRecentActivity
    ensures d == Offline <==> !isConnected && !hasRecentActivity
    ensures d == NoDiagnosis <==> isConnected && isStreaming && !hasRecentActivity
  {
    if isStreaming && hasRecentActivity then WorkingNormally
    else if isConnected && !isStreaming then ConnectedWithoutStream
    else if !isConnected && hasRecentActivity then RecentFilesButDisconnected
    else if !isConnected && !hasRecentActivity then Offline
    else NoDiagnosis
  }

  /** The two blocks of next steps. */
  datatype Suggestion =
    | CheckCameraSide(camera: string)  // stream target, network, stream key
    | CheckTranscoder                  // FFmpeg logs, codec test, orphan processes

  /** The suggestion blocks printed: the camera-side block iff disconnected, the transcoder block
      iff connected without recent activity; never both. */
  function Suggestions(camera: string, isConnected: bool, hasRecentActivity: bool): (r: seq<Suggestion>)
    ensures |r| <= 1
    ensures CheckCameraSide(camera) in r <==> !isConnected
    ensures CheckTranscoder in r <==> isConnected && !hasRecentActivity
    ensures r == [] <==> isConnected && hasRecentActivity
  {
    (if !isConnected then [CheckCameraSide(camera)] else []) +
    (if isConnected && !hasRecentActivity then [CheckTranscoder] else [])
  }

  /** The fields of a successful answer that the report reads. */
  datatype CameraStatus = CameraStatus(
    isConnected: bool, isStreaming: bool, lastSeen: Option<int>, hasRecentActivity: bool)

  /** What `axios.get` gives: a refused connection, an HTTP error status, any other failure,
      or the JSON body. */
  datatype Fetch =
    | Refused
    | HttpError(status: int, message: string)
    | OtherFailure(message: string)
    | Answered(success: bool, error: string, camera: CameraStatus)

  /** The outcome `checkCameraStatus` prints. */
  datatype Report =
    | ServerDown
    | CameraNotFound(camera: string)
    | Failed(message: string)
    | ApiError(error: string)
    | StatusReport(elapsed: Elapsed, diagnosis: Diagnosis, suggestions: seq<Suggestion>)

  /** `checkCameraStatus`: errors are classified first by the refused connection, then by a 404;
      `success: false` reports the error without reading the status. */
  function CheckCameraStatus(camera: string, fetch: Fetch, now: int): (r: Report)
    ensures r == ServerDown <==> fetch.Refused?
    ensures r.CameraNotFound? <==> fetch.HttpError? && fetch.status == 404
    ensures r.CameraNotFound? ==> r.camera == camera
    ensures r.Failed? <==> fetch.OtherFailure? || (fetch.HttpError? && fetch.status != 404)
    ensures r.Failed? ==> r.message == fetch.message
    ensures r.ApiError? <==> fetch.Answered? && !fetch.success
    ensures r.ApiError? ==> r.error == fetch.error
    ensures r.StatusReport? <==> fetch.Answered? && fetch.success
    ensures r.StatusReport? ==>
      var s := fetch.camera;
      && r.elapsed == ElapsedSince(s.lastSeen, now)
      && r.diagnosis == Diagnose(s.isConnected, s.isStreaming, s.hasRecentActivity)
      && r.suggestions == Suggestions(camera, s.isConnected, s.hasRecentActivity)
  {
    match fetch
    case Refused => ServerDown
    case HttpError(status, message) =>
      if status == 404 then CameraNotFound(camera) else Failed(message)
    case OtherFailure(message) => Failed(message)
    case Answered(success, error, s) =>
      if !success then ApiError(error)
      else
        StatusReport(
          ElapsedSince(s.lastSeen, now),
          Diagnose(s.isConnected, s.isStreaming, s.hasRecentActivity),
          Suggestions(camera, s.isConnected, s.hasRecentActivity))
  }

  /** A healthy camera gets the normal diagnosis and no next steps; a camera seen a minute and
      a half ago shows "1 minutos". */
  lemma HealthyCameraReport(camera: string, seen: int)
    requires seen != 0
    ensures CheckCameraStatus(camera, Answered(true, "", CameraStatus(true, true, Some(seen), true)), seen + 90000)
      == StatusReport(Minutes(1), WorkingNormally, [])
  {
    assert SecondsSince(seen, seen + 90000) == 90;
  }
}
