/** The ffmpeg locator of `src/utils/ffmpeg-manager.js`. The operating system is not called:
    `fs.existsSync` is the oracle `fileExists`, `execSync` is the oracle `exec` (the command's
    standard output, or `None` when it throws), and the value `require('ffmpeg-static')`
    produced is the input `staticModule` (`None` when it is null, undefined or the require throws). */
module FFmpegLocator {
  import opened Basics
  import opened Text

  /** Why `getFFmpegPath` / `getFFmpegCommand` throw: the guard, or `.includes` read on a null path. */
  datatype LocatorError = NotInitialized | NullPath

  predicate IsWindows(platform: string) {
    platform == "win32"
  }

  /** `getSystemFFmpegPaths()`: the candidates tried, in order. */
  function SystemFFmpegPaths(platform: string): (r: seq<string>)
    ensures |r| == 5 && forall i :: 0 <= i < |r| ==> r[i] != ""
    ensures r[0] == if IsWindows(platform) then "ffmpeg.exe" else "ffmpeg"
  {
    if IsWindows(platform) then
      ["ffmpeg.exe", "ffmpeg", "C:\\ffmpeg\\bin\\ffmpeg.exe",
       "C:\\Program Files\\ffmpeg\\bin\\ffmpeg.exe", "C:\\ProgramData\\chocolatey\\bin\\ffmpeg.exe"]
    else
      ["ffmpeg", "/usr/bin/ffmpeg", "/usr/local/bin/ffmpeg", "/opt/homebrew/bin/ffmpeg", "/snap/bin/ffmpeg"]
  }

  /** `where <p>` on Windows, `which <p>` elsewhere. */
  function ProbeCommand(platform: string, p: string): string {
    (if IsWindows(platform) then "where " else "which ") + p
  }

  /** A candidate is found when its probe command does not throw. */
  function Probe(platform: string, exec: string -> Option<string>): string -> bool {
    (p: string) => exec(ProbeCommand(platform, p)).Some?
  }

  /** The search of `trySystemFFmpeg`: the first candidate whose probe succeeds. */
  function FirstFound(paths: seq<string>, probe: string -> bool): (r: Option<string>)
    ensures r.Some? ==> exists i :: 0 <= i < |paths| && paths[i] == r.value && probe(paths[i])
                                    && forall j :: 0 <= j < i ==> !probe(paths[j])
    ensures r.None? <==> forall i :: 0 <= i < |paths| ==> !probe(paths[i])
  {
    if paths == [] then None
    else if probe(paths[0]) then Some(paths[0])
    else
      var r := FirstFound(paths[1..], probe);
      assert r.Some? ==> exists i :: 0 <= i < |paths| && paths[i] == r.value && probe(paths[i])
                                     && forall j :: 0 <= j < i ==> !probe(paths[j]) by {
        if r.Some? {
          var i :| 0 <= i < |paths[1..]| && paths[1..][i] == r.value && probe(paths[1..][i])
                   && forall j :: 0 <= j < i ==> !probe(paths[1..][j]);
          assert forall j :: 0 <= j < i + 1 ==> !probe(paths[j]) by {
            forall j | 0 <= j < i + 1 ensures !probe(paths[j]) {
              if j > 0 { assert paths[j] == paths[1..][j - 1]; }
            }
          }
        }
      }
      assert r.None? <==> forall i :: 0 <= i < |paths| ==> !probe(paths[i]) by {
        assert forall i :: 0 < i < |paths| ==> paths[i] == paths[1..][i - 1];
      }
      r
  }

  /** On Windows a static path with a space is wrapped in double quotes. */
  function QuoteStatic(platform: string, p: string): (r: string)
    ensures IsWindows(platform) && Contains(p, " ") ==> r == "\"" + p + "\""
    ensures !(IsWindows(platform) && Contains(p, " ")) ==> r == p
  {
    if IsWindows(platform) && Contains(p, " ") then "\"" + p + "\"" else p
  }

  /** `p.replace(/"/g, '')`. */
  function StripQuotes(p: string): (r: string)
    ensures '"' !in r
    ensures |r| <= |p|
    ensures '"' !in p ==> r == p
  {
    if p == [] then []
    else (if p[0] == '"' then [] else [p[0]]) + StripQuotes(p[1..])
  }

  /** Stripping the quotes gives back the path the static module reported, when it had none. */
  lemma {:induction false} StripQuotesUndoesQuote(platform: string, p: string)
    requires '"' !in p
    ensures StripQuotes(QuoteStatic(platform, p)) == p
  {
    if IsWindows(platform) && Contains(p, " ") {
      var q := "\"" + p + "\"";
      assert q == ['"'] + (p + ['"']);
      assert StripQuotes(q) == StripQuotes(p + ['"']);
      StripQuotesAppend(p, ['"']);
    }
  }

  lemma {:induction false} StripQuotesAppend(a: string, b: string)
    ensures StripQuotes(a + b) == StripQuotes(a) + StripQuotes(b)
  {
    if a != [] {
      var ab := a + b;
      assert ab[0] == a[0] && ab[1..] == a[1..] + b;
      StripQuotesAppend(a[1..], b);
      var head := if a[0] == '"' then [] else [a[0]];
      assert StripQuotes(ab) == head + StripQuotes(a[1..] + b);
      assert StripQuotes(a) == head + StripQuotes(a[1..]);
    } else {
      assert a + b == b;
    }
  }

  /** `tryFFmpegStatic()`: the (possibly quoted) static path, if the module gave a non-empty path
      whose unquoted form exists on disk. */
  function TryStatic(platform: string, staticModule: Option<string>, fileExists: string -> bool): (r: Option<string>)
    ensures r.Some? <==> staticModule.Some? && staticModule.value != ""
                         && fileExists(StripQuotes(QuoteStatic(platform, staticModule.value)))
    ensures r.Some? ==> r.value == QuoteStatic(platform, staticModule.value)
  {
    match staticModule
    case None => None
    case Some(p) =>
      if p == "" then None
      else
        var quoted := QuoteStatic(platform, p);
        if fileExists(StripQuotes(quoted)) then Some(quoted) else None
  }

  /** What `initialize` leaves in `ffmpegPath`: the static path, and only when there is none the
      system search. */
  function Locate(platform: string, staticModule: Option<string>, fileExists: string -> bool,
                  exec: string -> Option<string>): (r: Option<string>)
    ensures TryStatic(platform, staticModule, fileExists).Some? ==> r == TryStatic(platform, staticModule, fileExists)
    ensures TryStatic(platform, staticModule, fileExists).None? ==>
      r == FirstFound(SystemFFmpegPaths(platform), Probe(platform, exec))
    ensures r.Some? ==> r.value != ""
  {
    match TryStatic(platform, staticModule, fileExists)
    case Some(p) => Some(p)
    case None => FirstFound(SystemFFmpegPaths(platform), Probe(platform, exec))
  }

  /** The `-version` command of `validateFFmpeg`: the path is quoted except on Windows. */
  function VersionCommand(platform: string, path: string): string {
    if IsWindows(platform) then path + " -version" else "\"" + path + "\" -version"
  }

  function CodecsCommand(path: string): string {
    path + " -codecs"
  }

  /** The two flags `validateFFmpeg` logs. */
  datatype CodecSupport = CodecSupport(hasH264: bool, hasAAC: bool)

  /** The codec flags of a `-codecs` listing. */
  function CodecsIn(listing: string): (r: CodecSupport)
    ensures r.hasH264 <==> Contains(listing, "libx264") || Contains(listing, "h264")
    ensures r.hasAAC <==> Contains(listing, "aac")
  {
    CodecSupport(Contains(listing, "libx264") || Contains(listing, "h264"), Contains(listing, "aac"))
  }

  /** `validateFFmpeg()`: `None` when either command throws; missing codecs only warn. */
  function Validate(platform: string, path: string, exec: string -> Option<string>): (r: Option<CodecSupport>)
    ensures r.Some? <==> exec(VersionCommand(platform, path)).Some? && exec(CodecsCommand(path)).Some?
    ensures r.Some? ==> r.value == CodecsIn(exec(CodecsCommand(path)).value)
  {
    if exec(VersionCommand(platform, path)).None? then None
    else match exec(CodecsCommand(path))
      case None => None
      case Some(listing) => Some(CodecsIn(listing))
  }

  /** The path `getFFmpegCommand` returns for a located path. */
  function CommandPath(platform: string, p: string): (r: string)
    ensures r != p <==> IsWindows(platform) && Contains(p, " ") && !StartsWith(p, "\"")
    ensures r != p ==> r == "\"" + p + "\""
  {
    if IsWindows(platform) && Contains(p, " ") && !StartsWith(p, "\"") then "\"" + p + "\"" else p
  }

  /** A static path is never quoted twice. */
  lemma CommandPathKeepsQuotedStatic(platform: string, p: string)
    ensures CommandPath(platform, QuoteStatic(platform, p)) == QuoteStatic(platform, p)
  {
    var q := QuoteStatic(platform, p);
    if IsWindows(platform) && Contains(p, " ") {
      assert q[..1] == "\"";
    }
  }

  /** The Windows system path under `Program Files` is found unquoted and quoted on use. */
  lemma ProgramFilesPathIsQuoted()
    ensures var p := SystemFFmpegPaths("win32")[3];
      CommandPath("win32", p) == "\"" + p + "\""
  {
    var p := SystemFFmpegPaths("win32")[3];
    assert p[10] == ' ';
    assert p[10..11] == " ";
    assert OccursAt(p, " ", 10);
    assert p[0] != '"';
  }

  /** The locator: `ffmpegPath` is `None` for `null`. */
  class FFmpegManager {
    const platform: string
    var ffmpegPath: Option<string>
    var isInitialized: bool

    /** `new FFmpegManager()`, with `os.platform()` passed in. */
    constructor (platform: string)
      ensures this.platform == platform && ffmpegPath == None && !isInitialized
    {
      this.platform := platform;
      ffmpegPath := None;
      isInitialized := false;
    }

    /** `trySystemFFmpeg()`: tries the candidates in order and stops at the first probe that succeeds. */
    method TrySystemFFmpeg(exec: string -> Option<string>) returns (r: Option<string>)
      ensures r == FirstFound(SystemFFmpegPaths(platform), Probe(platform, exec))
    {
      var paths := SystemFFmpegPaths(platform);
      var i := 0;
      while i < |paths|
        invariant 0 <= i <= |paths|
        invariant forall j :: 0 <= j < i ==> !Probe(platform, exec)(paths[j])
      {
        if exec(ProbeCommand(platform, paths[i])).Some? {
          assert Probe(platform, exec)(paths[i]);
          return Some(paths[i]);
        }
        i := i + 1;
      }
      return None;
    }

    /** `initialize()`: never throws; true when a path was found and validated. A failed call leaves
        an earlier success in place, since nothing resets `isInitialized`. */
    method Initialize(staticModule: Option<string>, fileExists: string -> bool,
                      exec: string -> Option<string>) returns (ok: bool)
      modifies this`ffmpegPath, this`isInitialized
      ensures ffmpegPath == Locate(platform, staticModule, fileExists, exec)
      ensures ok <==> ffmpegPath.Some? && Validate(platform, ffmpegPath.value, exec).Some?
      ensures isInitialized == (old(isInitialized) || ok)
    {
      ffmpegPath := TryStatic(platform, staticModule, fileExists);
      if ffmpegPath.None? {
        ffmpegPath := TrySystemFFmpeg(exec);
      }
      if ffmpegPath.Some? {
        if Validate(platform, ffmpegPath.value, exec).None? {
          return false;
        }
        isInitialized := true;
        return true;
      }
      return false;
    }

    /** `FFmpegManager.create()`. */
    static method Create(platform: string, staticModule: Option<string>, fileExists: string -> bool,
                         exec: string -> Option<string>) returns (m: FFmpegManager)
      ensures fresh(m) && m.platform == platform
      ensures m.ffmpegPath == Locate(platform, staticModule, fileExists, exec)
      ensures m.isInitialized <==> m.ffmpegPath.Some? && Validate(platform, m.ffmpegPath.value, exec).Some?
    {
      m := new FFmpegManager(platform);
      var _ := m.Initialize(staticModule, fileExists, exec);
    }

    /** `getFFmpegPath()`: throws unless initialised. */
    function GetFFmpegPath(): (r: Result<Option<string>, LocatorError>)
      reads this
      ensures r.Failure? <==> !isInitialized
      ensures r.Failure? ==> r.error == NotInitialized
      ensures r.Success? ==> r.value == ffmpegPath
    {
      if !isInitialized then Failure(NotInitialized) else Success(ffmpegPath)
    }

    /** `getFFmpegCommand()`: the path, quoted on Windows when it has a space and no leading quote. */
    function GetFFmpegCommand(): (r: Result<Option<string>, LocatorError>)
      reads this
      ensures !isInitialized ==> r == Failure(NotInitialized)
      ensures isInitialized && ffmpegPath.Some? ==> r == Success(Some(CommandPath(platform, ffmpegPath.value)))
      ensures isInitialized && ffmpegPath.None? ==>
        r == if IsWindows(platform) then Failure(NullPath) else Success(None)
    {
      match GetFFmpegPath()
      case Failure(e) => Failure(e)
      case Success(None) => if IsWindows(platform) then Failure(NullPath) else Success(None)
      case Success(Some(p)) => Success(Some(CommandPath(platform, p)))
    }
  }
}
