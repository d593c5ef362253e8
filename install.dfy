/**
 * The postinstall script of scripts/install.js: release naming, the step sequence
 * of `main` on a file system, and `cleanup`.
 *
 * The file system is a map from path to entry, held by a `FileSystem` object that
 * `RunPostinstall` changes step by step. Everything else the script consults on the host is
 * an input (`Host`): the platform, the package version, the module resolver, the
 * two token variables, the server's replies, and the outcome of each foreign call
 * (the `--version` checks, the archive extraction, and whether `mkdirSync`,
 * `renameSync`, `chmodSync` and `unlinkSync` succeed). `Postinstall` is the same
 * sequence as a function of the old disk; `RunPostinstall` is proved to follow it.
 */
module Install {
  import opened Wrappers
  import opened Platform
  import Download

  const GitHubOwner: string := "davestepanyan"
  const GitHubRepo: string := "varpet-core"

  /** Mode a write stream creates a file with (0o666, before the umask). */
  const CreateMode: int := 0x1B6
  /** Mode `mkdirSync` creates a directory with (0o777, before the umask). */
  const DirMode: int := 0x1FF
  /** `chmodSync(targetPath, 0o755)`. */
  const ExecutableMode: int := 0x1ED

  datatype Entry = File(contents: seq<Download.Byte>, mode: int) | Directory(mode: int)

  function WithMode(e: Entry, mode: int): (e': Entry)
    ensures e'.mode == mode && e'.File? == e.File?
    ensures e.File? ==> e'.contents == e.contents
  {
    e.(mode := mode)
  }

  // ---------------------------------------------------------------------------
  // Release naming
  // ---------------------------------------------------------------------------

  function ArchiveExt(info: PlatformInfo): string {
    if IsWindows(info.platform) then "zip" else "tar.gz"
  }

  function ArchiveName(info: PlatformInfo): string {
    "varpet-" + info.platform + "." + ArchiveExt(info)
  }

  /** The releases page of the repository. */
  function ReleasesUrl(): string {
    "https://github.com/" + GitHubOwner + "/" + GitHubRepo + "/releases/download/"
  }

  function DownloadUrl(version: string, info: PlatformInfo): string {
    ReleasesUrl() + "v" + version + "/" + ArchiveName(info)
  }

  /** Where the archive is downloaded to. */
  function ArchivePath(info: PlatformInfo): string {
    InBin(ArchiveName(info))
  }

  /** The name the archive's binary has once extracted. */
  function ExtractedPath(info: PlatformInfo): string {
    InBin(if IsWindows(info.platform) then "varpet.exe" else "varpet")
  }

  /** The platform-suffixed name the binary is renamed to. */
  function TargetPath(info: PlatformInfo): string {
    InBin(if IsWindows(info.platform) then "varpet-" + info.platform + ".exe" else "varpet-" + info.platform)
  }

  /** The releases URL of the repository, spelled out. */
  lemma ReleasesUrlLiteral()
    ensures ReleasesUrl() == "https://github.com/davestepanyan/varpet-core/releases/download/"
  {
    var s1 := "https://github.com/" + "davestepanyan";
    assert s1 == "https://github.com/davestepanyan";
    var s2 := s1 + "/";
    assert s2 == "https://github.com/davestepanyan/";
    var s3 := s2 + "varpet-core";
    assert s3 == "https://github.com/davestepanyan/varpet-core";
    assert s3 + "/releases/download/" == "https://github.com/davestepanyan/varpet-core/releases/download/";
  }

  /** The URL is the release of tag `v<version>` and ends in the archive's file name; zip exactly on Windows. */
  lemma ReleaseNaming(version: string, info: PlatformInfo)
    ensures ArchiveName(info) == "varpet-" + info.platform + (if "win32" <= info.platform then ".zip" else ".tar.gz")
    ensures ArchivePath(info) == BinDir + "/" + ArchiveName(info)
    ensures DownloadUrl(version, info)
         == "https://github.com/davestepanyan/varpet-core/releases/download/v" + version + "/" + ArchiveName(info)
  {
    ReleasesUrlLiteral();
    var name := ArchiveName(info);
    var base := "https://github.com/davestepanyan/varpet-core/releases/download/";
    assert base + "v" == "https://github.com/davestepanyan/varpet-core/releases/download/v";
    assert DownloadUrl(version, info) == base + "v" + version + "/" + name;
  }

  /** The name the installer writes is the name the locator reads. */
  lemma TargetIsLocatorPath(info: PlatformInfo)
    ensures TargetPath(info) == LocalBinaryPath(info)
  {
  }

  /** The bin directory, the archive, the extracted binary and its target are four different paths. */
  lemma PathsDistinct(info: PlatformInfo)
    ensures BinDir != ArchivePath(info) && BinDir != ExtractedPath(info) && BinDir != TargetPath(info)
    ensures ArchivePath(info) != ExtractedPath(info)
    ensures ArchivePath(info) != TargetPath(info)
    ensures ExtractedPath(info) != TargetPath(info)
  {
    var p := info.platform;
    var archive, extracted, target := ArchivePath(info), ExtractedPath(info), TargetPath(info);
    assert |archive| > 10 && archive[10] == '-';
    assert |target| > 10 && target[10] == '-';
    if IsWindows(p) {
      assert extracted[10] == '.';
      var k := 4 + 7 + |p| + 1;
      assert archive[k] == 'z';
      assert target[k] == 'e';
    } else {
      assert |extracted| == 10;
      assert |archive| == |target| + 7;
    }
  }

  /** The paths a run of the installer may change. */
  function Touched(info: PlatformInfo): set<string> {
    {BinDir, ArchivePath(info), ExtractedPath(info), TargetPath(info)}
  }

  /** Two disks that agree on every path outside `paths`. */
  ghost predicate AgreeOutside(d: map<string, Entry>, d': map<string, Entry>, paths: set<string>) {
    forall p :: p !in paths ==> (p in d <==> p in d') && (p in d && p in d' ==> d[p] == d'[p])
  }

  // ---------------------------------------------------------------------------
  // The host and the run
  // ---------------------------------------------------------------------------

  /** What the archive extraction (`tar -xzf` or `Expand-Archive`) does. */
  datatype Extraction =
    | ExtractError
    | Extracted(binary: Option<Entry>)  // the entry left at the extracted binary's path, if any

  datatype Host = Host(
    os: string, arch: string, version: string,
    modules: map<string, string>,
    existingRuns: bool,               // `<existing> --version` succeeds within the timeout
    githubToken: Option<string>, ghToken: Option<string>,
    replies: seq<Download.Reply>, writeOk: bool,
    extraction: Extraction,
    mkdirOk: bool, renameOk: bool, chmodOk: bool, unlinkOk: bool,
    installedRuns: bool)              // `<target> --version` succeeds within the timeout

  /** A step whose exception escapes `main` and is caught by its top-level handler. */
  datatype Step = MakeBinDir | RenameBinary | MakeExecutable

  /** How a run of the script ends; every outcome is a log line, none fails the install. */
  datatype Outcome =
    | UnsupportedPlatform
    | AlreadyInstalled
    | DownloadFailed(failure: Download.Failure)
    | ExtractFailed
    | Crashed(step: Step)
    | Installed(verified: bool)

  datatype Run = Run(outcome: Outcome, requests: seq<Download.Request>, disk: map<string, Entry>)

  /** `cleanup(path)`: unlinks the path if it exists; a failed unlink (a directory, or `unlinkOk` false) is swallowed. */
  function Cleaned(disk: map<string, Entry>, path: string, unlinkOk: bool): (d: map<string, Entry>)
    ensures path in d <==> path in disk && !(disk[path].File? && unlinkOk)
    ensures AgreeOutside(disk, d, {path})
    ensures path in d ==> d[path] == disk[path]
  {
    if path in disk && disk[path].File? && unlinkOk then disk - {path} else disk
  }

  /** The download's effect on its destination: the body, or nothing after a failed write. */
  function Stored(disk: map<string, Entry>, path: string, outcome: Download.Result): (d: map<string, Entry>)
    ensures outcome.Saved? ==> path in d && d[path] == File(outcome.body, CreateMode)
    ensures outcome == Download.Failed(Download.WriteFailed) ==> path !in d
    ensures outcome.Failed? && outcome.failure != Download.WriteFailed ==> d == disk
    ensures AgreeOutside(disk, d, {path})
  {
    match outcome
    case Saved(body) => disk[path := File(body, CreateMode)]
    case Failed(failure) => if failure == Download.WriteFailed then disk - {path} else disk
  }

  /** The download the script starts for this platform and host. */
  function StartDownload(info: PlatformInfo, h: Host): (t: Download.Trace)
    ensures 1 <= |t.requests| <= Download.DefaultMaxRedirects
    ensures t.requests[0] == Download.Request(DownloadUrl(h.version, info), Download.Authorization(Download.BearerToken(h.githubToken, h.ghToken)))
  {
    Download.Fetch(DownloadUrl(h.version, info), Download.DefaultMaxRedirects,
      Download.Authorization(Download.BearerToken(h.githubToken, h.ghToken)), h.replies, h.writeOk)
  }

  /** Extraction, rename, chmod and cleanup, after a successful download. */
  function Place(disk: map<string, Entry>, info: PlatformInfo, h: Host): (run: Run)
    ensures run.requests == []
    ensures AgreeOutside(disk, run.disk, Touched(info))
    ensures run.outcome.Installed? || run.outcome == ExtractFailed || run.outcome.Crashed?
    ensures run.outcome == Installed(true) ==> TargetPath(info) in run.disk
  {
    PathsDistinct(info);
    var archive, extracted, target := ArchivePath(info), ExtractedPath(info), TargetPath(info);
    if h.extraction.ExtractError? then
      Run(ExtractFailed, [], Cleaned(disk, archive, h.unlinkOk))
    else
      var d1 := if h.extraction.binary.Some? then disk[extracted := h.extraction.binary.value] else disk;
      var moves := extracted in d1 && extracted != target;
      if moves && !h.renameOk then Run(Crashed(RenameBinary), [], d1)
      else
        var d2 := if moves then (d1 - {extracted})[target := d1[extracted]] else d1;
        var marks := !IsWindows(info.platform) && target in d2;
        if marks && !h.chmodOk then Run(Crashed(MakeExecutable), [], d2)
        else
          var d3 := if marks then d2[target := WithMode(d2[target], ExecutableMode)] else d2;
          // `<target> --version` can only succeed when the target exists
          Run(Installed(h.installedRuns && target in d3), [], Cleaned(d3, archive, h.unlinkOk))
  }

  /** The bin directory exists and the download is done: save the archive, then place the binary. */
  function Acquire(disk: map<string, Entry>, info: PlatformInfo, h: Host): (run: Run)
    ensures AgreeOutside(disk, run.disk, Touched(info))
  {
    var trace := StartDownload(info, h);
    var d := Stored(disk, ArchivePath(info), trace.outcome);
    if trace.outcome.Failed? then Run(DownloadFailed(trace.outcome.failure), trace.requests, d)
    else Place(d, info, h).(requests := trace.requests)
  }

  /** `main()` as a function of the old disk. */
  function Postinstall(disk: map<string, Entry>, h: Host): (run: Run)
    ensures GetPlatformInfo(h.os, h.arch).Some? ==> AgreeOutside(disk, run.disk, Touched(GetPlatformInfo(h.os, h.arch).value))
  {
    var info := GetPlatformInfo(h.os, h.arch);
    if info.None? then Run(UnsupportedPlatform, [], disk)
    else if GetBinaryPath(h.os, h.arch, h.modules, disk.Keys).Some? && h.existingRuns then Run(AlreadyInstalled, [], disk)
    else if BinDir !in disk && !h.mkdirOk then Run(Crashed(MakeBinDir), [], disk)
    else
      var d := if BinDir in disk then disk else disk[BinDir := Directory(DirMode)];
      Acquire(d, info.value, h)
  }

  // ---------------------------------------------------------------------------
  // Properties of a run
  // ---------------------------------------------------------------------------

  /** An unsupported platform: a warning, no request, no change. */
  lemma UnsupportedDoesNothing(disk: map<string, Entry>, h: Host)
    requires Key(h.os, h.arch) !in SupportedPlatforms
    ensures Postinstall(disk, h) == Run(UnsupportedPlatform, [], disk)
  {
  }

  /** A located binary that passes verification is kept: no request, no change. */
  lemma WorkingBinaryIsKept(disk: map<string, Entry>, h: Host)
    requires GetBinaryPath(h.os, h.arch, h.modules, disk.Keys).Some? && h.existingRuns
    ensures Postinstall(disk, h) == Run(AlreadyInstalled, [], disk)
  {
  }

  /** Nothing outside the bin directory, the archive, the extracted binary and the target ever changes. */
  lemma OnlyInstallPathsChange(disk: map<string, Entry>, h: Host)
    requires GetPlatformInfo(h.os, h.arch).Some?
    ensures AgreeOutside(disk, Postinstall(disk, h).disk, Touched(GetPlatformInfo(h.os, h.arch).value))
  {
  }

  /** Requests are made only by the download, and at most the default budget of them. */
  lemma RequestsOnlyWhenDownloading(disk: map<string, Entry>, h: Host)
    ensures var run := Postinstall(disk, h);
      && |run.requests| <= Download.DefaultMaxRedirects
      && (run.outcome in {UnsupportedPlatform, AlreadyInstalled, Crashed(MakeBinDir)} <==> run.requests == [])
  {
    var run := Postinstall(disk, h);
    var info := GetPlatformInfo(h.os, h.arch);
    if info.Some? {
      var trace := StartDownload(info.value, h);
      assert 1 <= |trace.requests| <= Download.DefaultMaxRedirects;
    }
  }

  /** A failed download stops before extraction: besides the bin directory, at most the archive path changes, and a failed write leaves no archive. */
  lemma DownloadFailureStopsEarly(disk: map<string, Entry>, h: Host)
    requires GetPlatformInfo(h.os, h.arch).Some?
    requires Postinstall(disk, h).outcome.DownloadFailed?
    ensures var info := GetPlatformInfo(h.os, h.arch).value;
      var run := Postinstall(disk, h);
      && AgreeOutside(disk, run.disk, {BinDir, ArchivePath(info)})
      && (run.outcome.failure == Download.WriteFailed ==> ArchivePath(info) !in run.disk)
      && (run.outcome.failure != Download.WriteFailed ==> AgreeOutside(disk, run.disk, {BinDir}))
  {
    var info := GetPlatformInfo(h.os, h.arch).value;
    PathsDistinct(info);
  }

  /**
   * A 200 reply after at most four redirects whose body cannot be written fails the
   * download with the write error, and the stream's error handler leaves no archive.
   */
  lemma WriteErrorLeavesNoArchive(disk: map<string, Entry>, h: Host)
    requires GetPlatformInfo(h.os, h.arch).Some?
    requires !(GetBinaryPath(h.os, h.arch, h.modules, disk.Keys).Some? && h.existingRuns)
    requires BinDir in disk || h.mkdirOk
    requires Download.LeadingRedirects(h.replies) <= 4 && Download.LeadingRedirects(h.replies) < |h.replies|
    requires h.replies[Download.LeadingRedirects(h.replies)].Response? && h.replies[Download.LeadingRedirects(h.replies)].status == 200
    requires !h.writeOk
    ensures var run := Postinstall(disk, h);
      run.outcome == DownloadFailed(Download.WriteFailed) && ArchivePath(GetPlatformInfo(h.os, h.arch).value) !in run.disk
  {
    var info := GetPlatformInfo(h.os, h.arch).value;
    var n := Download.LeadingRedirects(h.replies);
    Download.FetchClassified(DownloadUrl(h.version, info), Download.DefaultMaxRedirects,
      Download.Authorization(Download.BearerToken(h.githubToken, h.ghToken)), h.replies, h.writeOk);
    assert Download.NextReply(h.replies[n..]) == h.replies[n];
  }

  /** A failed extraction removes the downloaded archive and places no binary. */
  lemma ExtractFailureRemovesArchive(disk: map<string, Entry>, h: Host)
    requires GetPlatformInfo(h.os, h.arch).Some?
    requires Postinstall(disk, h).outcome == ExtractFailed && h.unlinkOk
    ensures var info := GetPlatformInfo(h.os, h.arch).value;
      var run := Postinstall(disk, h);
      ArchivePath(info) !in run.disk && AgreeOutside(disk, run.disk, {BinDir, ArchivePath(info)})
  {
    var info := GetPlatformInfo(h.os, h.arch).value;
    var d := if BinDir in disk then disk else disk[BinDir := Directory(DirMode)];
    var trace := StartDownload(info, h);
    assert Postinstall(disk, h) == Acquire(d, info, h);
    assert trace.outcome.Saved? && h.extraction.ExtractError?;
    var stored := Stored(d, ArchivePath(info), trace.outcome);
    assert Postinstall(disk, h).disk == Cleaned(stored, ArchivePath(info), h.unlinkOk);
  }

  /**
   * An install whose archive held the binary leaves it at the locator's local
   * path, executable off Windows, removes the extracted name and the archive, and
   * the locator then finds a binary.
   */
  lemma InstallPlacesBinaryForLocator(disk: map<string, Entry>, h: Host, b: Entry)
    requires GetPlatformInfo(h.os, h.arch).Some?
    requires Postinstall(disk, h).outcome.Installed? && h.extraction == Extracted(Some(b))
    ensures var info := GetPlatformInfo(h.os, h.arch).value;
      var d := Postinstall(disk, h).disk;
      && LocalBinaryPath(info) in d
      && d[LocalBinaryPath(info)] == (if IsWindows(info.platform) then b else WithMode(b, ExecutableMode))
      && ExtractedPath(info) !in d
      && (h.unlinkOk ==> ArchivePath(info) !in d)
      && GetBinaryPath(h.os, h.arch, h.modules, d.Keys).Some?
  {
    var info := GetPlatformInfo(h.os, h.arch).value;
    PathsDistinct(info);
    TargetIsLocatorPath(info);
  }

  /**
   * An archive without the binary, and no leftover `bin/varpet[.exe]`: nothing is
   * renamed, the target is there afterwards exactly when it was there before, and
   * with no target the verification fails.
   */
  lemma PlaceWithoutExtractedBinary(disk: map<string, Entry>, info: PlatformInfo, h: Host)
    requires h.extraction == Extracted(None) && ExtractedPath(info) !in disk
    ensures var run := Place(disk, info, h);
      && run.outcome != Crashed(RenameBinary)
      && (TargetPath(info) in run.disk <==> TargetPath(info) in disk)
      && (TargetPath(info) !in disk ==> run.outcome == Installed(false))
      && (IsWindows(info.platform) || h.chmodOk ==> run.outcome.Installed?)
  {
    PathsDistinct(info);
  }

  /** On Windows nothing is made executable: every entry left is an old one, moved or not, or the extracted one. */
  lemma PlaceOnWindowsKeepsModes(disk: map<string, Entry>, info: PlatformInfo, h: Host)
    requires IsWindows(info.platform)
    ensures var run := Place(disk, info, h);
      && run.outcome != Crashed(MakeExecutable)
      && forall p :: p in run.disk ==>
           || (p in disk && run.disk[p] == disk[p])
           || (p == TargetPath(info) && ExtractedPath(info) in disk && run.disk[p] == disk[ExtractedPath(info)])
           || (h.extraction.Extracted? && h.extraction.binary == Some(run.disk[p]))
  {
  }

  /** A run reported as installed and verified leaves a binary at the locator's local path. */
  lemma VerifiedInstallHasBinary(disk: map<string, Entry>, h: Host)
    requires GetPlatformInfo(h.os, h.arch).Some?
    requires Postinstall(disk, h).outcome == Installed(true)
    ensures LocalBinaryPath(GetPlatformInfo(h.os, h.arch).value) in Postinstall(disk, h).disk
  {
    TargetIsLocatorPath(GetPlatformInfo(h.os, h.arch).value);
  }

  /** Running the script again after such an install, with a binary that passes verification, makes no request and changes nothing. */
  lemma SecondRunIsNoOp(disk: map<string, Entry>, h: Host, b: Entry, again: Host)
    requires GetPlatformInfo(h.os, h.arch).Some?
    requires Postinstall(disk, h).outcome.Installed? && h.extraction == Extracted(Some(b))
    requires again.os == h.os && again.arch == h.arch && again.modules == h.modules && again.existingRuns
    ensures var d := Postinstall(disk, h).disk;
      Postinstall(d, again) == Run(AlreadyInstalled, [], d)
  {
    InstallPlacesBinaryForLocator(disk, h, b);
  }

  /**
   * A companion binary that fails verification triggers a download, yet the
   * locator still returns the companion path afterwards: the freshly installed
   * local binary is not the one the launcher runs.
   */
  lemma BrokenCompanionStillPreferred(disk: map<string, Entry>, h: Host)
    requires GetPlatformInfo(h.os, h.arch).Some?
    requires CompanionUsable(GetPlatformInfo(h.os, h.arch).value, h.modules, disk.Keys)
    requires Resolve(h.modules, CompanionRequest(GetPlatformInfo(h.os, h.arch).value)).value !in Touched(GetPlatformInfo(h.os, h.arch).value)
    ensures var companion := Resolve(h.modules, CompanionRequest(GetPlatformInfo(h.os, h.arch).value)).value;
      var d := Postinstall(disk, h).disk;
      GetBinaryPath(h.os, h.arch, h.modules, d.Keys) == Some(companion)
  {
    var info := GetPlatformInfo(h.os, h.arch).value;
    var companion := Resolve(h.modules, CompanionRequest(info)).value;
    var d := Postinstall(disk, h).disk;
    assert companion in d;
  }

  /** A rename or chmod that throws skips the cleanup: the archive stays behind. */
  lemma CrashLeavesArchive(disk: map<string, Entry>, h: Host)
    requires GetPlatformInfo(h.os, h.arch).Some?
    requires Postinstall(disk, h).outcome in {Crashed(RenameBinary), Crashed(MakeExecutable)}
    ensures ArchivePath(GetPlatformInfo(h.os, h.arch).value) in Postinstall(disk, h).disk
  {
    var info := GetPlatformInfo(h.os, h.arch).value;
    var d := if BinDir in disk then disk else disk[BinDir := Directory(DirMode)];
    var trace := StartDownload(info, h);
    assert Postinstall(disk, h) == Acquire(d, info, h);
    assert trace.outcome.Saved?;
    PlaceCrashKeepsArchive(Stored(d, ArchivePath(info), trace.outcome), info, h);
  }

  lemma PlaceCrashKeepsArchive(disk: map<string, Entry>, info: PlatformInfo, h: Host)
    requires ArchivePath(info) in disk
    requires Place(disk, info, h).outcome.Crashed?
    ensures ArchivePath(info) in Place(disk, info, h).disk
  {
    PathsDistinct(info);
  }

  // ---------------------------------------------------------------------------
  // The file system and the script
  // ---------------------------------------------------------------------------

  /** The package's files, changed in place by the script's `fs` calls. */
  class FileSystem {
    var entries: map<string, Entry>

    constructor (initial: map<string, Entry>)
      ensures entries == initial
    {
      entries := initial;
    }

    /** `fs.existsSync` */
    predicate Exists(path: string)
      reads this
    {
      path in entries
    }

    /** `fs.mkdirSync(path, { recursive: true })` on a missing path. */
    method Mkdir(path: string)
      requires path !in entries
      modifies this
      ensures entries == old(entries)[path := Directory(DirMode)]
    {
      entries := entries[path := Directory(DirMode)];
    }

    /** A write stream to `path` that finished with these contents. */
    method WriteFile(path: string, contents: seq<Download.Byte>)
      modifies this
      ensures entries == old(entries)[path := File(contents, CreateMode)]
    {
      entries := entries[path := File(contents, CreateMode)];
    }

    /** The archive tool leaving `entry` at `path`. */
    method Unpack(path: string, entry: Entry)
      modifies this
      ensures entries == old(entries)[path := entry]
    {
      entries := entries[path := entry];
    }

    /** `fs.unlinkSync` on a file. */
    method Unlink(path: string)
      requires path in entries && entries[path].File?
      modifies this
      ensures entries == old(entries) - {path}
    {
      entries := entries - {path};
    }

    /** `fs.renameSync(from, to)`. */
    method Rename(from: string, to: string)
      requires from in entries
      modifies this
      ensures entries == (old(entries) - {from})[to := old(entries)[from]]
    {
      entries := (entries - {from})[to := entries[from]];
    }

    /** `fs.chmodSync(path, mode)`. */
    method Chmod(path: string, mode: int)
      requires path in entries
      modifies this
      ensures entries == old(entries)[path := WithMode(old(entries)[path], mode)]
    {
      entries := entries[path := WithMode(entries[path], mode)];
    }
  }

  /** `cleanup(path)`: never fails, and removes the path only if it exists. */
  method Cleanup(fs: FileSystem, path: string, unlinkOk: bool)
    modifies fs
    ensures fs.entries == Cleaned(old(fs.entries), path, unlinkOk)
  {
    if fs.Exists(path) {
      if fs.entries[path].File? && unlinkOk {
        fs.Unlink(path);
      }
    }
  }

  /** `main()`: the script, run on `fs`. */
  method RunPostinstall(fs: FileSystem, h: Host) returns (outcome: Outcome, requests: seq<Download.Request>)
    modifies fs
    ensures Run(outcome, requests, fs.entries) == Postinstall(old(fs.entries), h)
  {
    var info := GetPlatformInfo(h.os, h.arch);
    if info.None? {
      return UnsupportedPlatform, [];
    }
    var existing := GetBinaryPath(h.os, h.arch, h.modules, fs.entries.Keys);
    if existing.Some? && h.existingRuns {
      return AlreadyInstalled, [];
    }
    if !fs.Exists(BinDir) {
      if !h.mkdirOk {
        return Crashed(MakeBinDir), [];
      }
      fs.Mkdir(BinDir);
    }
    outcome, requests := DownloadAndPlace(fs, info.value, h);
  }

  /** The download into the archive path, then the placing of the binary. */
  method DownloadAndPlace(fs: FileSystem, info: PlatformInfo, h: Host) returns (outcome: Outcome, requests: seq<Download.Request>)
    modifies fs
    ensures Run(outcome, requests, fs.entries) == Acquire(old(fs.entries), info, h)
  {
    var archivePath := ArchivePath(info);
    var trace := StartDownload(info, h);
    requests := trace.requests;
    match trace.outcome
    case Failed(failure) =>
      if failure == Download.WriteFailed {
        // the stream had opened the file; its error handler unlinks it
        fs.WriteFile(archivePath, []);
        fs.Unlink(archivePath);
      }
      outcome := DownloadFailed(failure);
    case Saved(body) =>
      fs.WriteFile(archivePath, body);
      outcome := PlaceBinary(fs, info, h);
  }

  /** Extraction, rename to the platform-suffixed name, chmod, cleanup. */
  method PlaceBinary(fs: FileSystem, info: PlatformInfo, h: Host) returns (outcome: Outcome)
    modifies fs
    ensures Run(outcome, [], fs.entries) == Place(old(fs.entries), info, h)
  {
    var archivePath := ArchivePath(info);
    if h.extraction.ExtractError? {
      Cleanup(fs, archivePath, h.unlinkOk);
      return ExtractFailed;
    }
    var isWindows := IsWindows(info.platform);
    var extractedPath := ExtractedPath(info);
    var targetPath := TargetPath(info);
    if h.extraction.binary.Some? {
      fs.Unpack(extractedPath, h.extraction.binary.value);
    }
    if fs.Exists(extractedPath) && extractedPath != targetPath {
      if !h.renameOk {
        return Crashed(RenameBinary);
      }
      fs.Rename(extractedPath, targetPath);
    }
    if !isWindows && fs.Exists(targetPath) {
      if !h.chmodOk {
        return Crashed(MakeExecutable);
      }
      fs.Chmod(targetPath, ExecutableMode);
    }
    Cleanup(fs, archivePath, h.unlinkOk);
    PathsDistinct(info);
    return Installed(h.installedRuns && fs.Exists(targetPath));
  }
}
