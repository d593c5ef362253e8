# varpet installer and launcher, modelled in Dafny

`varpet` is distributed as a thin npm package around a native executable.
This project models the package's decision logic:

- **platform resolution**: a host's `os-arch` key becomes a platform row, which gives the platform, the companion package and the binary name;
- **binary location**: the companion package's binary is tried first, then the local cache `bin/varpet-<platform>[.exe]`;
- **the postinstall script**: the way it downloads the release archive and follows redirects, extracts it, renames and marks the binary, and cleans up;
- **the `varpet` command**: its diagnostics and exit code.

Every host interaction is an explicit input:

- `os.platform()` and `os.arch()`, the package version and the token variables are parameters;
- `require.resolve` is a map from module request to resolved path;
- `fs.existsSync` is membership in the set of existing paths;
- the HTTPS server is a script of replies;
- the `--version` checks, the archive tool and the fallible `fs` calls are boolean or datatype outcomes.

Files:

- `wrappers.dfy`: `Option`.
- `platform.dfy` (module `Platform`): the platform table, the locator, and a reference first-hit search that the locator is proved equal to.
- `download.dfy` (module `Download`): the redirect state machine, its hop bound, and a classification of every download by the server's replies.
- `install.dfy` (module `Install`):
  - release naming;
  - a `FileSystem` class whose methods are the script's `fs` calls;
  - the `main` sequence as a function of the old disk (`Postinstall`);
  - the `RunPostinstall` method, proved to follow `Postinstall`;
  - lemmas about runs: early exits, which paths change, naming agreement with the locator, idempotence.
- `launcher.dfy` (module `Launcher`): the command's decision, composed with the locator.

Paths are strings relative to the package root. `bin` is `path.join(__dirname, "..", "bin")`, and joining adds one `/`.

Some consequences of the code as written, which the model keeps:

- With the default `maxRedirects` of 5, the download makes at most five requests. It therefore follows at most four redirects, and a fifth consecutive redirect fails with "Too many redirects" (`Download.DefaultRejectsFifthRedirect`). So the budget of five counts requests, not redirects.
- The archive is not always deleted. If `renameSync` or `chmodSync` throws, the exception skips `cleanup` and is caught only by the top-level handler, so the archive stays in `bin/` (`Install.CrashLeavesArchive`).
- A failed download does not clear the local cache. A binary that failed its `--version` check stays where it was; only the bin directory and the archive path can change (`Install.DownloadFailureStopsEarly`).
- A companion binary that exists but fails verification causes a download. Afterwards the locator still prefers the companion path, so the `varpet` command keeps running the broken binary (`Install.BrokenCompanionStillPreferred`).
- The table lookup `PLATFORMS[key]` is on a plain object, so a key naming an `Object.prototype` property would return that property. Every key contains a `-` and no such property name does, so the plain table lookup `Platform.Lookup` is faithful.

## Model

| member | source | states |
|---|---|---|
| `Platform.Lookup` | scripts/platform.js:16-40 | the `PLATFORMS` table: four rows keyed by `os-arch`, every other key missing |
| `Platform.GetPlatformInfo` | scripts/platform.js:12-41 | a row exists iff `<os>-<arch>` is one of darwin-arm64, darwin-x64, linux-x64, win32-x64; its `platform` is that key, its package is `@varpet/<platform>`, its binary is `varpet.exe` exactly when the platform starts with `win32`, else `varpet` |
| `Platform.SupportedListIsTable` | scripts/platform.js:16-40 | the keys the table accepts are exactly the four the diagnostics list, and every row is named by its key and follows the naming convention |
| `Platform.SupportedPairs` | scripts/platform.js:13-40 | exactly four (os, arch) pairs are supported: (darwin, arm64), (darwin, x64), (linux, x64), (win32, x64); no other split of a key matches |
| `Platform.GetBinaryPath` | scripts/platform.js:53-83 | a located path always exists on disk; an unsupported host locates nothing |
| `Platform.UnsupportedLocatesNothing` | scripts/platform.js:54-57 | an unsupported host yields no path whatever modules resolve and files exist |
| `Platform.CompanionFirst` | scripts/platform.js:59-66 | a companion path that resolves and exists is returned even when the local binary also exists |
| `Platform.FallThroughToLocal` | scripts/platform.js:59-80 | a failed resolve, or a resolved path that does not exist, falls through silently: the local path is returned iff it exists |
| `Platform.LocatedIsKnownLocation` | scripts/platform.js:72-82 | a located path is either the resolved companion path or `bin/varpet-<platform>` plus `.exe` iff the platform starts with `win32` |
| `Platform.FirstExisting` | scripts/platform.js:43-51 | the ordered search: nothing iff no candidate exists; otherwise a path that exists and that stands at or before every existing candidate |
| `Platform.LocatorIsFirstHit` | scripts/platform.js:53-83 | the locator equals the first-hit search over [companion path if it resolves, local path] |
| `Download.BearerToken` | scripts/install.js:48 | the first of GITHUB_TOKEN, GH_TOKEN that is set and non-empty; none iff neither is |
| `Download.Authorization` | scripts/install.js:49-51 | a header is sent iff a token is chosen, and it reads `Bearer <token>` |
| `Download.Redirects` | scripts/install.js:56 | a reply is followed exactly when it is a response with a 3xx status and a non-empty `location` header |
| `Download.Settle` | scripts/install.js:63-80 | a reply that is not followed saves its body iff it is a 200 and the write succeeds; a 200 whose write fails ends in the write error; any other status fails naming that status and the URL; a request error ends in the request failure; it never reads as "too many redirects" |
| `Download.Fetch` | scripts/install.js:31-81 | a budget of zero or less rejects with "Too many redirects" and makes no request; otherwise it makes between one and `maxRedirects` requests, the first to the given URL, all with the same authorization |
| `Download.LeadingRedirects` | scripts/install.js:56 | the length of the longest prefix of replies that are 3xx with a non-empty `location` |
| `Download.FetchClassified` | scripts/install.js:31-81 | with n leading redirects: a budget of at most n ends in "Too many redirects" after exactly budget-many requests; a larger budget makes n+1 requests and ends as the reply after the redirects says |
| `Download.FetchFollowsLocations` | scripts/install.js:53-61 | the requests go to the initial URL and then to each followed `location` in turn, all carrying the same authorization |
| `Download.DefaultFollowsFourRedirects` | scripts/install.js:31-77 | with the default budget, up to four redirects then a 200 save the final body after n+1 requests |
| `Download.DefaultRejectsFifthRedirect` | scripts/install.js:31-60 | with the default budget, five consecutive redirects end in "Too many redirects" after exactly five requests |
| `Download.RedirectWithoutLocationFails` | scripts/install.js:56-66 | a 3xx without a usable `location` is not followed: it fails with its status and URL after one request |
| `Install.ReleasesUrlLiteral` | scripts/install.js:9-10 | the repository's releases URL is `https://github.com/davestepanyan/varpet-core/releases/download/` |
| `Install.ReleaseNaming` | scripts/install.js:141-155 | the archive is `varpet-<platform>.zip` on Windows and `.tar.gz` otherwise, it is saved as `bin/<archive>`, and the download URL is exactly `https://github.com/davestepanyan/varpet-core/releases/download/v<version>/<archive>` |
| `Install.TargetIsLocatorPath` | scripts/install.js:182-187 | the rename target equals the locator's local-cache path for every platform |
| `Install.PathsDistinct` | scripts/install.js:182-189 | the bin directory, the archive, the extracted binary and the target are four different paths, so the rename always happens when the extracted file exists |
| `Install.Cleaned` | scripts/install.js:217-225 | cleanup removes the path only if it exists and is a file whose unlink succeeds; nothing else changes |
| `Install.Stored` | scripts/install.js:69-77 | after a saved download the archive holds the body; after a write error it is gone; after any other failure the disk is unchanged; no other path changes |
| `Install.StartDownload` | scripts/install.js:31-51 | the call `download(downloadUrl, archivePath)` at line 158: the download of the release URL with the default budget of 5 and the token header: between one and five requests, the first to the release URL with `Bearer <token>` when a token is set |
| `Install.Place` | scripts/install.js:168-210 | extraction, rename, chmod and cleanup change nothing outside the four install paths and end installed, extract-failed or crashed; a run reported verified leaves the target in place, since `<target> --version` cannot succeed without it |
| `Install.Acquire` | scripts/install.js:155-166 | the download and what follows it change nothing outside the four install paths |
| `Install.Postinstall` | scripts/install.js:110-211 | on a supported host a run changes nothing outside the four install paths |
| `Install.UnsupportedDoesNothing` | scripts/install.js:111-122 | an unsupported platform: no request, no change |
| `Install.WorkingBinaryIsKept` | scripts/install.js:124-133 | a located binary that passes `--version` ends the run with no request and no change |
| `Install.OnlyInstallPathsChange` | scripts/install.js:150-199 | every run touches only `bin`, the archive, `bin/varpet[.exe]` and the target |
| `Install.RequestsOnlyWhenDownloading` | scripts/install.js:110-166 | a run makes at most five requests, and none exactly when it ends unsupported, already installed, or crashed creating `bin` |
| `Install.DownloadFailureStopsEarly` | scripts/install.js:157-166 | a failed download extracts nothing: only `bin` and the archive path may change, the archive is gone after a write error, and only `bin` may change otherwise |
| `Install.WriteErrorLeavesNoArchive` | scripts/install.js:69-76 | a 200 after at most four redirects whose body cannot be written ends the run with the write error, and the error handler's unlink leaves no archive |
| `Install.ExtractFailureRemovesArchive` | scripts/install.js:168-179 | a failed extraction removes the archive and places no binary |
| `Install.InstallPlacesBinaryForLocator` | scripts/install.js:181-199 | an install whose archive held the binary leaves it at the locator's local path with mode 0o755 off Windows, removes `bin/varpet[.exe]` and the archive, and the locator then finds a binary |
| `Install.PlaceWithoutExtractedBinary` | scripts/install.js:189-196 | an archive without the binary and no leftover `bin/varpet[.exe]`: no rename is attempted, the target is present afterwards iff before, and with no target the verification fails |
| `Install.PlaceOnWindowsKeepsModes` | scripts/install.js:193-196 | on Windows nothing is made executable: no chmod crash, and every entry left is an old one (possibly renamed) or the extracted one, with its mode unchanged |
| `Install.VerifiedInstallHasBinary` | scripts/install.js:201-204 | a run that reports a verified install leaves a binary at the locator's local path |
| `Install.SecondRunIsNoOp` | scripts/install.js:124-133 | running again after such an install, with a binary that passes verification, makes no request and changes nothing |
| `Install.BrokenCompanionStillPreferred` | scripts/install.js:124-138 | a companion binary that fails verification is re-downloaded around, yet the locator still returns the companion path afterwards |
| `Install.CrashLeavesArchive` | scripts/install.js:189-199 | a rename or chmod that throws skips cleanup: the archive stays |
| `Install.FileSystem.Mkdir` | scripts/install.js:150-153 | a missing `bin` becomes a directory; nothing else changes |
| `Install.FileSystem.WriteFile` | scripts/install.js:69-73 | the destination holds the written body; nothing else changes |
| `Install.FileSystem.Unpack` | scripts/install.js:168-174 | the archive tool leaves one entry at the extracted path; nothing else changes |
| `Install.FileSystem.Unlink` | scripts/install.js:75 | the file is removed; nothing else changes |
| `Install.FileSystem.Rename` | scripts/install.js:189-191 | the entry moves from the extracted path to the target |
| `Install.FileSystem.Chmod` | scripts/install.js:194-196 | only the target's mode changes |
| `Install.Cleanup` | scripts/install.js:217-225 | the file system after `cleanup` is `Cleaned` of the one before |
| `Install.RunPostinstall` | scripts/install.js:110-211 | the outcome, the requests and the new file system are those of `Postinstall` on the old one |
| `Install.DownloadAndPlace` | scripts/install.js:155-199 | the outcome, requests and new file system are those of `Acquire` |
| `Install.PlaceBinary` | scripts/install.js:168-199 | the outcome and new file system are those of `Place` |
| `Launcher.ForwardedArgs` | bin/varpet.js:34 | the child gets `argv` without its first two entries, unmodified, and nothing when there are at most two |
| `Launcher.Launch` | bin/varpet.js:6-11 | the script on a host: a spawned binary exists on disk, nothing spawned means exit 1, and an unsupported host spawns nothing |
| `Launcher.Decide` | bin/varpet.js:8-46 | no binary: nothing runs, exit 1, the unsupported-platform message listing the four platforms or the not-found message naming the package; a binary: it is run with the forwarded arguments, the exit code is the child's status, or 1 with "Failed to execute" when there is none |
| `Launcher.ExitZeroIffChildSucceeded` | bin/varpet.js:8-46 | the command exits 0 iff a binary was located and exited with status 0 |
| `Launcher.UnsupportedHostMessage` | bin/varpet.js:10-30 | on an unsupported host nothing runs, exit 1, and the message lists exactly the keys the platform table accepts |
| `Launcher.MissingBinaryNamesPackage` | bin/varpet.js:21-30 | on a supported host with no binary, exit 1 and the message names `@varpet/<os>-<arch>` |
| `Launcher.ChildStatusPropagates` | bin/varpet.js:33-46 | a located, existing binary runs with `process.argv.slice(2)`; the command ends with the child's status, or 1 if it has none |

## Left out

- The HTTPS transport is not modelled: `https.get`, URL parsing with `new URL`, request headers other than `Authorization`, and stream piping. The server is a script of abstract replies, and a request past the script's end gets a connection error.
- A malformed `location` URL is not modelled. In `install.js`, `new URL` would throw inside the promise executor and reject.
- A write error whose destination was never created is not modelled. There, the error handler's `unlinkSync` would itself throw, outside any `try`. The model treats every write error as create-then-unlink.
- Archive extraction (`tar -xzf`, PowerShell `Expand-Archive`) is a foreign tool call. It is an input that either fails or leaves at most one entry at `bin/varpet[.exe]`. Other files the archive might hold are not modelled.
- The `--version` runs and their 10-second timeouts have no timing semantics here. Each is a boolean input.
- Reading `package.json`, `os.platform()`, `os.arch()` and `process.env` are not modelled; the version, platform, architecture and tokens are parameters. A version read that throws is not modelled.
- `require.resolve` module resolution is an injected map from module request to path.
- File modes are exact constants. The umask, and the mode an existing file keeps when overwritten, are not modelled.
- Console wording is not modelled; each log line or diagnostic is reduced to its kind.
- Spawning the child process, inheriting stdio and the environment, and the signal that ended a child are not modelled. A child with no exit status is one case.
- Promises and asynchrony are not modelled; `download` is a recursive function returning its trace.
