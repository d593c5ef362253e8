/**
 * Platform resolution and binary location (scripts/platform.js).
 *
 * The host's `os.platform()` / `os.arch()`, `require.resolve` and `fs.existsSync`
 * are explicit inputs: the resolver is a map from module request to resolved
 * path (a request outside it throws, which the locator catches), and the file
 * system is the set of paths that exist.
 */
module Platform {
  import opened Wrappers

  /** One row of the platform table. */
  datatype PlatformInfo = PlatformInfo(platform: string, packageName: string, binaryName: string)

  /** Registry scope of the companion packages. */
  const Scope: string := "@varpet/"

  /** The supported keys, in the order the diagnostics list them. */
  const SupportedPlatforms: seq<string> := ["darwin-arm64", "darwin-x64", "linux-x64", "win32-x64"]

  /** The package's own binary directory, `path.join(__dirname, "..", "bin")`, relative to the install root. */
  const BinDir: string := "bin"

  /** Paths are joined with a single separator. */
  function InBin(name: string): string {
    BinDir + "/" + name
  }

  /** The lookup key `${platform}-${arch}`. */
  function Key(os: string, arch: string): string {
    os + "-" + arch
  }

  /** `platform.startsWith("win32")` */
  predicate IsWindows(platform: string) {
    "win32" <= platform
  }

  /** The `PLATFORMS` object literal indexed by a key; a missing property is `undefined`, hence `|| null`. */
  function Lookup(key: string): Option<PlatformInfo> {
    if key == "darwin-arm64" then Some(PlatformInfo("darwin-arm64", "@varpet/darwin-arm64", "varpet"))
    else if key == "darwin-x64" then Some(PlatformInfo("darwin-x64", "@varpet/darwin-x64", "varpet"))
    else if key == "linux-x64" then Some(PlatformInfo("linux-x64", "@varpet/linux-x64", "varpet"))
    else if key == "win32-x64" then Some(PlatformInfo("win32-x64", "@varpet/win32-x64", "varpet.exe"))
    else None
  }

  /** The naming convention every row of the table follows. */
  predicate WellFormed(info: PlatformInfo) {
    && info.platform in SupportedPlatforms
    && info.packageName == Scope + info.platform
    && info.binaryName == (if IsWindows(info.platform) then "varpet.exe" else "varpet")
  }

  /** `getPlatformInfo`: the row for this host, or `None` when the host is unsupported. */
  function GetPlatformInfo(os: string, arch: string): (r: Option<PlatformInfo>)
    ensures r.Some? <==> Key(os, arch) in SupportedPlatforms
    ensures r.Some? ==> r.value.platform == Key(os, arch) && WellFormed(r.value)
  {
    SupportedListIsTable(Key(os, arch));
    Lookup(Key(os, arch))
  }

  /** The table is keyed exactly by the list the diagnostics print, and each row is named by its key. */
  lemma SupportedListIsTable(key: string)
    ensures Lookup(key).Some? <==> key in SupportedPlatforms
    ensures Lookup(key).Some? ==> Lookup(key).value.platform == key && WellFormed(Lookup(key).value)
  {
    if key == "darwin-arm64" || key == "darwin-x64" || key == "linux-x64" {
      assert key[0] != 'w' && !IsWindows(key);
    } else if key == "win32-x64" {
      assert key[..5] == "win32" && IsWindows(key);
    }
    if Lookup(key).Some? {
      assert Lookup(key).value.packageName == Scope + key;
    }
  }

  /** A key splits uniquely into its two parts when neither part contains a dash. */
  lemma KeySplit(os: string, arch: string, l: string, r: string)
    requires '-' !in l && '-' !in r
    requires Key(os, arch) == Key(l, r)
    ensures os == l && arch == r
  {
    var k := Key(l, r);
    assert k[|os|] == '-';
    forall i | 0 <= i < |k| && i != |l|
      ensures k[i] != '-'
    {
      if i < |l| {
        assert k[i] == l[i];
      } else {
        assert k[i] == r[i - |l| - 1];
      }
    }
    assert |os| == |l|;
    assert os == k[..|os|];
    assert l == k[..|l|];
    assert arch == k[|os| + 1..];
    assert r == k[|l| + 1..];
  }

  /** Exactly four (os, arch) pairs are supported; every other pair is unsupported. */
  lemma {:induction false} SupportedPairs(os: string, arch: string)
    ensures GetPlatformInfo(os, arch).Some? <==>
      || (os == "darwin" && arch == "arm64")
      || (os == "darwin" && arch == "x64")
      || (os == "linux" && arch == "x64")
      || (os == "win32" && arch == "x64")
  {
    var k := Key(os, arch);
    if k == "darwin-arm64" {
      assert k == Key("darwin", "arm64");
      KeySplit(os, arch, "darwin", "arm64");
    } else if k == "darwin-x64" {
      assert k == Key("darwin", "x64");
      KeySplit(os, arch, "darwin", "x64");
    } else if k == "linux-x64" {
      assert k == Key("linux", "x64");
      KeySplit(os, arch, "linux", "x64");
    } else if k == "win32-x64" {
      assert k == Key("win32", "x64");
      KeySplit(os, arch, "win32", "x64");
    }
  }

  /** The module request for the companion binary: `${packageName}/bin/${binaryName}`. */
  function CompanionRequest(info: PlatformInfo): string {
    info.packageName + "/bin/" + info.binaryName
  }

  /** `require.resolve`, injected: `None` where `require.resolve` throws. */
  function Resolve(modules: map<string, string>, request: string): Option<string> {
    if request in modules then Some(modules[request]) else None
  }

  /** `varpet-<platform>`, with `.exe` on Windows. */
  function LocalBinaryName(info: PlatformInfo): string {
    "varpet-" + info.platform + (if IsWindows(info.platform) then ".exe" else "")
  }

  /** The local cache path the postinstall fallback fills. */
  function LocalBinaryPath(info: PlatformInfo): string {
    InBin(LocalBinaryName(info))
  }

  /** The companion path, when it resolves and the file exists. */
  predicate CompanionUsable(info: PlatformInfo, modules: map<string, string>, present: set<string>) {
    var pkg := Resolve(modules, CompanionRequest(info));
    pkg.Some? && pkg.value in present
  }

  /** `getBinaryPath`: the located binary, or `None`. */
  function GetBinaryPath(os: string, arch: string, modules: map<string, string>, present: set<string>): (r: Option<string>)
    ensures r.Some? ==> r.value in present
    ensures GetPlatformInfo(os, arch).None? ==> r.None?
  {
    var info := GetPlatformInfo(os, arch);
    if info.None? then None
    else
      var pkg := Resolve(modules, CompanionRequest(info.value));
      if pkg.Some? && pkg.value in present then pkg
      else if LocalBinaryPath(info.value) in present then Some(LocalBinaryPath(info.value))
      else None
  }

  /** An unsupported host locates nothing, whatever the module resolver and the disk hold. */
  lemma UnsupportedLocatesNothing(os: string, arch: string, modules: map<string, string>, present: set<string>)
    requires Key(os, arch) !in SupportedPlatforms
    ensures GetBinaryPath(os, arch, modules, present) == None
  {
  }

  /** A usable companion binary wins, even when the local cache binary exists too. */
  lemma CompanionFirst(os: string, arch: string, modules: map<string, string>, present: set<string>)
    requires GetPlatformInfo(os, arch).Some?
    requires CompanionUsable(GetPlatformInfo(os, arch).value, modules, present)
    ensures GetBinaryPath(os, arch, modules, present) == Some(modules[CompanionRequest(GetPlatformInfo(os, arch).value)])
  {
  }

  /**
   * A failed resolve, or a resolved path that does not exist, falls through to the
   * local cache: the local path is returned exactly when it exists.
   */
  lemma FallThroughToLocal(os: string, arch: string, modules: map<string, string>, present: set<string>)
    requires GetPlatformInfo(os, arch).Some?
    requires !CompanionUsable(GetPlatformInfo(os, arch).value, modules, present)
    ensures var local := LocalBinaryPath(GetPlatformInfo(os, arch).value);
      GetBinaryPath(os, arch, modules, present) == if local in present then Some(local) else None
  {
  }

  /** The result is nothing, the resolved companion path, or `bin/varpet-<platform>[.exe]`. */
  lemma LocatedIsKnownLocation(os: string, arch: string, modules: map<string, string>, present: set<string>)
    requires GetBinaryPath(os, arch, modules, present).Some?
    ensures var info := GetPlatformInfo(os, arch).value;
      var p := GetBinaryPath(os, arch, modules, present).value;
      || Resolve(modules, CompanionRequest(info)) == Some(p)
      || p == BinDir + "/varpet-" + info.platform + (if "win32" <= info.platform then ".exe" else "")
  {
  }

  /** The candidate locations, in the order they are tried. */
  function Candidates(info: PlatformInfo, modules: map<string, string>): seq<string> {
    var pkg := Resolve(modules, CompanionRequest(info));
    (if pkg.Some? then [pkg.value] else []) + [LocalBinaryPath(info)]
  }

  /** An ordered search: the first path that exists. */
  function FirstExisting(paths: seq<string>, present: set<string>): (r: Option<string>)
    ensures r.None? <==> forall i :: 0 <= i < |paths| ==> paths[i] !in present
    ensures r.Some? ==> r.value in present
    ensures forall i :: 0 <= i < |paths| && paths[i] in present ==> r.Some? && r.value in paths[..i + 1]
  {
    if paths == [] then None
    else if paths[0] in present then Some(paths[0])
    else
      var rest := paths[1..];
      var r := FirstExisting(rest, present);
      assert forall i :: 1 <= i < |paths| ==> paths[i] == rest[i - 1];
      assert forall i :: 1 <= i < |paths| ==> rest[..i] == paths[1..i + 1];
      r
  }

  /** The locator is the first-hit search over its candidates, and nothing else. */
  lemma {:induction false} LocatorIsFirstHit(os: string, arch: string, modules: map<string, string>, present: set<string>)
    requires GetPlatformInfo(os, arch).Some?
    ensures GetBinaryPath(os, arch, modules, present) == FirstExisting(Candidates(GetPlatformInfo(os, arch).value, modules), present)
  {
    var info := GetPlatformInfo(os, arch).value;
    var cs := Candidates(info, modules);
    var local := LocalBinaryPath(info);
    var pkg := Resolve(modules, CompanionRequest(info));
    if pkg.Some? {
      assert cs == [pkg.value, local];
      assert cs[1..] == [local];
      assert cs[1..][1..] == [];
    } else {
      assert cs == [local];
      assert cs[1..] == [];
    }
  }
}
