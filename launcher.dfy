/**
 * The `varpet` command (bin/varpet.js): locate the binary, run it with the
 * command's own arguments, and exit as it did.
 *
 * The child process is abstracted to how `execFileSync` ends: it returns when the
 * child exits with status 0, and otherwise throws an error whose `status` is the
 * child's non-zero exit status, or `null` when the child could not be started or
 * was killed by a signal. `process.exit` becomes the returned exit code.
 */
module Launcher {
  import opened Wrappers
  import opened Platform

  datatype ChildOutcome = Exited(status: int) | NoStatus

  /** Which message is printed on standard error, if any. */
  datatype Diagnostic =
    | Silent
    | Unsupported(supported: seq<string>)
    | BinaryNotFound(packageName: string)
    | FailedToExecute

  /** The child process started: the binary and its argument vector. */
  datatype Spawn = Spawn(binary: string, args: seq<string>)

  datatype Exit = Exit(spawned: Option<Spawn>, diagnostic: Diagnostic, code: int)

  /** `process.argv.slice(2)`: everything after `node` and the script's path. */
  function ForwardedArgs(argv: seq<string>): (args: seq<string>)
    ensures |argv| >= 2 ==> argv == argv[..2] + args
    ensures |argv| <= 2 ==> args == []
  {
    if |argv| <= 2 then [] else argv[2..]
  }

  /** The script's decision, from the located binary, the platform row and how the child ended. */
  function Decide(binary: Option<string>, info: Option<PlatformInfo>, argv: seq<string>, child: ChildOutcome): (e: Exit)
    ensures binary.None? ==> e.code == 1 && e.spawned.None?
    ensures binary.None? ==> e.diagnostic == if info.None? then Unsupported(SupportedPlatforms) else BinaryNotFound(info.value.packageName)
    ensures binary.Some? ==> e.spawned == Some(Spawn(binary.value, ForwardedArgs(argv)))
    ensures binary.Some? && child.Exited? ==> e.code == child.status && e.diagnostic == Silent
    ensures binary.Some? && child.NoStatus? ==> e.code == 1 && e.diagnostic == FailedToExecute
  {
    if binary.None? then
      var diagnostic := if info.None? then Unsupported(SupportedPlatforms) else BinaryNotFound(info.value.packageName);
      Exit(None, diagnostic, 1)
    else
      var spawned := Some(Spawn(binary.value, ForwardedArgs(argv)));
      match child
      // status 0: `execFileSync` returns and the script ends normally
      case Exited(status) => Exit(spawned, Silent, status)
      case NoStatus => Exit(spawned, FailedToExecute, 1)
  }

  /** The whole script on a host: locate, decide. */
  function Launch(os: string, arch: string, modules: map<string, string>, present: set<string>,
                  argv: seq<string>, child: ChildOutcome): (e: Exit)
    ensures e.spawned.Some? ==> e.spawned.value.binary in present
    ensures e.spawned.None? ==> e.code == 1
    ensures GetPlatformInfo(os, arch).None? ==> e.spawned.None?
  {
    Decide(GetBinaryPath(os, arch, modules, present), GetPlatformInfo(os, arch), argv, child)
  }

  /** The command succeeds exactly when a binary was located and exited with status 0. */
  lemma ExitZeroIffChildSucceeded(os: string, arch: string, modules: map<string, string>, present: set<string>,
                                  argv: seq<string>, child: ChildOutcome)
    ensures Launch(os, arch, modules, present, argv, child).code == 0
        <==> GetBinaryPath(os, arch, modules, present).Some? && child == Exited(0)
  {
  }

  /**
   * On an unsupported host nothing is run; the diagnostic lists exactly the keys
   * the platform table accepts, and the exit code is 1.
   */
  lemma UnsupportedHostMessage(os: string, arch: string, modules: map<string, string>, present: set<string>,
                               argv: seq<string>, child: ChildOutcome)
    requires GetPlatformInfo(os, arch).None?
    ensures var e := Launch(os, arch, modules, present, argv, child);
      && e == Exit(None, Unsupported(SupportedPlatforms), 1)
      && forall k :: k in e.diagnostic.supported <==> Lookup(k).Some?
  {
    forall k
      ensures k in SupportedPlatforms <==> Lookup(k).Some?
    {
      SupportedListIsTable(k);
    }
  }

  /** On a supported host with no binary, the diagnostic names the platform's companion package. */
  lemma MissingBinaryNamesPackage(os: string, arch: string, modules: map<string, string>, present: set<string>,
                                  argv: seq<string>, child: ChildOutcome)
    requires GetPlatformInfo(os, arch).Some?
    requires GetBinaryPath(os, arch, modules, present).None?
    ensures Launch(os, arch, modules, present, argv, child)
         == Exit(None, BinaryNotFound(Scope + Key(os, arch)), 1)
  {
  }

  /**
   * A located binary is run with the command's arguments unchanged, and the
   * command ends with the child's own status; when the child has no status the
   * command fails with 1.
   */
  lemma ChildStatusPropagates(os: string, arch: string, modules: map<string, string>, present: set<string>,
                              argv: seq<string>, child: ChildOutcome)
    requires GetBinaryPath(os, arch, modules, present).Some?
    ensures var e := Launch(os, arch, modules, present, argv, child);
      && e.spawned.Some? && e.spawned.value.binary in present
      && (|argv| >= 2 ==> argv == argv[..2] + e.spawned.value.args)
      && (|argv| <= 2 ==> e.spawned.value.args == [])
      && e.code == (if child.Exited? then child.status else 1)
  {
  }
}
