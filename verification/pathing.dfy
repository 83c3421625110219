/** Models src/pathing.ts: the ordered list of directories searched for configuration files, as a
    function of the platform, the working directory, the script path, the home directory and the
    environment. */
module Pathing {
  import opened Wrappers
  import opened Strings
  import Posix

  datatype Platform = Windows | MacOS | OtherUnix

  /** The process environment; a variable set to the empty string is as good as unset. */
  type Env = map<string, string>

  /** `process.env[name]` when it is truthy. */
  function EnvVar(env: Env, name: string): Option<string> {
    if name in env && env[name] != "" then Some(env[name]) else None
  }

  /** `XDG_CONFIG_HOME`, defaulting to `~/.config`. */
  function XdgConfigHome(env: Env, home: string): (r: string)
    ensures EnvVar(env, "XDG_CONFIG_HOME").Some? ==> r == env["XDG_CONFIG_HOME"]
    ensures EnvVar(env, "XDG_CONFIG_HOME").None? ==> r == Posix.Join(home, ".config")
  {
    EnvVar(env, "XDG_CONFIG_HOME").GetOr(Posix.Join(home, ".config"))
  }

  /** The non-empty `:`-separated pieces of `XDG_CONFIG_DIRS`, defaulting to `/etc/xdg`. */
  function XdgConfigDirs(env: Env): (r: seq<string>)
    ensures forall i :: 0 <= i < |r| ==> r[i] != ""
  {
    var dirs := EnvVar(env, "XDG_CONFIG_DIRS").GetOr("/etc/xdg");
    NonEmpty(Split(dirs, ":"))
  }

  /** The parent of the working directory when the working directory is a `bin` directory. */
  function CwdBinParent(cwd: string): seq<string> {
    if Posix.Basename(cwd) == "bin" then [Posix.Dirname(cwd)] else []
  }

  /** The parent of the script's directory when that directory is named `bin`. */
  function ScriptBinParent(scriptPath: Option<string>): Option<string> {
    match scriptPath
    case Some(p) =>
      if p != "" && Posix.Basename(Posix.Dirname(p)) == "bin" then Some(Posix.Dirname(Posix.Dirname(p)))
      else None
    case None => None
  }

  /** The entries before the home directory: `.`, then the bin parents, the script's added only
      when not already present. */
  function Leading(cwd: string, scriptPath: Option<string>): (r: seq<string>)
    ensures |r| > 0 && r[0] == "."
    ensures Posix.Basename(cwd) == "bin" ==> |r| >= 2 && r[1] == Posix.Dirname(cwd)
    ensures ScriptBinParent(scriptPath).Some? ==> ScriptBinParent(scriptPath).value in r
    ensures forall x :: x in r ==> x == "." || x in CwdBinParent(cwd) || ScriptBinParent(scriptPath) == Some(x)
  {
    var first := ["."] + CwdBinParent(cwd);
    match ScriptBinParent(scriptPath)
    case Some(parent) => if parent in first then first else first + [parent]
    case None => first
  }

  /** The platform's per-user directories (after home and the XDG config home). */
  function UserDirs(platform: Platform, home: string, env: Env): (r: seq<string>)
    ensures forall i :: 0 <= i < |r| ==> r[i] != ""
  {
    match platform
    case Windows =>
      (if EnvVar(env, "APPDATA").Some? then [env["APPDATA"]] else [])
      + (if EnvVar(env, "LOCALAPPDATA").Some? then [env["LOCALAPPDATA"]] else [])
    case MacOS =>
      [Posix.Join(Posix.Join(home, "Library"), "Preferences"),
       Posix.Join(Posix.Join(home, "Library"), "Application Support")]
    case OtherUnix => []
  }

  /** The platform's system-wide directories (after the XDG config directories). */
  function SystemDirs(platform: Platform, env: Env): (r: seq<string>)
    ensures forall i :: 0 <= i < |r| ==> r[i] != ""
  {
    match platform
    case Windows => if EnvVar(env, "ProgramData").Some? then [env["ProgramData"]] else []
    case MacOS => ["/Library/Preferences", "/Library/Application Support"]
    case OtherUnix => []
  }

  /** The list before `filter(Boolean)`, pushed in the order the source pushes it. */
  function RawPaths(platform: Platform, cwd: string, scriptPath: Option<string>, home: string, env: Env): seq<string> {
    Leading(cwd, scriptPath)
    + [home]
    + (if platform != Windows then [XdgConfigHome(env, home)] else [])
    + UserDirs(platform, home, env)
    + (if platform != Windows then XdgConfigDirs(env) else [])
    + SystemDirs(platform, env)
    + (if platform != Windows then ["/etc", "/usr/local/etc"] else [])
  }

  /** `getConfigPaths`: the raw list without its empty entries. */
  function GetConfigPaths(platform: Platform, cwd: string, scriptPath: Option<string>, home: string, env: Env): (r: seq<string>)
    ensures |r| > 0 && r[0] == "."
    ensures forall i :: 0 <= i < |r| ==> r[i] != ""
  {
    NonEmpty(RawPaths(platform, cwd, scriptPath, home, env))
  }

  /** The parent of a script living in a `bin` directory is always among the standard paths. */
  lemma ScriptBinParentListed(platform: Platform, cwd: string, scriptPath: Option<string>, home: string, env: Env)
    requires ScriptBinParent(scriptPath).Some?
    ensures ScriptBinParent(scriptPath).value in GetConfigPaths(platform, cwd, scriptPath, home, env)
  {
    var parent := ScriptBinParent(scriptPath).value;
    var leading := Leading(cwd, scriptPath);
    var raw := RawPaths(platform, cwd, scriptPath, home, env);
    var k :| 0 <= k < |leading| && leading[k] == parent;
    assert raw[k] == parent;
    NonEmptyMembers(raw, parent);
  }

  /** Without a usable `XDG_CONFIG_DIRS` the system-wide XDG directory is `/etc/xdg` alone. */
  lemma XdgConfigDirsDefault(env: Env)
    requires EnvVar(env, "XDG_CONFIG_DIRS").None?
    ensures XdgConfigDirs(env) == ["/etc/xdg"]
  {
    assert forall i :: 0 <= i < |"/etc/xdg"| ==> "/etc/xdg"[i] != ':';
    SplitWithoutSeparator("/etc/xdg", ':');
    assert ":" == [':'];
  }

  /** The XDG config home is never empty, so it always survives the final filter. */
  lemma XdgConfigHomeNonEmpty(env: Env, home: string)
    ensures XdgConfigHome(env, home) != ""
  {
    assert ".config" != "";
  }

  /** Filtering seven groups when the last five hold no empty entry filters only the first two. */
  lemma NonEmptyGroups(l: seq<string>, h: seq<string>, x: seq<string>, u: seq<string>,
                       d: seq<string>, y: seq<string>, e: seq<string>)
    requires forall i :: 0 <= i < |x| ==> x[i] != ""
    requires forall i :: 0 <= i < |u| ==> u[i] != ""
    requires forall i :: 0 <= i < |d| ==> d[i] != ""
    requires forall i :: 0 <= i < |y| ==> y[i] != ""
    requires forall i :: 0 <= i < |e| ==> e[i] != ""
    ensures NonEmpty(l + h + x + u + d + y + e) == NonEmpty(l) + NonEmpty(h) + x + u + d + y + e
  {
    NonEmptyAppend(l + h + x + u + d + y, e);
    NonEmptyAppend(l + h + x + u + d, y);
    NonEmptyAppend(l + h + x + u, d);
    NonEmptyAppend(l + h + x, u);
    NonEmptyAppend(l + h, x);
    NonEmptyAppend(l, h);
  }

  /** The filtered list, group by group: on a Unix-like platform only the leading entries and the
      home directory can be empty; every later group is kept whole. */
  lemma UnixLayout(platform: Platform, cwd: string, scriptPath: Option<string>, home: string, env: Env)
    requires platform != Windows
    ensures GetConfigPaths(platform, cwd, scriptPath, home, env)
         == NonEmpty(Leading(cwd, scriptPath)) + NonEmpty([home]) + [XdgConfigHome(env, home)]
            + UserDirs(platform, home, env) + XdgConfigDirs(env) + SystemDirs(platform, env)
            + ["/etc", "/usr/local/etc"]
  {
    var x := [XdgConfigHome(env, home)];
    var e := ["/etc", "/usr/local/etc"];
    XdgConfigHomeNonEmpty(env, home);
    assert e[0] != "" && e[1] != "" && |e| == 2;
    assert RawPaths(platform, cwd, scriptPath, home, env)
        == Leading(cwd, scriptPath) + [home] + x + UserDirs(platform, home, env) + XdgConfigDirs(env)
           + SystemDirs(platform, env) + e;
    NonEmptyGroups(Leading(cwd, scriptPath), [home], x,
                   UserDirs(platform, home, env), XdgConfigDirs(env), SystemDirs(platform, env), e);
  }

  /** Where the second group and the single entry after it sit among seven concatenated groups. */
  lemma SecondAndThird(r: seq<string>, a: seq<string>, b: seq<string>, x: string, u: seq<string>,
                       d: seq<string>, y: seq<string>, e: seq<string>)
    requires r == a + b + [x] + u + d + y + e
    ensures |r| > |a| + |b|
    ensures r[|a|..|a| + |b| + 1] == b + [x]
  {
    assert r == (a + b + [x]) + (u + d + y + e);
    assert (a + b + [x])[|a|..] == b + [x];
  }

  /** On a Unix-like platform the order is the one the code pushes, not the one its doc comment
      lists: after the leading entries comes the home directory (when non-empty), immediately
      followed by the XDG config home. */
  lemma UnixHomeThenXdgHome(platform: Platform, cwd: string, scriptPath: Option<string>, home: string, env: Env)
    requires platform != Windows
    ensures var r := GetConfigPaths(platform, cwd, scriptPath, home, env);
            var n := |NonEmpty(Leading(cwd, scriptPath))|;
            var h := NonEmpty([home]);
            && |r| > n + |h|
            && r[n..n + |h| + 1] == h + [XdgConfigHome(env, home)]
  {
    UnixLayout(platform, cwd, scriptPath, home, env);
    SecondAndThird(GetConfigPaths(platform, cwd, scriptPath, home, env),
                   NonEmpty(Leading(cwd, scriptPath)), NonEmpty([home]), XdgConfigHome(env, home),
                   UserDirs(platform, home, env), XdgConfigDirs(env), SystemDirs(platform, env),
                   ["/etc", "/usr/local/etc"]);
  }

  /** A single entry survives the filter exactly when it is non-empty. */
  lemma NonEmptySingle(x: string)
    ensures NonEmpty([x]) == if x == "" then [] else [x]
  {
    assert [x][1..] == [];
  }

  /** Where the last three of seven concatenated groups sit. */
  lemma LastThree(r: seq<string>, a: seq<string>, b: seq<string>, x: seq<string>, u: seq<string>,
                  d: seq<string>, y: seq<string>, e: seq<string>)
    requires r == a + b + x + u + d + y + e
    ensures |r| >= |a| + |b| + |x| + |d| + |y| + |e|
    ensures r[|r| - |d| - |y| - |e|..] == d + y + e
  {
    assert r == (a + b + x + u) + (d + y + e);
  }

  /** ... and the list ends with the XDG config directories as one block, then the platform's system
      directories, then `/etc` and `/usr/local/etc`. */
  lemma UnixTail(platform: Platform, cwd: string, scriptPath: Option<string>, home: string, env: Env)
    requires platform != Windows
    ensures var r := GetConfigPaths(platform, cwd, scriptPath, home, env);
            var d := XdgConfigDirs(env);
            var y := SystemDirs(platform, env);
            && |r| >= |d| + |y| + 2
            && r[|r| - |d| - |y| - 2..] == d + y + ["/etc", "/usr/local/etc"]
  {
    UnixLayout(platform, cwd, scriptPath, home, env);
    LastThree(GetConfigPaths(platform, cwd, scriptPath, home, env),
              NonEmpty(Leading(cwd, scriptPath)), NonEmpty([home]), [XdgConfigHome(env, home)],
              UserDirs(platform, home, env), XdgConfigDirs(env), SystemDirs(platform, env),
              ["/etc", "/usr/local/etc"]);
  }

  /** Without `XDG_CONFIG_HOME` and `XDG_CONFIG_DIRS` a Unix-like list holds `home/.config` and
      `/etc/xdg`. */
  lemma UnixXdgDefaults(platform: Platform, cwd: string, scriptPath: Option<string>, home: string, env: Env)
    requires platform != Windows
    requires EnvVar(env, "XDG_CONFIG_HOME").None? && EnvVar(env, "XDG_CONFIG_DIRS").None?
    ensures Posix.Join(home, ".config") in GetConfigPaths(platform, cwd, scriptPath, home, env)
    ensures "/etc/xdg" in GetConfigPaths(platform, cwd, scriptPath, home, env)
  {
    XdgConfigDirsDefault(env);
    UnixLayout(platform, cwd, scriptPath, home, env);
  }

  /** On Windows an entry is `.`, a bin parent, the home directory or the value of `APPDATA`,
      `LOCALAPPDATA` or `ProgramData` when set, and nothing else: no XDG entry, no `/etc`. */
  lemma WindowsEntries(cwd: string, scriptPath: Option<string>, home: string, env: Env, x: string)
    ensures x in GetConfigPaths(Windows, cwd, scriptPath, home, env)
        <==> x != "" && (x in Leading(cwd, scriptPath) || x == home
                         || EnvVar(env, "APPDATA") == Some(x) || EnvVar(env, "LOCALAPPDATA") == Some(x)
                         || EnvVar(env, "ProgramData") == Some(x))
  {
    var raw := RawPaths(Windows, cwd, scriptPath, home, env);
    var l := Leading(cwd, scriptPath);
    var u := UserDirs(Windows, home, env);
    var y := SystemDirs(Windows, env);
    assert raw == l + [home] + u + y;
    WindowsDirMembers(home, env, x);
    NonEmptyMembers(raw, x);
    assert x in raw <==> x in l || x == home || x in u || x in y;
  }

  /** On Windows the user and system groups hold exactly the set environment variables' values. */
  lemma WindowsDirMembers(home: string, env: Env, x: string)
    ensures x in UserDirs(Windows, home, env)
        <==> EnvVar(env, "APPDATA") == Some(x) || EnvVar(env, "LOCALAPPDATA") == Some(x)
    ensures x in SystemDirs(Windows, env) <==> EnvVar(env, "ProgramData") == Some(x)
  {
  }

  /** Two leading non-empty entries of seven concatenated groups survive the filter in front. */
  lemma FirstTwoSurvive(raw: seq<string>, l: seq<string>, b: seq<string>, x: seq<string>, u: seq<string>,
                        d: seq<string>, y: seq<string>, e: seq<string>)
    requires raw == l + b + x + u + d + y + e
    requires |l| >= 2 && l[0] != "" && l[1] != ""
    ensures |NonEmpty(raw)| >= 2 && NonEmpty(raw)[..2] == l[..2]
  {
    assert raw[0] == l[0] && raw[1] == l[1];
    assert raw[1..][0] == l[1];
  }

  /** A working directory named `bin` puts its parent right after `.`. */
  lemma CwdBinParentSecond(platform: Platform, cwd: string, scriptPath: Option<string>, home: string, env: Env)
    requires Posix.Basename(cwd) == "bin"
    ensures var r := GetConfigPaths(platform, cwd, scriptPath, home, env);
            |r| >= 2 && r[..2] == [".", Posix.Dirname(cwd)]
  {
    var l := Leading(cwd, scriptPath);
    FirstTwoSurvive(RawPaths(platform, cwd, scriptPath, home, env), l, [home],
                    (if platform != Windows then [XdgConfigHome(env, home)] else []),
                    UserDirs(platform, home, env),
                    (if platform != Windows then XdgConfigDirs(env) else []),
                    SystemDirs(platform, env),
                    (if platform != Windows then ["/etc", "/usr/local/etc"] else []));
    assert l[..2] == [".", Posix.Dirname(cwd)];
  }

  /** No two entries before the home directory coincide when the working directory is absolute: the
      script's bin parent is skipped exactly when it is already listed. */
  lemma LeadingDistinct(cwd: string, scriptPath: Option<string>)
    requires Posix.IsAbsolute(cwd)
    ensures var l := Leading(cwd, scriptPath);
            forall i, j :: 0 <= i < j < |l| ==> l[i] != l[j]
  {
    if Posix.Basename(cwd) == "bin" {
      Posix.DirnameOfAbsolute(cwd);
      assert Posix.Dirname(cwd)[..1] == "/";
      assert Posix.Dirname(cwd)[0] != "."[0];
    }
  }

  /** Seven concatenated groups whose second is `/etc` and whose last starts with `/etc` hold it twice. */
  lemma EtcAtBothEnds(r: seq<string>, a: seq<string>, b: seq<string>, x: seq<string>, u: seq<string>,
                      d: seq<string>, y: seq<string>, e: seq<string>)
    requires r == a + b + x + u + d + y + e
    requires b == ["/etc"] && e == ["/etc", "/usr/local/etc"]
    ensures |a| < |r| - 2 && r[|a|] == "/etc" && r[|r| - 2] == "/etc"
  {
    assert r == a + (b + x + u + d + y + e);
  }

  /** That skip is the only de-duplication: a home directory of `/etc` on a Unix-like platform
      leaves `/etc` listed twice. */
  lemma EtcHomeListedTwice(platform: Platform, cwd: string, scriptPath: Option<string>, env: Env)
    requires platform != Windows
    ensures var r := GetConfigPaths(platform, cwd, scriptPath, "/etc", env);
            exists i, j :: 0 <= i < j < |r| && r[i] == "/etc" && r[j] == "/etc"
  {
    UnixLayout(platform, cwd, scriptPath, "/etc", env);
    NonEmptySingle("/etc");
    var r := GetConfigPaths(platform, cwd, scriptPath, "/etc", env);
    var a := NonEmpty(Leading(cwd, scriptPath));
    EtcAtBothEnds(r, a, NonEmpty(["/etc"]), [XdgConfigHome(env, "/etc")],
                  UserDirs(platform, "/etc", env), XdgConfigDirs(env), SystemDirs(platform, env),
                  ["/etc", "/usr/local/etc"]);
    assert r[|a|] == "/etc" && r[|r| - 2] == "/etc";
  }
}
