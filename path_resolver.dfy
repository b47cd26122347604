/** Where the configuration file lives, decided from the platform name alone
    (no file-system access). The home directory and the APPDATA variable are
    inputs; components are joined with '/'. */
module PathResolver {

  /** The part of the path shared by every platform. */
  const StorageTail: string := "Cursor/User/globalStorage/storage.json"

  datatype PathResult = Resolved(path: string) | Unsupported(platform: string)

  predicate StartsWith(s: string, prefix: string) {
    |prefix| <= |s| && s[..|prefix|] == prefix
  }

  predicate EndsWith(s: string, suffix: string) {
    |suffix| <= |s| && s[|s| - |suffix|..] == suffix
  }

  /** The if/elif chain over the platform name; the Windows test comes first. */
  function ConfigPath(platform: string, home: string, appData: string): (r: PathResult)
    ensures StartsWith(platform, "win") ==> r == Resolved(appData + "/" + StorageTail)
    ensures !StartsWith(platform, "win") && platform == "darwin" ==>
      r == Resolved(home + "/Library/Application Support/" + StorageTail)
    ensures !StartsWith(platform, "win") && platform != "darwin" && StartsWith(platform, "linux") ==>
      r == Resolved(home + "/.config/" + StorageTail)
    ensures r.Unsupported? <==>
      !StartsWith(platform, "win") && platform != "darwin" && !StartsWith(platform, "linux")
    ensures r.Unsupported? ==> r.platform == platform
  {
    if StartsWith(platform, "win") then
      Resolved(appData + "/" + StorageTail)
    else if platform == "darwin" then
      Resolved(home + "/Library/Application Support/" + StorageTail)
    else if StartsWith(platform, "linux") then
      Resolved(home + "/.config/" + StorageTail)
    else
      Unsupported(platform)
  }

  /** No platform name meets two of the three tests, so the order in which
      they are made does not change which path is chosen. */
  lemma DispatchTestsDisjoint(platform: string)
    ensures !(StartsWith(platform, "win") && platform == "darwin")
    ensures !(StartsWith(platform, "win") && StartsWith(platform, "linux"))
    ensures !(platform == "darwin" && StartsWith(platform, "linux"))
  {
    if StartsWith(platform, "win") {
      assert platform[0] == platform[..3][0] == 'w';
    }
    if StartsWith(platform, "linux") {
      assert platform[0] == platform[..5][0] == 'l';
    }
  }

  /** Every resolved path is a base directory (APPDATA for Windows, the home
      directory otherwise) followed by "/", a platform-specific middle part and
      the shared storage tail. */
  lemma ResolvedPathShape(platform: string, home: string, appData: string)
    requires ConfigPath(platform, home, appData).Resolved?
    ensures var p := ConfigPath(platform, home, appData).path;
      EndsWith(p, "/" + StorageTail) &&
      (if StartsWith(platform, "win") then StartsWith(p, appData + "/") else StartsWith(p, home + "/"))
  {
    var p := ConfigPath(platform, home, appData).path;
    var tail := "/" + StorageTail;
    if StartsWith(platform, "win") {
      assert p == appData + tail;
      assert p[|p| - |tail|..] == tail;
      assert p[..|appData| + 1] == appData + "/";
    } else if platform == "darwin" {
      var mid := home + "/Library/Application Support";
      assert p == mid + tail;
      assert p[|p| - |tail|..] == tail;
      assert p[..|home| + 1] == home + "/";
    } else {
      var mid := home + "/.config";
      assert p == mid + tail;
      assert p[|p| - |tail|..] == tail;
      assert p[..|home| + 1] == home + "/";
    }
  }

  /** The three platform families resolve, each to its own layout; any other
      name is refused with that name. */
  lemma ConfigPathExamples(home: string, appData: string)
    ensures ConfigPath("win32", home, appData) == Resolved(appData + "/" + StorageTail)
    ensures ConfigPath("cygwin", home, appData).Unsupported?
    ensures ConfigPath("darwin", home, appData) == Resolved(home + "/Library/Application Support/" + StorageTail)
    ensures ConfigPath("linux", home, appData) == Resolved(home + "/.config/" + StorageTail)
    ensures ConfigPath("freebsd14", home, appData) == Unsupported("freebsd14")
    ensures ConfigPath("darwin2", home, appData) == Unsupported("darwin2")
  {
    assert "win32"[..3] == "win";
    assert "linux"[..5] == "linux";
    assert "cygwin"[..3][0] == 'c' && "cygwin"[..5][0] == 'c';
    assert "darwin2"[..3][0] == 'd' && "darwin2"[..5][0] == 'd';
    assert "freebsd14"[..3][0] == 'f' && "freebsd14"[..5][0] == 'f';
  }
}
