/**
 * src/global_path.rs: where the launcher keeps its data, derived from the
 * user's home directory (a parameter here) and the platform tag. Paths are
 * strings; `Join` stands for `PathBuf::join`/`PathBuf::push`.
 */
module GlobalPath {
  import opened Wrappers
  import opened Utils
  import opened Text

  /** The separator `PathBuf` inserts: `\` on Windows, `/` elsewhere. */
  function Sep(tag: string): char
  {
    if tag == "win32" then '\\' else '/'
  }

  /** Whether `c` separates path components (Windows also accepts `/`). */
  predicate IsSep(tag: string, c: char)
  {
    c == '/' || c == Sep(tag)
  }

  /** A path that starts at the root: joining it replaces the base. */
  predicate IsRooted(tag: string, seg: string)
  {
    |seg| > 0 && IsSep(tag, seg[0])
  }

  /**
   * `base.join(seg)`: a rooted `seg` replaces `base`; otherwise `seg` is
   * appended, with a separator unless `base` is empty or already ends in one.
   */
  function Join(tag: string, base: string, seg: string): string
  {
    if IsRooted(tag, seg) then seg
    else if base == [] || IsSep(tag, base[|base| - 1]) then base + seg
    else base + [Sep(tag)] + seg
  }

  /** A non-empty path that does not end in a separator: joining a relative segment inserts one. */
  predicate Plain(tag: string, p: string)
  {
    |p| > 0 && !IsSep(tag, p[|p| - 1])
  }

  /** Joining a relative segment onto a plain path puts exactly one separator between them. */
  lemma JoinPlain(tag: string, base: string, seg: string)
    requires Plain(tag, base) && !IsRooted(tag, seg)
    ensures Join(tag, base, seg) == base + [Sep(tag)] + seg
  {
  }

  /** Whatever the base, a joined path ends with the joined segment. */
  lemma JoinEndsWith(tag: string, base: string, seg: string)
    ensures EndsWith(Join(tag, base, seg), seg)
  {
    var j := Join(tag, base, seg);
    assert j[|j| - |seg|..] == seg;
  }

  /** Joining a relative segment that is itself plain gives a plain path. */
  lemma JoinKeepsPlain(tag: string, base: string, seg: string)
    requires Plain(tag, seg) && !IsRooted(tag, seg)
    ensures Plain(tag, Join(tag, base, seg))
  {
    var j := Join(tag, base, seg);
    assert j[|j| - 1] == seg[|seg| - 1];
  }

  /** The three Windows components, joined by backslashes; a step of `WindowsDataDirUnder`, with no source counterpart of its own. */
  lemma WindowsSuffix()
    ensures ['\\'] + "AppData" + ['\\'] + "Roaming" + ['\\'] + ".mckismetlab" == "\\AppData\\Roaming\\.mckismetlab"
  {
  }

  /** Under a plain home directory, the three joins each insert one backslash. */
  lemma WindowsDataDirUnder(h: string)
    requires Plain("win32", h)
    ensures Join("win32", Join("win32", Join("win32", h, "AppData"), "Roaming"), ".mckismetlab")
              == h + "\\AppData\\Roaming\\.mckismetlab"
  {
    var a := Join("win32", h, "AppData");
    var b := Join("win32", a, "Roaming");
    JoinKeepsPlain("win32", h, "AppData");
    JoinKeepsPlain("win32", a, "Roaming");
    JoinPlain("win32", h, "AppData");
    JoinPlain("win32", a, "Roaming");
    JoinPlain("win32", b, ".mckismetlab");
    WindowsSuffix();
    assert Join("win32", b, ".mckismetlab") == h + (['\\'] + "AppData" + ['\\'] + "Roaming" + ['\\'] + ".mckismetlab");
  }

  /** `home.join("AppData").join("Roaming").join(".mckismetlab")`, the Windows data directory. */
  function WindowsDataDir(h: string): (d: string)
    ensures Plain("win32", d)
    ensures Plain("win32", h) ==> d == h + "\\AppData\\Roaming\\.mckismetlab"
  {
    var b := Join("win32", Join("win32", h, "AppData"), "Roaming");
    JoinKeepsPlain("win32", b, ".mckismetlab");
    if Plain("win32", h) then WindowsDataDirUnder(h); Join("win32", b, ".mckismetlab")
    else Join("win32", b, ".mckismetlab")
  }

  /** The macOS data directory, an absolute path. */
  const DarwinDataDir := "/Library/Application Support/mckismetlab"

  /**
   * `get_game_data_dir_path`: `<home>\AppData\Roaming\.mckismetlab` on Windows,
   * the absolute `/Library/Application Support/mckismetlab` on macOS (joining
   * an absolute path discards the home directory), `None` elsewhere. A missing
   * home directory panics first.
   */
  function GameDataDirPath(home: Option<string>, tag: OsTag): (r: Run<Option<string>>)
    ensures home.None? <==> r.Panics?
    ensures home.Some? ==> (r.value.Some? <==> tag != "linux")
    ensures r.Returns? && r.value.Some? ==> Plain(tag, r.value.value)
    ensures home.Some? && tag == "darwin" ==> r == Returns(Some(DarwinDataDir))
    ensures home.Some? && tag == "win32" && Plain(tag, home.value) ==>
              r == Returns(Some(home.value + "\\AppData\\Roaming\\.mckismetlab"))
  {
    match home
    case None => Panics
    case Some(h) =>
      if tag == "win32" then Returns(Some(WindowsDataDir(h)))
      else if tag == "darwin" then
        assert IsRooted(tag, DarwinDataDir) by { assert DarwinDataDir[0] == '/'; }
        Returns(Some(Join(tag, h, DarwinDataDir)))
      else Returns(None)
  }

  /** `get_instances_dir_path`: `<data>/instances`; panics where there is no data directory. */
  function GetInstancesDirPath(home: Option<string>, tag: OsTag): (r: Run<string>)
    ensures r.Returns? <==> home.Some? && tag != "linux"
    ensures r.Returns? ==> r.value == GameDataDirPath(home, tag).value.value + [Sep(tag)] + "instances"
  {
    match GameDataDirPath(home, tag)
    case Returns(Some(d)) => Returns(Join(tag, d, "instances"))
    case _ => Panics
  }

  /** `get_common_dir_path`: `<data>/common`; panics where there is no data directory. */
  function GetCommonDirPath(home: Option<string>, tag: OsTag): (r: Run<string>)
    ensures r.Returns? <==> home.Some? && tag != "linux"
    ensures r.Returns? ==> r.value == GameDataDirPath(home, tag).value.value + [Sep(tag)] + "common"
  {
    match GameDataDirPath(home, tag)
    case Returns(Some(d)) => Returns(Join(tag, d, "common"))
    case _ => Panics
  }

  /** On macOS the common directory does not depend on the home directory at all. */
  lemma {:induction false} DarwinCommonIgnoresHome(h1: string, h2: string)
    ensures GetCommonDirPath(Some(h1), "darwin") == GetCommonDirPath(Some(h2), "darwin")
              == Returns("/Library/Application Support/mckismetlab/common")
  {
    assert DarwinDataDir + ['/'] + "common" == "/Library/Application Support/mckismetlab/common";
  }

  /** The instances and common directories are two different children of the same data directory. */
  lemma {:induction false} InstancesAndCommonAreSiblings(home: Option<string>, tag: OsTag)
    requires GetCommonDirPath(home, tag).Returns?
    ensures GetInstancesDirPath(home, tag).Returns?
    ensures GetInstancesDirPath(home, tag).value != GetCommonDirPath(home, tag).value
    ensures LastSegment(GetInstancesDirPath(home, tag).value, Sep(tag)) == "instances"
    ensures LastSegment(GetCommonDirPath(home, tag).value, Sep(tag)) == "common"
  {
    var d := GameDataDirPath(home, tag).value.value;
    var i := GetInstancesDirPath(home, tag).value;
    var c := GetCommonDirPath(home, tag).value;
    LastSegmentAfterSeparator(d, Sep(tag), "instances");
    LastSegmentAfterSeparator(d, Sep(tag), "common");
  }
}
