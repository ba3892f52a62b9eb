/**
 * src/java.rs: discovery of installed Java runtimes. The platform tag is the
 * value `utils::get_os_type` returned (a plain string, as `OSType` is); the
 * state of the runtime directory and the set of paths that exist on disk are
 * parameters standing for the filesystem.
 */
module Java {
  import opened Wrappers
  import opened Text
  import opened GlobalPath

  /** `get_java_versions_dir`: where each platform installs Java runtimes; `None` for an unknown tag. */
  function GetJavaVersionsDir(tag: string): (r: Option<string>)
    ensures r.Some? <==> tag == "win32" || tag == "darwin" || tag == "linux"
    ensures tag == "win32" ==> r == Some("C:\\Program Files\\Java")
    ensures tag == "darwin" ==> r == Some("/Library/Java/JavaVirtualMachines")
    ensures tag == "linux" ==> r == Some("/usr/lib/jvm")
  {
    match tag
    case "win32" => Some("C:\\Program Files\\Java")
    case "darwin" => Some("/Library/Java/JavaVirtualMachines")
    case "linux" => Some("/usr/lib/jvm")
    case _ => None
  }

  /**
   * What the filesystem holds at the runtime directory: nothing
   * (`fs::metadata` fails), something that cannot be listed (`read_dir`
   * fails), or a listing whose entries may individually fail to read (`None`).
   */
  datatype DirState = Missing | Unlistable | Listing(entries: seq<Option<string>>)

  /** The names the launcher takes for runtimes. */
  predicate IsRuntimeName(name: string)
  {
    "jdk" <= name || "jre" <= name
  }

  /** The `filter_map` of `get_java_versions`: readable entries named `jdk…` or `jre…`, in listing order. */
  function RuntimeNames(entries: seq<Option<string>>): (names: seq<string>)
    ensures forall i :: 0 <= i < |names| ==> IsRuntimeName(names[i])
    ensures forall i :: 0 <= i < |entries| && entries[i].Some? && IsRuntimeName(entries[i].value) ==>
              entries[i].value in names
    ensures forall n :: n in names ==> Some(n) in entries
  {
    if entries == [] then []
    else
      var e := entries[|entries| - 1];
      RuntimeNames(entries[..|entries| - 1]) + (if e.Some? && IsRuntimeName(e.value) then [e.value] else [])
  }

  /** The filter works entry by entry, so it keeps the listing's order. */
  lemma {:induction false} RuntimeNamesAppend(xs: seq<Option<string>>, ys: seq<Option<string>>)
    ensures RuntimeNames(xs + ys) == RuntimeNames(xs) + RuntimeNames(ys)
    decreases |ys|
  {
    if ys == [] {
      assert xs + ys == xs;
    } else {
      var ys' := ys[..|ys| - 1];
      assert (xs + ys)[..|xs + ys| - 1] == xs + ys';
      RuntimeNamesAppend(xs, ys');
    }
  }

  /** `get_java_versions`: no directory gives no runtimes; a directory that cannot be listed panics. */
  function GetJavaVersions(dir: DirState): (r: Run<seq<string>>)
    ensures dir.Missing? ==> r == Returns([])
    ensures r.Panics? <==> dir.Unlistable?
    ensures dir.Listing? ==> r == Returns(RuntimeNames(dir.entries))
  {
    match dir
    case Missing => Returns([])
    case Unlistable => Panics
    case Listing(entries) => Returns(RuntimeNames(entries))
  }

  /** The Windows executable: `C:\Program Files\Java`, the runtime, `bin`, `java.exe`. */
  function WindowsJava(version: string): string
  {
    var tag := "win32";
    Join(tag, Join(tag, Join(tag, Join(tag, "", "C:\\Program Files\\Java"), version), "bin"), "java.exe")
  }

  /** The macOS executable: inside the `<runtime>.jdk` bundle under `/Library/Java/JavaVirtualMachines`. */
  function DarwinJava(version: string): string
  {
    var tag := "darwin";
    Join(tag, Join(tag, Join(tag, Join(tag, Join(tag, Join(tag, "", "/Library/Java/JavaVirtualMachines"),
      version + ".jdk"), "Contents"), "Home"), "bin"), "java")
  }

  /** The Linux executable: `/usr/lib/jvm`, the runtime, `bin`, `java`. */
  function LinuxJava(version: string): string
  {
    var tag := "linux";
    Join(tag, Join(tag, Join(tag, Join(tag, "", "/usr/lib/jvm"), version), "bin"), "java")
  }

  /**
   * The path `get_java_path` builds by pushing components onto an empty
   * `PathBuf`; `None` where the source panics (an unknown tag).
   */
  function JavaExecutable(tag: string, version: string): Option<string>
  {
    match tag
    case "win32" => Some(WindowsJava(version))
    case "darwin" => Some(DarwinJava(version))
    case "linux" => Some(LinuxJava(version))
    case _ => None
  }

  /** A directory entry's name: not empty, not starting or ending with a separator. */
  predicate EntryName(tag: string, name: string)
  {
    Plain(tag, name) && !IsRooted(tag, name)
  }

  /** The Windows executable path laid out in full, for an ordinary runtime directory name. */
  lemma {:induction false} WindowsJavaLayout(version: string)
    requires EntryName("win32", version)
    ensures WindowsJava(version) == "C:\\Program Files\\Java\\" + version + "\\bin\\java.exe"
  {
    var tag := "win32";
    var root := "C:\\Program Files\\Java";
    assert !IsRooted(tag, root) && root[|root| - 1] == 'a';
    var a := Join(tag, "", root);
    var b := Join(tag, a, version);
    JoinPlain(tag, a, version);
    var c := Join(tag, b, "bin");
    JoinPlain(tag, b, "bin");
    var d := Join(tag, c, "java.exe");
    JoinPlain(tag, c, "java.exe");
    assert d == (root + "\\") + version + ("\\bin" + "\\java.exe");
    assert root + "\\" == "C:\\Program Files\\Java\\";
    assert "\\bin" + "\\java.exe" == "\\bin\\java.exe";
  }

  /** The components under a macOS runtime bundle, pushed onto a plain path. */
  lemma {:induction false} DarwinBundleTail(b: string)
    requires Plain("darwin", b)
    ensures Join("darwin", Join("darwin", Join("darwin", Join("darwin", b, "Contents"), "Home"), "bin"), "java")
              == b + "/Contents/Home/bin/java"
  {
    var tag := "darwin";
    var c := Join(tag, b, "Contents");
    JoinPlain(tag, b, "Contents");
    var d := Join(tag, c, "Home");
    JoinPlain(tag, c, "Home");
    var e := Join(tag, d, "bin");
    JoinPlain(tag, d, "bin");
    var f := Join(tag, e, "java");
    JoinPlain(tag, e, "java");
    assert f == b + ("/Contents" + "/Home" + "/bin" + "/java");
    assert "/Contents" + "/Home" + "/bin" + "/java" == "/Contents/Home/bin/java";
  }

  /** The macOS executable path laid out in full, for an ordinary runtime directory name. */
  lemma {:induction false} DarwinJavaLayout(version: string)
    requires EntryName("darwin", version)
    ensures DarwinJava(version) == "/Library/Java/JavaVirtualMachines/" + version + ".jdk/Contents/Home/bin/java"
  {
    var tag := "darwin";
    var root := "/Library/Java/JavaVirtualMachines";
    assert IsRooted(tag, root) && root[|root| - 1] == 's';
    var v := version + ".jdk";
    assert v[0] == version[0] && v[|v| - 1] == 'k';
    var a := Join(tag, "", root);
    var b := Join(tag, a, v);
    JoinPlain(tag, a, v);
    assert b[|b| - 1] == 'k';
    DarwinBundleTail(b);
    var f := b + "/Contents/Home/bin/java";
    assert f == (root + "/") + version + (".jdk" + "/Contents/Home/bin/java");
    DarwinPieces();
  }

  /** The fixed pieces of the macOS layout, glued together; a step of `DarwinJavaLayout`, with no source counterpart of its own. */
  lemma DarwinPieces()
    ensures "/Library/Java/JavaVirtualMachines" + "/" == "/Library/Java/JavaVirtualMachines/"
    ensures ".jdk" + "/Contents/Home/bin/java" == ".jdk/Contents/Home/bin/java"
  {
  }

  /** The Linux executable path laid out in full, for an ordinary runtime directory name. */
  lemma {:induction false} LinuxJavaLayout(version: string)
    requires EntryName("linux", version)
    ensures LinuxJava(version) == "/usr/lib/jvm/" + version + "/bin/java"
  {
    var tag := "linux";
    var root := "/usr/lib/jvm";
    assert IsRooted(tag, root) && root[|root| - 1] == 'm';
    var a := Join(tag, "", root);
    var b := Join(tag, a, version);
    JoinPlain(tag, a, version);
    var c := Join(tag, b, "bin");
    JoinPlain(tag, b, "bin");
    var d := Join(tag, c, "java");
    JoinPlain(tag, c, "java");
    assert d == (root + "/") + version + ("/bin" + "/java");
    assert root + "/" == "/usr/lib/jvm/";
    assert "/bin" + "/java" == "/bin/java";
  }

  /** `get_java_path`: pushes the components one by one; an unknown tag panics. */
  method GetJavaPath(tag: string, version: string) returns (r: Run<string>)
    ensures r.Returns? <==> JavaExecutable(tag, version).Some?
    ensures r.Returns? ==> r.value == JavaExecutable(tag, version).value
  {
    var pathBuf := "";
    match tag {
      case "win32" =>
        pathBuf := Join(tag, pathBuf, "C:\\Program Files\\Java");
        pathBuf := Join(tag, pathBuf, version);
        pathBuf := Join(tag, pathBuf, "bin");
        pathBuf := Join(tag, pathBuf, "java.exe");
      case "darwin" =>
        pathBuf := Join(tag, pathBuf, "/Library/Java/JavaVirtualMachines");
        pathBuf := Join(tag, pathBuf, version + ".jdk");
        pathBuf := Join(tag, pathBuf, "Contents");
        pathBuf := Join(tag, pathBuf, "Home");
        pathBuf := Join(tag, pathBuf, "bin");
        pathBuf := Join(tag, pathBuf, "java");
      case "linux" =>
        pathBuf := Join(tag, pathBuf, "/usr/lib/jvm");
        pathBuf := Join(tag, pathBuf, version);
        pathBuf := Join(tag, pathBuf, "bin");
        pathBuf := Join(tag, pathBuf, "java");
      case _ =>
        return Panics;
    }
    r := Returns(pathBuf);
  }

  /** The executable `get_java_path` gives for each version (every version, on a known tag). */
  function Candidates(tag: string, versions: seq<string>): (paths: seq<string>)
    requires GetJavaVersionsDir(tag).Some?
    ensures |paths| == |versions|
    ensures forall i :: 0 <= i < |versions| ==> Some(paths[i]) == JavaExecutable(tag, versions[i])
  {
    seq(|versions|, i requires 0 <= i < |versions| => JavaExecutable(tag, versions[i]).value)
  }

  /** The paths among `candidates` that exist, in order. */
  function ExistingPaths(candidates: seq<string>, existing: set<string>): (paths: seq<string>)
  {
    if candidates == [] then []
    else
      var p := candidates[|candidates| - 1];
      ExistingPaths(candidates[..|candidates| - 1], existing) + (if p in existing then [p] else [])
  }

  /** A candidate is reported exactly when it exists. */
  lemma {:induction false} ExistingPathsExact(candidates: seq<string>, existing: set<string>, p: string)
    ensures p in ExistingPaths(candidates, existing) <==> p in candidates && p in existing
    decreases |candidates|
  {
    if candidates != [] {
      var init := candidates[..|candidates| - 1];
      ExistingPathsExact(init, existing, p);
      assert candidates == init + [candidates[|candidates| - 1]];
    }
  }

  /** The filter keeps the candidates' order: it works one candidate at a time. */
  lemma {:induction false} ExistingPathsAppend(xs: seq<string>, ys: seq<string>, existing: set<string>)
    ensures ExistingPaths(xs + ys, existing) == ExistingPaths(xs, existing) + ExistingPaths(ys, existing)
    decreases |ys|
  {
    if ys == [] {
      assert xs + ys == xs;
    } else {
      var ys' := ys[..|ys| - 1];
      assert (xs + ys)[..|xs + ys| - 1] == xs + ys';
      ExistingPathsAppend(xs, ys', existing);
    }
  }

  /** What `search_java_paths` computes for a platform tag and a filesystem. */
  function SearchResult(tag: string, dir: DirState, existing: set<string>): Run<seq<string>>
  {
    if GetJavaVersionsDir(tag).None? then Panics
    else
      match GetJavaVersions(dir)
      case Panics => Panics
      case Returns(versions) => Returns(ExistingPaths(Candidates(tag, versions), existing))
  }

  /**
   * `search_java_paths`: an unknown tag panics; otherwise each runtime in
   * the directory contributes its executable if that exists on disk.
   */
  method SearchJavaPaths(tag: string, dir: DirState, existing: set<string>) returns (r: Run<seq<string>>)
    ensures r == SearchResult(tag, dir, existing)
  {
    var javaVersionsDir := GetJavaVersionsDir(tag);
    if javaVersionsDir.None? {
      return Panics;
    }
    var versions := GetJavaVersions(dir);
    if versions.Panics? {
      return Panics;
    }
    ghost var candidates := Candidates(tag, versions.value);
    var paths: seq<string> := [];
    var i := 0;
    while i < |versions.value|
      invariant 0 <= i <= |versions.value|
      invariant paths == ExistingPaths(candidates[..i], existing)
    {
      var version := versions.value[i];
      var javaPath := GetJavaPath(tag, version);
      assert candidates[..i + 1][..i] == candidates[..i];
      if javaPath.value in existing {
        paths := paths + [javaPath.value];
      }
      i := i + 1;
    }
    assert candidates[..i] == candidates;
    r := Returns(paths);
  }

  /** A missing runtime directory yields no paths on every known platform. */
  lemma {:induction false} MissingDirFindsNothing(tag: string, existing: set<string>)
    requires tag == "win32" || tag == "darwin" || tag == "linux"
    ensures SearchResult(tag, Missing, existing) == Returns([])
  {
  }
}
