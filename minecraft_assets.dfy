/**
 * src/minecraft/minecraft_assets.rs: turning a version manifest (a JSON
 * document, an input here) into the launcher's lists of libraries, asset
 * objects, the client jar and the launch arguments. The platform tag, the
 * home directory and the fetched documents are parameters.
 */
module MinecraftAssets {
  import opened Wrappers
  import opened Text
  import opened Json
  import opened Utils
  import opened GlobalPath

  // ---------------------------------------------------------------------------
  // Platform names and the natives map
  // ---------------------------------------------------------------------------

  /** `get_os_type` (of both builder files): the name the manifest uses for the host platform. */
  function PlatformName(tag: OsTag): (name: string)
    ensures name == "windows" || name == "linux" || name == "osx"
    ensures name == "windows" <==> tag == "win32"
    ensures name == "osx" <==> tag == "darwin"
  {
    if tag == "win32" then "windows" else if tag == "linux" then "linux" else "osx"
  }

  /**
   * `get_natives_sys_obj_value`: the classifier a library's natives map
   * names for `system`. The map itself must be there, and the entry, when
   * present, must be a string.
   */
  function NativesSysObjValue(natives: Option<Json>, system: string): (r: Run<Option<string>>)
    ensures natives.None? ==> r.Panics?
    ensures natives.Some? && Get(natives.value, system).None? ==> r == Returns(None)
    ensures natives.Some? && Get(natives.value, system).Some? ==>
              r == (if Get(natives.value, system).value.JString? then Returns(Some(Get(natives.value, system).value.s)) else Panics)
  {
    if natives.None? then Panics
    else
      var entry := Get(natives.value, system);
      if entry.None? then Returns(None)
      else if entry.value.JString? then Returns(Some(entry.value.s))
      else Panics
  }

  // ---------------------------------------------------------------------------
  // Library rules
  // ---------------------------------------------------------------------------

  /**
   * What one rule of a library says: nothing when it lacks `action` or `os`;
   * otherwise a verdict, comparing the JSON TEXT of `os.name` (quotes
   * included) with the platform name. A rule with `os` but no `os.name` panics.
   */
  function RuleDecision(rule: Json, tag: OsTag): (r: Run<Option<bool>>)
    ensures r == Returns(None) <==> Get(rule, "action").None? || Get(rule, "os").None?
    ensures r.Panics? <==> Get(rule, "action").Some? && Get(rule, "os").Some? && Get(Get(rule, "os").value, "name").None?
    ensures r.Returns? && r.value.Some? && AsStr(Get(rule, "action").value) == Some("allow") ==>
              (r.value.value <==> ToText(Get(Get(rule, "os").value, "name").value) == PlatformName(tag))
    ensures r.Returns? && r.value.Some? && AsStr(Get(rule, "action").value) == Some("disallow") ==>
              (r.value.value <==> ToText(Get(Get(rule, "os").value, "name").value) != PlatformName(tag))
    ensures r.Returns? && r.value.Some? && AsStr(Get(rule, "action").value) !in {Some("allow"), Some("disallow")} ==>
              !r.value.value
  {
    var action := Get(rule, "action");
    var os := Get(rule, "os");
    if action.None? || os.None? then Returns(None)
    else
      var name := Get(os.value, "name");
      if name.None? then Panics
      else
        var osName := ToText(name.value);
        var verdict :=
          if AsStr(action.value) == Some("allow") then osName == PlatformName(tag)
          else if AsStr(action.value) == Some("disallow") then osName != PlatformName(tag)
          else false;
        Returns(Some(verdict))
  }

  /** The first rule that decides, decides; with no deciding rule the library is included. */
  function RulesDecision(rules: seq<Json>, tag: OsTag): Run<bool>
  {
    if rules == [] then Returns(true)
    else
      var first := RuleDecision(rules[0], tag);
      if first.Panics? then Panics
      else if first.value.Some? then Returns(first.value.value)
      else RulesDecision(rules[1..], tag)
  }

  /**
   * `is_lib_rules`: without rules, a library with a natives map is included
   * exactly when the map names the host platform, and one without is always
   * included; with rules, the first deciding rule decides.
   */
  function LibRules(rules: Option<seq<Json>>, natives: Option<Json>, tag: OsTag): (r: Run<bool>)
    ensures rules.None? && natives.None? ==> r == Returns(true)
    ensures rules.None? && natives.Some? && r.Returns? ==> (r.value <==> Get(natives.value, PlatformName(tag)).Some?)
    ensures rules.None? && natives.Some? ==>
              (r.Panics? <==> Get(natives.value, PlatformName(tag)).Some? && !Get(natives.value, PlatformName(tag)).value.JString?)
  {
    if rules.None? then
      if natives.None? then Returns(true)
      else
        var systemValue := NativesSysObjValue(natives, PlatformName(tag));
        if systemValue.Panics? then Panics else Returns(systemValue.value.Some?)
    else RulesDecision(rules.value, tag)
  }

  /** Only the first deciding rule matters: the rules after it are never looked at. */
  lemma {:induction false} FirstDecidingRuleWins(rules: seq<Json>, k: nat, tag: OsTag)
    requires k < |rules|
    requires forall j :: 0 <= j < k ==> RuleDecision(rules[j], tag) == Returns(None)
    requires RuleDecision(rules[k], tag).Returns? && RuleDecision(rules[k], tag).value.Some?
    ensures RulesDecision(rules, tag) == Returns(RuleDecision(rules[k], tag).value.value)
  {
    if k > 0 {
      assert RuleDecision(rules[0], tag) == Returns(None);
      FirstDecidingRuleWins(rules[1..], k - 1, tag);
    }
  }

  /** When no rule carries both `action` and `os`, the library is included. */
  lemma {:induction false} NoDecidingRuleIncludes(rules: seq<Json>, tag: OsTag)
    requires forall j :: 0 <= j < |rules| ==> RuleDecision(rules[j], tag) == Returns(None)
    ensures RulesDecision(rules, tag) == Returns(true)
  {
    if rules != [] {
      assert RuleDecision(rules[0], tag) == Returns(None);
      NoDecidingRuleIncludes(rules[1..], tag);
    }
  }

  /**
   * Because the compared OS name is JSON text, an `allow` rule never matches
   * the host (so it excludes the library on every platform), whatever `os.name` holds.
   */
  lemma {:induction false} AllowRuleNeverMatches(rule: Json, tag: OsTag)
    requires Get(rule, "action") == Some(JString("allow"))
    requires Get(rule, "os").Some? && Get(Get(rule, "os").value, "name").Some?
    ensures RuleDecision(rule, tag) == Returns(Some(false))
  {
    TextIsNeverOsName(Get(Get(rule, "os").value, "name").value, PlatformName(tag));
  }

  /** For the same reason a `disallow` rule always includes the library. */
  lemma {:induction false} DisallowRuleAlwaysIncludes(rule: Json, tag: OsTag)
    requires Get(rule, "action") == Some(JString("disallow"))
    requires Get(rule, "os").Some? && Get(Get(rule, "os").value, "name").Some?
    ensures RuleDecision(rule, tag) == Returns(Some(true))
  {
    TextIsNeverOsName(Get(Get(rule, "os").value, "name").value, PlatformName(tag));
  }

  /** `is_lib_rules`, an early-return loop over the rules. */
  method IsLibRules(rules: Option<seq<Json>>, natives: Option<Json>, tag: OsTag) returns (r: Run<bool>)
    ensures r == LibRules(rules, natives, tag)
  {
    if rules.None? {
      if natives.Some? {
        var systemValue := NativesSysObjValue(natives, PlatformName(tag));
        if systemValue.Panics? {
          return Panics;
        }
        return Returns(systemValue.value.Some?);
      }
      return Returns(true);
    }
    var rs := rules.value;
    var i := 0;
    while i < |rs|
      invariant 0 <= i <= |rs|
      invariant RulesDecision(rs, tag) == RulesDecision(rs[i..], tag)
    {
      assert rs[i..][1..] == rs[i + 1..];
      var action := Get(rs[i], "action");
      var osProp := Get(rs[i], "os");
      if action.Some? && osProp.Some? {
        var name := Get(osProp.value, "name");
        if name.None? {
          return Panics;
        }
        var osName := ToText(name.value);
        var actionText := AsStr(action.value);
        if actionText == Some("allow") {
          return Returns(osName == PlatformName(tag));
        } else if actionText == Some("disallow") {
          return Returns(osName != PlatformName(tag));
        } else {
          return Returns(false);
        }
      }
      i := i + 1;
    }
    return Returns(true);
  }

  // ---------------------------------------------------------------------------
  // Libraries
  // ---------------------------------------------------------------------------

  /** Whether `n` fits the manifest's `i32` size fields. */
  predicate IsI32(n: int)
  {
    -0x8000_0000 <= n < 0x8000_0000
  }

  /** A `downloads.artifact` or `downloads.classifiers.<name>` entry of a library. */
  datatype ArtifactInfo = ArtifactInfo(path: string, sha1: string, size: int, url: string)

  /** What deserialising an entry requires: string `path`, `sha1`, `url` and an `i32` `size`. */
  predicate WellFormedArtifact(j: Json)
  {
    && Get(j, "path").Some? && Get(j, "path").value.JString?
    && Get(j, "sha1").Some? && Get(j, "sha1").value.JString?
    && Get(j, "size").Some? && Get(j, "size").value.JNumber? && IsI32(Get(j, "size").value.n)
    && Get(j, "url").Some? && Get(j, "url").value.JString?
  }

  /** `serde_json::from_value::<LibrariesArtifact>(..).unwrap()`: the fields, or a panic. */
  function ParseArtifact(j: Json): (r: Run<ArtifactInfo>)
    ensures r.Returns? <==> WellFormedArtifact(j)
    ensures r.Returns? ==>
              && Get(j, "path") == Some(JString(r.value.path))
              && Get(j, "sha1") == Some(JString(r.value.sha1))
              && Get(j, "size") == Some(JNumber(r.value.size))
              && Get(j, "url") == Some(JString(r.value.url))
  {
    if WellFormedArtifact(j) then
      Returns(ArtifactInfo(Get(j, "path").value.s, Get(j, "sha1").value.s, Get(j, "size").value.n, Get(j, "url").value.s))
    else Panics
  }

  datatype LibraryKind = Artifact | Natives

  /** `Libraries`: a library to install, its file under the common `libraries` directory. */
  datatype Library = Library(kind: LibraryKind, fileName: string, filePath: string, sha1: string, size: int, url: string)

  /**
   * The entry pushed for a library: its file name is the last `/`-segment of
   * the artifact path, its file the artifact path under `librariesPath`.
   */
  function LibraryOf(tag: OsTag, librariesPath: string, kind: LibraryKind, a: ArtifactInfo): (l: Library)
    ensures l.kind == kind && l.sha1 == a.sha1 && l.size == a.size && l.url == a.url
    ensures l.fileName == LastSegment(a.path, '/')
    ensures '/' !in l.fileName && EndsWith(a.path, l.fileName)
    ensures EndsWith(l.filePath, a.path) && EndsWith(l.filePath, l.fileName)
    ensures Plain(tag, librariesPath) && !IsRooted(tag, a.path) ==> l.filePath == librariesPath + [Sep(tag)] + a.path
  {
    var fileName := LastSegment(a.path, '/');
    var filePath := Join(tag, librariesPath, a.path);
    JoinEndsWith(tag, librariesPath, a.path);
    EndsWithTrans(filePath, a.path, fileName);
    assert Plain(tag, librariesPath) && !IsRooted(tag, a.path) ==> filePath == librariesPath + [Sep(tag)] + a.path by {
      if Plain(tag, librariesPath) && !IsRooted(tag, a.path) {
        JoinPlain(tag, librariesPath, a.path);
      }
    }
    Library(kind, fileName, filePath, a.sha1, a.size, a.url)
  }

  /** A library's `rules`: absent, or an array (anything else panics in deserialisation). */
  function RulesOf(lib: Json): Run<Option<seq<Json>>>
  {
    var rules := Get(lib, "rules");
    if rules.None? then Returns(None)
    else if rules.value.JArray? then Returns(Some(rules.value.items))
    else Panics
  }

  /** The classifier name a natives map gives the host platform, when it names it with a string. */
  function NativesClassifier(lib: Json, tag: OsTag): Option<string>
  {
    var natives := Get(lib, "natives");
    if natives.Some? then
      var entry := Get(natives.value, PlatformName(tag));
      if entry.Some? && entry.value.JString? then Some(entry.value.s) else None
    else None
  }

  /**
   * The download entry of an included library: `downloads.artifact` without
   * natives, `downloads.classifiers.<natives[platform]>` with them. Every
   * missing piece panics, including a natives map that does not name the host.
   */
  function ArtifactJson(lib: Json, tag: OsTag): (r: Run<Json>)
    ensures r.Returns? ==> Get(lib, "downloads").Some?
    ensures Get(lib, "natives").None? ==>
              (r.Returns? <==> Get(lib, "downloads").Some? && Get(Get(lib, "downloads").value, "artifact").Some?)
    ensures Get(lib, "natives").None? && r.Returns? ==> Get(Get(lib, "downloads").value, "artifact") == Some(r.value)
    ensures Get(lib, "natives").Some? ==>
              (r.Returns? <==>
                 && Get(lib, "downloads").Some?
                 && NativesClassifier(lib, tag).Some?
                 && Get(Get(lib, "downloads").value, "classifiers").Some?
                 && Get(Get(Get(lib, "downloads").value, "classifiers").value, NativesClassifier(lib, tag).value).Some?)
    ensures Get(lib, "natives").Some? && r.Returns? ==>
              Get(Get(Get(lib, "downloads").value, "classifiers").value, NativesClassifier(lib, tag).value) == Some(r.value)
  {
    var downloads := Get(lib, "downloads");
    if downloads.None? then Panics
    else if Get(lib, "natives").None? then
      var artifact := Get(downloads.value, "artifact");
      if artifact.None? then Panics else Returns(artifact.value)
    else
      var systemType := NativesSysObjValue(Get(lib, "natives"), PlatformName(tag));
      var classifiers := Get(downloads.value, "classifiers");
      if systemType.Panics? || classifiers.None? || systemType.value.None? then Panics
      else
        var classifier := Get(classifiers.value, systemType.value.value);
        if classifier.None? then Panics else Returns(classifier.value)
  }

  /**
   * One iteration of `get_libraries`: `None` for an excluded library, else
   * its entry, an Artifact exactly when the library has no natives map.
   */
  function LibraryEntry(lib: Json, tag: OsTag, librariesPath: string): (r: Run<Option<Library>>)
    ensures r == Returns(None) <==>
              RulesOf(lib).Returns? && LibRules(RulesOf(lib).value, Get(lib, "natives"), tag) == Returns(false)
    ensures r.Returns? && r.value.Some? ==>
              && RulesOf(lib).Returns?
              && LibRules(RulesOf(lib).value, Get(lib, "natives"), tag) == Returns(true)
              && (r.value.value.kind == Artifact <==> Get(lib, "natives").None?)
    ensures r.Returns? && r.value.Some? ==>
              && ArtifactJson(lib, tag).Returns?
              && ParseArtifact(ArtifactJson(lib, tag).value).Returns?
              && r.value.value == LibraryOf(tag, librariesPath, r.value.value.kind, ParseArtifact(ArtifactJson(lib, tag).value).value)
    ensures r.Panics? <==>
              || RulesOf(lib).Panics?
              || LibRules(RulesOf(lib).value, Get(lib, "natives"), tag).Panics?
              || (LibRules(RulesOf(lib).value, Get(lib, "natives"), tag) == Returns(true) &&
                  (ArtifactJson(lib, tag).Panics? || ParseArtifact(ArtifactJson(lib, tag).value).Panics?))
  {
    var rules := RulesOf(lib);
    if rules.Panics? then Panics
    else
      var included := LibRules(rules.value, Get(lib, "natives"), tag);
      if included.Panics? then Panics
      else if !included.value then Returns(None)
      else
        var entry := ArtifactJson(lib, tag);
        if entry.Panics? then Panics
        else
          var parsed := ParseArtifact(entry.value);
          if parsed.Panics? then Panics
          else
            var kind := if Get(lib, "natives").None? then Artifact else Natives;
            Returns(Some(LibraryOf(tag, librariesPath, kind, parsed.value)))
  }

  /**
   * A library that has rules letting it through but whose natives map does
   * not name the platform is not skipped: the classifier lookup panics.
   */
  lemma MissingClassifierPanics(lib: Json, tag: OsTag, librariesPath: string)
    requires RulesOf(lib).Returns? && RulesOf(lib).value.Some?
    requires LibRules(RulesOf(lib).value, Get(lib, "natives"), tag) == Returns(true)
    requires Get(lib, "natives").Some? && Get(Get(lib, "natives").value, PlatformName(tag)).None?
    ensures LibraryEntry(lib, tag, librariesPath) == Panics
  {
    assert NativesClassifier(lib, tag).None?;
    assert ArtifactJson(lib, tag).Panics?;
  }

  /** One iteration of `get_libraries`, as a function of the manifest entry. */
  function EntryOf(tag: OsTag, librariesPath: string): Json -> Run<Option<Library>>
  {
    (lib: Json) => LibraryEntry(lib, tag, librariesPath)
  }

  /** `get_libraries`: resolves the common directory first (so it panics where that does), then walks the list. */
  function Libraries(libs: seq<Json>, tag: OsTag, home: Option<string>): Run<seq<Library>>
  {
    var common := GetCommonDirPath(home, tag);
    if common.Panics? then Panics
    else Collect(libs, EntryOf(tag, Join(tag, common.value, "libraries")))
  }

  /** The body of `get_libraries`' loop for one manifest entry: whether it is included, and its entry. */
  method EvaluateLibrary(lib: Json, tag: OsTag, librariesPath: string) returns (r: Run<Option<Library>>)
    ensures r == LibraryEntry(lib, tag, librariesPath)
  {
    var rulesValue := Get(lib, "rules");
    var rules: Option<seq<Json>> := None;
    if rulesValue.Some? {
      if !rulesValue.value.JArray? {
        return Panics;
      }
      rules := Some(rulesValue.value.items);
    }
    assert RulesOf(lib) == Returns(rules);
    var natives := Get(lib, "natives");
    var included := IsLibRules(rules, natives, tag);
    if included.Panics? {
      return Panics;
    }
    if !included.value {
      return Returns(None);
    }
    var entry := SelectArtifact(lib, tag);
    if entry.Panics? {
      return Panics;
    }
    var kind := if natives.None? then Artifact else Natives;
    var parsed := ParseArtifact(entry.value);
    if parsed.Panics? {
      return Panics;
    }
    return Returns(Some(LibraryOf(tag, librariesPath, kind, parsed.value)));
  }

  /** The download entry of an included library: its `artifact`, or for natives the classifier named by this platform. */
  method SelectArtifact(lib: Json, tag: OsTag) returns (r: Run<Json>)
    ensures r == ArtifactJson(lib, tag)
  {
    var downloads := Get(lib, "downloads");
    if downloads.None? {
      return Panics;
    }
    if Get(lib, "natives").None? {
      var artifact := Get(downloads.value, "artifact");
      if artifact.None? {
        return Panics;
      }
      return Returns(artifact.value);
    } else {
      var systemType := NativesSysObjValue(Get(lib, "natives"), PlatformName(tag));
      var classifiers := Get(downloads.value, "classifiers");
      if systemType.Panics? || classifiers.None? || systemType.value.None? {
        return Panics;
      }
      var classifier := Get(classifiers.value, systemType.value.value);
      if classifier.None? {
        return Panics;
      }
      return Returns(classifier.value);
    }
  }

  /** The loop of `get_libraries`: pushes each included library's entry, in manifest order. */
  method CollectLibraries(manifestLibraries: seq<Json>, tag: OsTag, librariesPath: string) returns (r: Run<seq<Library>>)
    ensures r == Collect(manifestLibraries, EntryOf(tag, librariesPath))
  {
    var libraries: seq<Library> := [];
    var i := 0;
    while i < |manifestLibraries|
      invariant 0 <= i <= |manifestLibraries|
      invariant Collect(manifestLibraries, EntryOf(tag, librariesPath)) ==
                  Prepend(libraries, Collect(manifestLibraries[i..], EntryOf(tag, librariesPath)))
    {
      assert manifestLibraries[i..][1..] == manifestLibraries[i + 1..];
      var entry := EvaluateLibrary(manifestLibraries[i], tag, librariesPath);
      if entry.Panics? {
        return Panics;
      }
      if entry.value.Some? {
        PrependPrepend(libraries, [entry.value.value], Collect(manifestLibraries[i + 1..], EntryOf(tag, librariesPath)));
        libraries := libraries + [entry.value.value];
      }
      i := i + 1;
    }
    assert manifestLibraries[i..] == [];
    assert libraries + [] == libraries;
    return Returns(libraries);
  }

  /** `get_libraries`: the libraries directory under the common directory, then the loop. */
  method GetLibraries(manifestLibraries: seq<Json>, tag: OsTag, home: Option<string>) returns (r: Run<seq<Library>>)
    ensures r == Libraries(manifestLibraries, tag, home)
  {
    var common := GetCommonDirPath(home, tag);
    if common.Panics? {
      return Panics;
    }
    var librariesPath := Join(tag, common.value, "libraries");
    r := CollectLibraries(manifestLibraries, tag, librariesPath);
  }

  /** The output lists the included libraries of a longer manifest in manifest order. */
  lemma {:induction false} LibrariesAppend(xs: seq<Json>, ys: seq<Json>, tag: OsTag, librariesPath: string)
    ensures Collect(xs + ys, EntryOf(tag, librariesPath)) ==
              if Collect(xs, EntryOf(tag, librariesPath)).Panics? then Panics
              else Prepend(Collect(xs, EntryOf(tag, librariesPath)).value, Collect(ys, EntryOf(tag, librariesPath)))
  {
    CollectAppend(xs, ys, EntryOf(tag, librariesPath));
  }

  /** A library is listed exactly when some manifest entry is included and yields it. */
  lemma {:induction false} LibrariesExact(libs: seq<Json>, tag: OsTag, librariesPath: string, l: Library)
    requires Collect(libs, EntryOf(tag, librariesPath)).Returns?
    ensures l in Collect(libs, EntryOf(tag, librariesPath)).value <==>
              exists i :: 0 <= i < |libs| && LibraryEntry(libs[i], tag, librariesPath) == Returns(Some(l))
  {
    CollectExact(libs, EntryOf(tag, librariesPath), l);
  }

  /** The walk panics exactly when some manifest entry panics, wherever it stands. */
  lemma {:induction false} LibrariesPanic(libs: seq<Json>, tag: OsTag, librariesPath: string)
    ensures Collect(libs, EntryOf(tag, librariesPath)).Panics? <==>
              exists i :: 0 <= i < |libs| && LibraryEntry(libs[i], tag, librariesPath).Panics?
  {
    CollectPanics(libs, EntryOf(tag, librariesPath));
  }

  // ---------------------------------------------------------------------------
  // Asset objects and the client jar
  // ---------------------------------------------------------------------------

  /** An entry of the asset index's `objects` map. */
  datatype ObjectData = ObjectData(hash: string, size: int)

  /** `AssetObjects`: an asset file to install. */
  datatype AssetObject = AssetObject(fileName: string, filePath: string, sha1: string, size: int, downloadUrl: string)

  const ResourcesUrl := "https://resources.download.minecraft.net/"

  /** The shard directory of an object: the first two characters of its hash (fewer if the hash is shorter). */
  function Shard(hash: string): (d: string)
    ensures d <= hash && |d| == if |hash| < 2 then |hash| else 2
  {
    hash[..if |hash| < 2 then |hash| else 2]
  }

  /** No character of `s` separates path components. */
  predicate NoSeparator(tag: string, s: string)
  {
    forall i :: 0 <= i < |s| ==> !IsSep(tag, s[i])
  }

  /** The mapping step of `get_assets_objects` for one object. */
  function AssetObjectOf(tag: OsTag, objectsPath: string, o: ObjectData): (a: AssetObject)
    ensures a.fileName == o.hash && a.sha1 == o.hash && a.size == o.size
    ensures EndsWith(a.filePath, o.hash)
    ensures ResourcesUrl <= a.downloadUrl
  {
    var dirName := Shard(o.hash);
    var filePath := Join(tag, Join(tag, objectsPath, dirName), o.hash);
    JoinEndsWith(tag, Join(tag, objectsPath, dirName), o.hash);
    AssetObject(o.hash, filePath, o.hash, o.size, ResourcesUrl + dirName + "/" + o.hash)
  }

  /**
   * For a hash without separators the object sits at
   * `<objects>/<first two>/<hash>` and is fetched from
   * `<resources>/<first two>/<hash>`; the hash is the last segment of both.
   */
  lemma {:induction false} AssetObjectLayout(tag: OsTag, objectsPath: string, o: ObjectData)
    requires Plain(tag, objectsPath) && |o.hash| > 0 && NoSeparator(tag, o.hash)
    ensures AssetObjectOf(tag, objectsPath, o).filePath == objectsPath + [Sep(tag)] + Shard(o.hash) + [Sep(tag)] + o.hash
    ensures AssetObjectOf(tag, objectsPath, o).downloadUrl == ResourcesUrl + Shard(o.hash) + "/" + o.hash
    ensures LastSegment(AssetObjectOf(tag, objectsPath, o).downloadUrl, '/') == o.hash
  {
    var d := Shard(o.hash);
    assert !IsRooted(tag, d) && Plain(tag, d) by {
      assert d[0] == o.hash[0] && d[|d| - 1] == o.hash[|d| - 1];
    }
    JoinPlain(tag, objectsPath, d);
    var p := Join(tag, objectsPath, d);
    assert p[|p| - 1] == d[|d| - 1];
    assert !IsRooted(tag, o.hash) by { assert !IsSep(tag, o.hash[0]); }
    JoinPlain(tag, p, o.hash);
    assert '/' !in o.hash by {
      forall i | 0 <= i < |o.hash| ensures o.hash[i] != '/' {
        assert !IsSep(tag, o.hash[i]);
      }
    }
    LastSegmentAfterSeparator(ResourcesUrl + d, '/', o.hash);
    assert ResourcesUrl + d + "/" + o.hash == ResourcesUrl + d + ['/'] + o.hash;
  }

  /** Two objects with different separator-free hashes are fetched from different URLs. */
  lemma {:induction false} AssetUrlsDistinct(tag: OsTag, objectsPath: string, o1: ObjectData, o2: ObjectData)
    requires Plain(tag, objectsPath)
    requires |o1.hash| > 0 && NoSeparator(tag, o1.hash) && |o2.hash| > 0 && NoSeparator(tag, o2.hash)
    requires o1.hash != o2.hash
    ensures AssetObjectOf(tag, objectsPath, o1).downloadUrl != AssetObjectOf(tag, objectsPath, o2).downloadUrl
  {
    AssetObjectLayout(tag, objectsPath, o1);
    AssetObjectLayout(tag, objectsPath, o2);
  }

  /** `<common>/assets/objects`, where the objects are stored. */
  function ObjectsPath(tag: OsTag, common: string): (p: string)
    ensures Plain(tag, p)
    ensures Plain(tag, common) ==> p == common + [Sep(tag)] + "assets" + [Sep(tag)] + "objects"
  {
    var assets := Join(tag, common, "assets");
    JoinKeepsPlain(tag, assets, "objects");
    if Plain(tag, common) then
      JoinPlain(tag, common, "assets");
      JoinKeepsPlain(tag, common, "assets");
      JoinPlain(tag, assets, "objects");
      Join(tag, assets, "objects")
    else Join(tag, assets, "objects")
  }

  /**
   * `get_assets_objects` after the index is fetched: every object of the
   * index (in the index's iteration order, an input) mapped under
   * `<common>/assets/objects`; panics where the common directory does.
   */
  function AssetsObjects(objects: seq<ObjectData>, tag: OsTag, home: Option<string>): (r: Run<seq<AssetObject>>)
    ensures r.Returns? <==> GetCommonDirPath(home, tag).Returns?
    ensures r.Returns? ==> |r.value| == |objects|
    ensures r.Returns? ==> forall i :: 0 <= i < |objects| ==> r.value[i].sha1 == objects[i].hash && r.value[i].size == objects[i].size
    ensures r.Returns? ==> forall i :: 0 <= i < |objects| ==>
              r.value[i] == AssetObjectOf(tag, ObjectsPath(tag, GetCommonDirPath(home, tag).value), objects[i])
  {
    var common := GetCommonDirPath(home, tag);
    if common.Panics? then Panics
    else
      var objectsPath := ObjectsPath(tag, common.value);
      Returns(seq(|objects|, i requires 0 <= i < |objects| => AssetObjectOf(tag, objectsPath, objects[i])))
  }

  /** The `downloads.client` entry of the manifest. */
  datatype ManifestClient = ManifestClient(sha1: string, size: int, url: string)

  /** `Client`: the game jar to install. */
  datatype Client = Client(fileName: string, filePath: string, sha1: string, size: int, url: string)

  /**
   * `get_client`: the jar `<version>.jar` under `<common>/versions/<version>`,
   * with the manifest's hash, size and URL; panics where the common directory does.
   */
  function GetClient(manifestClient: ManifestClient, version: string, tag: OsTag, home: Option<string>): (r: Run<Client>)
    ensures r.Returns? <==> GetCommonDirPath(home, tag).Returns?
    ensures r.Returns? ==>
              && r.value.fileName == version + ".jar"
              && EndsWith(r.value.filePath, r.value.fileName)
              && r.value.sha1 == manifestClient.sha1 && r.value.size == manifestClient.size && r.value.url == manifestClient.url
  {
    var common := GetCommonDirPath(home, tag);
    if common.Panics? then Panics
    else
      var fileName := version + ".jar";
      var filePath := Join(tag, Join(tag, Join(tag, common.value, "versions"), version), fileName);
      JoinEndsWith(tag, Join(tag, Join(tag, common.value, "versions"), version), fileName);
      Returns(Client(fileName, filePath, manifestClient.sha1, manifestClient.size, manifestClient.url))
  }

  /** The common directory never ends in a separator: its last component is `common`; a step of `ClientLayout`. */
  lemma CommonIsPlain(home: Option<string>, tag: OsTag)
    requires GetCommonDirPath(home, tag).Returns?
    ensures Plain(tag, GetCommonDirPath(home, tag).value)
  {
    var c := GetCommonDirPath(home, tag).value;
    assert c[|c| - 1] == 'n';
  }

  /** The three joins of the jar path, spelled out for a plain base and a plain version name; a step of `ClientLayout`. */
  lemma JarJoins(tag: OsTag, c: string, version: string)
    requires Plain(tag, c) && Plain(tag, version) && !IsRooted(tag, version)
    ensures Join(tag, Join(tag, Join(tag, c, "versions"), version), version + ".jar") ==
              c + [Sep(tag)] + "versions" + [Sep(tag)] + version + [Sep(tag)] + version + ".jar"
  {
    var v := Join(tag, c, "versions");
    JoinPlain(tag, c, "versions");
    JoinKeepsPlain(tag, c, "versions");
    var w := Join(tag, v, version);
    JoinPlain(tag, v, version);
    JoinKeepsPlain(tag, v, version);
    var jar := version + ".jar";
    assert !IsRooted(tag, jar) by { assert jar[0] == version[0]; }
    JoinPlain(tag, w, jar);
  }

  /** For a plain version name the jar sits at `<common>/versions/<version>/<version>.jar`. */
  lemma {:induction false} ClientLayout(manifestClient: ManifestClient, version: string, tag: OsTag, home: Option<string>)
    requires GetCommonDirPath(home, tag).Returns?
    requires Plain(tag, version) && !IsRooted(tag, version)
    ensures GetClient(manifestClient, version, tag, home).value.filePath ==
              GetCommonDirPath(home, tag).value + [Sep(tag)] + "versions" + [Sep(tag)] + version + [Sep(tag)] + version + ".jar"
  {
    CommonIsPlain(home, tag);
    JarJoins(tag, GetCommonDirPath(home, tag).value, version);
  }

  // ---------------------------------------------------------------------------
  // Launch arguments
  // ---------------------------------------------------------------------------

  /**
   * An argument of the manifest: a name and the placeholder its value comes
   * from. The parsers below never fill in the placeholder.
   */
  datatype Argument = Argument(name: string, placeholder: Option<string>)

  /** The first rule of a JVM argument object: its action and the optional `os.name` and `os.arch`. */
  datatype JvmRule = JvmRule(action: string, osName: Option<string>, osArch: Option<string>)

  /** The first rule of a game argument object: its action and its `features` object. */
  datatype GameRule = GameRule(action: string, features: Json)

  /** A rule-guarded group of argument values. */
  datatype RuleGroup<R> = RuleGroup(rules: seq<R>, values: seq<string>)

  /** `ArgumentJvm` / `ArgumentGame`: plain arguments and rule groups, each in manifest order. */
  datatype Parsed<R> = Parsed(arguments: seq<Argument>, argumentsRules: seq<RuleGroup<R>>)

  /** Puts the lists of `p` in front of those a computation returns. */
  function Then<R>(p: Parsed<R>, r: Run<Parsed<R>>): Run<Parsed<R>>
  {
    match r
    case Panics => Panics
    case Returns(q) => Returns(Parsed(p.arguments + q.arguments, p.argumentsRules + q.argumentsRules))
  }

  /** A loop over the manifest's argument array: each element in turn, stopping at the first panic. */
  function ParseAll<R>(elems: seq<Json>, parse: Json -> Run<Parsed<R>>): Run<Parsed<R>>
  {
    if elems == [] then Returns(Parsed([], []))
    else
      var first := parse(elems[0]);
      if first.Panics? then Panics else Then(first.value, ParseAll(elems[1..], parse))
  }

  /** Nothing in front changes nothing. */
  lemma ThenNothing<R>(r: Run<Parsed<R>>)
    ensures Then(Parsed([], []), r) == r
  {
    if r.Returns? {
      assert [] + r.value.arguments == r.value.arguments;
      assert [] + r.value.argumentsRules == r.value.argumentsRules;
    }
  }

  /** Chaining twice is chaining the concatenation. */
  lemma ThenThen<R>(p: Parsed<R>, q: Parsed<R>, r: Run<Parsed<R>>)
    ensures Then(p, Then(q, r)) == Then(Parsed(p.arguments + q.arguments, p.argumentsRules + q.argumentsRules), r)
  {
    if r.Returns? {
      assert p.arguments + (q.arguments + r.value.arguments) == (p.arguments + q.arguments) + r.value.arguments;
      assert p.argumentsRules + (q.argumentsRules + r.value.argumentsRules) ==
             (p.argumentsRules + q.argumentsRules) + r.value.argumentsRules;
    }
  }

  /** Arguments and groups come out in manifest order: parsing a concatenation concatenates the results. */
  lemma {:induction false} ParseAllAppend<R>(xs: seq<Json>, ys: seq<Json>, parse: Json -> Run<Parsed<R>>)
    ensures ParseAll(xs + ys, parse) == if ParseAll(xs, parse).Panics? then Panics else Then(ParseAll(xs, parse).value, ParseAll(ys, parse))
  {
    if xs == [] {
      assert xs + ys == ys;
      ThenNothing(ParseAll(ys, parse));
    } else {
      assert (xs + ys)[0] == xs[0];
      assert (xs + ys)[1..] == xs[1..] + ys;
      ParseAllAppend(xs[1..], ys, parse);
      var first := parse(xs[0]);
      if first.Returns? && ParseAll(xs[1..], parse).Returns? {
        ThenThen(first.value, ParseAll(xs[1..], parse).value, ParseAll(ys, parse));
      }
    }
  }

  /** Whatever every element's result satisfies, the combined result satisfies. */
  lemma {:induction false} ParseAllEvery<R>(elems: seq<Json>, parse: Json -> Run<Parsed<R>>,
                                            argOk: Argument -> bool, groupOk: RuleGroup<R> -> bool)
    requires forall i :: 0 <= i < |elems| && parse(elems[i]).Returns? ==>
               (forall a :: a in parse(elems[i]).value.arguments ==> argOk(a)) &&
               (forall g :: g in parse(elems[i]).value.argumentsRules ==> groupOk(g))
    requires ParseAll(elems, parse).Returns?
    ensures forall a :: a in ParseAll(elems, parse).value.arguments ==> argOk(a)
    ensures forall g :: g in ParseAll(elems, parse).value.argumentsRules ==> groupOk(g)
  {
    if elems != [] {
      forall i | 0 <= i < |elems| - 1 && parse(elems[1..][i]).Returns?
        ensures (forall a :: a in parse(elems[1..][i]).value.arguments ==> argOk(a)) &&
                (forall g :: g in parse(elems[1..][i]).value.argumentsRules ==> groupOk(g))
      {
        assert elems[1..][i] == elems[i + 1];
      }
      ParseAllEvery(elems[1..], parse, argOk, groupOk);
    }
  }

  /** The strings of an array, or a panic at the first element that is not a string. */
  function StringsOf(items: seq<Json>): (r: Run<seq<string>>)
    ensures r.Returns? <==> forall i :: 0 <= i < |items| ==> items[i].JString?
    ensures r.Returns? ==> |r.value| == |items| && forall i :: 0 <= i < |items| ==> items[i] == JString(r.value[i])
  {
    if items == [] then Returns([])
    else if !items[0].JString? then Panics
    else
      var rest := StringsOf(items[1..]);
      assert forall i :: 1 <= i < |items| ==> items[i] == items[1..][i - 1];
      Prepend([items[0].s], rest)
  }

  /** A `value` field: one string, or an array of strings; anything else panics. */
  function ValueList(v: Json): (r: Run<seq<string>>)
    ensures v.JString? ==> r == Returns([v.s])
    ensures v.JArray? ==> r == StringsOf(v.items)
    ensures !v.JString? && !v.JArray? ==> r.Panics?
  {
    if v.JArray? then StringsOf(v.items)
    else if v.JString? then Returns([v.s])
    else Panics
  }

  /** The loop that copies a `value` field into the group's value list. */
  method CollectValues(v: Json) returns (r: Run<seq<string>>)
    ensures r == ValueList(v)
  {
    if !v.JArray? {
      if v.JString? {
        return Returns([v.s]);
      }
      return Panics;
    }
    var items := v.items;
    var value: seq<string> := [];
    var i := 0;
    while i < |items|
      invariant 0 <= i <= |items|
      invariant StringsOf(items) == Prepend(value, StringsOf(items[i..]))
    {
      assert items[i..][1..] == items[i + 1..];
      if !items[i].JString? {
        return Panics;
      }
      PrependPrepend(value, [items[i].s], StringsOf(items[i + 1..]));
      value := value + [items[i].s];
      i := i + 1;
    }
    assert items[i..] == [] && value + [] == value;
    return Returns(value);
  }

  /** A member of `os` read with `as_str`: `None` when missing or not a string. */
  function StrMember(os: Json, key: string): Option<string>
  {
    var v := Get(os, key);
    if v.Some? && v.value.JString? then Some(v.value.s) else None
  }

  /** `os.get(key).and_then(as_str)` on a rule's `os` member, or on `null` when it has none. */
  function OsMember(rule: Json, key: string): Option<string>
  {
    StrMember(if Get(rule, "os").Some? then Get(rule, "os").value else JNull, key)
  }

  /** The first element of an argument object's `rules` array, when there is one. */
  function FirstRule(j: Json): Option<Json>
  {
    var rules := Get(j, "rules");
    if rules.Some? && rules.value.JArray? && rules.value.items != [] then Some(rules.value.items[0]) else None
  }

  /** A named placeholder is an occurrence of `=${`, so the text before the first one is shorter than the string. */
  lemma NamedPlaceholderCuts(s: string)
    requires HasNamedPlaceholder(s)
    ensures |BeforeFirst(s, "=${")| < |s|
  {
    var i :| NamedPlaceholderAt(s, i);
    OccursAtThree(s, "=${", i);
  }

  /**
   * A string of the JVM array: `k=${v}` keeps its name `k` (the text before
   * the first `=${`), a string without any `${…}` is kept whole, any other
   * placeholder string is dropped.
   */
  function JvmString(s: string): (args: seq<Argument>)
    ensures |args| <= 1
    ensures args == [] <==> HasPlaceholder(s) && !HasNamedPlaceholder(s)
    ensures args != [] ==> args[0].placeholder.None? && args[0].name <= s
    ensures HasNamedPlaceholder(s) ==> |args| == 1 && |args[0].name| < |s|
    ensures HasNamedPlaceholder(s) ==> args == [Argument(BeforeFirst(s, "=${"), None)]
    ensures !HasPlaceholder(s) ==> args == [Argument(s, None)]
  {
    if HasNamedPlaceholder(s) then
      NamedPlaceholderCuts(s);
      NamedPlaceholderIsPlaceholder(s);
      [Argument(BeforeFirst(s, "=${"), None)]
    else if !HasPlaceholder(s) then [Argument(s, None)]
    else []
  }

  /**
   * One element of the JVM array: a string as above, or an object that
   * yields a group holding only its FIRST rule, kept when it has values.
   * Missing `rules`, `value`, first rule or `action` panic.
   */
  function JvmElement(j: Json): (r: Run<Parsed<JvmRule>>)
    ensures j.JString? ==> r == Returns(Parsed(JvmString(j.s), []))
    ensures !j.JString? ==>
              (r.Returns? <==>
                 && FirstRule(j).Some? && StrMember(FirstRule(j).value, "action").Some?
                 && Get(j, "value").Some? && ValueList(Get(j, "value").value).Returns?)
    ensures !j.JString? && r.Returns? ==>
              && r.value.arguments == [] && |r.value.argumentsRules| <= 1
              && (r.value.argumentsRules != [] <==> ValueList(Get(j, "value").value).value != [])
    ensures !j.JString? && r.Returns? && r.value.argumentsRules != [] ==>
              var first := FirstRule(j).value;
              && r.value.argumentsRules[0].values == ValueList(Get(j, "value").value).value
              && r.value.argumentsRules[0].rules ==
                   [JvmRule(StrMember(first, "action").value, OsMember(first, "name"), OsMember(first, "arch"))]
  {
    if j.JString? then Returns(Parsed(JvmString(j.s), []))
    else
      var rules := Get(j, "rules");
      var value := Get(j, "value");
      if rules.None? || !rules.value.JArray? || value.None? || rules.value.items == [] then Panics
      else
        var first := rules.value.items[0];
        var action := Get(first, "action");
        if action.None? || !action.value.JString? then Panics
        else
          var rule := JvmRule(action.value.s, OsMember(first, "name"), OsMember(first, "arch"));
          var values := ValueList(value.value);
          if values.Panics? then Panics
          else Returns(Parsed([], if values.value == [] then [] else [RuleGroup([rule], values.value)]))
  }

  /** One element of the game array: a string without `${…}` is kept whole; an object as for the JVM, recording `features`. */
  function GameElement(j: Json): (r: Run<Parsed<GameRule>>)
    ensures j.JString? ==> r == Returns(Parsed(if HasPlaceholder(j.s) then [] else [Argument(j.s, None)], []))
    ensures !j.JString? ==>
              (r.Returns? <==>
                 && FirstRule(j).Some? && StrMember(FirstRule(j).value, "action").Some?
                 && Get(FirstRule(j).value, "features").Some?
                 && Get(j, "value").Some? && ValueList(Get(j, "value").value).Returns?)
    ensures !j.JString? && r.Returns? ==>
              && r.value.arguments == [] && |r.value.argumentsRules| <= 1
              && (r.value.argumentsRules != [] <==> ValueList(Get(j, "value").value).value != [])
    ensures !j.JString? && r.Returns? && r.value.argumentsRules != [] ==>
              var first := FirstRule(j).value;
              && r.value.argumentsRules[0].values == ValueList(Get(j, "value").value).value
              && r.value.argumentsRules[0].rules ==
                   [GameRule(StrMember(first, "action").value, Get(first, "features").value)]
  {
    if j.JString? then Returns(Parsed(if HasPlaceholder(j.s) then [] else [Argument(j.s, None)], []))
    else
      var rules := Get(j, "rules");
      var value := Get(j, "value");
      if rules.None? || !rules.value.JArray? || value.None? || rules.value.items == [] then Panics
      else
        var first := rules.value.items[0];
        var action := Get(first, "action");
        var features := Get(first, "features");
        if action.None? || !action.value.JString? || features.None? then Panics
        else
          var values := ValueList(value.value);
          if values.Panics? then Panics
          else Returns(Parsed([], if values.value == [] then [] else [RuleGroup([GameRule(action.value.s, features.value)], values.value)]))
  }

  /** The body of `get_jvm_arguments`' loop for one element. */
  method ParseJvmElement(j: Json) returns (r: Run<Parsed<JvmRule>>)
    ensures r == JvmElement(j)
  {
    var arguments: seq<Argument> := [];
    var argumentsRules: seq<RuleGroup<JvmRule>> := [];
    if j.JString? {
      var s := j.s;
      if HasNamedPlaceholder(s) {
        arguments := [Argument(BeforeFirst(s, "=${"), None)];
      } else if !HasPlaceholder(s) {
        arguments := [Argument(s, None)];
      }
      return Returns(Parsed(arguments, argumentsRules));
    }
    var rules := Get(j, "rules");
    if rules.None? || !rules.value.JArray? {
      return Panics;
    }
    var value := Get(j, "value");
    if value.None? || rules.value.items == [] {
      return Panics;
    }
    var first := rules.value.items[0];
    var os := if Get(first, "os").Some? then Get(first, "os").value else JNull;
    var action := Get(first, "action");
    if action.None? || !action.value.JString? {
      return Panics;
    }
    var rule := JvmRule(action.value.s, StrMember(os, "name"), StrMember(os, "arch"));
    assert rule.osName == OsMember(first, "name") && rule.osArch == OsMember(first, "arch");
    var values := CollectValues(value.value);
    if values.Panics? {
      return Panics;
    }
    if values.value != [] {
      argumentsRules := [RuleGroup([rule], values.value)];
    }
    return Returns(Parsed(arguments, argumentsRules));
  }

  /** The body of `get_game_arguments`' loop for one element. */
  method ParseGameElement(j: Json) returns (r: Run<Parsed<GameRule>>)
    ensures r == GameElement(j)
  {
    var arguments: seq<Argument> := [];
    var argumentsRules: seq<RuleGroup<GameRule>> := [];
    if j.JString? {
      if !HasPlaceholder(j.s) {
        arguments := [Argument(j.s, None)];
      }
      return Returns(Parsed(arguments, argumentsRules));
    }
    var rules := Get(j, "rules");
    if rules.None? || !rules.value.JArray? {
      return Panics;
    }
    var value := Get(j, "value");
    if value.None? || rules.value.items == [] {
      return Panics;
    }
    var first := rules.value.items[0];
    var action := Get(first, "action");
    var features := Get(first, "features");
    if action.None? || !action.value.JString? || features.None? {
      return Panics;
    }
    var values := CollectValues(value.value);
    if values.Panics? {
      return Panics;
    }
    if values.value != [] {
      argumentsRules := [RuleGroup([GameRule(action.value.s, features.value)], values.value)];
    }
    return Returns(Parsed(arguments, argumentsRules));
  }

  /** `get_jvm_arguments`: the loop over the `arguments.jvm` array. */
  method GetJvmArguments(argumentsJvm: seq<Json>) returns (r: Run<Parsed<JvmRule>>)
    ensures r == ParseAll(argumentsJvm, JvmElement)
  {
    var parsed: Parsed<JvmRule> := Parsed([], []);
    var i := 0;
    ThenNothing(ParseAll(argumentsJvm, JvmElement));
    while i < |argumentsJvm|
      invariant 0 <= i <= |argumentsJvm|
      invariant ParseAll(argumentsJvm, JvmElement) == Then(parsed, ParseAll(argumentsJvm[i..], JvmElement))
    {
      assert argumentsJvm[i..][1..] == argumentsJvm[i + 1..];
      var element := ParseJvmElement(argumentsJvm[i]);
      if element.Panics? {
        return Panics;
      }
      ThenThen(parsed, element.value, ParseAll(argumentsJvm[i + 1..], JvmElement));
      parsed := Parsed(parsed.arguments + element.value.arguments, parsed.argumentsRules + element.value.argumentsRules);
      i := i + 1;
    }
    assert argumentsJvm[i..] == [];
    assert parsed.arguments + [] == parsed.arguments && parsed.argumentsRules + [] == parsed.argumentsRules;
    return Returns(parsed);
  }

  /** `get_game_arguments`: the loop over the `arguments.game` array. */
  method GetGameArguments(argumentsGame: seq<Json>) returns (r: Run<Parsed<GameRule>>)
    ensures r == ParseAll(argumentsGame, GameElement)
  {
    var parsed: Parsed<GameRule> := Parsed([], []);
    var i := 0;
    ThenNothing(ParseAll(argumentsGame, GameElement));
    while i < |argumentsGame|
      invariant 0 <= i <= |argumentsGame|
      invariant ParseAll(argumentsGame, GameElement) == Then(parsed, ParseAll(argumentsGame[i..], GameElement))
    {
      assert argumentsGame[i..][1..] == argumentsGame[i + 1..];
      var element := ParseGameElement(argumentsGame[i]);
      if element.Panics? {
        return Panics;
      }
      ThenThen(parsed, element.value, ParseAll(argumentsGame[i + 1..], GameElement));
      parsed := Parsed(parsed.arguments + element.value.arguments, parsed.argumentsRules + element.value.argumentsRules);
      i := i + 1;
    }
    assert argumentsGame[i..] == [];
    assert parsed.arguments + [] == parsed.arguments && parsed.argumentsRules + [] == parsed.argumentsRules;
    return Returns(parsed);
  }

  /**
   * What the JVM parser produces: arguments without a placeholder, and
   * groups that each hold exactly one rule and at least one value.
   */
  lemma {:induction false} JvmArgumentsShape(elems: seq<Json>)
    requires ParseAll(elems, JvmElement).Returns?
    ensures forall a :: a in ParseAll(elems, JvmElement).value.arguments ==> a.placeholder.None?
    ensures forall g :: g in ParseAll(elems, JvmElement).value.argumentsRules ==> |g.rules| == 1 && g.values != []
  {
    ParseAllEvery(elems, JvmElement, (a: Argument) => a.placeholder.None?,
                  (g: RuleGroup<JvmRule>) => |g.rules| == 1 && g.values != []);
  }

  /**
   * What the game parser produces: arguments whose names hold no `${…}` and
   * carry no placeholder, and groups of one rule and at least one value.
   */
  lemma {:induction false} GameArgumentsShape(elems: seq<Json>)
    requires ParseAll(elems, GameElement).Returns?
    ensures forall a :: a in ParseAll(elems, GameElement).value.arguments ==> a.placeholder.None? && !HasPlaceholder(a.name)
    ensures forall g :: g in ParseAll(elems, GameElement).value.argumentsRules ==> |g.rules| == 1 && g.values != []
  {
    ParseAllEvery(elems, GameElement, (a: Argument) => a.placeholder.None? && !HasPlaceholder(a.name),
                  (g: RuleGroup<GameRule>) => |g.rules| == 1 && g.values != []);
  }

  /** The manifest's `arguments`: the parsed game and JVM arrays. */
  datatype Arguments = Arguments(game: Parsed<GameRule>, jvm: Parsed<JvmRule>)

  /**
   * Everything the launch command is built from, plus the version names the
   * builder substitutes into the game arguments.
   */
  datatype Assets = Assets(arguments: Arguments, assetsObjects: seq<AssetObject>, libraries: seq<Library>,
                           client: Client, mainClass: string, minecraftVersion: string, assetsVersion: string)

  // ---------------------------------------------------------------------------
  // The main class
  // ---------------------------------------------------------------------------

  /** `manifest.get("mainClass").unwrap().to_string()`: the JSON text of the value. */
  function MainClass(manifest: Json): (r: Run<string>)
    ensures r.Panics? <==> Get(manifest, "mainClass").None?
    ensures r.Returns? ==> r.value == ToText(Get(manifest, "mainClass").value)
  {
    var mainClass := Get(manifest, "mainClass");
    if mainClass.None? then Panics else Returns(ToText(mainClass.value))
  }

  /** A string main class comes out quoted, so never equal to the class name itself. */
  lemma {:induction false} MainClassKeepsQuotes(manifest: Json, name: string)
    requires Get(manifest, "mainClass") == Some(JString(name))
    ensures MainClass(manifest).Returns?
    ensures MainClass(manifest).value[0] == '"' && MainClass(manifest).value[|MainClass(manifest).value| - 1] == '"'
    ensures MainClass(manifest).value != name
  {
    EscapeLonger(name);
  }
}
