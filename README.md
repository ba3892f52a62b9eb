# mcKismetLab launcher core, modelled in Dafny

This project models the core of the mcKismetLab Minecraft launcher library: the steps that turn a version
manifest into a launch command, and the checks that decide which files to download.

- **Platform tag** (`src/utils.rs`). The compile-time OS name maps to `win32`, `darwin` or `linux`.
- **Data directories** (`src/global_path.rs`). The data directory comes from the home directory: `AppData\Roaming\.mckismetlab` on Windows and `/Library/Application Support/mckismetlab` on macOS. There is none on Linux. The `instances` and `common` directories sit under it.
- **Java runtimes** (`src/java.rs`). The launcher looks in a per-platform directory for runtime names starting with `jdk` or `jre`. It builds each runtime's `java` executable path and keeps the paths that exist.
- **Manifest normalisation** (`src/minecraft/minecraft_assets.rs`). This covers library rules and natives classifiers, library entries (`Artifact` or `Natives`), the sharded asset-object paths and URLs, the client jar, the JVM and game argument arrays, and `mainClass`.
- **Launch command** (`src/minecraft/minecraft_start_parameter.rs`). The sections come in a fixed order: JVM rule values, JVM templates, heap flags, the main class, then the game templates. The natives libraries are filtered out separately.
- **Downloads** (`src/assets_installer.rs`). The launcher checks the client, then the asset objects, then the libraries, one file at a time. A file is downloaded when it is missing or its SHA-1 differs. The first error stops the run.

How the model represents the system:
- Panics (`unwrap` on a missing value, `panic!`) are the `Panics` case of `Wrappers.Run`.
- JSON values are the `Json.Json` datatype. `Json.ToText` prints a value back as compact JSON text, as `serde_json`'s `to_string` does. Strings are escaped the way `serde_json` escapes them.
- Paths are strings. `GlobalPath.Join` is `PathBuf::join`/`push`: a rooted segment replaces the base, and the separator is `\` on Windows and `/` elsewhere.
- Inputs that are outside the model become parameters: the home directory, the OS, the host architecture, the natives directory's UUID, directory listings, which files exist, server responses and the SHA-1 function.
- Code that changes state step by step is modelled as methods. Each method is proved equal to a specification function, and lemmas state the properties of that function.
- The installer's disk and request log are the fields of the class `AssetsInstaller.Host`.

Where the code behaves in a way that its neighbouring code shows is unlikely to be meant, the model follows the code:
- **Library rules compare quoted text.** A library rule's OS name is read with `to_string()` (`src/minecraft/minecraft_assets.rs:283`), so it keeps its JSON quotes. The builder compares a JVM rule's bare `os.name` string with the same OS names (`src/minecraft/minecraft_start_parameter.rs:132`). The library check never matches: an `allow` rule excludes the library on every platform, and a `disallow` rule includes it (`AllowRuleNeverMatches`, `DisallowRuleAlwaysIncludes`).
- **`mainClass` keeps its quotes.** It is also read with `to_string()` (line 190), so it comes out quoted (`MainClassKeepsQuotes`).
- **Missing natives classifier.** A library without `rules` whose natives map lacks the platform's key is skipped (lines 264-274). A library whose `rules` let it through reaches `system_type.unwrap()` at line 245 with the same missing key, and panics (`MinecraftAssets.MissingClassifierPanics`).
- **Placeholders are never recorded.** The argument parsers set each argument's placeholder to `None` (lines 401-409 and 475-478). The builder, however, matches on the placeholder. So every template the manifest declares is dropped, and the command line is only the JVM rule values, the heap flags and the main class (`StartParameter.ParsedTemplatesVanish`).
- **Field names in the builder.** `src/minecraft/minecraft_start_parameter.rs` reads `arg.argument`, `arg.value`, `minecraft_version` and `assets_version`. These fields do not match the structs at `src/minecraft/minecraft_assets.rs:41-44` and `164-170`. The model uses the intended shape: an argument is a name plus an optional placeholder, and `MinecraftAssets.Assets` carries both version strings. Likewise `src/assets_installer.rs` imports `MinecraftClient` (lines 6 and 59), but the struct is `Client` (`src/minecraft/minecraft_assets.rs:155`). It reads `asset_object.url` (line 50), but the field is `download_url` (`src/minecraft/minecraft_assets.rs:98`). The model uses `Client` and fetches an object from its `downloadUrl`.
- **Downloads are sequential.** They run one after another. The `limit` argument of `validate_download_assets` has no effect, and the first failure ends the run.

## Model

| member | source | states |
|---|---|---|
| Utils.GetOsType | src/utils.rs:3-10 | `windows`, `macos` and `linux` map to `win32`, `darwin` and `linux`, and no other OS name returns; the result's OS name is the input |
| Utils.GetOsTypeOnto | src/utils.rs:4-8 | every tag is produced from exactly its own OS name |
| GlobalPath.JoinPlain | src/global_path.rs:8 | joining a relative segment onto a path that does not end in a separator inserts exactly one separator |
| GlobalPath.JoinEndsWith | src/global_path.rs:8-9 | a joined path always ends with the joined segment |
| GlobalPath.WindowsDataDir | src/global_path.rs:8 | the Windows data directory is `<home>\AppData\Roaming\.mckismetlab` and never ends in a separator |
| GlobalPath.GameDataDirPath | src/global_path.rs:5-12 | panics iff there is no home directory; otherwise it gives a directory iff the platform is not Linux; on macOS it is `/Library/Application Support/mckismetlab` whatever the home; on Windows it is under the home |
| GlobalPath.GetInstancesDirPath | src/global_path.rs:14-16 | returns iff a home directory exists and the platform is not Linux; the result is `<data>/instances` |
| GlobalPath.GetCommonDirPath | src/global_path.rs:18-20 | returns iff a home directory exists and the platform is not Linux; the result is `<data>/common` |
| GlobalPath.DarwinCommonIgnoresHome | src/global_path.rs:9 | on macOS the common directory is `/Library/Application Support/mckismetlab/common` for every home directory |
| GlobalPath.InstancesAndCommonAreSiblings | src/global_path.rs:14-20 | where the common directory resolves, so does the instances directory; they differ and their last components are `instances` and `common` |
| Java.GetJavaVersionsDir | src/java.rs:24-31 | a directory exactly for `win32`, `darwin` and `linux`: `C:\Program Files\Java`, `/Library/Java/JavaVirtualMachines`, `/usr/lib/jvm` |
| Java.RuntimeNames | src/java.rs:38-51 | every kept name starts with `jdk` or `jre`; every readable entry with such a name is kept; nothing else appears |
| Java.RuntimeNamesAppend | src/java.rs:38-51 | the name filter keeps the listing order |
| Java.GetJavaVersions | src/java.rs:33-52 | a missing directory gives no versions; an unlistable one panics; otherwise the filtered names |
| Java.WindowsJavaLayout | src/java.rs:56-63 | the Windows executable is `C:\Program Files\Java\<v>\bin\java.exe` |
| Java.DarwinBundleTail | src/java.rs:68-71 | pushing `Contents`, `Home`, `bin`, `java` onto a plain path appends `/Contents/Home/bin/java` |
| Java.DarwinJavaLayout | src/java.rs:64-73 | the macOS executable is `/Library/Java/JavaVirtualMachines/<v>.jdk/Contents/Home/bin/java` |
| Java.LinuxJavaLayout | src/java.rs:74-81 | the Linux executable is `/usr/lib/jvm/<v>/bin/java` |
| Java.GetJavaPath | src/java.rs:54-84 | the pushes give the platform's executable path; an unknown tag panics |
| Java.Candidates | src/java.rs:15-16 | on a known platform every version has an executable path, at the same index |
| Java.ExistingPathsExact | src/java.rs:15-21 | a candidate path is reported exactly when it exists |
| Java.ExistingPathsAppend | src/java.rs:15-21 | the reported paths keep the version order |
| Java.SearchJavaPaths | src/java.rs:6-22 | the loop's result equals the existing candidates, in order; an unknown tag or an unlistable directory panics |
| Java.MissingDirFindsNothing | src/java.rs:34-36 | on every known platform a missing runtime directory yields no paths |
| MinecraftAssets.PlatformName | src/minecraft/minecraft_assets.rs:302-309 | the manifest's OS name: `windows` exactly for win32, `osx` exactly for darwin, otherwise `linux` |
| MinecraftAssets.NativesSysObjValue | src/minecraft/minecraft_assets.rs:311-316 | no natives map panics; a missing key gives none; a present key gives its string and panics on a non-string |
| MinecraftAssets.RuleDecision | src/minecraft/minecraft_assets.rs:279-288 | a rule decides iff it has both `action` and `os`; a deciding rule without `os.name` panics; `allow` includes iff the JSON text of `os.name` equals the platform's manifest name, `disallow` iff it differs, and any other action excludes |
| MinecraftAssets.LibRules | src/minecraft/minecraft_assets.rs:262-300 | with no rules, a library without natives is included, and one with natives is included iff the map has the platform's key |
| MinecraftAssets.FirstDecidingRuleWins | src/minecraft/minecraft_assets.rs:278-297 | the first rule carrying `action` and `os` decides; later rules are ignored |
| MinecraftAssets.NoDecidingRuleIncludes | src/minecraft/minecraft_assets.rs:299 | if no rule carries both `action` and `os`, the library is included |
| MinecraftAssets.AllowRuleNeverMatches | src/minecraft/minecraft_assets.rs:283-285 | because the OS name is compared as quoted JSON text, an `allow` rule excludes the library on every platform |
| MinecraftAssets.DisallowRuleAlwaysIncludes | src/minecraft/minecraft_assets.rs:283-286 | for the same reason a `disallow` rule includes the library on every platform |
| Json.TextIsNeverOsName | src/minecraft/minecraft_assets.rs:283 | no JSON text equals `windows`, `linux` or `osx` |
| MinecraftAssets.IsLibRules | src/minecraft/minecraft_assets.rs:262-300 | the early-return loop computes the first-match decision |
| MinecraftAssets.ParseArtifact | src/minecraft/minecraft_assets.rs:113-118 | deserialisation succeeds iff `path`, `sha1` and `url` are strings and `size` is an `i32`, and the fields are copied |
| MinecraftAssets.LibraryOf | src/minecraft/minecraft_assets.rs:229-254 | kind, sha1, size and URL are copied; the file name is the last `/`-segment of the artifact path; the file path ends with the artifact path and is `libraries/<path>` for a relative path |
| MinecraftAssets.LibraryEntry | src/minecraft/minecraft_assets.rs:209-256 | an entry is skipped iff its rules evaluate to false; a produced library passed the rules, is `Artifact` iff there is no natives map, and is built by `LibraryOf` from the parsed entry `ArtifactJson` selects; it panics iff the rules panic or, for an included library, selecting or parsing that entry panics |
| MinecraftAssets.MissingClassifierPanics | src/minecraft/minecraft_assets.rs:239-245 | a library with rules that let it through, whose natives map lacks the platform, panics instead of being skipped |
| MinecraftAssets.EvaluateLibrary | src/minecraft/minecraft_assets.rs:211-256 | one loop iteration is proved equal to `LibraryEntry`, so it skips, builds or panics exactly as that row states |
| MinecraftAssets.ArtifactJson | src/minecraft/minecraft_assets.rs:223-245 | without natives it returns iff `downloads.artifact` exists, and gives it; with natives it returns iff `downloads`, the platform's natives key, `classifiers` and the classifier under that key all exist, and gives that classifier |
| MinecraftAssets.SelectArtifact | src/minecraft/minecraft_assets.rs:222-245 | the lookups are proved equal to `ArtifactJson`, so they select and panic as that row states |
| MinecraftAssets.CollectLibraries | src/minecraft/minecraft_assets.rs:207-259 | the loop pushes each included entry in manifest order and panics at the first panicking entry |
| MinecraftAssets.GetLibraries | src/minecraft/minecraft_assets.rs:204-260 | the libraries directory is `<common>/libraries`, then the loop runs |
| MinecraftAssets.LibrariesAppend | src/minecraft/minecraft_assets.rs:209-257 | the output follows manifest order: a longer manifest extends the output |
| MinecraftAssets.LibrariesExact | src/minecraft/minecraft_assets.rs:209-257 | a library is listed iff some manifest entry is included and yields it |
| MinecraftAssets.LibrariesPanic | src/minecraft/minecraft_assets.rs:209-257 | the walk panics iff some manifest entry panics |
| MinecraftAssets.Shard | src/minecraft/minecraft_assets.rs:328 | the shard is the first two characters of the hash |
| MinecraftAssets.AssetObjectOf | src/minecraft/minecraft_assets.rs:330-336 | file name and sha1 are the hash, size is copied, the path ends with the hash, and the URL starts with the resources host |
| MinecraftAssets.AssetObjectLayout | src/minecraft/minecraft_assets.rs:326-337 | the path is `objects/<shard>/<hash>`, the URL is `https://resources.download.minecraft.net/<shard>/<hash>`, and its last segment is the hash |
| MinecraftAssets.AssetUrlsDistinct | src/minecraft/minecraft_assets.rs:335 | different hashes are fetched from different URLs |
| MinecraftAssets.ObjectsPath | src/minecraft/minecraft_assets.rs:323 | the objects directory is `<common>/assets/objects` |
| MinecraftAssets.AssetsObjects | src/minecraft/minecraft_assets.rs:318-339 | returns iff the common directory resolves; entry `i` of the result is the asset object built by `AssetObjectOf` from index entry `i` under `<common>/assets/objects` |
| MinecraftAssets.GetClient | src/minecraft/minecraft_assets.rs:194-202 | the file name is `<version>.jar`, the path ends with it, and hash, size and URL are copied |
| MinecraftAssets.ClientLayout | src/minecraft/minecraft_assets.rs:197 | the jar path is `<common>/versions/<version>/<version>.jar` |
| MinecraftAssets.ThenThen | src/minecraft/minecraft_assets.rs:401-443 | pushing two batches in turn is pushing their concatenation |
| MinecraftAssets.ParseAllAppend | src/minecraft/minecraft_assets.rs:371-445 | arguments and groups come out in array order |
| MinecraftAssets.ParseAllEvery | src/minecraft/minecraft_assets.rs:371-445 | what every element's output satisfies, the whole output satisfies |
| MinecraftAssets.StringsOf | src/minecraft/minecraft_assets.rs:433-436 | an array of values gives its strings, one per element in order, and panics iff some element is not a string |
| MinecraftAssets.ValueList | src/minecraft/minecraft_assets.rs:433-439 | a `value` is one string or an array of strings; anything else panics |
| MinecraftAssets.CollectValues | src/minecraft/minecraft_assets.rs:433-439 | the value loop computes that list |
| MinecraftAssets.JvmString | src/minecraft/minecraft_assets.rs:397-410 | a string yields at most one argument, without a placeholder; it is dropped iff it has a `${…}` but no `=${…}`; with an `=${…}` the name is the text before the first `=${`; with no `${…}` the whole string is kept |
| MinecraftAssets.JvmElement | src/minecraft/minecraft_assets.rs:397-444 | a string never panics and gives `JvmString`'s arguments; an object returns iff its first rule has a string `action` and its `value` is a string or an array of strings; it then yields no plain argument and a group iff there are values, holding those values and one rule with the first rule's action and its `os.name` and `os.arch` strings |
| MinecraftAssets.GameElement | src/minecraft/minecraft_assets.rs:472-513 | a string is kept whole iff it has no `${…}`; an object returns iff its first rule has a string `action` and a `features` member and its `value` is a string or an array of strings; it then yields a group iff there are values, holding those values and one rule with the first rule's action and features |
| MinecraftAssets.ParseJvmElement | src/minecraft/minecraft_assets.rs:397-444 | one iteration of the JVM loop is proved equal to `JvmElement`, so it parses and panics as that row states |
| MinecraftAssets.ParseGameElement | src/minecraft/minecraft_assets.rs:472-513 | one iteration of the game loop is proved equal to `GameElement`, so it parses and panics as that row states |
| MinecraftAssets.GetJvmArguments | src/minecraft/minecraft_assets.rs:367-451 | the loop processes the elements in order and panics at the first malformed one |
| MinecraftAssets.GetGameArguments | src/minecraft/minecraft_assets.rs:453-520 | the loop processes the elements in order and panics at the first malformed one |
| MinecraftAssets.JvmArgumentsShape | src/minecraft/minecraft_assets.rs:401-443 | every parsed JVM argument has no placeholder; every group has one rule and at least one value |
| MinecraftAssets.GameArgumentsShape | src/minecraft/minecraft_assets.rs:474-512 | every parsed game argument has no placeholder and no `${…}` in its name; every group has one rule and at least one value |
| MinecraftAssets.MainClass | src/minecraft/minecraft_assets.rs:190 | a missing `mainClass` panics; otherwise it is the JSON text of the value |
| MinecraftAssets.MainClassKeepsQuotes | src/minecraft/minecraft_assets.rs:190 | a string main class comes out between quotes, never as the bare class name |
| Json.EscapeLonger | src/minecraft/minecraft_assets.rs:190 | escaping a string for JSON text never shortens it |
| Json.EscapeChar | src/minecraft/minecraft_assets.rs:190 | `"` and `\` go behind a backslash, and backspace, form feed, newline, return and tab become short escapes; other control characters become `\u00` plus two lowercase hex digits; anything else stays as it is; no raw control character is written |
| Json.Escape | src/minecraft/minecraft_assets.rs:190 | the escaped body of a string literal holds no raw control character |
| Json.EscapeCharReadBack | src/minecraft/minecraft_assets.rs:190 | each character's escape reads back as that character, whatever follows |
| Json.UnescapeEscape | src/minecraft/minecraft_assets.rs:190 | reading an escaped string back gives the original string |
| StartParameter.GetNativesFilePaths | src/minecraft/minecraft_start_parameter.rs:33-40 | the loop keeps the natives libraries |
| StartParameter.NativesOnlyExact | src/minecraft/minecraft_start_parameter.rs:35-38 | a library is kept exactly when it is of kind `Natives` |
| StartParameter.NativesOnlyAppend | src/minecraft/minecraft_start_parameter.rs:35-38 | kept libraries keep their original order |
| StartParameter.HeapFlagDenotes | src/minecraft/minecraft_start_parameter.rs:100-110 | a flag is `-X<kind>`, decimal digits, `M`, and the digits denote the size, or the default when the size is 0 |
| StartParameter.DefaultFlags | src/minecraft/minecraft_start_parameter.rs:103-109 | the defaults `-Xmx2048M` and `-Xms1024M` are the flags for 2048 and 1024 |
| StartParameter.FixedHeapFlags | src/minecraft/minecraft_start_parameter.rs:97-110 | the fixed sizes give `-Xmx4096M` then `-Xms1024M` |
| StartParameter.JvmParameters | src/minecraft/minecraft_start_parameter.rs:93-113 | the maximum flag is pushed before the minimum flag: `-Xmx4096M`, `-Xms1024M` |
| StartParameter.AppendAll | src/minecraft/minecraft_start_parameter.rs:134-142 | the value loop appends the group's values in order |
| StartParameter.GroupContributionMembers | src/minecraft/minecraft_start_parameter.rs:125-143 | a value comes out of a group iff it is the group's and some rule allows the platform's OS |
| StartParameter.JvmRuleSectionMembers | src/minecraft/minecraft_start_parameter.rs:123-145 | a value is in the rule section iff some group holds it and has an `allow` rule naming the platform |
| StartParameter.JvmRuleSectionAppend | src/minecraft/minecraft_start_parameter.rs:123-145 | groups contribute in their order |
| StartParameter.SingleRuleGroup | src/minecraft/minecraft_start_parameter.rs:127-142 | a one-rule group appends nothing, its values once, or its values twice when the architecture matches too |
| StartParameter.GroupValues | src/minecraft/minecraft_start_parameter.rs:125-143 | the inner loop appends the group's contribution |
| StartParameter.RuleValues | src/minecraft/minecraft_start_parameter.rs:127-141 | one rule appends nothing unless it allows the platform's OS, the values once if so, and once more when its arch is the host's |
| StartParameter.RuleSectionValues | src/minecraft/minecraft_start_parameter.rs:123-145 | the outer loop appends every group's contribution |
| StartParameter.SubstituteAppend | src/minecraft/minecraft_start_parameter.rs:147-156 | substitution preserves the input order |
| StartParameter.SubstituteExact | src/minecraft/minecraft_start_parameter.rs:147-156 | a string comes out iff the table maps some argument to it |
| StartParameter.SubstituteUnplaced | src/minecraft/minecraft_start_parameter.rs:148-153 | arguments without a placeholder produce nothing |
| StartParameter.JvmTemplate | src/minecraft/minecraft_start_parameter.rs:147-153 | only the four known placeholders produce output: `name=<natives dir>`, `name=mcKismetLab`, `name=v0.5.0`, and `name <classpath>` |
| StartParameter.GameTemplate | src/minecraft/minecraft_start_parameter.rs:75-85 | only the nine known placeholders produce output, as `name=<value>` from the fixed table |
| StartParameter.JvmTemplateValues | src/minecraft/minecraft_start_parameter.rs:147-156 | the template loop appends the substituted JVM templates |
| StartParameter.ClasspathEntries | src/minecraft/minecraft_start_parameter.rs:167-168 | every library path in order, then the client path last |
| StartParameter.ClasspathSplits | src/minecraft/minecraft_start_parameter.rs:163-175 | splitting the classpath at `;` (win32) or `:` gives back the library paths and then the client path, when no path contains the separator |
| StartParameter.GetJvm113Later | src/minecraft/minecraft_start_parameter.rs:115-161 | the rule-group values come first, then the JVM templates |
| StartParameter.MinecraftArguments113Later | src/minecraft/minecraft_start_parameter.rs:67-91 | the game templates are substituted in order and unknown ones are dropped |
| StartParameter.GetBuild113Above | src/minecraft/minecraft_start_parameter.rs:51-65 | the parameters are the JVM part, the heap flags, the main class and the game part, in that order |
| StartParameter.LaunchLineLayout | src/minecraft/minecraft_start_parameter.rs:51-65 | the heap flags sit right after the JVM part, `-Xmx` before `-Xms`, then the main class, then the game part |
| StartParameter.UnplacedTemplatesVanish | src/minecraft/minecraft_start_parameter.rs:147-156 | without placeholders the command line is the rule values, the two heap flags and the main class |
| StartParameter.ParsedTemplatesVanish | src/minecraft/minecraft_start_parameter.rs:74-88 | for arguments produced by the manifest parsers, no template survives |
| StartParameter.NativesDirLayout | src/minecraft/minecraft_start_parameter.rs:20 | the natives directory is `<common>/bin/<uuid>` |
| StartParameter.GetMinecraftJavaStartParameters | src/minecraft/minecraft_start_parameter.rs:16-31 | panics iff the common directory does not resolve; otherwise the fixed Java path, the natives directory, the natives libraries and the command line |
| Text.HexDigit | src/assets_installer.rs:169 | a digit is `0`-`9` or `a`-`f`, and `HexValue` reads it back as its value, so different values give different digits |
| AssetsInstaller.LowerHex | src/assets_installer.rs:169 | two lowercase hex digits per byte: byte `i` gives characters `2i` and `2i+1`, its high then its low nibble |
| AssetsInstaller.LowerHexInjective | src/assets_installer.rs:169-170 | different digests print differently, so comparing the strings compares the digests |
| AssetsInstaller.Sha1Exists | src/assets_installer.rs:165-171 | a missing file is an error; otherwise the check says true iff the file's lowercase hex SHA-1 is exactly the expected string, so a true check also means that string is lowercase hex |
| AssetsInstaller.Streamed | src/assets_installer.rs:140-155 | the counter never exceeds the total and equals `min(bytes written, total)`; the stream breaks iff some chunk fails; an unbroken stream writes all the data |
| AssetsInstaller.StreamedStaysFailed | src/assets_installer.rs:141 | after the first failed chunk nothing more is written or counted |
| AssetsInstaller.DownloadContract | src/assets_installer.rs:121-163 | the URL is requested; a failed send, a bad status or no length is an error with the files unchanged; otherwise only the target path changes; Ok iff the body is whole and hashes to the expected string, and the file then holds it |
| AssetsInstaller.ValidateFrom | src/assets_installer.rs:73-91 | the request log only grows, by at most one URL per asset |
| AssetsInstaller.ValidateOne | src/assets_installer.rs:78-89 | one file's URL is requested iff the file is not in place (missing, or its hash differs); a file in place leaves everything unchanged; a request that succeeds leaves it in place |
| AssetsInstaller.ValidateFromAppend | src/assets_installer.rs:73-91 | a pass over a concatenation is a pass over the first part and, only if that succeeds, over the second part |
| AssetsInstaller.AllInPlaceDownloadsNothing | src/assets_installer.rs:80-84 | when every file exists with a matching hash, nothing is downloaded and the disk is unchanged |
| AssetsInstaller.ValidateFromFrame | src/assets_installer.rs:73-91 | a pass changes only the files it was given |
| AssetsInstaller.ValidatedFilesAreInPlace | src/assets_installer.rs:73-91 | after a successful pass every listed file exists with its expected hash, whenever entries naming the same path expect the same hash (as asset objects with equal hashes do) |
| AssetsInstaller.LibraryDownloads | src/assets_installer.rs:30-38 | one download entry per library, in order, with its fields |
| AssetsInstaller.ObjectDownloads | src/assets_installer.rs:45-53 | one download entry per asset object, in order, fetched from its download URL |
| AssetsInstaller.ClientInstall | src/assets_installer.rs:59-68 | a jar in place leaves everything unchanged; otherwise its URL is requested, and success leaves it in place |
| AssetsInstaller.ClientInstallIsValidation | src/assets_installer.rs:59-68 | installing the client is validating the one-file list that holds it |
| AssetsInstaller.InstallerIsOnePass | src/assets_installer.rs:16-26 | installation is one sequential pass over the client, the objects, then the libraries, stopping at the first error |
| AssetsInstaller.InstalledFilesAreInPlace | src/assets_installer.rs:16-26 | after a successful installation the client jar, every asset object and every library exist with their expected hashes, whenever entries naming the same path expect the same hash |
| AssetsInstaller.Host.StreamInto | src/assets_installer.rs:137-155 | the streaming loop writes the streamed bytes to the file and returns the counter |
| AssetsInstaller.Host.DownloadFile | src/assets_installer.rs:121-163 | the outcome, disk, log and counter are those of the download specification |
| AssetsInstaller.Host.ValidateDownloadAssets | src/assets_installer.rs:70-119 | the loop performs the validation pass, whatever `limit` is |
| AssetsInstaller.Host.MinecraftClientInstall | src/assets_installer.rs:58-68 | it performs the client installation |
| AssetsInstaller.Host.MinecraftAssetsInstall | src/assets_installer.rs:43-56 | it lists the objects, then validates them |
| AssetsInstaller.Host.MinecraftLibrariesInstall | src/assets_installer.rs:28-41 | it lists the libraries, then validates them |
| AssetsInstaller.Host.ValidateInstaller | src/assets_installer.rs:16-26 | it performs the whole installation |

## Left out

- The network is not modelled: fetching the version catalog and manifest (`get_minecraft_manifest`), fetching the object index in `get_assets_objects`, and the HTTP client in `download_file`. The fetched documents, the object list and each URL's response are inputs.
- The `assets` function is not modelled as a whole. It fetches the manifest and wires the pieces into `MinecraftAssets`, and the model starts from the `Assets` value it builds. Its `mainClass` step (line 190) is modelled, by `MinecraftAssets.MainClass`. Its `get_arguments` step unwraps `arguments.game` and `arguments.jvm` as arrays, and the model starts from those arrays.
- The SHA-1 algorithm is a function parameter from bytes to digest bytes. Only the lowercase hex formatting is modelled.
- `utils::is_path_exists` is not part of this model. A path exists when it is a key of the disk map.
- Filesystem failures (`create_dir_all`, `File::create`, `write_all`, opening a file to hash it) never happen in the model, so those error paths are not covered.
- `path.parent().unwrap()` panicking on a path with no parent is not modelled.
- Logging (`println!`) is not modelled.
- `AssetsInstaller.Streamed`: the `u64` counter is unbounded here, so a wrap-around of `downloaded + chunk.len()` is not modelled. The `min` clamp is.
- `Json.ToText`: an object's members are printed in document order, repeated keys included. `serde_json` does that only with its `preserve_order` feature; otherwise its keys come out sorted, each once. The crate manifest is not part of this model. Numbers are integers, so floating-point formatting is not modelled either.
- `Json.Unescape`: it reads back only the escapes `Json.Escape` writes, plus `\/`. Uppercase hex digits, other `\u` escapes and surrogate pairs are not read.
- `MinecraftAssets.ParseArtifact`: serde's alternative of deserialising a struct from a JSON array is not modelled.
- Object-key order of the index document is not modelled. The `HashMap` iteration order of `get_assets_objects` is unspecified, and the object list is an input sequence.
- Windows drive prefixes are not modelled in `GlobalPath.Join`. `C:` is an ordinary path component there, and `to_string_lossy` is the identity.
- The commented-out concurrent download queue in `validate_download_assets` is not modelled.
- `src/game_process.rs`, `src/io/launcher_store.rs`, `src/main.rs` and `src/lib.rs` are not part of this model.
- The builder's `get_os_type` (src/minecraft/minecraft_start_parameter.rs:177-184) is the same mapping as the assets' one. It has an `unknown` fallback for other tags. It cannot occur, because the platform tag is one of the three `utils::get_os_type` returns. That mapping is modelled once, as `MinecraftAssets.PlatformName`.
- `natives_dir_path.to_str().unwrap()` panicking on a path that is not UTF-8 is not modelled, because paths are strings.
