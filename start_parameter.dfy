/**
 * src/minecraft/minecraft_start_parameter.rs: the command line that starts
 * the game, built from the parsed manifest. The sections come in a fixed
 * order: JVM rule values, JVM templates, heap flags, the main class, game
 * templates.
 */
module StartParameter {
  import opened Wrappers
  import opened Text
  import opened Utils
  import opened GlobalPath
  import opened MinecraftAssets

  // ---------------------------------------------------------------------------
  // Native libraries
  // ---------------------------------------------------------------------------

  /** The libraries of kind `Natives`, in their order. */
  function NativesOnly(libraries: seq<Library>): seq<Library>
  {
    if libraries == [] then []
    else
      var last := libraries[|libraries| - 1];
      NativesOnly(libraries[..|libraries| - 1]) + (if last.kind == Natives then [last] else [])
  }

  /** `get_natives_file_paths`: the loop that keeps the native libraries. */
  method GetNativesFilePaths(libraries: seq<Library>) returns (nativesLibraries: seq<Library>)
    ensures nativesLibraries == NativesOnly(libraries)
  {
    nativesLibraries := [];
    for i := 0 to |libraries|
      invariant nativesLibraries == NativesOnly(libraries[..i])
    {
      assert libraries[..i + 1][..i] == libraries[..i];
      if libraries[i].kind != Natives {
        continue;
      }
      nativesLibraries := nativesLibraries + [libraries[i]];
    }
    assert libraries[..|libraries|] == libraries;
  }

  /** A library is kept exactly when it is native. */
  lemma {:induction false} NativesOnlyExact(libraries: seq<Library>, l: Library)
    ensures l in NativesOnly(libraries) <==> l in libraries && l.kind == Natives
  {
    if libraries != [] {
      var init := libraries[..|libraries| - 1];
      NativesOnlyExact(init, l);
      assert libraries == init + [libraries[|libraries| - 1]];
    }
  }

  /** The filter keeps the order: filtering a concatenation concatenates the filtered parts. */
  lemma {:induction false} NativesOnlyAppend(xs: seq<Library>, ys: seq<Library>)
    ensures NativesOnly(xs + ys) == NativesOnly(xs) + NativesOnly(ys)
  {
    if ys == [] {
      assert xs + ys == xs;
    } else {
      var init := ys[..|ys| - 1];
      assert (xs + ys)[..|xs + ys| - 1] == xs + init;
      NativesOnlyAppend(xs, init);
    }
  }

  // ---------------------------------------------------------------------------
  // Heap flags
  // ---------------------------------------------------------------------------

  /** The maximum and minimum heap sizes, in MiB, that `jvm_parameters` fixes. */
  const RamSizeMax: nat := 4096
  const RamSizeMin: nat := 1024

  /** `-X<kind><size>M`, or the default flag when the size is 0. */
  function HeapFlag(kind: string, size: nat, default: string): string
  {
    if size != 0 then "-X" + kind + NatToString(size) + "M" else default
  }

  /** The two heap flags: the maximum (default 2048 MiB), then the minimum (default 1024 MiB). */
  function HeapFlags(ramSizeMax: nat, ramSizeMin: nat): seq<string>
  {
    [HeapFlag("mx", ramSizeMax, "-Xmx2048M"), HeapFlag("ms", ramSizeMin, "-Xms1024M")]
  }

  /**
   * A heap flag is `-X<kind>`, decimal digits and `M`, and the digits denote
   * the size asked for, or the default when the size is 0.
   */
  lemma {:induction false} HeapFlagDenotes(kind: string, size: nat, defaultSize: nat)
    requires defaultSize != 0
    ensures var flag := HeapFlag(kind, size, "-X" + kind + NatToString(defaultSize) + "M");
            var digits := flag[2 + |kind|..|flag| - 1];
            && |flag| > 3 + |kind|
            && flag[..2 + |kind|] == "-X" + kind && flag[|flag| - 1] == 'M'
            && (forall i :: 0 <= i < |digits| ==> '0' <= digits[i] <= '9')
            && DecimalValue(digits) == (if size == 0 then defaultSize else size)
  {
    var n := if size == 0 then defaultSize else size;
    var flag := "-X" + kind + NatToString(n) + "M";
    assert HeapFlag(kind, size, "-X" + kind + NatToString(defaultSize) + "M") == flag;
    assert flag[2 + |kind|..|flag| - 1] == NatToString(n);
    DecimalRoundTrip(n);
  }

  /** The decimal text of 1024; a step of `DefaultFlags` and `FixedHeapFlags`, with no source counterpart of its own. */
  lemma Decimal1024()
    ensures NatToString(1024) == "1024"
  {
    assert NatToString(1) == "1" && NatToString(10) == "10" && NatToString(102) == "102";
  }

  /** The decimal text of 2048; a step of `DefaultFlags`, with no source counterpart of its own. */
  lemma Decimal2048()
    ensures NatToString(2048) == "2048"
  {
    assert NatToString(2) == "2" && NatToString(20) == "20" && NatToString(204) == "204";
  }

  /** The decimal text of 4096; a step of `FixedHeapFlags`, with no source counterpart of its own. */
  lemma Decimal4096()
    ensures NatToString(4096) == "4096"
  {
    assert NatToString(4) == "4" && NatToString(40) == "40" && NatToString(409) == "409";
  }

  /** The default flags are the ones `HeapFlagDenotes` speaks about. */
  lemma DefaultFlags()
    ensures "-Xmx2048M" == "-X" + "mx" + NatToString(2048) + "M"
    ensures "-Xms1024M" == "-X" + "ms" + NatToString(1024) + "M"
  {
    Decimal2048();
    Decimal1024();
  }

  /** The fixed sizes give `-Xmx4096M` and `-Xms1024M`. */
  lemma FixedHeapFlags()
    ensures HeapFlags(RamSizeMax, RamSizeMin) == ["-Xmx4096M", "-Xms1024M"]
  {
    Decimal4096();
    Decimal1024();
    assert "-X" + "mx" + "4096" + "M" == "-Xmx4096M";
    assert "-X" + "ms" + "1024" + "M" == "-Xms1024M";
  }

  /** `jvm_parameters`: pushes the maximum flag, then the minimum flag, for the fixed sizes. */
  method JvmParameters() returns (arguments: seq<string>)
    ensures arguments == HeapFlags(RamSizeMax, RamSizeMin)
    ensures arguments == ["-Xmx4096M", "-Xms1024M"]
  {
    arguments := [];
    var ramSizeMax := RamSizeMax;
    var ramSizeMin := RamSizeMin;
    if ramSizeMax != 0 {
      arguments := arguments + ["-Xmx" + NatToString(ramSizeMax) + "M"];
    } else {
      arguments := arguments + ["-Xmx2048M"];
    }
    if ramSizeMin != 0 {
      arguments := arguments + ["-Xms" + NatToString(ramSizeMin) + "M"];
    } else {
      arguments := arguments + ["-Xms1024M"];
    }
    assert "-X" + "mx" + NatToString(ramSizeMax) + "M" == "-Xmx" + NatToString(ramSizeMax) + "M";
    assert "-X" + "ms" + NatToString(ramSizeMin) + "M" == "-Xms" + NatToString(ramSizeMin) + "M";
    FixedHeapFlags();
  }

  // ---------------------------------------------------------------------------
  // The builder's context
  // ---------------------------------------------------------------------------

  /**
   * `JavaBuildStartParameters`: the parsed manifest and the natives directory,
   * with the platform tag, the host architecture (`std::env::consts::ARCH`)
   * and the resolved common and instances directories as inputs.
   */
  datatype BuildContext = BuildContext(assets: Assets, nativesDirPath: string, tag: OsTag, arch: string,
                                       commonDir: string, instancesDir: string)

  /** Appends `values` one at a time, as the `for val in &arg.value` loops do. */
  method AppendAll(acc: seq<string>, values: seq<string>) returns (r: seq<string>)
    ensures r == acc + values
  {
    r := acc;
    for i := 0 to |values|
      invariant r == acc + values[..i]
    {
      assert values[..i + 1] == values[..i] + [values[i]];
      r := r + [values[i]];
    }
    assert values[..|values|] == values;
  }

  // ---------------------------------------------------------------------------
  // JVM rule groups
  // ---------------------------------------------------------------------------

  /** A rule lets its group through when it allows and names the platform's OS. */
  predicate Contributes(rule: JvmRule, platform: string)
  {
    rule.action == "allow" && rule.osName == Some(platform)
  }

  /**
   * What one rule appends: nothing unless it contributes; then the group's
   * values, and the values a second time when its `arch` is the host's.
   */
  function RuleContribution(rule: JvmRule, values: seq<string>, platform: string, arch: string): seq<string>
  {
    if !Contributes(rule, platform) then []
    else values + (if rule.osArch == Some(arch) then values else [])
  }

  /** What a group appends: each rule's contribution, in rule order. */
  function GroupContribution(rules: seq<JvmRule>, values: seq<string>, platform: string, arch: string): seq<string>
  {
    if rules == [] then []
    else GroupContribution(rules[..|rules| - 1], values, platform, arch) + RuleContribution(rules[|rules| - 1], values, platform, arch)
  }

  /** The first part of `get_jvm_113later`: every group's contribution, in group order. */
  function JvmRuleSection(groups: seq<RuleGroup<JvmRule>>, platform: string, arch: string): seq<string>
  {
    if groups == [] then []
    else
      var last := groups[|groups| - 1];
      JvmRuleSection(groups[..|groups| - 1], platform, arch) + GroupContribution(last.rules, last.values, platform, arch)
  }

  /** Some rule of the group allows the platform's OS. */
  predicate Allows(rules: seq<JvmRule>, platform: string)
  {
    exists k :: 0 <= k < |rules| && Contributes(rules[k], platform)
  }

  /** A value comes out of a group exactly when one of its rules contributes and the value is the group's. */
  lemma {:induction false} GroupContributionMembers(rules: seq<JvmRule>, values: seq<string>, platform: string, arch: string, v: string)
    ensures v in GroupContribution(rules, values, platform, arch) <==> v in values && Allows(rules, platform)
  {
    if rules != [] {
      var init := rules[..|rules| - 1];
      GroupContributionMembers(init, values, platform, arch, v);
      if Allows(init, platform) {
        var k :| 0 <= k < |init| && Contributes(init[k], platform);
        assert rules[k] == init[k];
      }
      if Allows(rules, platform) {
        var k :| 0 <= k < |rules| && Contributes(rules[k], platform);
        if k < |init| {
          assert init[k] == rules[k];
        }
      }
    }
  }

  /**
   * A value is in the JVM rule section exactly when some group holds it and
   * has a rule that allows the platform's OS.
   */
  lemma {:induction false} JvmRuleSectionMembers(groups: seq<RuleGroup<JvmRule>>, platform: string, arch: string, v: string)
    ensures v in JvmRuleSection(groups, platform, arch) <==>
              exists i :: 0 <= i < |groups| && Allows(groups[i].rules, platform) && v in groups[i].values
  {
    if groups != [] {
      var init := groups[..|groups| - 1];
      var last := groups[|groups| - 1];
      JvmRuleSectionMembers(init, platform, arch, v);
      GroupContributionMembers(last.rules, last.values, platform, arch, v);
      if exists i :: 0 <= i < |init| && Allows(init[i].rules, platform) && v in init[i].values {
        var i :| 0 <= i < |init| && Allows(init[i].rules, platform) && v in init[i].values;
        assert groups[i] == init[i];
      }
      if exists i :: 0 <= i < |groups| && Allows(groups[i].rules, platform) && v in groups[i].values {
        var i :| 0 <= i < |groups| && Allows(groups[i].rules, platform) && v in groups[i].values;
        if i < |init| {
          assert init[i] == groups[i];
        }
      }
    }
  }

  /** Groups come out in their order: the section of a concatenation is the concatenation of the sections. */
  lemma {:induction false} JvmRuleSectionAppend(xs: seq<RuleGroup<JvmRule>>, ys: seq<RuleGroup<JvmRule>>, platform: string, arch: string)
    ensures JvmRuleSection(xs + ys, platform, arch) == JvmRuleSection(xs, platform, arch) + JvmRuleSection(ys, platform, arch)
  {
    if ys == [] {
      assert xs + ys == xs;
    } else {
      var init := ys[..|ys| - 1];
      assert (xs + ys)[..|xs + ys| - 1] == xs + init;
      JvmRuleSectionAppend(xs, init, platform, arch);
    }
  }

  /**
   * A group with one rule (the only kind the manifest parser makes) appends
   * nothing, its values once, or its values twice when the architecture
   * also matches.
   */
  lemma SingleRuleGroup(rule: JvmRule, values: seq<string>, platform: string, arch: string)
    ensures !Contributes(rule, platform) ==> GroupContribution([rule], values, platform, arch) == []
    ensures Contributes(rule, platform) && rule.osArch != Some(arch) ==>
              GroupContribution([rule], values, platform, arch) == values
    ensures Contributes(rule, platform) && rule.osArch == Some(arch) ==>
              GroupContribution([rule], values, platform, arch) == values + values
  {
    assert [rule][..0] == [];
  }

  // ---------------------------------------------------------------------------
  // Templates
  // ---------------------------------------------------------------------------

  /** The arguments a table substitutes, in order; the table's `None` drops an argument. */
  function Substitute(args: seq<Argument>, table: Argument -> Option<string>): seq<string>
  {
    if args == [] then []
    else
      var out := table(args[|args| - 1]);
      Substitute(args[..|args| - 1], table) + (if out.Some? then [out.value] else [])
  }

  /** Substitution keeps the order of the arguments. */
  lemma {:induction false} SubstituteAppend(xs: seq<Argument>, ys: seq<Argument>, table: Argument -> Option<string>)
    ensures Substitute(xs + ys, table) == Substitute(xs, table) + Substitute(ys, table)
  {
    if ys == [] {
      assert xs + ys == xs;
    } else {
      var init := ys[..|ys| - 1];
      assert (xs + ys)[..|xs + ys| - 1] == xs + init;
      SubstituteAppend(xs, init, table);
    }
  }

  /** A string comes out exactly when the table maps some argument to it. */
  lemma {:induction false} SubstituteExact(args: seq<Argument>, table: Argument -> Option<string>, s: string)
    ensures s in Substitute(args, table) <==> exists i :: 0 <= i < |args| && table(args[i]) == Some(s)
  {
    if args != [] {
      var init := args[..|args| - 1];
      SubstituteExact(init, table, s);
      if exists i :: 0 <= i < |init| && table(init[i]) == Some(s) {
        var i :| 0 <= i < |init| && table(init[i]) == Some(s);
        assert args[i] == init[i];
      }
      if exists i :: 0 <= i < |args| && table(args[i]) == Some(s) {
        var i :| 0 <= i < |args| && table(args[i]) == Some(s);
        if i < |init| {
          assert init[i] == args[i];
        }
      }
    }
  }

  /** Arguments without a placeholder produce nothing, whatever the table does with placeholders. */
  lemma {:induction false} SubstituteUnplaced(args: seq<Argument>, table: Argument -> Option<string>)
    requires forall a: Argument :: a.placeholder.None? ==> table(a).None?
    requires forall i :: 0 <= i < |args| ==> args[i].placeholder.None?
    ensures Substitute(args, table) == []
  {
    if args != [] {
      SubstituteUnplaced(args[..|args| - 1], table);
    }
  }

  /** The four placeholders of the JVM table. */
  const JvmPlaceholders: set<string> := {"${natives_directory}", "${launcher_name}", "${launcher_version}", "${classpath}"}

  /**
   * One JVM template: `name=<natives dir>`, `name=mcKismetLab`,
   * `name=v0.5.0`, or `name <classpath>`; any other argument is dropped.
   */
  function JvmTemplate(arg: Argument, nativesDirPath: string, classpath: string): (r: Option<string>)
    ensures r.Some? <==> arg.placeholder.Some? && arg.placeholder.value in JvmPlaceholders
    ensures arg.placeholder == Some("${natives_directory}") ==> r == Some(arg.name + "=" + nativesDirPath)
    ensures arg.placeholder == Some("${launcher_name}") ==> r == Some(arg.name + "=mcKismetLab")
    ensures arg.placeholder == Some("${launcher_version}") ==> r == Some(arg.name + "=v0.5.0")
    ensures arg.placeholder == Some("${classpath}") ==> r == Some(arg.name + " " + classpath)
  {
    match arg.placeholder
    case Some("${natives_directory}") => Some(arg.name + "=" + nativesDirPath)
    case Some("${launcher_name}") => Some(arg.name + "=mcKismetLab")
    case Some("${launcher_version}") => Some(arg.name + "=v0.5.0")
    case Some("${classpath}") => Some(arg.name + " " + classpath)
    case _ => None
  }

  /** The nine placeholders of the game table. */
  const GamePlaceholders: set<string> :=
    {"${auth_player_name}", "${version_name}", "${game_directory}", "${assets_root}", "${assets_index_name}",
     "${auth_uuid}", "${auth_access_token}", "${user_type}", "${version_type}"}

  /** The value the game table gives a known placeholder. */
  function GameValue(ctx: BuildContext, placeholder: string): string
  {
    match placeholder
    case "${auth_player_name}" => "Yu_Cheng"
    case "${version_name}" => ctx.assets.minecraftVersion
    case "${game_directory}" => Join(ctx.tag, ctx.instancesDir, "mckismetlab-main-server")
    case "${assets_root}" => Join(ctx.tag, ctx.commonDir, "assets")
    case "${assets_index_name}" => ctx.assets.assetsVersion
    case "${auth_uuid}" => "93ea0589-ec75-4cad-8619-995164382e8d"
    case "${auth_access_token}" => "null_token"
    case "${user_type}" => "mojang"
    case _ => "release"
  }

  /** One game template: `name=<value>` for the nine known placeholders; any other argument is dropped. */
  function GameTemplate(ctx: BuildContext, arg: Argument): (r: Option<string>)
    ensures r.Some? <==> arg.placeholder.Some? && arg.placeholder.value in GamePlaceholders
    ensures r.Some? ==> r.value == arg.name + "=" + GameValue(ctx, arg.placeholder.value)
  {
    if arg.placeholder.Some? && arg.placeholder.value in GamePlaceholders then
      Some(arg.name + "=" + GameValue(ctx, arg.placeholder.value))
    else None
  }

  /** The JVM table of a context. */
  function JvmTable(ctx: BuildContext): Argument -> Option<string>
  {
    (a: Argument) => JvmTemplate(a, ctx.nativesDirPath, CombinationLibraryPath(ctx))
  }

  /** The game table of a context. */
  function GameTable(ctx: BuildContext): Argument -> Option<string>
  {
    (a: Argument) => GameTemplate(ctx, a)
  }

  // ---------------------------------------------------------------------------
  // Classpath
  // ---------------------------------------------------------------------------

  /** The classpath separator: `;` on Windows, `:` elsewhere. */
  function ClasspathSep(tag: OsTag): char
  {
    if tag == "win32" then ';' else ':'
  }

  /** Every library path in order, then the client jar's path. */
  function ClasspathEntries(libraries: seq<Library>, client: Client): (entries: seq<string>)
    ensures |entries| == |libraries| + 1
    ensures forall i :: 0 <= i < |libraries| ==> entries[i] == libraries[i].filePath
    ensures entries[|libraries|] == client.filePath
  {
    seq(|libraries|, i requires 0 <= i < |libraries| => libraries[i].filePath) + [client.filePath]
  }

  /** `combination_library_path`: the entries joined with the platform's separator. */
  function CombinationLibraryPath(ctx: BuildContext): string
  {
    JoinWith(ClasspathEntries(ctx.assets.libraries, ctx.assets.client), ClasspathSep(ctx.tag))
  }

  /**
   * Splitting the classpath at its separator gives back the library paths in
   * order and the client path last, as long as no path holds the separator.
   */
  lemma {:induction false} ClasspathSplits(ctx: BuildContext)
    requires forall l :: l in ctx.assets.libraries ==> ClasspathSep(ctx.tag) !in l.filePath
    requires ClasspathSep(ctx.tag) !in ctx.assets.client.filePath
    ensures var parts := Split(CombinationLibraryPath(ctx), ClasspathSep(ctx.tag));
            && |parts| == |ctx.assets.libraries| + 1
            && (forall i :: 0 <= i < |ctx.assets.libraries| ==> parts[i] == ctx.assets.libraries[i].filePath)
            && parts[|ctx.assets.libraries|] == ctx.assets.client.filePath
  {
    var entries := ClasspathEntries(ctx.assets.libraries, ctx.assets.client);
    forall i | 0 <= i < |entries|
      ensures ClasspathSep(ctx.tag) !in entries[i]
    {
      if i < |ctx.assets.libraries| {
        assert ctx.assets.libraries[i] in ctx.assets.libraries;
      }
    }
    SplitJoin(entries, ClasspathSep(ctx.tag));
  }

  // ---------------------------------------------------------------------------
  // The sections
  // ---------------------------------------------------------------------------

  /** The inner loop of `get_jvm_113later` over one group's rules. */
  method GroupValues(acc: seq<string>, arg: RuleGroup<JvmRule>, platform: string, arch: string) returns (r: seq<string>)
    ensures r == acc + GroupContribution(arg.rules, arg.values, platform, arch)
  {
    r := acc;
    for k := 0 to |arg.rules|
      invariant r == acc + GroupContribution(arg.rules[..k], arg.values, platform, arch)
    {
      assert arg.rules[..k + 1][..k] == arg.rules[..k];
      r := RuleValues(r, arg.rules[k], arg.values, platform, arch);
    }
    assert arg.rules[..|arg.rules|] == arg.rules;
  }

  /** One rule of a group, as the inner loop's body handles it. */
  method RuleValues(acc: seq<string>, rule: JvmRule, values: seq<string>, platform: string, arch: string) returns (r: seq<string>)
    ensures r == acc + RuleContribution(rule, values, platform, arch)
  {
    r := acc;
    if rule.action != "allow" {
      return;
    }
    if rule.osName.None? || rule.osName.value != platform {
      return;
    }
    r := AppendAll(r, values);
    if rule.osArch.None? || rule.osArch.value != arch {
      return;
    }
    r := AppendAll(r, values);
  }

  /** The outer loop of `get_jvm_113later` over the rule groups. */
  method RuleSectionValues(groups: seq<RuleGroup<JvmRule>>, platform: string, arch: string) returns (r: seq<string>)
    ensures r == JvmRuleSection(groups, platform, arch)
  {
    r := [];
    for i := 0 to |groups|
      invariant r == JvmRuleSection(groups[..i], platform, arch)
    {
      assert groups[..i + 1][..i] == groups[..i];
      r := GroupValues(r, groups[i], platform, arch);
    }
    assert groups[..|groups|] == groups;
  }

  /** The loop of `get_jvm_113later` over the JVM templates. */
  method JvmTemplateValues(acc: seq<string>, ctx: BuildContext, classpath: string) returns (r: seq<string>)
    requires classpath == CombinationLibraryPath(ctx)
    ensures r == acc + Substitute(ctx.assets.arguments.jvm.arguments, JvmTable(ctx))
  {
    var args := ctx.assets.arguments.jvm.arguments;
    r := acc;
    for i := 0 to |args|
      invariant r == acc + Substitute(args[..i], JvmTable(ctx))
    {
      var arg := args[i];
      assert args[..i + 1][..i] == args[..i];
      var val: string;
      match arg.placeholder {
        case Some("${natives_directory}") => val := arg.name + "=" + ctx.nativesDirPath;
        case Some("${launcher_name}") => val := arg.name + "=mcKismetLab";
        case Some("${launcher_version}") => val := arg.name + "=v0.5.0";
        case Some("${classpath}") => val := arg.name + " " + classpath;
        case _ => continue;
      }
      assert JvmTable(ctx)(arg) == Some(val);
      r := r + [val];
    }
    assert args[..|args|] == args;
  }

  /** `get_jvm_113later`: the rule groups' values, then the JVM templates. */
  method GetJvm113Later(ctx: BuildContext) returns (jvmArguments: seq<string>)
    ensures jvmArguments == JvmRuleSection(ctx.assets.arguments.jvm.argumentsRules, PlatformName(ctx.tag), ctx.arch)
                            + Substitute(ctx.assets.arguments.jvm.arguments, JvmTable(ctx))
  {
    var jvm := ctx.assets.arguments.jvm;
    jvmArguments := RuleSectionValues(jvm.argumentsRules, PlatformName(ctx.tag), ctx.arch);
    var classpath := CombinationLibraryPath(ctx);
    jvmArguments := JvmTemplateValues(jvmArguments, ctx, classpath);
  }

  /** `minecraft_arguments_113later`: the game templates, in order. */
  method MinecraftArguments113Later(ctx: BuildContext) returns (gameArguments: seq<string>)
    ensures gameArguments == Substitute(ctx.assets.arguments.game.arguments, GameTable(ctx))
  {
    var game := ctx.assets.arguments.game;
    gameArguments := [];
    for i := 0 to |game.arguments|
      invariant gameArguments == Substitute(game.arguments[..i], GameTable(ctx))
    {
      var arg := game.arguments[i];
      assert game.arguments[..i + 1][..i] == game.arguments[..i];
      if arg.placeholder.None? || arg.placeholder.value !in GamePlaceholders {
        continue;
      }
      var val := arg.name + "=" + GameValue(ctx, arg.placeholder.value);
      gameArguments := gameArguments + [val];
    }
    assert game.arguments[..|game.arguments|] == game.arguments;
  }

  /** The JVM part of the command line: rule values, then templates. */
  function JvmSection(ctx: BuildContext): seq<string>
  {
    JvmRuleSection(ctx.assets.arguments.jvm.argumentsRules, PlatformName(ctx.tag), ctx.arch)
    + Substitute(ctx.assets.arguments.jvm.arguments, JvmTable(ctx))
  }

  /** The game part of the command line. */
  function GameSection(ctx: BuildContext): seq<string>
  {
    Substitute(ctx.assets.arguments.game.arguments, GameTable(ctx))
  }

  /** The whole command line: JVM section, heap flags, main class, game section. */
  function LaunchLine(ctx: BuildContext): seq<string>
  {
    JvmSection(ctx) + HeapFlags(RamSizeMax, RamSizeMin) + [ctx.assets.mainClass] + GameSection(ctx)
  }

  /** `get_build_113above`: extends the parameters section by section. */
  method GetBuild113Above(ctx: BuildContext) returns (parameters: seq<string>)
    ensures parameters == LaunchLine(ctx)
  {
    parameters := [];
    var jvm := GetJvm113Later(ctx);
    parameters := parameters + jvm;
    var heap := JvmParameters();
    parameters := parameters + heap;
    parameters := parameters + [ctx.assets.mainClass];
    var game := MinecraftArguments113Later(ctx);
    parameters := parameters + game;
  }

  /**
   * Where things sit in the command line: the JVM part first, then
   * `-Xmx4096M` and `-Xms1024M`, then the main class, then the game part.
   */
  lemma LaunchLineLayout(ctx: BuildContext)
    ensures var line := LaunchLine(ctx);
            var k := |JvmSection(ctx)|;
            && |line| == k + 3 + |GameSection(ctx)|
            && line[..k] == JvmSection(ctx)
            && line[k] == "-Xmx4096M" && line[k + 1] == "-Xms1024M"
            && line[k + 2] == ctx.assets.mainClass
            && line[k + 3..] == GameSection(ctx)
  {
    FixedHeapFlags();
    var jvm := JvmSection(ctx);
    var game := GameSection(ctx);
    var line := LaunchLine(ctx);
    assert line == jvm + ["-Xmx4096M", "-Xms1024M", ctx.assets.mainClass] + game;
  }

  /** Arguments without placeholders produce no templates: the command line is the rule values, the heap flags and the main class. */
  lemma {:induction false} UnplacedTemplatesVanish(ctx: BuildContext)
    requires forall i :: 0 <= i < |ctx.assets.arguments.jvm.arguments| ==> ctx.assets.arguments.jvm.arguments[i].placeholder.None?
    requires forall i :: 0 <= i < |ctx.assets.arguments.game.arguments| ==> ctx.assets.arguments.game.arguments[i].placeholder.None?
    ensures LaunchLine(ctx) ==
              JvmRuleSection(ctx.assets.arguments.jvm.argumentsRules, PlatformName(ctx.tag), ctx.arch)
              + ["-Xmx4096M", "-Xms1024M", ctx.assets.mainClass]
  {
    SubstituteUnplaced(ctx.assets.arguments.jvm.arguments, JvmTable(ctx));
    SubstituteUnplaced(ctx.assets.arguments.game.arguments, GameTable(ctx));
    FixedHeapFlags();
    var rules := JvmRuleSection(ctx.assets.arguments.jvm.argumentsRules, PlatformName(ctx.tag), ctx.arch);
    assert JvmSection(ctx) == rules + [];
    assert GameSection(ctx) == [];
  }

  /**
   * When the arguments come from the manifest parsers, no argument carries a
   * placeholder, so both template sections are empty.
   */
  lemma {:induction false} ParsedTemplatesVanish(ctx: BuildContext, jvmElems: seq<Json.Json>, gameElems: seq<Json.Json>)
    requires ParseAll(jvmElems, JvmElement) == Returns(ctx.assets.arguments.jvm)
    requires ParseAll(gameElems, GameElement) == Returns(ctx.assets.arguments.game)
    ensures LaunchLine(ctx) ==
              JvmRuleSection(ctx.assets.arguments.jvm.argumentsRules, PlatformName(ctx.tag), ctx.arch)
              + ["-Xmx4096M", "-Xms1024M", ctx.assets.mainClass]
  {
    JvmArgumentsShape(jvmElems);
    GameArgumentsShape(gameElems);
    var jvmArgs := ctx.assets.arguments.jvm.arguments;
    var gameArgs := ctx.assets.arguments.game.arguments;
    forall i | 0 <= i < |jvmArgs| ensures jvmArgs[i].placeholder.None? {
      assert jvmArgs[i] in jvmArgs;
    }
    forall i | 0 <= i < |gameArgs| ensures gameArgs[i].placeholder.None? {
      assert gameArgs[i] in gameArgs;
    }
    UnplacedTemplatesVanish(ctx);
  }

  // ---------------------------------------------------------------------------
  // Entry point
  // ---------------------------------------------------------------------------

  /** The Java executable the launcher starts, fixed in the source. */
  const JavaVmPath := "/usr/lib/jvm/java-17-openjdk-amd64/bin/java"

  /** `MinecraftJavaStartParameters`. */
  datatype StartParameters = StartParameters(javaVmPath: string, nativesDirPath: string,
                                             nativesFiles: seq<Library>, parameters: seq<string>)

  /** `<common>/bin/<uuid>`: the natives directory, named by a fresh UUID (a parameter here). */
  function NativesDirPath(tag: OsTag, commonDir: string, uuid: string): string
  {
    Join(tag, Join(tag, commonDir, "bin"), uuid)
  }

  /** A UUID lands in its own directory under `<common>/bin`. */
  lemma NativesDirLayout(tag: OsTag, commonDir: string, uuid: string)
    requires Plain(tag, commonDir) && !IsRooted(tag, uuid)
    ensures NativesDirPath(tag, commonDir, uuid) == commonDir + [Sep(tag)] + "bin" + [Sep(tag)] + uuid
  {
    JoinPlain(tag, commonDir, "bin");
    assert Plain(tag, Join(tag, commonDir, "bin"));
    JoinPlain(tag, Join(tag, commonDir, "bin"), uuid);
  }

  /** The context `get_minecraft_java_start_parameters` builds, where the data directory resolves. */
  function ContextOf(assets: Assets, home: Option<string>, tag: OsTag, arch: string, uuid: string): BuildContext
    requires GetCommonDirPath(home, tag).Returns?
  {
    var common := GetCommonDirPath(home, tag).value;
    BuildContext(assets, NativesDirPath(tag, common, uuid), tag, arch, common, GetInstancesDirPath(home, tag).value)
  }

  /**
   * `get_minecraft_java_start_parameters`: panics where the common directory
   * does not resolve (no home directory, or Linux); otherwise the fixed Java
   * path, the natives directory, the native libraries and the command line.
   */
  method GetMinecraftJavaStartParameters(assets: Assets, home: Option<string>, tag: OsTag, arch: string, uuid: string)
    returns (r: Run<StartParameters>)
    ensures r.Panics? <==> home.None? || tag == "linux"
    ensures r.Returns? ==>
              && r.value.javaVmPath == JavaVmPath
              && r.value.nativesDirPath == ContextOf(assets, home, tag, arch, uuid).nativesDirPath
              && r.value.nativesFiles == NativesOnly(assets.libraries)
              && r.value.parameters == LaunchLine(ContextOf(assets, home, tag, arch, uuid))
  {
    var common := GetCommonDirPath(home, tag);
    if common.Panics? {
      return Panics;
    }
    var instances := GetInstancesDirPath(home, tag);
    var ctx := BuildContext(assets, NativesDirPath(tag, common.value, uuid), tag, arch, common.value, instances.value);
    var parameters := GetBuild113Above(ctx);
    var nativesFiles := GetNativesFilePaths(assets.libraries);
    return Returns(StartParameters(JavaVmPath, ctx.nativesDirPath, nativesFiles, parameters));
  }
}
