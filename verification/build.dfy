/**
  Planning a kernel build (`build`): the toolchain download, the search path
  and compiler environment, the root-framework installer, the two `make`
  invocations with the configuration edits between them, the local version,
  and the packaging and release of the flashable zip.
 */
module Build {
  import opened Wrappers
  import opened Text
  import opened Config
  import opened Variants
  import opened Commands
  import Meta

  /** What the build reads from its surroundings. */
  datatype BuildHost = BuildHost(
    /** The tool's working directory. */
    cwd: string,
    /** `PATH` and `LD_LIBRARY_PATH`; "" when unset. */
    path: string,
    ldLibraryPath: string,
    /** Whether a path (relative to `cwd`) exists when it is checked. */
    present: string -> bool,
    /** Whether `which ccache` succeeds. */
    hasCcache: bool,
    /** What `git rev-parse --short HEAD` and `nproc` print. */
    revParse: string,
    nproc: string,
    /** The local clock as "%Y%m%d-%H%M". */
    date: string)

  const SourceDir: string := "kernel_source"
  const DownloadDir: string := "toolchain_download"
  const AnyKernelDir: string := "AnyKernel3"
  const ImagePath: string := PathJoin(SourceDir, "out/arch/arm64/boot/Image")
  const LocalversionFile: string := PathJoin(SourceDir, "localversion")
  const DefaultAnyKernelRepo: string := "https://github.com/YuzakiKokuban/AnyKernel3.git"
  const DefaultAnyKernelBranch: string := "master"

  // ------------------------------------------------------------ search path

  /** The toolchain directory: the prefix below the working directory. */
  function ToolchainBase(cwd: string, p: ProjectConfig): string {
    PathJoin(cwd, p.toolchainPathPrefix.GetOr(""))
  }

  /** The export loop: each export directory is put in front of the path
      built so far. */
  function PrependExports(base: string, exports: seq<string>, path: string): string
    decreases |exports|
  {
    if exports == [] then path
    else PrependExports(base, exports[1..], PathJoin(base, exports[0]) + ":" + path)
  }

  /** The export directories in search order: the last export first. */
  function SearchDirs(base: string, exports: seq<string>): (dirs: seq<string>)
    ensures |dirs| == |exports|
    ensures forall i | 0 <= i < |exports| :: dirs[i] == PathJoin(base, exports[|exports| - 1 - i])
    decreases |exports|
  {
    if exports == [] then [] else SearchDirs(base, exports[1..]) + [PathJoin(base, exports[0])]
  }

  /** Joining with a separator inside the last piece is joining one more piece. */
  lemma {:induction false} JoinWithLast(xs: seq<string>, a: string, b: string, sep: char)
    ensures JoinWith(xs + [a + [sep] + b], sep) == JoinWith(xs + [a, b], sep)
    decreases |xs|
  {
    if xs != [] {
      JoinWithLast(xs[1..], a, b, sep);
      assert (xs + [a + [sep] + b])[1..] == xs[1..] + [a + [sep] + b];
      assert (xs + [a, b])[1..] == xs[1..] + [a, b];
    }
  }

  /** The export loop puts the directories on the path in reverse order of
      the exports, each once, followed by the old path. */
  lemma {:induction false} PrependExportsOrder(base: string, exports: seq<string>, path: string)
    ensures PrependExports(base, exports, path) == JoinWith(SearchDirs(base, exports) + [path], ':')
    decreases |exports|
  {
    if exports != [] {
      var d := PathJoin(base, exports[0]);
      PrependExportsOrder(base, exports[1..], d + ":" + path);
      JoinWithLast(SearchDirs(base, exports[1..]), d, path, ':');
      assert SearchDirs(base, exports) + [path] == SearchDirs(base, exports[1..]) + [d, path];
    }
  }

  /** The `PATH` of the build. */
  function ComposePath(cwd: string, p: ProjectConfig, path: string): string {
    var base := ToolchainBase(cwd, p);
    match p.toolchainPathExports
    case Some(exports) => PrependExports(base, exports, path)
    case None => if p.toolchainPathPrefix.GetOr("") != "" then PathJoin(base, "bin") + ":" + path else path
  }

  /** With exports e1..en the path is base/en:...:base/e1:PATH; without
      exports a non-empty prefix adds base/bin; otherwise PATH is kept. */
  lemma ComposePathCases(cwd: string, p: ProjectConfig, path: string)
    ensures var base := ToolchainBase(cwd, p);
            && (p.toolchainPathExports.Some? ==>
                  ComposePath(cwd, p, path) == JoinWith(SearchDirs(base, p.toolchainPathExports.value) + [path], ':'))
            && (p.toolchainPathExports.None? && p.toolchainPathPrefix.GetOr("") != "" ==>
                  ComposePath(cwd, p, path) == JoinWith([PathJoin(base, "bin"), path], ':'))
            && (p.toolchainPathExports.None? && p.toolchainPathPrefix.GetOr("") == "" ==>
                  ComposePath(cwd, p, path) == path)
  {
    if p.toolchainPathExports.Some? {
      PrependExportsOrder(ToolchainBase(cwd, p), p.toolchainPathExports.value, path);
    }
  }

  // ------------------------------------------------------------- make line

  /** The SoC: the second `_`-separated field of the project key. */
  function TargetSoc(key: string): string {
    var fields := Split(key, '_');
    if |fields| >= 2 then fields[1] else "unknown"
  }

  /** The key's second field, whatever the others are. */
  lemma TargetSocOfFields(fields: seq<string>)
    requires |fields| >= 2
    requires forall i | 0 <= i < |fields| :: '_' !in fields[i]
    ensures TargetSoc(JoinWith(fields, '_')) == fields[1]
  {
    JoinSplit(fields, '_');
  }

  /** A key without `_` has no SoC field. */
  lemma TargetSocWithoutField(key: string)
    requires '_' !in key
    ensures TargetSoc(key) == "unknown"
  {
    SplitNoSeparator(key, '_');
  }

  const BaseMakeArgs: seq<string> := ["O=out", "ARCH=arm64", "LLVM=1", "LLVM_IAS=1"]

  function CompilerArg(hasCcache: bool): string {
    if hasCcache then "CC=ccache clang" else "CC=clang"
  }

  /** The local version goes in a file ("file") or on the make line (the
      default, "param"). */
  predicate IsFileMode(p: ProjectConfig) {
    p.versionMethod.GetOr("param") == "file"
  }

  /** The make arguments of the configuration step. */
  function DefconfigArgs(key: string, hasCcache: bool): (args: seq<string>)
    ensures |args| == 6
  {
    BaseMakeArgs + ["TARGET_SOC=" + TargetSoc(key), CompilerArg(hasCcache)]
  }

  /** The make arguments of the build: those of the configuration step, and
      an empty `LOCALVERSION=` in parameter mode. */
  function BuildArgs(key: string, hasCcache: bool, fileMode: bool): seq<string> {
    DefconfigArgs(key, hasCcache) + (if fileMode then [] else ["LOCALVERSION="])
  }

  /** The build line extends the configuration line; it carries an empty
      `LOCALVERSION=`, as its last argument, exactly in parameter mode. */
  lemma BuildArgsShape(key: string, hasCcache: bool, fileMode: bool)
    ensures var args := BuildArgs(key, hasCcache, fileMode);
            && |args| >= 6 && args[..6] == DefconfigArgs(key, hasCcache)
            && ("LOCALVERSION=" in args <==> !fileMode)
            && (!fileMode ==> args[|args| - 1] == "LOCALVERSION=")
  {
    var head := DefconfigArgs(key, hasCcache);
    assert head[4] != "LOCALVERSION=" by {
      assert head[4][0] == 'T' && "LOCALVERSION="[0] == 'L';
    }
    assert "LOCALVERSION=" !in head;
    assert BuildArgs(key, hasCcache, fileMode)[..6] == head;
  }

  /** The make line starts with the four fixed arguments, the SoC and the
      compiler, in that order. */
  lemma MakeArgsOrder(key: string, hasCcache: bool, fileMode: bool)
    ensures var args := BuildArgs(key, hasCcache, fileMode);
            && args[..4] == ["O=out", "ARCH=arm64", "LLVM=1", "LLVM_IAS=1"]
            && args[4] == "TARGET_SOC=" + TargetSoc(key)
            && (args[5] == "CC=ccache clang" <==> hasCcache)
            && (args[5] == "CC=clang" <==> !hasCcache)
            && |args| == (if fileMode then 6 else 7)
  {
    var args := BuildArgs(key, hasCcache, fileMode);
    BuildArgsShape(key, hasCcache, fileMode);
  }

  // ---------------------------------------------------- configuration edits

  const DefaultDisables: seq<string> := ["UH", "RKP", "KDP", "SECURITY_DEFEX", "INTEGRITY", "FIVE", "TRIM_UNUSED_KSYMS"]

  /** The configuration options switched off: the seven vendor security
      options, then the project's own list. */
  function DisableConfigs(p: ProjectConfig): seq<string> {
    DefaultDisables + p.disableSecurity.GetOr([])
  }

  /** The seven vendor options come first, in their fixed order, and the
      project's own list follows unchanged. */
  lemma DisableConfigsOrder(p: ProjectConfig)
    ensures var names := DisableConfigs(p);
            && |names| == 7 + |p.disableSecurity.GetOr([])|
            && names[..7] == ["UH", "RKP", "KDP", "SECURITY_DEFEX", "INTEGRITY", "FIVE", "TRIM_UNUSED_KSYMS"]
            && names[7..] == p.disableSecurity.GetOr([])
  {
  }

  function ConfigEdit(args: seq<string>): Command {
    Run(["scripts/config", "--file", "out/.config"] + args, Some(SourceDir))
  }

  /** One edit per option, in order. */
  function DisableCommands(names: seq<string>): seq<Command>
    decreases |names|
  {
    if names == [] then [] else [ConfigEdit(["--disable", names[0]])] + DisableCommands(names[1..])
  }

  lemma {:induction false} DisableCommandsEach(names: seq<string>)
    ensures |DisableCommands(names)| == |names|
    ensures forall i | 0 <= i < |names| :: DisableCommands(names)[i] == ConfigEdit(["--disable", names[i]])
    decreases |names|
  {
    if names != [] {
      DisableCommandsEach(names[1..]);
    }
  }

  /** An option is switched off exactly when it is a vendor security option
      or on the project's list. */
  lemma DisabledExactly(p: ProjectConfig, name: string)
    ensures ConfigEdit(["--disable", name]) in DisableCommands(DisableConfigs(p))
            <==> name in DefaultDisables || name in p.disableSecurity.GetOr([])
  {
    var names := DisableConfigs(p);
    var r := DisableCommands(names);
    DisableConfigsOrder(p);
    DisableCommandsEach(names);
    if ConfigEdit(["--disable", name]) in r {
      var i :| 0 <= i < |r| && r[i] == ConfigEdit(["--disable", name]);
      assert r[i].argv[4] == names[i];
      assert ConfigEdit(["--disable", name]).argv[4] == name;
      if i >= 7 {
        assert names[i] == names[7..][i - 7];
      }
    }
    if name in DefaultDisables {
      var i :| 0 <= i < 7 && DefaultDisables[i] == name;
      assert r[i] == ConfigEdit(["--disable", names[i]]);
    } else if name in p.disableSecurity.GetOr([]) {
      var ds := p.disableSecurity.GetOr([]);
      var j :| 0 <= j < |ds| && ds[j] == name;
      assert names[7 + j] == names[7..][j];
      assert r[7 + j] == ConfigEdit(["--disable", names[7 + j]]);
    }
  }

  /** Link-time optimisation: "thin" turns thin LTO on and full LTO off,
      "full" the reverse, anything else leaves the configuration alone. */
  function LtoCommand(lto: Option<string>): (r: seq<Command>)
    ensures lto == Some("thin") ==> r == [ConfigEdit(["-e", "LTO_CLANG_THIN", "-d", "LTO_CLANG_FULL"])]
    ensures lto == Some("full") ==> r == [ConfigEdit(["-e", "LTO_CLANG_FULL", "-d", "LTO_CLANG_THIN"])]
    ensures lto != Some("thin") && lto != Some("full") ==> r == []
  {
    match lto
    case Some(mode) =>
      if mode == "thin" then [ConfigEdit(["-e", "LTO_CLANG_THIN", "-d", "LTO_CLANG_FULL"])]
      else if mode == "full" then [ConfigEdit(["-e", "LTO_CLANG_FULL", "-d", "LTO_CLANG_THIN"])]
      else []
    case None => []
  }

  // -------------------------------------------------------------- installer

  /** Where a branch's root-framework installer comes from and the argument
      it is piped. */
  datatype Installer = Installer(url: string, arg: string)

  /** The installer of a build branch; the plain kernel and any other name
      get none. The branch name is used as given. */
  function InstallerFor(branch: string): Option<Installer> {
    match branch
    case "resukisu" => Some(Installer("https://raw.githubusercontent.com/ReSukiSU/ReSukiSU/main/kernel/setup.sh", "builtin"))
    case "mksu" => Some(Installer("https://raw.githubusercontent.com/5ec1cff/KernelSU/main/kernel/setup.sh", "-"))
    case "ksu" => Some(Installer("https://raw.githubusercontent.com/tiann/KernelSU/main/kernel/setup.sh", "-"))
    case _ => None
  }

  /** The build installs a framework for exactly the tracked variants, from
      the same script the updater runs. The argument agrees with the
      updater's for `resukisu`; for the two KernelSU variants the build pipes
      "-" where the updater passes "main". The legacy name installs nothing. */
  lemma InstallersFollowTable(branch: string)
    ensures InstallerFor(branch).Some? <==> branch in VariantTable
    ensures branch in VariantTable ==> InstallerFor(branch).value.url == VariantTable[branch].setupUrl
    ensures branch in VariantTable ==>
              InstallerFor(branch).value.arg == (if branch == CurrentName then VariantTable[branch].setupArgs[0] else "-")
    ensures InstallerFor(LegacyName).None? && InstallerFor("main").None?
  {
  }

  function InstallCommands(branch: string): (r: seq<Command>)
    ensures |r| <= 1
    ensures r != [] <==> InstallerFor(branch).Some?
  {
    match InstallerFor(branch)
    case Some(i) => [Run(["bash", "-c", "curl -LSs '" + i.url + "' | bash -s " + i.arg], Some(SourceDir))]
    case None => []
  }

  // ------------------------------------------------------------ environment

  /** The release suffix as the build spells it. */
  function VariantSuffix(branch: string): string {
    match branch
    case "main" => "LKM"
    case "lkm" => "LKM"
    case "ksu" => "KSU"
    case "mksu" => "MKSU"
    case "resukisu" => "ReSuki"
    case "sukisuultra" => "ReSuki"
    case _ => ToUpper(branch)
  }

  /** The build's suffix table and the one `meta` uses are the same. */
  lemma SuffixTablesAgree(branch: string)
    ensures VariantSuffix(branch) == BranchSuffix(branch)
  {
  }

  /** The build's local version: base, dash, suffix. */
  function BuildLocalversion(p: ProjectConfig, branch: string): string {
    p.localversionBase + "-" + VariantSuffix(branch)
  }

  /** The cross-compilation settings every build gets. */
  function CrossEnv(path: string): (env: map<string, string>)
    ensures "PATH" in env && env["PATH"] == path
    ensures "ARCH" in env && env["ARCH"] == "arm64"
    ensures "CROSS_COMPILE" in env && env["CROSS_COMPILE"] == "aarch64-linux-gnu-"
    ensures "CLANG_TRIPLE" in env && env["CLANG_TRIPLE"] == "aarch64-linux-gnu-"
    ensures "CROSS_COMPILE_COMPAT" in env && env["CROSS_COMPILE_COMPAT"] == "arm-linux-gnueabi-"
    ensures "HOSTCFLAGS" !in env && "CC" !in env && "LOCALVERSION" !in env
  {
    map[
      "PATH" := path,
      "ARCH" := "arm64",
      "CLANG_TRIPLE" := "aarch64-linux-gnu-",
      "CROSS_COMPILE" := "aarch64-linux-gnu-",
      "CROSS_COMPILE_COMPAT" := "arm-linux-gnueabi-"]
  }

  /** Host tool settings for projects that ship their own host toolchain:
      its libraries, headers and sysroot, linked with lld. Nothing else
      changes. */
  function WithHostTools(env: map<string, string>, base: string, ldLibraryPath: string): (r: map<string, string>)
    ensures "HOSTCFLAGS" in r && "HOSTLDFLAGS" in r && "LD_LIBRARY_PATH" in r
    ensures ("CC" in r <==> "CC" in env) && ("LOCALVERSION" in r <==> "LOCALVERSION" in env)
    ensures "PATH" in env ==> "PATH" in r && r["PATH"] == env["PATH"]
    ensures "ARCH" in env ==> "ARCH" in r && r["ARCH"] == env["ARCH"]
  {
    var kbt := PathJoin(base, "kernel-build-tools/linux-x86");
    var sysroot := PathJoin(base, "gcc/linux-x86/host/x86_64-linux-glibc2.17-4.8/sysroot");
    var sysrootFlag := "--sysroot=" + sysroot + " ";
    env["LD_LIBRARY_PATH" := ldLibraryPath + ":" + kbt + "/lib64"]
       ["HOSTCFLAGS" := sysrootFlag + "-I" + kbt + "/include "]
       ["HOSTLDFLAGS" := sysrootFlag + "-L " + kbt + "/lib64 -fuse-ld=lld --rtlib=compiler-rt"]
  }

  /** Compiling through ccache, with its cache below the working directory.
      Nothing else changes. */
  function WithCcache(env: map<string, string>, cwd: string): (r: map<string, string>)
    ensures "CC" in r && r["CC"] == "ccache clang"
    ensures ("HOSTCFLAGS" in r <==> "HOSTCFLAGS" in env) && ("LOCALVERSION" in r <==> "LOCALVERSION" in env)
    ensures "PATH" in env ==> "PATH" in r && r["PATH"] == env["PATH"]
    ensures "ARCH" in env ==> "ARCH" in r && r["ARCH"] == env["ARCH"]
  {
    env["CC" := "ccache clang"]["CXX" := "ccache clang++"]["CCACHE_DIR" := cwd + "/.ccache"]
  }

  /** The environment of the configuration step. */
  function CompileEnv(p: ProjectConfig, h: BuildHost): (env: map<string, string>)
    ensures "LOCALVERSION" !in env
  {
    var cross := CrossEnv(ComposePath(h.cwd, p, h.path));
    var host := if p.extraHostEnv == Some(true) then WithHostTools(cross, ToolchainBase(h.cwd, p), h.ldLibraryPath) else cross;
    if h.hasCcache then WithCcache(host, h.cwd) else host
  }

  /** The configuration step searches the composed path, targets arm64, gets the host tool settings
      exactly when the record asks for them, and compiles through ccache
      exactly when it is installed. */
  lemma CompileEnvSettings(p: ProjectConfig, h: BuildHost)
    ensures var env := CompileEnv(p, h);
            && "PATH" in env && env["PATH"] == ComposePath(h.cwd, p, h.path)
            && "ARCH" in env && env["ARCH"] == "arm64"
            && ("HOSTCFLAGS" in env <==> p.extraHostEnv == Some(true))
            && ("CC" in env <==> h.hasCcache)
            && (h.hasCcache ==> env["CC"] == "ccache clang")
  {
    var cross := CrossEnv(ComposePath(h.cwd, p, h.path));
    var host := if p.extraHostEnv == Some(true) then WithHostTools(cross, ToolchainBase(h.cwd, p), h.ldLibraryPath) else cross;
    assert "CC" !in host;
    assert "ARCH" in host && host["ARCH"] == "arm64";
    assert "PATH" in host && host["PATH"] == cross["PATH"];
  }

  /** The environment of the build: the configuration step's, plus the local
      version in parameter mode. */
  function BuildEnv(p: ProjectConfig, branch: string, h: BuildHost): (env: map<string, string>)
    ensures "LOCALVERSION" in env <==> !IsFileMode(p)
    ensures !IsFileMode(p) ==> env["LOCALVERSION"] == BuildLocalversion(p, branch)
  {
    var env := CompileEnv(p, h);
    if IsFileMode(p) then env else env["LOCALVERSION" := BuildLocalversion(p, branch)]
  }

  // ------------------------------------------------------------------ plan

  function Wget(urls: seq<string>): seq<Command>
    decreases |urls|
  {
    if urls == [] then [] else [Run(["wget", "-q", urls[0]], Some(DownloadDir))] + Wget(urls[1..])
  }

  lemma {:induction false} WgetEach(urls: seq<string>, u: string)
    requires u in urls
    ensures Run(["wget", "-q", u], Some(DownloadDir)) in Wget(urls)
    decreases |urls|
  {
    if urls[0] != u {
      WgetEach(urls[1..], u);
    }
  }

  /** Fetch and unpack the toolchain when the record lists archives; the
      download directory is emptied first and removed at the end. */
  function ToolchainCommands(p: ProjectConfig, h: BuildHost): (r: seq<Command>)
    ensures p.toolchainUrls.None? <==> r == []
    ensures p.toolchainUrls.Some? ==>
              |r| >= 3 && r[|r| - 1] == RemoveTree(DownloadDir) && r[|r| - 2] == ExtractArchives(DownloadDir)
  {
    match p.toolchainUrls
    case None => []
    case Some(urls) =>
      (if h.present(DownloadDir) then [RemoveTree(DownloadDir)] else [])
        + [MakeDirs(DownloadDir)] + Wget(urls)
        + [ExtractArchives(DownloadDir), RemoveTree(DownloadDir)]
  }

  /** Every listed archive is downloaded into the download directory. */
  lemma ToolchainFetchesEveryUrl(p: ProjectConfig, h: BuildHost, u: string)
    requires p.toolchainUrls.Some? && u in p.toolchainUrls.value
    ensures Run(["wget", "-q", u], Some(DownloadDir)) in ToolchainCommands(p, h)
  {
    WgetEach(p.toolchainUrls.value, u);
  }

  /** The compiler probe and cache sizing. */
  function CcacheCommands(hasCcache: bool): seq<Command> {
    [Run(["which", "ccache"], None)] + (if hasCcache then [Run(["ccache", "-M", "5G"], None)] else [])
  }

  /** Configure, edit the configuration, read the commit. */
  function Configure(p: ProjectConfig, key: string, h: BuildHost): seq<Command> {
    CcacheCommands(h.hasCcache)
      + [DefconfigCommand(p, key, h)]
      + (DisableCommands(DisableConfigs(p)) + LtoCommand(p.lto))
      + [Git(ShortHead, Some(SourceDir))]
  }

  /** The configuration step: make on the project's defconfig. */
  function DefconfigCommand(p: ProjectConfig, key: string, h: BuildHost): Command {
    RunWithEnv(["make"] + DefconfigArgs(key, h.hasCcache) + [p.defconfig], Some(SourceDir), CompileEnv(p, h))
  }

  /** The ccache probe comes first and the cache is sized exactly when ccache
      is found; the configuration step is there; the commit is read last. */
  lemma ConfigureShape(p: ProjectConfig, key: string, h: BuildHost)
    ensures var r := Configure(p, key, h);
            && |r| >= 3 && r[0] == Run(["which", "ccache"], None)
            && (Run(["ccache", "-M", "5G"], None) in r <==> h.hasCcache)
            && DefconfigCommand(p, key, h) in r
            && r[|r| - 1] == Git(ShortHead, Some(SourceDir))
  {
    var edits := DisableCommands(DisableConfigs(p)) + LtoCommand(p.lto);
    DisableCommandsEach(DisableConfigs(p));
    assert forall c | c in edits :: c.Run? && c.argv != [] && c.argv[0] == "scripts/config";
    ConfigureParts(h.hasCcache, DefconfigCommand(p, key, h), edits);
  }

  /** The shape of a configure plan whatever its configuration step and edits. */
  lemma ConfigureParts(hasCcache: bool, defconfig: Command, edits: seq<Command>)
    requires defconfig.RunWithEnv?
    requires forall c | c in edits :: c.Run? && c.argv != [] && c.argv[0] == "scripts/config"
    ensures var r := CcacheCommands(hasCcache) + [defconfig] + edits + [Git(ShortHead, Some(SourceDir))];
            && |r| >= 3 && r[0] == Run(["which", "ccache"], None)
            && (Run(["ccache", "-M", "5G"], None) in r <==> hasCcache)
            && defconfig in r
            && r[|r| - 1] == Git(ShortHead, Some(SourceDir))
  {
    var sizing := Run(["ccache", "-M", "5G"], None);
    assert sizing.argv[0] == "ccache" && sizing !in edits;
  }

  /** The configuration switches an option off exactly when it is a vendor
      security option or on the project's list. */
  lemma ConfigureDisables(p: ProjectConfig, key: string, h: BuildHost, name: string)
    ensures ConfigEdit(["--disable", name]) in Configure(p, key, h)
            <==> name in DefaultDisables || name in p.disableSecurity.GetOr([])
  {
    var e := ConfigEdit(["--disable", name]);
    DisabledExactly(p, name);
    assert e !in LtoCommand(p.lto) by {
      assert e.argv[3] == "--disable";
    }
    assert e !in CcacheCommands(h.hasCcache);
  }

  /** The build make line. */
  function MakeCommand(p: ProjectConfig, key: string, branch: string, h: BuildHost): Command {
    RunWithEnv(["make", "-j" + Trim(h.nproc)] + BuildArgs(key, h.hasCcache, IsFileMode(p)),
               Some(SourceDir), BuildEnv(p, branch, h))
  }

  /** The build make line is `make -j<threads>` with the configuration
      step's arguments, in the source tree. */
  lemma MakeCommandArgs(p: ProjectConfig, key: string, branch: string, h: BuildHost)
    ensures var c := MakeCommand(p, key, branch, h);
            && c.RunWithEnv? && c.cwd == Some(SourceDir)
            && |c.argv| >= 8 && c.argv[..2] == ["make", "-j" + Trim(h.nproc)]
            && c.argv[2..8] == DefconfigArgs(key, h.hasCcache)
  {
    BuildArgsShape(key, h.hasCcache, IsFileMode(p));
    PrefixedArgs(["make", "-j" + Trim(h.nproc)], BuildArgs(key, h.hasCcache, IsFileMode(p)), DefconfigArgs(key, h.hasCcache));
  }

  lemma PrefixedArgs(head: seq<string>, args: seq<string>, conf: seq<string>)
    requires |head| == 2 && |args| >= 6 && args[..6] == conf
    ensures |head + args| >= 8 && (head + args)[..2] == head && (head + args)[2..8] == conf
  {
    assert (head + args)[2..8] == args[..6];
  }

  /** In parameter mode, and only then, an empty `LOCALVERSION=` ends the
      build make line. */
  lemma MakeCommandLocalversionArg(p: ProjectConfig, key: string, branch: string, h: BuildHost)
    ensures var argv := MakeCommand(p, key, branch, h).argv;
            argv[|argv| - 1] == "LOCALVERSION=" <==> !IsFileMode(p)
  {
    var args := BuildArgs(key, h.hasCcache, IsFileMode(p));
    MakeArgsOrder(key, h.hasCcache, IsFileMode(p));
    assert args[5][0] == 'C';
    LastOfPrefixed(["make", "-j" + Trim(h.nproc)], args);
  }

  lemma LastOfPrefixed(head: seq<string>, args: seq<string>)
    requires args != []
    ensures (head + args)[|head + args| - 1] == args[|args| - 1]
  {
  }

  /** The build make line runs in the configuration step's environment, with
      the local version added exactly in parameter mode. */
  lemma MakeCommandEnv(p: ProjectConfig, key: string, branch: string, h: BuildHost)
    ensures var env := MakeCommand(p, key, branch, h).env;
            && env - {"LOCALVERSION"} == CompileEnv(p, h)
            && ("LOCALVERSION" in env <==> !IsFileMode(p))
            && (!IsFileMode(p) ==> env["LOCALVERSION"] == BuildLocalversion(p, branch))
  {
  }

  /** The build proper, which depends on the version method. */
  function Finish(p: ProjectConfig, key: string, branch: string, h: BuildHost): (r: seq<Command>)
    ensures |r| == if IsFileMode(p) then 4 else 2
  {
    var make := MakeCommand(p, key, branch, h);
    if IsFileMode(p) then
      [ WriteFile(LocalversionFile, BuildLocalversion(p, branch) + "-g" + Trim(h.revParse)),
        Run(["nproc"], None), make, WriteFile(LocalversionFile, "") ]
    else [Run(["nproc"], None), make]
  }

  /** In file mode the version file holds "<localversion>-g<commit>" while
      `make` runs and is emptied afterwards, and `make` sees no
      `LOCALVERSION`. */
  lemma FileModeLocalversion(p: ProjectConfig, key: string, branch: string, h: BuildHost)
    requires IsFileMode(p)
    ensures var r := Finish(p, key, branch, h);
            && r[0] == WriteFile(LocalversionFile, BuildLocalversion(p, branch) + "-g" + Trim(h.revParse))
            && r[2].RunWithEnv? && r[2].argv[0] == "make" && "LOCALVERSION" !in r[2].env
            && r[3] == WriteFile(LocalversionFile, "")
  {
  }

  /** In parameter mode no file is written; the local version reaches `make`
      through the environment, with an empty `LOCALVERSION=` as the last
      argument. */
  lemma ParamModeLocalversion(p: ProjectConfig, key: string, branch: string, h: BuildHost)
    requires !IsFileMode(p)
    ensures var r := Finish(p, key, branch, h);
            && r[1].RunWithEnv? && r[1].argv[0] == "make"
            && "LOCALVERSION" in r[1].env && r[1].env["LOCALVERSION"] == BuildLocalversion(p, branch)
            && r[1].argv[|r[1].argv| - 1] == "LOCALVERSION="
            && forall c | c in r :: !c.WriteFile?
  {
  }

  function AnyKernelCommands(p: ProjectConfig, h: BuildHost): seq<Command> {
    (if h.present(AnyKernelDir) then [RemoveTree(AnyKernelDir)] else [])
      + [Git(CloneBranch(p.anykernelRepo.GetOr(DefaultAnyKernelRepo), p.anykernelBranch.GetOr(DefaultAnyKernelBranch),
                         AnyKernelDir), None)]
  }

  /** The commands a build issues up to the kernel image check. */
  function Compiled(p: ProjectConfig, key: string, branch: string, h: BuildHost): seq<Command> {
    ToolchainCommands(p, h) + (InstallCommands(branch) + (Configure(p, key, h) + (Finish(p, key, branch, h)
      + AnyKernelCommands(p, h))))
  }

  /** A build starts with the toolchain and clones AnyKernel3 last. */
  lemma CompiledEnds(p: ProjectConfig, key: string, branch: string, h: BuildHost)
    ensures var r := Compiled(p, key, branch, h);
            && r[..|ToolchainCommands(p, h)|] == ToolchainCommands(p, h)
            && r[|r| - 1] == Git(CloneBranch(p.anykernelRepo.GetOr(DefaultAnyKernelRepo),
                                             p.anykernelBranch.GetOr(DefaultAnyKernelBranch), AnyKernelDir), None)
  {
  }

  /** A build runs the configuration step before the build make line. */
  lemma CompiledConfiguresFirst(p: ProjectConfig, key: string, branch: string, h: BuildHost)
    ensures var r := Compiled(p, key, branch, h);
            exists i, j | 0 <= i < j < |r| :: r[i] == DefconfigCommand(p, key, h) && r[j] == MakeCommand(p, key, branch, h)
  {
    var conf, fin := Configure(p, key, h), Finish(p, key, branch, h);
    var x, y := DefconfigCommand(p, key, h), MakeCommand(p, key, branch, h);
    assert x in conf by {
      assert conf[|CcacheCommands(h.hasCcache)|] == x;
    }
    assert y in fin by {
      var k := FinishMakeIndex(p, key, branch, h);
    }
    var i, j := InOrder(ToolchainCommands(p, h), InstallCommands(branch), conf, fin, AnyKernelCommands(p, h), x, y);
    var r := Compiled(p, key, branch, h);
    assert r[i] == x && r[j] == y;
  }

  /** In `t + (a + (b + (c + d)))` an element of `b` comes before an element
      of `c`: the positions of both. */
  lemma InOrder<T>(t: seq<T>, a: seq<T>, b: seq<T>, c: seq<T>, d: seq<T>, x: T, y: T) returns (i: nat, j: nat)
    requires x in b && y in c
    ensures var r := t + (a + (b + (c + d)));
            i < j < |r| && r[i] == x && r[j] == y
  {
    var r := t + (a + (b + (c + d)));
    var bi :| 0 <= bi < |b| && b[bi] == x;
    var cj :| 0 <= cj < |c| && c[cj] == y;
    i, j := |t| + |a| + bi, |t| + |a| + |b| + cj;
    assert r[i] == x;
    assert r[j] == y;
  }

  /** Where the build make line sits in the build proper. */
  function FinishMakeIndex(p: ProjectConfig, key: string, branch: string, h: BuildHost): (k: nat)
    ensures k < |Finish(p, key, branch, h)| && Finish(p, key, branch, h)[k] == MakeCommand(p, key, branch, h)
  {
    if IsFileMode(p) then 2 else 1
  }

  /** The zip's name as the build forms it. */
  function ZipName(p: ProjectConfig, branch: string, date: string): string {
    Meta.ZipPrefix(p) + "-" + VariantSuffix(branch) + "-" + date + ".zip"
  }

  function ReleaseTag(p: ProjectConfig, branch: string, date: string): string {
    Meta.ZipPrefix(p) + "-" + VariantSuffix(branch) + "-" + date
  }

  function ReleaseTitle(p: ProjectConfig, branch: string, date: string): string {
    Meta.ZipPrefix(p) + " " + VariantSuffix(branch) + " Build (" + date + ")"
  }

  /** The names the build uses are the ones `meta` announces for the same
      branch and date. */
  lemma BuildNamesAgreeWithMeta(p: ProjectConfig, branch: string, date: string)
    ensures var m := Meta.MetaFor(p, branch, date);
            && ZipName(p, branch, date) == m.finalZipName
            && ReleaseTag(p, branch, date) == m.releaseTag
            && ReleaseTitle(p, branch, date) == m.releaseTitle
            && BuildLocalversion(p, branch) == m.finalLocalversion
  {
    SuffixTablesAgree(branch);
  }

  /** Copy the image into the installer tree and zip the tree one level up,
      leaving out version-control files, documents and unused tools. */
  function PackageCommands(p: ProjectConfig, branch: string, date: string): seq<Command> {
    [ CopyFile(ImagePath, PathJoin(AnyKernelDir, "Image")),
      Run(["zip", "-r9", "../" + ZipName(p, branch, date), ".",
           "-x", ".git*", "-x", ".github*", "-x", "README.md", "-x", "LICENSE", "-x", "*.gitignore",
           "-x", "patch_linux", "-x", "tools/boot.img.lz4", "-x", "tools/libmagiskboot.so"],
          Some(AnyKernelDir)) ]
  }

  function ReleaseCommands(p: ProjectConfig, branch: string, date: string): seq<Command> {
    var tag := ReleaseTag(p, branch, date);
    [ Run(["gh", "release", "create", tag, ZipName(p, branch, date), "--repo", p.repo,
           "--title", ReleaseTitle(p, branch, date), "--notes", "Automated build for " + branch], None),
      Notify(tag) ]
  }

  /** After compilation: check for the image, package it, and release the
      zip when asked to. */
  function Packaging(p: ProjectConfig, branch: string, doRelease: bool, h: BuildHost): (o: Outcome<Error>)
    ensures o.failure.None? <==> h.present(ImagePath) && (doRelease ==> h.present(ZipName(p, branch, h.date)))
    ensures !h.present(ImagePath) ==> o == Outcome([], Some(MissingPath(ImagePath)))
  {
    if !h.present(ImagePath) then Outcome([], Some(MissingPath(ImagePath)))
    else
      var packed := PackageCommands(p, branch, h.date);
      var zip := ZipName(p, branch, h.date);
      if !doRelease then Outcome(packed, None)
      else if h.present(zip) then Outcome(packed + ReleaseCommands(p, branch, h.date), None)
      else Outcome(packed, Some(MissingPath(zip)))
  }

  /** `build` of `branch` for project `key`: the commands issued, in order,
      when each succeeds, and why the build stops early if it does. */
  function HandleBuild(reg: Registry, key: string, branch: string, doRelease: bool, h: BuildHost): (o: Outcome<Error>)
    ensures key !in reg ==> o == Outcome([], Some(ProjectNotFound(key)))
    ensures key in reg && reg[key].Malformed? ==> o == Outcome([], Some(NotAProject(key)))
    ensures key in reg && reg[key].Project? && !h.present(SourceDir) ==> o == Outcome([], Some(MissingPath(SourceDir)))
  {
    match Lookup(reg, key)
    case Failure(e) => Outcome([], Some(e))
    case Success(p) =>
      if !h.present(SourceDir) then Outcome([], Some(MissingPath(SourceDir)))
      else
        var rest := Packaging(p, branch, doRelease, h);
        Outcome(Compiled(p, key, branch, h) + rest.issued, rest.failure)
  }

  /** The build finishes exactly when the project reads, the source tree
      and the image exist, and, for a release, the zip exists. A missing image
      stops the build after compilation, before anything is packaged. */
  lemma BuildSucceeds(reg: Registry, key: string, branch: string, doRelease: bool, h: BuildHost)
    ensures HandleBuild(reg, key, branch, doRelease, h).failure.None? <==>
              && key in reg && reg[key].Project?
              && h.present(SourceDir) && h.present(ImagePath)
              && (doRelease ==> h.present(ZipName(reg[key].config, branch, h.date)))
    ensures key in reg && reg[key].Project? && h.present(SourceDir) && !h.present(ImagePath) ==>
              HandleBuild(reg, key, branch, doRelease, h)
                == Outcome(Compiled(reg[key].config, key, branch, h), Some(MissingPath(ImagePath)))
  {
    if key in reg && reg[key].Project? && h.present(SourceDir) && !h.present(ImagePath) {
      assert Compiled(reg[key].config, key, branch, h) + [] == Compiled(reg[key].config, key, branch, h);
    }
  }

  /** Packaging copies the image into the installer tree, then zips the
      tree into the parent directory under the build's zip name. */
  lemma PackageShape(p: ProjectConfig, branch: string, date: string)
    ensures var r := PackageCommands(p, branch, date);
            && |r| == 2
            && r[0] == CopyFile(ImagePath, PathJoin(AnyKernelDir, "Image"))
            && r[1].Run? && r[1].cwd == Some(AnyKernelDir) && |r[1].argv| > 3
            && r[1].argv[..4] == ["zip", "-r9", "../" + ZipName(p, branch, date), "."]
  {
  }

  /** The last two commands of a plan that ends with a two-command piece. */
  lemma LastTwo(front: seq<Command>, tail: seq<Command>)
    requires |tail| == 2
    ensures var all := front + tail;
            |all| >= 2 && all[|all| - 2] == tail[0] && all[|all| - 1] == tail[1]
  {
  }

  /** A build without a release whose project, source tree and image exist
      ends by copying the image into the installer tree and zipping it under
      the name `meta` announces. */
  lemma BuildPackages(reg: Registry, key: string, branch: string, h: BuildHost)
    requires key in reg && reg[key].Project? && h.present(SourceDir) && h.present(ImagePath)
    ensures var o := HandleBuild(reg, key, branch, false, h);
            var m := Meta.MetaFor(reg[key].config, branch, h.date);
            var n := |o.issued|;
            && n >= 2
            && o.issued[n - 2] == CopyFile(ImagePath, PathJoin(AnyKernelDir, "Image"))
            && o.issued[n - 1].Run? && o.issued[n - 1].cwd == Some(AnyKernelDir) && |o.issued[n - 1].argv| > 3
            && o.issued[n - 1].argv[..4] == ["zip", "-r9", "../" + m.finalZipName, "."]
  {
    BuildSucceeds(reg, key, branch, false, h);
    var p := reg[key].config;
    var o := HandleBuild(reg, key, branch, false, h);
    var tail := PackageCommands(p, branch, h.date);
    assert o.issued == Compiled(p, key, branch, h) + tail by {
      assert Packaging(p, branch, false, h).issued == tail;
    }
    LastTwo(Compiled(p, key, branch, h), tail);
    PackageShape(p, branch, h.date);
    var name := ZipName(p, branch, h.date);
    assert name == Meta.MetaFor(p, branch, h.date).finalZipName by {
      BuildNamesAgreeWithMeta(p, branch, h.date);
    }
    var last := o.issued[|o.issued| - 1];
    assert last == tail[1];
    assert last.argv[..4] == ["zip", "-r9", "../" + name, "."];
  }

  /** A release whose project, source tree, image and zip exist ends by
      publishing the zip `meta` names under `meta`'s tag and title, then
      sending the notification for that tag. */
  lemma BuildReleases(reg: Registry, key: string, branch: string, h: BuildHost)
    requires key in reg && reg[key].Project? && h.present(SourceDir) && h.present(ImagePath)
    requires h.present(ZipName(reg[key].config, branch, h.date))
    ensures var o := HandleBuild(reg, key, branch, true, h);
            var p := reg[key].config;
            var m := Meta.MetaFor(p, branch, h.date);
            var n := |o.issued|;
            && n >= 2
            && o.issued[n - 2] == Run(["gh", "release", "create", m.releaseTag, m.finalZipName, "--repo", p.repo,
                                       "--title", m.releaseTitle, "--notes", "Automated build for " + branch], None)
            && o.issued[n - 1] == Notify(m.releaseTag)
  {
    BuildSucceeds(reg, key, branch, true, h);
    var p := reg[key].config;
    var o := HandleBuild(reg, key, branch, true, h);
    var tail := PackageCommands(p, branch, h.date) + ReleaseCommands(p, branch, h.date);
    assert o.issued == (Compiled(p, key, branch, h) + PackageCommands(p, branch, h.date)) + ReleaseCommands(p, branch, h.date) by {
      assert Packaging(p, branch, true, h).issued == tail;
    }
    LastTwo(Compiled(p, key, branch, h) + PackageCommands(p, branch, h.date), ReleaseCommands(p, branch, h.date));
    assert ReleaseTag(p, branch, h.date) == Meta.MetaFor(p, branch, h.date).releaseTag
        && ZipName(p, branch, h.date) == Meta.MetaFor(p, branch, h.date).finalZipName
        && ReleaseTitle(p, branch, h.date) == Meta.MetaFor(p, branch, h.date).releaseTitle by {
      BuildNamesAgreeWithMeta(p, branch, h.date);
    }
  }

  /** The installer command of a branch: the table's setup script for a
      tracked variant, piped to the shell in the source tree; nothing for any
      other branch. */
  lemma InstallCommandsFollowTable(branch: string)
    ensures branch in VariantTable ==>
              InstallCommands(branch) == [Run(["bash", "-c", "curl -LSs '" + VariantTable[branch].setupUrl + "' | bash -s "
                                                            + InstallerFor(branch).value.arg], Some(SourceDir))]
    ensures branch !in VariantTable ==> InstallCommands(branch) == []
  {
    InstallersFollowTable(branch);
  }

  /** Once the project reads and the source tree exists, the build starts
      by fetching the toolchain. */
  lemma BuildFetchesToolchainFirst(reg: Registry, key: string, branch: string, doRelease: bool, h: BuildHost)
    requires key in reg && reg[key].Project? && h.present(SourceDir)
    ensures var o := HandleBuild(reg, key, branch, doRelease, h);
            var tc := ToolchainCommands(reg[key].config, h);
            && |tc| <= |o.issued|
            && forall j | 0 <= j < |tc| :: o.issued[j] == tc[j]
  {
    var p := reg[key].config;
    assert HandleBuild(reg, key, branch, doRelease, h).issued
             == Compiled(p, key, branch, h) + Packaging(p, branch, doRelease, h).issued;
  }

  /** Right after the toolchain, the build runs the branch's installer if it
      has one, then probes for the compiler cache. */
  lemma BuildInstallsFramework(reg: Registry, key: string, branch: string, doRelease: bool, h: BuildHost)
    requires key in reg && reg[key].Project? && h.present(SourceDir)
    ensures var o := HandleBuild(reg, key, branch, doRelease, h);
            var t := |ToolchainCommands(reg[key].config, h)|;
            var i := |InstallCommands(branch)|;
            && t + i < |o.issued|
            && (i == 1 ==> o.issued[t] == InstallCommands(branch)[0])
            && o.issued[t + i] == Run(["which", "ccache"], None)
  {
    var p := reg[key].config;
    var o := HandleBuild(reg, key, branch, doRelease, h);
    var tc := ToolchainCommands(p, h);
    var ic := InstallCommands(branch);
    var cf := Configure(p, key, h);
    var c := Compiled(p, key, branch, h);
    var rest := cf + (Finish(p, key, branch, h) + AnyKernelCommands(p, h));
    assert o.issued == c + Packaging(p, branch, doRelease, h).issued;
    assert cf[0] == Run(["which", "ccache"], None);
    AppendedAt(tc, ic, rest);
  }

  /** Where the pieces of a three-part sequence sit. */
  lemma AppendedAt<T>(a: seq<T>, b: seq<T>, c: seq<T>)
    requires c != []
    ensures |b| == 1 ==> (a + (b + c))[|a|] == b[0]
    ensures (a + (b + c))[|a| + |b|] == c[0]
  {
  }
}
