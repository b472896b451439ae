/**
  The shape of the project registry (`configs/projects.json`) and the fixed
  table of tracked root-framework variants.
 */
module Config {
  import opened Wrappers
  import opened Text
  import opened Json

  /** One project record as the Rust tool reads it. `repo`, `defconfig` and
      `localversionBase` are mandatory; every other field may be absent. */
  datatype ProjectConfig = ProjectConfig(
    repo: string,
    defconfig: string,
    localversionBase: string,
    lto: Option<string>,
    supportedKsu: Option<seq<string>>,
    toolchainUrls: Option<seq<string>>,
    toolchainPathPrefix: Option<string>,
    toolchainPathExports: Option<seq<string>>,
    anykernelRepo: Option<string>,
    anykernelBranch: Option<string>,
    zipNamePrefix: Option<string>,
    versionMethod: Option<string>,
    extraHostEnv: Option<bool>,
    disableSecurity: Option<seq<string>>,
    readmePlaceholders: Option<map<string, string>>)

  /** A registry value as the Rust tool reads it: a project record, or a value
      that does not deserialise as one (the `_globals` routing record lacks
      the mandatory fields). */
  datatype Entry = Project(config: ProjectConfig) | Malformed

  /** The registry as the Rust tool reads it: project key to value. */
  type Registry = map<string, Entry>

  /** The Chinese default device name ("unknown device"). */
  const UnknownDeviceCn: string := "\U{672A}\U{77E5}\U{8BBE}\U{5907}"
  const UnknownDeviceEn: string := "Unknown Device"

  /** Why an invocation stops with an error. */
  datatype Error =
    | ProjectNotFound(key: string)
    | NotAProject(key: string)
    | CommandFailed(detail: string)
    | MissingPath(path: string)

  /** Keys starting with `_` hold metadata, not projects. */
  predicate IsReservedKey(key: string) {
    StartsWith(key, "_")
  }

  /** No element occurs twice. */
  predicate Distinct<T(==)>(s: seq<T>) {
    forall i, j | 0 <= i < j < |s| :: s[i] != s[j]
  }

  /** `order` lists every key of `m` once: the iteration order of a map. */
  predicate IsListingOf<V>(order: seq<string>, m: map<string, V>) {
    && (forall i | 0 <= i < |order| :: order[i] in m)
    && (forall k | k in m :: k in order)
    && Distinct(order)
  }

  /** Every non-reserved key of `order` holds a project record. */
  predicate ProjectsReadable(reg: Registry, order: seq<string>) {
    forall i | 0 <= i < |order| :: order[i] in reg && (!IsReservedKey(order[i]) ==> reg[order[i]].Project?)
  }

  /** `projects.get(key)` followed by `serde_json::from_value`. */
  function Lookup(reg: Registry, key: string): (r: Result<ProjectConfig, Error>)
    ensures r.Success? <==> key in reg && reg[key].Project?
    ensures r.Success? ==> reg[key] == Project(r.value)
    ensures key !in reg ==> r == Failure(ProjectNotFound(key))
  {
    if key !in reg then Failure(ProjectNotFound(key))
    else match reg[key]
      case Project(p) => Success(p)
      case Malformed => Failure(NotAProject(key))
  }

  /** A member name of a registry value. The names either tool reads or
      writes have their own constructor; `Other` stands for every other name
      and is never used to spell one of those. */
  datatype Member =
    | Repo | Defconfig | LocalversionBase | Lto | SupportedKsu | ToolchainUrls
    | ToolchainPathPrefix | ToolchainPathExports | AnykernelRepo | AnykernelBranch
    | ZipNamePrefix | VersionMethod | ExtraHostEnv | DisableSecurity | ReadmePlaceholders
    | PushServer
    | Other(name: string)
  {
    /** The name as it is spelled in the file. */
    function Spelling(): string {
      match this
      case Repo => "repo"
      case Defconfig => "defconfig"
      case LocalversionBase => "localversion_base"
      case Lto => "lto"
      case SupportedKsu => "supported_ksu"
      case ToolchainUrls => "toolchain_urls"
      case ToolchainPathPrefix => "toolchain_path_prefix"
      case ToolchainPathExports => "toolchain_path_exports"
      case AnykernelRepo => "anykernel_repo"
      case AnykernelBranch => "anykernel_branch"
      case ZipNamePrefix => "zip_name_prefix"
      case VersionMethod => "version_method"
      case ExtraHostEnv => "extra_host_env"
      case DisableSecurity => "disable_security"
      case ReadmePlaceholders => "readme_placeholders"
      case PushServer => "push_server"
      case Other(n) => n
    }
  }

  /** A registry value: a JSON object. */
  type Record = map<Member, Json>

  /** The registry file `configs/projects.json`: project key to JSON object. */
  type JsonFile = map<string, Record>

  /** The members of a serialised record. */
  const FieldKeys: set<Member> := {
    Repo, Defconfig, LocalversionBase, Lto, SupportedKsu, ToolchainUrls,
    ToolchainPathPrefix, ToolchainPathExports, AnykernelRepo, AnykernelBranch,
    ZipNamePrefix, VersionMethod, ExtraHostEnv, DisableSecurity, ReadmePlaceholders
  }

  /** `serde_json::from_value::<ProjectConfig>`: the mandatory fields must be
      strings; every other field may be missing or null, and otherwise must
      have its type. Members the record does not name (`push_server`) are
      ignored. */
  function DecodeConfig(o: Record): Option<ProjectConfig> {
    var repo := RequiredString(o, Repo);
    var defconfig := RequiredString(o, Defconfig);
    var base := RequiredString(o, LocalversionBase);
    var lto := OptionalString(o, Lto);
    var supported := OptionalStrings(o, SupportedKsu);
    var urls := OptionalStrings(o, ToolchainUrls);
    var prefix := OptionalString(o, ToolchainPathPrefix);
    var exports := OptionalStrings(o, ToolchainPathExports);
    var ak3Repo := OptionalString(o, AnykernelRepo);
    var ak3Branch := OptionalString(o, AnykernelBranch);
    var zipName := OptionalString(o, ZipNamePrefix);
    var versionMethod := OptionalString(o, VersionMethod);
    var hostEnv := OptionalBool(o, ExtraHostEnv);
    var disable := OptionalStrings(o, DisableSecurity);
    var placeholders := OptionalTable(o, ReadmePlaceholders);
    if && repo.Some? && defconfig.Some? && base.Some? && lto.Some? && supported.Some?
       && urls.Some? && prefix.Some? && exports.Some? && ak3Repo.Some? && ak3Branch.Some?
       && zipName.Some? && versionMethod.Some? && hostEnv.Some? && disable.Some? && placeholders.Some?
    then Some(ProjectConfig(repo.value, defconfig.value, base.value, lto.value, supported.value,
                            urls.value, prefix.value, exports.value, ak3Repo.value, ak3Branch.value,
                            zipName.value, versionMethod.value, hostEnv.value, disable.value,
                            placeholders.value))
    else None
  }

  /** One registry value read by the Rust tool. */
  function Decode(o: Record): Entry {
    match DecodeConfig(o)
    case Some(p) => Project(p)
    case None => Malformed
  }

  /** A value reads as a record exactly when every field reads with its
      type, and the record holds what each member holds. */
  lemma DecodeFields(o: Record)
    ensures Decode(o).Project? <==>
              && RequiredString(o, Repo).Some?
              && RequiredString(o, Defconfig).Some?
              && RequiredString(o, LocalversionBase).Some?
              && OptionalString(o, Lto).Some?
              && OptionalStrings(o, SupportedKsu).Some?
              && OptionalStrings(o, ToolchainUrls).Some?
              && OptionalString(o, ToolchainPathPrefix).Some?
              && OptionalStrings(o, ToolchainPathExports).Some?
              && OptionalString(o, AnykernelRepo).Some?
              && OptionalString(o, AnykernelBranch).Some?
              && OptionalString(o, ZipNamePrefix).Some?
              && OptionalString(o, VersionMethod).Some?
              && OptionalBool(o, ExtraHostEnv).Some?
              && OptionalStrings(o, DisableSecurity).Some?
              && OptionalTable(o, ReadmePlaceholders).Some?
    ensures Decode(o).Project? ==>
              var p := Decode(o).config;
              && RequiredString(o, Repo) == Some(p.repo)
              && RequiredString(o, Defconfig) == Some(p.defconfig)
              && RequiredString(o, LocalversionBase) == Some(p.localversionBase)
              && OptionalString(o, Lto) == Some(p.lto)
              && OptionalStrings(o, SupportedKsu) == Some(p.supportedKsu)
              && OptionalStrings(o, ToolchainUrls) == Some(p.toolchainUrls)
              && OptionalString(o, ToolchainPathPrefix) == Some(p.toolchainPathPrefix)
              && OptionalStrings(o, ToolchainPathExports) == Some(p.toolchainPathExports)
              && OptionalString(o, AnykernelRepo) == Some(p.anykernelRepo)
              && OptionalString(o, AnykernelBranch) == Some(p.anykernelBranch)
              && OptionalString(o, ZipNamePrefix) == Some(p.zipNamePrefix)
              && OptionalString(o, VersionMethod) == Some(p.versionMethod)
              && OptionalBool(o, ExtraHostEnv) == Some(p.extraHostEnv)
              && OptionalStrings(o, DisableSecurity) == Some(p.disableSecurity)
              && OptionalTable(o, ReadmePlaceholders) == Some(p.readmePlaceholders)
  {
  }

  /** The members serde cannot do without: `String` fields with no default. */
  const MandatoryKeys: set<Member> := {Repo, Defconfig, LocalversionBase}

  /** `repo`, `defconfig` and `localversion_base` are the only fields whose
      absence or null makes a readable value Malformed: unsetting any other
      member keeps the value readable, and removing it reads the same as
      nulling it; a member that is not a field is ignored altogether. */
  lemma UnsetMember(o: Record, m: Member)
    requires Decode(o).Project?
    ensures Decode(o - {m}).Project? <==> m !in MandatoryKeys
    ensures Decode(o[m := JNull]).Project? <==> m !in MandatoryKeys
    ensures m !in MandatoryKeys ==> Decode(o - {m}) == Decode(o[m := JNull])
    ensures m !in FieldKeys ==> Decode(o - {m}) == Decode(o)
  {
    var d, n := o - {m}, o[m := JNull];
    if m in MandatoryKeys {
      UnsetMandatory(d, m);
      UnsetMandatory(n, m);
    } else {
      UnsetOptional(o, d, m);
      UnsetOptional(o, n, m);
      ReadsElsewhere(d, n, m);
      ReadsUnset(d, m);
      ReadsUnset(n, m);
      SameReads(d, n);
      if m !in FieldKeys {
        ReadsElsewhere(o, d, m);
        SameReads(o, d);
      }
    }
  }

  /** Unsetting an optional member of a readable value keeps it readable. */
  lemma UnsetOptional(o: Record, u: Record, m: Member)
    requires Decode(o).Project? && m !in MandatoryKeys && Unset(u, m)
    requires forall k | k != m :: (k in o <==> k in u) && (k in o ==> o[k] == u[k])
    ensures Decode(u).Project?
  {
    ReadsElsewhere(o, u, m);
    ReadsUnset(u, m);
    ReadableFields(o);
    ReadableFields(u);
    assert forall k | k in FieldKeys :: FieldReads(u, k) by {
      forall k | k in FieldKeys
        ensures FieldReads(u, k)
      {
        if k != m {
          assert FieldReads(o, k);
        }
      }
    }
  }

  /** Member `k` of `o` reads with the type of its field. */
  predicate FieldReads(o: Record, k: Member) {
    match k
    case Repo | Defconfig | LocalversionBase => RequiredString(o, k).Some?
    case Lto | ToolchainPathPrefix | AnykernelRepo | AnykernelBranch | ZipNamePrefix | VersionMethod =>
      OptionalString(o, k).Some?
    case SupportedKsu | ToolchainUrls | ToolchainPathExports | DisableSecurity => OptionalStrings(o, k).Some?
    case ExtraHostEnv => OptionalBool(o, k).Some?
    case ReadmePlaceholders => OptionalTable(o, k).Some?
    case _ => true
  }

  /** A value reads as a record exactly when every field reads with its type. */
  lemma ReadableFields(o: Record)
    ensures Decode(o).Project? <==> forall k | k in FieldKeys :: FieldReads(o, k)
  {
    DecodeReadable(o);
  }

  /** A value with a mandatory member unset is Malformed. */
  lemma UnsetMandatory(o: Record, m: Member)
    requires m in MandatoryKeys && Unset(o, m)
    ensures Decode(o).Malformed?
  {
    assert RequiredString(o, m).None?;
  }

  /** An unset member reads as no value for every optional type. */
  lemma ReadsUnset(o: Record, m: Member)
    requires Unset(o, m)
    ensures RequiredString(o, m) == None
    ensures OptionalString(o, m) == Some(None) && OptionalStrings(o, m) == Some(None)
    ensures OptionalBool(o, m) == Some(None) && OptionalTable(o, m) == Some(None)
  {
  }

  /** Two values whose fields all read alike decode alike. */
  lemma SameReads(a: Record, b: Record)
    requires forall k | k in FieldKeys :: RequiredString(a, k) == RequiredString(b, k)
    requires forall k | k in FieldKeys :: OptionalString(a, k) == OptionalString(b, k)
    requires forall k | k in FieldKeys :: OptionalStrings(a, k) == OptionalStrings(b, k)
    requires forall k | k in FieldKeys :: OptionalBool(a, k) == OptionalBool(b, k)
    requires forall k | k in FieldKeys :: OptionalTable(a, k) == OptionalTable(b, k)
    ensures Decode(a) == Decode(b)
  {
  }

  /** Two values that agree on every member but `m` read every other field alike. */
  lemma ReadsElsewhere(a: Record, b: Record, m: Member)
    requires forall k | k != m :: (k in a <==> k in b) && (k in a ==> a[k] == b[k])
    ensures forall k | k != m :: RequiredString(a, k) == RequiredString(b, k)
    ensures forall k | k != m :: OptionalString(a, k) == OptionalString(b, k)
    ensures forall k | k != m :: OptionalStrings(a, k) == OptionalStrings(b, k)
    ensures forall k | k != m :: OptionalBool(a, k) == OptionalBool(b, k)
    ensures forall k | k != m :: OptionalTable(a, k) == OptionalTable(b, k)
  {
  }

  /** A value reads as a record exactly when every field reads with its type. */
  lemma DecodeReadable(o: Record)
    ensures Decode(o).Project? <==>
              && RequiredString(o, Repo).Some?
              && RequiredString(o, Defconfig).Some?
              && RequiredString(o, LocalversionBase).Some?
              && OptionalString(o, Lto).Some?
              && OptionalStrings(o, SupportedKsu).Some?
              && OptionalStrings(o, ToolchainUrls).Some?
              && OptionalString(o, ToolchainPathPrefix).Some?
              && OptionalStrings(o, ToolchainPathExports).Some?
              && OptionalString(o, AnykernelRepo).Some?
              && OptionalString(o, AnykernelBranch).Some?
              && OptionalString(o, ZipNamePrefix).Some?
              && OptionalString(o, VersionMethod).Some?
              && OptionalBool(o, ExtraHostEnv).Some?
              && OptionalStrings(o, DisableSecurity).Some?
              && OptionalTable(o, ReadmePlaceholders).Some?
  {
  }

  /** The text fields of a record are what their members hold. */
  lemma DecodeTexts(o: Record)
    requires Decode(o).Project?
    ensures var p := Decode(o).config;
            && RequiredString(o, Repo) == Some(p.repo)
            && RequiredString(o, Defconfig) == Some(p.defconfig)
            && RequiredString(o, LocalversionBase) == Some(p.localversionBase)
            && OptionalString(o, Lto) == Some(p.lto)
            && OptionalString(o, ToolchainPathPrefix) == Some(p.toolchainPathPrefix)
            && OptionalString(o, ZipNamePrefix) == Some(p.zipNamePrefix)
            && OptionalString(o, VersionMethod) == Some(p.versionMethod)
            && OptionalBool(o, ExtraHostEnv) == Some(p.extraHostEnv)
  {
  }

  /** The supported-variant list of a record is what its member holds. */
  lemma DecodeSupported(o: Record)
    requires Decode(o).Project?
    ensures OptionalStrings(o, SupportedKsu) == Some(Decode(o).config.supportedKsu)
  {
  }

  /** A value whose every field reads as the record's field reads as the record. */
  lemma DecodeOf(o: Record, p: ProjectConfig)
    requires RequiredString(o, Repo) == Some(p.repo)
    requires RequiredString(o, Defconfig) == Some(p.defconfig)
    requires RequiredString(o, LocalversionBase) == Some(p.localversionBase)
    requires OptionalString(o, Lto) == Some(p.lto)
    requires OptionalStrings(o, SupportedKsu) == Some(p.supportedKsu)
    requires OptionalStrings(o, ToolchainUrls) == Some(p.toolchainUrls)
    requires OptionalString(o, ToolchainPathPrefix) == Some(p.toolchainPathPrefix)
    requires OptionalStrings(o, ToolchainPathExports) == Some(p.toolchainPathExports)
    requires OptionalString(o, AnykernelRepo) == Some(p.anykernelRepo)
    requires OptionalString(o, AnykernelBranch) == Some(p.anykernelBranch)
    requires OptionalString(o, ZipNamePrefix) == Some(p.zipNamePrefix)
    requires OptionalString(o, VersionMethod) == Some(p.versionMethod)
    requires OptionalBool(o, ExtraHostEnv) == Some(p.extraHostEnv)
    requires OptionalStrings(o, DisableSecurity) == Some(p.disableSecurity)
    requires OptionalTable(o, ReadmePlaceholders) == Some(p.readmePlaceholders)
    ensures Decode(o) == Project(p)
  {
  }

  /** The registry file as the Rust tool reads it, value by value. */
  function Decoded(file: JsonFile): Registry {
    map k | k in file :: Decode(file[k])
  }

  /** `serde_json::to_value` of a record: every field is written, an unset
      one as null. */
  function Encode(p: ProjectConfig): Record {
    map m | m in FieldKeys :: Written(p, m)
  }

  /** The value written for member `m` of the record. */
  function Written(p: ProjectConfig, m: Member): Json {
    match m
    case Repo => JString(p.repo)
    case Defconfig => JString(p.defconfig)
    case LocalversionBase => JString(p.localversionBase)
    case Lto => NullableString(p.lto)
    case SupportedKsu => NullableStrings(p.supportedKsu)
    case ToolchainUrls => NullableStrings(p.toolchainUrls)
    case ToolchainPathPrefix => NullableString(p.toolchainPathPrefix)
    case ToolchainPathExports => NullableStrings(p.toolchainPathExports)
    case AnykernelRepo => NullableString(p.anykernelRepo)
    case AnykernelBranch => NullableString(p.anykernelBranch)
    case ZipNamePrefix => NullableString(p.zipNamePrefix)
    case VersionMethod => NullableString(p.versionMethod)
    case ExtraHostEnv => NullableBool(p.extraHostEnv)
    case DisableSecurity => NullableStrings(p.disableSecurity)
    case ReadmePlaceholders => NullableTable(p.readmePlaceholders)
    case _ => JNull
  }

  /** Every field is written, and nothing else. */
  lemma EncodeKeys(p: ProjectConfig)
    ensures Encode(p).Keys == FieldKeys
  {
  }

  lemma EncodeReadsStrings(p: ProjectConfig)
    ensures var o := Encode(p);
            && RequiredString(o, Repo) == Some(p.repo)
            && RequiredString(o, Defconfig) == Some(p.defconfig)
            && RequiredString(o, LocalversionBase) == Some(p.localversionBase)
            && OptionalString(o, Lto) == Some(p.lto)
            && OptionalString(o, ToolchainPathPrefix) == Some(p.toolchainPathPrefix)
  {
  }

  lemma EncodeReadsSources(p: ProjectConfig)
    ensures var o := Encode(p);
            && OptionalString(o, AnykernelRepo) == Some(p.anykernelRepo)
            && OptionalString(o, AnykernelBranch) == Some(p.anykernelBranch)
            && OptionalString(o, ZipNamePrefix) == Some(p.zipNamePrefix)
            && OptionalString(o, VersionMethod) == Some(p.versionMethod)
            && OptionalBool(o, ExtraHostEnv) == Some(p.extraHostEnv)
  {
  }

  lemma ReadStringList(o: Record, key: Member, v: Option<seq<string>>)
    requires key in o && o[key] == NullableStrings(v)
    ensures OptionalStrings(o, key) == Some(v)
  {
    if v.Some? { AsStringsOfStrings(v.value); }
  }

  lemma EncodeReadsLists(p: ProjectConfig)
    ensures var o := Encode(p);
            && OptionalStrings(o, SupportedKsu) == Some(p.supportedKsu)
            && OptionalStrings(o, ToolchainUrls) == Some(p.toolchainUrls)
            && OptionalStrings(o, ToolchainPathExports) == Some(p.toolchainPathExports)
            && OptionalStrings(o, DisableSecurity) == Some(p.disableSecurity)
  {
    var o := Encode(p);
    ReadStringList(o, SupportedKsu, p.supportedKsu);
    ReadStringList(o, ToolchainUrls, p.toolchainUrls);
    ReadStringList(o, ToolchainPathExports, p.toolchainPathExports);
    ReadStringList(o, DisableSecurity, p.disableSecurity);
  }

  lemma EncodeReadsTable(p: ProjectConfig)
    ensures OptionalTable(Encode(p), ReadmePlaceholders) == Some(p.readmePlaceholders)
  {
    if p.readmePlaceholders.Some? { AsStringMapOfStringMap(p.readmePlaceholders.value); }
  }

  /** Reading back a written record gives the record. */
  lemma DecodeEncode(p: ProjectConfig)
    ensures Decode(Encode(p)) == Project(p)
  {
    EncodeReadsStrings(p);
    EncodeReadsSources(p);
    EncodeReadsLists(p);
    EncodeReadsTable(p);
    DecodeOf(Encode(p), p);
  }

  /** Python `load_config`: the registry file's contents, or the empty
      registry when there is no file (`file` is None). */
  function LoadConfig(file: Option<JsonFile>): (data: JsonFile)
    ensures file.None? ==> data == map[]
    ensures file.Some? ==> data == file.value
  {
    file.GetOr(map[])
  }

  // ------------------------------------------------------------ variant table

  /** One entry of the variant table: where the upstream lives and how its
      kernel setup script is installed. */
  datatype VariantItem = VariantItem(
    repo: string,
    branch: string,
    setupUrl: string,
    setupArgs: seq<string>)

  /** The variant table, keyed by variant name. */
  const VariantTable: map<string, VariantItem> := map[
    "ksu" := VariantItem(
      "https://github.com/tiann/KernelSU.git",
      "main",
      "https://raw.githubusercontent.com/tiann/KernelSU/main/kernel/setup.sh",
      ["main"]),
    "mksu" := VariantItem(
      "https://github.com/5ec1cff/KernelSU.git",
      "main",
      "https://raw.githubusercontent.com/5ec1cff/KernelSU/main/kernel/setup.sh",
      ["main"]),
    "resukisu" := VariantItem(
      "https://github.com/ReSukiSU/ReSukiSU.git",
      "main",
      "https://raw.githubusercontent.com/ReSukiSU/ReSukiSU/main/kernel/setup.sh",
      ["builtin"])
  ]

  /** The table names exactly the three current variants, never the legacy
      name; every upstream is followed on `main`; the setup arguments are
      `builtin` for resukisu and `main` for the other two. */
  lemma VariantTableShape()
    ensures VariantTable.Keys == {"ksu", "mksu", "resukisu"}
    ensures "sukisuultra" !in VariantTable
    ensures forall v | v in VariantTable :: VariantTable[v].branch == "main"
    ensures VariantTable["resukisu"].setupArgs == ["builtin"]
    ensures VariantTable["ksu"].setupArgs == ["main"]
    ensures VariantTable["mksu"].setupArgs == ["main"]
  {
  }
}
