/**
  Registry edits (`add` in both tools) and the Python `parse` export of a
  project's settings as environment lines. Both work on the registry file's
  JSON objects: the Rust tool writes a serialised record, the Python tool a
  dictionary of its own, and Python reads members with `get`, where a null
  member is not replaced by the default.
 */
module Registry {
  import opened Wrappers
  import Text
  import opened Json
  import opened Config
  import opened Variants
  import Meta

  /** The variants a newly added project is built for, in stored order. */
  const NewProjectVariants: seq<string> := ["resukisu", "mksu", "ksu"]

  /** The record `handle_add` builds: the given fields, the three current
      variants, the device names as README placeholders, and a toolchain
      prefix only when one was given. */
  function RustNewProject(repo: string, defconfig: string, localversion: string,
                          deviceCn: string, deviceEn: string, ak3Repo: string,
                          ak3Branch: string, zipName: string, toolchainPrefix: string): ProjectConfig
  {
    ProjectConfig(
      repo, defconfig, localversion,
      None,
      Some(NewProjectVariants),
      None,
      if toolchainPrefix == "" then None else Some(toolchainPrefix),
      None,
      Some(ak3Repo),
      Some(ak3Branch),
      Some(zipName),
      None,
      None,
      None,
      Some(map["DEVICE_NAME_CN" := deviceCn, "DEVICE_NAME_EN" := deviceEn]))
  }

  /** `handle_add`: the new record, serialised with every field (the unset
      ones as null), replaces whatever `key` held; every other value is
      written back unchanged. Read back, the stored value is the record. */
  function RustAdd(file: JsonFile, key: string, repo: string, defconfig: string, localversion: string,
                   deviceCn: string, deviceEn: string, ak3Repo: string, ak3Branch: string,
                   zipName: string, toolchainPrefix: string): (r: JsonFile)
    ensures r.Keys == file.Keys + {key}
    ensures forall k | k in file && k != key :: r[k] == file[k]
    ensures Decode(r[key]) == Project(RustNewProject(repo, defconfig, localversion, deviceCn, deviceEn,
                                                     ak3Repo, ak3Branch, zipName, toolchainPrefix))
  {
    var p := RustNewProject(repo, defconfig, localversion, deviceCn, deviceEn,
                            ak3Repo, ak3Branch, zipName, toolchainPrefix);
    DecodeEncode(p);
    file[key := Encode(p)]
  }

  /** Field by field, the record `handle_add` stores: the given repository, defconfig, local version, AnyKernel3 source and zip-name prefix; the three current variants; the toolchain prefix only when one was given; the device names as README placeholders; every other field unset. */
  lemma RustAddFields(file: JsonFile, key: string, repo: string, defconfig: string, localversion: string,
                      deviceCn: string, deviceEn: string, ak3Repo: string, ak3Branch: string,
                      zipName: string, toolchainPrefix: string)
    ensures var p := Decode(RustAdd(file, key, repo, defconfig, localversion, deviceCn, deviceEn,
                                       ak3Repo, ak3Branch, zipName, toolchainPrefix)[key]).config;
            && p.repo == repo
            && p.defconfig == defconfig
            && p.localversionBase == localversion
            && p.lto == None
            && p.supportedKsu == Some(["resukisu", "mksu", "ksu"])
            && p.toolchainUrls == None
            && p.toolchainPathPrefix == (if toolchainPrefix == "" then None else Some(toolchainPrefix))
            && p.toolchainPathExports == None
            && p.anykernelRepo == Some(ak3Repo)
            && p.anykernelBranch == Some(ak3Branch)
            && p.zipNamePrefix == Some(zipName)
            && p.versionMethod == None
            && p.extraHostEnv == None
            && p.disableSecurity == None
            && p.readmePlaceholders == Some(map["DEVICE_NAME_CN" := deviceCn, "DEVICE_NAME_EN" := deviceEn])
  {
  }

  /** The unset fields of a record added by the Rust tool are stored as
      explicit nulls, not left out. */
  lemma RustAddWritesNulls(file: JsonFile, key: string, repo: string, defconfig: string, localversion: string,
                           deviceCn: string, deviceEn: string, ak3Repo: string, ak3Branch: string,
                           zipName: string, toolchainPrefix: string)
    ensures var o := RustAdd(file, key, repo, defconfig, localversion, deviceCn, deviceEn,
                             ak3Repo, ak3Branch, zipName, toolchainPrefix)[key];
            && o[Lto] == JNull
            && o[ToolchainUrls] == JNull
            && o[ToolchainPathExports] == JNull
            && o[VersionMethod] == JNull
            && o[ExtraHostEnv] == JNull
            && o[DisableSecurity] == JNull
            && (toolchainPrefix == "" <==> o[ToolchainPathPrefix] == JNull)
  {
  }

  /** The members Python `add_project` always writes. */
  const PyAddedKeys: set<Member> := {
    Repo, Defconfig, LocalversionBase, AnykernelRepo, AnykernelBranch,
    ZipNamePrefix, SupportedKsu, PushServer
  }

  /** The push-server member Python writes: disabled. */
  const DisabledPushServer: Json := JObject(map["enabled" := JBool(false)])

  /** The dictionary `add_project` builds: the given fields, the three current
      variants and a disabled push server, and a toolchain prefix only when one
      was given. */
  function PyNewObject(repo: string, defconfig: string, localversion: string, ak3Repo: string,
                       ak3Branch: string, zipName: string, toolchainPrefix: string): Record
  {
    var keys := PyAddedKeys + (if toolchainPrefix != "" then {ToolchainPathPrefix} else {});
    map m | m in keys :: PyWritten(m, repo, defconfig, localversion, ak3Repo, ak3Branch, zipName, toolchainPrefix)
  }

  /** The value `add_project` writes for member `m`. */
  function PyWritten(m: Member, repo: string, defconfig: string, localversion: string, ak3Repo: string,
                     ak3Branch: string, zipName: string, toolchainPrefix: string): Json
  {
    match m
    case Repo => JString(repo)
    case Defconfig => JString(defconfig)
    case LocalversionBase => JString(localversion)
    case AnykernelRepo => JString(ak3Repo)
    case AnykernelBranch => JString(ak3Branch)
    case ZipNamePrefix => JString(zipName)
    case SupportedKsu => JArray(Strings(NewProjectVariants))
    case PushServer => DisabledPushServer
    case _ => JString(toolchainPrefix)
  }

  /** The record the Rust tool reads from a dictionary written by Python:
      the given fields, the three variants, the prefix when given, and
      nothing else. */
  function PyNewProject(repo: string, defconfig: string, localversion: string, ak3Repo: string,
                        ak3Branch: string, zipName: string, toolchainPrefix: string): ProjectConfig
  {
    ProjectConfig(repo, defconfig, localversion, None, Some(NewProjectVariants), None,
                  if toolchainPrefix == "" then None else Some(toolchainPrefix),
                  None, Some(ak3Repo), Some(ak3Branch), Some(zipName), None, None, None, None)
  }

  /** The members of the dictionary `add_project` writes: the fixed ones,
      and the prefix exactly when given. */
  lemma PyNewObjectShape(repo: string, defconfig: string, localversion: string, ak3Repo: string,
                          ak3Branch: string, zipName: string, toolchainPrefix: string)
    ensures var o := PyNewObject(repo, defconfig, localversion, ak3Repo, ak3Branch, zipName, toolchainPrefix);
            && o.Keys == PyAddedKeys + (if toolchainPrefix == "" then {} else {ToolchainPathPrefix})
            && o[Repo] == JString(repo)
            && o[ZipNamePrefix] == JString(zipName)
            && o[PushServer] == DisabledPushServer
            && (toolchainPrefix != "" ==> o[ToolchainPathPrefix] == JString(toolchainPrefix))
  {
  }

  /** The members `add_project` leaves out. */
  lemma PyNewObjectAbsent(repo: string, defconfig: string, localversion: string, ak3Repo: string,
                          ak3Branch: string, zipName: string, toolchainPrefix: string)
    ensures var o := PyNewObject(repo, defconfig, localversion, ak3Repo, ak3Branch, zipName, toolchainPrefix);
            && Lto !in o && ToolchainUrls !in o && ToolchainPathExports !in o && VersionMethod !in o
            && ExtraHostEnv !in o && DisableSecurity !in o && ReadmePlaceholders !in o
            && (toolchainPrefix == "" ==> ToolchainPathPrefix !in o)
  {
  }

  /** The dictionary `add_project` writes holds no null. */
  lemma PyNewObjectNoNull(repo: string, defconfig: string, localversion: string, ak3Repo: string,
                          ak3Branch: string, zipName: string, toolchainPrefix: string)
    ensures var o := PyNewObject(repo, defconfig, localversion, ak3Repo, ak3Branch, zipName, toolchainPrefix);
            forall m | m in o :: o[m] != JNull
  {
  }

  lemma PyNewObjectStrings(repo: string, defconfig: string, localversion: string, ak3Repo: string,
                          ak3Branch: string, zipName: string, toolchainPrefix: string)
    ensures var o := PyNewObject(repo, defconfig, localversion, ak3Repo, ak3Branch, zipName, toolchainPrefix);
            && RequiredString(o, Repo) == Some(repo)
            && RequiredString(o, Defconfig) == Some(defconfig)
            && RequiredString(o, LocalversionBase) == Some(localversion)
            && OptionalString(o, AnykernelRepo) == Some(Some(ak3Repo))
            && OptionalString(o, AnykernelBranch) == Some(Some(ak3Branch))
            && OptionalString(o, ZipNamePrefix) == Some(Some(zipName))
  {
  }

  lemma PyNewObjectUnset(repo: string, defconfig: string, localversion: string, ak3Repo: string,
                          ak3Branch: string, zipName: string, toolchainPrefix: string)
    ensures var o := PyNewObject(repo, defconfig, localversion, ak3Repo, ak3Branch, zipName, toolchainPrefix);
            && Unset(o, Lto) && Unset(o, ToolchainUrls) && Unset(o, ToolchainPathExports)
            && Unset(o, VersionMethod) && Unset(o, ExtraHostEnv) && Unset(o, DisableSecurity)
            && Unset(o, ReadmePlaceholders)
  {
    PyNewObjectAbsent(repo, defconfig, localversion, ak3Repo, ak3Branch, zipName, toolchainPrefix);
  }

  lemma PyNewObjectLists(repo: string, defconfig: string, localversion: string, ak3Repo: string,
                          ak3Branch: string, zipName: string, toolchainPrefix: string)
    ensures var o := PyNewObject(repo, defconfig, localversion, ak3Repo, ak3Branch, zipName, toolchainPrefix);
            && OptionalStrings(o, SupportedKsu) == Some(Some(NewProjectVariants))
            && OptionalString(o, ToolchainPathPrefix) == Some(if toolchainPrefix == "" then None else Some(toolchainPrefix))
  {
    AsStringsOfStrings(NewProjectVariants);
  }

  /** Read back by the Rust tool, the dictionary is the record. */
  lemma DecodePyNewObject(repo: string, defconfig: string, localversion: string, ak3Repo: string,
                          ak3Branch: string, zipName: string, toolchainPrefix: string)
    ensures Decode(PyNewObject(repo, defconfig, localversion, ak3Repo, ak3Branch, zipName, toolchainPrefix))
         == Project(PyNewProject(repo, defconfig, localversion, ak3Repo, ak3Branch, zipName, toolchainPrefix))
  {
    PyNewObjectStrings(repo, defconfig, localversion, ak3Repo, ak3Branch, zipName, toolchainPrefix);
    PyNewObjectUnset(repo, defconfig, localversion, ak3Repo, ak3Branch, zipName, toolchainPrefix);
    PyNewObjectLists(repo, defconfig, localversion, ak3Repo, ak3Branch, zipName, toolchainPrefix);
    DecodeOf(PyNewObject(repo, defconfig, localversion, ak3Repo, ak3Branch, zipName, toolchainPrefix), PyNewProject(repo, defconfig, localversion, ak3Repo, ak3Branch, zipName, toolchainPrefix));
  }

  /** Python `add_project` on the loaded registry (empty when there is no
      file): the new dictionary replaces whatever `key` held, holds no null,
      and every other value is written back unchanged. Read back by the Rust
      tool it is the same record as the Rust `add` stores, minus the README
      placeholders. */
  function PyAdd(file: Option<JsonFile>, key: string, repo: string, defconfig: string, localversion: string,
                 ak3Repo: string, ak3Branch: string, zipName: string, toolchainPrefix: string): (r: JsonFile)
    ensures r.Keys == LoadConfig(file).Keys + {key}
    ensures forall k | k in LoadConfig(file) && k != key :: r[k] == LoadConfig(file)[k]
    ensures r[key].Keys == PyAddedKeys + (if toolchainPrefix == "" then {} else {ToolchainPathPrefix})
    ensures forall m | m in r[key] :: r[key][m] != JNull
    ensures r[key][Repo] == JString(repo)
    ensures r[key][PushServer] == DisabledPushServer
    ensures Decode(r[key]) == Project(PyNewProject(repo, defconfig, localversion, ak3Repo,
                                                   ak3Branch, zipName, toolchainPrefix))
  {
    DecodePyNewObject(repo, defconfig, localversion, ak3Repo, ak3Branch, zipName, toolchainPrefix);
    PyNewObjectShape(repo, defconfig, localversion, ak3Repo, ak3Branch, zipName, toolchainPrefix);
    PyNewObjectNoNull(repo, defconfig, localversion, ak3Repo, ak3Branch, zipName, toolchainPrefix);
    LoadConfig(file)[key := PyNewObject(repo, defconfig, localversion, ak3Repo,
                                        ak3Branch, zipName, toolchainPrefix)]
  }

  /** Field by field, the record `add_project` stores, as the Rust tool reads it: the same as `handle_add` except that no README placeholders are set. */
  lemma PyAddFields(file: Option<JsonFile>, key: string, repo: string, defconfig: string, localversion: string,
                    ak3Repo: string, ak3Branch: string, zipName: string, toolchainPrefix: string)
    ensures var p := Decode(PyAdd(file, key, repo, defconfig, localversion,
                                     ak3Repo, ak3Branch, zipName, toolchainPrefix)[key]).config;
            && p.repo == repo
            && p.defconfig == defconfig
            && p.localversionBase == localversion
            && p.lto == None
            && p.supportedKsu == Some(["resukisu", "mksu", "ksu"])
            && p.toolchainUrls == None
            && p.toolchainPathPrefix == (if toolchainPrefix == "" then None else Some(toolchainPrefix))
            && p.toolchainPathExports == None
            && p.anykernelRepo == Some(ak3Repo)
            && p.anykernelBranch == Some(ak3Branch)
            && p.zipNamePrefix == Some(zipName)
            && p.versionMethod == None
            && p.extraHostEnv == None
            && p.disableSecurity == None
            && p.readmePlaceholders == None
  {
  }

  /** Both `add` implementations store the same record, as the Rust tool reads
      it, up to the README placeholders only the Rust one writes; in the file
      they differ, since only the Rust one writes the unset fields as nulls. */
  lemma AddImplementationsAgree(file: JsonFile, key: string, repo: string, defconfig: string,
                                localversion: string, deviceCn: string, deviceEn: string,
                                ak3Repo: string, ak3Branch: string, zipName: string, toolchainPrefix: string)
    ensures var rust := RustAdd(file, key, repo, defconfig, localversion, deviceCn, deviceEn,
                                ak3Repo, ak3Branch, zipName, toolchainPrefix)[key];
            var py := PyAdd(Some(file), key, repo, defconfig, localversion,
                            ak3Repo, ak3Branch, zipName, toolchainPrefix)[key];
            && Decode(rust).config.(readmePlaceholders := None) == Decode(py).config
            && Lto in rust && Lto !in py
  {
  }

  /** A freshly added project is released for `main` and the three current
      variants, and is notified of updates to every tracked variant. */
  lemma {:induction false} AddedProjectCoversEveryVariant(file: JsonFile, key: string, repo: string,
                                        defconfig: string, localversion: string, deviceCn: string,
                                        deviceEn: string, ak3Repo: string, ak3Branch: string,
                                        zipName: string, toolchainPrefix: string)
    ensures var r := RustAdd(file, key, repo, defconfig, localversion, deviceCn, deviceEn,
                             ak3Repo, ak3Branch, zipName, toolchainPrefix);
            Meta.HandleMatrix(Decoded(r), key) == Success(["main", "resukisu", "mksu", "ksu"])
    ensures forall v | v in VariantTable :: v in NewProjectVariants
  {
    var r := RustAdd(file, key, repo, defconfig, localversion, deviceCn, deviceEn,
                     ak3Repo, ak3Branch, zipName, toolchainPrefix);
    assert Decoded(r)[key] == Decode(r[key]);
    var m := Meta.HandleMatrix(Decoded(r), key).value;
    assert m[1] == RenameLegacy("resukisu");
    assert m[2] == RenameLegacy("mksu");
    assert m[3] == RenameLegacy("ksu");
    assert m == ["main", "resukisu", "mksu", "ksu"];
  }

  // ---------------------------------------------------------- Python `parse`

  /** How a member is turned into text: `str(v)`, `str(v).lower()`, or
      `json.dumps(v)`. */
  datatype EnvValue = Str(v: Json) | Lower(v: Json) | Dumps(v: Json)

  /** The text Python writes for an exported value, where the model renders
      it: `str` of a scalar, that text lower-cased, and `json.dumps`. */
  function Rendered(e: EnvValue): Option<string> {
    match e
    case Str(j) => PyStr(j)
    case Lower(j) =>
      (match PyStr(j)
       case Some(t) => Some(Text.ToLower(t))
       case None => None)
    case Dumps(j) => JsonDumps(j)
  }

  /** The lower-cased texts of None and the booleans, and the empty list. */
  lemma RenderedWords()
    ensures Text.ToLower("None") == "none"
    ensures Text.ToLower("True") == "true" && Text.ToLower("False") == "false"
    ensures JsonDumps(JArray([])) == Some("[]")
  {
    LowerWord("None", "none");
    LowerWord("True", "true");
    LowerWord("False", "false");
    assert AsStrings([]) == Some([]) && AllPlain([]);
    assert ListText([]) == "[" + "" + "]" == "[]";
  }

  lemma LowerWord(w: string, l: string)
    requires |w| == |l| && forall i | 0 <= i < |w| :: Text.LowerAscii(w[i]) == l[i]
    ensures Text.ToLower(w) == l
  {
  }

  /** How each exported name is read: from which member, with which default
      (`JNull` where Python passes none), through which conversion. */
  datatype Conversion = AsText | AsLowerText | AsJsonText

  datatype EnvField = EnvField(name: string, key: Member, default: Json, conversion: Conversion) {
    /** The line this field exports from `o`. */
    function Read(o: Record): (string, EnvValue) {
      var v := Get(o, key, default);
      (name, match conversion
             case AsText => Str(v)
             case AsLowerText => Lower(v)
             case AsJsonText => Dumps(v))
    }
  }

  /** The twelve fixed exports of `get_project_env`. */
  const EnvFields: seq<EnvField> := [
    EnvField("PROJECT_REPO", Repo, JNull, AsText),
    EnvField("PROJECT_DEFCONFIG", Defconfig, JNull, AsText),
    EnvField("PROJECT_LOCALVERSION_BASE", LocalversionBase, JNull, AsText),
    EnvField("PROJECT_LTO", Lto, JString(""), AsText),
    EnvField("PROJECT_TOOLCHAIN_PREFIX", ToolchainPathPrefix, JString(""), AsText),
    EnvField("PROJECT_ZIP_NAME", ZipNamePrefix, JString("Kernel"), AsText),
    EnvField("PROJECT_AK3_REPO", AnykernelRepo, JNull, AsText),
    EnvField("PROJECT_AK3_BRANCH", AnykernelBranch, JNull, AsText),
    EnvField("PROJECT_VERSION_METHOD", VersionMethod, JString("param"), AsText),
    EnvField("PROJECT_EXTRA_HOST_ENV", ExtraHostEnv, JBool(false), AsLowerText),
    EnvField("PROJECT_TOOLCHAIN_EXPORTS", ToolchainPathExports, JArray([]), AsJsonText),
    EnvField("PROJECT_DISABLE_SECURITY", DisableSecurity, JArray([]), AsJsonText)
  ]

  /** The `NAME=value` lines in the order they are written: line i exports
      field i of the table, and the toolchain URLs follow as a thirteenth
      line exactly when the member is present, even when it is null. */
  function EnvLines(o: Record): (lines: seq<(string, EnvValue)>)
    ensures |lines| == if ToolchainUrls in o then 13 else 12
    ensures forall i | 0 <= i < |EnvFields| :: lines[i] == EnvFields[i].Read(o)
    ensures ToolchainUrls in o ==> lines[12] == ("PROJECT_TOOLCHAIN_URLS", Dumps(o[ToolchainUrls]))
  {
    [ ("PROJECT_REPO", Str(Get(o, Repo, JNull))),
      ("PROJECT_DEFCONFIG", Str(Get(o, Defconfig, JNull))),
      ("PROJECT_LOCALVERSION_BASE", Str(Get(o, LocalversionBase, JNull))),
      ("PROJECT_LTO", Str(Get(o, Lto, JString("")))),
      ("PROJECT_TOOLCHAIN_PREFIX", Str(Get(o, ToolchainPathPrefix, JString("")))),
      ("PROJECT_ZIP_NAME", Str(Get(o, ZipNamePrefix, JString("Kernel")))),
      ("PROJECT_AK3_REPO", Str(Get(o, AnykernelRepo, JNull))),
      ("PROJECT_AK3_BRANCH", Str(Get(o, AnykernelBranch, JNull))),
      ("PROJECT_VERSION_METHOD", Str(Get(o, VersionMethod, JString("param")))),
      ("PROJECT_EXTRA_HOST_ENV", Lower(Get(o, ExtraHostEnv, JBool(false)))),
      ("PROJECT_TOOLCHAIN_EXPORTS", Dumps(Get(o, ToolchainPathExports, JArray([])))),
      ("PROJECT_DISABLE_SECURITY", Dumps(Get(o, DisableSecurity, JArray([]))))
    ] + (if ToolchainUrls in o then [("PROJECT_TOOLCHAIN_URLS", Dumps(o[ToolchainUrls]))] else [])
  }

  /** What `get_project_env` does: exit with a status and message, or export
      the lines. */
  datatype EnvOutcome = Exit(status: int, message: string) | Emit(lines: seq<(string, EnvValue)>)

  /** Python `get_project_env`: an unknown key (and a missing file) exits with
      status 1 and exports nothing; any other value, project record or not,
      exports its lines. */
  function PyProjectEnv(file: Option<JsonFile>, key: string): (r: EnvOutcome)
    ensures r.Exit? <==> key !in LoadConfig(file)
    ensures r.Exit? ==> r.status == 1
    ensures file.None? ==> r.Exit?
    ensures r.Emit? ==> r.lines == EnvLines(LoadConfig(file)[key])
  {
    var data := LoadConfig(file);
    if key !in data then Exit(1, "Error: Project " + key + " not found.")
    else Emit(EnvLines(data[key]))
  }

  /** The defaults apply only to missing members: zip name "Kernel", version
      method "param", empty LTO and toolchain prefix, "false" for the extra
      host environment, "[]" for the two lists, no URL line. */
  lemma EnvDefaults(o: Record)
    ensures var lines := EnvLines(o);
            && (Lto !in o ==> Rendered(lines[3].1) == Some(""))
            && (ToolchainPathPrefix !in o ==> Rendered(lines[4].1) == Some(""))
            && (ZipNamePrefix !in o ==> Rendered(lines[5].1) == Some("Kernel"))
            && (VersionMethod !in o ==> Rendered(lines[8].1) == Some("param"))
            && (ExtraHostEnv !in o ==> Rendered(lines[9].1) == Some("false"))
            && (ToolchainPathExports !in o ==> Rendered(lines[10].1) == Some("[]"))
            && (DisableSecurity !in o ==> Rendered(lines[11].1) == Some("[]"))
            && (ToolchainUrls !in o <==> |lines| == 12)
  {
    RenderedWords();
  }

  /** An explicit null is exported as Python prints None: "None" for the
      text fields, "none" for the extra host environment and "null" for the
      lists, the URL line included. */
  lemma EnvNulls(o: Record)
    ensures var lines := EnvLines(o);
            && (forall i | 0 <= i < 9 :: EnvFields[i].key in o && o[EnvFields[i].key] == JNull ==>
                  Rendered(lines[i].1) == Some("None"))
            && (Get(o, ExtraHostEnv, JBool(false)) == JNull ==> Rendered(lines[9].1) == Some("none"))
            && (Get(o, ToolchainPathExports, JArray([])) == JNull ==> Rendered(lines[10].1) == Some("null"))
            && (Get(o, DisableSecurity, JArray([])) == JNull ==> Rendered(lines[11].1) == Some("null"))
            && (Get(o, ToolchainUrls, JArray([])) == JNull ==> Rendered(lines[12].1) == Some("null"))
  {
    RenderedWords();
  }

  /** Where a record's members are present and not null, the export shows the
      values the Rust tool reads from it: the repository, the zip-name prefix,
      the version method, LTO and toolchain prefix, and the extra host
      environment flag in lower case. */
  lemma EnvAgreesWithRecord(o: Record)
    requires Decode(o).Project?
    ensures var p := Decode(o).config;
            var lines := EnvLines(o);
            && Rendered(lines[0].1) == Some(p.repo)
            && Rendered(lines[1].1) == Some(p.defconfig)
            && Rendered(lines[2].1) == Some(p.localversionBase)
            && (Get(o, ZipNamePrefix, JString("")) != JNull ==> Rendered(lines[5].1) == Some(Meta.ZipPrefix(p)))
            && (Get(o, VersionMethod, JString("")) != JNull ==> Rendered(lines[8].1) == Some(p.versionMethod.GetOr("param")))
            && (Get(o, Lto, JString("")) != JNull ==> Rendered(lines[3].1) == Some(p.lto.GetOr("")))
            && (Get(o, ToolchainPathPrefix, JString("")) != JNull ==>
                  Rendered(lines[4].1) == Some(p.toolchainPathPrefix.GetOr("")))
            && (Get(o, ExtraHostEnv, JBool(false)) != JNull ==>
                  Rendered(lines[9].1) == Some(if p.extraHostEnv == Some(true) then "true" else "false"))
  {
    RenderedWords();
    DecodeTexts(o);
  }

  /** A record's lists of plain strings are exported as `json.dumps` writes
      them, so the exported text determines the list (`ListTextInjective`):
      the toolchain directories, the disabled options, and the toolchain URLs
      on a thirteenth line. */
  lemma EnvShowsLists(o: Record)
    requires Decode(o).Project?
    ensures var p := Decode(o).config;
            var lines := EnvLines(o);
            && (p.toolchainPathExports.Some? && AllPlain(p.toolchainPathExports.value) ==>
                  Rendered(lines[10].1) == Some(ListText(p.toolchainPathExports.value)))
            && (p.disableSecurity.Some? && AllPlain(p.disableSecurity.value) ==>
                  Rendered(lines[11].1) == Some(ListText(p.disableSecurity.value)))
            && (p.toolchainUrls.Some? && AllPlain(p.toolchainUrls.value) ==>
                  |lines| == 13 && Rendered(lines[12].1) == Some(ListText(p.toolchainUrls.value)))
  {
    DecodeFields(o);
  }

  /** A project added by the Rust tool is exported with its unset fields
      printed as Python prints None, and with a URL line reading "null". */
  lemma RustAddedEnv(file: JsonFile, key: string, repo: string, defconfig: string, localversion: string,
                     deviceCn: string, deviceEn: string, ak3Repo: string, ak3Branch: string,
                     zipName: string, toolchainPrefix: string)
    ensures var r := PyProjectEnv(Some(RustAdd(file, key, repo, defconfig, localversion, deviceCn, deviceEn,
                                               ak3Repo, ak3Branch, zipName, toolchainPrefix)), key);
            && r.Emit? && |r.lines| == 13
            && Rendered(r.lines[3].1) == Some("None")
            && Rendered(r.lines[8].1) == Some("None")
            && Rendered(r.lines[9].1) == Some("none")
            && Rendered(r.lines[10].1) == Some("null")
            && Rendered(r.lines[11].1) == Some("null")
            && Rendered(r.lines[12].1) == Some("null")
  {
    var r := RustAdd(file, key, repo, defconfig, localversion, deviceCn, deviceEn,
                     ak3Repo, ak3Branch, zipName, toolchainPrefix);
    RustAddWritesNulls(file, key, repo, defconfig, localversion, deviceCn, deviceEn,
                       ak3Repo, ak3Branch, zipName, toolchainPrefix);
    EnvNulls(r[key]);
  }

  /** A project added by the Python tool is exported with the defaults. */
  lemma PyAddedEnv(file: Option<JsonFile>, key: string, repo: string, defconfig: string, localversion: string,
                   ak3Repo: string, ak3Branch: string, zipName: string, toolchainPrefix: string)
    ensures var r := PyProjectEnv(Some(PyAdd(file, key, repo, defconfig, localversion,
                                             ak3Repo, ak3Branch, zipName, toolchainPrefix)), key);
            && r.Emit? && |r.lines| == 12
            && Rendered(r.lines[0].1) == Some(repo)
            && Rendered(r.lines[3].1) == Some("")
            && Rendered(r.lines[4].1) == Some(toolchainPrefix)
            && Rendered(r.lines[5].1) == Some(zipName)
            && Rendered(r.lines[8].1) == Some("param")
            && Rendered(r.lines[9].1) == Some("false")
            && Rendered(r.lines[10].1) == Some("[]")
            && Rendered(r.lines[11].1) == Some("[]")
  {
    var file' := PyAdd(file, key, repo, defconfig, localversion, ak3Repo, ak3Branch, zipName, toolchainPrefix);
    var o := PyNewObject(repo, defconfig, localversion, ak3Repo, ak3Branch, zipName, toolchainPrefix);
    assert file'[key] == o;
    assert PyProjectEnv(Some(file'), key) == Emit(EnvLines(o));
    PyNewObjectEnv(repo, defconfig, localversion, ak3Repo, ak3Branch, zipName, toolchainPrefix);
  }

  /** The export lines of the object `add_project` writes. */
  lemma PyNewObjectEnv(repo: string, defconfig: string, localversion: string, ak3Repo: string,
                       ak3Branch: string, zipName: string, toolchainPrefix: string)
    ensures var lines := EnvLines(PyNewObject(repo, defconfig, localversion, ak3Repo, ak3Branch, zipName, toolchainPrefix));
            && |lines| == 12
            && Rendered(lines[0].1) == Some(repo)
            && Rendered(lines[3].1) == Some("")
            && Rendered(lines[4].1) == Some(toolchainPrefix)
            && Rendered(lines[5].1) == Some(zipName)
            && Rendered(lines[8].1) == Some("param")
            && Rendered(lines[9].1) == Some("false")
            && Rendered(lines[10].1) == Some("[]")
            && Rendered(lines[11].1) == Some("[]")
  {
    var o := PyNewObject(repo, defconfig, localversion, ak3Repo, ak3Branch, zipName, toolchainPrefix);
    PyNewObjectShape(repo, defconfig, localversion, ak3Repo, ak3Branch, zipName, toolchainPrefix);
    PyNewObjectAbsent(repo, defconfig, localversion, ak3Repo, ak3Branch, zipName, toolchainPrefix);
    EnvDefaults(o);
  }
}
