/**
  Release metadata (`meta`) and the per-project release matrix (`matrix`), in
  the Rust tool and in its Python predecessor.
 */
module Meta {
  import opened Wrappers
  import opened Text
  import opened Json
  import opened Config
  import opened Variants

  /** The five strings `meta` exports for a build. */
  datatype MetaOutputs = MetaOutputs(
    variantSuffix: string,
    finalLocalversion: string,
    releaseTag: string,
    finalZipName: string,
    releaseTitle: string)

  /** The zip-name prefix, "Kernel" when the record has none. */
  function ZipPrefix(p: ProjectConfig): string {
    p.zipNamePrefix.GetOr("Kernel")
  }

  /** The local version of a build: the base, a dash and the branch suffix. */
  function Localversion(p: ProjectConfig, branch: string): string {
    p.localversionBase + "-" + BranchSuffix(branch)
  }

  /** The metadata of one build of `p` from `branch` on `date` (the clock
      reading "%Y%m%d-%H%M", passed in). The zip name is the tag plus ".zip",
      the tag is prefix-suffix-date, and the title names prefix, suffix and
      date. */
  function MetaFor(p: ProjectConfig, branch: string, date: string): (m: MetaOutputs)
    ensures m.variantSuffix == BranchSuffix(branch)
    ensures m.finalLocalversion == p.localversionBase + "-" + m.variantSuffix
    ensures m.releaseTag == ZipPrefix(p) + "-" + m.variantSuffix + "-" + date
    ensures m.finalZipName == m.releaseTag + ".zip"
    ensures m.releaseTitle == ZipPrefix(p) + " " + m.variantSuffix + " Build (" + date + ")"
    ensures StartsWith(m.releaseTag, ZipPrefix(p))
  {
    var prefix := ZipPrefix(p);
    var suffix := BranchSuffix(branch);
    var m := MetaOutputs(
      suffix,
      p.localversionBase + "-" + suffix,
      prefix + "-" + suffix + "-" + date,
      prefix + "-" + suffix + "-" + date + ".zip",
      prefix + " " + suffix + " Build (" + date + ")");
    assert m.releaseTag[..|prefix|] == prefix;
    m
  }

  /** `meta`: the project must exist and read as a project record. */
  function HandleMeta(reg: Registry, key: string, branch: string, date: string): (r: Result<MetaOutputs, Error>)
    ensures r.Success? <==> key in reg && reg[key].Project?
    ensures r.Success? ==> r.value == MetaFor(reg[key].config, branch, date)
    ensures key !in reg ==> r == Failure(ProjectNotFound(key))
  {
    var p :- Lookup(reg, key);
    Success(MetaFor(p, branch, date))
  }

  /** The worked example: prefix "Foo", base "-base", branch "ksu", date "20240101". */
  lemma MetaExample(p: ProjectConfig)
    requires p.zipNamePrefix == Some("Foo") && p.localversionBase == "-base"
    ensures MetaFor(p, "ksu", "20240101").releaseTag == "Foo-KSU-20240101"
    ensures MetaFor(p, "ksu", "20240101").finalZipName == "Foo-KSU-20240101.zip"
    ensures MetaFor(p, "ksu", "20240101").finalLocalversion == "-base-KSU"
    ensures MetaFor(p, "ksu", "20240101").releaseTitle == "Foo KSU Build (20240101)"
  {
    var m := MetaFor(p, "ksu", "20240101");
    assert ZipPrefix(p) == "Foo";
    assert m.variantSuffix == "KSU";
    assert "Foo" + "-" + "KSU" == "Foo-KSU";
    assert "Foo-KSU" + "-" + "20240101" == "Foo-KSU-20240101";
    assert "Foo-KSU-20240101" + ".zip" == "Foo-KSU-20240101.zip";
    assert "-base" + "-" + "KSU" == "-base-KSU";
    assert "Foo" + " " + "KSU" + " Build (" == "Foo KSU Build (";
    assert "Foo KSU Build (" + "20240101" + ")" == "Foo KSU Build (20240101)";
  }

  /** An unknown branch is released under its upper-cased name. */
  lemma UnknownBranchExample(p: ProjectConfig)
    ensures MetaFor(p, "custom", "20240101").variantSuffix == "CUSTOM"
  {
    assert BranchSuffix("custom") == "CUSTOM";
  }

  /** A legacy-named branch is released under the same tag as its new name. */
  lemma MetaStableUnderRename(p: ProjectConfig, branch: string, date: string)
    ensures MetaFor(p, RenameLegacy(branch), date) == MetaFor(p, branch, date)
  {
    SuffixStableUnderRename(branch);
  }

  // ------------------------------------------------------------------ matrix

  /** Apply the exact legacy rename to every entry, keeping the order. */
  function RenameAll(names: seq<string>): (r: seq<string>)
    ensures |r| == |names|
    ensures forall i | 0 <= i < |names| :: r[i] == RenameLegacy(names[i])
    decreases |names|
  {
    if names == [] then [] else [RenameLegacy(names[0])] + RenameAll(names[1..])
  }

  /** The matrix branches: `main` first, then the supported variants in their
      stored order, the legacy name replaced by its new name. */
  function MatrixBranches(supported: seq<string>): (branches: seq<string>)
    ensures |branches| == 1 + |supported|
    ensures branches[0] == "main"
    ensures forall i | 0 <= i < |supported| :: branches[i + 1] == RenameLegacy(supported[i])
    ensures LegacyName !in branches
  {
    ["main"] + RenameAll(supported)
  }

  /** `matrix`: the branch list of a project; no `supported_ksu` means `main` only. */
  function HandleMatrix(reg: Registry, key: string): (r: Result<seq<string>, Error>)
    ensures r.Success? <==> key in reg && reg[key].Project?
    ensures r.Success? ==> r.value == MatrixBranches(reg[key].config.supportedKsu.GetOr([]))
    ensures r.Success? && reg[key].config.supportedKsu.None? ==> r.value == ["main"]
  {
    var p :- Lookup(reg, key);
    Success(MatrixBranches(p.supportedKsu.GetOr([])))
  }

  /** What `generate_release_matrix` does: nothing for an unknown project, a
      branch list, or a TypeError when `["main"] + supported` meets a stored
      `supported_ksu` that is not a list (null included). */
  datatype PyMatrix = Silent | Branches(items: seq<Json>) | TypeError

  /** Python `generate_release_matrix`: `main` then the stored list verbatim,
      whatever its elements; a missing list means `main` only. Any value is
      read this way, project record or not. */
  function PyReleaseMatrix(file: Option<JsonFile>, key: string): (r: PyMatrix)
    ensures r.Silent? <==> key !in LoadConfig(file)
    ensures file.None? ==> r.Silent?
    ensures key in LoadConfig(file) && SupportedKsu !in LoadConfig(file)[key] ==> r == Branches([JString("main")])
    ensures key in LoadConfig(file) && SupportedKsu in LoadConfig(file)[key] ==>
              match LoadConfig(file)[key][SupportedKsu]
              case JArray(items) => r == Branches([JString("main")] + items)
              case _ => r == TypeError
  {
    var data := LoadConfig(file);
    if key !in data then Silent
    else
      match Get(data[key], SupportedKsu, JArray([]))
      case JArray(supported) => Branches([JString("main")] + supported)
      case _ => TypeError
  }

  /** The JSON texts of a list of strings determine the list. */
  lemma StringsInjective(a: seq<string>, b: seq<string>)
    requires Strings(a) == Strings(b)
    ensures a == b
  {
    assert |a| == |Strings(a)|;
    forall i | 0 <= i < |a|
      ensures a[i] == b[i]
    {
      assert Strings(a)[i] == JString(a[i]);
      assert Strings(b)[i] == JString(b[i]);
    }
  }

  /** `main` followed by a written list is the written list behind `main`. */
  lemma PrependMain(sup: seq<string>)
    ensures [JString("main")] + Strings(sup) == Strings(["main"] + sup)
  {
  }

  /** The Rust matrix is `main` then the stored list verbatim exactly when the
      list does not use the legacy name. */
  lemma MatrixBranchesVerbatim(sup: seq<string>)
    ensures LegacyName !in sup <==> MatrixBranches(sup) == ["main"] + sup
  {
    var rust := MatrixBranches(sup);
    if LegacyName !in sup {
      forall i | 1 <= i < |rust|
        ensures rust[i] == (["main"] + sup)[i]
      {
        assert sup[i - 1] != LegacyName;
      }
    } else {
      var i :| 0 <= i < |sup| && sup[i] == LegacyName;
      assert (["main"] + sup)[i + 1] == LegacyName;
      assert rust[i + 1] != LegacyName;
    }
  }

  /** On a project record, the Python generator fails exactly when the stored
      list is null (the Rust tool reads null as no list), and otherwise agrees
      with the Rust one exactly when the list does not use the legacy name. */
  lemma MatrixGeneratorsAgree(file: JsonFile, key: string)
    requires key in file && Decode(file[key]).Project?
    ensures HandleMatrix(Decoded(file), key).Success?
    ensures PyReleaseMatrix(Some(file), key).TypeError? <==> Get(file[key], SupportedKsu, JArray([])) == JNull
    ensures var sup := Decode(file[key]).config.supportedKsu.GetOr([]);
            (Get(file[key], SupportedKsu, JArray([])) != JNull && LegacyName !in sup
             <==> PyReleaseMatrix(Some(file), key) == Branches(Strings(HandleMatrix(Decoded(file), key).value)))
  {
    var o := file[key];
    assert Decoded(file)[key] == Decode(o);
    DecodeSupported(o);
    var sup := Decode(o).config.supportedKsu.GetOr([]);
    var rust := HandleMatrix(Decoded(file), key).value;
    assert rust == MatrixBranches(sup);
    var py := PyReleaseMatrix(Some(file), key);
    if Get(o, SupportedKsu, JArray([])) != JNull {
      assert py == Branches([JString("main")] + Strings(sup));
      PrependMain(sup);
      MatrixBranchesVerbatim(sup);
      if py == Branches(Strings(rust)) {
        StringsInjective(["main"] + sup, rust);
      }
    }
  }
}
