/**
  The two texts `setup` renders into every device repository: the README,
  from its template with the device names, repository path and version base
  filled in, and the build-trigger workflow, with the project key and the
  repository owner filled in.
 */
module Templates {
  import opened Wrappers
  import opened Text
  import opened Config

  /** The owner part of an `owner/name` repository path: everything before the
      first slash (the whole path when there is none). */
  function RepoOwner(repo: string): (owner: string)
    ensures '/' !in owner
    ensures StartsWith(repo, owner)
    ensures |owner| < |repo| ==> repo[|owner|] == '/'
  {
    FirstPieceOfSplit(repo, '/');
    Split(repo, '/')[0]
  }

  /** The first piece of a split is a prefix, followed by the separator
      unless it is the whole string. */
  lemma FirstPieceOfSplit(s: string, sep: char)
    ensures StartsWith(s, Split(s, sep)[0])
    ensures |Split(s, sep)[0]| < |s| ==> s[|Split(s, sep)[0]|] == sep
  {
    var parts := Split(s, sep);
    SplitJoin(s, sep);
    JoinWithEnds(parts, sep);
    if |parts| > 1 {
      assert s == parts[0] + [sep] + JoinWith(parts[1..], sep);
    }
  }

  lemma RepoOwnerOf(owner: string, name: string)
    requires '/' !in owner
    ensures RepoOwner(owner + "/" + name) == owner
  {
    SplitFirstPiece(owner, '/', "/" + name);
    assert owner + "/" + name == owner + ("/" + name);
  }

  /** The trigger workflow of project `key`: the template with the project key
      and the repository owner filled in. */
  function TriggerContent(template: string, key: string, repo: string): (r: string)
    ensures !Contains(template, "__PROJECT_KEY__") && !Contains(template, "__REPO_OWNER__") ==> r == template
  {
    Replace(Replace(template, "__PROJECT_KEY__", key), "__REPO_OWNER__", RepoOwner(repo))
  }

  /** Each trigger placeholder, between text without underscores, becomes
      the project key or the repository owner. */
  lemma TriggerPlacement(a: string, b: string, key: string, repo: string)
    requires '_' !in a && '_' !in b
    ensures !Contains(key, "__REPO_OWNER__")
            ==> TriggerContent(a + "__PROJECT_KEY__" + b, key, repo) == a + key + b
    ensures TriggerContent(a + "__REPO_OWNER__" + b, key, repo) == a + RepoOwner(repo) + b
  {
    var pk, ro := "__PROJECT_KEY__", "__REPO_OWNER__";
    ReplaceFramed(a, pk, b, pk, key, '_');
    ReplaceFramed(a, key, b, ro, RepoOwner(repo), '_');
    ReplaceWhole(pk, key);
    ReplaceFramed(a, ro, b, pk, key, '_');
    MissingCharNotContains(ro, pk, 'K');
    ReplaceFramed(a, ro, b, ro, RepoOwner(repo), '_');
    ReplaceWhole(ro, RepoOwner(repo));
  }

  /** The device names of the README, with their defaults. */
  function DeviceNameCn(p: ProjectConfig): string {
    var ph := p.readmePlaceholders.GetOr(map[]);
    if "DEVICE_NAME_CN" in ph then ph["DEVICE_NAME_CN"] else UnknownDeviceCn
  }

  function DeviceNameEn(p: ProjectConfig): string {
    var ph := p.readmePlaceholders.GetOr(map[]);
    if "DEVICE_NAME_EN" in ph then ph["DEVICE_NAME_EN"] else UnknownDeviceEn
  }

  /** The four placeholder substitutions of the README, in order. */
  function FillReadme(template: string, p: ProjectConfig, repo: string): string {
    var named := Replace(Replace(template, "__DEVICE_NAME_CN__", DeviceNameCn(p)), "__DEVICE_NAME_EN__", DeviceNameEn(p));
    Replace(Replace(named, "__PROJECT_REPO__", repo), "__LOCALVERSION_BASE__", p.localversionBase)
  }

  /** The README of a project: the placeholders filled in and the result
      trimmed. The language-section step leaves the text as it is. */
  function ProcessReadme(template: string, p: ProjectConfig, repo: string): string {
    Trim(FillReadme(template, p, repo))
  }

  /** Text without underscores is kept as it is, in its place around the
      text being filled in. */
  lemma FillAround(a: string, m: string, b: string, p: ProjectConfig, repo: string)
    requires '_' !in a && '_' !in b
    ensures FillReadme(a + m + b, p, repo) == a + FillReadme(m, p, repo) + b
  {
    var m1 := Replace(m, "__DEVICE_NAME_CN__", DeviceNameCn(p));
    var m2 := Replace(m1, "__DEVICE_NAME_EN__", DeviceNameEn(p));
    var m3 := Replace(m2, "__PROJECT_REPO__", repo);
    ReplaceFramed(a, m, b, "__DEVICE_NAME_CN__", DeviceNameCn(p), '_');
    ReplaceFramed(a, m1, b, "__DEVICE_NAME_EN__", DeviceNameEn(p), '_');
    ReplaceFramed(a, m2, b, "__PROJECT_REPO__", repo, '_');
    ReplaceFramed(a, m3, b, "__LOCALVERSION_BASE__", p.localversionBase, '_');
  }

  /** Each placeholder, between text without underscores, becomes its value:
      the device names (or their defaults), the repository path and the
      version base. A value is taken as it is unless it holds a placeholder
      that a later step fills. */
  lemma ReadmePlacement(a: string, b: string, p: ProjectConfig, repo: string)
    requires '_' !in a && '_' !in b
    ensures !Contains(DeviceNameCn(p), "__DEVICE_NAME_EN__") && !Contains(DeviceNameCn(p), "__PROJECT_REPO__")
            && !Contains(DeviceNameCn(p), "__LOCALVERSION_BASE__")
            ==> ProcessReadme(a + "__DEVICE_NAME_CN__" + b, p, repo) == Trim(a + DeviceNameCn(p) + b)
    ensures !Contains(DeviceNameEn(p), "__PROJECT_REPO__") && !Contains(DeviceNameEn(p), "__LOCALVERSION_BASE__")
            ==> ProcessReadme(a + "__DEVICE_NAME_EN__" + b, p, repo) == Trim(a + DeviceNameEn(p) + b)
    ensures !Contains(repo, "__LOCALVERSION_BASE__")
            ==> ProcessReadme(a + "__PROJECT_REPO__" + b, p, repo) == Trim(a + repo + b)
    ensures ProcessReadme(a + "__LOCALVERSION_BASE__" + b, p, repo) == Trim(a + p.localversionBase + b)
  {
    FillAround(a, "__DEVICE_NAME_CN__", b, p, repo);
    FillAround(a, "__DEVICE_NAME_EN__", b, p, repo);
    FillAround(a, "__PROJECT_REPO__", b, p, repo);
    FillAround(a, "__LOCALVERSION_BASE__", b, p, repo);
    if !Contains(DeviceNameCn(p), "__DEVICE_NAME_EN__") && !Contains(DeviceNameCn(p), "__PROJECT_REPO__")
       && !Contains(DeviceNameCn(p), "__LOCALVERSION_BASE__") {
      FilledCn(p, repo);
    }
    if !Contains(DeviceNameEn(p), "__PROJECT_REPO__") && !Contains(DeviceNameEn(p), "__LOCALVERSION_BASE__") {
      FilledEn(p, repo);
    }
    if !Contains(repo, "__LOCALVERSION_BASE__") {
      FilledRepo(p, repo);
    }
    FilledBase(p, repo);
  }

  /** What each placeholder on its own is filled with. */
  lemma FilledCn(p: ProjectConfig, repo: string)
    requires !Contains(DeviceNameCn(p), "__DEVICE_NAME_EN__") && !Contains(DeviceNameCn(p), "__PROJECT_REPO__")
    requires !Contains(DeviceNameCn(p), "__LOCALVERSION_BASE__")
    ensures FillReadme("__DEVICE_NAME_CN__", p, repo) == DeviceNameCn(p)
  {
    ReplaceWhole("__DEVICE_NAME_CN__", DeviceNameCn(p));
  }

  lemma FilledEn(p: ProjectConfig, repo: string)
    requires !Contains(DeviceNameEn(p), "__PROJECT_REPO__") && !Contains(DeviceNameEn(p), "__LOCALVERSION_BASE__")
    ensures FillReadme("__DEVICE_NAME_EN__", p, repo) == DeviceNameEn(p)
  {
    DevicePlaceholdersDistinct();
    ReplaceWhole("__DEVICE_NAME_EN__", DeviceNameEn(p));
  }

  lemma FilledRepo(p: ProjectConfig, repo: string)
    requires !Contains(repo, "__LOCALVERSION_BASE__")
    ensures FillReadme("__PROJECT_REPO__", p, repo) == repo
  {
    var pr := "__PROJECT_REPO__";
    MissingCharNotContains(pr, "__DEVICE_NAME_CN__", 'D');
    MissingCharNotContains(pr, "__DEVICE_NAME_EN__", 'D');
    ReplaceWhole(pr, repo);
  }

  lemma FilledBase(p: ProjectConfig, repo: string)
    ensures FillReadme("__LOCALVERSION_BASE__", p, repo) == p.localversionBase
  {
    BaseSlotHoldsNo("__DEVICE_NAME_CN__");
    BaseSlotHoldsNo("__DEVICE_NAME_EN__");
    BaseSlotHoldsNo("__PROJECT_REPO__");
    ReplaceWhole("__LOCALVERSION_BASE__", p.localversionBase);
  }

  /** The version-base placeholder holds none of the other three. */
  lemma BaseSlotHoldsNo(other: string)
    requires other in {"__DEVICE_NAME_CN__", "__DEVICE_NAME_EN__", "__PROJECT_REPO__"}
    ensures !Contains("__LOCALVERSION_BASE__", other)
  {
    if other == "__PROJECT_REPO__" {
      MissingCharNotContains("__LOCALVERSION_BASE__", other, 'P');
    } else {
      MissingCharNotContains("__LOCALVERSION_BASE__", other, 'D');
    }
  }

  /** The rendered README never starts or ends with whitespace. */
  lemma ReadmeTrimmed(template: string, p: ProjectConfig, repo: string)
    ensures IsTrimmed(ProcessReadme(template, p, repo))
  {
  }

  /** A string shorter than the pattern does not contain it. */
  lemma {:induction false} ShorterNotContains(s: string, pat: string)
    requires |s| < |pat|
    ensures !Contains(s, pat)
    decreases |s|
  {
    if |s| > 0 {
      ShorterNotContains(s[1..], pat);
    }
  }

  /** A template without placeholders is only trimmed. */
  lemma ReadmeWithoutPlaceholders(template: string, p: ProjectConfig, repo: string)
    requires !Contains(template, "__DEVICE_NAME_CN__") && !Contains(template, "__DEVICE_NAME_EN__")
    requires !Contains(template, "__PROJECT_REPO__") && !Contains(template, "__LOCALVERSION_BASE__")
    ensures ProcessReadme(template, p, repo) == Trim(template)
  {
  }

  /** The two device-name placeholders differ in their fifteenth character,
      so neither occurs in the other. */
  lemma DevicePlaceholdersDistinct()
    ensures !Contains("__DEVICE_NAME_EN__", "__DEVICE_NAME_CN__")
  {
    var t := "__DEVICE_NAME_EN__";
    var cn := "__DEVICE_NAME_CN__";
    assert t[14] != cn[14];
    assert !StartsWith(t, cn);
    ShorterNotContains(t[1..], cn);
  }

  /** Text shorter than the repository and version placeholders, already
      trimmed, passes the last two steps unchanged. */
  lemma ReadmeTailKeeps(b: string, p: ProjectConfig, repo: string)
    requires |b| < 16 && IsTrimmed(b)
    ensures Trim(Replace(Replace(b, "__PROJECT_REPO__", repo), "__LOCALVERSION_BASE__", p.localversionBase)) == b
  {
    ShorterNotContains(b, "__PROJECT_REPO__");
    ShorterNotContains(b, "__LOCALVERSION_BASE__");
  }

  /** A project without README placeholders gets the English default device
      name. */
  lemma ReadmeDefaultDeviceName(p: ProjectConfig, repo: string)
    requires p.readmePlaceholders.None?
    ensures ProcessReadme("__DEVICE_NAME_EN__", p, repo) == "Unknown Device"
  {
    var t := "__DEVICE_NAME_EN__";
    var a := Replace(t, "__DEVICE_NAME_CN__", DeviceNameCn(p));
    assert a == t by {
      DevicePlaceholdersDistinct();
    }
    var b := Replace(a, t, DeviceNameEn(p));
    assert b == "Unknown Device" by {
      ReplaceWhole(t, "Unknown Device");
    }
    assert IsTrimmed(b);
    ReadmeTailKeeps(b, p, repo);
  }

  /** The repository placeholder becomes the repository path. */
  lemma ReadmeRepoSlot(p: ProjectConfig, repo: string)
    requires !Contains(repo, "__LOCALVERSION_BASE__")
    ensures ProcessReadme("__PROJECT_REPO__", p, repo) == Trim(repo)
  {
    ShorterNotContains("__PROJECT_REPO__", "__DEVICE_NAME_CN__");
    ShorterNotContains("__PROJECT_REPO__", "__DEVICE_NAME_EN__");
    ReplaceWhole("__PROJECT_REPO__", repo);
  }
}
