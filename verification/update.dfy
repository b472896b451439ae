/**
  Applying one upstream update to a device repository (`update`): a shallow
  clone of the variant branch, the version file, the variant's kernel setup
  script when the variant is in the table, and a commit and push only when the
  tree changed. The scratch clone is removed at the end.
 */
module Update {
  import opened Wrappers
  import opened Text
  import opened Config
  import opened Variants
  import opened Commands
  import Setup
  import Watch

  /** The scratch directory of the clone, relative to the tool's directory. */
  const ScratchDir: string := "temp_kernel"

  function InScratch(name: string): string {
    PathJoin(ScratchDir, name)
  }

  /** The commit message of an update. */
  function UpdateMessage(variant: string, commitId: string): string {
    "ci: update " + variant + " to " + commitId
  }

  /** Fetch the variant's setup script, run it with the variant's arguments
      inside the clone, and delete it; nothing for a variant outside the table. */
  function SetupScript(variant: string): (r: seq<Command>)
    ensures variant !in VariantTable <==> r == []
    ensures variant in VariantTable ==>
              && |r| == 3
              && r[0] == Download(VariantTable[variant].setupUrl, InScratch("setup.sh"))
              && r[1] == Run(["bash", "setup.sh"] + VariantTable[variant].setupArgs, Some(ScratchDir))
              && r[2] == RemoveFile(InScratch("setup.sh"))
    ensures Quiet(r)
  {
    if variant in VariantTable then
      var item := VariantTable[variant];
      [ Download(item.setupUrl, InScratch("setup.sh")),
        Run(["bash", "setup.sh"] + item.setupArgs, Some(ScratchDir)),
        RemoveFile(InScratch("setup.sh")) ]
    else []
  }

  /** The fresh shallow clone of branch `variant`, the version file and the
      shared ignore file when it exists. */
  function Fetch(url: string, variant: string, commitId: string, root: string,
                 present: string -> bool): (r: seq<Command>)
    ensures Git(ShallowClone(variant, url, ScratchDir), None) in r
    ensures WriteFile(InScratch("KERNELSU_VERSION.txt"), commitId) in r
    ensures forall c | c in r :: !c.Download? && (c.Git? ==> c == Git(ShallowClone(variant, url, ScratchDir), None))
  {
    var ignore := Setup.UniversalIgnore(root);
    (if present(ScratchDir) then [RemoveTree(ScratchDir)] else [])
      + [ Git(ShallowClone(variant, url, ScratchDir), None),
          WriteFile(InScratch("KERNELSU_VERSION.txt"), commitId) ]
      + (if present(ignore) then [CopyFile(ignore, InScratch(".gitignore"))] else [])
  }

  /** The bot identity inside the clone, staging and the status query. */
  const Stage: seq<Command> := [
    GitIn(SetConfig(false, "user.name", "Kokuban-Bot"), ScratchDir),
    GitIn(SetConfig(false, "user.email", "bot@kokuban.dev"), ScratchDir),
    GitIn(AddAll, ScratchDir),
    GitIn(Status, ScratchDir) ]

  /** Everything up to the status query. */
  function Prepare(url: string, variant: string, commitId: string, root: string,
                   present: string -> bool): (r: seq<Command>)
    ensures Git(ShallowClone(variant, url, ScratchDir), None) in r
    ensures WriteFile(InScratch("KERNELSU_VERSION.txt"), commitId) in r
    ensures Quiet(r)
    ensures variant !in VariantTable ==> forall c | c in r :: !c.Download?
  {
    var fetch, script := Fetch(url, variant, commitId, root, present), SetupScript(variant);
    PrepareSteps(fetch, script, Git(ShallowClone(variant, url, ScratchDir), None),
                 WriteFile(InScratch("KERNELSU_VERSION.txt"), commitId));
    fetch + script + Stage
  }

  /** The fetch steps, the setup script and the staging together: what the
      fetch holds stays in the plan, nothing commits or pushes, and downloads
      come from the script alone. */
  lemma PrepareSteps(fetch: seq<Command>, script: seq<Command>, clone: Command, version: Command)
    requires clone in fetch && version in fetch && Quiet(script)
    requires forall c | c in fetch :: !c.Download? && (c.Git? ==> c == clone)
    requires clone.Git? && clone.op.ShallowClone?
    ensures clone in fetch + script + Stage && version in fetch + script + Stage
    ensures Quiet(fetch + script + Stage)
    ensures script == [] ==> forall c | c in fetch + script + Stage :: !c.Download?
  {
    assert Quiet(Stage);
  }

  /** Commit and push only when the status reports changes. */
  function Publish(variant: string, commitId: string, porcelain: string): (r: seq<Command>)
    ensures Setup.Dirty(porcelain) <==> r != []
    ensures Setup.Dirty(porcelain) ==>
              r == [GitIn(Commit(UpdateMessage(variant, commitId)), ScratchDir), GitIn(PushCurrent, ScratchDir)]
  {
    if Setup.Dirty(porcelain)
    then [GitIn(Commit(UpdateMessage(variant, commitId)), ScratchDir), GitIn(PushCurrent, ScratchDir)]
    else []
  }

  /** `update` for project `key`, upstream `variant` and short commit id
      `commitId`. The branch and the setup script follow the variant name with
      the legacy name replaced; `porcelain` is what the status query prints. */
  function HandleUpdate(reg: Registry, token: string, key: string, variant: string, commitId: string,
                        root: string, present: string -> bool, porcelain: string): (r: Result<seq<Command>, Error>)
    ensures r.Success? <==> key in reg && reg[key].Project?
    ensures key !in reg ==> r == Failure(ProjectNotFound(key))
    ensures r.Success? ==> |r.value| > 0 && r.value[|r.value| - 1] == RemoveTree(ScratchDir)
  {
    var p :- Lookup(reg, key);
    var nv := NormalizeLegacy(variant);
    Success(Prepare(Setup.AuthUrl(Some(token), p.repo), nv, commitId, root, present)
            + Publish(nv, commitId, porcelain)
            + [RemoveTree(ScratchDir)])
  }

  /** What a successful update does: it clones the normalised branch with the
      token in the URL, records the commit id, runs the setup script exactly
      when the normalised variant is in the table, and commits and pushes
      exactly when the tree changed, under a message naming the normalised
      variant. */
  lemma UpdateEffects(reg: Registry, token: string, key: string, variant: string, commitId: string,
                      root: string, present: string -> bool, porcelain: string)
    requires key in reg && reg[key].Project?
    ensures var plan := HandleUpdate(reg, token, key, variant, commitId, root, present, porcelain).value;
            var nv := NormalizeLegacy(variant);
            && Git(ShallowClone(nv, Setup.AuthUrl(Some(token), reg[key].config.repo), ScratchDir), None) in plan
            && WriteFile(InScratch("KERNELSU_VERSION.txt"), commitId) in plan
            && (nv in VariantTable ==> Run(["bash", "setup.sh"] + VariantTable[nv].setupArgs, Some(ScratchDir)) in plan)
            && (nv !in VariantTable ==> forall c | c in plan :: !c.Download?)
            && (GitIn(PushCurrent, ScratchDir) in plan <==> Setup.Dirty(porcelain))
            && (GitIn(Commit(UpdateMessage(nv, commitId)), ScratchDir) in plan <==> Setup.Dirty(porcelain))
  {
    var nv := NormalizeLegacy(variant);
    var url := Setup.AuthUrl(Some(token), reg[key].config.repo);
    var pre := Prepare(url, nv, commitId, root, present);
    var pub := Publish(nv, commitId, porcelain);
    var plan := HandleUpdate(reg, token, key, variant, commitId, root, present, porcelain).value;
    assert plan == pre + pub + [RemoveTree(ScratchDir)];
    assert GitIn(PushCurrent, ScratchDir) !in pre;
    assert GitIn(Commit(UpdateMessage(nv, commitId)), ScratchDir) !in pre;
  }

  /** A successful update of a table variant downloads the setup script, runs
      it and deletes it, in that order, before `git add .` stages the clone,
      so the script is never committed. */
  lemma UpdateDeletesSetupScript(reg: Registry, token: string, key: string, variant: string, commitId: string,
                                 root: string, present: string -> bool, porcelain: string)
    requires key in reg && reg[key].Project? && NormalizeLegacy(variant) in VariantTable
    ensures var r := HandleUpdate(reg, token, key, variant, commitId, root, present, porcelain);
            && r.Success?
            && ScriptGoneBeforeStaging(r.value, VariantTable[NormalizeLegacy(variant)])
  {
    var nv := NormalizeLegacy(variant);
    var url := Setup.AuthUrl(Some(token), reg[key].config.repo);
    var f := Fetch(url, nv, commitId, root, present);
    var tail := Publish(nv, commitId, porcelain) + [RemoveTree(ScratchDir)];
    var plan := HandleUpdate(reg, token, key, variant, commitId, root, present, porcelain).value;
    assert plan == Prepare(url, nv, commitId, root, present) + tail;
    assert Prepare(url, nv, commitId, root, present) == f + SetupScript(nv) + Stage;
    ScriptThenStage(f, nv, tail);
  }

  /** The setup script is downloaded, run, and deleted, in that order, and
      the deletion comes before `git add .` stages the clone. */
  predicate ScriptGoneBeforeStaging(plan: seq<Command>, item: VariantItem) {
    exists i, j, k, l | 0 <= i < j < k < l < |plan| ::
      && plan[i] == Download(item.setupUrl, InScratch("setup.sh"))
      && plan[j] == Run(["bash", "setup.sh"] + item.setupArgs, Some(ScratchDir))
      && plan[k] == RemoveFile(InScratch("setup.sh"))
      && plan[l] == GitIn(AddAll, ScratchDir)
  }

  /** The setup steps followed by the staging keep their order in a plan. */
  lemma ScriptThenStage(f: seq<Command>, v: string, tail: seq<Command>)
    requires v in VariantTable
    ensures ScriptGoneBeforeStaging(f + SetupScript(v) + Stage + tail, VariantTable[v])
  {
    var plan := f + SetupScript(v) + Stage + tail;
    var n := |f|;
    assert plan[n] == SetupScript(v)[0] && plan[n + 1] == SetupScript(v)[1];
    assert plan[n + 2] == SetupScript(v)[2] && plan[n + 5] == Stage[2];
  }

  /** An update of a variant that is (after renaming) in the table runs
      that variant's setup script in the clone. */
  lemma UpdateRunsSetup(reg: Registry, token: string, key: string, variant: string, commitId: string,
                        root: string, present: string -> bool, porcelain: string)
    requires key in reg && reg[key].Project? && NormalizeLegacy(variant) in VariantTable
    ensures var r := HandleUpdate(reg, token, key, variant, commitId, root, present, porcelain);
            && r.Success?
            && Run(["bash", "setup.sh"] + VariantTable[NormalizeLegacy(variant)].setupArgs, Some(ScratchDir)) in r.value
  {
    var nv := NormalizeLegacy(variant);
    var pre := Prepare(Setup.AuthUrl(Some(token), reg[key].config.repo), nv, commitId, root, present);
    var plan := HandleUpdate(reg, token, key, variant, commitId, root, present, porcelain).value;
    assert plan == pre + Publish(nv, commitId, porcelain) + [RemoveTree(ScratchDir)];
    assert Run(["bash", "setup.sh"] + VariantTable[nv].setupArgs, Some(ScratchDir)) in SetupScript(nv);
  }

  /** A legacy-named update lands on `resukisu` and runs its setup script. */
  lemma LegacyUpdateUsesCurrent(reg: Registry, token: string, key: string, commitId: string,
                                root: string, present: string -> bool, porcelain: string)
    requires key in reg && reg[key].Project?
    ensures var plan := HandleUpdate(reg, token, key, LegacyName, commitId, root, present, porcelain).value;
            && Git(ShallowClone(CurrentName, Setup.AuthUrl(Some(token), reg[key].config.repo), ScratchDir), None) in plan
            && Run(["bash", "setup.sh", "builtin"], Some(ScratchDir)) in plan
  {
    NormalizeOnVocabulary(LegacyName);
    UpdateEffects(reg, token, key, LegacyName, commitId, root, present, porcelain);
    assert ["bash", "setup.sh"] + VariantTable[CurrentName].setupArgs == ["bash", "setup.sh", "builtin"];
  }

  /** Every work item the watcher reports can be applied: its project reads
      as a record, its variant is its own normalised name, and applying it
      runs that variant's setup script. */
  lemma WatchItemsApply(track: map<string, string>, reg: Registry, porder: seq<string>, vorder: seq<string>,
                        ls: Watch.LsRemote, it: Watch.WorkItem, token: string, root: string,
                        present: string -> bool, porcelain: string)
    requires IsListingOf(vorder, VariantTable) && IsListingOf(porder, reg)
    requires Watch.Watch(track, reg, porder, vorder, ls).Success?
    requires it in Watch.Watch(track, reg, porder, vorder, ls).value.items
    ensures it.variant in VariantTable && NormalizeLegacy(it.variant) == it.variant
    ensures var r := HandleUpdate(reg, token, it.project, it.variant, it.commitId, root, present, porcelain);
            && r.Success?
            && Run(["bash", "setup.sh"] + VariantTable[it.variant].setupArgs, Some(ScratchDir)) in r.value
  {
    Watch.WatchItemEligible(track, reg, porder, vorder, ls, it);
    EligibleItemApplies(reg, it, token, root, present, porcelain);
  }

  /** An item whose project takes its variant can be applied. */
  lemma EligibleItemApplies(reg: Registry, it: Watch.WorkItem, token: string, root: string,
                            present: string -> bool, porcelain: string)
    requires it.variant in VariantTable && Watch.Eligible(reg, it.project, it.variant)
    ensures NormalizeLegacy(it.variant) == it.variant
    ensures var r := HandleUpdate(reg, token, it.project, it.variant, it.commitId, root, present, porcelain);
            && r.Success?
            && Run(["bash", "setup.sh"] + VariantTable[it.variant].setupArgs, Some(ScratchDir)) in r.value
  {
    TableVariantNormal(it.variant);
    UpdateRunsSetup(reg, token, it.project, it.variant, it.commitId, root, present, porcelain);
  }

  /** The names of the variant table are left alone by the rename. */
  lemma TableVariantNormal(v: string)
    requires v in VariantTable
    ensures NormalizeLegacy(v) == v
  {
    assert v in Vocabulary && v != LegacyName;
    NormalizeOnVocabulary(v);
  }
}
