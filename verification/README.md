# Kokuban Kernel CI Center: a Dafny model of the CI core

Kokuban Kernel CI Center drives Android kernel builds for a set of device
repositories. It has two tools: a Rust tool (`ci_core_rs`) and an older
Python script (`scripts/ci_core.py`). Both read a project registry
(`configs/projects.json`) and turn each request into shell commands: git,
`make`, `gh`, `zip`, `curl`. The Rust tool also tracks three root-framework
variants, `ksu`, `mksu` and `resukisu`, and brings them into the device
repositories. `resukisu` was formerly called `sukisuultra`.

This project models the decision logic of that core as pure functions.
The machine is passed in as an oracle. The oracle says which paths exist,
what `git branch -r`, `git status --porcelain`, `git ls-remote`,
`git rev-parse` and `nproc` print, and what the clock reads. An invocation
yields the list of commands it issues when every command succeeds (a *plan*,
`seq<Command>`), or an `Error`. Hash maps and dicts are given an explicit
iteration order (`order: seq<string>`, constrained by `IsListingOf`), so
every statement holds for any order.

Modules, one file each:

- `wrappers`: `Option` and `Result`.
- `text`: the standard-library string operations the core relies on. These
  are `trim`, `split_whitespace`, `split`, `lines`, `replace`,
  `trim_start_matches`, `chars().take`, `to_uppercase` and `Path::join`.
- `json`: JSON values, and the two ways the tools read them: Python's
  `dict.get`, truthiness and `str()`, and serde's typed reading.
- `config`: the registry file, `ProjectConfig`, how serde reads a record
  and writes one, registry lookup, Python `load_config` and the
  `KSU_CONFIG_JSON` variant table.
- `variants`: the branch-to-suffix table, plus the two forms of the legacy
  rename. The exact-match form is used by `matrix`; the substring form is
  used by `watch` and `update`.
- `commands`: the command vocabulary of a plan.
- `meta`: `meta`, `matrix` and Python `generate_release_matrix`.
- `registry`: `add` in both tools, and Python `get_project_env`.
- `watch`: the upstream watcher.
- `update`: applying one upstream update to a device repository.
- `templates`: the trigger workflow and README templates of `setup`.
- `setup`: the repository sync, covering branch migration, the file steps,
  and commit and push. Also Python `setup_repos`.
- `build`: planning a kernel build, from the toolchain through the installer,
  the two `make` runs, the configuration edits and the local version, to
  packaging and release.

The registry file (`Config.JsonFile`) maps each project key to a JSON
object (`Config.Record`). The two tools read the same object differently:

- The Rust tool reads a value with serde (`Config.Decode`). `repo`,
  `defconfig` and `localversion_base` must be present strings. Every other
  field is an `Option`: a missing member and an explicit null both read as
  None, and any other value must have the field's type. Members the struct
  does not name, such as `push_server`, are ignored. A value that does not
  read is `Malformed`; the `_globals` record is one.
- The Rust tool writes a record with every field present and None as null
  (`Config.Encode`). Reading it back gives the record (`Config.DecodeEncode`).
- The Python script reads the raw object with `dict.get`. A default
  replaces only a missing member. An explicit null is returned as `None` and
  printed as `None`. Python reads any object field by field, whether or not
  the Rust tool would accept it as a project.

Behaviour of the code that the model keeps, although a reader might expect
otherwise:

- **Watcher failures.** `watch` stops the whole run with an error when one
  variant's `git ls-remote` fails (`?` at main.rs:516-520). The tracking
  file is then not written, and no variant is skipped. `Watch.Watch`
  states this.
- **Date format.** The date in release names is the clock formatted as
  `%Y%m%d-%H%M`. It is passed in as a string.
- **Scratch-clone cleanup.** `update` removes its scratch clone `temp_kernel`
  only at the end of a successful run. A failing command propagates before
  the removal.
- **Idempotence of the rename.** The substring rename of `watch` and
  `update` is not idempotent in general (`Variants.NormalizeNotIdempotent`).
  It is idempotent on the known branch names
  (`Variants.NormalizeOnVocabulary`).
- **Workflow directory.** `setup` does not reset the workflow directory. It
  creates it when missing and writes the trigger workflow into it.

## Model

| member | source | states |
|---|---|---|
| Json.PyStr | scripts/ci_core.py:49-53 | Python prints a scalar as `None`, `True`/`False` or the text itself; only null, booleans and strings print this way |
| Json.JsonDumps | scripts/ci_core.py:41-45 | `json.dumps` writes null, booleans, a string without characters to escape between quotes, and a list of such strings as `["a", "b"]`; a string that needs escapes is not rendered |
| Json.ListTextInjective | scripts/ci_core.py:41-45 | the `json.dumps` text of a list of such strings determines the list |
| Json.AsStrings | ci_core_rs/src/config.rs:10 | an array reads as a list of strings exactly when every element is a string, and then holds the array's texts in order |
| Json.AsStringsOfStrings | ci_core_rs/src/config.rs:10 | a written list of strings reads back as the same list |
| Json.AsStringMap | ci_core_rs/src/config.rs:20 | an object reads as a string map exactly when every member is a string, and then holds the same members |
| Json.AsStringMapOfStringMap | ci_core_rs/src/config.rs:20 | a written string map reads back as the same map |
| Config.UnsetMember | ci_core_rs/src/config.rs:5-21 | only `repo`, `defconfig` and `localversion_base` are indispensable: removing or nulling one of them makes a readable value Malformed, removing or nulling any other member keeps it readable, removal reads the same as null, and a member outside the fifteen fields is ignored |
| Config.DecodeOf | ci_core_rs/src/config.rs:4-21 | a value whose every member reads as the matching field of a record reads as that record |
| Config.EncodeKeys | ci_core_rs/src/main.rs:280 | a written record has exactly the fifteen field members, unset ones included |
| Config.DecodeEncode | ci_core_rs/src/config.rs:4-21 | reading back a written record gives the record |
| Config.Lookup | ci_core_rs/src/main.rs:167-171 | a lookup succeeds exactly for a key holding a project record and returns that record; a missing key is ProjectNotFound |
| Config.LoadConfig | scripts/ci_core.py:9-13 | no registry file reads as the empty registry, otherwise the file's contents |
| Config.VariantTableShape | ci_core_rs/src/config.rs:32-51 | the table holds exactly ksu, mksu and resukisu, never the legacy name; every upstream branch is main; setup arguments are builtin for resukisu and main for the others |
| Variants.BranchSuffix | ci_core_rs/src/main.rs:176-182 | main and lkm map to LKM, ksu to KSU, mksu to MKSU, resukisu and sukisuultra to ReSuki; any other branch maps to its upper-cased name |
| Variants.TargetSuffixesDistinct | ci_core_rs/src/main.rs:176-182 | the four target branches get pairwise different suffixes, so their release tags cannot collide |
| Variants.RenameLegacy | ci_core_rs/src/main.rs:210-216 | only the exact legacy name is replaced by resukisu; every other name is kept |
| Variants.RenameLegacyIdempotent | ci_core_rs/src/main.rs:210-216 | the exact rename never yields the legacy name, and renaming twice is renaming once |
| Variants.SuffixStableUnderRename | ci_core_rs/src/main.rs:176-182 | renaming a branch never changes its release suffix |
| Variants.NormalizeLegacy | ci_core_rs/src/main.rs:587 | a name that does not contain the legacy name is kept unchanged |
| Variants.NormalizeOccurrence | ci_core_rs/src/main.rs:587 | the first occurrence of sukisuultra becomes resukisu, the text before it is kept, and the text after it is renamed in turn |
| Variants.NormalizeIdempotentWhenClean | ci_core_rs/src/main.rs:587 | the substring rename is idempotent whenever its result no longer contains the legacy name |
| Variants.NormalizeOnVocabulary | ci_core_rs/src/main.rs:537-540 | on the known branch names the substring rename agrees with the exact one and is idempotent |
| Variants.NormalizeNotIdempotent | ci_core_rs/src/main.rs:587 | a concrete name that the substring rename changes twice: it is not idempotent in general |
| Meta.MetaFor | ci_core_rs/src/main.rs:173-189 | the five outputs: suffix from the table, localversion base-suffix, tag prefix-suffix-date (starting with the zip prefix), zip name tag plus .zip, title naming prefix, suffix and date |
| Meta.HandleMeta | ci_core_rs/src/main.rs:166-198 | meta succeeds exactly for a key holding a project record, with that record's metadata; a missing key is ProjectNotFound |
| Meta.MetaExample | ci_core_rs/src/main.rs:184-189 | an instance of MetaFor: prefix Foo, base -base, branch ksu give tag Foo-KSU-<date>, zip Foo-KSU-<date>.zip, localversion -base-KSU, title "Foo KSU Build (<date>)" |
| Meta.UnknownBranchExample | ci_core_rs/src/main.rs:181 | an instance of BranchSuffix: an unknown branch is released under its upper-cased name |
| Meta.MetaStableUnderRename | ci_core_rs/src/main.rs:176-189 | the legacy name and its new name produce identical metadata |
| Meta.RenameAll | ci_core_rs/src/main.rs:210-216 | position by position, each entry is exactly renamed; the length is kept |
| Meta.MatrixBranches | ci_core_rs/src/main.rs:207-216 | main first, then each supported entry renamed, in stored order; the legacy name never appears |
| Meta.MatrixBranchesVerbatim | ci_core_rs/src/main.rs:207-216 | the matrix is main followed by the stored list unchanged exactly when the list does not hold the legacy name |
| Meta.HandleMatrix | ci_core_rs/src/main.rs:200-216 | matrix succeeds exactly for a project record; its branches are main plus the renamed supported list; no list gives main alone |
| Meta.PyReleaseMatrix | scripts/ci_core.py:55-63 | an unknown key (always so without a file) gives no matrix; a missing list gives main alone; an array gives main followed by its elements verbatim; any other value, null included, raises TypeError |
| Meta.MatrixGeneratorsAgree | scripts/ci_core.py:60-61 | on a record the Rust tool reads, Python fails exactly when the stored list is null, and otherwise both tools give the same branches exactly when the list does not hold the legacy name |
| Registry.RustAdd | ci_core_rs/src/main.rs:248-281 | the key set gains only the new key; every other key keeps its value; the new value reads back as the new project record |
| Registry.RustAddFields | ci_core_rs/src/main.rs:250-278 | field by field: the given repo, defconfig, local version, AnyKernel3 repo and branch and zip prefix; supported variants resukisu, mksu, ksu; a toolchain prefix exactly when a non-empty one is given; the two device names as README placeholders; every other field unset |
| Registry.RustAddWritesNulls | ci_core_rs/src/main.rs:254-280 | the unset fields are written as explicit nulls, the toolchain prefix exactly when none was given |
| Registry.PyAdd | scripts/ci_core.py:71-91 | the key set gains only the new key and other keys are untouched; the new object has the fixed members plus the prefix exactly when given, no null, the given repo, push_server disabled, and reads back as the new project record; no file is treated as empty |
| Registry.PyAddFields | scripts/ci_core.py:76-88 | field by field, as the Rust tool reads it: the same record as the Rust add, but with no README placeholders |
| Registry.PyNewObjectShape | scripts/ci_core.py:76-88 | the members written: the fixed eight, plus toolchain_path_prefix exactly when given, with the given repo, zip prefix and prefix and push_server disabled |
| Registry.PyNewObjectAbsent | scripts/ci_core.py:76-88 | lto, toolchain_urls, toolchain_path_exports, version_method, extra_host_env, disable_security and readme_placeholders are not written, nor an empty prefix |
| Registry.PyNewObjectNoNull | scripts/ci_core.py:76-88 | the object Python writes holds no null |
| Registry.DecodePyNewObject | scripts/ci_core.py:76-88 | the Rust tool reads the object Python writes as the corresponding project record |
| Registry.AddImplementationsAgree | scripts/ci_core.py:76-90 | both add implementations store the same record as the Rust tool reads it, apart from the README placeholders; in the file only the Rust one writes lto (as null) |
| Registry.AddedProjectCoversEveryVariant | ci_core_rs/src/main.rs:259-263 | a freshly added project's matrix is main, resukisu, mksu, ksu, and it supports every tracked variant |
| Registry.EnvLines | scripts/ci_core.py:28-45 | line i exports field i of the fixed table, which gives each line's name, member, default and conversion as written at lines 29-42; the toolchain URLs follow as a thirteenth line exactly when the member is present, even as null |
| Registry.PyProjectEnv | scripts/ci_core.py:20-45 | a key absent from the loaded registry (always so without a file) exits with status 1; a present key exports the lines of its own object, whether or not it is a project record |
| Registry.EnvDefaults | scripts/ci_core.py:28-45 | defaults apply to missing members only: empty LTO and prefix, zip name Kernel, version method param, extra host env false, [] for both lists, no URL line |
| Registry.EnvNulls | scripts/ci_core.py:28-45 | an explicit null is not defaulted: it prints None for the text fields, none for the extra host env, and null for the lists and the URL line |
| Registry.EnvAgreesWithRecord | scripts/ci_core.py:28-38 | on a project record, the repo, defconfig and base lines print the record's values, and the LTO, prefix, zip name, version method and host env lines print what the Rust tool uses, unless the member is null |
| Registry.EnvShowsLists | scripts/ci_core.py:41-45 | on a project record, the toolchain directories, the disabled options and the toolchain URLs (on a thirteenth line) are exported as `json.dumps` of the record's lists |
| Registry.RustAddedEnv | scripts/ci_core.py:28-45 | a project added by the Rust tool exports 13 lines, with None for LTO and version method, none for the host env, and null for both lists and the URL line |
| Registry.PyAddedEnv | scripts/ci_core.py:28-45 | a project added by Python exports 12 lines: its repo, prefix and zip name, empty LTO, version method param, host env false and [] for both lists |
| Watch.ShortId | ci_core_rs/src/main.rs:546-549 | the commit id is the first seven characters of the hash (all of a shorter hash) |
| Watch.NormalizeAll | ci_core_rs/src/main.rs:537-540 | each supported entry is substring-renamed, position by position |
| Watch.EligibleKeys | ci_core_rs/src/main.rs:531-542 | a key is listed exactly when it is in the order and is a non-reserved project whose normalised list contains the variant; no key twice |
| Watch.ItemsOf | ci_core_rs/src/main.rs:543-550 | one work item per key, all for the variant at the given id |
| Watch.ExpectedItems | ci_core_rs/src/main.rs:531-552 | the work items for a changed variant are exactly one per eligible project of the order, each at the short id of the new hash, without repeats |
| Watch.ItemsFor | ci_core_rs/src/main.rs:531-552 | the project loop succeeds exactly when every non-reserved value reads as a record, and then yields the expected items |
| Watch.OfVariant | ci_core_rs/src/main.rs:542-550 | the items of one variant are exactly the listed items naming it |
| Watch.WatchLoopOutcome | ci_core_rs/src/main.rs:515-524 | the variant loop fails when some query fails, and succeeds when every query succeeds and every record reads |
| Watch.WatchLoopStep | ci_core_rs/src/main.rs:515-553 | one step records a changed head variant's hash before the rest of the loop runs and puts its items first |
| Watch.WatchLoopTrack | ci_core_rs/src/main.rs:526-529 | after the loop, a changed variant holds the fetched hash and every other key keeps its entry or its absence |
| Watch.WatchLoopItems | ci_core_rs/src/main.rs:515-553 | after the loop, a variant's items are the expected ones if it is in the loop and changed, none otherwise |
| Watch.Watch | ci_core_rs/src/main.rs:502-524 | watch fails whenever some variant's query fails, and succeeds whenever every query succeeds and every record reads |
| Watch.WatchTracking | ci_core_rs/src/main.rs:505-529 | the saved map has no legacy key; a changed variant (absent reads as "") gets its fetched hash; unchanged variants and all other keys are untouched |
| Watch.WatchItems | ci_core_rs/src/main.rs:528-552 | per variant the work list holds exactly the expected items when it changed, none when unchanged, and none for a name outside the table |
| Watch.WatchItemEligible | ci_core_rs/src/main.rs:528-552 | every work item names a tracked variant that changed, a project that takes it, and the short id of the new hash |
| Watch.WatchFoundUpdates | ci_core_rs/src/main.rs:561-569 | found_updates is true exactly when some changed variant has some eligible project |
| Update.SetupScript | ci_core_rs/src/main.rs:617-629 | a variant in the table downloads its setup script into the clone, runs it with its arguments and then deletes it, in that order; any other variant gives nothing; nothing is committed or pushed |
| Update.Fetch | ci_core_rs/src/main.rs:591-615 | a shallow clone of the variant branch and the version file holding the commit id; no other git command and no download |
| Update.Prepare | ci_core_rs/src/main.rs:591-643 | the clone and version file are issued, nothing is committed or pushed, and a variant outside the table downloads nothing |
| Update.Publish | ci_core_rs/src/main.rs:643-657 | commit and push happen exactly when the status output is non-blank, under "ci: update <variant> to <id>" |
| Update.HandleUpdate | ci_core_rs/src/main.rs:575-660 | update succeeds exactly for a project record (missing key is ProjectNotFound) and its plan ends by removing the scratch clone |
| Update.UpdateEffects | ci_core_rs/src/main.rs:587-657 | a successful update clones the renamed branch with the token URL, records the id, runs the setup script iff the renamed variant is in the table (else downloads nothing), and commits and pushes iff the tree changed |
| Update.UpdateDeletesSetupScript | ci_core_rs/src/main.rs:617-643 | for a table variant the setup script is downloaded, run and deleted, in that order, before `git add .` stages the clone |
| Update.UpdateRunsSetup | ci_core_rs/src/main.rs:617-629 | an update whose renamed variant is in the table succeeds and runs that variant's setup script in the clone |
| Update.LegacyUpdateUsesCurrent | ci_core_rs/src/main.rs:587-629 | an update for the legacy name clones the resukisu branch and runs the setup script with builtin |
| Update.EligibleItemApplies | ci_core_rs/src/main.rs:587-629 | an update for a table variant that a project takes keeps the variant's name, succeeds, and runs that variant's setup script in the clone |
| Update.WatchItemsApply | ci_core_rs/src/main.rs:542-549 | every work item watch emits is a table variant that is its own renamed name, and applying it succeeds and runs that variant's setup script |
| Templates.RepoOwner | ci_core_rs/src/main.rs:400 | the owner is the slash-free prefix of the repository path, followed by a slash unless it is the whole path |
| Templates.RepoOwnerOf | ci_core_rs/src/main.rs:400 | the owner of owner/name is owner |
| Templates.TriggerContent | ci_core_rs/src/main.rs:400-403 | a trigger template holding neither placeholder is written unchanged |
| Templates.TriggerPlacement | ci_core_rs/src/main.rs:400-403 | in a template whose surrounding text has no underscore, the key placeholder becomes the key (when the key does not itself hold the owner placeholder) and the owner placeholder becomes the owner, the surrounding text kept in place |
| Templates.FillAround | ci_core_rs/src/main.rs:479-483 | text without underscores around the filled part is kept as it is, in its place |
| Templates.ReadmePlacement | ci_core_rs/src/main.rs:466-499 | in a template whose surrounding text has no underscore, each placeholder becomes its value (Chinese or English device name, repository path, local version base) and the whole is trimmed, provided the value holds no placeholder substituted after it |
| Templates.ReadmeTrimmed | ci_core_rs/src/main.rs:493-499 | the rendered README never starts or ends with whitespace |
| Templates.ReadmeWithoutPlaceholders | ci_core_rs/src/main.rs:479-499 | a README template without placeholders is only trimmed |
| Templates.DevicePlaceholdersDistinct | ci_core_rs/src/main.rs:480-481 | the English device placeholder does not contain the Chinese one, so the first replacement cannot disturb the second |
| Templates.ReadmeDefaultDeviceName | ci_core_rs/src/main.rs:474-481 | an instance of ReadmePlacement: without placeholders in the record the English device name renders as "Unknown Device" |
| Templates.ReadmeRepoSlot | ci_core_rs/src/main.rs:482 | an instance of ReadmePlacement: the repository placeholder alone renders as the trimmed repository path |
| Setup.AuthUrl | ci_core_rs/src/main.rs:322-326 | the clone URL is https and ends with github.com/<repo>.git, with or without the token |
| Setup.CleanNames | ci_core_rs/src/main.rs:343-346 | each listed line is trimmed and stripped of every leading origin/, position by position |
| Setup.RemoteBranchesClean | ci_core_rs/src/main.rs:341-346 | no reported remote branch keeps an origin/ prefix, and blank output reports none |
| Setup.RemoteBranchesOfListing | ci_core_rs/src/main.rs:341-346 | a listing of origin/<name> lines reads back as exactly those names |
| Setup.Decide | ci_core_rs/src/main.rs:349-376 | a branch is skipped exactly when it is missing remotely and is not resukisu with the legacy branch present; only resukisu is migrated |
| Setup.CommitMessageInjective | ci_core_rs/src/main.rs:424 | different branches are committed under different messages |
| Setup.MigrationCommands | ci_core_rs/src/main.rs:351-371 | every step is a git command in the clone and none is a commit or a plain `git push origin <b>`; checkout of sukisuultra precedes the rename to resukisu, which precedes `git push origin -u resukisu`, which precedes `git push origin --delete sukisuultra` |
| Setup.RemoveOld | ci_core_rs/src/main.rs:388-398 | the plan holds file removals only |
| Setup.RemoveOldExactly | ci_core_rs/src/main.rs:388-398 | each of the listed old scripts is removed exactly when it exists in the checkout, and nothing else is removed |
| Setup.Docs | ci_core_rs/src/main.rs:378-386 | README, workflow directory and funding file steps issue no git command |
| Setup.Refresh | ci_core_rs/src/main.rs:388-413 | removing old scripts, writing the trigger and copying the ignore file issue no git command |
| Setup.FileSteps | ci_core_rs/src/main.rs:378-413 | the file steps of a branch issue no git command |
| Setup.SyncFiles | ci_core_rs/src/main.rs:378-416 | the only git commands before the status check are staging and the status query |
| Setup.Publish | ci_core_rs/src/main.rs:418-430 | branch b is committed under its own message and pushed with `git push origin <b>` exactly when the status is non-blank; no other branch is, and nothing is deleted |
| Setup.SyncAndPublish | ci_core_rs/src/main.rs:378-430 | the same for the whole per-branch sync: commit and `git push origin <b>` exactly when dirty, never a remote delete |
| Setup.BranchCommands | ci_core_rs/src/main.rs:348-431 | a skipped branch issues nothing; b is committed and pushed with `git push origin <b>` exactly when not skipped and dirty; the legacy branch is deleted exactly when migrating |
| Setup.PlanBranches | ci_core_rs/src/main.rs:348-431 | over a branch list, x is committed and pushed with `git push origin <x>` exactly when listed, not skipped and dirty; the legacy branch is deleted exactly when some branch migrates |
| Setup.MigratesOnlyCurrent | ci_core_rs/src/main.rs:339-351 | among the targets a migration happens exactly when resukisu is missing and the legacy branch exists |
| Setup.TokenCommands | ci_core_rs/src/main.rs:433-461 | the secret and sponsorship steps happen exactly when a token is given and issue no git command |
| Setup.CloneCommands | ci_core_rs/src/main.rs:328-342 | the clone is issued and nothing is committed or pushed |
| Setup.ClonePlan | ci_core_rs/src/main.rs:328-461 | a project's plan clones its repository into its directory |
| Setup.ClonePlanPushes | ci_core_rs/src/main.rs:339-431 | `git push origin <x>` is in a clone's plan exactly when x is a target branch, not skipped and dirty |
| Setup.ClonePlanMigrates | ci_core_rs/src/main.rs:339-371 | the legacy branch is deleted exactly when it exists remotely and resukisu does not |
| Setup.ProjectCommands | ci_core_rs/src/main.rs:316-336 | a project is cloned from its token URL into workspace/<key> |
| Setup.SetupProjects | ci_core_rs/src/main.rs:311-336 | the loop succeeds exactly when every non-reserved value of the order reads as a record, and then clones every such project from its token URL into its directory; otherwise it stops with NotAProject for the first unreadable key, having cloned every project before it |
| Setup.FirstUnreadable | ci_core_rs/src/main.rs:311-316 | the keys before the returned position all read (or are reserved), and the key at it is a non-reserved value that does not read as a project |
| Setup.SetupStopsAtFirstUnreadable | ci_core_rs/src/main.rs:311-316 | the commands issued before a failure are exactly those of a successful run over the keys before the first unreadable value |
| Setup.HandleSetup | ci_core_rs/src/main.rs:285-336 | setup succeeds exactly when every non-reserved value reads as a record, and then clones every non-reserved project of the registry; otherwise it fails with NotAProject for the first unreadable key after cloning every project listed before it |
| Setup.CloneUrlsAgree | scripts/ci_core.py:106 | the Python and Rust clone URLs agree except for an empty token |
| Setup.PyTargetDirShape | scripts/ci_core.py:105 | a relative key lands under kernel_workspace/, an absolute key replaces it |
| Setup.PyTargetDirInjective | scripts/ci_core.py:105 | no two keys share a working copy |
| Setup.PyRepo | scripts/ci_core.py:101-103 | a value is processed exactly when its repo member is present and truthy, and the URL uses that member |
| Setup.PyRepoOfProject | scripts/ci_core.py:101-106 | on a project record Python processes the value exactly when its repo is non-empty, and uses the same repo text as the Rust tool |
| Setup.PySetupLoop | scripts/ci_core.py:100-118 | a key's working copy gets the CI identity exactly when the key is in the order and its object has a truthy repo |
| Setup.PySetupRepos | scripts/ci_core.py:94-118 | exactly the registry keys whose object has a truthy repo are processed; without a file only the workspace is created |
| Build.SearchDirs | ci_core_rs/src/build.rs:67-71 | the search directories are the exports joined to the toolchain base, last export first |
| Build.PrependExportsOrder | ci_core_rs/src/build.rs:67-71 | the export loop yields the search directories, then the old PATH, colon-separated |
| Build.ComposePathCases | ci_core_rs/src/build.rs:59-76 | PATH is the reversed exports before the old PATH; without exports a non-empty prefix adds base/bin; otherwise PATH is kept |
| Build.TargetSocOfFields | ci_core_rs/src/build.rs:140 | the SoC is the key's second underscore-separated field |
| Build.TargetSocWithoutField | ci_core_rs/src/build.rs:140 | a key without an underscore has SoC unknown |
| Build.DefconfigArgs | ci_core_rs/src/build.rs:141-157 | the configuration step has six make arguments |
| Build.BuildArgsShape | ci_core_rs/src/build.rs:243-257 | the build line extends the configuration line and carries LOCALVERSION=, as its last argument, exactly in parameter mode |
| Build.MakeArgsOrder | ci_core_rs/src/build.rs:141-157 | O=out ARCH=arm64 LLVM=1 LLVM_IAS=1, then TARGET_SOC, then CC=ccache clang iff ccache is found (CC=clang otherwise); 6 arguments in file mode, 7 otherwise |
| Build.DisableConfigsOrder | ci_core_rs/src/build.rs:165-178 | the seven vendor options first in fixed order, then the project's list unchanged |
| Build.DisableCommandsEach | ci_core_rs/src/build.rs:180-192 | one --disable edit per option, in order |
| Build.DisabledExactly | ci_core_rs/src/build.rs:165-192 | an option is disabled exactly when it is a vendor option or on the project's list |
| Build.LtoCommand | ci_core_rs/src/build.rs:194-224 | thin enables thin and disables full LTO, full the reverse, any other value edits nothing |
| Build.ConfigureShape | ci_core_rs/src/build.rs:146-231 | the configuration part starts with `which ccache`, sizes the cache exactly when ccache is found, runs the defconfig step, and ends by reading the short commit |
| Build.ConfigureDisables | ci_core_rs/src/build.rs:159-224 | the configuration part switches an option off exactly when it is a vendor option or on the project's list |
| Build.MakeCommandArgs | ci_core_rs/src/build.rs:253-259 | the build make line is `make -j<threads>` followed by the six configuration arguments, in the source tree |
| Build.MakeCommandLocalversionArg | ci_core_rs/src/build.rs:243-259 | the build make line ends with LOCALVERSION= exactly in parameter mode |
| Build.MakeCommandEnv | ci_core_rs/src/build.rs:243-259 | the build environment is the configuration environment plus LOCALVERSION, which is present exactly in parameter mode and then is base-suffix |
| Build.InstallersFollowTable | ci_core_rs/src/build.rs:118-132 | an installer exists exactly for table variants, from the table's setup URL; the argument is builtin for resukisu and "-" otherwise; the legacy name and main get none |
| Build.InstallCommands | ci_core_rs/src/build.rs:134-138 | at most one installer command, present exactly when the branch has an installer |
| Build.InstallCommandsFollowTable | ci_core_rs/src/build.rs:118-138 | a table variant pipes the table's setup script into bash in the source tree; any other branch installs nothing |
| Build.SuffixTablesAgree | ci_core_rs/src/build.rs:233-239 | the build's suffix table equals the one meta uses |
| Build.CrossEnv | ci_core_rs/src/build.rs:76-86 | PATH, ARCH=arm64, the aarch64 cross prefix and clang triple, and the 32-bit compat prefix arm-linux-gnueabi- are set; no host flags, compiler or local version |
| Build.WithHostTools | ci_core_rs/src/build.rs:88-116 | the host-tool flags and library path are added and PATH, ARCH, CC and LOCALVERSION are untouched |
| Build.WithCcache | ci_core_rs/src/build.rs:146-152 | CC becomes ccache clang and PATH, ARCH, host flags and LOCALVERSION are untouched |
| Build.CompileEnv | ci_core_rs/src/build.rs:62-157 | the configuration step never sees LOCALVERSION |
| Build.CompileEnvSettings | ci_core_rs/src/build.rs:62-152 | the configuration environment has the composed PATH, ARCH=arm64, host flags iff extra_host_env is true, and CC=ccache clang iff ccache is found |
| Build.BuildEnv | ci_core_rs/src/build.rs:243-251 | LOCALVERSION is set exactly in parameter mode, to base-suffix |
| Build.WgetEach | ci_core_rs/src/build.rs:31-34 | every listed URL is fetched with wget in the download directory |
| Build.ToolchainCommands | ci_core_rs/src/build.rs:23-57 | nothing without toolchain URLs; otherwise the plan ends by extracting the archives and removing the download directory |
| Build.ToolchainFetchesEveryUrl | ci_core_rs/src/build.rs:23-34 | every toolchain URL of the record is downloaded |
| Build.Finish | ci_core_rs/src/build.rs:243-263 | four steps in file mode, two in parameter mode |
| Build.FileModeLocalversion | ci_core_rs/src/build.rs:243-263 | in file mode the version file holds localversion-g<commit> during make, make gets no LOCALVERSION, and the file is emptied afterwards |
| Build.ParamModeLocalversion | ci_core_rs/src/build.rs:243-259 | in parameter mode make gets LOCALVERSION=base-suffix in its environment and an empty LOCALVERSION= last on its line; no file is written |
| Build.CompiledEnds | ci_core_rs/src/build.rs:23-279 | the compilation part starts with the toolchain commands and ends by cloning AnyKernel3 from the record's source, defaulting to YuzakiKokuban/AnyKernel3 on master |
| Build.CompiledConfiguresFirst | ci_core_rs/src/build.rs:159-259 | the compilation part runs the defconfig step before the build make line |
| Build.BuildNamesAgreeWithMeta | ci_core_rs/src/build.rs:288-321 | the build's zip name, tag, title and local version are the ones meta announces for the same branch and date |
| Build.Packaging | ci_core_rs/src/build.rs:281-346 | packaging finishes exactly when the image exists and, for a release, the zip exists; a missing image stops before anything is issued |
| Build.HandleBuild | ci_core_rs/src/build.rs:11-21 | a missing key, a non-record value and a missing source tree each stop the build before any command |
| Build.BuildSucceeds | ci_core_rs/src/build.rs:11-346 | a build finishes exactly when the project reads, the source tree and image exist, and for a release the zip exists; a missing image stops right after compilation |
| Build.PackageShape | ci_core_rs/src/build.rs:286-317 | packaging copies the image into AnyKernel3, then zips that tree into ../<zip name> |
| Build.BuildPackages | ci_core_rs/src/build.rs:286-317 | a build without release whose project, source tree and image exist ends with the image copy and the zip under the name meta announces |
| Build.BuildReleases | ci_core_rs/src/build.rs:319-342 | a release whose project, source tree, image and zip exist ends with gh release create under meta's tag, zip and title, then the notification for that tag |
| Build.BuildFetchesToolchainFirst | ci_core_rs/src/build.rs:23-57 | once the project reads and the source exists, the build starts with the toolchain commands |
| Build.BuildInstallsFramework | ci_core_rs/src/build.rs:118-146 | right after the toolchain comes the branch's installer, if any, then the ccache probe |
| Text.Trim | ci_core_rs/src/utils.rs:71-73 | the result has no surrounding whitespace, is no longer, and trimmed input is kept |
| Text.TrimIdempotent | ci_core_rs/src/utils.rs:72 | trimming twice is trimming once |
| Text.FirstWord | ci_core_rs/src/main.rs:522 | the first word has no whitespace and is empty exactly when the output is all whitespace |
| Text.FirstWordOfLine | ci_core_rs/src/main.rs:522 | the hash is read back from a "<hash><whitespace><ref>" line |
| Text.Take | ci_core_rs/src/main.rs:548 | a prefix of length min(n, length) |
| Text.ToUpper | ci_core_rs/src/main.rs:181 | length kept, each ASCII letter upper-cased, other characters kept |
| Text.ToUpperIdempotent | ci_core_rs/src/main.rs:181 | upper-casing is idempotent and leaves no ASCII lower-case letter |
| Text.ToLower | scripts/ci_core.py:38 | length kept, each ASCII capital lower-cased, other characters kept |
| Text.ToLowerThenUpper | scripts/ci_core.py:38 | lower-casing changes case only: upper-casing afterwards gives the upper-cased input, and no ASCII capital is left |
| Text.Replace | ci_core_rs/src/main.rs:401-403 | a string not containing the pattern is unchanged |
| Text.ReplaceWhole | ci_core_rs/src/main.rs:401-403 | the pattern alone becomes the replacement |
| Text.ReplaceAppend | ci_core_rs/src/main.rs:479-483 | replacement works piece by piece on a concatenation when no occurrence crosses the seam |
| Text.ReplaceOccurrence | ci_core_rs/src/main.rs:479-483 | the first occurrence of the pattern becomes the replacement, the text before it is kept, and the text after it is replaced in turn |
| Text.ReplaceFramed | ci_core_rs/src/main.rs:479-483 | text around the replaced part that lacks the pattern's framing character is kept as it is |
| Text.Split | ci_core_rs/src/main.rs:400 | at least one piece, no piece contains the separator |
| Text.SplitJoin | ci_core_rs/src/main.rs:400 | joining the pieces with the separator gives back the input |
| Text.JoinSplit | ci_core_rs/src/build.rs:140 | splitting joined separator-free pieces gives back the pieces |
| Text.Lines | ci_core_rs/src/main.rs:343-345 | no line contains a line feed and empty text has no lines |
| Text.TrimStartMatches | ci_core_rs/src/main.rs:345 | the result is a suffix of the input that no longer starts with the prefix |
| Text.TrimStartMatchesPrefix | ci_core_rs/src/main.rs:345 | one leading copy of the prefix is stripped, then stripping goes on as for the rest |
| Text.PathJoin | ci_core_rs/src/main.rs:321 | an absolute component replaces the base; otherwise the result ends with the component |

## Left out

- All I/O is out of the model: file contents, process exit codes, stdout and stderr, environment variables and the `GITHUB_ENV` and `GITHUB_OUTPUT` files. Each command is data in a plan. What the machine reports (paths present, command output, the clock) is a parameter.
- Command failures are not modelled, apart from the captured `git ls-remote` in `watch` and the lookup errors. A plan is what runs when every command succeeds. Most commands end the run when they fail, through `?` or `check=True`. Some do not, and their failure would not stop the run: the `which ccache` probe at build.rs:146, whose failure only selects `CC=clang` (modelled as `BuildHost.hasCcache`); the secret and sponsorship steps at main.rs:433-461, whose results are discarded; and the `pull` and `git config` calls of Python `setup_repos` at ci_core.py:112 and 117-118, run with `check=False`.
- Parsing and printing JSON text are out of the model: the registry file is given as a JSON value, and member order, indentation and the trailing newline are not modelled. Parse errors of `projects.json` itself are not modelled.
- Every registry value is modelled as a JSON object. A value that is a string, number, list or null is not modelled: the Rust tool would fail to read it as a project, and Python's `.get` on it would raise.
- `handle_parse` (Rust) and `handle_notify` are not part of this model. A release ends with an abstract `Notify(tag)` command.
- Templates are read by the tool from fixed files. Here they are passed in as strings (`Settings.readmeTemplate`, `Settings.triggerTemplate`).
- The language step of `process_readme` leaves the text unchanged, so it is not modelled. Its patterns are a lazy `(?s).*?` that removes only empty matches and replacements of the empty string by the empty string.
- The extraction shell script of the toolchain download is the abstract `ExtractArchives(dir)` command.
- Text.ToUpper: upper-cases ASCII letters only, where Rust `to_uppercase` also maps non-ASCII letters (and can lengthen the string).
- Text.Lines: splits on line feeds only. Rust `lines()` also drops a carriage return before each line feed. Every caller trims each line anyway.
- Setup.PySetupRepos: a truthy `repo` that is not text (a number, list or object) is put into the clone URL as empty text, where Python would format its `str()`.
- Json.PyStr: numbers, lists and objects are not rendered, since Python's `str()` of them is not modelled.
- Registry.Rendered: the `str()` line of a number, list or object, `.lower()` of such a value, and the `json.dumps` line of a number, an object, a string with a quote, a backslash or a character outside printable ASCII (which Python escapes), or a list holding anything else are left unrendered. `.lower()` lower-cases ASCII capitals only (Text.ToLower), where Python also maps non-ASCII letters.
- `git -C dir ...` in Python is modelled as a git invocation with working directory `dir`.
- The `short_sha` fallback "unknown" is not modelled. A capture-mode `run_cmd` that succeeds always returns `Some`. The same holds for `nproc` and the `None => continue` branch of the watcher.
- The updater's HTTP download of the setup script is a `Download` command. A download failure is a command failure and is not modelled.
- Build.DefconfigArgs: states only the length. The contents are stated by Build.MakeArgsOrder and Build.BuildArgsShape.
- Build.CompileEnv: states only that LOCALVERSION is absent. The rest is stated by Build.CompileEnvSettings.
- Templates.TriggerPlacement and Templates.ReadmePlacement: state the substitution for one placeholder in text without underscores. A placeholder whose value holds a later placeholder, or text with underscores next to it, is covered only by the general Text lemmas.
- Update.HandleUpdate: the scratch clone is removed only on the success path, as in the code.
