/**
  Bringing the device repositories up to date (`setup`): clone every project,
  rename the legacy variant branch, and on each target branch write the
  rendered README and the build-trigger workflow, then commit and push when
  the tree changed. Also the older Python `setup_repos`, which only clones or
  pulls.

  The machine is an oracle (`Host`): which paths exist, what `git branch -r`
  and `git status --porcelain` print. A run is the list of commands it issues
  when every command succeeds.
 */
module Setup {
  import opened Wrappers
  import opened Json
  import opened Text
  import opened Config
  import opened Variants
  import opened Commands
  import opened Templates

  /** The branches `setup` visits, in order. */
  const TargetBranches: seq<string> := ["main", "ksu", "mksu", "resukisu"]

  /** Build scripts of the old layout, removed from every visited branch. */
  const OldScripts: seq<string> := ["build.sh", "build_kernel.sh", "update.sh", "update-kernelsu.yml"]

  /** The funding file, looked up relative to the tool's working directory. */
  const FundingFile: string := ".github/FUNDING.yml"

  /** What a run observes. */
  datatype Host = Host(
    /** A path exists on the machine (before the project touching it is processed). */
    present: string -> bool,
    /** (project, branch, name): the checkout of that branch has a file `name`. */
    inCheckout: (string, string, string) -> bool,
    /** Project key to the standard output of `git branch -r` in its clone. */
    remoteListing: string -> string,
    /** (project, branch) to the standard output of `git status --porcelain`. */
    porcelain: (string, string) -> string)

  /** The invocation: central root directory, optional token, commit message
      and the two template texts. */
  datatype Settings = Settings(
    root: string,
    token: Option<string>,
    commitMessage: string,
    readmeTemplate: string,
    triggerTemplate: string)

  function WorkspaceDir(root: string): string {
    PathJoin(root, "kernel_workspace")
  }

  function TargetDir(root: string, key: string): string {
    PathJoin(WorkspaceDir(root), key)
  }

  function UniversalIgnore(root: string): string {
    PathJoin(root, "configs/universal.gitignore")
  }

  /** The clone URL: with the token as user name when one is given. */
  function AuthUrl(token: Option<string>, repo: string): (url: string)
    ensures StartsWith(url, "https://")
    ensures EndsWith(url, "github.com/" + repo + ".git")
  {
    var tail := "github.com/" + repo + ".git";
    var url := if token.Some? then "https://" + token.value + "@" + tail else "https://" + tail;
    assert url[..8] == "https://";
    assert url[|url| - |tail|..] == tail;
    url
  }

  // ------------------------------------------------------- remote branches

  /** Each line trimmed and stripped of every leading "origin/". */
  function CleanNames(lines: seq<string>): (r: seq<string>)
    ensures |r| == |lines|
    ensures forall i | 0 <= i < |lines| :: r[i] == TrimStartMatches(Trim(lines[i]), "origin/")
    decreases |lines|
  {
    if lines == [] then [] else [TrimStartMatches(Trim(lines[0]), "origin/")] + CleanNames(lines[1..])
  }

  /** The remote branch names in the output of `git branch -r` (the captured
      output is trimmed first). */
  function RemoteBranches(stdout: string): seq<string> {
    CleanNames(Lines(Trim(stdout)))
  }

  /** No reported name keeps an "origin/" prefix, and a blank listing
      reports no branch. */
  lemma RemoteBranchesClean(stdout: string)
    ensures forall i | 0 <= i < |RemoteBranches(stdout)| :: !StartsWith(RemoteBranches(stdout)[i], "origin/")
    ensures Trim(stdout) == [] ==> RemoteBranches(stdout) == []
  {
  }

  /** A branch name as git lists it: non-empty, one line, no surrounding
      whitespace, not itself starting with "origin/". */
  predicate PlainBranchName(n: string) {
    n != [] && '\n' !in n && IsTrimmed(n) && !StartsWith(n, "origin/")
  }

  function Listed(names: seq<string>): (r: seq<string>)
    ensures |r| == |names|
    ensures forall i | 0 <= i < |names| :: r[i] == "origin/" + names[i]
    decreases |names|
  {
    if names == [] then [] else ["origin/" + names[0]] + Listed(names[1..])
  }

  /** One listed line reads back as the branch name. */
  lemma ListedLine(n: string)
    requires PlainBranchName(n)
    ensures "origin/" + n != [] && '\n' !in "origin/" + n && IsTrimmed("origin/" + n)
    ensures TrimStartMatches(Trim("origin/" + n), "origin/") == n
  {
    var l := "origin/" + n;
    assert l[|l| - 1] == n[|n| - 1];
    assert l[0] == 'o';
    assert IsTrimmed(l);
    assert Trim(l) == l;
    TrimStartMatchesPrefix("origin/", n);
  }

  /** Joining trimmed, non-empty lines gives a trimmed text whose lines are
      the given ones. */
  lemma LinesOfJoin(lines: seq<string>)
    requires lines != []
    requires forall i | 0 <= i < |lines| :: lines[i] != [] && '\n' !in lines[i] && IsTrimmed(lines[i])
    ensures Trim(JoinWith(lines, '\n')) == JoinWith(lines, '\n')
    ensures Lines(JoinWith(lines, '\n')) == lines
  {
    var out := JoinWith(lines, '\n');
    var first := lines[0];
    var last := lines[|lines| - 1];
    assert first != [] && IsTrimmed(first);
    assert last != [] && IsTrimmed(last);
    JoinWithEnds(lines, '\n');
    assert out[..|first|] == first;
    assert out[0] == first[0];
    assert out[|out| - |last|..] == last;
    assert out[|out| - 1] == last[|last| - 1];
    assert IsTrimmed(out);
    JoinSplit(lines, '\n');
  }

  /** The listed lines are fit to be joined, and each reads back as its name. */
  lemma ListedLines(names: seq<string>)
    requires forall i | 0 <= i < |names| :: PlainBranchName(names[i])
    ensures forall i | 0 <= i < |names| :: Listed(names)[i] != [] && '\n' !in Listed(names)[i] && IsTrimmed(Listed(names)[i])
    ensures CleanNames(Listed(names)) == names
  {
    var lines := Listed(names);
    var r := CleanNames(lines);
    forall i | 0 <= i < |names|
      ensures lines[i] != [] && '\n' !in lines[i] && IsTrimmed(lines[i])
      ensures r[i] == names[i]
    {
      ListedLine(names[i]);
    }
    assert r == names;
  }

  /** Reading back a listing of remote-tracking branches one per line gives
      the branch names. */
  lemma RemoteBranchesOfListing(names: seq<string>)
    requires forall i | 0 <= i < |names| :: PlainBranchName(names[i])
    ensures RemoteBranches(JoinWith(Listed(names), '\n')) == names
  {
    ListedLines(names);
    if names != [] {
      LinesOfJoin(Listed(names));
    }
  }

  // ---------------------------------------------------------- branch plans

  datatype BranchAction = Migrate | Existing | Skip

  /** What happens to target branch `b`: the legacy branch is renamed into
      `resukisu` when only the legacy one exists; an existing branch is checked
      out; a missing one is skipped. */
  function Decide(b: string, remotes: seq<string>): (a: BranchAction)
    ensures a == Skip <==> b !in remotes && !(b == CurrentName && LegacyName in remotes)
    ensures a == Migrate ==> b == CurrentName
  {
    if b == CurrentName && b !in remotes && LegacyName in remotes then Migrate
    else if b in remotes then Existing
    else Skip
  }

  /** The commit message of branch `b`. */
  function CommitMessage(message: string, b: string): string {
    message + " (branch: " + b + ")"
  }

  /** Different branches are committed with different messages. */
  lemma CommitMessageInjective(message: string, a: string, b: string)
    requires CommitMessage(message, a) == CommitMessage(message, b)
    ensures a == b
  {
    var n := |message| + 10;
    assert CommitMessage(message, a)[n..n + |a|] == a;
    assert CommitMessage(message, b)[n..n + |b|] == b;
  }

  lemma CommitMessagesDistinct(message: string, b: string)
    ensures forall x :: CommitMessage(message, x) == CommitMessage(message, b) ==> x == b
  {
    forall x | CommitMessage(message, x) == CommitMessage(message, b)
      ensures x == b
    {
      CommitMessageInjective(message, x, b);
    }
  }

  /** Rename the legacy branch to `resukisu`, publish it and delete the old
      remote branch. The rename happens on the legacy branch, and the new
      name is on the remote before the old one is removed from it. */
  function MigrationCommands(dir: string): (r: seq<Command>)
    ensures forall c | c in r :: c.Git? && c.cwd == Some(dir) && !c.op.Commit? && !c.op.PushBranch?
    ensures exists i, j | 0 <= i < j < |r| ::
              r[i] == GitIn(Checkout(LegacyName), dir) && r[j] == GitIn(RenameBranch(CurrentName), dir)
    ensures exists i, j | 0 <= i < j < |r| ::
              r[i] == GitIn(PushUpstream(CurrentName), dir) && r[j] == GitIn(DeleteRemoteBranch(LegacyName), dir)
    ensures forall i, j | 0 <= i < |r| && 0 <= j < |r| &&
              r[i] == GitIn(RenameBranch(CurrentName), dir) && r[j] == GitIn(PushUpstream(CurrentName), dir) :: i < j
  {
    var r := [ GitIn(Checkout(LegacyName), dir),
               GitIn(RenameBranch(CurrentName), dir),
               GitIn(PushUpstream(CurrentName), dir),
               GitIn(DeleteRemoteBranch(LegacyName), dir) ];
    assert r[0] == GitIn(Checkout(LegacyName), dir) && r[1] == GitIn(RenameBranch(CurrentName), dir);
    assert r[2] == GitIn(PushUpstream(CurrentName), dir) && r[3] == GitIn(DeleteRemoteBranch(LegacyName), dir);
    r
  }

  /** One project's clone as `setup` sees it. */
  datatype Work = Work(key: string, dir: string, readme: string, trigger: string, remotes: seq<string>)

  /** Remove the old build scripts present in the checkout of branch `b`. */
  function RemoveOld(names: seq<string>, w: Work, b: string, host: Host): (r: seq<Command>)
    ensures forall c | c in r :: c.RemoveFile?
    decreases |names|
  {
    if names == [] then []
    else
      (if host.inCheckout(w.key, b, names[0]) then [RemoveFile(PathJoin(w.dir, names[0]))] else [])
      + RemoveOld(names[1..], w, b, host)
  }

  /** Each name is removed exactly when it exists in the checkout, and
      nothing else is removed. */
  lemma {:induction false} RemoveOldExactly(names: seq<string>, w: Work, b: string, host: Host)
    ensures forall n | n in names && host.inCheckout(w.key, b, n) :: RemoveFile(PathJoin(w.dir, n)) in RemoveOld(names, w, b, host)
    ensures forall c | c in RemoveOld(names, w, b, host) ::
              exists n | n in names && host.inCheckout(w.key, b, n) :: c == RemoveFile(PathJoin(w.dir, n))
    decreases |names|
  {
    if names != [] {
      RemoveOldExactly(names[1..], w, b, host);
      assert forall n | n in names[1..] :: n in names;
      assert forall n | n in names :: n == names[0] || n in names[1..];
    }
  }

  /** A captured `git status --porcelain` reports changes. */
  predicate Dirty(stdout: string) {
    Trim(stdout) != []
  }

  /** The workflow directory of a clone. */
  function Workflows(w: Work): string {
    PathJoin(PathJoin(w.dir, ".github"), "workflows")
  }

  /** After branch `b` is checked out: write the README, create the
      workflow directory and copy the funding file when present. */
  function Docs(w: Work, host: Host): (r: seq<Command>)
    ensures forall c | c in r :: !c.Git?
  {
    [WriteFile(PathJoin(w.dir, "README.md"), w.readme), MakeDirs(Workflows(w))]
      + (if host.present(FundingFile) then [CopyFile(FundingFile, PathJoin(PathJoin(w.dir, ".github"), "FUNDING.yml"))] else [])
  }

  /** Remove the old scripts, write the trigger workflow and copy the shared
      ignore file when present. */
  function Refresh(w: Work, b: string, s: Settings, host: Host): (r: seq<Command>)
    ensures forall c | c in r :: !c.Git?
  {
    var ignore := UniversalIgnore(s.root);
    RemoveOld(OldScripts, w, b, host)
      + ([WriteFile(PathJoin(Workflows(w), "trigger-central-build.yml"), w.trigger)]
      + (if host.present(ignore) then [CopyFile(ignore, PathJoin(w.dir, ".gitignore"))] else []))
  }

  /** All file steps of a branch; no git command is involved. */
  function FileSteps(w: Work, b: string, s: Settings, host: Host): (r: seq<Command>)
    ensures forall c | c in r :: !c.Git?
  {
    Docs(w, host) + Refresh(w, b, s, host)
  }

  /** The file steps, then staging everything and the status query: the
      only git commands are those two, so nothing is committed or pushed. */
  function SyncFiles(w: Work, b: string, s: Settings, host: Host): (r: seq<Command>)
    ensures forall c | c in r :: c.Git? ==> c == GitIn(AddAll, w.dir) || c == GitIn(Status, w.dir)
  {
    FileSteps(w, b, s, host) + [GitIn(AddAll, w.dir), GitIn(Status, w.dir)]
  }

  /** Commit and push branch `b` only when the status reports changes. */
  function Publish(w: Work, b: string, s: Settings, host: Host): (r: seq<Command>)
    ensures forall x :: GitIn(PushBranch(x), w.dir) in r <==> x == b && Dirty(host.porcelain(w.key, b))
    ensures forall x :: GitIn(Commit(CommitMessage(s.commitMessage, x)), w.dir) in r <==>
              x == b && Dirty(host.porcelain(w.key, b))
    ensures GitIn(DeleteRemoteBranch(LegacyName), w.dir) !in r
  {
    var dirty := Dirty(host.porcelain(w.key, b));
    PublishSteps(w.dir, b, s.commitMessage, dirty);
    if dirty then [GitIn(Commit(CommitMessage(s.commitMessage, b)), w.dir), GitIn(PushBranch(b), w.dir)]
    else []
  }

  /** The commit and push of branch `b`, or nothing, name `b` alone. */
  lemma PublishSteps(dir: string, b: string, message: string, dirty: bool)
    ensures var r := if dirty then [GitIn(Commit(CommitMessage(message, b)), dir), GitIn(PushBranch(b), dir)] else [];
            && (forall x :: GitIn(PushBranch(x), dir) in r <==> x == b && dirty)
            && (forall x :: GitIn(Commit(CommitMessage(message, x)), dir) in r <==> x == b && dirty)
            && GitIn(DeleteRemoteBranch(LegacyName), dir) !in r
  {
    CommitMessagesDistinct(message, b);
  }

  /** The file sync of branch `b` followed by its commit and push: the
      branch is committed and pushed exactly when it has changes, under its
      own message, and nothing is deleted remotely. */
  function SyncAndPublish(b: string, w: Work, s: Settings, host: Host): (r: seq<Command>)
    ensures forall x :: GitIn(PushBranch(x), w.dir) in r <==> x == b && Dirty(host.porcelain(w.key, b))
    ensures forall x :: GitIn(Commit(CommitMessage(s.commitMessage, x)), w.dir) in r <==>
              x == b && Dirty(host.porcelain(w.key, b))
    ensures GitIn(DeleteRemoteBranch(LegacyName), w.dir) !in r
  {
    var files := SyncFiles(w, b, s, host);
    assert forall x :: GitIn(PushBranch(x), w.dir) !in files;
    assert forall x :: GitIn(Commit(CommitMessage(s.commitMessage, x)), w.dir) !in files;
    assert GitIn(DeleteRemoteBranch(LegacyName), w.dir) !in files;
    files + Publish(w, b, s, host)
  }

  /** The commands for target branch `b`: nothing for a skipped branch;
      otherwise the migration or the checkout, then the sync and publish. */
  function BranchCommands(b: string, w: Work, s: Settings, host: Host): (r: seq<Command>)
    ensures Decide(b, w.remotes) == Skip ==> r == []
    ensures forall x :: GitIn(PushBranch(x), w.dir) in r <==>
              x == b && Decide(b, w.remotes) != Skip && Dirty(host.porcelain(w.key, b))
    ensures forall x :: GitIn(Commit(CommitMessage(s.commitMessage, x)), w.dir) in r <==>
              x == b && Decide(b, w.remotes) != Skip && Dirty(host.porcelain(w.key, b))
    ensures GitIn(DeleteRemoteBranch(LegacyName), w.dir) in r <==> Decide(b, w.remotes) == Migrate
  {
    match Decide(b, w.remotes)
    case Migrate => MigrationCommands(w.dir) + SyncAndPublish(b, w, s, host)
    case Existing => [GitIn(Checkout(b), w.dir)] + SyncAndPublish(b, w, s, host)
    case Skip => []
  }

  /** The commands for a list of target branches, in order: a branch is
      pushed exactly when it is in the list, is not skipped and has changes;
      the legacy branch is deleted exactly when some branch is migrated. */
  function PlanBranches(branches: seq<string>, w: Work, s: Settings, host: Host): (r: seq<Command>)
    ensures forall x :: GitIn(PushBranch(x), w.dir) in r <==>
              x in branches && Decide(x, w.remotes) != Skip && Dirty(host.porcelain(w.key, x))
    ensures forall x :: GitIn(Commit(CommitMessage(s.commitMessage, x)), w.dir) in r <==>
              x in branches && Decide(x, w.remotes) != Skip && Dirty(host.porcelain(w.key, x))
    ensures GitIn(DeleteRemoteBranch(LegacyName), w.dir) in r <==>
              exists i | 0 <= i < |branches| :: Decide(branches[i], w.remotes) == Migrate
    // The second component, constant across calls, keeps the verifier from
    // unrolling the fixed branch list wherever a clone plan is mentioned.
    decreases |branches|, w
  {
    if branches == [] then []
    else
      var rest := PlanBranches(branches[1..], w, s, host);
      assert forall x :: x in branches <==> x == branches[0] || x in branches[1..];
      assert (exists i | 0 <= i < |branches| :: Decide(branches[i], w.remotes) == Migrate) <==>
             Decide(branches[0], w.remotes) == Migrate ||
             exists i | 0 <= i < |branches[1..]| :: Decide(branches[1..][i], w.remotes) == Migrate by {
        if exists i | 0 <= i < |branches| :: Decide(branches[i], w.remotes) == Migrate {
          var i :| 0 <= i < |branches| && Decide(branches[i], w.remotes) == Migrate;
          if i > 0 { assert branches[1..][i - 1] == branches[i]; }
        }
      }
      BranchCommands(branches[0], w, s, host) + rest
  }

  /** `resukisu` is the only target branch that can be migrated. */
  lemma MigratesOnlyCurrent(remotes: seq<string>)
    ensures (exists i | 0 <= i < |TargetBranches| :: Decide(TargetBranches[i], remotes) == Migrate) <==>
            CurrentName !in remotes && LegacyName in remotes
  {
    assert TargetBranches[3] == CurrentName;
  }

  // -------------------------------------------------------------- projects

  /** With a token: store it as the repository secret `CI_TOKEN` and enable
      sponsorships; both ignore failures. */
  function TokenCommands(token: Option<string>, dir: string, repo: string): (r: seq<Command>)
    ensures token.None? <==> r == []
    ensures forall c | c in r :: !c.Git?
  {
    match token
    case None => []
    case Some(t) =>
      [ RunWithInput(["gh", "secret", "set", "CI_TOKEN"], Some(dir), t),
        Run(["gh", "api", "--method", "PATCH", "repos/" + repo, "-f", "has_sponsorships=true", "--silent"], None) ]
  }

  /** The clone of project `key` as `setup` sees it. */
  function WorkOf(key: string, p: ProjectConfig, s: Settings, host: Host): Work {
    Work(key, TargetDir(s.root, key), ProcessReadme(s.readmeTemplate, p, p.repo),
         TriggerContent(s.triggerTemplate, key, p.repo), RemoteBranches(host.remoteListing(key)))
  }

  /** A fresh clone (an old one is removed first) and the remote listing. */
  function CloneCommands(w: Work, url: string, host: Host): (r: seq<Command>)
    ensures Git(Clone(url, w.dir), None) in r
    ensures Quiet(r)
  {
    (if host.present(w.dir) then [RemoveTree(w.dir)] else [])
      + [Git(Clone(url, w.dir), None), GitIn(ListRemoteBranches, w.dir)]
  }

  /** All commands for one clone: the clone, the target branches in order,
      then the token steps. */
  function ClonePlan(w: Work, url: string, repo: string, s: Settings, host: Host): (r: seq<Command>)
    ensures Git(Clone(url, w.dir), None) in r
  {
    CloneCommands(w, url, host) + PlanBranches(TargetBranches, w, s, host) + TokenCommands(s.token, w.dir, repo)
  }

  /** A clone's branch `x` is pushed exactly when it is a target, is not
      skipped and has changes. */
  lemma ClonePlanPushes(w: Work, url: string, repo: string, s: Settings, host: Host, x: string)
    ensures GitIn(PushBranch(x), w.dir) in ClonePlan(w, url, repo, s, host) <==>
              x in TargetBranches && Decide(x, w.remotes) != Skip && Dirty(host.porcelain(w.key, x))
  {
    assert GitIn(PushBranch(x), w.dir) !in CloneCommands(w, url, host);
    assert GitIn(PushBranch(x), w.dir) !in TokenCommands(s.token, w.dir, repo);
  }

  /** The legacy branch is deleted exactly when it, and not `resukisu`,
      exists remotely. */
  lemma ClonePlanMigrates(w: Work, url: string, repo: string, s: Settings, host: Host)
    ensures GitIn(DeleteRemoteBranch(LegacyName), w.dir) in ClonePlan(w, url, repo, s, host) <==>
              CurrentName !in w.remotes && LegacyName in w.remotes
  {
    var c := CloneCommands(w, url, host);
    var b := PlanBranches(TargetBranches, w, s, host);
    var t := TokenCommands(s.token, w.dir, repo);
    assert ClonePlan(w, url, repo, s, host) == c + b + t;
    assert GitIn(DeleteRemoteBranch(LegacyName), w.dir) !in c;
    assert GitIn(DeleteRemoteBranch(LegacyName), w.dir) !in t;
    MigratesOnlyCurrent(w.remotes);
  }

  /** The commands for project `key`. */
  function ProjectCommands(key: string, p: ProjectConfig, s: Settings, host: Host): (r: seq<Command>)
    ensures Git(Clone(AuthUrl(s.token, p.repo), TargetDir(s.root, key)), None) in r
  {
    ClonePlan(WorkOf(key, p, s, host), AuthUrl(s.token, p.repo), p.repo, s, host)
  }

  /** Every non-reserved project key in `order` has its clone in `cmds`. */
  predicate ClonesAll(reg: Registry, order: seq<string>, s: Settings, cmds: seq<Command>) {
    forall i | 0 <= i < |order| && !IsReservedKey(order[i]) && order[i] in reg && reg[order[i]].Project? ::
      Git(Clone(AuthUrl(s.token, reg[order[i]].config.repo), TargetDir(s.root, order[i])), None) in cmds
  }

  /** A project's commands in front of the rest keep every clone. */
  lemma ClonesAllStep(reg: Registry, order: seq<string>, s: Settings, here: seq<Command>, rest: seq<Command>)
    requires order != [] && ClonesAll(reg, order[1..], s, rest)
    requires !IsReservedKey(order[0]) && order[0] in reg && reg[order[0]].Project? ==>
               Git(Clone(AuthUrl(s.token, reg[order[0]].config.repo), TargetDir(s.root, order[0])), None) in here
    ensures ClonesAll(reg, order, s, here + rest)
  {
    forall i | 1 <= i < |order|
      ensures order[i] == order[1..][i - 1]
    {
    }
  }

  /** Readability of an order, one key at a time. */
  lemma ProjectsReadableStep(reg: Registry, order: seq<string>)
    requires order != []
    ensures ProjectsReadable(reg, order) <==>
              order[0] in reg && (!IsReservedKey(order[0]) ==> reg[order[0]].Project?) && ProjectsReadable(reg, order[1..])
  {
    assert forall i | 1 <= i < |order| :: order[i] == order[1..][i - 1];
  }

  /** The length of the longest readable prefix of `order`: the position of
      the first non-reserved key whose value is not a project record, or the
      whole order when there is none. */
  function FirstUnreadable(reg: Registry, order: seq<string>): (n: nat)
    requires forall i | 0 <= i < |order| :: order[i] in reg
    ensures n <= |order|
    ensures ProjectsReadable(reg, order[..n])
    ensures n < |order| ==> !IsReservedKey(order[n]) && reg[order[n]].Malformed?
    decreases |order|
  {
    if order == [] then 0
    else if !IsReservedKey(order[0]) && reg[order[0]].Malformed? then 0
    else
      var m := FirstUnreadable(reg, order[1..]);
      assert order[..m + 1][1..] == order[1..][..m];
      ProjectsReadableStep(reg, order[..m + 1]);
      m + 1
  }

  /** The project loop in registry order: reserved keys are skipped, and a
      value that does not read as a project ends the run with everything
      issued for the projects before it. */
  function SetupProjects(reg: Registry, order: seq<string>, s: Settings, host: Host): (r: Outcome<Error>)
    requires forall i | 0 <= i < |order| :: order[i] in reg
    ensures r.failure.None? <==> ProjectsReadable(reg, order)
    ensures r.failure.None? ==> ClonesAll(reg, order, s, r.issued)
    ensures var n := FirstUnreadable(reg, order);
            && (r.failure.Some? ==> n < |order| && r.failure == Some(NotAProject(order[n])))
            && ClonesAll(reg, order[..n], s, r.issued)
    decreases |order|
  {
    if order == [] then Outcome([], None)
    else
      var key := order[0];
      ProjectsReadableStep(reg, order);
      if !IsReservedKey(key) && reg[key].Malformed? then Outcome([], Some(NotAProject(key)))
      else
        var rest := SetupProjects(reg, order[1..], s, host);
        var here := if IsReservedKey(key) then [] else ProjectCommands(key, reg[key].config, s, host);
        SetupProjectsStep(reg, order, s, here, rest);
        Outcome(here + rest.issued, rest.failure)
  }

  /** The loop's contract carries over from the rest of the order to the
      whole when the head key is skipped or processed. */
  lemma SetupProjectsStep(reg: Registry, order: seq<string>, s: Settings, here: seq<Command>, rest: Outcome<Error>)
    requires order != [] && forall i | 0 <= i < |order| :: order[i] in reg
    requires IsReservedKey(order[0]) || reg[order[0]].Project?
    requires !IsReservedKey(order[0]) ==>
               Git(Clone(AuthUrl(s.token, reg[order[0]].config.repo), TargetDir(s.root, order[0])), None) in here
    requires rest.failure.None? <==> ProjectsReadable(reg, order[1..])
    requires rest.failure.None? ==> ClonesAll(reg, order[1..], s, rest.issued)
    requires var m := FirstUnreadable(reg, order[1..]);
             && (rest.failure.Some? ==> m < |order[1..]| && rest.failure == Some(NotAProject(order[1..][m])))
             && ClonesAll(reg, order[1..][..m], s, rest.issued)
    ensures ProjectsReadable(reg, order) <==> ProjectsReadable(reg, order[1..])
    ensures rest.failure.None? ==> ClonesAll(reg, order, s, here + rest.issued)
    ensures var n := FirstUnreadable(reg, order);
            && (rest.failure.Some? ==> n < |order| && rest.failure == Some(NotAProject(order[n])))
            && ClonesAll(reg, order[..n], s, here + rest.issued)
  {
    ProjectsReadableStep(reg, order);
    var n := FirstUnreadable(reg, order);
    assert n == FirstUnreadable(reg, order[1..]) + 1;
    assert order[..n][1..] == order[1..][..n - 1];
    ClonesAllStep(reg, order[..n], s, here, rest.issued);
    if rest.failure.None? {
      ClonesAllStep(reg, order, s, here, rest.issued);
    }
  }

  /** What a run issues before it stops is exactly what a run over the keys
      before the first unreadable value issues: every clone, commit, push,
      migration and secret step of those projects has taken effect. */
  lemma {:induction false} SetupStopsAtFirstUnreadable(reg: Registry, order: seq<string>, s: Settings, host: Host)
    requires forall i | 0 <= i < |order| :: order[i] in reg
    ensures var n := FirstUnreadable(reg, order);
            && SetupProjects(reg, order[..n], s, host) == Outcome(SetupProjects(reg, order, s, host).issued, None)
    decreases |order|
  {
    var n := FirstUnreadable(reg, order);
    if order != [] && !(!IsReservedKey(order[0]) && reg[order[0]].Malformed?) {
      SetupStopsAtFirstUnreadable(reg, order[1..], s, host);
      assert order[..n][0] == order[0];
      assert order[..n][1..] == order[1..][..n - 1];
    }
  }

  /** `setup`: create the workspace if needed, set the global git identity,
      then process the projects. Every project is cloned from its repository
      into its own directory under the workspace; a value that does not read
      as a project stops the run after every project listed before it. */
  function HandleSetup(reg: Registry, order: seq<string>, s: Settings, host: Host): (r: Outcome<Error>)
    requires IsListingOf(order, reg)
    ensures r.failure.None? <==> ProjectsReadable(reg, order)
    ensures r.failure.None? ==> forall k | k in reg && !IsReservedKey(k) ::
              Git(Clone(AuthUrl(s.token, reg[k].config.repo), TargetDir(s.root, k)), None) in r.issued
    ensures var n := FirstUnreadable(reg, order);
            && (r.failure.Some? ==> n < |order| && r.failure == Some(NotAProject(order[n])))
            && ClonesAll(reg, order[..n], s, r.issued)
  {
    var ws := WorkspaceDir(s.root);
    var prelude :=
      (if host.present(ws) then [] else [MakeDirs(ws)])
      + [ Git(SetConfig(true, "user.name", "Kokuban-Bot"), None),
          Git(SetConfig(true, "user.email", "bot@kokuban.dev"), None) ];
    var rest := SetupProjects(reg, order, s, host);
    assert forall k | k in reg :: exists i | 0 <= i < |order| :: order[i] == k;
    Outcome(prelude + rest.issued, rest.failure)
  }

  // ------------------------------------------------------ Python setup_repos

  /** Python's clone URL: the token is used only when it is non-empty. */
  function PyAuthUrl(token: Option<string>, repo: string): string {
    if token.Some? && token.value != "" then "https://" + token.value + "@github.com/" + repo + ".git"
    else "https://github.com/" + repo + ".git"
  }

  /** The two tools clone from the same URL, except for an empty token, which
      the Rust tool still writes into the URL. */
  lemma CloneUrlsAgree(token: Option<string>, repo: string)
    ensures token != Some("") <==> AuthUrl(token, repo) == PyAuthUrl(token, repo)
  {
    if token == Some("") {
      assert AuthUrl(token, repo)[8] == '@';
      assert PyAuthUrl(token, repo)[8] == 'g';
    }
  }

  /** `os.path.join("kernel_workspace", key)`. */
  function PyTargetDir(key: string): string {
    PathJoin("kernel_workspace", key)
  }

  /** The working copy of an absolute key is the key itself; any other key
      lands under the workspace. */
  lemma PyTargetDirShape(k: string)
    ensures StartsWith(k, "/") ==> PyTargetDir(k) == k
    ensures !StartsWith(k, "/") ==> PyTargetDir(k) == "kernel_workspace/" + k && PyTargetDir(k)[0] == 'k'
  {
    var base := "kernel_workspace";
    assert base[|base| - 1] == 'e';
  }

  /** No two keys share a working copy. */
  lemma PyTargetDirInjective(a: string, b: string)
    requires PyTargetDir(a) == PyTargetDir(b)
    ensures a == b
  {
    PyTargetDirShape(a);
    PyTargetDirShape(b);
    if !StartsWith(a, "/") && !StartsWith(b, "/") {
      var base := "kernel_workspace/";
      assert (base + a)[|base|..] == a;
      assert (base + b)[|base|..] == b;
    }
  }

  lemma PyTargetDirOwner(key: string)
    ensures forall k :: PyTargetDir(k) == PyTargetDir(key) ==> k == key
  {
    forall k | PyTargetDir(k) == PyTargetDir(key)
      ensures k == key
    {
      PyTargetDirInjective(k, key);
    }
  }

  /** The repository member Python reads from a record: `proj.get("repo")`,
      skipped unless truthy (missing, null, empty text and `false` are not). */
  function PyRepo(o: Record): (r: Option<Json>)
    ensures r.Some? <==> Repo in o && Truthy(o[Repo])
    ensures r.Some? ==> r.value == o[Repo]
  {
    if Repo in o && Truthy(o[Repo]) then Some(o[Repo]) else None
  }

  /** The text the clone URL's f-string gives a repository value; only text
      and booleans are rendered. */
  function PyRepoText(j: Json): string {
    PyStr(j).GetOr("")
  }

  /** On a record the Rust tool reads as a project, Python processes it
      exactly when its repository is non-empty, and clones that repository. */
  lemma PyRepoOfProject(o: Record)
    requires Decode(o).Project?
    ensures PyRepo(o).Some? <==> Decode(o).config.repo != ""
    ensures PyRepo(o).Some? ==> PyRepoText(PyRepo(o).value) == Decode(o).config.repo
  {
    DecodeTexts(o);
  }

  /** The identity step Python runs in each processed clone (`git -C dir` is
      a git invocation inside `dir`). */
  function PyIdentity(dir: string): Command {
    GitIn(SetConfig(false, "user.name", "Kokuban-CI"), dir)
  }

  /** Python's commands for one project: pull an existing clone or clone a
      new one, then set the local identity. */
  function PyProjectCommands(key: string, repo: string, token: Option<string>, present: string -> bool): seq<Command> {
    var dir := PyTargetDir(key);
    [ if present(dir) then GitIn(Pull, dir) else Git(Clone(PyAuthUrl(token, repo), dir), None),
      PyIdentity(dir),
      GitIn(SetConfig(false, "user.email", "ci@kokuban.local"), dir) ]
  }
  /** The Python project loop: a record without a truthy `repo` is skipped. */
  function PySetupLoop(data: JsonFile, order: seq<string>, token: Option<string>,
                       present: string -> bool): (r: seq<Command>)
    requires forall i | 0 <= i < |order| :: order[i] in data
    ensures forall k :: PyIdentity(PyTargetDir(k)) in r <==>
              k in order && k in data && PyRepo(data[k]).Some?
    decreases |order|
  {
    if order == [] then []
    else
      var key := order[0];
      var rest := PySetupLoop(data, order[1..], token, present);
      assert forall k :: k in order <==> k == key || k in order[1..];
      PyTargetDirOwner(key);
      var repo := PyRepo(data[key]);
      if repo.None? then rest
      else PyProjectCommands(key, PyRepoText(repo.value), token, present) + rest
  }

  /** Python `setup_repos`: create the workspace when missing, then visit
      exactly the keys whose record has a truthy `repo`. */
  function PySetupRepos(file: Option<JsonFile>, order: seq<string>, token: Option<string>,
                        present: string -> bool): (r: seq<Command>)
    requires IsListingOf(order, LoadConfig(file))
    ensures forall k :: PyIdentity(PyTargetDir(k)) in r <==>
              k in LoadConfig(file) && PyRepo(LoadConfig(file)[k]).Some?
    ensures file.None? ==> r == (if present("kernel_workspace") then [] else [MakeDirs("kernel_workspace")])
  {
    var data := LoadConfig(file);
    var pre := if present("kernel_workspace") then [] else [MakeDirs("kernel_workspace")];
    assert forall k :: PyIdentity(PyTargetDir(k)) !in pre;
    pre + PySetupLoop(data, order, token, present)
  }
}
